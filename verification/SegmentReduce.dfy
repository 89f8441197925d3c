/** The host's segment reduce, over rows in any order: one pass below 16384 rows, from there on eight threads
    whose ranges cut no run of equal keys. It says exactly which orders make it the GROUP BY. */
module SegmentReduce {
  import opened GroupBy

  ghost predicate KeySorted(rows: seq<Row>) {
    forall i, j :: 0 <= i < j < |rows| ==> rows[i].key <= rows[j].key
  }

  const SEG_THREADS: nat := 8
  const PARALLEL_ROWS: nat := 16384

  lemma {:induction false} ConstantKey(rows: seq<Row>, k: int)
    requires forall r :: 0 <= r < |rows| ==> rows[r].key == k
    ensures KeySum(rows, k) == Total(rows) && KeyCount(rows, k) == |rows|
  {
    if rows != [] {
      ConstantKey(rows[..|rows| - 1], k);
    }
  }

  lemma {:induction false} GroupKeyOccurs(rows: seq<Row>, out: seq<Group>, i: nat) returns (r: nat)
    requires HasKeySums(rows, out) && i < |out|
    ensures r < |rows| && rows[r].key == out[i].key
  {
    KeyCountPositive(rows, out[i].key);
    r :| 0 <= r < |rows| && rows[r].key == out[i].key;
  }

  /** One run of equal keys is one group. */
  lemma {:induction false} RunReduced(run: seq<Row>, k: int)
    requires run != [] && forall r :: 0 <= r < |run| ==> run[r].key == k
    ensures IsGroupBy(run, [Group(k, Total(run), |run|)])
  {
    ConstantKey(run, k);
    var out := [Group(k, Total(run), |run|)];
    forall r | 0 <= r < |run| ensures HasKey(out, run[r].key) {
      assert out[0].key == run[r].key;
    }
  }

  // ---- Runs ----

  /** One more row: it joins the last run if its key is that run's. */
  function AddToRuns(runs: seq<Group>, row: Row): seq<Group> {
    if runs != [] && runs[|runs| - 1].key == row.key then
      var g := runs[|runs| - 1];
      runs[..|runs| - 1] + [Group(g.key, g.sum + row.value, g.count + 1)]
    else runs + [Group(row.key, row.value, 1)]
  }

  /** One group for every run of equal neighbouring keys, in order, with the run's total and length. */
  function Runs(rows: seq<Row>): seq<Group> {
    if rows == [] then [] else AddToRuns(Runs(rows[..|rows| - 1]), rows[|rows| - 1])
  }

  lemma {:induction false} RunsAppend(rows: seq<Row>, row: Row)
    ensures Runs(rows + [row]) == AddToRuns(Runs(rows), row)
  {
    assert (rows + [row])[..|rows|] == rows;
  }

  lemma {:induction false} LastRun(rows: seq<Row>)
    requires rows != []
    ensures Runs(rows) != [] && Runs(rows)[|Runs(rows)| - 1].key == rows[|rows| - 1].key
  {
  }

  /** The next run of equal keys is the next group. */
  lemma {:induction false} AppendRun(rows: seq<Row>, run: seq<Row>, k: int)
    requires rows == [] || rows[|rows| - 1].key != k
    requires run != [] && forall r :: 0 <= r < |run| ==> run[r].key == k
    ensures Runs(rows + run) == Runs(rows) + [Group(k, Total(run), |run|)]
  {
    var front, last := run[..|run| - 1], run[|run| - 1];
    assert run == front + [last];
    AppendRow(front, last, k);
    if front == [] {
      assert rows + run == rows + [last];
      StartRun(rows, last);
    } else {
      AppendRun(rows, front, k);
      ContinueRun(rows, front, last, Group(k, Total(front), |front|));
    }
  }

  lemma {:induction false} StartRun(rows: seq<Row>, row: Row)
    requires rows == [] || rows[|rows| - 1].key != row.key
    ensures Runs(rows + [row]) == Runs(rows) + [Group(row.key, row.value, 1)]
  {
    RunsAppend(rows, row);
    if rows != [] {
      LastRun(rows);
    }
  }

  lemma {:induction false} ContinueRun(rows: seq<Row>, front: seq<Row>, row: Row, g: Group)
    requires Runs(rows + front) == Runs(rows) + [g] && g.key == row.key
    ensures Runs(rows + (front + [row])) == Runs(rows) + [Group(g.key, g.sum + row.value, g.count + 1)]
  {
    assert rows + (front + [row]) == (rows + front) + [row];
    RunsAppend(rows + front, row);
    AddToLast(Runs(rows), g, row);
  }

  lemma {:induction false} AddToLast(runs: seq<Group>, g: Group, row: Row)
    requires g.key == row.key
    ensures AddToRuns(runs + [g], row) == runs + [Group(g.key, g.sum + row.value, g.count + 1)]
  {
    assert (runs + [g])[..|runs + [g]| - 1] == runs;
  }

  /** Where the key changes, the runs of the two sides are the runs of the whole. */
  lemma {:induction false} RunsConcat(a: seq<Row>, b: seq<Row>)
    requires a == [] || b == [] || a[|a| - 1].key != b[0].key
    ensures Runs(a + b) == Runs(a) + Runs(b)
  {
    if b == [] {
      assert a + b == a;
    } else if |b| == 1 {
      OneBehind(a, b[0]);
      assert b == [b[0]];
    } else {
      RunsConcat(a, b[..|b| - 1]);
      NextBehind(a, b);
    }
  }

  lemma {:induction false} OneBehind(a: seq<Row>, row: Row)
    requires a == [] || a[|a| - 1].key != row.key
    ensures Runs(a + [row]) == Runs(a) + Runs([row])
  {
    StartRun(a, row);
    StartRun([], row);
    assert [] + [row] == [row];
  }

  lemma {:induction false} NextBehind(a: seq<Row>, b: seq<Row>)
    requires |b| > 1 && Runs(a + b[..|b| - 1]) == Runs(a) + Runs(b[..|b| - 1])
    ensures Runs(a + b) == Runs(a) + Runs(b)
  {
    var front, last := b[..|b| - 1], b[|b| - 1];
    assert a + b == (a + front) + [last];
    RunsAppend(a + front, last);
    LastRun(front);
    AddBehind(Runs(a), Runs(front), last);
  }

  lemma {:induction false} AddBehind(a: seq<Group>, b: seq<Group>, row: Row)
    requires b != []
    ensures AddToRuns(a + b, row) == a + AddToRuns(b, row)
  {
    assert (a + b)[..|a + b| - 1] == a + b[..|b| - 1];
  }

  /** Whatever the order of the rows, no value is lost. */
  lemma {:induction false} RunsTotal(rows: seq<Row>)
    ensures GroupTotal(Runs(rows)) == Total(rows)
  {
    if rows != [] {
      RunsTotal(rows[..|rows| - 1]);
      AddTotal(Runs(rows[..|rows| - 1]), rows[|rows| - 1]);
    }
  }

  lemma {:induction false} AddTotal(runs: seq<Group>, row: Row)
    ensures GroupTotal(AddToRuns(runs, row)) == GroupTotal(runs) + row.value
  {
    var out := AddToRuns(runs, row);
    if |out| == |runs| {
      assert out[..|out| - 1] == runs[..|runs| - 1];
    } else {
      assert out[..|out| - 1] == runs;
    }
  }

  lemma {:induction false} SortedRuns(rows: seq<Row>)
    requires KeySorted(rows)
    ensures IsGroupBy(rows, Runs(rows))
  {
    if rows != [] {
      var n := |rows| - 1;
      SortedRuns(rows[..n]);
      AddLargest(rows[..n], Runs(rows[..n]), rows[n]);
      assert rows == rows[..n] + [rows[n]];
    }
  }

  /** A row whose key is the largest so far joins the last group or starts the next one. */
  lemma {:induction false} AddLargest(rows: seq<Row>, out: seq<Group>, row: Row)
    requires IsGroupBy(rows, out) && forall r :: 0 <= r < |rows| ==> rows[r].key <= row.key
    ensures IsGroupBy(rows + [row], AddToRuns(out, row))
  {
    var after := AddToRuns(out, row);
    GroupsAtMost(rows, out, row.key);
    AddedKeys(out, row);
    forall i | 0 <= i < |after| ensures GroupExact(rows + [row], after[i]) {
      AddedGroup(rows, out, row, i);
    }
    forall r | 0 <= r < |rows + [row]| ensures HasKey(after, (rows + [row])[r].key) {
      if r < |rows| {
        var i :| 0 <= i < |out| && out[i].key == rows[r].key;
        assert after[i].key == out[i].key;
      } else {
        assert after[|after| - 1].key == row.key;
      }
    }
    forall i | 0 <= i < |after|
      ensures KeyCount(rows + [row], after[i].key) > 0 && after[i].sum == KeySum(rows + [row], after[i].key)
      ensures after[i].count == KeyCount(rows + [row], after[i].key)
    {
      assert GroupExact(rows + [row], after[i]);
    }
  }

  ghost predicate GroupExact(rows: seq<Row>, g: Group) {
    KeyCount(rows, g.key) > 0 && g.sum == KeySum(rows, g.key) && g.count == KeyCount(rows, g.key)
  }

  lemma {:induction false} GroupsAtMost(rows: seq<Row>, out: seq<Group>, k: int)
    requires HasKeySums(rows, out) && forall r :: 0 <= r < |rows| ==> rows[r].key <= k
    ensures forall i :: 0 <= i < |out| ==> out[i].key <= k
  {
    forall i | 0 <= i < |out| ensures out[i].key <= k {
      var r := GroupKeyOccurs(rows, out, i);
    }
  }

  lemma {:induction false} AddedKeys(out: seq<Group>, row: Row)
    requires Ascending(out) && forall i :: 0 <= i < |out| ==> out[i].key <= row.key
    ensures Ascending(AddToRuns(out, row))
    ensures |AddToRuns(out, row)| >= |out|
    ensures forall i :: 0 <= i < |out| ==> AddToRuns(out, row)[i].key == out[i].key
  {
    var after := AddToRuns(out, row);
    if |after| == |out| + 1 {
      forall i | 0 <= i < |out| ensures out[i].key < row.key {
        assert i < |out| - 1 ==> out[i].key < out[|out| - 1].key;
      }
    }
  }

  lemma {:induction false} AddedGroup(rows: seq<Row>, out: seq<Group>, row: Row, i: nat)
    requires IsGroupBy(rows, out) && (forall j :: 0 <= j < |out| ==> out[j].key <= row.key)
    requires (forall r :: 0 <= r < |rows| ==> rows[r].key <= row.key) && i < |AddToRuns(out, row)|
    ensures GroupExact(rows + [row], AddToRuns(out, row)[i])
  {
    var after := AddToRuns(out, row);
    AppendRow(rows, row, after[i].key);
    if i < |after| - 1 {
      assert out[i].key < row.key by {
        assert i < |out| - 1 ==> out[i].key < out[|out| - 1].key;
      }
    } else if |after| == |out| + 1 {
      NewKey(rows, out, row);
    }
  }

  lemma {:induction false} NewKey(rows: seq<Row>, out: seq<Group>, row: Row)
    requires IsGroupBy(rows, out) && (forall j :: 0 <= j < |out| ==> out[j].key <= row.key)
    requires out == [] || out[|out| - 1].key != row.key
    ensures KeySum(rows, row.key) == 0 && KeyCount(rows, row.key) == 0
  {
    forall r | 0 <= r < |rows| ensures rows[r].key != row.key {
      assert HasKey(out, rows[r].key);
      var j :| 0 <= j < |out| && out[j].key == rows[r].key;
      assert j < |out| - 1 ==> out[j].key < out[|out| - 1].key;
    }
    AbsentKey(rows, row.key);
  }

  lemma {:induction false} AscendingRunsSorted(rows: seq<Row>)
    requires Ascending(Runs(rows))
    ensures KeySorted(rows)
  {
    if |rows| > 1 {
      var front, last := rows[..|rows| - 1], rows[|rows| - 1];
      assert rows == front + [last];
      LastRun(front);
      AddedAscending(Runs(front), last);
      AscendingRunsSorted(front);
      SortedAppend(front, last);
    }
  }

  lemma {:induction false} SortedAppend(front: seq<Row>, last: Row)
    requires KeySorted(front) && front != [] && front[|front| - 1].key <= last.key
    ensures KeySorted(front + [last])
  {
    forall i | 0 <= i < |front| ensures front[i].key <= last.key {
      assert front[i].key <= front[|front| - 1].key;
    }
  }

  lemma {:induction false} AddedAscending(runs: seq<Group>, row: Row)
    requires runs != [] && Ascending(AddToRuns(runs, row))
    ensures Ascending(runs) && runs[|runs| - 1].key <= row.key
  {
    var after := AddToRuns(runs, row);
    forall i, j | 0 <= i < j < |runs| ensures runs[i].key < runs[j].key {
      assert after[i].key < after[j].key;
    }
    if |after| == |runs| + 1 {
      assert after[|runs| - 1].key < after[|runs|].key;
    }
  }

  /** Exactly what the run loop needs: its groups are the GROUP BY of the rows if and only if the rows are
      sorted by key. */
  lemma {:induction false} RunsAreGroupByIff(rows: seq<Row>)
    ensures HasKeySums(rows, Runs(rows)) <==> KeySorted(rows)
  {
    if KeySorted(rows) {
      SortedRuns(rows);
    }
    if HasKeySums(rows, Runs(rows)) {
      AscendingRunsSorted(rows);
    }
  }

  // ---- Equal keys together ----

  /** Rows of one key stand next to each other. */
  ghost predicate KeysTogether(rows: seq<Row>) {
    forall a, b, c :: 0 <= a < b < c < |rows| && rows[a].key == rows[c].key ==> rows[b].key == rows[a].key
  }

  /** If no key comes out twice, equal keys stood together. */
  lemma {:induction false} DistinctRunsTogether(rows: seq<Row>, a: nat, b: nat, c: nat)
    requires DistinctKeys(Runs(rows)) && a < b < c < |rows| && rows[a].key == rows[c].key
    ensures rows[b].key == rows[a].key
  {
    var n := |rows| - 1;
    var front, last := rows[..n], rows[n];
    DistinctBefore(Runs(front), last);
    if c < n {
      DistinctRunsTogether(front, a, b, c);
    } else {
      JoinsLastRow(front, last, a);
      if b < n - 1 {
        DistinctRunsTogether(front, a, b, n - 1);
      }
    }
  }

  lemma {:induction false} JoinsLastRow(front: seq<Row>, last: Row, a: nat)
    requires DistinctKeys(AddToRuns(Runs(front), last)) && a < |front| && front[a].key == last.key
    ensures front[|front| - 1].key == last.key
  {
    LastRun(front);
    RowHasRun(front, a);
    JoinsLast(Runs(front), last);
  }

  /** A key that has a run already can only join the last one without coming out twice. */
  lemma {:induction false} JoinsLast(runs: seq<Group>, row: Row)
    requires DistinctKeys(AddToRuns(runs, row)) && HasKey(runs, row.key)
    ensures runs != [] && runs[|runs| - 1].key == row.key
  {
    var after := AddToRuns(runs, row);
    var i :| 0 <= i < |runs| && runs[i].key == row.key;
    assert after[i].key == row.key == after[|after| - 1].key;
  }

  lemma {:induction false} DistinctBefore(runs: seq<Group>, row: Row)
    requires DistinctKeys(AddToRuns(runs, row))
    ensures DistinctKeys(runs)
  {
    var after := AddToRuns(runs, row);
    forall i, j | 0 <= i < j < |runs| ensures runs[i].key != runs[j].key {
      assert after[i].key == runs[i].key && after[j].key == runs[j].key;
    }
  }

  lemma {:induction false} RowHasRun(rows: seq<Row>, r: nat)
    requires r < |rows|
    ensures HasKey(Runs(rows), rows[r].key)
  {
    var front, last := rows[..|rows| - 1], rows[|rows| - 1];
    if r < |front| {
      RowHasRun(front, r);
    }
    AddKeepsKeys(Runs(front), last, rows[r].key);
  }

  lemma {:induction false} AddKeepsKeys(runs: seq<Group>, row: Row, k: int)
    requires HasKey(runs, k) || k == row.key
    ensures HasKey(AddToRuns(runs, row), k)
  {
    var after := AddToRuns(runs, row);
    if k == row.key {
      assert after[|after| - 1].key == k;
    } else {
      var i :| 0 <= i < |runs| && runs[i].key == k;
      assert after[i].key == k;
    }
  }

  /** Then every run is its key's group. */
  lemma {:induction false} TogetherRuns(rows: seq<Row>)
    requires KeysTogether(rows)
    ensures DistinctKeys(Runs(rows)) && AllExact(rows, Runs(rows))
  {
    if rows != [] {
      var front, last := rows[..|rows| - 1], rows[|rows| - 1];
      TogetherRuns(front);
      assert rows == front + [last];
      NewOrLast(front, last);
      AddDistinct(Runs(front), last);
      AddExact(front, Runs(front), last);
    }
  }

  ghost predicate AllExact(rows: seq<Row>, out: seq<Group>) {
    forall i :: 0 <= i < |out| ==> GroupExact(rows, out[i])
  }

  /** The row's key is the last run's or no run's. */
  ghost predicate JoinsOrStarts(runs: seq<Group>, row: Row) {
    forall i :: 0 <= i < |runs| - 1 ==> runs[i].key != row.key
  }

  lemma {:induction false} LastTogether(rows: seq<Row>, r: nat)
    requires KeysTogether(rows) && r + 1 < |rows|
    ensures rows[r].key == rows[|rows| - 1].key ==> rows[|rows| - 2].key == rows[r].key
  {
  }

  lemma {:induction false} NewOrLast(front: seq<Row>, last: Row)
    requires KeysTogether(front + [last]) && DistinctKeys(Runs(front)) && AllExact(front, Runs(front))
    ensures JoinsOrStarts(Runs(front), last)
  {
    var runs, rows := Runs(front), front + [last];
    forall i | 0 <= i < |runs| - 1 ensures runs[i].key != last.key {
      assert GroupExact(front, runs[i]);
      KeyCountPositive(front, runs[i].key);
      var r :| 0 <= r < |front| && front[r].key == runs[i].key;
      LastRun(front);
      LastTogether(rows, r);
    }
  }

  lemma {:induction false} AddDistinct(runs: seq<Group>, row: Row)
    requires DistinctKeys(runs) && JoinsOrStarts(runs, row)
    ensures DistinctKeys(AddToRuns(runs, row))
  {
  }

  lemma {:induction false} AddExact(front: seq<Row>, runs: seq<Group>, last: Row)
    requires runs == Runs(front) && DistinctKeys(runs) && AllExact(front, runs) && JoinsOrStarts(runs, last)
    ensures AllExact(front + [last], AddToRuns(runs, last))
  {
    var after := AddToRuns(runs, last);
    forall i | 0 <= i < |after| ensures GroupExact(front + [last], after[i]) {
      AppendRow(front, last, after[i].key);
      if i < |runs| {
        assert GroupExact(front, runs[i]);
      } else {
        NewRun(front, runs, last);
      }
    }
  }

  lemma {:induction false} NewRun(front: seq<Row>, runs: seq<Group>, last: Row)
    requires runs == Runs(front) && JoinsOrStarts(runs, last)
    requires runs == [] || runs[|runs| - 1].key != last.key
    ensures KeySum(front, last.key) == 0 && KeyCount(front, last.key) == 0
  {
    forall r | 0 <= r < |front| ensures front[r].key != last.key {
      RowHasRun(front, r);
      var i :| 0 <= i < |runs| && runs[i].key == front[r].key;
    }
    AbsentKey(front, last.key);
  }

  /** What sorting the runs needs: the sorted list is the GROUP BY of the rows if and only if equal keys stand
      together. */
  lemma {:induction false} SortedRunsAreGroupByIff(rows: seq<Row>)
    ensures HasKeySums(rows, SortByKey(WithoutCounts(Runs(rows)))) <==> KeysTogether(rows)
  {
    var runs := WithoutCounts(Runs(rows));
    if KeysTogether(rows) {
      TogetherRuns(rows);
      forall i | 0 <= i < |runs| ensures KeyCount(rows, runs[i].key) > 0 && runs[i].sum == KeySum(rows, runs[i].key) {
        assert GroupExact(rows, Runs(rows)[i]);
      }
      forall r | 0 <= r < |rows| ensures HasKey(runs, rows[r].key) {
        RowHasRun(rows, r);
        var i :| 0 <= i < |Runs(rows)| && Runs(rows)[i].key == rows[r].key;
        assert runs[i].key == rows[r].key;
      }
      SortedGroupsMeetSpec(rows, runs);
    }
    if HasKeySums(rows, SortByKey(runs)) {
      DistinctBeforeSort(runs);
      DistinctTogether(rows);
    }
  }

  lemma {:induction false} DistinctTogether(rows: seq<Row>)
    requires DistinctKeys(WithoutCounts(Runs(rows)))
    ensures KeysTogether(rows)
  {
    var runs, bare := Runs(rows), WithoutCounts(Runs(rows));
    forall i, j | 0 <= i < j < |runs| ensures runs[i].key != runs[j].key {
      assert bare[i].key != bare[j].key;
    }
    forall a, b, c | 0 <= a < b < c < |rows| && rows[a].key == rows[c].key ensures rows[b].key == rows[a].key {
      DistinctRunsTogether(rows, a, b, c);
    }
  }

  /** Sorting brings equal keys next to each other and removes none. */
  lemma {:induction false} DistinctBeforeSort(groups: seq<Group>)
    requires Ascending(SortByKey(groups))
    ensures DistinctKeys(groups)
  {
    if groups != [] {
      var front, last := groups[..|groups| - 1], groups[|groups| - 1];
      AscendingBeforeInsert(SortByKey(front), last);
      DistinctBeforeSort(front);
      SortPermutes(front);
      SameKeysAbsent(SortByKey(front), front, last.key);
      assert groups == front + [last];
    }
  }

  lemma {:induction false} SameKeysAbsent(a: seq<Group>, b: seq<Group>, k: int)
    requires multiset(a) == multiset(b) && forall i :: 0 <= i < |a| ==> a[i].key != k
    ensures forall i :: 0 <= i < |b| ==> b[i].key != k
  {
    forall i | 0 <= i < |b| ensures b[i].key != k {
      assert b[i] in multiset(a);
    }
  }

  lemma {:induction false} StillBelow(inner: seq<Group>, front: seq<Group>, g: Group, k: int)
    requires multiset(inner) == multiset(front) + multiset{g} && forall i :: 0 <= i < |inner| ==> inner[i].key < k
    ensures forall i :: 0 <= i < |front| ==> front[i].key < k
  {
    forall i | 0 <= i < |front| ensures front[i].key < k {
      assert front[i] in multiset(inner);
    }
  }

  lemma {:induction false} AscendingBeforeInsert(out: seq<Group>, g: Group)
    requires Ascending(InsertByKey(out, g))
    ensures Ascending(out) && forall i :: 0 <= i < |out| ==> out[i].key != g.key
  {
    var r := InsertByKey(out, g);
    if out != [] && out[|out| - 1].key > g.key {
      var front, last := out[..|out| - 1], out[|out| - 1];
      var inner := InsertByKey(front, g);
      assert r == inner + [last];
      forall i, j | 0 <= i < j < |inner| ensures inner[i].key < inner[j].key {
        assert r[i].key < r[j].key;
      }
      AscendingBeforeInsert(front, g);
      InsertPermutes(front, g);
      forall i | 0 <= i < |inner| ensures inner[i].key < last.key {
        assert r[i].key < r[|inner|].key;
      }
      StillBelow(inner, front, g, last.key);
    } else {
      assert r == out + [g];
      forall i, j | 0 <= i < j < |out| ensures out[i].key < out[j].key {
        assert r[i].key < r[j].key;
      }
      forall i | 0 <= i < |out| ensures out[i].key != g.key {
        assert r[i].key < r[|out|].key;
      }
    }
  }

  lemma {:induction false} SortedTogether(rows: seq<Row>)
    requires KeySorted(rows)
    ensures KeysTogether(rows)
  {
    forall a, b, c | 0 <= a < b < c < |rows| && rows[a].key == rows[c].key ensures rows[b].key == rows[a].key {
      assert rows[a].key <= rows[b].key <= rows[c].key;
    }
  }

  /** The inner loop: one run of equal keys. */
  method ReduceRun(rows: seq<Row>, i: nat, hi: nat) returns (sum: int, j: nat)
    requires i < hi <= |rows|
    ensures i < j <= hi && sum == Total(rows[i..j])
    ensures forall r :: 0 <= r < |rows[i..j]| ==> rows[i..j][r].key == rows[i].key
    ensures j == hi || rows[j - 1].key != rows[j].key
  {
    var k := rows[i].key;
    sum, j := 0, i;
    while j < hi && rows[j].key == k
      invariant i <= j <= hi
      invariant forall r :: i <= r < j ==> rows[r].key == k
      invariant sum == Total(rows[i..j])
    {
      assert rows[i..j + 1][..j - i] == rows[i..j];
      sum := sum + rows[j].value;
      j := j + 1;
    }
  }

  /** The run loop over rows[lo..hi], sorted or not: one entry per run of equal keys. */
  method ReduceRange(rows: seq<Row>, lo: nat, hi: nat) returns (out: seq<Group>)
    requires lo <= hi <= |rows|
    ensures out == Runs(rows[lo..hi])
  {
    out := [];
    var i := lo;
    while i < hi
      invariant lo <= i <= hi
      invariant i == lo || i == hi || rows[i - 1].key != rows[i].key
      invariant out == Runs(rows[lo..i])
    {
      var sum, j := ReduceRun(rows, i, hi);
      AppendRun(rows[lo..i], rows[i..j], rows[i].key);
      assert rows[lo..j] == rows[lo..i] + rows[i..j];
      out := out + [Group(rows[i].key, sum, j - i)];
      i := j;
    }
  }

  // Split points.

  /** The first position at or after s that does not continue a run. */
  function SkipRun(rows: seq<Row>, s: nat): (b: nat)
    requires s <= |rows|
    ensures s <= b <= |rows|
    decreases |rows| - s
  {
    if s < |rows| && s > 0 && rows[s].key == rows[s - 1].key then SkipRun(rows, s + 1) else s
  }

  lemma {:induction false} SkipRunMonotone(rows: seq<Row>, s: nat, u: nat)
    requires s <= u <= |rows|
    ensures SkipRun(rows, s) <= SkipRun(rows, u)
    decreases u - s
  {
    if s < u && s > 0 && rows[s].key == rows[s - 1].key {
      SkipRunMonotone(rows, s + 1, u);
    }
  }

  /** The key changes at position b, or b is an end. */
  ghost predicate CutsNoRun(rows: seq<Row>, b: nat) {
    b <= |rows| && (0 < b < |rows| ==> rows[b - 1].key != rows[b].key)
  }

  lemma {:induction false} SkipRunCutsNoRun(rows: seq<Row>, s: nat)
    requires s <= |rows|
    ensures CutsNoRun(rows, SkipRun(rows, s))
    decreases |rows| - s
  {
    if s < |rows| && s > 0 && rows[s].key == rows[s - 1].key {
      SkipRunCutsNoRun(rows, s + 1);
    }
  }

  /** The splits are in order, from 0 to the end, and cut no run. */
  ghost predicate Splits(rows: seq<Row>, starts: seq<nat>) {
    && |starts| == 9 && starts[0] == 0 && starts[8] == |rows|
    && (forall t :: 0 <= t < 8 ==> InOrder(rows, starts, t))
    && (forall t :: 0 <= t <= 8 ==> CutsNoRun(rows, starts[t]))
  }

  predicate InOrder(rows: seq<Row>, starts: seq<nat>, t: nat)
    requires t + 1 < |starts|
  {
    starts[t] <= starts[t + 1] <= |rows|
  }

  method NextSplit(rows: seq<Row>, from: nat) returns (s: nat)
    requires from <= |rows|
    ensures s == SkipRun(rows, from)
  {
    s := from;
    while s < |rows| && s > 0 && rows[s].key == rows[s - 1].key
      invariant from <= s <= |rows| && SkipRun(rows, s) == SkipRun(rows, from)
    {
      s := s + 1;
    }
  }

  /** Where the source starts looking for thread t's first row. */
  function Nominal(n: nat, t: nat): nat { n / SEG_THREADS * t }

  lemma {:induction false} NominalInOrder(n: nat, t: nat, u: nat)
    requires t <= u <= SEG_THREADS
    ensures Nominal(n, t) <= Nominal(n, u) <= n
  {
    var width := n / SEG_THREADS;
    assert width * u == width * t + width * (u - t);
    assert width * SEG_THREADS == width * u + width * (SEG_THREADS - u);
  }

  /** Where thread t starts. */
  ghost predicate StartsAt(rows: seq<Row>, t: nat, s: nat) {
    Nominal(|rows|, t) <= |rows| && s == SkipRun(rows, Nominal(|rows|, t))
  }

  lemma {:induction false} StartsAreSplits(rows: seq<Row>, starts: seq<nat>)
    requires |starts| == SEG_THREADS + 1 && starts[SEG_THREADS] == |rows|
    requires forall t :: 0 <= t < SEG_THREADS ==> StartsAt(rows, t, starts[t])
    ensures Splits(rows, starts)
  {
    forall t | 0 <= t < SEG_THREADS ensures InOrder(rows, starts, t) {
      assert StartsAt(rows, t, starts[t]);
      if t + 1 < SEG_THREADS {
        assert StartsAt(rows, t + 1, starts[t + 1]);
        NominalInOrder(|rows|, t, t + 1);
        SkipRunMonotone(rows, Nominal(|rows|, t), Nominal(|rows|, t + 1));
      }
    }
    assert StartsAt(rows, 0, starts[0]);
    forall t | 0 <= t < SEG_THREADS ensures CutsNoRun(rows, starts[t]) {
      assert StartsAt(rows, t, starts[t]);
      SkipRunCutsNoRun(rows, Nominal(|rows|, t));
    }
  }

  method SplitPoints(rows: seq<Row>) returns (starts: seq<nat>)
    ensures Splits(rows, starts)
  {
    var n := |rows|;
    starts := [0];
    for t := 1 to SEG_THREADS
      invariant |starts| == t && forall u :: 0 <= u < t ==> StartsAt(rows, u, starts[u])
    {
      NominalInOrder(n, t, SEG_THREADS);
      var s := NextSplit(rows, Nominal(n, t));
      starts := starts + [s];
    }
    starts := starts + [n];
    StartsAreSplits(rows, starts);
  }

  function WithoutCounts(out: seq<Group>): (r: seq<Group>)
    ensures |r| == |out|
  {
    seq(|out|, i requires 0 <= i < |out| => Group(out[i].key, out[i].sum, 0))
  }

  lemma {:induction false} TotalWithoutCounts(out: seq<Group>)
    ensures GroupTotal(WithoutCounts(out)) == GroupTotal(out)
  {
    if out != [] {
      TotalWithoutCounts(out[..|out| - 1]);
      assert WithoutCounts(out)[..|out| - 1] == WithoutCounts(out[..|out| - 1]);
    }
  }

  /** One worker's list behind the lists so far. */
  lemma {:induction false} NextSegment(rows: seq<Row>, lo: nat, hi: nat)
    requires lo <= hi <= |rows| && CutsNoRun(rows, lo)
    ensures WithoutCounts(Runs(rows[..lo])) + WithoutCounts(Runs(rows[lo..hi])) == WithoutCounts(Runs(rows[..hi]))
  {
    assert rows[..hi] == rows[..lo] + rows[lo..hi];
    RunsConcat(rows[..lo], rows[lo..hi]);
  }

  /** The eight workers' lists, in thread order: the runs of all rows. */
  method ReduceSegments(rows: seq<Row>, starts: seq<nat>) returns (out: seq<Group>)
    requires Splits(rows, starts)
    ensures out == WithoutCounts(Runs(rows))
  {
    out := [];
    for t := 0 to SEG_THREADS
      invariant starts[t] <= |rows| && out == WithoutCounts(Runs(rows[..starts[t]]))
    {
      assert InOrder(rows, starts, t) && CutsNoRun(rows, starts[t]);
      var part := ReduceRange(rows, starts[t], starts[t + 1]);
      NextSegment(rows, starts[t], starts[t + 1]);
      out := out + WithoutCounts(part);
    }
    assert rows[..starts[SEG_THREADS]] == rows;
  }

  /** HostSegmentReduce. Below 16384 rows it returns the runs, which are the GROUP BY exactly for rows sorted by
      key; from there on it returns them sorted and without counts, which is right exactly where equal keys
      stand together. On any rows it keeps the total. */
  method HostSegmentReduce(rows: seq<Row>) returns (out: seq<Group>)
    ensures out == if |rows| < 16_384 then Runs(rows) else SortByKey(WithoutCounts(Runs(rows)))
    ensures |rows| < 16_384 ==> (HasKeySums(rows, out) <==> KeySorted(rows))
    ensures |rows| < 16_384 && KeySorted(rows) ==> HasKeyCounts(rows, out)
    ensures |rows| >= 16_384 ==> (HasKeySums(rows, out) <==> KeysTogether(rows))
    ensures |rows| >= 16_384 ==> forall i :: 0 <= i < |out| ==> out[i].count == 0
    ensures GroupTotal(out) == Total(rows) && (out == [] <==> rows == [])
  {
    RunsTotal(rows);
    RunsAreGroupByIff(rows);
    if |rows| == 0 {
      return [];
    }
    LastRun(rows);
    if |rows| < PARALLEL_ROWS {
      out := ReduceRange(rows, 0, |rows|);
      assert rows[0..|rows|] == rows;
      if KeySorted(rows) {
        SortedRuns(rows);
      }
      return;
    }
    var starts := SplitPoints(rows);
    var parts := ReduceSegments(rows, starts);
    SortedRunsAreGroupByIff(rows);
    out := SortSegments(parts);
    TotalWithoutCounts(Runs(rows));
  }

  /** std::sort over the joined lists. */
  method SortSegments(parts: seq<Group>) returns (out: seq<Group>)
    requires forall i :: 0 <= i < |parts| ==> parts[i].count == 0
    ensures out == SortByKey(parts) && GroupTotal(out) == GroupTotal(parts) && |out| == |parts|
    ensures forall i :: 0 <= i < |out| ==> out[i].count == 0
  {
    out := SortByKey(parts);
    SortPermutes(parts);
    GroupTotalPermutes(out, parts);
    forall i | 0 <= i < |out| ensures out[i].count == 0 {
      assert out[i] in multiset(parts);
    }
  }

  /** The two branches return the same keys and sums, whatever the split. */
  lemma {:induction false} BranchesAgree(rows: seq<Row>, sequential: seq<Group>, parallel: seq<Group>)
    requires IsGroupBy(rows, sequential) && HasKeySums(rows, parallel)
    ensures WithoutCounts(sequential) == WithoutCounts(parallel)
  {
    KeySumsUnique(rows, sequential, parallel);
  }

  /** Zero counts are right only for no rows: the parallel branch's counts are never the groups' counts. */
  lemma {:induction false} ZeroCountsAreWrong(rows: seq<Row>, out: seq<Group>)
    requires HasKeySums(rows, out) && forall i :: 0 <= i < |out| ==> out[i].count == 0
    ensures HasKeyCounts(rows, out) <==> rows == []
  {
    if rows != [] {
      assert HasKey(out, rows[0].key);
      var i :| 0 <= i < |out| && out[i].key == rows[0].key;
      assert out[i].count == 0 < KeyCount(rows, out[i].key);
    }
  }
}
