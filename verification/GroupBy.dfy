/** What GROUP BY key, SUM(value), COUNT(*) means: a fold over the rows, and the
    ascending list of groups every execution path has to return. */
module GroupBy {
  import opened Sums

  datatype Row = Row(key: int, value: int)

  datatype Group = Group(key: int, sum: int, count: nat)

  function KeySum(rows: seq<Row>, k: int): int {
    if rows == [] then 0
    else
      var last := rows[|rows| - 1];
      KeySum(rows[..|rows| - 1], k) + if last.key == k then last.value else 0
  }

  function KeyCount(rows: seq<Row>, k: int): nat {
    if rows == [] then 0
    else KeyCount(rows[..|rows| - 1], k) + if rows[|rows| - 1].key == k then 1 else 0
  }

  function Total(rows: seq<Row>): int {
    if rows == [] then 0 else Total(rows[..|rows| - 1]) + rows[|rows| - 1].value
  }

  ghost predicate Ascending(out: seq<Group>) {
    forall i, j :: 0 <= i < j < |out| ==> out[i].key < out[j].key
  }

  ghost predicate HasKey(groups: seq<Group>, k: int) {
    exists i :: 0 <= i < |groups| && groups[i].key == k
  }

  /** One entry per key that occurs, in ascending key order, with that key's sum. */
  ghost predicate HasKeySums(rows: seq<Row>, out: seq<Group>) {
    && Ascending(out)
    && (forall i :: 0 <= i < |out| ==> KeyCount(rows, out[i].key) > 0 && out[i].sum == KeySum(rows, out[i].key))
    && (forall r :: 0 <= r < |rows| ==> HasKey(out, rows[r].key))
  }

  ghost predicate HasKeyCounts(rows: seq<Row>, out: seq<Group>) {
    forall i :: 0 <= i < |out| ==> out[i].count == KeyCount(rows, out[i].key)
  }

  ghost predicate IsGroupBy(rows: seq<Row>, out: seq<Group>) {
    HasKeySums(rows, out) && HasKeyCounts(rows, out)
  }

  /** A key has a positive count exactly when some row carries it. */
  lemma {:induction false} KeyCountPositive(rows: seq<Row>, k: int)
    ensures KeyCount(rows, k) > 0 <==> exists r :: 0 <= r < |rows| && rows[r].key == k
  {
    if rows != [] {
      var front := rows[..|rows| - 1];
      KeyCountPositive(front, k);
      if KeyCount(front, k) > 0 {
        var r :| 0 <= r < |front| && front[r].key == k;
        assert rows[r].key == k;
      }
      if r :| 0 <= r < |rows| && rows[r].key == k {
        assert r < |front| ==> front[r].key == k;
      }
    }
  }

  /** The ascending list is unique, so two paths that satisfy the specification
      return the same keys and sums entry by entry. */
  lemma {:induction false} KeySumsUnique(rows: seq<Row>, a: seq<Group>, b: seq<Group>)
    requires HasKeySums(rows, a) && HasKeySums(rows, b)
    ensures |a| == |b|
    ensures forall i :: 0 <= i < |a| ==> a[i].key == b[i].key && a[i].sum == b[i].sum
  {
    KeysContained(rows, a, b);
    KeysContained(rows, b, a);
    SameKeysSameLists(a, b);
  }

  lemma {:induction false} AbsentKey(rows: seq<Row>, k: int)
    requires forall r :: 0 <= r < |rows| ==> rows[r].key != k
    ensures KeySum(rows, k) == 0 && KeyCount(rows, k) == 0
  {
    if rows != [] {
      AbsentKey(rows[..|rows| - 1], k);
    }
  }

  lemma {:induction false} GroupByUnique(rows: seq<Row>, a: seq<Group>, b: seq<Group>)
    requires IsGroupBy(rows, a) && IsGroupBy(rows, b)
    ensures a == b
  {
    KeySumsUnique(rows, a, b);
  }

  lemma {:induction false} KeysContained(rows: seq<Row>, a: seq<Group>, b: seq<Group>)
    requires HasKeySums(rows, a) && HasKeySums(rows, b)
    ensures KeysWithin(a, b)
  {
    forall i | 0 <= i < |a| ensures HasKey(b, a[i].key) {
      KeyCountPositive(rows, a[i].key);
    }
  }

  /** Dropping the last entry of an ascending list drops exactly the largest key. */
  lemma {:induction false} DropLastKey(a: seq<Group>, k: int)
    requires Ascending(a) && a != []
    ensures HasKey(a[..|a| - 1], k) <==> HasKey(a, k) && k != a[|a| - 1].key
    ensures HasKey(a, k) ==> k <= a[|a| - 1].key
  {
    var front := a[..|a| - 1];
    if HasKey(a, k) && k != a[|a| - 1].key {
      var i :| 0 <= i < |a| && a[i].key == k;
      assert front[i].key == k;
    }
    if HasKey(front, k) {
      var i :| 0 <= i < |front| && front[i].key == k;
      assert a[i].key == k;
    }
  }

  ghost predicate KeysWithin(a: seq<Group>, b: seq<Group>) {
    forall i :: 0 <= i < |a| ==> HasKey(b, a[i].key)
  }

  lemma {:induction false} DropCommonLast(a: seq<Group>, b: seq<Group>)
    requires Ascending(a) && Ascending(b) && a != [] && b != []
    requires KeysWithin(a, b) && a[|a| - 1].key == b[|b| - 1].key
    ensures KeysWithin(a[..|a| - 1], b[..|b| - 1])
  {
    var a' := a[..|a| - 1];
    forall i | 0 <= i < |a'| ensures HasKey(b[..|b| - 1], a'[i].key) {
      assert a'[i] == a[i];
      assert HasKey(b, a[i].key);
      DropLastKey(b, a[i].key);
    }
  }

  lemma {:induction false} LastKeysAgree(a: seq<Group>, b: seq<Group>)
    requires Ascending(a) && Ascending(b) && a != [] && b != []
    requires KeysWithin(a, b) && KeysWithin(b, a)
    ensures a[|a| - 1].key == b[|b| - 1].key
  {
    assert HasKey(b, a[|a| - 1].key) && HasKey(a, b[|b| - 1].key);
    DropLastKey(b, a[|a| - 1].key);
    DropLastKey(a, b[|b| - 1].key);
  }

  lemma {:induction false} NotEmptyEither(a: seq<Group>, b: seq<Group>)
    requires KeysWithin(a, b)
    ensures a != [] ==> b != []
  {
    assert a != [] ==> HasKey(b, a[0].key);
  }

  lemma {:induction false} SameKeysSameLists(a: seq<Group>, b: seq<Group>)
    requires Ascending(a) && Ascending(b)
    requires KeysWithin(a, b) && KeysWithin(b, a)
    ensures |a| == |b|
    ensures forall i :: 0 <= i < |a| ==> a[i].key == b[i].key
  {
    NotEmptyEither(a, b);
    NotEmptyEither(b, a);
    if a != [] {
      LastKeysAgree(a, b);
      DropCommonLast(a, b);
      DropCommonLast(b, a);
      var a', b' := a[..|a| - 1], b[..|b| - 1];
      SameKeysSameLists(a', b');
      forall i | 0 <= i < |a| ensures a[i].key == b[i].key {
        if i < |a'| {
          assert a'[i].key == b'[i].key;
        }
      }
    }
  }

  // Order does not matter to a group's sum and count.

  lemma {:induction false} RemoveRow(rows: seq<Row>, i: nat, k: int)
    requires i < |rows|
    ensures var rest := rows[..i] + rows[i + 1..];
            && KeySum(rows, k) == KeySum(rest, k) + (if rows[i].key == k then rows[i].value else 0)
            && KeyCount(rows, k) == KeyCount(rest, k) + (if rows[i].key == k then 1 else 0)
            && Total(rows) == Total(rest) + rows[i].value
  {
    var rest := rows[..i] + rows[i + 1..];
    var n := |rows| - 1;
    if i == n {
      assert rest == rows[..n];
    } else {
      RemoveRow(rows[..n], i, k);
      assert rest[..|rest| - 1] == rows[..n][..i] + rows[..n][i + 1..];
      assert rest[|rest| - 1] == rows[n];
    }
  }

  lemma {:induction false} WithoutElement<T>(s: seq<T>, i: nat)
    requires i < |s|
    ensures multiset(s[..i] + s[i + 1..]) == multiset(s) - multiset{s[i]}
  {
    var left, right := s[..i], s[i + 1..];
    assert s == left + ([s[i]] + right);
    assert multiset(s) == multiset(left) + (multiset{s[i]} + multiset(right));
  }

  lemma {:induction false} RemoveCommon<T>(a: seq<T>, b: seq<T>, i: nat)
    requires multiset(a) == multiset(b) && a != [] && i < |b| && b[i] == a[|a| - 1]
    ensures multiset(a[..|a| - 1]) == multiset(b[..i] + b[i + 1..])
  {
    var n := |a| - 1;
    WithoutElement(a, n);
    WithoutElement(b, i);
    assert a[..n] + a[n + 1..] == a[..n];
  }

  lemma {:induction false} PermutationInvariant(a: seq<Row>, b: seq<Row>, k: int)
    requires multiset(a) == multiset(b)
    ensures KeySum(a, k) == KeySum(b, k) && KeyCount(a, k) == KeyCount(b, k) && Total(a) == Total(b)
  {
    if a == [] {
      assert |b| == |multiset(b)| == |multiset(a)|;
    } else {
      assert a[|a| - 1] in multiset(b);
      var i :| 0 <= i < |b| && b[i] == a[|a| - 1];
      RemoveCommon(a, b, i);
      PermutationInvariant(a[..|a| - 1], b[..i] + b[i + 1..], k);
      RemoveRow(b, i, k);
    }
  }

  lemma {:induction false} AppendRow(rows: seq<Row>, row: Row, k: int)
    ensures KeySum(rows + [row], k) == KeySum(rows, k) + if row.key == k then row.value else 0
    ensures KeyCount(rows + [row], k) == KeyCount(rows, k) + if row.key == k then 1 else 0
    ensures Total(rows + [row]) == Total(rows) + row.value
  {
    assert (rows + [row])[..|rows|] == rows;
  }

  lemma {:induction false} ConcatSplits(a: seq<Row>, b: seq<Row>, k: int)
    ensures KeySum(a + b, k) == KeySum(a, k) + KeySum(b, k)
    ensures KeyCount(a + b, k) == KeyCount(a, k) + KeyCount(b, k)
    ensures Total(a + b) == Total(a) + Total(b)
  {
    if b == [] {
      assert a + b == a;
    } else {
      var front := b[..|b| - 1];
      assert (a + b)[..|a + b| - 1] == a + front;
      ConcatSplits(a, front, k);
    }
  }

  /** Per-row contributions to a key add up to that key's sum; the same for counts. */
  lemma {:induction false} PartsAreKeySum(rows: seq<Row>, parts: seq<int>, k: int)
    requires |rows| == |parts|
    requires forall i :: 0 <= i < |rows| ==> parts[i] == (if rows[i].key == k then rows[i].value else 0)
    ensures Sum(parts) == KeySum(rows, k)
  {
    if rows != [] {
      var n := |rows| - 1;
      PartsAreKeySum(rows[..n], parts[..n], k);
      PrefixDependsOnPrefix(parts[..n], parts, n);
    }
  }

  lemma {:induction false} PartsAreKeyCount(rows: seq<Row>, parts: seq<int>, k: int)
    requires |rows| == |parts|
    requires forall i :: 0 <= i < |rows| ==> parts[i] == (if rows[i].key == k then 1 else 0)
    ensures Sum(parts) == KeyCount(rows, k)
  {
    if rows != [] {
      var n := |rows| - 1;
      PartsAreKeyCount(rows[..n], parts[..n], k);
      PrefixDependsOnPrefix(parts[..n], parts, n);
    }
  }

  lemma {:induction false} ValuesAreTotal(rows: seq<Row>, values: seq<int>)
    requires |rows| == |values|
    requires forall i :: 0 <= i < |rows| ==> values[i] == rows[i].value
    ensures Sum(values) == Total(rows)
  {
    if rows != [] {
      var n := |rows| - 1;
      ValuesAreTotal(rows[..n], values[..n]);
      PrefixDependsOnPrefix(values[..n], values, n);
    }
  }

  // std::sort by key, as every host path ends with it.

  function InsertByKey(out: seq<Group>, g: Group): seq<Group> {
    if out == [] || out[|out| - 1].key <= g.key then out + [g]
    else InsertByKey(out[..|out| - 1], g) + [out[|out| - 1]]
  }

  function SortByKey(groups: seq<Group>): seq<Group> {
    if groups == [] then [] else InsertByKey(SortByKey(groups[..|groups| - 1]), groups[|groups| - 1])
  }

  lemma {:induction false} InsertPermutes(out: seq<Group>, g: Group)
    ensures multiset(InsertByKey(out, g)) == multiset(out) + multiset{g}
  {
    if out != [] && out[|out| - 1].key > g.key {
      InsertPermutes(out[..|out| - 1], g);
      assert out == out[..|out| - 1] + [out[|out| - 1]];
    }
  }

  lemma {:induction false} SortPermutes(groups: seq<Group>)
    ensures multiset(SortByKey(groups)) == multiset(groups)
    ensures |SortByKey(groups)| == |groups|
  {
    if groups != [] {
      var front, last := groups[..|groups| - 1], groups[|groups| - 1];
      SortPermutes(front);
      InsertPermutes(SortByKey(front), last);
      assert groups == front + [last];
    }
    assert |SortByKey(groups)| == |multiset(SortByKey(groups))| == |multiset(groups)|;
  }

  ghost predicate DistinctKeys(groups: seq<Group>) {
    forall i, j :: 0 <= i < j < |groups| ==> groups[i].key != groups[j].key
  }

  lemma {:induction false} InsertAscending(out: seq<Group>, g: Group)
    requires Ascending(out)
    requires forall i :: 0 <= i < |out| ==> out[i].key != g.key
    ensures Ascending(InsertByKey(out, g))
  {
    if out != [] && out[|out| - 1].key > g.key {
      var front, last := out[..|out| - 1], out[|out| - 1];
      InsertAscending(front, g);
      InsertPermutes(front, g);
      var r := InsertByKey(front, g);
      forall i | 0 <= i < |r| ensures r[i].key < last.key {
        assert r[i] in multiset(r);
        assert r[i] in front || r[i] == g;
      }
    }
  }

  /** Sorting groups with distinct keys gives the ascending list of the same groups. */
  lemma {:induction false} SortByKeyAscending(groups: seq<Group>)
    requires DistinctKeys(groups)
    ensures Ascending(SortByKey(groups))
  {
    if groups != [] {
      var front := groups[..|groups| - 1];
      SortByKeyAscending(front);
      SortPermutes(front);
      var s := SortByKey(front);
      forall i | 0 <= i < |s| ensures s[i].key != groups[|groups| - 1].key {
        assert s[i] in multiset(s);
        assert s[i] in front;
      }
      InsertAscending(s, groups[|groups| - 1]);
    }
  }

  /** An unordered list with distinct keys and right sums sorts into the specified list. */
  lemma {:induction false} SortedGroupsMeetSpec(rows: seq<Row>, groups: seq<Group>)
    requires DistinctKeys(groups)
    requires forall i :: 0 <= i < |groups| ==>
               KeyCount(rows, groups[i].key) > 0 && groups[i].sum == KeySum(rows, groups[i].key)
    requires forall r :: 0 <= r < |rows| ==> HasKey(groups, rows[r].key)
    ensures HasKeySums(rows, SortByKey(groups))
    ensures HasKeyCounts(rows, groups) ==> IsGroupBy(rows, SortByKey(groups))
  {
    var s := SortByKey(groups);
    SortByKeyAscending(groups);
    SortPermutes(groups);
    forall i | 0 <= i < |s| ensures s[i] in groups {
      assert s[i] in multiset(s);
    }
    forall r | 0 <= r < |rows| ensures HasKey(s, rows[r].key) {
      var i :| 0 <= i < |groups| && groups[i].key == rows[r].key;
      assert groups[i] in multiset(s);
    }
  }

  // Totals of a result.

  function GroupTotal(groups: seq<Group>): int {
    if groups == [] then 0 else GroupTotal(groups[..|groups| - 1]) + groups[|groups| - 1].sum
  }

  lemma {:induction false} GroupTotalConcat(a: seq<Group>, b: seq<Group>)
    ensures GroupTotal(a + b) == GroupTotal(a) + GroupTotal(b)
  {
    if b == [] {
      assert a + b == a;
    } else {
      assert (a + b)[..|a + b| - 1] == a + b[..|b| - 1];
      GroupTotalConcat(a, b[..|b| - 1]);
    }
  }

  /** The checksum both partitioned paths take over their result, for sums a double carries exactly. */
  predicate ChecksumOk(rows: seq<Row>, out: seq<Group>) {
    out != [] && Total(rows) == GroupTotal(out)
  }

  lemma {:induction false} GroupTotalWithout(a: seq<Group>, i: nat)
    requires i < |a|
    ensures GroupTotal(a) == GroupTotal(a[..i] + a[i + 1..]) + a[i].sum
  {
    GroupTotalConcat(a[..i], a[i + 1..]);
    GroupTotalConcat(a[..i], [a[i]]);
    GroupTotalConcat(a[..i] + [a[i]], a[i + 1..]);
    assert a == a[..i] + [a[i]] + a[i + 1..];
  }

  lemma {:induction false} GroupTotalPermutes(a: seq<Group>, b: seq<Group>)
    requires multiset(a) == multiset(b)
    ensures GroupTotal(a) == GroupTotal(b)
  {
    if b == [] {
      assert |a| == |multiset(a)| == |multiset(b)|;
    } else {
      var n := |b| - 1;
      assert b[n] in multiset(a);
      var i :| 0 <= i < |a| && a[i] == b[n];
      RemoveCommon(b, a, i);
      GroupTotalPermutes(a[..i] + a[i + 1..], b[..n]);
      GroupTotalWithout(a, i);
    }
  }
}
