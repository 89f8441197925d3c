/** The dense-window and sort-and-scatter paths of the group-by. Both return the one ascending list
    the specification allows, as the hash path does, so which of them runs cannot be observed. */
module DensePaths {
  import opened GroupBy
  import HashBuild
  import HashGroupBy
  import opened SegmentReduce

  const INT64_MIN: int := -0x8000_0000_0000_0000
  const INT64_MAX: int := 0x7FFF_FFFF_FFFF_FFFF
  const TWO64: nat := 0x1_0000_0000_0000_0000
  const MAX_SPAN: nat := 1048576

  predicate IsInt64(k: int) { INT64_MIN <= k <= INT64_MAX }

  /** The span test as the host computes it, the difference wrapping at 64 bits. */
  predicate DenseSpanOk(kmin: int, kmax: int) {
    if kmin == INT64_MIN || kmax == INT64_MIN then false
    else if kmax < kmin then false
    else
      var span := (kmax - kmin + 1) % TWO64;
      span > 0 && span <= MAX_SPAN
  }

  /** The wrap never lets a wide window through: the test is the exact one. */
  lemma {:induction false} DenseSpanExact(kmin: int, kmax: int)
    requires IsInt64(kmin) && IsInt64(kmax)
    ensures DenseSpanOk(kmin, kmax) <==> -0x8000_0000_0000_0000 < kmin <= kmax && kmax - kmin + 1 <= 1_048_576
  {
    if INT64_MIN < kmin <= kmax {
      assert 0 < kmax - kmin + 1 < TWO64;
      assert (kmax - kmin + 1) % TWO64 == kmax - kmin + 1;
    }
  }

  // ---- Dense tables ----

  /** Slot i of the tables holds key kmin + i's total and count, and the window holds every key. */
  ghost predicate TableHolds(rows: seq<Row>, kmin: int, sums: seq<int>, counts: seq<int>) {
    && |sums| == |counts|
    && (forall i :: 0 <= i < |sums| ==> sums[i] == KeySum(rows, kmin + i))
    && (forall i :: 0 <= i < |counts| ==> counts[i] == KeyCount(rows, kmin + i))
    && (forall r :: 0 <= r < |rows| ==> kmin <= rows[r].key < kmin + |sums|)
  }

  /** DenseRowsFromTables: the occupied slots, in order. */
  method DenseRowsFromTables(ghost rows: seq<Row>, kmin: int, sums: seq<int>, counts: seq<int>)
    returns (out: seq<Group>)
    requires TableHolds(rows, kmin, sums, counts)
    ensures IsGroupBy(rows, out)
  {
    out := [];
    for i := 0 to |sums|
      invariant forall g :: 0 <= g < |out| ==> kmin <= out[g].key < kmin + i
      invariant forall g :: 0 <= g < |out| ==>
                  out[g].sum == KeySum(rows, out[g].key) && out[g].count == KeyCount(rows, out[g].key) > 0
      invariant Ascending(out)
      invariant forall k :: kmin <= k < kmin + i && KeyCount(rows, k) > 0 ==> HasKey(out, k)
    {
      ghost var before := out;
      if counts[i] > 0 {
        out := out + [Group(kmin + i, sums[i], counts[i])];
        assert out[|before|].key == kmin + i;
      }
      forall k | kmin <= k < kmin + i + 1 && KeyCount(rows, k) > 0 ensures HasKey(out, k) {
        if k < kmin + i {
          var g :| 0 <= g < |before| && before[g].key == k;
          assert out[g].key == k;
        }
      }
    }
    forall r | 0 <= r < |rows| ensures HasKey(out, rows[r].key) {
      KeyCountPositive(rows, rows[r].key);
    }
  }

  // ---- The host's dense pass ----

  /** The rows whose key is not the NULL sentinel. */
  function Live(rows: seq<Row>): (r: seq<Row>)
    ensures forall i :: 0 <= i < |r| ==> r[i].key != INT64_MIN
  {
    if rows == [] then []
    else
      var last := rows[|rows| - 1];
      if last.key == INT64_MIN then Live(rows[..|rows| - 1]) else Live(rows[..|rows| - 1]) + [last]
  }

  lemma {:induction false} LivePrefix(rows: seq<Row>, i: nat)
    requires i < |rows|
    ensures rows[i].key == INT64_MIN ==> Live(rows[..i + 1]) == Live(rows[..i])
    ensures rows[i].key != INT64_MIN ==> Live(rows[..i + 1]) == Live(rows[..i]) + [rows[i]]
  {
    assert rows[..i + 1][..i] == rows[..i];
  }

  ghost predicate Occurs(rows: seq<Row>, k: int) {
    exists r :: 0 <= r < |rows| && rows[r].key == k
  }

  ghost predicate LiveBounds(rows: seq<Row>, kmin: int, kmax: int) {
    && (forall r :: 0 <= r < |rows| ==> kmin <= rows[r].key <= kmax)
    && (if rows == [] then kmin == INT64_MAX && kmax == INT64_MIN else Occurs(rows, kmin) && Occurs(rows, kmax))
  }

  lemma {:induction false} ExtendBounds(rows: seq<Row>, kmin: int, kmax: int, row: Row)
    requires LiveBounds(rows, kmin, kmax) && IsInt64(row.key)
    ensures LiveBounds(rows + [row], if row.key < kmin then row.key else kmin, if row.key > kmax then row.key else kmax)
  {
    var all := rows + [row];
    assert all[|rows|].key == row.key;
    forall k | Occurs(rows, k) ensures Occurs(all, k) {
      var r :| 0 <= r < |rows| && rows[r].key == k;
      assert all[r].key == k;
    }
  }

  method LiveMinMax(rows: seq<Row>) returns (kmin: int, kmax: int)
    requires forall r :: 0 <= r < |rows| ==> IsInt64(rows[r].key)
    ensures LiveBounds(Live(rows), kmin, kmax)
  {
    kmin, kmax := INT64_MAX, INT64_MIN;
    for i := 0 to |rows|
      invariant LiveBounds(Live(rows[..i]), kmin, kmax)
    {
      LivePrefix(rows, i);
      if rows[i].key == INT64_MIN {
        continue;
      }
      ExtendBounds(Live(rows[..i]), kmin, kmax, rows[i]);
      kmin := if rows[i].key < kmin then rows[i].key else kmin;
      kmax := if rows[i].key > kmax then rows[i].key else kmax;
    }
    assert rows[..|rows|] == rows;
  }

  /** Adds one row to its slot. */
  lemma {:induction false} TableTakesRow(rows: seq<Row>, kmin: int, sums: seq<int>, counts: seq<int>, row: Row)
    requires TableHolds(rows, kmin, sums, counts) && kmin <= row.key < kmin + |sums|
    ensures TableHolds(rows + [row], kmin, sums[row.key - kmin := sums[row.key - kmin] + row.value],
                       counts[row.key - kmin := counts[row.key - kmin] + 1])
  {
    forall k: int
      ensures KeySum(rows + [row], k) == KeySum(rows, k) + if row.key == k then row.value else 0
      ensures KeyCount(rows + [row], k) == KeyCount(rows, k) + if row.key == k then 1 else 0
    {
      AppendRow(rows, row, k);
    }
  }

  /** GroupbySumDenseHost: the group-by of the non-NULL rows if their window is small enough, else nothing. */
  method GroupbySumDenseHost(rows: seq<Row>) returns (out: seq<Group>, kmin: int, kmax: int)
    requires forall r :: 0 <= r < |rows| ==> IsInt64(rows[r].key)
    ensures LiveBounds(Live(rows), kmin, kmax)
    ensures DenseSpanOk(kmin, kmax) ==> IsGroupBy(Live(rows), out)
    ensures !DenseSpanOk(kmin, kmax) ==> out == []
  {
    kmin, kmax := LiveMinMax(rows);
    if |rows| == 0 || !DenseSpanOk(kmin, kmax) {
      return [], kmin, kmax;
    }
    BoundsAreInt64(rows, kmin, kmax);
    DenseSpanExact(kmin, kmax);
    var sums, counts := HostTables(rows, kmin, kmax);
    out := DenseRowsFromTables(Live(rows), kmin, sums, counts);
  }

  /** One row's two additions. */
  method AddToTables(s: array<int>, c: array<int>, kmin: int, row: Row, ghost live: seq<Row>)
    requires s != c && s.Length == c.Length && kmin <= row.key < kmin + s.Length
    requires TableHolds(live, kmin, s[..], c[..])
    modifies s, c
    ensures TableHolds(live + [row], kmin, s[..], c[..])
  {
    TableTakesRow(live, kmin, s[..], c[..], row);
    ghost var s0, c0 := s[..], c[..];
    var slot := row.key - kmin;
    s[slot] := s[slot] + row.value;
    c[slot] := c[slot] + 1;
    assert s[..] == s0[slot := s0[slot] + row.value] && c[..] == c0[slot := c0[slot] + 1];
  }

  method HostTables(rows: seq<Row>, kmin: int, kmax: int) returns (sums: seq<int>, counts: seq<int>)
    requires LiveBounds(Live(rows), kmin, kmax) && kmin <= kmax
    ensures TableHolds(Live(rows), kmin, sums, counts)
  {
    var s, c := new int[kmax - kmin + 1](_ => 0), new int[kmax - kmin + 1](_ => 0);
    ghost var live: seq<Row> := [];
    for i := 0 to |rows|
      invariant live == Live(rows[..i])
      invariant TableHolds(live, kmin, s[..], c[..]) && s.Length == c.Length == kmax - kmin + 1
    {
      LivePrefix(rows, i);
      if rows[i].key == INT64_MIN {
        continue;
      }
      LiveInBounds(rows, i, kmin, kmax);
      AddToTables(s, c, kmin, rows[i], live);
      live := live + [rows[i]];
    }
    assert rows[..|rows|] == rows;
    sums, counts := s[..], c[..];
  }

  lemma {:induction false} LiveRows(rows: seq<Row>, i: nat)
    requires i < |rows| && rows[i].key != INT64_MIN
    ensures rows[i] in Live(rows)
  {
    if i < |rows| - 1 {
      LiveRows(rows[..|rows| - 1], i);
    }
  }

  lemma {:induction false} LiveFromRows(rows: seq<Row>, j: nat)
    requires j < |Live(rows)|
    ensures Live(rows)[j] in rows
  {
    var front := rows[..|rows| - 1];
    if j < |Live(front)| {
      LiveFromRows(front, j);
    }
  }

  lemma {:induction false} LiveInBounds(rows: seq<Row>, i: nat, kmin: int, kmax: int)
    requires i < |rows| && rows[i].key != INT64_MIN && LiveBounds(Live(rows), kmin, kmax)
    ensures kmin <= rows[i].key <= kmax
  {
    LiveRows(rows, i);
    var j :| 0 <= j < |Live(rows)| && Live(rows)[j] == rows[i];
  }

  lemma {:induction false} BoundsAreInt64(rows: seq<Row>, kmin: int, kmax: int)
    requires forall r :: 0 <= r < |rows| ==> IsInt64(rows[r].key)
    requires LiveBounds(Live(rows), kmin, kmax)
    ensures IsInt64(kmin) && IsInt64(kmax)
  {
    forall j | 0 <= j < |Live(rows)| ensures IsInt64(Live(rows)[j].key) {
      LiveFromRows(rows, j);
    }
  }

  lemma {:induction false} LiveAll(rows: seq<Row>)
    requires forall r :: 0 <= r < |rows| ==> rows[r].key != INT64_MIN
    ensures Live(rows) == rows
  {
    if rows != [] {
      LiveAll(rows[..|rows| - 1]);
      assert rows == rows[..|rows| - 1] + [rows[|rows| - 1]];
    }
  }

  /** The rows a caller's validity mask keeps. */
  function Valid(rows: seq<Row>, valid: seq<bool>): seq<Row>
    requires |rows| == |valid|
  {
    if rows == [] then []
    else
      var n := |rows| - 1;
      if valid[n] then Valid(rows[..n], valid[..n]) + [rows[n]] else Valid(rows[..n], valid[..n])
  }

  /** Masked rows with a live key. */
  function MaskedLive(rows: seq<Row>, valid: seq<bool>, k: int): nat
    requires |rows| == |valid|
  {
    if rows == [] then 0
    else
      var n := |rows| - 1;
      MaskedLive(rows[..n], valid[..n], k) + if !valid[n] && rows[n].key == k then 1 else 0
  }

  lemma {:induction false} LiveCount(rows: seq<Row>, k: int)
    requires k != INT64_MIN
    ensures KeyCount(Live(rows), k) == KeyCount(rows, k)
  {
    if rows != [] {
      LiveCount(rows[..|rows| - 1], k);
      AppendRow(Live(rows[..|rows| - 1]), rows[|rows| - 1], k);
    }
  }

  lemma {:induction false} ValidCount(rows: seq<Row>, valid: seq<bool>, k: int)
    requires |rows| == |valid|
    ensures KeyCount(rows, k) == KeyCount(Valid(rows, valid), k) + MaskedLive(rows, valid, k)
  {
    if rows != [] {
      var n := |rows| - 1;
      ValidCount(rows[..n], valid[..n], k);
      AppendRow(Valid(rows[..n], valid[..n]), rows[n], k);
    }
  }

  lemma {:induction false} MaskedRowsCount(rows: seq<Row>, valid: seq<bool>, k: int)
    requires |rows| == |valid| && k != INT64_MIN
    ensures KeyCount(Live(rows), k) == KeyCount(Live(Valid(rows, valid)), k) + MaskedLive(rows, valid, k)
  {
    LiveCount(rows, k);
    LiveCount(Valid(rows, valid), k);
    ValidCount(rows, valid, k);
  }

  /** No row that the mask drops carries a live key. */
  predicate MaskDropsOnlyNulls(rows: seq<Row>, valid: seq<bool>)
    requires |rows| == |valid|
  {
    forall i :: 0 <= i < |rows| && !valid[i] ==> rows[i].key == INT64_MIN
  }

  lemma {:induction false} NothingMasked(rows: seq<Row>, valid: seq<bool>)
    requires |rows| == |valid| && MaskDropsOnlyNulls(rows, valid)
    ensures Live(Valid(rows, valid)) == Live(rows)
  {
    if rows != [] {
      var n := |rows| - 1;
      var front := Valid(rows[..n], valid[..n]);
      NothingMasked(rows[..n], valid[..n]);
      assert (front + [rows[n]])[..|front|] == front;
    }
  }

  lemma {:induction false} SomethingMasked(rows: seq<Row>, valid: seq<bool>, i: nat)
    requires |rows| == |valid| && i < |rows| && !valid[i]
    ensures MaskedLive(rows, valid, rows[i].key) > 0
  {
    var n := |rows| - 1;
    if i < n {
      SomethingMasked(rows[..n], valid[..n], i);
      assert rows[..n][i] == rows[i];
    }
  }

  /** The host dense path never reads the validity mask: its answer is the group-by of the valid rows
      exactly when the mask drops nothing but sentinel keys. */
  lemma {:induction false} MaskIgnored(rows: seq<Row>, valid: seq<bool>, out: seq<Group>)
    requires |rows| == |valid| && IsGroupBy(Live(rows), out)
    ensures IsGroupBy(Live(Valid(rows, valid)), out) <==> MaskDropsOnlyNulls(rows, valid)
  {
    if MaskDropsOnlyNulls(rows, valid) {
      NothingMasked(rows, valid);
    } else {
      var i :| 0 <= i < |rows| && !valid[i] && rows[i].key != INT64_MIN;
      MaskedRowsCount(rows, valid, rows[i].key);
      SomethingMasked(rows, valid, i);
      LiveRows(rows, i);
      var j :| 0 <= j < |Live(rows)| && Live(rows)[j] == rows[i];
      assert HasKey(out, Live(rows)[j].key);
      var g :| 0 <= g < |out| && out[g].key == rows[i].key;
      assert out[g].count == KeyCount(Live(rows), rows[i].key);
    }
  }

  // ---- The device's dense pass ----

  /** GroupbySumDenseGpu: the same tables by scatter-add, but a sentinel key closes the window test. */
  method GroupbySumDenseGpu(rows: seq<Row>, order: seq<Row>) returns (out: seq<Group>)
    requires forall r :: 0 <= r < |rows| ==> IsInt64(rows[r].key)
    requires multiset(order) == multiset(rows)
    ensures rows == [] || !DenseWindow(rows) ==> out == []
    ensures rows != [] && DenseWindow(rows) ==> IsGroupBy(rows, out)
  {
    if |rows| == 0 {
      return [];
    }
    var kmin, kmax := MinMax(rows);
    WindowOfExtremes(rows, kmin, kmax);
    if !DenseSpanOk(kmin, kmax) {
      return [];
    }
    DenseSpanExact(kmin, kmax);
    forall r | 0 <= r < |order| ensures kmin <= order[r].key <= kmax {
      assert order[r] in multiset(rows);
      var i :| 0 <= i < |rows| && rows[i] == order[r];
    }
    var sums, counts := ScatterTables(order, kmin, kmax);
    SameTables(order, rows, kmin, sums, counts);
    out := DenseRowsFromTables(rows, kmin, sums, counts);
  }

  /** scatter_add in any order of its updates. */
  method ScatterTables(order: seq<Row>, kmin: int, kmax: int) returns (sums: seq<int>, counts: seq<int>)
    requires kmin <= kmax && forall r :: 0 <= r < |order| ==> kmin <= order[r].key <= kmax
    ensures TableHolds(order, kmin, sums, counts) && |sums| == kmax - kmin + 1
  {
    var s, c := new int[kmax - kmin + 1](_ => 0), new int[kmax - kmin + 1](_ => 0);
    for i := 0 to |order|
      invariant TableHolds(order[..i], kmin, s[..], c[..]) && s.Length == c.Length == kmax - kmin + 1
    {
      TableTakesRow(order[..i], kmin, s[..], c[..], order[i]);
      assert order[..i + 1] == order[..i] + [order[i]];
      var slot := order[i].key - kmin;
      s[slot] := s[slot] + order[i].value;
      c[slot] := c[slot] + 1;
    }
    assert order[..|order|] == order;
    sums, counts := s[..], c[..];
  }

  lemma {:induction false} SameTables(a: seq<Row>, b: seq<Row>, kmin: int, sums: seq<int>, counts: seq<int>)
    requires multiset(a) == multiset(b) && TableHolds(a, kmin, sums, counts)
    ensures TableHolds(b, kmin, sums, counts)
  {
    forall k: int ensures KeySum(b, k) == KeySum(a, k) && KeyCount(b, k) == KeyCount(a, k) {
      PermutationInvariant(a, b, k);
    }
    forall r | 0 <= r < |b| ensures kmin <= b[r].key < kmin + |sums| {
      assert b[r] in multiset(a);
      var i :| 0 <= i < |a| && a[i] == b[r];
    }
  }

  /** No sentinel key, and all keys within one dense window. */
  ghost predicate DenseWindow(rows: seq<Row>) {
    forall i, j :: 0 <= i < |rows| && 0 <= j < |rows| ==>
      rows[i].key != -0x8000_0000_0000_0000 && rows[j].key - rows[i].key < 1_048_576
  }

  method MinMax(rows: seq<Row>) returns (kmin: int, kmax: int)
    requires rows != []
    ensures forall r :: 0 <= r < |rows| ==> kmin <= rows[r].key <= kmax
    ensures Occurs(rows, kmin) && Occurs(rows, kmax)
  {
    kmin, kmax := rows[0].key, rows[0].key;
    for i := 1 to |rows|
      invariant forall r :: 0 <= r < i ==> kmin <= rows[r].key <= kmax
      invariant Occurs(rows, kmin) && Occurs(rows, kmax)
    {
      kmin := if rows[i].key < kmin then rows[i].key else kmin;
      kmax := if rows[i].key > kmax then rows[i].key else kmax;
    }
  }

  lemma {:induction false} WindowOfExtremes(rows: seq<Row>, kmin: int, kmax: int)
    requires forall r :: 0 <= r < |rows| ==> IsInt64(rows[r].key) && kmin <= rows[r].key <= kmax
    requires Occurs(rows, kmin) && Occurs(rows, kmax)
    ensures DenseSpanOk(kmin, kmax) <==> DenseWindow(rows)
  {
    var a :| 0 <= a < |rows| && rows[a].key == kmin;
    var b :| 0 <= b < |rows| && rows[b].key == kmax;
    DenseSpanExact(kmin, kmax);
    if DenseWindow(rows) {
      assert rows[a].key != INT64_MIN && rows[b].key - rows[a].key < MAX_SPAN;
    }
  }

  // ---- Sort and scatter ----

  predicate StartsRun(rows: seq<Row>, i: nat)
    requires i < |rows|
  {
    i == 0 || rows[i].key != rows[i - 1].key
  }

  ghost predicate IdFollows(rows: seq<Row>, ids: seq<int>, i: nat)
    requires i < |ids| <= |rows|
  {
    ids[i] == (if i == 0 then -1 else ids[i - 1]) + if StartsRun(rows, i) then 1 else 0
  }

  /** The running sum of the run starts, less one: consecutive run numbers. */
  ghost predicate AreRunIds(rows: seq<Row>, ids: seq<int>) {
    |ids| <= |rows| && forall i :: 0 <= i < |ids| ==> IdFollows(rows, ids, i)
  }

  /** Among the first n rows, ids numbers the runs and heads lists their first rows. */
  ghost predicate Labels(rows: seq<Row>, ids: seq<int>, heads: seq<nat>, n: nat) {
    && n <= |rows| == |ids|
    && (forall j :: 0 <= j < |heads| ==> heads[j] < n && ids[heads[j]] == j)
    && (forall i :: 0 <= i < n ==> 0 <= ids[i] < |heads| && rows[heads[ids[i]]].key == rows[i].key)
    && (forall a, b :: 0 <= a < b < |heads| ==> rows[heads[a]].key < rows[heads[b]].key)
    && (n > 0 ==> ids[n - 1] == |heads| - 1)
  }

  method RunIds(rows: seq<Row>) returns (ids: seq<int>)
    ensures |ids| == |rows| && AreRunIds(rows, ids)
  {
    var running := 0;
    ids := [];
    for i := 0 to |rows|
      invariant |ids| == i && running == (if i == 0 then 0 else ids[i - 1] + 1)
      invariant AreRunIds(rows, ids)
    {
      running := running + if StartsRun(rows, i) then 1 else 0;
      ghost var before := ids;
      ids := ids + [running - 1];
      forall j | 0 <= j < i ensures IdFollows(rows, ids, j) {
        assert IdFollows(rows, before, j);
      }
    }
  }

  lemma {:induction false} LabelsNewRun(rows: seq<Row>, ids: seq<int>, heads: seq<nat>, n: nat)
    requires KeySorted(rows) && n < |rows| == |ids| && AreRunIds(rows, ids) && Labels(rows, ids, heads, n)
    requires StartsRun(rows, n) && (n == 0 ==> heads == [])
    ensures Labels(rows, ids, heads + [n], n + 1)
  {
    assert IdFollows(rows, ids, n);
    assert ids[n] == |heads|;
    forall a | 0 <= a < |heads| ensures rows[heads[a]].key < rows[n].key {
      assert rows[heads[a]].key <= rows[n - 1].key <= rows[n].key;
    }
  }

  lemma {:induction false} LabelsSameRun(rows: seq<Row>, ids: seq<int>, heads: seq<nat>, n: nat)
    requires n < |rows| == |ids| && AreRunIds(rows, ids) && Labels(rows, ids, heads, n)
    requires !StartsRun(rows, n)
    ensures Labels(rows, ids, heads, n + 1)
  {
    assert IdFollows(rows, ids, n);
    assert ids[n] == ids[n - 1];
  }

  method RunHeads(rows: seq<Row>, ids: seq<int>) returns (heads: seq<nat>)
    requires KeySorted(rows) && |ids| == |rows| && AreRunIds(rows, ids)
    ensures Labels(rows, ids, heads, |rows|)
  {
    heads := [];
    for i := 0 to |rows|
      invariant Labels(rows, ids, heads, i) && (i == 0 ==> heads == [])
    {
      if StartsRun(rows, i) {
        LabelsNewRun(rows, ids, heads, i);
        heads := heads + [i];
      } else {
        LabelsSameRun(rows, ids, heads, i);
      }
    }
  }

  /** The rows with their run number in place of the key. */
  function Numbered(rows: seq<Row>, ids: seq<int>): (r: seq<Row>)
    requires |rows| == |ids|
    ensures |r| == |rows|
  {
    seq(|rows|, i requires 0 <= i < |rows| => Row(ids[i], rows[i].value))
  }

  lemma {:induction false} RenamedKey(a: seq<Row>, b: seq<Row>, k: int, l: int)
    requires |a| == |b|
    requires forall i :: 0 <= i < |a| ==> a[i].value == b[i].value && (a[i].key == k <==> b[i].key == l)
    ensures KeySum(a, k) == KeySum(b, l) && KeyCount(a, k) == KeyCount(b, l)
  {
    if a != [] {
      RenamedKey(a[..|a| - 1], b[..|b| - 1], k, l);
    }
  }

  lemma {:induction false} RunTotals(rows: seq<Row>, ids: seq<int>, heads: seq<nat>, j: nat)
    requires Labels(rows, ids, heads, |rows|) && j < |heads|
    ensures KeySum(Numbered(rows, ids), j) == KeySum(rows, rows[heads[j]].key)
    ensures KeyCount(Numbered(rows, ids), j) == KeyCount(rows, rows[heads[j]].key) > 0
  {
    var k := rows[heads[j]].key;
    forall i | 0 <= i < |rows| ensures ids[i] == j <==> rows[i].key == k {
      assert ids[i] != j ==> rows[heads[ids[i]]].key != k;
    }
    RenamedKey(Numbered(rows, ids), rows, j, k);
    KeyCountPositive(rows, k);
  }

  function Gathered(rows: seq<Row>, heads: seq<nat>, sums: seq<int>, counts: seq<int>): (r: seq<Group>)
    requires |sums| == |counts| == |heads|
    requires forall j :: 0 <= j < |heads| ==> heads[j] < |rows| && counts[j] >= 0
    ensures |r| == |heads|
  {
    seq(|heads|, j requires 0 <= j < |heads| => Group(rows[heads[j]].key, sums[j], counts[j]))
  }

  lemma {:induction false} GatheredIsGroupBy(rows: seq<Row>, ids: seq<int>, heads: seq<nat>, sums: seq<int>,
                                             counts: seq<int>)
    requires Labels(rows, ids, heads, |rows|) && |sums| == |heads| && TableHolds(Numbered(rows, ids), 0, sums, counts)
    ensures forall j :: 0 <= j < |heads| ==> counts[j] >= 0
    ensures IsGroupBy(rows, Gathered(rows, heads, sums, counts))
  {
    forall j | 0 <= j < |heads|
      ensures sums[j] == KeySum(rows, rows[heads[j]].key) && counts[j] == KeyCount(rows, rows[heads[j]].key) > 0
    {
      RunTotals(rows, ids, heads, j);
    }
    var out := Gathered(rows, heads, sums, counts);
    forall i | 0 <= i < |rows| ensures HasKey(out, rows[i].key) {
      assert out[ids[i]].key == rows[i].key;
    }
  }

  lemma {:induction false} SameGroupBy(a: seq<Row>, b: seq<Row>, out: seq<Group>)
    requires multiset(a) == multiset(b) && IsGroupBy(a, out)
    ensures IsGroupBy(b, out)
  {
    forall k: int ensures KeySum(b, k) == KeySum(a, k) && KeyCount(b, k) == KeyCount(a, k) {
      PermutationInvariant(a, b, k);
    }
    forall r | 0 <= r < |b| ensures HasKey(out, b[r].key) {
      assert b[r] in multiset(a);
      var i :| 0 <= i < |a| && a[i] == b[r];
    }
  }

  /** GroupbySumSortScatter. `sorted` is the rows in the order argsort puts their keys. */
  method GroupbySumSortScatter(ghost rows: seq<Row>, sorted: seq<Row>) returns (out: seq<Group>)
    requires KeySorted(sorted) && multiset(sorted) == multiset(rows)
    ensures IsGroupBy(rows, out)
  {
    if |sorted| == 0 {
      assert |rows| == |multiset(rows)| == 0;
      return [];
    }
    if |sorted| == 1 {
      out := [Group(sorted[0].key, sorted[0].value, 1)];
      RunReduced(sorted, sorted[0].key);
      assert Total(sorted) == Total(sorted[..0]) + sorted[0].value == sorted[0].value;
      SameGroupBy(sorted, rows, out);
      return;
    }
    out := ScatterRuns(sorted);
    SameGroupBy(sorted, rows, out);
  }

  method ScatterRuns(sorted: seq<Row>) returns (out: seq<Group>)
    requires KeySorted(sorted) && sorted != []
    ensures IsGroupBy(sorted, out)
  {
    var ids := RunIds(sorted);
    var heads := RunHeads(sorted, ids);
    RunNumbersGrow(sorted, ids, heads);
    var sums, counts := ScatterTables(Numbered(sorted, ids), 0, ids[|ids| - 1]);
    GatheredIsGroupBy(sorted, ids, heads, sums, counts);
    out := Gathered(sorted, heads, sums, counts);
  }

  lemma {:induction false} RunNumbersGrow(rows: seq<Row>, ids: seq<int>, heads: seq<nat>)
    requires Labels(rows, ids, heads, |rows|) && rows != []
    ensures ids[|ids| - 1] + 1 == |heads| > 0
    ensures forall r :: 0 <= r < |rows| ==> 0 <= Numbered(rows, ids)[r].key <= ids[|ids| - 1]
  {
  }

  // ---- The paths agree ----

  /** GroupbySumHash with its guard: keys outside the kernel's range take the sort path. */
  method GroupbySumHashOrSort(rows: seq<Row>, sorted: seq<Row>, schedule: seq<HashBuild.Choice>)
    returns (out: seq<Group>)
    requires KeySorted(sorted) && multiset(sorted) == multiset(rows)
    requires HashGroupBy.HashKeysOk(rows) ==>
               HashBuild.AllDone(HashBuild.Exec(HashGroupBy.Biased(rows), schedule))
    ensures IsGroupBy(rows, out)
  {
    if HashGroupBy.HashKeysOk(rows) {
      out := HashGroupBy.GroupbySumHash(rows, schedule);
    } else {
      out := GroupbySumSortScatter(rows, sorted);
    }
  }

  /** Dense window, sort-and-scatter and hash return the same list, entry by entry, counts included. */
  method PathsAgree(rows: seq<Row>, order: seq<Row>, sorted: seq<Row>, schedule: seq<HashBuild.Choice>)
    returns (host: seq<Group>, device: seq<Group>, sort: seq<Group>, hash: seq<Group>)
    requires rows != [] && DenseWindow(rows) && forall r :: 0 <= r < |rows| ==> IsInt64(rows[r].key)
    requires multiset(order) == multiset(rows) && KeySorted(sorted) && multiset(sorted) == multiset(rows)
    requires HashGroupBy.HashKeysOk(rows) ==>
               HashBuild.AllDone(HashBuild.Exec(HashGroupBy.Biased(rows), schedule))
    ensures host == device == sort == hash
  {
    var kmin, kmax;
    host, kmin, kmax := GroupbySumDenseHost(rows);
    forall r | 0 <= r < |rows| ensures rows[r].key != INT64_MIN {
      assert rows[r].key != INT64_MIN && rows[r].key - rows[r].key < MAX_SPAN;
    }
    LiveAll(rows);
    WindowOfExtremes(rows, kmin, kmax);
    device := GroupbySumDenseGpu(rows, order);
    sort := GroupbySumSortScatter(rows, sorted);
    hash := GroupbySumHashOrSort(rows, sorted, schedule);
    GroupByUnique(rows, host, device);
    GroupByUnique(rows, host, sort);
    GroupByUnique(rows, host, hash);
  }
}
