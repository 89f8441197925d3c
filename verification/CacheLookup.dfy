/** MlxCacheHas: what a cache hit promises. The test compares row counts and numbers of segments; whether that
    makes the columns row-aligned depends on the boundaries the resident column has. */
module CacheLookup {
  import opened CacheRuns
  import opened ColumnCache
  import opened Postfix
  import opened Sums
  import opened ZoneMaps

  /** MlxCacheHas: resident, right row counts, and as many segments each. */
  method CacheHas(cache: Cache, keys: seq<Key>, expectedRows: int) returns (has: bool)
    ensures has <==> AllResident(cache.store, keys, expectedRows) && SameSegmentCounts(cache.store, keys)
  {
    var nsegments := 0;
    for i := 0 to |keys|
      invariant forall j :: 0 <= j < i ==> Resident(cache.store, keys[j], expectedRows)
      invariant i == 0 <==> nsegments == 0
      invariant forall j :: 0 <= j < i ==> |cache.store[keys[j]].segments| == nsegments
    {
      if !Resident(cache.store, keys[i], expectedRows) {
        return false;
      }
      if nsegments == 0 {
        nsegments := |cache.store[keys[i]].segments|;
      } else if |cache.store[keys[i]].segments| != nsegments {
        assert |ColumnAt(cache.store, keys[0]).segments| != |ColumnAt(cache.store, keys[i]).segments|;
        return false;
      }
    }
    has := true;
  }

  ghost predicate SameSegmentCounts(store: map<Key, Column>, keys: seq<Key>) {
    forall i, j :: 0 <= i < |keys| && 0 <= j < |keys| ==>
      |ColumnAt(store, keys[i]).segments| == |ColumnAt(store, keys[j]).segments|
  }

  /** Columns loaded together are row-aligned, whatever else is in the cache and whichever column supplied the
      canonical sizes: each of them has gained the same pieces. */
  lemma {:induction false} PopulatedColumnsAlign(start: map<Key, Column>, now: map<Key, Column>, keys: seq<Key>,
                                                 storeCol: seq<bool>, grown: seq<nat>, read: seq<Key>)
    requires |storeCol| == |keys| && GrownAlike(start, now, keys, storeCol, grown) && RowAligned(start, read)
    requires forall i :: 0 <= i < |read| ==> ToStore(keys, storeCol, read[i])
    ensures RowAligned(now, read)
  {
    forall i | 0 <= i < |read| ensures GrewBy(start, now, read[i], grown) {
      var j :| 0 <= j < |keys| && storeCol[j] && keys[j] == read[i];
      assert GrewBy(start, now, keys[j], grown);
    }
  }

  /** Columns loaded at different times from the same batches are row-aligned, so reading them segment by
      segment reads the rows of the flat columns. */
  lemma {:induction false} SameBatchesAlign(store: map<Key, Column>, layouts: map<nat, Layout>, table: nat,
                                            keys: seq<Key>, storeCol: seq<bool>, counts: seq<nat>,
                                            read: seq<Key>)
    requires |storeCol| == |keys| && InStep(store, layouts, table, keys, storeCol, counts, |counts|)
    requires forall i :: 0 <= i < |keys| ==> keys[i].table == table
    requires forall i :: 0 <= i < |read| ==> HasSegments(store, table, read[i])
    ensures RowAligned(store, read)
  {
    assert counts[..|counts|] == counts;
    forall i | 0 <= i < |read| ensures Sizes(ColumnAt(store, read[i]).segments) == Boundaries(counts) {
      if ToStore(keys, storeCol, read[i]) {
        var j :| 0 <= j < |keys| && storeCol[j] && keys[j] == read[i];
        assert Sizes(ColumnAt(store, keys[j]).segments) == Boundaries(counts[..|counts|]);
      }
    }
  }

  // ---- One column loaded beside another ----

  /** The table's columns with segments are cut at c, the column at `a` among them, and the one at `b` has
      been cut into s so far. */
  ghost predicate Beside(store: map<Key, Column>, table: nat, a: Key, b: Key, c: seq<nat>, s: seq<nat>) {
    && StoreOk(store) && a != b && a.table == b.table == table
    && HasSegments(store, table, a)
    && (forall k :: HasSegments(store, table, k) && k != b ==> Sizes(store[k].segments) == c)
    && Sizes(ColumnAt(store, b).segments) == s
  }

  /** One batch stored in column b, its boundaries taken from `canonical`. */
  ghost predicate LoadStep(store: map<Key, Column>, layouts: map<nat, Layout>, b: Key, batch: HostColumn,
                           canonical: seq<nat>, store2: map<Key, Column>, layouts2: map<nat, Layout>)
  {
    && HostOk(batch, |batch.values|) && StoreOk(store2)
    && exists idx, cut :: SegmentStored(store, layouts, b.table, [b], [true], [batch], |batch.values|, canonical,
                                        idx, cut,
                                        store2, layouts2)
  }

  /** A load of column b: stores[n] before batch n, and where batch n took its boundaries from. */
  datatype Load = Load(stores: seq<map<Key, Column>>, layouts: seq<map<nat, Layout>>, batches: seq<HostColumn>,
                       canonicals: seq<seq<nat>>)

  ghost predicate Loads(l: Load, b: Key) {
    && |l.stores| == |l.layouts| == |l.batches| + 1 && |l.canonicals| == |l.batches|
    && (forall n :: 0 <= n < |l.batches| ==> StepOf(l, b, n))
  }

  ghost predicate StepOf(l: Load, b: Key, n: nat)
    requires n < |l.batches| && |l.stores| == |l.layouts| == |l.batches| + 1 && |l.canonicals| == |l.batches|
  {
    LoadStep(l.stores[n], l.layouts[n], b, l.batches[n], l.canonicals[n], l.stores[n + 1], l.layouts[n + 1])
  }

  function RowsOf(batches: seq<HostColumn>): nat {
    if batches == [] then 0 else RowsOf(batches[..|batches| - 1]) + |batches[|batches| - 1].values|
  }

  /** What a batch adds: pieces at c's boundaries, or, if b's own sizes were taken, pieces of a million. */
  lemma {:induction false} StepSizes(store: map<Key, Column>, layouts: map<nat, Layout>, a: Key, b: Key, c: seq<nat>,
                                     s: seq<nat>, batch: HostColumn, canonical: seq<nat>, store2: map<Key, Column>,
                                     layouts2: map<nat, Layout>) returns (s2: seq<nat>)
    requires Beside(store, b.table, a, b, c, s) && LoadStep(store, layouts, b, batch, canonical, store2, layouts2)
    ensures Positive(c) && Beside(store2, b.table, a, b, c, s2)
    ensures (canonical == c && s2 == s + Takes(|batch.values|, c, |s|)) ||
            (canonical == s != [] && s2 == s + Pieces(|batch.values|))
  {
    var keys, cols, count := [b], [batch], |batch.values|;
    var idx, cut :| SegmentStored(store, layouts, b.table, keys, [true], cols, count, canonical, idx, cut, store2,
                                  layouts2);
    SupplierSizes(store, layouts, a, b, c, s, canonical);
    ResidentPositive(store, b.table, a, c);
    s2 := s + cut;
    OthersKept(store, store2, b, batch, cut, a, c);
    assert keys[0] == b;
    assert ColumnStored(store, store2, keys[0], cols[0], count, cut);
    if canonical == c {
      IndexOfLoad(store, b, s, idx);
    } else {
      IndexOfLoad(store, b, s, idx);
      TakesPastEnd(count, s, |s|);
    }
  }

  lemma {:induction false} ResidentPositive(store: map<Key, Column>, table: nat, a: Key, c: seq<nat>)
    requires StoreOk(store) && HasSegments(store, table, a) && Sizes(store[a].segments) == c
    ensures Positive(c) && c != []
  {
    assert NonEmpty(store[a].segments);
    assert |c| == |store[a].segments|;
  }

  lemma {:induction false} IndexOfLoad(store: map<Key, Column>, b: Key, s: seq<nat>, idx: nat)
    requires IndexFor(store, [b], [true], idx) && Sizes(ColumnAt(store, b).segments) == s
    ensures idx == |s|
  {
    var keys := [b];
    assert keys[0] == b;
  }

  /** The boundaries come from a column cut at c, or from b itself. */
  lemma {:induction false} SupplierSizes(store: map<Key, Column>, layouts: map<nat, Layout>, a: Key, b: Key,
                                         c: seq<nat>, s: seq<nat>, canonical: seq<nat>)
    requires Beside(store, b.table, a, b, c, s) && CanonicalFor(store, layouts, b.table, canonical)
    ensures canonical == c || (canonical == s != [])
  {
    var k :| HasSegments(store, b.table, k) && canonical == Sizes(store[k].segments);
    assert |canonical| == |store[k].segments|;
  }

  lemma {:induction false} OthersKept(store: map<Key, Column>, store2: map<Key, Column>, b: Key, batch: HostColumn,
                                      cut: seq<nat>, a: Key, c: seq<nat>)
    requires Batch([b], [true], [batch], |batch.values|)
    requires Stored(store, store2, [b], [true], [batch], |batch.values|, |batch.values|, cut)
    requires a != b && HasSegments(store, b.table, a)
    requires forall k :: HasSegments(store, b.table, k) && k != b ==> Sizes(store[k].segments) == c
    ensures HasSegments(store2, b.table, a)
    ensures forall k :: HasSegments(store2, b.table, k) && k != b ==> Sizes(store2[k].segments) == c
  {
    forall k: Key | k != b ensures SameAt(store, store2, k) {
      assert !ToStore([b], [true], k);
    }
    forall k | HasSegments(store2, b.table, k) && k != b ensures Sizes(store2[k].segments) == c {
      assert SameAt(store, store2, k);
      assert HasSegments(store, b.table, k);
    }
    assert SameAt(store, store2, a);
  }

  // ---- Sizes ----

  /** The sizes a load can reach beside c: the first segment no longer than c's, a later one no longer than
      c's or a million. */
  ghost predicate Within(s: seq<nat>, c: seq<nat>) {
    Positive(s) && forall i :: 0 <= i < |s| && i < |c| ==> PieceWithin(s, c, i)
  }

  predicate PieceWithin(s: seq<nat>, c: seq<nat>, i: nat)
    requires i < |s| && i < |c|
  {
    s[i] <= c[i] || (i > 0 && s[i] <= 1_000_000)
  }

  lemma {:induction false} TakesWithin(count: nat, c: seq<nat>, idx: nat, i: nat)
    requires Positive(c) && i < |Takes(count, c, idx)|
    ensures Takes(count, c, idx)[i] > 0 && (idx + i < |c| ==> Takes(count, c, idx)[i] <= c[idx + i])
    decreases count
  {
    if i > 0 {
      var take := NextTake(count, c, idx);
      TakesWithin(count - take, c, idx + 1, i - 1);
    }
  }

  /** Every piece but the last has a million rows, and the last no more. */
  lemma {:induction false} PiecesWithin(count: nat, i: nat)
    requires i < |Pieces(count)|
    ensures 0 < Pieces(count)[i] <= 1_000_000
    ensures i + 1 < |Pieces(count)| ==> Pieces(count)[i] == 1_000_000
  {
    if i > 0 {
      PiecesWithin(count - SEGMENT_ROWS, i - 1);
    }
  }

  lemma {:induction false} PiecesSum(count: nat)
    ensures Sum(Pieces(count)) == count
  {
    if count > 0 {
      var take := if count <= SEGMENT_ROWS then count else SEGMENT_ROWS;
      PiecesSum(count - take);
      SumConcat([take], Pieces(count - take));
      SumSingle(take);
    }
  }

  lemma {:induction false} SumSingle(x: nat)
    ensures Sum([x]) == x
  {
    assert [] + [x] == [x];
    SumAppend([], x);
  }

  lemma {:induction false} TakesSum(count: nat, c: seq<nat>, idx: nat)
    requires Positive(c)
    ensures Sum(Takes(count, c, idx)) == count
    decreases count
  {
    if count > 0 {
      var take := NextTake(count, c, idx);
      TakesSum(count - take, c, idx + 1);
      SumConcat([take], Takes(count - take, c, idx + 1));
      SumSingle(take);
    }
  }

  /** Pieces at c's boundaries keep the sizes pointwise at most c's. */
  lemma {:induction false} TakesKeepWithin(s: seq<nat>, count: nat, c: seq<nat>)
    requires Positive(c) && Within(s, c)
    ensures Within(s + Takes(count, c, |s|), c) && Sum(s + Takes(count, c, |s|)) == Sum(s) + count
    ensures AtMost(s, c) ==> AtMost(s + Takes(count, c, |s|), c)
  {
    var more := Takes(count, c, |s|);
    SumConcat(s, more);
    TakesSum(count, c, |s|);
    forall i | |s| <= i < |s + more| ensures (s + more)[i] > 0 && (i < |c| ==> (s + more)[i] <= c[i]) {
      TakesWithin(count, c, |s|, i - |s|);
    }
    forall i | 0 <= i < |s + more| && i < |c| ensures PieceWithin(s + more, c, i) {
      assert i < |s| ==> PieceWithin(s, c, i);
    }
  }

  lemma {:induction false} PiecesKeepWithin(s: seq<nat>, count: nat, c: seq<nat>)
    requires Within(s, c) && s != []
    ensures Within(s + Pieces(count), c) && Sum(s + Pieces(count)) == Sum(s) + count
  {
    var more := Pieces(count);
    SumConcat(s, more);
    PiecesSum(count);
    forall i | |s| <= i < |s + more| ensures 0 < (s + more)[i] <= SEGMENT_ROWS {
      PiecesWithin(count, i - |s|);
    }
    forall i | 0 <= i < |s + more| && i < |c| ensures PieceWithin(s + more, c, i) {
      assert i < |s| ==> PieceWithin(s, c, i);
    }
  }

  ghost predicate AtMost(s: seq<nat>, c: seq<nat>) {
    forall i :: 0 <= i < |s| && i < |c| ==> s[i] <= c[i]
  }

  /** Where a load stands before batch n. */
  ghost predicate Reached(l: Load, a: Key, b: Key, c: seq<nat>, n: nat, s: seq<nat>)
    requires Loads(l, b) && n <= |l.batches|
  {
    && Positive(c) && Beside(l.stores[n], b.table, a, b, c, s)
    && Within(s, c) && Sum(s) == RowsOf(l.batches[..n])
    && (FullUpTo(l, c, n) ==> AtMost(s, c))
  }

  /** The resident column has supplied the boundaries of the first n batches. */
  ghost predicate FullUpTo(l: Load, c: seq<nat>, n: nat) {
    n <= |l.canonicals| && forall m :: 0 <= m < n ==> l.canonicals[m] == c
  }

  lemma {:induction false} LoadReaches(l: Load, a: Key, b: Key, c: seq<nat>, n: nat) returns (s: seq<nat>)
    requires Loads(l, b) && Beside(l.stores[0], b.table, a, b, c, []) && n <= |l.batches|
    ensures Reached(l, a, b, c, n, s)
  {
    if n == 0 {
      s := [];
      ResidentPositive(l.stores[0], b.table, a, c);
    } else {
      var s0 := LoadReaches(l, a, b, c, n - 1);
      s := ReachedNext(l, a, b, c, n - 1, s0);
    }
  }

  lemma {:induction false} ReachedNext(l: Load, a: Key, b: Key, c: seq<nat>, m: nat, s: seq<nat>) returns (s2: seq<nat>)
    requires Loads(l, b) && m < |l.batches| && Reached(l, a, b, c, m, s)
    ensures Reached(l, a, b, c, m + 1, s2)
  {
    assert StepOf(l, b, m);
    s2 := LoadReachesNext(l, a, b, c, m, s);
    NextRows(l, m);
    FullStep(l, c, m);
  }

  lemma {:induction false} NextRows(l: Load, m: nat)
    requires m < |l.batches|
    ensures RowsOf(l.batches[..m + 1]) == RowsOf(l.batches[..m]) + |l.batches[m].values|
  {
    assert l.batches[..m + 1][..m] == l.batches[..m];
  }

  lemma {:induction false} FullStep(l: Load, c: seq<nat>, m: nat)
    requires m < |l.canonicals|
    ensures FullUpTo(l, c, m + 1) <==> FullUpTo(l, c, m) && l.canonicals[m] == c
  {
  }

  lemma {:induction false} LoadReachesNext(l: Load, a: Key, b: Key, c: seq<nat>, m: nat, s: seq<nat>)
    returns (s2: seq<nat>)
    requires m < |l.batches| && |l.stores| == |l.layouts| == |l.batches| + 1 && |l.canonicals| == |l.batches|
    requires StepOf(l, b, m) && Beside(l.stores[m], b.table, a, b, c, s) && Positive(c) && Within(s, c)
    ensures Beside(l.stores[m + 1], b.table, a, b, c, s2) && Within(s2, c) && Sum(s2) == Sum(s) + |l.batches[m].values|
    ensures l.canonicals[m] == c && AtMost(s, c) ==> AtMost(s2, c)
  {
    s2 := StepSizes(l.stores[m], l.layouts[m], a, b, c, s, l.batches[m], l.canonicals[m], l.stores[m + 1],
                    l.layouts[m + 1]);
    StepWithin(s, |l.batches[m].values|, c, l.canonicals[m], s2);
  }

  lemma {:induction false} StepWithin(s: seq<nat>, count: nat, c: seq<nat>, canonical: seq<nat>, s2: seq<nat>)
    requires Positive(c) && Within(s, c)
    requires (canonical == c && s2 == s + Takes(count, c, |s|)) || (canonical == s != [] && s2 == s + Pieces(count))
    ensures Within(s2, c) && Sum(s2) == Sum(s) + count
    ensures canonical == c && AtMost(s, c) ==> AtMost(s2, c)
  {
    if canonical == c && s2 == s + Takes(count, c, |s|) {
      TakesKeepWithin(s, count, c);
    } else {
      PiecesKeepWithin(s, count, c);
      OwnSuppliesPastEnd(s, count, c, canonical);
    }
  }

  /** If b's own sizes are c's so far, taking them is taking c's. */
  lemma {:induction false} OwnSuppliesPastEnd(s: seq<nat>, count: nat, c: seq<nat>, canonical: seq<nat>)
    requires Positive(c) && Within(s, c) && canonical == s != []
    ensures canonical == c && AtMost(s, c) ==> AtMost(s + Pieces(count), c)
  {
  }

  /** Pointwise at most, as many, and the same total: the same. */
  lemma {:induction false} AtMostSameSum(s: seq<nat>, c: seq<nat>, n: nat)
    requires |s| == |c| && n <= |s| && AtMost(s, c)
    ensures Prefix(s, n) <= Prefix(c, n)
    ensures Prefix(s, n) == Prefix(c, n) ==> s[..n] == c[..n]
  {
    if n > 0 {
      AtMostSameSum(s, c, n - 1);
      if Prefix(s, n) == Prefix(c, n) {
        assert s[..n] == s[..n - 1] + [s[n - 1]] && c[..n] == c[..n - 1] + [c[n - 1]];
      }
    }
  }

  lemma {:induction false} SameSizesIff(s: seq<nat>, c: seq<nat>)
    requires |s| == |c| && Sum(s) == Sum(c)
    ensures s == c <==> AtMost(s, c)
    ensures s == c <==> AtMost(c, s)
  {
    if AtMost(s, c) {
      AtMostSameSum(s, c, |s|);
      assert s[..|s|] == s && c[..|c|] == c;
    }
    if AtMost(c, s) {
      AtMostSameSum(c, s, |s|);
      assert s[..|s|] == s && c[..|c|] == c;
    }
  }

  // ---- When a hit is right ----

  /** The hit test on a and b, and what it is taken to mean, agree. */
  ghost predicate HasIsAligned(store: map<Key, Column>, a: Key, b: Key, rows: int) {
    AllResident(store, [a, b], rows) && SameSegmentCounts(store, [a, b]) <==>
    AllResident(store, [a, b], rows) && RowAligned(store, [a, b])
  }

  lemma {:induction false} PairFacts(store: map<Key, Column>, a: Key, b: Key, c: seq<nat>, s: seq<nat>)
    requires Beside(store, b.table, a, b, c, s) && Sum(s) == Sum(c)
    ensures Sum(c) > 0 && AllResident(store, [a, b], Sum(c))
    ensures SameSegmentCounts(store, [a, b]) <==> |s| == |c|
    ensures RowAligned(store, [a, b]) <==> s == c
  {
    PairResident(store, a, b, c, s);
    PairCounts(store, a, b);
    PairAligned(store, a, b);
  }

  lemma {:induction false} PairResident(store: map<Key, Column>, a: Key, b: Key, c: seq<nat>, s: seq<nat>)
    requires Beside(store, b.table, a, b, c, s) && Sum(s) == Sum(c)
    ensures Sum(c) > 0 && AllResident(store, [a, b], Sum(c))
  {
    ResidentPositive(store, b.table, a, c);
    PrefixMonotone(c, 1, |c|);
    assert Prefix(c, 1) == c[0];
    ResidentRows(store, a, c);
    if b in store {
      ResidentRows(store, b, s);
    }
    assert |Sizes(ColumnAt(store, b).segments)| == |ColumnAt(store, b).segments|;
  }

  lemma {:induction false} PairCounts(store: map<Key, Column>, a: Key, b: Key)
    ensures SameSegmentCounts(store, [a, b]) <==>
            |Sizes(ColumnAt(store, a).segments)| == |Sizes(ColumnAt(store, b).segments)|
  {
    var keys := [a, b];
    assert |ColumnAt(store, keys[0]).segments| == |Sizes(ColumnAt(store, a).segments)|;
    assert |ColumnAt(store, keys[1]).segments| == |Sizes(ColumnAt(store, b).segments)|;
  }

  lemma {:induction false} PairAligned(store: map<Key, Column>, a: Key, b: Key)
    ensures RowAligned(store, [a, b]) <==> Sizes(ColumnAt(store, a).segments) == Sizes(ColumnAt(store, b).segments)
  {
    var keys := [a, b];
    assert Sizes(ColumnAt(store, keys[0]).segments) == Sizes(ColumnAt(store, a).segments);
    assert Sizes(ColumnAt(store, keys[1]).segments) == Sizes(ColumnAt(store, b).segments);
  }

  lemma {:induction false} ResidentRows(store: map<Key, Column>, k: Key, s: seq<nat>)
    requires StoreOk(store) && k in store && Sizes(store[k].segments) == s
    ensures store[k].rows == Sum(s)
  {
    assert ColumnOk(store[k]);
  }

  /** For one load: the test means alignment unless the numbers of segments agree and some piece is longer
      than the resident column's segment in its place. */
  lemma {:induction false} LoadHasIff(store: map<Key, Column>, a: Key, b: Key, c: seq<nat>, s: seq<nat>)
    requires Beside(store, b.table, a, b, c, s) && Sum(s) == Sum(c)
    ensures HasIsAligned(store, a, b, Sum(c)) <==> (|s| == |c| ==> AtMost(s, c))
  {
    PairFacts(store, a, b, c, s);
    if |s| == |c| {
      SameSizesIff(s, c);
    }
  }

  /** Whatever the batches: if the resident column supplies the boundaries every time, the test is right. */
  lemma {:induction false} FullSupplierIsRight(l: Load, a: Key, b: Key, c: seq<nat>)
    requires Loads(l, b) && Beside(l.stores[0], b.table, a, b, c, []) && RowsOf(l.batches) == Sum(c)
    requires FullUpTo(l, c, |l.batches|)
    ensures HasIsAligned(l.stores[|l.batches|], a, b, Sum(c))
  {
    var s := LoadReaches(l, a, b, c, |l.batches|);
    assert l.batches[..|l.batches|] == l.batches;
    LoadHasIff(l.stores[|l.batches|], a, b, c, s);
  }

  /** The test is right after every load of column b with the rows of c, whatever the batches and whichever
      column supplies the boundaries. */
  ghost predicate AlwaysRight(store: map<Key, Column>, layouts: map<nat, Layout>, a: Key, b: Key, c: seq<nat>) {
    forall l: Load :: Loads(l, b) && l.stores[0] == store && l.layouts[0] == layouts && RowsOf(l.batches) == Sum(c) ==>
      HasIsAligned(l.stores[|l.batches|], a, b, Sum(c))
  }

  /** No row can be moved: behind the first segment, a segment shorter than a million stands only among
      segments of one row. */
  ghost predicate Rigid(c: seq<nat>) {
    forall i, j :: 0 <= i < |c| && 0 < j < |c| && i != j ==> c[j] >= 1_000_000 || c[i] == 1
  }

  lemma {:induction false} RigidIsRight(l: Load, a: Key, b: Key, c: seq<nat>)
    requires Rigid(c) && Loads(l, b) && Beside(l.stores[0], b.table, a, b, c, []) && RowsOf(l.batches) == Sum(c)
    ensures HasIsAligned(l.stores[|l.batches|], a, b, Sum(c))
  {
    var s := LoadReaches(l, a, b, c, |l.batches|);
    assert l.batches[..|l.batches|] == l.batches;
    LoadHasIff(l.stores[|l.batches|], a, b, c, s);
    if |s| == |c| {
      RigidSizes(s, c);
    }
  }

  lemma {:induction false} RigidSizes(s: seq<nat>, c: seq<nat>)
    requires Rigid(c) && Positive(c) && Within(s, c) && |s| == |c| && Sum(s) == Sum(c)
    ensures AtMost(s, c)
  {
    SameSizesIff(s, c);
    if !AtMost(c, s) {
      var i :| 0 <= i < |s| && c[i] > s[i];
      assert s[i] > 0;
      forall j | 0 <= j < |s| ensures s[j] <= c[j] {
        assert PieceWithin(s, c, j);
      }
    }
  }

  // ---- When it is not ----

  /** c with one row moved from segment i to segment j. */
  function Moved(c: seq<nat>, i: nat, j: nat): (t: seq<nat>)
    requires i < |c| && j < |c| && i != j && c[i] > 1
    ensures |t| == |c| && Positive(c) ==> Positive(t)
  {
    c[i := c[i] - 1][j := c[j] + 1]
  }

  lemma {:induction false} MovedSum(c: seq<nat>, i: nat, j: nat)
    requires i < |c| && j < |c| && i != j && c[i] > 1
    ensures Sum(Moved(c, i, j)) == Sum(c) && Moved(c, i, j) != c
  {
    SumUpdate(c, i, c[i] - 1);
    SumUpdate(c[i := c[i] - 1], j, c[j] + 1);
    assert Moved(c, i, j)[j] == c[j] + 1;
  }

  function Zeros(n: nat): HostColumn {
    HostColumn(seq(n, _ => 0), None)
  }

  /** The next batch as one segment: with b's own boundaries where b has any and the batch is small enough,
      with c's otherwise. */
  lemma {:induction false} StoreOne(store: map<Key, Column>, layouts: map<nat, Layout>, a: Key, b: Key, c: seq<nat>,
                                    s: seq<nat>, n: nat) returns (store2: map<Key, Column>, canonical: seq<nat>)
    requires Beside(store, b.table, a, b, c, s) && n > 0 && |s| < |c|
    requires n <= c[|s|] || (s != [] && n <= SEGMENT_ROWS)
    ensures Beside(store2, b.table, a, b, c, s + [n])
    ensures LoadStep(store, layouts, b, Zeros(n), canonical, store2, layouts)
    ensures s != [] && n <= SEGMENT_ROWS ==> canonical == s
  {
    canonical := if s != [] && n <= SEGMENT_ROWS then s else c;
    ResidentPositive(store, b.table, a, c);
    SizesPositive(store, b, s);
    OneTake(n, canonical, |s|);
    store2 := StoreColumn(store, b, n);
    CanonicalSupplied(store, layouts, a, b, c, s, canonical);
    IndexSupplied(store, b, s);
    StoredStep(store, layouts, b, n, canonical, |s|, store2);
    StoredBeside(store, store2, a, b, c, s, n);
  }

  lemma {:induction false} SizesPositive(store: map<Key, Column>, b: Key, s: seq<nat>)
    requires StoreOk(store) && Sizes(ColumnAt(store, b).segments) == s
    ensures Positive(s)
  {
    ColumnAtOk(store, b);
    assert NonEmpty(ColumnAt(store, b).segments);
  }

  lemma {:induction false} ZerosDescribed(n: nat, zm: ZoneMap)
    requires n > 0 && zm == ZoneMap(true, 0, 0, 0.0, 0.0, false)
    ensures PartOk(Zeros(n).values, Zeros(n).valid, zm)
  {
    var values := Zeros(n).values;
    assert values[0] == 0 && Shown(Zeros(n).valid, 0);
  }

  /** The store with n rows appended to column b as one segment. */
  lemma {:induction false} StoreColumn(store: map<Key, Column>, b: Key, n: nat) returns (store2: map<Key, Column>)
    requires StoreOk(store) && n > 0
    ensures StoreOk(store2) && Batch([b], [true], [Zeros(n)], n)
    ensures Stored(store, store2, [b], [true], [Zeros(n)], n, n, [n])
  {
    var column := ZeroColumn(store, b, n);
    store2 := store[b := column];
    OneColumnStored(store, store2, b, Zeros(n), n, column);
  }

  lemma {:induction false} ZeroColumn(store: map<Key, Column>, b: Key, n: nat) returns (column: Column)
    requires StoreOk(store) && n > 0
    ensures ColumnOk(column) && column.segments != [] && Holds(store, column, b, Zeros(n), n, [n])
  {
    var zm := ZoneMap(true, 0, 0, 0.0, 0.0, false);
    ZerosDescribed(n, zm);
    ColumnAtOk(store, b);
    column := WholeBatch(store, b, Zeros(n), zm);
  }

  /** A batch that becomes one segment. */
  lemma {:induction false} WholeBatch(store: map<Key, Column>, b: Key, batch: HostColumn, zm: ZoneMap)
    returns (column: Column)
    requires ColumnOk(ColumnAt(store, b)) && batch.values != [] && PartOk(batch.values, batch.valid, zm)
    ensures ColumnOk(column) && column.segments != []
    ensures Holds(store, column, b, batch, |batch.values|, [|batch.values|])
  {
    column := WithSegment(ColumnAt(store, b), batch, zm, 0);
    WithSegmentOk(ColumnAt(store, b), batch, zm, 0);
    SegmentGained(ColumnAt(store, b), batch, zm, 0);
    WholeHeld(store, column, b, batch);
  }

  lemma {:induction false} WholeHeld(store: map<Key, Column>, column: Column, b: Key, batch: HostColumn)
    requires Gained(ColumnAt(store, b), column, batch.values, HostMask(batch), [|batch.values|])
    ensures Holds(store, column, b, batch, |batch.values|, [|batch.values|])
  {
    assert batch.values[..|batch.values|] == batch.values;
    assert HostMask(batch)[..|batch.values|] == HostMask(batch);
  }

  lemma {:induction false} StoredStep(store: map<Key, Column>, layouts: map<nat, Layout>, b: Key, n: nat,
                                      canonical: seq<nat>, idx: nat, store2: map<Key, Column>)
    requires StoreOk(store2) && Batch([b], [true], [Zeros(n)], n) &&
             Stored(store, store2, [b], [true], [Zeros(n)], n, n, [n])
    requires CanonicalFor(store, layouts, b.table, canonical) && IndexFor(store, [b], [true], idx)
    requires canonical != [] && Positive(canonical) && Takes(n, canonical, idx) == [n]
    ensures LoadStep(store, layouts, b, Zeros(n), canonical, store2, layouts)
  {
    assert SegmentStored(store, layouts, b.table, [b], [true], [Zeros(n)], n, canonical, idx, [n], store2, layouts);
  }

  lemma {:induction false} StoredBeside(store: map<Key, Column>, store2: map<Key, Column>, a: Key, b: Key,
                                        c: seq<nat>, s: seq<nat>, n: nat)
    requires Beside(store, b.table, a, b, c, s) && StoreOk(store2) && Batch([b], [true], [Zeros(n)], n)
    requires Stored(store, store2, [b], [true], [Zeros(n)], n, n, [n])
    ensures Beside(store2, b.table, a, b, c, s + [n])
  {
    var keys, cols := [b], [Zeros(n)];
    assert keys[0] == b;
    assert ColumnStored(store, store2, keys[0], cols[0], n, [n]);
    OthersKept(store, store2, b, Zeros(n), [n], a, c);
  }

  lemma {:induction false} OneTake(n: nat, canonical: seq<nat>, idx: nat)
    requires Positive(canonical) && n > 0
    requires if idx < |canonical| then n <= canonical[idx] else n <= SEGMENT_ROWS
    ensures Takes(n, canonical, idx) == [n]
  {
    assert NextTake(n, canonical, idx) == n;
    assert Takes(0, canonical, idx + 1) == [];
  }

  lemma {:induction false} OneColumnStored(store: map<Key, Column>, store2: map<Key, Column>, b: Key,
                                           batch: HostColumn, n: nat, column: Column)
    requires HostOk(batch, n) && store2 == store[b := column] && Holds(store, column, b, batch, n, [n])
    ensures Batch([b], [true], [batch], n) && Stored(store, store2, [b], [true], [batch], n, n, [n])
  {
    forall k: Key | !ToStore([b], [true], k) ensures SameAt(store, store2, k) {
      var keys := [b];
      assert keys[0] == b;
      assert k != b;
    }
  }

  lemma {:induction false} CanonicalSupplied(store: map<Key, Column>, layouts: map<nat, Layout>, a: Key, b: Key,
                                             c: seq<nat>, s: seq<nat>, canonical: seq<nat>)
    requires Beside(store, b.table, a, b, c, s) && (canonical == c || canonical == s != [])
    ensures CanonicalFor(store, layouts, b.table, canonical)
  {
    if canonical == c {
      assert HasSegments(store, b.table, a) && canonical == Sizes(store[a].segments);
    } else {
      assert |s| == |ColumnAt(store, b).segments|;
      assert HasSegments(store, b.table, b) && canonical == Sizes(store[b].segments);
    }
  }

  lemma {:induction false} IndexSupplied(store: map<Key, Column>, b: Key, s: seq<nat>)
    requires Sizes(ColumnAt(store, b).segments) == s
    ensures IndexFor(store, [b], [true], |s|)
  {
    var keys, flags := [b], [true];
    assert keys[0] == b && flags[0];
    assert |s| == |ColumnAt(store, b).segments|;
  }

  /** After the first batch, every batch of the load took its boundaries from the loading column itself. */
  ghost predicate OwnSupplier(l: Load, b: Key) {
    forall n :: 0 < n < |l.canonicals| && n < |l.stores| ==> OwnSizes(l, b, n)
  }

  ghost predicate OwnSizes(l: Load, b: Key, n: nat)
    requires n < |l.canonicals| && n < |l.stores|
  {
    l.canonicals[n] == Sizes(ColumnAt(l.stores[n], b).segments)
  }

  /** No segment is longer than a million rows. */
  ghost predicate Small(c: seq<nat>) {
    forall i :: 0 <= i < |c| ==> c[i] <= SEGMENT_ROWS
  }

  /** A load of column b that leaves it cut into s. */
  ghost predicate LoadOf(l: Load, store: map<Key, Column>, layouts: map<nat, Layout>, a: Key, b: Key, c: seq<nat>,
                         s: seq<nat>) {
    && Loads(l, b) && l.stores[0] == store && l.layouts[0] == layouts
    && Beside(l.stores[|l.batches|], b.table, a, b, c, s) && RowsOf(l.batches) == Sum(s)
    && |l.batches| == |s| && (Small(c) ==> OwnSupplier(l, b))
  }

  lemma {:induction false} LoadNothing(store: map<Key, Column>, layouts: map<nat, Layout>, a: Key, b: Key, c: seq<nat>)
    returns (l: Load)
    requires Beside(store, b.table, a, b, c, [])
    ensures LoadOf(l, store, layouts, a, b, c, [])
  {
    l := Load([store], [layouts], [], []);
  }

  /** Column b loaded a segment of t at a time. */
  lemma {:induction false} LoadPieces(store: map<Key, Column>, layouts: map<nat, Layout>, a: Key, b: Key, c: seq<nat>,
                                      t: seq<nat>, n: nat) returns (l: Load)
    requires Beside(store, b.table, a, b, c, []) && n <= |t| == |c| && Within(t, c)
    ensures LoadOf(l, store, layouts, a, b, c, t[..n])
  {
    if n == 0 {
      l := LoadNothing(store, layouts, a, b, c);
      assert t[..0] == [];
    } else {
      var l0 := LoadPieces(store, layouts, a, b, c, t, n - 1);
      l := LoadNextPiece(l0, store, layouts, a, b, c, t, n - 1);
    }
  }

  lemma {:induction false} LoadWhole(store: map<Key, Column>, layouts: map<nat, Layout>, a: Key, b: Key, c: seq<nat>,
                                     t: seq<nat>) returns (l: Load)
    requires Beside(store, b.table, a, b, c, []) && |t| == |c| && Within(t, c)
    ensures LoadOf(l, store, layouts, a, b, c, t)
  {
    assert t[..|t|] == t;
    l := LoadPieces(store, layouts, a, b, c, t, |t|);
  }

  /** Only the segment that grows exceeds c's, and it does so by staying within a million. */
  lemma {:induction false} MovedWithin(c: seq<nat>, i: nat, j: nat)
    requires i < |c| && 0 < j < |c| && i != j && c[j] < SEGMENT_ROWS && c[i] > 1 && Positive(c)
    ensures Within(Moved(c, i, j), c)
  {
    var t := Moved(c, i, j);
    forall k | 0 <= k < |t| && k < |c| ensures PieceWithin(t, c, k) {
    }
  }

  lemma {:induction false} PieceFits(t: seq<nat>, c: seq<nat>, m: nat)
    requires m < |t| == |c| && Within(t, c)
    ensures t[m] > 0 && (t[m] <= c[m] || (t[..m] != [] && t[m] <= SEGMENT_ROWS))
  {
    assert PieceWithin(t, c, m);
  }

  lemma {:induction false} LoadNextPiece(l0: Load, store: map<Key, Column>, layouts: map<nat, Layout>, a: Key, b: Key,
                                         c: seq<nat>, t: seq<nat>, m: nat) returns (l: Load)
    requires m < |t| == |c| && Within(t, c) && LoadOf(l0, store, layouts, a, b, c, t[..m])
    ensures LoadOf(l, store, layouts, a, b, c, t[..m + 1])
  {
    PieceFits(t, c, m);
    assert t[..m + 1] == t[..m] + [t[m]];
    l := LoadOneMore(l0, store, layouts, a, b, c, t[..m], t[m]);
  }

  lemma {:induction false} LoadOneMore(l0: Load, store: map<Key, Column>, layouts: map<nat, Layout>, a: Key, b: Key,
                                       c: seq<nat>, s: seq<nat>, n: nat) returns (l: Load)
    requires LoadOf(l0, store, layouts, a, b, c, s)
    requires n > 0 && |s| < |c| && (n <= c[|s|] || (s != [] && n <= SEGMENT_ROWS))
    ensures LoadOf(l, store, layouts, a, b, c, s + [n])
  {
    var m := |l0.batches|;
    var store2, canonical := StoreOne(l0.stores[m], l0.layouts[m], a, b, c, s, n);
    l := Load(l0.stores + [store2], l0.layouts + [l0.layouts[m]], l0.batches + [Zeros(n)],
              l0.canonicals + [canonical]);
    assert l.batches[..m] == l0.batches;
    ExtendLoad(l0, l, b, store2, canonical, n);
    if Small(c) {
      assert m > 0 ==> canonical == Sizes(ColumnAt(l0.stores[m], b).segments);
      ExtendOwn(l0, l, b);
    }
    SumAppend(s, n);
  }

  lemma {:induction false} ExtendLoad(l0: Load, l: Load, b: Key, store2: map<Key, Column>, canonical: seq<nat>, n: nat)
    requires Loads(l0, b)
    requires var m := |l0.batches|;
             && LoadStep(l0.stores[m], l0.layouts[m], b, Zeros(n), canonical, store2, l0.layouts[m])
             && l == Load(l0.stores + [store2], l0.layouts + [l0.layouts[m]], l0.batches + [Zeros(n)],
                          l0.canonicals + [canonical])
    ensures Loads(l, b)
  {
    var m := |l0.batches|;
    forall k | 0 <= k < |l.batches| ensures StepOf(l, b, k) {
      if k < m {
        assert StepOf(l0, b, k);
        StepIs(l, b, k, l0.stores[k], l0.layouts[k], l0.batches[k], l0.canonicals[k], l0.stores[k + 1],
               l0.layouts[k + 1]);
      } else {
        StepIs(l, b, k, l0.stores[m], l0.layouts[m], Zeros(n), canonical, store2, l0.layouts[m]);
      }
    }
  }

  lemma {:induction false} ExtendOwn(l0: Load, l: Load, b: Key)
    requires OwnSupplier(l0, b) && |l0.stores| == |l0.canonicals| + 1
    requires |l.canonicals| == |l0.canonicals| + 1 && |l.stores| == |l0.stores| + 1
    requires l.canonicals[..|l0.canonicals|] == l0.canonicals && l.stores[..|l0.stores|] == l0.stores
    requires |l0.canonicals| > 0 ==> OwnSizes(l, b, |l0.canonicals|)
    ensures OwnSupplier(l, b)
  {
    forall n | 0 < n < |l.canonicals| && n < |l.stores| ensures OwnSizes(l, b, n) {
      if n < |l0.canonicals| {
        assert OwnSizes(l0, b, n);
        assert l.canonicals[n] == l.canonicals[..|l0.canonicals|][n] && l.stores[n] == l.stores[..|l0.stores|][n];
      }
    }
  }

  lemma {:induction false} StepIs(l: Load, b: Key, k: nat, store: map<Key, Column>, layouts: map<nat, Layout>,
                                  batch: HostColumn, canonical: seq<nat>, store2: map<Key, Column>,
                                  layouts2: map<nat, Layout>)
    requires k < |l.batches| && |l.stores| == |l.layouts| == |l.batches| + 1 && |l.canonicals| == |l.batches|
    requires LoadStep(store, layouts, b, batch, canonical, store2, layouts2)
    requires l.stores[k] == store && l.layouts[k] == layouts && l.batches[k] == batch && l.canonicals[k] == canonical
    requires l.stores[k + 1] == store2 && l.layouts[k + 1] == layouts2
    ensures StepOf(l, b, k)
  {
  }

  /** A run through MlxCacheStoreSegment that ends with a hit on misaligned columns: the segment that grows by
      a row arrives as a batch of its own and is cut with the loading column's own sizes, as every batch but
      the first is. */
  lemma {:induction false} LoosePieceMisaligns(store: map<Key, Column>, layouts: map<nat, Layout>, a: Key, b: Key,
                                               c: seq<nat>, i: nat, j: nat) returns (l: Load)
    requires Beside(store, b.table, a, b, c, [])
    requires i < |c| && 0 < j < |c| && i != j && c[j] < SEGMENT_ROWS && c[i] > 1
    ensures Loads(l, b) && l.stores[0] == store && l.layouts[0] == layouts && RowsOf(l.batches) == Sum(c)
    ensures AllResident(l.stores[|l.batches|], [a, b], Sum(c)) && SameSegmentCounts(l.stores[|l.batches|], [a, b])
    ensures !RowAligned(l.stores[|l.batches|], [a, b])
    ensures Small(c) ==> OwnSupplier(l, b)
  {
    var t := Moved(c, i, j);
    MovedSum(c, i, j);
    ResidentPositive(store, b.table, a, c);
    MovedWithin(c, i, j);
    l := LoadWhole(store, layouts, a, b, c, t);
    LoadMisaligned(l, store, layouts, a, b, c, t);
  }

  lemma {:induction false} LoadMisaligned(l: Load, store: map<Key, Column>, layouts: map<nat, Layout>, a: Key, b: Key,
                                          c: seq<nat>, t: seq<nat>)
    requires LoadOf(l, store, layouts, a, b, c, t) && |t| == |c| && Sum(t) == Sum(c) && t != c
    ensures RowsOf(l.batches) == Sum(c)
    ensures AllResident(l.stores[|l.batches|], [a, b], Sum(c)) && SameSegmentCounts(l.stores[|l.batches|], [a, b])
    ensures !RowAligned(l.stores[|l.batches|], [a, b])
  {
    PairFacts(l.stores[|l.batches|], a, b, c, t);
  }

  /** Beside a resident column cut at c, a hit means alignment after every load exactly when c is rigid. */
  lemma {:induction false} HasIsRightIff(store: map<Key, Column>, layouts: map<nat, Layout>, a: Key, b: Key,
                                         c: seq<nat>)
    requires Beside(store, b.table, a, b, c, [])
    ensures AlwaysRight(store, layouts, a, b, c) <==> Rigid(c)
  {
    ResidentPositive(store, b.table, a, c);
    if Rigid(c) {
      forall l: Load | Loads(l, b) && l.stores[0] == store && l.layouts[0] == layouts && RowsOf(l.batches) == Sum(c)
        ensures HasIsAligned(l.stores[|l.batches|], a, b, Sum(c))
      {
        RigidIsRight(l, a, b, c);
      }
    } else {
      var i, j :| 0 <= i < |c| && 0 < j < |c| && i != j && !(c[j] >= SEGMENT_ROWS || c[i] == 1);
      var l := LoosePieceMisaligns(store, layouts, a, b, c, i, j);
      assert !HasIsAligned(l.stores[|l.batches|], a, b, Sum(c));
    }
  }
}
