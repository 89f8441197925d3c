/** Whole runs of the cache: populations of several batches, and several queries one after the other. */
module CacheRuns {
  import opened ColumnCache
  import opened Postfix
  import opened Sequences
  import opened Sums

  // ---- Boundaries over a whole population ----

  /** Before batch n: the columns being stored stand at the first n batches' boundaries, every other
      column of the table with segments at all of them, and the layout's sizes are a prefix of them. */
  ghost predicate InStep(store: map<Key, Column>, layouts: map<nat, Layout>, table: nat, keys: seq<Key>,
                         storeCol: seq<bool>, batches: seq<nat>, n: nat)
    requires |storeCol| == |keys| && n <= |batches|
  {
    && (forall i :: 0 <= i < |keys| && storeCol[i] ==>
          Sizes(ColumnAt(store, keys[i]).segments) == Boundaries(batches[..n]))
    && (forall k :: HasSegments(store, table, k) && !ToStore(keys, storeCol, k) ==>
          Sizes(store[k].segments) == Boundaries(batches))
    && (table in layouts ==> IsPrefix(layouts[table].segmentSizes, Boundaries(batches)))
  }

  /** Whichever column or layout supplies the canonical sizes, the batch is cut into its own pieces. */
  lemma {:induction false} CutIsPieces(store: map<Key, Column>, layouts: map<nat, Layout>, table: nat, keys: seq<Key>,
                                       storeCol: seq<bool>, batches: seq<nat>, n: nat, canonical: seq<nat>, idx: nat)
    requires |storeCol| == |keys| && n < |batches| && InStep(store, layouts, table, keys, storeCol, batches, n)
    requires CanonicalFor(store, layouts, table, canonical) && Positive(canonical) && canonical != []
    requires IndexFor(store, keys, storeCol, idx) && exists i :: 0 <= i < |keys| && storeCol[i]
    requires forall i :: 0 <= i < |keys| ==> keys[i].table == table
    ensures Takes(batches[n], canonical, idx) == Pieces(batches[n])
  {
    var done := Boundaries(batches[..n]);
    var i :| 0 <= i < |keys| && storeCol[i];
    assert Sizes(ColumnAt(store, keys[i]).segments) == done;
    IndexIsProgress(store, layouts, table, keys, storeCol, batches, n, idx);
    CanonicalIsPrefix(store, layouts, table, keys, storeCol, batches, n, canonical);
    TakesOfPrefix(batches, n, canonical);
  }

  /** All stored columns have as many segments as the batches so far make. */
  lemma {:induction false} IndexIsProgress(store: map<Key, Column>, layouts: map<nat, Layout>, table: nat,
                                           keys: seq<Key>, storeCol: seq<bool>, batches: seq<nat>, n: nat, idx: nat)
    requires |storeCol| == |keys| && n <= |batches| && InStep(store, layouts, table, keys, storeCol, batches, n)
    requires IndexFor(store, keys, storeCol, idx) && exists i :: 0 <= i < |keys| && storeCol[i]
    ensures idx == |Boundaries(batches[..n])|
  {
    forall i | 0 <= i < |keys| && storeCol[i]
      ensures |ColumnAt(store, keys[i]).segments| == |Boundaries(batches[..n])|
    {
      assert Sizes(ColumnAt(store, keys[i]).segments) == Boundaries(batches[..n]);
    }
  }

  /** The canonical sizes are a prefix of the full boundaries, reaching at least to the progress so far
      once anything is stored. */
  lemma {:induction false} CanonicalIsPrefix(store: map<Key, Column>, layouts: map<nat, Layout>, table: nat,
                                             keys: seq<Key>, storeCol: seq<bool>, batches: seq<nat>, n: nat,
                                             canonical: seq<nat>)
    requires |storeCol| == |keys| && n < |batches| && InStep(store, layouts, table, keys, storeCol, batches, n)
    requires CanonicalFor(store, layouts, table, canonical)
    requires forall i :: 0 <= i < |keys| ==> keys[i].table == table
    requires exists i :: 0 <= i < |keys| && storeCol[i]
    ensures IsPrefix(canonical, Boundaries(batches))
    ensures |Boundaries(batches[..n])| <= |canonical|
  {
    var rest := BoundariesPrefix(batches, n);
    var i :| 0 <= i < |keys| && storeCol[i];
    assert Sizes(ColumnAt(store, keys[i]).segments) == Boundaries(batches[..n]);
    if exists k :: HasSegments(store, table, k) {
      var k :| HasSegments(store, table, k) && canonical == Sizes(store[k].segments);
      if ToStore(keys, storeCol, k) {
        var j :| 0 <= j < |keys| && storeCol[j] && keys[j] == k;
        assert canonical == Boundaries(batches[..n]);
      }
    } else {
      assert !HasSegments(store, table, keys[i]);
      assert Boundaries(batches[..n]) == [];
    }
  }

  ghost predicate IsPrefix(a: seq<nat>, b: seq<nat>) {
    |a| <= |b| && a == b[..|a|]
  }

  lemma {:induction false} TakesOfPrefix(batches: seq<nat>, n: nat, canonical: seq<nat>)
    requires n < |batches| && IsPrefix(canonical, Boundaries(batches)) && |Boundaries(batches[..n])| <= |canonical|
    ensures Positive(canonical)
    ensures Takes(batches[n], canonical, |Boundaries(batches[..n])|) == Pieces(batches[n])
  {
    BoundariesPositive(batches);
    TakesPrefix(batches[n], canonical, Boundaries(batches), |Boundaries(batches[..n])|, batches, n);
  }

  /** Past the canonical sizes' end the batch is cut every million rows, which is where its own pieces go on. */
  lemma {:induction false} TakesPrefix(count: nat, canonical: seq<nat>, all: seq<nat>, idx: nat, batches: seq<nat>,
                                       n: nat)
    requires n < |batches| && count == batches[n] && all == Boundaries(batches) && idx == |Boundaries(batches[..n])|
    requires Positive(all) && IsPrefix(canonical, all) && idx <= |canonical|
    ensures Positive(canonical) && Takes(count, canonical, idx) == Pieces(count)
  {
    var rest := BoundariesPrefix(batches, n);
    assert Positive(canonical);
    TakesCut(count, canonical, Boundaries(batches[..n]), rest);
  }

  lemma {:induction false} TakesCut(count: nat, canonical: seq<nat>, before: seq<nat>, rest: seq<nat>)
    requires Positive(canonical) && IsPrefix(canonical, before + Pieces(count) + rest) && |before| <= |canonical|
    ensures Takes(count, canonical, |before|) == Pieces(count)
    decreases count
  {
    if count > 0 {
      var take := if count <= SEGMENT_ROWS then count else SEGMENT_ROWS;
      var all := before + Pieces(count) + rest;
      assert all[|before|] == take;
      if |before| == |canonical| {
        TakesPastEnd(count, canonical, |before|);
      } else {
        assert canonical[|before|] == take;
        assert before + [take] + Pieces(count - take) + rest == all;
        TakesCut(count - take, canonical, before + [take], rest);
      }
    }
  }

  /** Storing the next batch keeps everything in step. */
  lemma {:induction false} StaysInStep(store: map<Key, Column>, layouts: map<nat, Layout>, store2: map<Key, Column>,
                                       layouts2: map<nat, Layout>, table: nat, keys: seq<Key>, storeCol: seq<bool>,
                                       cols: seq<HostColumn>, batches: seq<nat>, n: nat, canonical: seq<nat>,
                                       idx: nat, cut: seq<nat>)
    requires |storeCol| == |keys| && n < |batches| && InStep(store, layouts, table, keys, storeCol, batches, n)
    requires (forall i :: 0 <= i < |keys| ==> keys[i].table == table) && exists i :: 0 <= i < |keys| && storeCol[i]
    requires Batch(keys, storeCol, cols, batches[n])
    requires SegmentStored(store, layouts, table, keys, storeCol, cols, batches[n], canonical, idx, cut, store2,
                           layouts2)
    ensures InStep(store2, layouts2, table, keys, storeCol, batches, n + 1)
  {
    if canonical != [] {
      CutIsPieces(store, layouts, table, keys, storeCol, batches, n, canonical, idx);
    }
    StoredStay(store, layouts, store2, table, keys, storeCol, cols, batches, n, cut);
    OthersStay(store, layouts, store2, table, keys, storeCol, cols, batches, n, cut);
    if layouts2 != layouts {
      LayoutStays(store, layouts, layouts2, table, keys, storeCol, batches, n, canonical);
    }
  }

  lemma {:induction false} StoredStay(store: map<Key, Column>, layouts: map<nat, Layout>, store2: map<Key, Column>,
                                      table: nat, keys: seq<Key>, storeCol: seq<bool>, cols: seq<HostColumn>,
                                      batches: seq<nat>, n: nat, cut: seq<nat>)
    requires |storeCol| == |keys| && n < |batches| && InStep(store, layouts, table, keys, storeCol, batches, n)
    requires Batch(keys, storeCol, cols, batches[n]) && cut == Pieces(batches[n])
    requires Stored(store, store2, keys, storeCol, cols, batches[n], batches[n], cut)
    ensures forall i :: 0 <= i < |keys| && storeCol[i] ==>
              Sizes(ColumnAt(store2, keys[i]).segments) == Boundaries(batches[..n + 1])
  {
    assert batches[..n + 1][..n] == batches[..n];
    forall i | 0 <= i < |keys| && storeCol[i]
      ensures Sizes(ColumnAt(store2, keys[i]).segments) == Boundaries(batches[..n + 1])
    {
      assert ColumnStored(store, store2, keys[i], cols[i], batches[n], cut);
    }
  }

  lemma {:induction false} OthersStay(store: map<Key, Column>, layouts: map<nat, Layout>, store2: map<Key, Column>,
                                      table: nat, keys: seq<Key>, storeCol: seq<bool>, cols: seq<HostColumn>,
                                      batches: seq<nat>, n: nat, cut: seq<nat>)
    requires |storeCol| == |keys| && n < |batches| && InStep(store, layouts, table, keys, storeCol, batches, n)
    requires Batch(keys, storeCol, cols, batches[n])
    requires Stored(store, store2, keys, storeCol, cols, batches[n], batches[n], cut)
    ensures forall k :: HasSegments(store2, table, k) && !ToStore(keys, storeCol, k) ==>
              Sizes(store2[k].segments) == Boundaries(batches)
  {
    forall k | HasSegments(store2, table, k) && !ToStore(keys, storeCol, k)
      ensures Sizes(store2[k].segments) == Boundaries(batches)
    {
      assert SameAt(store, store2, k);
      assert HasSegments(store, table, k);
    }
  }

  lemma {:induction false} LayoutStays(store: map<Key, Column>, layouts: map<nat, Layout>, layouts2: map<nat, Layout>,
                                       table: nat, keys: seq<Key>, storeCol: seq<bool>, batches: seq<nat>, n: nat,
                                       canonical: seq<nat>)
    requires |storeCol| == |keys| && n < |batches| && InStep(store, layouts, table, keys, storeCol, batches, n)
    requires (forall i :: 0 <= i < |keys| ==> keys[i].table == table) && exists i :: 0 <= i < |keys| && storeCol[i]
    requires CanonicalFor(store, layouts, table, canonical) && canonical == []
    requires LayoutGains(layouts, layouts2, table, Pieces(batches[n]))
    ensures IsPrefix(layouts2[table].segmentSizes, Boundaries(batches))
  {
    CanonicalIsPrefix(store, layouts, table, keys, storeCol, batches, n, canonical);
    var rest := BoundariesPrefix(batches, n);
    LayoutWasEmpty(store, layouts, table, canonical);
    assert Boundaries(batches[..n]) == [];
    assert Boundaries(batches)[..|Pieces(batches[n])|] == Pieces(batches[n]);
  }

  lemma {:induction false} LayoutWasEmpty(store: map<Key, Column>, layouts: map<nat, Layout>, table: nat,
                                          canonical: seq<nat>)
    requires CanonicalFor(store, layouts, table, canonical) && canonical == []
    ensures table in layouts ==> layouts[table].segmentSizes == []
  {
    forall k | HasSegments(store, table, k) ensures Sizes(store[k].segments) != [] {
      assert |Sizes(store[k].segments)| == |store[k].segments|;
    }
  }

  // ---- The data of a population ----

  /** Column i's values in the first n batches. */
  function Values(batches: seq<seq<HostColumn>>, i: nat, n: nat): seq<int>
    requires n <= |batches| && forall b :: 0 <= b < |batches| ==> i < |batches[b]|
  {
    if n == 0 then [] else Values(batches, i, n - 1) + batches[n - 1][i].values
  }

  /** Which of column i's rows in the first n batches are not NULL. */
  function Marks(batches: seq<seq<HostColumn>>, i: nat, n: nat): seq<bool>
    requires n <= |batches| && forall b :: 0 <= b < |batches| ==> i < |batches[b]|
  {
    if n == 0 then [] else Marks(batches, i, n - 1) + HostMask(batches[n - 1][i])
  }

  /** The stored columns have gained the first n batches' rows in order, values and NULLs; every other column
      is as it was. */
  ghost predicate DataStored(start: map<Key, Column>, now: map<Key, Column>, keys: seq<Key>, storeCol: seq<bool>,
                             batches: seq<seq<HostColumn>>, n: nat)
    requires |storeCol| == |keys| && n <= |batches| && forall b :: 0 <= b < |batches| ==> |batches[b]| == |keys|
  {
    && (forall i :: 0 <= i < |keys| && storeCol[i] ==> 
          HasGained(start, now, keys[i], Values(batches, i, n), Marks(batches, i, n)))
    && (forall k: Key :: !ToStore(keys, storeCol, k) ==> SameAt(start, now, k))
  }

  ghost predicate HasGained(start: map<Key, Column>, now: map<Key, Column>, key: Key, values: seq<int>,
                            mask: seq<bool>) {
    && |ColumnAt(start, key).valids| == |ColumnAt(start, key).segments|
    && |ColumnAt(now, key).valids| == |ColumnAt(now, key).segments|
    && Flatten(ColumnAt(now, key).segments) == Flatten(ColumnAt(start, key).segments) + values
    && Presence(ColumnAt(now, key)) == Presence(ColumnAt(start, key)) + mask
  }

  lemma {:induction false} GainMore(start: map<Key, Column>, now: map<Key, Column>, after: map<Key, Column>, key: Key,
                                    values: seq<int>, mask: seq<bool>, col: HostColumn, cut: seq<nat>)
    requires HasGained(start, now, key, values, mask)
    requires ColumnStored(now, after, key, col, |col.values|, cut)
    ensures HasGained(start, after, key, values + col.values, mask + HostMask(col))
  {
    assert col.values[..|col.values|] == col.values && HostMask(col)[..|col.values|] == HostMask(col);
    AddedTwice(Flatten(ColumnAt(start, key).segments), values, col.values);
    AddedTwice(Presence(ColumnAt(start, key)), mask, HostMask(col));
  }

  lemma {:induction false} NextData(start: map<Key, Column>, now: map<Key, Column>, after: map<Key, Column>,
                                    keys: seq<Key>, storeCol: seq<bool>, batches: seq<seq<HostColumn>>, n: nat,
                                    count: nat, cut: seq<nat>)
    requires |storeCol| == |keys| && n < |batches| && forall b :: 0 <= b < |batches| ==> |batches[b]| == |keys|
    requires DataStored(start, now, keys, storeCol, batches, n) && Batch(keys, storeCol, batches[n], count)
    requires forall i :: 0 <= i < |keys| ==> |batches[n][i].values| == count
    requires Stored(now, after, keys, storeCol, batches[n], count, count, cut)
    ensures DataStored(start, after, keys, storeCol, batches, n + 1)
  {
    forall i | 0 <= i < |keys| && storeCol[i]
      ensures HasGained(start, after, keys[i], Values(batches, i, n + 1), Marks(batches, i, n + 1))
    {
      assert HasGained(start, now, keys[i], Values(batches, i, n), Marks(batches, i, n));
      assert ColumnStored(now, after, keys[i], batches[n][i], count, cut);
      GainMore(start, now, after, keys[i], Values(batches, i, n), Marks(batches, i, n), batches[n][i], cut);
    }
    forall k: Key | !ToStore(keys, storeCol, k) ensures SameAt(start, after, k) {
      assert SameAt(start, now, k) && SameAt(now, after, k);
    }
  }

  ghost predicate BatchesOk(keys: seq<Key>, storeCol: seq<bool>, batches: seq<seq<HostColumn>>, counts: seq<nat>) {
    && |counts| == |batches| && |storeCol| == |keys|
    && (forall n :: 0 <= n < |batches| ==> BatchOk(keys, storeCol, batches[n], counts[n]))
  }

  ghost predicate BatchOk(keys: seq<Key>, storeCol: seq<bool>, batch: seq<HostColumn>, count: nat) {
    Batch(keys, storeCol, batch, count) && forall i :: 0 <= i < |batch| ==> |batch[i].values| == count
  }

  /** Whatever the boundaries, all stored columns have gained segments of the same sizes. */
  ghost predicate GrownAlike(start: map<Key, Column>, now: map<Key, Column>, keys: seq<Key>, storeCol: seq<bool>,
                             grown: seq<nat>)
    requires |storeCol| == |keys|
  {
    forall i :: 0 <= i < |keys| && storeCol[i] ==> GrewBy(start, now, keys[i], grown)
  }

  ghost predicate GrewBy(start: map<Key, Column>, now: map<Key, Column>, key: Key, grown: seq<nat>) {
    Sizes(ColumnAt(now, key).segments) == Sizes(ColumnAt(start, key).segments) + grown
  }

  lemma {:induction false} GrowsAlike(start: map<Key, Column>, now: map<Key, Column>, after: map<Key, Column>,
                                      keys: seq<Key>, storeCol: seq<bool>, cols: seq<HostColumn>, count: nat,
                                      grown: seq<nat>, cut: seq<nat>)
    requires Batch(keys, storeCol, cols, count) && GrownAlike(start, now, keys, storeCol, grown)
    requires Stored(now, after, keys, storeCol, cols, count, count, cut)
    ensures GrownAlike(start, after, keys, storeCol, grown + cut)
  {
    forall i | 0 <= i < |keys| && storeCol[i] ensures GrewBy(start, after, keys[i], grown + cut) {
      assert GrewBy(start, now, keys[i], grown) && ColumnStored(now, after, keys[i], cols[i], count, cut);
      AddedTwice(Sizes(ColumnAt(start, keys[i]).segments), grown, cut);
    }
  }

  /** The columns to be stored, of which there is one, and all others of the table are in step with the batches. */
  ghost predicate Ready(store: map<Key, Column>, layouts: map<nat, Layout>, table: nat, keys: seq<Key>,
                        storeCol: seq<bool>, counts: seq<nat>, n: nat)
    requires |storeCol| == |keys| && n <= |counts|
  {
    && (forall i :: 0 <= i < |keys| ==> keys[i].table == table) && (exists i :: 0 <= i < |keys| && storeCol[i])
    && InStep(store, layouts, table, keys, storeCol, counts, n)
  }

  /** A population: every batch stored in turn, into any cache. The stored columns gain the batches' rows in
      order, in segments of the same sizes, and every other column stays as it is. If everything was in step
      with the batches, all of the table's columns, stored now or resident before, end with the same
      boundaries. */
  method PopulateColumns(cache: Cache, population: int, table: nat, keys: seq<Key>, storeCol: seq<bool>,
                         batches: seq<seq<HostColumn>>, counts: seq<nat>) returns (ghost grown: seq<nat>)
    requires cache.Valid() && BatchesOk(keys, storeCol, batches, counts)
    modifies cache
    ensures cache.Valid()
    ensures forall n :: 0 <= n < |batches| ==> |batches[n]| == |keys|
    ensures DataStored(old(cache.store), cache.store, keys, storeCol, batches, |batches|)
    ensures GrownAlike(old(cache.store), cache.store, keys, storeCol, grown)
    ensures old(Ready(cache.store, cache.layouts, table, keys, storeCol, counts, 0)) ==>
              && InStep(cache.store, cache.layouts, table, keys, storeCol, counts, |counts|)
              && forall k :: HasSegments(cache.store, table, k) ==>
                   Sizes(cache.store[k].segments) == Boundaries(counts)
  {
    ghost var start := cache.store;
    ghost var ready := Ready(cache.store, cache.layouts, table, keys, storeCol, counts, 0);
    assert forall n :: 0 <= n < |batches| ==> BatchOk(keys, storeCol, batches[n], counts[n]);
    NoDataYet(start, keys, storeCol, batches);
    grown := [];
    for n := 0 to |batches|
      invariant cache.Valid() && DataStored(start, cache.store, keys, storeCol, batches, n)
      invariant GrownAlike(start, cache.store, keys, storeCol, grown)
      invariant ready ==> Ready(cache.store, cache.layouts, table, keys, storeCol, counts, n)
    {
      grown := PopulateBatch(cache, population, table, keys, storeCol, batches, counts, n, start, grown);
    }
    if ready {
      InStepAligned(cache.store, cache.layouts, table, keys, storeCol, counts);
    }
  }

  lemma {:induction false} NoDataYet(start: map<Key, Column>, keys: seq<Key>, storeCol: seq<bool>,
                                     batches: seq<seq<HostColumn>>)
    requires |storeCol| == |keys| && forall b :: 0 <= b < |batches| ==> |batches[b]| == |keys|
    requires StoreOk(start)
    ensures DataStored(start, start, keys, storeCol, batches, 0)
    ensures GrownAlike(start, start, keys, storeCol, [])
  {
    forall i | 0 <= i < |keys| && storeCol[i] ensures HasGained(start, start, keys[i], [], []) {
      ColumnAtOk(start, keys[i]);
    }
  }

  method PopulateBatch(cache: Cache, population: int, table: nat, keys: seq<Key>, storeCol: seq<bool>,
                       batches: seq<seq<HostColumn>>, counts: seq<nat>, n: nat, ghost start: map<Key, Column>,
                       ghost before: seq<nat>) returns (ghost grown: seq<nat>)
    requires cache.Valid() && BatchesOk(keys, storeCol, batches, counts) && n < |batches|
    requires forall b :: 0 <= b < |batches| ==> |batches[b]| == |keys|
    requires DataStored(start, cache.store, keys, storeCol, batches, n)
    requires GrownAlike(start, cache.store, keys, storeCol, before)
    modifies cache
    ensures cache.Valid() && DataStored(start, cache.store, keys, storeCol, batches, n + 1)
    ensures GrownAlike(start, cache.store, keys, storeCol, grown)
    ensures old(Ready(cache.store, cache.layouts, table, keys, storeCol, counts, n)) ==>
              Ready(cache.store, cache.layouts, table, keys, storeCol, counts, n + 1)
  {
    ghost var store0, layouts0 := cache.store, cache.layouts;
    assert BatchOk(keys, storeCol, batches[n], counts[n]);
    ghost var canonical, idx, cut := cache.StoreSegment(population, table, keys, storeCol, batches[n], counts[n]);
    if Ready(store0, layouts0, table, keys, storeCol, counts, n) {
      StaysInStep(store0, layouts0, cache.store, cache.layouts, table, keys, storeCol, batches[n], counts, n,
                  canonical, idx, cut);
    }
    NextData(start, store0, cache.store, keys, storeCol, batches, n, counts[n], cut);
    GrowsAlike(start, store0, cache.store, keys, storeCol, batches[n], counts[n], before, cut);
    grown := before + cut;
  }

  lemma {:induction false} InStepAligned(store: map<Key, Column>, layouts: map<nat, Layout>, table: nat,
                                         keys: seq<Key>, storeCol: seq<bool>, counts: seq<nat>)
    requires |storeCol| == |keys| && InStep(store, layouts, table, keys, storeCol, counts, |counts|)
    ensures forall k :: HasSegments(store, table, k) ==> Sizes(store[k].segments) == Boundaries(counts)
  {
    assert counts[..|counts|] == counts;
    forall k | HasSegments(store, table, k) ensures Sizes(store[k].segments) == Boundaries(counts) {
      if ToStore(keys, storeCol, k) {
        var i :| 0 <= i < |keys| && storeCol[i] && keys[i] == k;
        assert Sizes(ColumnAt(store, keys[i]).segments) == Boundaries(counts[..|counts|]);
      }
    }
  }

  // ---- Several queries ----

  /** A table as it is scanned: for every column its host batches, all columns in the same batch sizes. */
  datatype Table = Table(id: nat, counts: seq<nat>, source: Key -> seq<HostColumn>)

  ghost predicate TableOk(t: Table) {
    forall k: Key :: SourceOk(t, k)
  }

  ghost predicate SourceOk(t: Table, k: Key) {
    |t.source(k)| == |t.counts| && forall n :: 0 <= n < |t.counts| ==> HostOk(t.source(k)[n], t.counts[n])
  }

  function AllValues(batches: seq<HostColumn>): seq<int> {
    if batches == [] then [] else AllValues(batches[..|batches| - 1]) + batches[|batches| - 1].values
  }

  function AllMarks(batches: seq<HostColumn>): (marks: seq<bool>)
    ensures |marks| == |AllValues(batches)|
  {
    if batches == [] then [] else AllMarks(batches[..|batches| - 1]) + HostMask(batches[|batches| - 1])
  }

  /** Every column of the table that has segments holds the table's rows, values and NULLs, cut at the
      batches' boundaries; so are the sizes its layout remembers. */
  ghost predicate TableHeld(store: map<Key, Column>, layouts: map<nat, Layout>, t: Table) {
    && (forall k :: HasSegments(store, t.id, k) ==> ColumnHeld(store, t, k))
    && (t.id in layouts ==> IsPrefix(layouts[t.id].segmentSizes, Boundaries(t.counts)))
  }

  ghost predicate ColumnHeld(store: map<Key, Column>, t: Table, k: Key)
    requires HasSegments(store, t.id, k)
  {
    Sizes(store[k].segments) == Boundaries(t.counts) && HoldsAll(store[k], t.source(k))
  }

  /** The column's rows are the batches', in order: the same values, and the same of them NULL. */
  ghost predicate HoldsAll(c: Column, source: seq<HostColumn>) {
    && |c.valids| == |c.segments|
    && Flatten(c.segments) == AllValues(source) && Presence(c) == AllMarks(source)
  }

  /** Every resident column of the table holds the table's rows, cut in any places. */
  ghost predicate RowsHeld(store: map<Key, Column>, t: Table) {
    forall k :: HasSegments(store, t.id, k) ==> HoldsAll(store[k], t.source(k))
  }

  /** The asked columns hold the table's rows. */
  ghost predicate RowsThere(store: map<Key, Column>, t: Table, keys: seq<Key>) {
    forall i :: 0 <= i < |keys| ==> HoldsAll(ColumnAt(store, keys[i]), t.source(keys[i]))
  }

  ghost predicate RowAligned(store: map<Key, Column>, keys: seq<Key>) {
    forall i, j :: 0 <= i < |keys| && 0 <= j < |keys| ==>
      Sizes(ColumnAt(store, keys[i]).segments) == Sizes(ColumnAt(store, keys[j]).segments)
  }

  /** After MlxCacheBeginPopulation on an empty cache, or on one that holds the table, the columns to be
      stored start in step with the batches. */
  lemma {:induction false} BeginsInStep(store: map<Key, Column>, layouts: map<nat, Layout>, store2: map<Key, Column>,
                                        layouts2: map<nat, Layout>, t: Table, keys: seq<Key>, storeCol: seq<bool>,
                                        kept: bool)
    requires TableHeld(store, layouts, t) && |storeCol| == |keys|
    requires forall k :: k in store2 ==> k in store && store2[k] == store[k]
    requires forall i :: 0 <= i < |keys| && storeCol[i] ==> keys[i] !in store2
    requires t.id in layouts2 && layouts2[t.id].segmentSizes == KeptSizes(layouts, t.id, kept)
    ensures InStep(store2, layouts2, t.id, keys, storeCol, t.counts, 0) && TableHeld(store2, layouts2, t)
  {
    forall k | HasSegments(store2, t.id, k) ensures ColumnHeld(store2, t, k) {
      assert HasSegments(store, t.id, k) && ColumnHeld(store, t, k);
    }
    assert t.counts[..0] == [];
  }

  /** One query's columns, as its scan hands them to the cache. */
  function Scanned(t: Table, keys: seq<Key>): (batches: seq<seq<HostColumn>>)
    requires forall i :: 0 <= i < |keys| ==> |t.source(keys[i])| == |t.counts|
    ensures |batches| == |t.counts| && forall n :: 0 <= n < |batches| ==> |batches[n]| == |keys|
  {
    seq(|t.counts|, n requires 0 <= n < |t.counts| => seq(|keys|, i requires 0 <= i < |keys| => t.source(keys[i])[n]))
  }

  lemma {:induction false} ScannedValues(t: Table, keys: seq<Key>, i: nat, n: nat)
    requires (forall j :: 0 <= j < |keys| ==> |t.source(keys[j])| == |t.counts|) && i < |keys| && n <= |t.counts|
    ensures Values(Scanned(t, keys), i, n) == AllValues(t.source(keys[i])[..n])
    ensures Marks(Scanned(t, keys), i, n) == AllMarks(t.source(keys[i])[..n])
  {
    if n > 0 {
      ScannedValues(t, keys, i, n - 1);
      assert t.source(keys[i])[..n][..n - 1] == t.source(keys[i])[..n - 1];
    }
  }

  ghost predicate Distinct(keys: seq<Key>) {
    forall i, j :: 0 <= i < j < |keys| ==> keys[i] != keys[j]
  }

  lemma {:induction false} ScannedHeld(start: map<Key, Column>, store: map<Key, Column>, t: Table, keys: seq<Key>,
                                       storeCol: seq<bool>, i: nat)
    requires (forall j :: 0 <= j < |keys| ==> |t.source(keys[j])| == |t.counts|) && i < |keys| == |storeCol|
    requires storeCol[i] && keys[i] !in start && DataStored(start, store, keys, storeCol, Scanned(t, keys), |t.counts|)
    ensures HoldsAll(ColumnAt(store, keys[i]), t.source(keys[i]))
  {
    var values, marks := Values(Scanned(t, keys), i, |t.counts|), Marks(Scanned(t, keys), i, |t.counts|);
    assert HasGained(start, store, keys[i], values, marks);
    ScannedValues(t, keys, i, |t.counts|);
    assert t.source(keys[i])[..|t.counts|] == t.source(keys[i]);
    assert [] + values == values && [] + marks == marks;
  }

  /** Having populated the missing columns, the cache holds the table again. */
  lemma {:induction false} PopulatedHeld(store: map<Key, Column>, layouts: map<nat, Layout>, start: map<Key, Column>,
                                         layouts0: map<nat, Layout>, t: Table, keys: seq<Key>, storeCol: seq<bool>)
    requires TableOk(t) && |storeCol| == |keys| && TableHeld(start, layouts0, t)
    requires forall i :: 0 <= i < |keys| ==> |t.source(keys[i])| == |t.counts|
    requires forall i :: 0 <= i < |keys| && storeCol[i] ==> keys[i] !in start
    requires DataStored(start, store, keys, storeCol, Scanned(t, keys), |t.counts|)
    requires InStep(store, layouts, t.id, keys, storeCol, t.counts, |t.counts|)
    ensures TableHeld(store, layouts, t)
  {
    InStepAligned(store, layouts, t.id, keys, storeCol, t.counts);
    forall k | HasSegments(store, t.id, k) ensures ColumnHeld(store, t, k) {
      if ToStore(keys, storeCol, k) {
        var i :| 0 <= i < |keys| && storeCol[i] && keys[i] == k;
        ScannedHeld(start, store, t, keys, storeCol, i);
      } else {
        assert SameAt(start, store, k);
        assert HasSegments(start, t.id, k) && ColumnHeld(start, t, k);
      }
    }
  }

  /** The asked columns are there: their rows, and the boundaries all of the table's columns have. */
  ghost predicate QueryHeld(store: map<Key, Column>, t: Table, keys: seq<Key>) {
    forall i :: 0 <= i < |keys| ==> KeyHeld(store, t, keys[i])
  }

  ghost predicate KeyHeld(store: map<Key, Column>, t: Table, key: Key) {
    && HoldsAll(ColumnAt(store, key), t.source(key))
    && Sizes(ColumnAt(store, key).segments) == Boundaries(t.counts)
  }

  /** The cache already has what the query asks for. */
  ghost predicate Hits(cache: Cache, t: Table, keys: seq<Key>)
    reads cache
  {
    cache.RowsAgree(t.id, Sum(t.counts)) && AllResident(cache.store, keys, Sum(t.counts))
  }

  /** Segments, validity and zone maps are the same; only what is fused may differ. */
  ghost predicate SameParts(a: Column, b: Column) {
    a.segments == b.segments && a.valids == b.valids && a.zoneMaps == b.zoneMaps
  }

  /** Every resident column of the table is fused; what becomes of its validity is FusedShowsSameIff. */
  ghost predicate TableFused(store: map<Key, Column>, table: nat) {
    forall k :: HasSegments(store, table, k) ==> store[k].fused == Some(Flatten(store[k].segments))
  }

  /** One query's population, on any cache: begin, store every batch if its columns are not all there, and
      fuse. If it loads, the asked columns end up holding the table's rows, cut in the same places, whatever
      was there before; if it hits, they are as they were. Resident columns that held the table's rows go on
      doing so, and with the same batches as before they also keep the same boundaries. */
  method ServeQuery(cache: Cache, t: Table, keys: seq<Key>)
    requires cache.Valid() && TableOk(t)
    requires keys != [] && Distinct(keys) && forall i :: 0 <= i < |keys| ==> keys[i].table == t.id
    modifies cache
    ensures cache.Valid() && TableFused(cache.store, t.id)
    ensures !old(Hits(cache, t, keys)) ==> RowsThere(cache.store, t, keys) && RowAligned(cache.store, keys)
    ensures old(Hits(cache, t, keys)) ==> forall i :: 0 <= i < |keys| ==>
              SameParts(ColumnAt(cache.store, keys[i]), ColumnAt(old(cache.store), keys[i]))
    ensures old(RowsHeld(cache.store, t)) ==> RowsHeld(cache.store, t) && RowsThere(cache.store, t, keys)
    ensures old(TableHeld(cache.store, cache.layouts, t)) ==>
              TableHeld(cache.store, cache.layouts, t) && QueryHeld(cache.store, t, keys)
  {
    FillCache(cache, t, keys);
    ghost var before := cache.store;
    cache.FuseTable(t.id);
    forall k ensures SameParts(ColumnAt(cache.store, k), ColumnAt(before, k)) {
    }
    FusedHolds(before, cache.store, cache.layouts, t, keys);
  }

  /** Whatever was held before fusing is held after it. */
  lemma {:induction false} FusedHolds(before: map<Key, Column>, after: map<Key, Column>, layouts: map<nat, Layout>,
                                      t: Table, keys: seq<Key>)
    requires before.Keys == after.Keys && forall k :: SameParts(ColumnAt(after, k), ColumnAt(before, k))
    ensures RowsThere(before, t, keys) ==> RowsThere(after, t, keys)
    ensures RowAligned(before, keys) ==> RowAligned(after, keys)
    ensures RowsHeld(before, t) ==> RowsHeld(after, t)
    ensures QueryHeld(before, t, keys) ==> QueryHeld(after, t, keys)
    ensures TableHeld(before, layouts, t) ==> TableHeld(after, layouts, t)
  {
    forall k ensures HasSegments(after, t.id, k) <==> HasSegments(before, t.id, k) {
      assert SameParts(ColumnAt(after, k), ColumnAt(before, k));
    }
    forall i | 0 <= i < |keys| ensures SameParts(ColumnAt(after, keys[i]), ColumnAt(before, keys[i])) {
    }
    if TableHeld(before, layouts, t) {
      forall k | HasSegments(after, t.id, k) ensures ColumnHeld(after, t, k) {
        assert HasSegments(before, t.id, k) && ColumnHeld(before, t, k);
        assert SameParts(ColumnAt(after, k), ColumnAt(before, k));
      }
    }
    if RowsHeld(before, t) {
      forall k | HasSegments(after, t.id, k) ensures HoldsAll(after[k], t.source(k)) {
        assert HasSegments(before, t.id, k) && HoldsAll(before[k], t.source(k));
        assert SameParts(ColumnAt(after, k), ColumnAt(before, k));
      }
    }
    if QueryHeld(before, t, keys) {
      forall i | 0 <= i < |keys| ensures KeyHeld(after, t, keys[i]) {
        assert KeyHeld(before, t, keys[i]);
      }
    }
  }

  /** Begin, and store every batch if the columns are not all there. */
  method FillCache(cache: Cache, t: Table, keys: seq<Key>)
    requires cache.Valid() && TableOk(t)
    requires keys != [] && Distinct(keys) && forall i :: 0 <= i < |keys| ==> keys[i].table == t.id
    modifies cache
    ensures cache.Valid()
    ensures !old(Hits(cache, t, keys)) ==> RowsThere(cache.store, t, keys) && RowAligned(cache.store, keys)
    ensures old(Hits(cache, t, keys)) ==> forall i :: 0 <= i < |keys| ==>
              SameParts(ColumnAt(cache.store, keys[i]), ColumnAt(old(cache.store), keys[i]))
    ensures old(RowsHeld(cache.store, t)) ==> RowsHeld(cache.store, t) && RowsThere(cache.store, t, keys)
    ensures old(TableHeld(cache.store, cache.layouts, t)) ==>
              TableHeld(cache.store, cache.layouts, t) && QueryHeld(cache.store, t, keys)
  {
    ghost var store0, layouts0, agreed := cache.store, cache.layouts, cache.RowsAgree(t.id, Sum(t.counts));
    var plan := cache.BeginPopulation(t.id, keys, Sum(t.counts));
    ghost var store1, layouts1 := cache.store, cache.layouts;
    FewerHeld(store0, store1, t);
    if TableHeld(store0, layouts0, t) {
      BeginsInStep(store0, layouts0, store1, layouts1, t, keys, plan.storeCol, agreed);
    }
    if plan.storeCol[0] {
      LoadColumns(cache, plan.population, t, keys, plan.storeCol);
    } else {
      HitHolds(store0, store1, layouts1, t, keys, plan.storeCol);
    }
  }

  lemma {:induction false} FewerHeld(store: map<Key, Column>, store2: map<Key, Column>, t: Table)
    requires forall k :: k in store2 ==> k in store && store2[k] == store[k]
    ensures RowsHeld(store, t) ==> RowsHeld(store2, t)
  {
    if RowsHeld(store, t) {
      forall k | HasSegments(store2, t.id, k) ensures HoldsAll(store2[k], t.source(k)) {
        assert HasSegments(store, t.id, k);
      }
    }
  }

  /** All asked columns are stored, from nothing. */
  method LoadColumns(cache: Cache, population: int, t: Table, keys: seq<Key>, storeCol: seq<bool>)
    requires cache.Valid() && TableOk(t) && keys != [] && Distinct(keys) && |storeCol| == |keys|
    requires forall i :: 0 <= i < |keys| ==> keys[i].table == t.id && storeCol[i] && keys[i] !in cache.store
    modifies cache
    ensures cache.Valid() && RowsThere(cache.store, t, keys) && RowAligned(cache.store, keys)
    ensures old(RowsHeld(cache.store, t)) ==> RowsHeld(cache.store, t)
    ensures old(InStep(cache.store, cache.layouts, t.id, keys, storeCol, t.counts, 0)) &&
            old(TableHeld(cache.store, cache.layouts, t)) ==>
              TableHeld(cache.store, cache.layouts, t) && QueryHeld(cache.store, t, keys)
  {
    ghost var start, layouts0 := cache.store, cache.layouts;
    assert forall i :: 0 <= i < |keys| ==> SourceOk(t, keys[i]);
    var batches := Scanned(t, keys);
    ScannedOk(t, keys, storeCol);
    assert storeCol[0];
    ghost var grown := PopulateColumns(cache, population, t.id, keys, storeCol, batches, t.counts);
    AlignedLoad(start, cache.store, keys, storeCol, grown);
    LoadedThere(start, cache.store, t, keys, storeCol);
    if InStep(start, layouts0, t.id, keys, storeCol, t.counts, 0) && TableHeld(start, layouts0, t) {
      PopulatedHeld(cache.store, cache.layouts, start, layouts0, t, keys, storeCol);
      StoredHeld(start, cache.store, cache.layouts, t, keys, storeCol);
    }
  }

  lemma {:induction false} AlignedLoad(start: map<Key, Column>, store: map<Key, Column>, keys: seq<Key>,
                                       storeCol: seq<bool>, grown: seq<nat>)
    requires |storeCol| == |keys| && forall i :: 0 <= i < |keys| ==> storeCol[i] && keys[i] !in start
    requires GrownAlike(start, store, keys, storeCol, grown)
    ensures RowAligned(store, keys)
  {
    forall i | 0 <= i < |keys| ensures Sizes(ColumnAt(store, keys[i]).segments) == grown {
      assert GrewBy(start, store, keys[i], grown);
    }
  }

  lemma {:induction false} LoadedThere(start: map<Key, Column>, store: map<Key, Column>, t: Table, keys: seq<Key>,
                                       storeCol: seq<bool>)
    requires |storeCol| == |keys| && forall i :: 0 <= i < |keys| ==> storeCol[i] && keys[i] !in start
    requires forall i :: 0 <= i < |keys| ==> |t.source(keys[i])| == |t.counts|
    requires DataStored(start, store, keys, storeCol, Scanned(t, keys), |t.counts|)
    ensures RowsThere(store, t, keys)
    ensures RowsHeld(start, t) ==> RowsHeld(store, t)
  {
    forall i | 0 <= i < |keys| ensures HoldsAll(ColumnAt(store, keys[i]), t.source(keys[i])) {
      ScannedHeld(start, store, t, keys, storeCol, i);
    }
    if RowsHeld(start, t) {
      forall k | HasSegments(store, t.id, k) ensures HoldsAll(store[k], t.source(k)) {
        if ToStore(keys, storeCol, k) {
          var i :| 0 <= i < |keys| && storeCol[i] && keys[i] == k;
          assert HoldsAll(ColumnAt(store, keys[i]), t.source(keys[i]));
        } else {
          assert SameAt(start, store, k) && HasSegments(start, t.id, k);
        }
      }
    }
  }

  lemma {:induction false} HitHolds(store0: map<Key, Column>, store: map<Key, Column>, layouts: map<nat, Layout>,
                                    t: Table, keys: seq<Key>, storeCol: seq<bool>)
    requires |storeCol| == |keys| && forall i :: 0 <= i < |keys| ==> !storeCol[i] && keys[i].table == t.id
    requires forall i :: 0 <= i < |keys| && !storeCol[i] ==> Resident(store, keys[i], Sum(t.counts))
    requires forall k :: k in store ==> k in store0 && store[k] == store0[k]
    ensures forall i :: 0 <= i < |keys| ==> SameParts(ColumnAt(store, keys[i]), ColumnAt(store0, keys[i]))
    ensures RowsHeld(store, t) ==> RowsThere(store, t, keys)
    ensures TableHeld(store, layouts, t) ==> QueryHeld(store, t, keys)
  {
    forall i | 0 <= i < |keys|
      ensures HasSegments(store, t.id, keys[i]) && ColumnAt(store0, keys[i]) == store[keys[i]]
    {
      assert Resident(store, keys[i], Sum(t.counts));
    }
    if TableHeld(store, layouts, t) {
      ResidentHeld(store, layouts, t, keys, Sum(t.counts));
    }
  }

  lemma {:induction false} ScannedOk(t: Table, keys: seq<Key>, storeCol: seq<bool>)
    requires TableOk(t) && Distinct(keys) && |storeCol| == |keys|
    requires forall i :: 0 <= i < |keys| ==> |t.source(keys[i])| == |t.counts|
    ensures BatchesOk(keys, storeCol, Scanned(t, keys), t.counts)
  {
    forall n | 0 <= n < |t.counts| ensures BatchOk(keys, storeCol, Scanned(t, keys)[n], t.counts[n]) {
      forall i | 0 <= i < |keys| ensures HostOk(Scanned(t, keys)[n][i], t.counts[n]) {
        assert SourceOk(t, keys[i]);
      }
    }
  }

  lemma {:induction false} StoredHeld(start: map<Key, Column>, store: map<Key, Column>, layouts: map<nat, Layout>,
                                      t: Table, keys: seq<Key>, storeCol: seq<bool>)
    requires TableOk(t) && |storeCol| == |keys| && forall i :: 0 <= i < |keys| ==> storeCol[i] && keys[i] !in start
    requires forall i :: 0 <= i < |keys| ==> |t.source(keys[i])| == |t.counts|
    requires DataStored(start, store, keys, storeCol, Scanned(t, keys), |t.counts|)
    requires InStep(store, layouts, t.id, keys, storeCol, t.counts, |t.counts|)
    ensures QueryHeld(store, t, keys)
  {
    assert t.counts[..|t.counts|] == t.counts;
    forall i | 0 <= i < |keys| ensures KeyHeld(store, t, keys[i]) {
      ScannedHeld(start, store, t, keys, storeCol, i);
    }
  }

  lemma {:induction false} ResidentHeld(store: map<Key, Column>, layouts: map<nat, Layout>, t: Table, keys: seq<Key>,
                                        rows: int)
    requires TableHeld(store, layouts, t) && forall i :: 0 <= i < |keys| ==> keys[i].table == t.id
    requires AllResident(store, keys, rows)
    ensures QueryHeld(store, t, keys)
  {
    forall i | 0 <= i < |keys| ensures KeyHeld(store, t, keys[i]) {
      assert Resident(store, keys[i], rows);
      assert HasSegments(store, t.id, keys[i]) && ColumnHeld(store, t, keys[i]);
    }
  }

  /** Any run of queries over one table, each asking for any of its columns: whatever is resident in between
      holds the table's data, and all resident columns have the same boundaries. */
  method ServeQueries(cache: Cache, t: Table, queries: seq<seq<Key>>)
    requires cache.Valid() && TableOk(t) && TableHeld(cache.store, cache.layouts, t)
    requires forall q :: 0 <= q < |queries| ==> queries[q] != [] && Distinct(queries[q])
    requires forall q, i :: 0 <= q < |queries| && 0 <= i < |queries[q]| ==> queries[q][i].table == t.id
    modifies cache
    ensures cache.Valid() && TableHeld(cache.store, cache.layouts, t)
  {
    for q := 0 to |queries|
      invariant cache.Valid() && TableHeld(cache.store, cache.layouts, t)
    {
      ServeQuery(cache, t, queries[q]);
    }
  }

  /** Queries may scan the table in batches of their own. */
  datatype Query = Query(table: Table, keys: seq<Key>)

  /** The same table, delivered in other batches. */
  ghost predicate SameRows(t: Table, u: Table) {
    u.id == t.id && forall k: Key :: SameSource(t.source(k), u.source(k))
  }

  ghost predicate SameSource(a: seq<HostColumn>, b: seq<HostColumn>) {
    AllValues(a) == AllValues(b) && AllMarks(a) == AllMarks(b)
  }

  ghost predicate QueryOk(t: Table, q: Query) {
    && TableOk(q.table) && SameRows(t, q.table) && q.keys != [] && Distinct(q.keys)
    && forall i :: 0 <= i < |q.keys| ==> q.keys[i].table == t.id
  }

  lemma {:induction false} SameRowsHeld(store: map<Key, Column>, t: Table, u: Table)
    requires SameRows(t, u)
    ensures RowsHeld(store, t) <==> RowsHeld(store, u)
  {
    forall k | HasSegments(store, t.id, k)
      ensures HoldsAll(store[k], t.source(k)) <==> HoldsAll(store[k], u.source(k))
    {
      assert SameSource(t.source(k), u.source(k));
    }
    if RowsHeld(store, u) {
      forall k | HasSegments(store, t.id, k) ensures HoldsAll(store[k], t.source(k)) {
        assert HasSegments(store, u.id, k);
      }
    }
  }

  /** Any run of queries over one table, each scanning it in batches of its own: whatever is resident in
      between holds the table's rows. */
  method ServeAnyQueries(cache: Cache, t: Table, queries: seq<Query>)
    requires cache.Valid() && RowsHeld(cache.store, t)
    requires forall q :: 0 <= q < |queries| ==> QueryOk(t, queries[q])
    modifies cache
    ensures cache.Valid() && RowsHeld(cache.store, t)
  {
    for q := 0 to |queries|
      invariant cache.Valid() && RowsHeld(cache.store, t)
    {
      assert QueryOk(t, queries[q]);
      SameRowsHeld(cache.store, t, queries[q].table);
      ServeQuery(cache, queries[q].table, queries[q].keys);
      SameRowsHeld(cache.store, t, queries[q].table);
    }
  }

  /** Such a run from the empty cache on. */
  method RunAnyQueries(t: Table, queries: seq<Query>) returns (cache: Cache)
    requires forall q :: 0 <= q < |queries| ==> QueryOk(t, queries[q])
    ensures fresh(cache) && cache.Valid() && RowsHeld(cache.store, t)
  {
    cache := new Cache();
    EmptyHolds(t);
    ServeAnyQueries(cache, t, queries);
  }

  /** An empty cache holds any table. */
  lemma {:induction false} EmptyHolds(t: Table)
    ensures TableHeld(map[], map[], t) && RowsHeld(map[], t)
  {
  }

  /** A run from the empty cache on. */
  method RunQueries(t: Table, queries: seq<seq<Key>>) returns (cache: Cache)
    requires TableOk(t)
    requires forall q :: 0 <= q < |queries| ==> queries[q] != [] && Distinct(queries[q])
    requires forall q, i :: 0 <= q < |queries| && 0 <= i < |queries[q]| ==> queries[q][i].table == t.id
    ensures fresh(cache) && cache.Valid() && TableHeld(cache.store, cache.layouts, t)
  {
    cache := new Cache();
    EmptyHolds(t);
    ServeQueries(cache, t, queries);
  }
}
