/** MlxSumExprsCached: aggregates read straight from the resident columns. Whatever the boundaries, and
    whatever the zone maps prune, the results are the folds over the table's rows. */
module CacheSums {
  import opened CacheLookup
  import opened CacheRuns
  import opened ColumnCache
  import opened Evaluation = EvalSegments
  import opened Folds
  import opened Postfix
  import opened Sequences
  import opened Sums
  import opened ZoneMaps

  // ---- Columns side by side ----

  /** Columns with their parts in order, cut at the same places. */
  ghost predicate SideBySide(columns: seq<Column>) {
    && columns != [] && (forall c :: 0 <= c < |columns| ==> ColumnOk(columns[c]))
    && (forall c :: 0 <= c < |columns| ==> Sizes(columns[c].segments) == Sizes(columns[0].segments))
  }

  /** Segment s of every column. */
  function SegmentAt(columns: seq<Column>, s: nat): Segment
    requires columns != [] && s < |columns[0].segments|
    requires forall c :: 0 <= c < |columns| ==> s < |columns[c].segments| == |columns[c].valids|
  {
    Segment(|columns[0].segments[s]|,
            seq(|columns|, c requires 0 <= c < |columns| => Ints(columns[c].segments[s])),
            seq(|columns|, c requires 0 <= c < |columns| => columns[c].valids[s]))
  }

  /** The columns' rows as one segment. */
  function WholeSegment(columns: seq<Column>): Segment
    requires columns != [] && forall c :: 0 <= c < |columns| ==> |columns[c].segments| == |columns[c].valids|
  {
    Segment(|Flatten(columns[0].segments)|,
            seq(|columns|, c requires 0 <= c < |columns| => Ints(Flatten(columns[c].segments))),
            seq(|columns|, c requires 0 <= c < |columns| => Some(Presence(columns[c]))))
  }

  lemma {:induction false} SameShape(columns: seq<Column>, c: nat, s: nat)
    requires SideBySide(columns) && c < |columns| && s < |columns[0].segments|
    ensures |columns[c].segments| == |columns[0].segments| == |columns[c].valids|
    ensures |columns[c].segments[s]| == |columns[0].segments[s]|
    ensures PartOk(columns[c].segments[s], columns[c].valids[s], columns[c].zoneMaps[s])
  {
    var a, b := Sizes(columns[c].segments), Sizes(columns[0].segments);
    assert |columns[c].segments| == |a| == |b| == |columns[0].segments|;
    assert a[s] == b[s];
    assert ColumnOk(columns[c]);
  }

  lemma {:induction false} SegmentAtOk(columns: seq<Column>, s: nat)
    requires SideBySide(columns) && s < |columns[0].segments|
    ensures forall c :: 0 <= c < |columns| ==> s < |columns[c].segments| == |columns[c].valids|
    ensures SegmentOk(SegmentAt(columns, s))
  {
    forall c | 0 <= c < |columns|
      ensures s < |columns[c].segments| == |columns[c].valids| && |columns[c].segments[s]| == |columns[0].segments[s]|
      ensures columns[c].valids[s].Some? ==> |columns[c].valids[s].value| == |columns[0].segments[s]|
    {
      SameShape(columns, c, s);
    }
  }

  // ---- Parts of flat lists ----

  lemma {:induction false} PartOfFlat<T>(parts: seq<seq<T>>, n: nat)
    requires n < |parts|
    ensures |Flatten(parts[..n])| + |parts[n]| <= |Flatten(parts)|
    ensures forall i :: 0 <= i < |parts[n]| ==> Flatten(parts)[|Flatten(parts[..n])| + i] == parts[n][i]
  {
    FlattenConcat(parts[..n], parts[n..]);
    FlattenConcat([parts[n]], parts[n + 1..]);
    assert parts == parts[..n] + parts[n..] && parts[n..] == [parts[n]] + parts[n + 1..];
    assert Flatten([parts[n]]) == [] + parts[n];
    assert Flatten(parts) == Flatten(parts[..n]) + (parts[n] + Flatten(parts[n + 1..]));
  }

  lemma {:induction false} FlatLength<T>(parts: seq<seq<T>>)
    ensures |Flatten(parts)| == Sum(Sizes(parts))
  {
    if parts != [] {
      var n := |parts| - 1;
      FlatLength(parts[..n]);
      assert Sizes(parts) == Sizes(parts[..n]) + [|parts[n]|];
      SumAppend(Sizes(parts[..n]), |parts[n]|);
    }
  }

  lemma {:induction false} MaskSizes(c: Column)
    requires |c.valids| == |c.segments|
    ensures Sizes(Masks(c.segments, c.valids)) == Sizes(c.segments)
  {
  }

  lemma {:induction false} SizesFront<T>(parts: seq<seq<T>>, n: nat)
    requires n <= |parts|
    ensures Sizes(parts[..n]) == Sizes(parts)[..n]
  {
  }

  /** Where segment s of the columns begins. */
  function Offset(columns: seq<Column>, s: nat): nat
    requires columns != [] && s <= |columns[0].segments|
  {
    |Flatten(columns[0].segments[..s])|
  }

  /** Lists cut into the same sizes have their parts at the same places. */
  lemma {:induction false} SameOffset<T>(parts: seq<seq<T>>, columns: seq<Column>, n: nat)
    requires columns != [] && Sizes(parts) == Sizes(columns[0].segments) && n <= |parts|
    ensures |parts| == |columns[0].segments| && |Flatten(parts[..n])| == Offset(columns, n)
  {
    assert |Sizes(parts)| == |parts| && |Sizes(columns[0].segments)| == |columns[0].segments|;
    FlatLength(parts[..n]);
    FlatLength(columns[0].segments[..n]);
    SizesFront(parts, n);
    SizesFront(columns[0].segments, n);
  }

  lemma {:induction false} FlatAt<T>(parts: seq<seq<T>>, columns: seq<Column>, s: nat, i: nat)
    requires columns != [] && Sizes(parts) == Sizes(columns[0].segments) && s < |parts| && i < |parts[s]|
    ensures |parts| == |columns[0].segments| && Offset(columns, s) + i < |Flatten(parts)|
    ensures Flatten(parts)[Offset(columns, s) + i] == parts[s][i]
    ensures |Flatten(parts)| == |Flatten(columns[0].segments)|
  {
    SameOffset(parts, columns, s);
    SameOffset(parts, columns, |parts|);
    assert parts[..|parts|] == parts && columns[0].segments[..|parts|] == columns[0].segments;
    PartOfFlat(parts, s);
  }

  lemma {:induction false} WholeLength<T>(parts: seq<seq<T>>, columns: seq<Column>)
    requires columns != [] && Sizes(parts) == Sizes(columns[0].segments)
    ensures |Flatten(parts)| == |Flatten(columns[0].segments)|
  {
    FlatLength(parts);
    FlatLength(columns[0].segments);
  }

  lemma {:induction false} WholeOk(columns: seq<Column>)
    requires SideBySide(columns)
    ensures forall c :: 0 <= c < |columns| ==> |columns[c].segments| == |columns[c].valids|
    ensures SegmentOk(WholeSegment(columns))
  {
    forall c | 0 <= c < |columns|
      ensures |columns[c].segments| == |columns[c].valids|
      ensures |Flatten(columns[c].segments)| == |Presence(columns[c])| == |Flatten(columns[0].segments)|
    {
      assert ColumnOk(columns[c]);
      WholeLength(columns[c].segments, columns);
      MaskSizes(columns[c]);
      WholeLength(Masks(columns[c].segments, columns[c].valids), columns);
    }
  }

  // ---- Segments are parts of the whole ----

  lemma {:induction false} ValueInWhole(columns: seq<Column>, s: nat, c: nat, i: nat)
    requires SideBySide(columns) && c < |columns| && s < |columns[0].segments| && i < |columns[0].segments[s]|
    ensures |columns[c].segments| == |columns[0].segments| && |columns[c].segments[s]| == |columns[0].segments[s]|
    ensures Offset(columns, s) + i < |Flatten(columns[c].segments)| == |Flatten(columns[0].segments)|
    ensures Flatten(columns[c].segments)[Offset(columns, s) + i] == columns[c].segments[s][i]
  {
    SameShape(columns, c, s);
    FlatAt(columns[c].segments, columns, s, i);
  }

  lemma {:induction false} PresenceInWhole(columns: seq<Column>, s: nat, c: nat, i: nat)
    requires SideBySide(columns) && c < |columns| && s < |columns[0].segments| && i < |columns[0].segments[s]|
    ensures |columns[c].segments| == |columns[0].segments| == |columns[c].valids|
    ensures Offset(columns, s) + i < |Presence(columns[c])|
    ensures Presence(columns[c])[Offset(columns, s) + i] == Shown(columns[c].valids[s], i)
  {
    var column := columns[c];
    var masks := Masks(column.segments, column.valids);
    SameShape(columns, c, s);
    MaskSizes(column);
    FlatAt(masks, columns, s, i);
    assert masks[s][i] == Shown(column.valids[s], i);
  }

  lemma {:induction false} CellInWhole(columns: seq<Column>, s: nat, c: nat, i: nat)
    requires SideBySide(columns) && c < |columns| && s < |columns[0].segments| && i < |columns[0].segments[s]|
    requires forall d :: 0 <= d < |columns| ==> |columns[d].segments| == |columns[d].valids| > s
    requires SegmentOk(SegmentAt(columns, s)) && SegmentOk(WholeSegment(columns))
    ensures Offset(columns, s) + i < WholeSegment(columns).count
    ensures SameCell(SegmentAt(columns, s), i, WholeSegment(columns), Offset(columns, s) + i, c)
  {
    ValueInWhole(columns, s, c, i);
    PresenceInWhole(columns, s, c, i);
  }

  lemma {:induction false} RowInWhole(columns: seq<Column>, s: nat, i: nat, j: nat)
    requires SideBySide(columns) && s < |columns[0].segments| && i < |columns[0].segments[s]|
    requires forall d :: 0 <= d < |columns| ==> |columns[d].segments| == |columns[d].valids| > s
    requires SegmentOk(SegmentAt(columns, s)) && SegmentOk(WholeSegment(columns)) && j == Offset(columns, s) + i
    ensures j < WholeSegment(columns).count && SameRow(SegmentAt(columns, s), i, WholeSegment(columns), j)
  {
    CellInWhole(columns, s, 0, i);
    var segment, whole := SegmentAt(columns, s), WholeSegment(columns);
    forall c | 0 <= c < |columns| ensures SameCell(segment, i, whole, j, c) {
      CellInWhole(columns, s, c, i);
    }
  }

  /** Columns read back as lists of segments. */
  ghost predicate AreSegments(segments: seq<Segment>, columns: seq<Column>)
    requires SideBySide(columns)
  {
    |segments| == |columns[0].segments| && forall s :: 0 <= s < |segments| ==> IsSegment(segments[s], columns, s)
  }

  ghost predicate IsSegment(segment: Segment, columns: seq<Column>, s: nat)
    requires SideBySide(columns) && s < |columns[0].segments|
  {
    && (forall c :: 0 <= c < |columns| ==> s < |columns[c].segments| == |columns[c].valids|)
    && segment == SegmentAt(columns, s)
  }

  lemma {:induction false} OffsetIsRowsBefore(segments: seq<Segment>, columns: seq<Column>, n: nat)
    requires SideBySide(columns) && AreSegments(segments, columns) && n <= |segments|
    ensures RowsBefore(segments, n) == Offset(columns, n)
  {
    if n > 0 {
      OffsetIsRowsBefore(segments, columns, n - 1);
      assert IsSegment(segments[n - 1], columns, n - 1);
      var parts := columns[0].segments;
      assert parts[..n] == parts[..n - 1] + [parts[n - 1]];
      OneMore(parts[..n - 1], parts[n - 1]);
    }
  }

  lemma {:induction false} SegmentIsPart(segments: seq<Segment>, columns: seq<Column>, s: nat)
    requires SideBySide(columns) && AreSegments(segments, columns) && s < |segments|
    requires forall d :: 0 <= d < |columns| ==> |columns[d].segments| == |columns[d].valids|
    requires SegmentOk(WholeSegment(columns))
    ensures PartOf(segments[s], WholeSegment(columns), RowsBefore(segments, s))
  {
    assert IsSegment(segments[s], columns, s);
    SegmentAtOk(columns, s);
    OffsetIsRowsBefore(segments, columns, s);
    PartOfFlat(columns[0].segments, s);
    forall i | 0 <= i < segments[s].count ensures RowStands(segments[s], i, WholeSegment(columns), Offset(columns, s)) {
      RowInWhole(columns, s, i, Offset(columns, s) + i);
    }
  }

  lemma {:induction false} SegmentsAreCuts(segments: seq<Segment>, columns: seq<Column>)
    requires SideBySide(columns) && AreSegments(segments, columns)
    ensures forall d :: 0 <= d < |columns| ==> |columns[d].segments| == |columns[d].valids|
    ensures SegmentOk(WholeSegment(columns)) && AllOk(segments) && CutsOf(segments, WholeSegment(columns))
  {
    WholeOk(columns);
    forall s | 0 <= s < |segments| ensures PartAt(segments, s, WholeSegment(columns)) {
      SegmentIsPart(segments, columns, s);
    }
    forall s | 0 <= s < |segments| ensures SegmentOk(segments[s]) {
      assert PartAt(segments, s, WholeSegment(columns));
    }
    OffsetIsRowsBefore(segments, columns, |segments|);
    assert columns[0].segments[..|segments|] == columns[0].segments;
  }

  lemma {:induction false} MapsCover(segments: seq<Segment>, columns: seq<Column>, zoneMaps: seq<seq<ZoneMap>>)
    requires SideBySide(columns) && AreSegments(segments, columns) && |zoneMaps| == |columns|
    requires forall c :: 0 <= c < |columns| ==> zoneMaps[c] == columns[c].zoneMaps
    ensures ZonesCover(zoneMaps, segments)
  {
    forall c, k | 0 <= c < |zoneMaps| && 0 <= k < |zoneMaps[c]| && k < |segments|
      ensures ZoneFits(zoneMaps[c][k], segments[k], c)
    {
      assert IsSegment(segments[k], columns, k);
      SameShape(columns, c, k);
      SegmentAtOk(columns, k);
      DescribedIsCovered(zoneMaps[c][k], columns[c].segments[k], columns[c].valids[k], segments[k], c);
    }
  }

  // ---- Reading the cache ----

  function ColumnsAt(store: map<Key, Column>, keys: seq<Key>): (columns: seq<Column>)
    ensures |columns| == |keys|
  {
    seq(|keys|, i requires 0 <= i < |keys| => ColumnAt(store, keys[i]))
  }

  /** Every column is there, and none has more segments than another. */
  ghost predicate Readable(store: map<Key, Column>, keys: seq<Key>) {
    (forall i :: 0 <= i < |keys| ==> keys[i] in store) && SameSegmentCounts(store, keys)
  }

  /** The first n columns have been added to segment s. */
  ghost predicate HasColumns(segment: Segment, columns: seq<Column>, s: nat, n: nat)
    requires n <= |columns| && columns != [] && s < |columns[0].segments|
  {
    && segment.count == |columns[0].segments[s]| && |segment.cols| == |segment.valids| == n
    && forall c :: 0 <= c < n ==> HasColumn(segment, columns[c], s, c)
  }

  ghost predicate HasColumn(segment: Segment, column: Column, s: nat, c: nat)
    requires c < |segment.cols| == |segment.valids|
  {
    && s < |column.segments| == |column.valids|
    && segment.cols[c] == Ints(column.segments[s]) && segment.valids[c] == column.valids[s]
  }

  ghost predicate AllHaveColumns(segments: seq<Segment>, columns: seq<Column>, n: nat)
    requires n <= |columns| && columns != []
  {
    && |segments| == |columns[0].segments|
    && forall s :: 0 <= s < |segments| ==> HasColumns(segments[s], columns, s, n)
  }

  method AddColumn(segments0: seq<Segment>, column: Column, ghost columns: seq<Column>, ghost n: nat)
    returns (segments: seq<Segment>)
    requires n < |columns| && columns[n] == column && |column.segments| == |column.valids| == |segments0|
    requires AllHaveColumns(segments0, columns, n)
    ensures AllHaveColumns(segments, columns, n + 1)
  {
    segments := [];
    for s := 0 to |segments0|
      invariant |segments| == s && forall r :: 0 <= r < s ==> HasColumns(segments[r], columns, r, n + 1)
    {
      assert HasColumns(segments0[s], columns, s, n);
      var segment := Segment(segments0[s].count, segments0[s].cols + [Ints(column.segments[s])],
                             segments0[s].valids + [column.valids[s]]);
      ColumnAdded(segments0[s], segment, columns, s, n);
      segments := segments + [segment];
    }
  }

  lemma {:induction false} ColumnAdded(before: Segment, after: Segment, columns: seq<Column>, s: nat, n: nat)
    requires n < |columns| && s < |columns[0].segments| && s < |columns[n].segments| == |columns[n].valids|
    requires HasColumns(before, columns, s, n)
    requires after == Segment(before.count, before.cols + [Ints(columns[n].segments[s])],
                              before.valids + [columns[n].valids[s]])
    ensures HasColumns(after, columns, s, n + 1)
  {
    forall c | 0 <= c < n + 1 ensures HasColumn(after, columns[c], s, c) {
      if c < n {
        assert HasColumn(before, columns[c], s, c);
      }
    }
  }

  lemma {:induction false} AllAdded(segments: seq<Segment>, columns: seq<Column>)
    requires SideBySide(columns) && AllHaveColumns(segments, columns, |columns|)
    ensures AreSegments(segments, columns)
  {
    forall s | 0 <= s < |segments| ensures IsSegment(segments[s], columns, s) {
      assert HasColumns(segments[s], columns, s, |columns|);
      SegmentAtOk(columns, s);
      var segment := SegmentAt(columns, s);
      forall c | 0 <= c < |columns| ensures segments[s].cols[c] == segment.cols[c]
        ensures segments[s].valids[c] == segment.valids[c]
      {
        assert HasColumn(segments[s], columns[c], s, c);
      }
    }
  }

  /** The lookup: all columns, in as many segments each, or an error. */
  method CountSegments(cache: Cache, keys: seq<Key>) returns (count: Option<nat>)
    requires cache.Valid()
    ensures count.Some? <==> Readable(cache.store, keys)
    ensures count.Some? ==> forall i :: 0 <= i < |keys| ==> |cache.store[keys[i]].segments| == count.value
  {
    var nsegments := 0;
    for i := 0 to |keys|
      invariant forall j :: 0 <= j < i ==> keys[j] in cache.store
      invariant i == 0 <==> nsegments == 0
      invariant forall j :: 0 <= j < i ==> |cache.store[keys[j]].segments| == nsegments
    {
      if keys[i] !in cache.store {
        return None;
      }
      if nsegments == 0 {
        nsegments := |cache.store[keys[i]].segments|;
      } else if |cache.store[keys[i]].segments| != nsegments {
        assert |ColumnAt(cache.store, keys[0]).segments| != |ColumnAt(cache.store, keys[i]).segments|;
        return None;
      }
    }
    count := Some(nsegments);
  }

  /** The segments and zone maps of the listed columns. */
  method GatherSegments(cache: Cache, keys: seq<Key>)
    returns (ok: bool, segments: seq<Segment>, zoneMaps: seq<seq<ZoneMap>>)
    requires cache.Valid() && keys != []
    ensures ok <==> Readable(cache.store, keys)
    ensures ok ==> AllHaveColumns(segments, ColumnsAt(cache.store, keys), |keys|)
    ensures ok ==> |zoneMaps| == |keys| &&
                   forall c :: 0 <= c < |keys| ==> zoneMaps[c] == ColumnsAt(cache.store, keys)[c].zoneMaps
  {
    ok, segments, zoneMaps := false, [], [];
    var count := CountSegments(cache, keys);
    if count.None? {
      return;
    }
    var first := cache.store[keys[0]].segments;
    segments := seq(count.value, s requires 0 <= s < count.value => Segment(|first[s]|, [], []));
    ghost var columns := ColumnsAt(cache.store, keys);
    for c := 0 to |keys|
      invariant AllHaveColumns(segments, columns, c)
      invariant |zoneMaps| == c && forall d :: 0 <= d < c ==> zoneMaps[d] == columns[d].zoneMaps
    {
      var column := cache.store[keys[c]];
      assert columns[c] == column && ColumnOk(column);
      zoneMaps := zoneMaps + [column.zoneMaps];
      segments := AddColumn(segments, column, columns, c);
    }
    ok := true;
  }

  /** Code that runs on every row of the listed columns. */
  ghost predicate RunsOnAll(env: Env, columns: seq<Column>, filter: MlxFilter, programs: seq<Program>) {
    && columns != [] && (forall c :: 0 <= c < |columns| ==> |columns[c].segments| == |columns[c].valids|)
    && SegmentOk(WholeSegment(columns)) && SegmentEvaluable(env, WholeSegment(columns), filter, programs)
  }

  lemma {:induction false} SegmentsRun(env: Env, segments: seq<Segment>, columns: seq<Column>, filter: MlxFilter,
                                       programs: seq<Program>)
    requires SideBySide(columns) && AreSegments(segments, columns) && RunsOnAll(env, columns, filter, programs)
    ensures Evaluable(env, segments, filter, programs)
  {
    SegmentsAreCuts(segments, columns);
    forall s | 0 <= s < |segments| ensures SegmentEvaluable(env, segments[s], filter, programs) {
      assert PartAt(segments, s, WholeSegment(columns));
      PartEvaluable(env, segments[s], WholeSegment(columns), RowsBefore(segments, s), filter, programs);
    }
  }

  /** The results are the programs' folds over all rows of w. */
  ghost predicate AreFolds(env: Env, w: Segment, filter: MlxFilter, programs: seq<Program>, results: seq<Result>) {
    && SegmentOk(w) && |results| == |programs|
    && forall p :: 0 <= p < |programs| ==>
         && results[p] == Fold(programs[p].kind, Contributions(env, w, filter, programs[p]))
         && Aggregates(programs[p].kind, Contributions(env, w, filter, programs[p]), results[p])
  }

  method EvalGathered(env: Env, segments: seq<Segment>, zoneMaps: seq<seq<ZoneMap>>, ghost columns: seq<Column>,
                      filter: MlxFilter, programs: seq<Program>) returns (results: seq<Result>)
    requires SideBySide(columns) && AreSegments(segments, columns) && RunsOnAll(env, columns, filter, programs)
    requires |zoneMaps| == |columns| && forall c :: 0 <= c < |columns| ==> zoneMaps[c] == columns[c].zoneMaps
    requires NullColsCover(filter)
    ensures AreFolds(env, WholeSegment(columns), filter, programs, results)
  {
    SegmentsAreCuts(segments, columns);
    SegmentsRun(env, segments, columns, filter, programs);
    MapsCover(segments, columns, zoneMaps);
    results := Evaluation.EvalSegments(env, segments, filter, programs, Some(zoneMaps));
    ghost var w := WholeSegment(columns);
    forall p | 0 <= p < |programs|
      ensures results[p] == Fold(programs[p].kind, Contributions(env, w, filter, programs[p]))
      ensures Aggregates(programs[p].kind, Contributions(env, w, filter, programs[p]), results[p])
    {
      FoldAggregates(programs[p].kind, Contributions(env, w, filter, programs[p]));
      AnyCutContributes(env, segments, w, filter, programs[p], |segments|);
      var all := Contributions(env, w, filter, programs[p]);
      assert all[..|all|] == all;
    }
  }

  lemma {:induction false} ReadableSideBySide(store: map<Key, Column>, keys: seq<Key>)
    requires StoreOk(store) && keys != [] && Readable(store, keys) && RowAligned(store, keys)
    ensures SideBySide(ColumnsAt(store, keys))
  {
    var columns := ColumnsAt(store, keys);
    forall c | 0 <= c < |columns|
      ensures ColumnOk(columns[c]) && Sizes(columns[c].segments) == Sizes(columns[0].segments)
    {
      assert keys[c] in store;
    }
  }

  /** MlxSumExprsCached. It fails exactly when a column is missing or the numbers of segments differ. Where the
      columns are row-aligned, which CacheLookup says when to expect, the results are folds over their rows. */
  method SumExprsCached(env: Env, cache: Cache, keys: seq<Key>, programs: seq<Program>, filter: MlxFilter)
    returns (results: Option<seq<Result>>)
    requires cache.Valid() && keys != [] && NullColsCover(filter)
    requires Readable(cache.store, keys) ==>
               RowAligned(cache.store, keys) && RunsOnAll(env, ColumnsAt(cache.store, keys), filter, programs)
    ensures results.Some? <==> Readable(cache.store, keys)
    ensures results.Some? ==>
              RunsOnAll(env, ColumnsAt(cache.store, keys), filter, programs) &&
              AreFolds(env, WholeSegment(ColumnsAt(cache.store, keys)), filter, programs, results.value)
  {
    var ok, segments, zoneMaps := GatherSegments(cache, keys);
    if !ok {
      return None;
    }
    ghost var columns := ColumnsAt(cache.store, keys);
    ReadableSideBySide(cache.store, keys);
    AllAdded(segments, columns);
    var values := EvalGathered(env, segments, zoneMaps, columns, filter, programs);
    results := Some(values);
  }

  // ---- A table's aggregates ----

  /** The table's asked columns as one segment. */
  function TableSegment(t: Table, keys: seq<Key>): Segment
    requires keys != []
  {
    Segment(|AllValues(t.source(keys[0]))|,
            seq(|keys|, i requires 0 <= i < |keys| => Ints(AllValues(t.source(keys[i])))),
            seq(|keys|, i requires 0 <= i < |keys| => Some(AllMarks(t.source(keys[i])))))
  }

  lemma {:induction false} AllValuesLength(batches: seq<HostColumn>, counts: seq<nat>)
    requires |batches| == |counts| && forall n :: 0 <= n < |counts| ==> HostOk(batches[n], counts[n])
    ensures |AllValues(batches)| == Sum(counts)
  {
    if counts != [] {
      var n := |counts| - 1;
      AllValuesLength(batches[..n], counts[..n]);
      assert counts == counts[..n] + [counts[n]];
      SumAppend(counts[..n], counts[n]);
    }
  }

  lemma {:induction false} TableSegmentOk(t: Table, keys: seq<Key>)
    requires TableOk(t) && keys != []
    ensures SegmentOk(TableSegment(t, keys)) && TableSegment(t, keys).count == Sum(t.counts)
  {
    forall i | 0 <= i < |keys| ensures |AllValues(t.source(keys[i]))| == Sum(t.counts) {
      assert SourceOk(t, keys[i]);
      AllValuesLength(t.source(keys[i]), t.counts);
    }
  }

  /** The filter's and the programs' code runs on every row of the table. */
  ghost predicate RunsOnTable(env: Env, t: Table, keys: seq<Key>, filter: MlxFilter, programs: seq<Program>) {
    TableOk(t) && keys != [] &&
    (TableSegmentOk(t, keys); SegmentEvaluable(env, TableSegment(t, keys), filter, programs))
  }

  lemma {:induction false} HeldIsTable(store: map<Key, Column>, t: Table, keys: seq<Key>)
    requires keys != [] && RowsThere(store, t, keys)
    ensures forall c :: 0 <= c < |keys| ==>
              |ColumnsAt(store, keys)[c].segments| == |ColumnsAt(store, keys)[c].valids|
    ensures WholeSegment(ColumnsAt(store, keys)) == TableSegment(t, keys)
  {
    var columns := ColumnsAt(store, keys);
    forall c | 0 <= c < |keys| ensures HoldsAll(columns[c], t.source(keys[c])) {
      assert HoldsAll(ColumnAt(store, keys[c]), t.source(keys[c]));
    }
  }

  lemma {:induction false} HeldIsReadable(store: map<Key, Column>, t: Table, keys: seq<Key>)
    requires StoreOk(store) && TableOk(t) && keys != [] && RowsThere(store, t, keys) && RowAligned(store, keys)
    ensures Readable(store, keys) <==> Sum(t.counts) > 0
  {
    forall i | 0 <= i < |keys| ensures keys[i] in store <==> Sum(t.counts) > 0 {
      HeldIsStored(store, t, keys[i]);
    }
    forall i, j | 0 <= i < |keys| && 0 <= j < |keys|
      ensures |ColumnAt(store, keys[i]).segments| == |ColumnAt(store, keys[j]).segments|
    {
      assert |Sizes(ColumnAt(store, keys[i]).segments)| == |Sizes(ColumnAt(store, keys[j]).segments)|;
    }
    assert Readable(store, keys) ==> keys[0] in store;
  }

  /** A column with the table's rows is in the store exactly when there are rows. */
  lemma {:induction false} HeldIsStored(store: map<Key, Column>, t: Table, key: Key)
    requires StoreOk(store) && TableOk(t) && HoldsAll(ColumnAt(store, key), t.source(key))
    ensures key in store <==> Sum(t.counts) > 0
    ensures Sum(t.counts) >= 0
  {
    assert SourceOk(t, key);
    AllValuesLength(t.source(key), t.counts);
    if key in store {
      var parts := store[key].segments;
      assert NonEmpty(parts) && parts[|parts| - 1] != [];
    }
  }

  /** MLX_SUM with the cache: populate what is missing, fuse, and evaluate from the cache. On any cache, a query
      that loads returns the folds over the table's rows; one that hits does so if the resident columns hold
      the table's rows and are row-aligned. */
  method SumQuery(env: Env, cache: Cache, t: Table, keys: seq<Key>, programs: seq<Program>, filter: MlxFilter)
    returns (results: Option<seq<Result>>)
    requires cache.Valid() && TableOk(t)
    requires keys != [] && Distinct(keys) && forall i :: 0 <= i < |keys| ==> keys[i].table == t.id
    requires NullColsCover(filter) && RunsOnTable(env, t, keys, filter, programs)
    requires Hits(cache, t, keys) ==> RowsThere(cache.store, t, keys) && RowAligned(cache.store, keys)
    modifies cache
    ensures cache.Valid()
    ensures results.Some? <==> Sum(t.counts) > 0
    ensures results.Some? ==> AreFolds(env, TableSegment(t, keys), filter, programs, results.value)
    ensures old(RowsHeld(cache.store, t)) ==> RowsHeld(cache.store, t)
    ensures old(TableHeld(cache.store, cache.layouts, t)) ==> TableHeld(cache.store, cache.layouts, t)
  {
    ghost var before, hit := cache.store, Hits(cache, t, keys);
    TableSegmentOk(t, keys);
    ServeQuery(cache, t, keys);
    if hit {
      HitStays(before, cache.store, t, keys);
    }
    HeldIsTable(cache.store, t, keys);
    HeldIsReadable(cache.store, t, keys);
    results := SumExprsCached(env, cache, keys, programs, filter);
  }

  lemma {:induction false} HitStays(before: map<Key, Column>, after: map<Key, Column>, t: Table, keys: seq<Key>)
    requires forall i :: 0 <= i < |keys| ==> SameParts(ColumnAt(after, keys[i]), ColumnAt(before, keys[i]))
    requires RowsThere(before, t, keys) && RowAligned(before, keys)
    ensures RowsThere(after, t, keys) && RowAligned(after, keys)
  {
    forall i | 0 <= i < |keys| ensures HoldsAll(ColumnAt(after, keys[i]), t.source(keys[i])) {
      assert HoldsAll(ColumnAt(before, keys[i]), t.source(keys[i]));
      assert SameParts(ColumnAt(after, keys[i]), ColumnAt(before, keys[i]));
    }
    forall i, j | 0 <= i < |keys| && 0 <= j < |keys|
      ensures Sizes(ColumnAt(after, keys[i]).segments) == Sizes(ColumnAt(after, keys[j]).segments)
    {
      assert SameParts(ColumnAt(after, keys[i]), ColumnAt(before, keys[i]));
      assert SameParts(ColumnAt(after, keys[j]), ColumnAt(before, keys[j]));
    }
  }
}
