/** The segmented column cache: begin, store, fuse, drop, read. Columns are integer-valued here. */
module ColumnCache {
  import opened Arith
  import opened Postfix
  import opened Sequences
  import opened Sums
  import opened ZoneMaps

  const SEGMENT_ROWS: nat := 1000000

  /** A column's key, with the table its prefix names. */
  datatype Key = Key(table: nat, column: nat)

  datatype Column = Column(segments: seq<seq<int>>, valids: seq<Option<seq<bool>>>, zoneMaps: seq<ZoneMap>,
                           fused: Option<seq<int>>, fusedValid: Option<seq<bool>>, rows: int, population: int)

  datatype Layout = Layout(rows: int, population: int, segmentSizes: seq<nat>)

  const NO_COLUMN: Column := Column([], [], [], None, None, 0, 0)
  const NO_LAYOUT: Layout := Layout(0, 0, [])

  function Sizes<T>(parts: seq<seq<T>>): (r: seq<nat>)
    ensures |r| == |parts|
  {
    seq(|parts|, i requires 0 <= i < |parts| => |parts[i]|)
  }

  /** ConcatArraysBalanced: halving the list first does not change what is concatenated. */
  function ConcatBalanced<T>(parts: seq<seq<T>>): (r: seq<T>)
    ensures r == Flatten(parts)
    decreases |parts|
  {
    if |parts| == 0 then []
    else if |parts| == 1 then
      assert Flatten(parts[..0]) == [];
      parts[0]
    else if |parts| == 2 then
      assert Flatten(parts[..1]) == [] + parts[0];
      parts[0] + parts[1]
    else
      var mid := |parts| / 2;
      FlattenConcat(parts[..mid], parts[mid..]);
      assert parts[..mid] + parts[mid..] == parts;
      ConcatBalanced(parts[..mid]) + ConcatBalanced(parts[mid..])
  }

  // ---- One column ----

  ghost predicate NonEmpty(segments: seq<seq<int>>) {
    forall s :: 0 <= s < |segments| ==> segments[s] != []
  }

  /** Which of a segment's rows are not NULL. */
  function Mask(segment: seq<int>, valid: Option<seq<bool>>): (mask: seq<bool>)
    ensures |mask| == |segment|
  {
    seq(|segment|, i requires 0 <= i < |segment| => Shown(valid, i))
  }

  /** Segment by segment; without an array nothing is NULL. */
  function Masks(segments: seq<seq<int>>, valids: seq<Option<seq<bool>>>): (masks: seq<seq<bool>>)
    requires |valids| == |segments|
    ensures |masks| == |segments|
  {
    seq(|segments|, s requires 0 <= s < |segments| => Mask(segments[s], valids[s]))
  }

  /** Which of a column's rows are not NULL. */
  function Presence(c: Column): seq<bool>
    requires |c.valids| == |c.segments|
  {
    Flatten(Masks(c.segments, c.valids))
  }

  ghost predicate PartOk(segment: seq<int>, valid: Option<seq<bool>>, zm: ZoneMap) {
    (valid.Some? ==> |valid.value| == |segment|) && Describes(zm, segment, valid)
  }

  ghost predicate PartsOk(c: Column) {
    && |c.valids| == |c.segments| == |c.zoneMaps|
    && forall s :: 0 <= s < |c.segments| ==> PartOk(c.segments[s], c.valids[s], c.zoneMaps[s])
  }

  ghost predicate FusedOk(c: Column) {
    && (c.fused.None? ==> c.fusedValid.None?)
    && (c.fused.Some? ==> c.fused.value == Flatten(c.segments) && c.fusedValid == FusedValid(c.valids))
  }

  /** Segments are never empty and have their validity and zone map, rows is their total size, and a fused
      column is their concatenation. */
  ghost predicate ColumnOk(c: Column) {
    PartsOk(c) && NonEmpty(c.segments) && c.rows == Sum(Sizes(c.segments)) && FusedOk(c)
  }

  /** A host column: values and, if any is NULL, validity. */
  datatype HostColumn = HostColumn(values: seq<int>, valid: Option<seq<bool>>)

  ghost predicate HostOk(col: HostColumn, count: nat) {
    |col.values| == count && (col.valid.Some? ==> |col.valid.value| == count) && Int64s(col.values)
  }

  function HostMask(col: HostColumn): (mask: seq<bool>)
    ensures |mask| == |col.values|
  {
    Mask(col.values, col.valid)
  }

  lemma {:induction false} MaskSlice(values: seq<int>, valid: Option<seq<bool>>, lo: nat, hi: nat)
    requires lo <= hi <= |values| && (valid.Some? ==> |valid.value| == |values|)
    ensures Mask(values[lo..hi], if valid.Some? then Some(valid.value[lo..hi]) else None) == Mask(values, valid)[lo..hi]
  {
  }

  /** Rows offset .. offset + take of a host column. */
  function HostSlice(col: HostColumn, offset: nat, take: nat): (r: HostColumn)
    requires offset + take <= |col.values| && (col.valid.Some? ==> |col.valid.value| == |col.values|)
    ensures |r.values| == take && (r.valid.Some? ==> |r.valid.value| == take)
    ensures r.values == col.values[offset..offset + take] && HostMask(r) == HostMask(col)[offset..offset + take]
  {
    MaskSlice(col.values, col.valid, offset, offset + take);
    HostColumn(col.values[offset..offset + take],
               if col.valid.Some? then Some(col.valid.value[offset..offset + take]) else None)
  }

  /** The column with one more segment, and nothing fused. */
  function WithSegment(c: Column, slice: HostColumn, zm: ZoneMap, population: int): Column {
    Column(c.segments + [slice.values], c.valids + [slice.valid], c.zoneMaps + [zm], None, None,
           c.rows + |slice.values|, population)
  }

  /** The column has gained these values, shown or NULL as in `mask`, in segments of the sizes `cut`. */
  ghost predicate Gained(before: Column, after: Column, values: seq<int>, mask: seq<bool>, cut: seq<nat>) {
    && |before.valids| == |before.segments| && |after.valids| == |after.segments|
    && Flatten(after.segments) == Flatten(before.segments) + values
    && Presence(after) == Presence(before) + mask
    && Sizes(after.segments) == Sizes(before.segments) + cut
  }

  lemma {:induction false} GainedTwice(a: Column, b: Column, c: Column, values: seq<int>, mask: seq<bool>,
                                       cut: seq<nat>, values2: seq<int>, mask2: seq<bool>, cut2: seq<nat>)
    requires Gained(a, b, values, mask, cut) && Gained(b, c, values2, mask2, cut2)
    ensures Gained(a, c, values + values2, mask + mask2, cut + cut2)
  {
    AddedTwice(Flatten(a.segments), values, values2);
    AddedTwice(Presence(a), mask, mask2);
    AddedTwice(Sizes(a.segments), cut, cut2);
  }

  lemma {:induction false} AddedTwice<T>(a: seq<T>, b: seq<T>, c: seq<T>)
    ensures (a + b) + c == a + (b + c)
  {
  }

  lemma {:induction false} OneMore<T>(parts: seq<seq<T>>, part: seq<T>)
    ensures Flatten(parts + [part]) == Flatten(parts) + part
  {
    assert (parts + [part])[..|parts|] == parts;
  }

  lemma {:induction false} WithSegmentOk(c: Column, slice: HostColumn, zm: ZoneMap, population: int)
    requires ColumnOk(c) && slice.values != [] && PartOk(slice.values, slice.valid, zm)
    ensures ColumnOk(WithSegment(c, slice, zm, population))
  {
    var r := WithSegment(c, slice, zm, population);
    assert Sizes(r.segments) == Sizes(c.segments) + [|slice.values|];
    SumAppend(Sizes(c.segments), |slice.values|);
    forall s | 0 <= s < |r.segments| ensures PartOk(r.segments[s], r.valids[s], r.zoneMaps[s]) {
      if s < |c.segments| {
        assert PartOk(c.segments[s], c.valids[s], c.zoneMaps[s]);
      }
    }
  }

  lemma {:induction false} SegmentGained(c: Column, slice: HostColumn, zm: ZoneMap, population: int)
    requires |c.valids| == |c.segments|
    ensures Gained(c, WithSegment(c, slice, zm, population), slice.values, HostMask(slice), [|slice.values|])
  {
    var r := WithSegment(c, slice, zm, population);
    OneMore(c.segments, slice.values);
    assert Sizes(r.segments) == Sizes(c.segments) + [|slice.values|];
    var masks := Masks(c.segments, c.valids);
    OneMore(masks, HostMask(slice));
    assert Masks(r.segments, r.valids) == masks + [HostMask(slice)];
  }

  ghost predicate Appended(before: Column, after: Column, col: HostColumn, offset: nat, take: nat)
    requires offset + take <= |col.values|
  {
    Gained(before, after, col.values[offset..offset + take], HostMask(col)[offset..offset + take], [take])
  }

  /** AppendColumnSlice: rows offset .. offset + take become the column's next segment, with their validity
      and their zone map. */
  method AppendColumnSlice(c: Column, col: HostColumn, offset: nat, take: nat, population: int) returns (r: Column)
    requires ColumnOk(c) && HostOk(col, |col.values|) && offset + take <= |col.values|
    ensures ColumnOk(r)
    ensures take == 0 ==> r == c
    ensures take > 0 ==> Appended(c, r, col, offset, take)
    ensures take > 0 ==> r.valids == c.valids + [HostSlice(col, offset, take).valid]
    ensures take > 0 ==> r.fused.None? && r.fusedValid.None? && r.population == population
  {
    if take == 0 {
      return c;
    }
    var slice := HostSlice(col, offset, take);
    var zm := ComputeZoneMap(slice.values, slice.valid);
    WithSegmentOk(c, slice, zm, population);
    SegmentGained(c, slice, zm, population);
    r := WithSegment(c, slice, zm, population);
  }

  function PresentValids(valids: seq<Option<seq<bool>>>): seq<seq<bool>> {
    if valids == [] then []
    else
      var last := valids[|valids| - 1];
      PresentValids(valids[..|valids| - 1]) + if last.Some? then [last.value] else []
  }

  /** The validity arrays there are, one after the other. */
  function FusedValid(valids: seq<Option<seq<bool>>>): Option<seq<bool>> {
    if PresentValids(valids) == [] then None else Some(Flatten(PresentValids(valids)))
  }

  /** FuseCachedColumn. */
  function Fuse(c: Column): (r: Column)
    requires ColumnOk(c)
    ensures ColumnOk(r) && r == c.(fused := r.fused, fusedValid := r.fusedValid)
    ensures c.segments != [] ==> r.fused == Some(Flatten(c.segments)) && r.fusedValid == FusedValid(c.valids)
  {
    if c.segments == [] || c.fused.Some? then c
    else
      var parts := PresentValids(c.valids);
      c.(fused := Some(ConcatBalanced(c.segments)),
         fusedValid := if parts == [] then c.fusedValid else Some(ConcatBalanced(parts)))
  }

  // ---- What fusing does to validity ----

  /** The rows the fused column shows are those its segments show. */
  ghost predicate ShowsSame(c: Column)
    requires ColumnOk(c)
  {
    (c.fusedValid.Some? ==> |c.fusedValid.value| == |Flatten(c.segments)|) &&
    Mask(Flatten(c.segments), c.fusedValid) == Presence(c)
  }

  ghost predicate AllCarry(valids: seq<Option<seq<bool>>>) {
    forall s :: 0 <= s < |valids| ==> valids[s].Some?
  }

  ghost predicate NoneCarries(valids: seq<Option<seq<bool>>>) {
    forall s :: 0 <= s < |valids| ==> valids[s].None?
  }

  /** A column's segments and validity, as far as fusing looks at them. */
  ghost predicate Aligned(segments: seq<seq<int>>, valids: seq<Option<seq<bool>>>) {
    && |valids| == |segments| && NonEmpty(segments)
    && forall s :: 0 <= s < |segments| && valids[s].Some? ==> |valids[s].value| == |segments[s]|
  }

  lemma {:induction false} CarriedLength(segments: seq<seq<int>>, valids: seq<Option<seq<bool>>>)
    requires Aligned(segments, valids)
    ensures |Flatten(PresentValids(valids))| <= |Flatten(segments)|
    ensures |Flatten(PresentValids(valids))| == |Flatten(segments)| <==> AllCarry(valids)
    ensures PresentValids(valids) == [] <==> NoneCarries(valids)
  {
    if segments != [] {
      var n := |segments| - 1;
      CarriedLength(segments[..n], valids[..n]);
      assert segments[n] != [];
      assert AllCarry(valids) <==> AllCarry(valids[..n]) && valids[n].Some?;
      assert NoneCarries(valids) <==> NoneCarries(valids[..n]) && valids[n].None?;
      var front := PresentValids(valids[..n]);
      if valids[n].Some? {
        assert (front + [valids[n].value])[..|front|] == front;
        assert |Flatten(PresentValids(valids))| == |Flatten(front)| + |segments[n]|;
      } else {
        assert PresentValids(valids) == front;
      }
    }
  }

  lemma {:induction false} CarriedMask(segments: seq<seq<int>>, valids: seq<Option<seq<bool>>>)
    requires Aligned(segments, valids) && AllCarry(valids)
    ensures Flatten(PresentValids(valids)) == Flatten(Masks(segments, valids))
  {
    if segments != [] {
      var n, front := |segments| - 1, PresentValids(valids[..|segments| - 1]);
      CarriedMask(segments[..n], valids[..n]);
      assert Masks(segments, valids)[..n] == Masks(segments[..n], valids[..n]);
      assert valids[n].Some? && Mask(segments[n], valids[n]) == valids[n].value;
      assert (front + [valids[n].value])[..|front|] == front;
    }
  }

  lemma {:induction false} MasksLength(segments: seq<seq<int>>, valids: seq<Option<seq<bool>>>)
    requires |valids| == |segments|
    ensures |Flatten(Masks(segments, valids))| == |Flatten(segments)|
    ensures NoneCarries(valids) ==> forall i :: 0 <= i < |Flatten(segments)| ==> Flatten(Masks(segments, valids))[i]
  {
    if segments != [] {
      var n := |segments| - 1;
      MasksLength(segments[..n], valids[..n]);
      assert Masks(segments, valids)[..n] == Masks(segments[..n], valids[..n]);
    }
  }

  /** The fused column keeps the rows' validity exactly when all segments carry an array or none does: arrays
      that are not there are left out, and the ones behind them move up. */
  lemma {:induction false} FusedShowsSameIff(c: Column)
    requires ColumnOk(c) && c.segments != []
    ensures ShowsSame(Fuse(c)) <==> AllCarry(c.valids) || NoneCarries(c.valids)
  {
    var r := Fuse(c);
    forall s | 0 <= s < |c.segments| && c.valids[s].Some? ensures |c.valids[s].value| == |c.segments[s]| {
      assert PartOk(c.segments[s], c.valids[s], c.zoneMaps[s]);
    }
    CarriedLength(c.segments, c.valids);
    MasksLength(c.segments, c.valids);
    if AllCarry(c.valids) && !NoneCarries(c.valids) {
      CarriedMask(c.segments, c.valids);
      assert Mask(Flatten(r.segments), r.fusedValid) == r.fusedValid.value;
    } else if NoneCarries(c.valids) {
      assert Mask(Flatten(r.segments), r.fusedValid) == Presence(r);
    }
  }

  // ---- Segment boundaries ----

  /** A batch cut at every millionth row. */
  function Pieces(count: nat): seq<nat> {
    if count == 0 then []
    else
      var take := if count <= SEGMENT_ROWS then count else SEGMENT_ROWS;
      [take] + Pieces(count - take)
  }

  /** How many of the remaining rows the segment at idx takes: up to the canonical boundary, or to a
      million where there is none. Never none, because no canonical segment is empty. */
  function NextTake(left: nat, canonical: seq<nat>, idx: nat): (take: nat)
    requires left > 0 && forall i :: 0 <= i < |canonical| ==> canonical[i] > 0
    ensures 0 < take <= left
    ensures idx < |canonical| ==> take <= canonical[idx] && (take < left ==> take == canonical[idx])
    ensures idx >= |canonical| ==> take <= 1_000_000 && (take < left ==> take == 1_000_000)
  {
    if idx < |canonical| then Min(left, canonical[idx]) else Min(left, SEGMENT_ROWS)
  }

  /** A batch cut to fit the canonical sizes from index idx on, and every million rows past their end. */
  function Takes(count: nat, canonical: seq<nat>, idx: nat): seq<nat>
    requires forall i :: 0 <= i < |canonical| ==> canonical[i] > 0
    decreases count
  {
    if count == 0 then []
    else
      var take := NextTake(count, canonical, idx);
      [take] + Takes(count - take, canonical, idx + 1)
  }

  lemma {:induction false} TakesPastEnd(count: nat, canonical: seq<nat>, idx: nat)
    requires forall i :: 0 <= i < |canonical| ==> canonical[i] > 0
    requires idx >= |canonical|
    ensures Takes(count, canonical, idx) == Pieces(count)
    decreases count
  {
    if count > 0 {
      var take := if count <= SEGMENT_ROWS then count else SEGMENT_ROWS;
      TakesPastEnd(count - take, canonical, idx + 1);
    }
  }

  lemma {:induction false} PiecesPositive(count: nat)
    ensures forall i :: 0 <= i < |Pieces(count)| ==> Pieces(count)[i] > 0
  {
    if count > 0 {
      PiecesPositive(count - if count <= SEGMENT_ROWS then count else SEGMENT_ROWS);
    }
  }

  /** The boundaries a sequence of batches produces. */
  function Boundaries(batches: seq<nat>): seq<nat> {
    if batches == [] then [] else Boundaries(batches[..|batches| - 1]) + Pieces(batches[|batches| - 1])
  }

  lemma {:induction false} BoundariesPositive(batches: seq<nat>)
    ensures forall i :: 0 <= i < |Boundaries(batches)| ==> Boundaries(batches)[i] > 0
  {
    if batches != [] {
      BoundariesPositive(batches[..|batches| - 1]);
      PiecesPositive(batches[|batches| - 1]);
    }
  }

  lemma {:induction false} BoundariesPrefix(batches: seq<nat>, n: nat) returns (rest: seq<nat>)
    requires n < |batches|
    ensures Boundaries(batches) == Boundaries(batches[..n]) + Pieces(batches[n]) + rest
    ensures forall i :: 0 <= i < |rest| ==> rest[i] > 0
    decreases |batches|
  {
    if n == |batches| - 1 {
      rest := [];
    } else {
      var front, last := batches[..|batches| - 1], batches[|batches| - 1];
      var more := BoundariesPrefix(front, n);
      assert front[..n] == batches[..n];
      PiecesPositive(last);
      rest := more + Pieces(last);
    }
  }

  // ---- The cache ----

  datatype PopulationPlan = PopulationPlan(storeCol: seq<bool>, population: int)

  ghost predicate LayoutOk(l: Layout) {
    forall i :: 0 <= i < |l.segmentSizes| ==> l.segmentSizes[i] > 0
  }

  /** The key's column is there with the expected rows. */
  predicate Resident(store: map<Key, Column>, key: Key, expectedRows: int) {
    key in store && store[key].rows == expectedRows && store[key].segments != []
  }

  /** A column is in the store only with segments. */
  ghost predicate StoreOk(store: map<Key, Column>) {
    forall k :: k in store ==> ColumnOk(store[k]) && store[k].segments != []
  }

  ghost predicate LayoutsOk(layouts: map<nat, Layout>) {
    forall t :: t in layouts ==> LayoutOk(layouts[t])
  }

  class Cache {
    var store: map<Key, Column>
    var layouts: map<nat, Layout>
    var populations: int

    ghost predicate Valid()
      reads this
    {
      StoreOk(store) && LayoutsOk(layouts)
    }

    constructor ()
      ensures Valid() && store == map[] && layouts == map[]
    {
      store, layouts, populations := map[], map[], 0;
    }

    method DropTable(table: nat)
      requires Valid()
      modifies this
      ensures Valid() && table !in layouts && populations == old(populations)
      ensures store == map k | k in old(store) && k.table != table :: old(store)[k]
      ensures forall t :: t != table ==>
                (t in layouts <==> t in old(layouts)) && (t in layouts ==> layouts[t] == old(layouts)[t])
    {
      store := map k | k in store && k.table != table :: store[k];
      layouts := layouts - {table};
    }

    /** MlxCacheFuseTable: every column of the table is fused. */
    method FuseTable(table: nat)
      requires Valid()
      modifies this`store
      ensures Valid() && store.Keys == old(store).Keys
      ensures forall k :: k in store && k.table == table ==> ColumnOk(old(store)[k]) && store[k] == Fuse(old(store)[k])
      ensures forall k :: k in store && k.table != table ==> store[k] == old(store)[k]
    {
      store := map k | k in store :: if k.table == table then Fuse(store[k]) else store[k];
    }

    /** Every resident column of the table has the expected row count, and so has the table's layout. */
    ghost predicate RowsAgree(table: nat, expectedRows: int)
      reads this
    {
      && (forall k :: k in store && k.table == table ==> store[k].rows == expectedRows)
      && (table in layouts ==> layouts[table].rows == 0 || layouts[table].rows == expectedRows)
    }

    /** Drops the table where any row count disagrees, and gives it a layout with a population. */
    method RefreshLayout(table: nat, expectedRows: int)
      requires Valid()
      modifies this
      ensures Valid() && table in layouts
      ensures forall k :: k in store && k.table == table ==> store[k].rows == expectedRows
      ensures forall k :: k in store ==> k in old(store) && store[k] == old(store)[k]
      ensures forall k :: k in old(store) && k.table != table ==> k in store
      ensures old(RowsAgree(table, expectedRows)) ==> store == old(store)
      ensures !old(RowsAgree(table, expectedRows)) ==> forall k :: k in store ==> k.table != table
      ensures layouts[table].segmentSizes == KeptSizes(old(layouts), table, old(RowsAgree(table, expectedRows)))
      ensures forall t :: t != table ==>
                (t in layouts <==> t in old(layouts)) && (t in layouts ==> layouts[t] == old(layouts)[t])
    {
      if exists k :: k in store && k.table == table && store[k].rows != expectedRows {
        DropTable(table);
      }
      var layout := if table in layouts then layouts[table] else NO_LAYOUT;
      if layout.rows == 0 {
        populations := populations + 1;
        layout := layout.(rows := expectedRows, population := populations);
      } else if layout.rows != expectedRows {
        DropTable(table);
        populations := populations + 1;
        layout := NO_LAYOUT.(rows := expectedRows, population := populations);
      }
      layouts := layouts[table := layout];
    }

    /** Erases the keys that are not resident with the expected rows, and marks them to be stored. */
    method MarkMissing(keys: seq<Key>, expectedRows: int) returns (storeCol: seq<bool>)
      requires Valid()
      modifies this`store
      ensures Valid() && |storeCol| == |keys|
      ensures forall k :: k in store ==> k in old(store) && store[k] == old(store)[k]
      ensures forall k :: k in old(store) && (k !in keys || Resident(old(store), k, expectedRows)) ==> k in store
      ensures forall i :: 0 <= i < |keys| ==> (storeCol[i] <==> !Resident(old(store), keys[i], expectedRows))
      ensures forall i :: 0 <= i < |keys| && storeCol[i] ==> keys[i] !in store
    {
      storeCol := [];
      for i := 0 to |keys|
        invariant Valid() && Marked(old(store), store, keys, storeCol, expectedRows, i)
      {
        ghost var before := store;
        var missing := EraseMissing(keys[i], expectedRows);
        MarkNext(old(store), before, store, keys, storeCol, expectedRows, i, missing);
        storeCol := storeCol + [missing];
      }
    }

    method EraseMissing(key: Key, expectedRows: int) returns (missing: bool)
      requires Valid()
      modifies this`store
      ensures Valid() && (missing <==> !Resident(old(store), key, expectedRows))
      ensures store == if missing then old(store) - {key} else old(store)
    {
      missing := !Resident(store, key, expectedRows);
      if missing {
        store := store - {key};
      }
    }

    /** MlxCacheBeginPopulation: all of a query's columns are stored anew, or none is. */
    method BeginPopulation(table: nat, keys: seq<Key>, expectedRows: int) returns (plan: PopulationPlan)
      requires Valid() && forall i :: 0 <= i < |keys| ==> keys[i].table == table
      modifies this
      ensures Valid() && |plan.storeCol| == |keys|
      ensures forall k :: k in store && k.table == table ==> store[k].rows == expectedRows
      ensures forall k: Key :: k.table != table ==>
                (k in store <==> k in old(store)) && (k in store ==> store[k] == old(store)[k])
      ensures AllOrNone(plan.storeCol)
      ensures forall i :: 0 <= i < |keys| && plan.storeCol[i] ==> keys[i] !in store
      ensures forall i :: 0 <= i < |keys| && !plan.storeCol[i] ==> Resident(store, keys[i], expectedRows)
      ensures keys != [] ==>
                (!plan.storeCol[0] <==>
                 old(RowsAgree(table, expectedRows)) && AllResident(old(store), keys, expectedRows))
      ensures table in layouts && plan.population == layouts[table].population
      ensures forall k :: k in store ==> k in old(store) && store[k] == old(store)[k]
      ensures layouts[table].segmentSizes == KeptSizes(old(layouts), table, old(RowsAgree(table, expectedRows)))
      ensures forall t :: t != table ==>
                (t in layouts <==> t in old(layouts)) && (t in layouts ==> layouts[t] == old(layouts)[t])
    {
      RefreshLayout(table, expectedRows);
      ghost var start := store;
      var storeCol := MarkMissing(keys, expectedRows);
      var anyPresent, anyMissing := false in storeCol, true in storeCol;
      if anyPresent && anyMissing {
        store := store - (set k | k in keys);
        storeCol := seq(|keys|, _ => true);
      }
      plan := PopulationPlan(storeCol, layouts[table].population);
      assert keys != [] ==> (!storeCol[0] <==> AllResident(start, keys, expectedRows));
    }
    // ---- Storing ----

    /** CanonicalSegmentSizes: the sizes of some resident column of the table, or the layout's. */
    method CanonicalSizes(table: nat) returns (sizes: seq<nat>)
      requires Valid()
      ensures CanonicalFor(store, layouts, table, sizes)
    {
      if k :| k in store && k.table == table && store[k].segments != [] {
        assert HasSegments(store, table, k);
        sizes := Sizes(store[k].segments);
      } else {
        sizes := if table in layouts then layouts[table].segmentSizes else [];
      }
    }

    /** AppendColumnSlice on the column in the store. */
    method AppendTo(population: int, keys: seq<Key>, storeCol: seq<bool>, cols: seq<HostColumn>, ghost count: nat,
                    offset: nat, take: nat, ghost start: map<Key, Column>, ghost cut: seq<nat>, i: nat)
      requires StoreOk(store) && Batch(keys, storeCol, cols, count) && take > 0 && offset + take <= count
      requires i < |keys| && storeCol[i]
      requires StoredUpTo(start, store, keys, storeCol, cols, count, offset, take, cut, i)
      modifies this`store
      ensures StoreOk(store) && StoredUpTo(start, store, keys, storeCol, cols, count, offset, take, cut, i + 1)
    {
      ColumnAtOk(store, keys[i]);
      var column := AppendColumnSlice(ColumnAt(store, keys[i]), cols[i], offset, take, population);
      AppendNext(start, store, keys, storeCol, cols, count, offset, take, cut, i, column);
      assert |Sizes(column.segments)| == |column.segments|;
      store := store[keys[i] := column];
    }

    /** One slice of every column to be stored. */
    method AppendToAll(population: int, keys: seq<Key>, storeCol: seq<bool>, cols: seq<HostColumn>, ghost count: nat,
                       offset: nat, take: nat, ghost start: map<Key, Column>, ghost cut: seq<nat>)
      returns (next: nat, ghost grown: seq<nat>)
      requires StoreOk(store) && Batch(keys, storeCol, cols, count) && take > 0 && offset + take <= count
      requires Stored(start, store, keys, storeCol, cols, count, offset, cut)
      modifies this`store
      ensures next == offset + take && grown == cut + [take]
      ensures StoreOk(store) && Stored(start, store, keys, storeCol, cols, count, next, grown)
    {
      NoneAppended(start, store, keys, storeCol, cols, count, offset, take, cut);
      for i := 0 to |keys|
        invariant StoreOk(store) && StoredUpTo(start, store, keys, storeCol, cols, count, offset, take, cut, i)
      {
        if storeCol[i] {
          AppendTo(population, keys, storeCol, cols, count, offset, take, start, cut, i);
        } else {
          SkipOne(start, store, keys, storeCol, cols, count, offset, take, cut, i);
        }
      }
      next, grown := offset + take, cut + [take];
      AllAppended(start, store, keys, storeCol, cols, count, offset, take, cut, next, grown);
    }

    /** Where this population's columns have got to: the segment count of the first stored one that has any. */
    method FirstSegmentIndex(keys: seq<Key>, storeCol: seq<bool>) returns (idx: nat)
      requires |storeCol| == |keys|
      ensures IndexFor(store, keys, storeCol, idx)
    {
      for i := 0 to |keys|
        invariant forall j :: 0 <= j < i && storeCol[j] ==> ColumnAt(store, keys[j]).segments == []
      {
        if storeCol[i] && keys[i] in store && store[keys[i]].segments != [] {
          return |store[keys[i]].segments|;
        }
      }
      idx := 0;
    }

    /** MlxCacheStoreSegment: every stored column gains the batch, cut at the same places. */
    method StoreSegment(population: int, table: nat, keys: seq<Key>, storeCol: seq<bool>, cols: seq<HostColumn>,
                        count: nat) returns (ghost canonical: seq<nat>, ghost idx: nat, ghost cut: seq<nat>)
      requires Valid() && Batch(keys, storeCol, cols, count)
      requires forall i :: 0 <= i < |cols| ==> |cols[i].values| == count
      modifies this
      ensures Valid()
      ensures SegmentStored(old(store), old(layouts), table, keys, storeCol, cols, count, canonical, idx, cut,
                            store, layouts)
    {
      idx := 0;
      if count == 0 {
        canonical := SomeCanonical(table);
        idx := SomeIndex(keys, storeCol);
        cut := [];
        StoredNothing(store, keys, storeCol, cols, count);
        return;
      }
      var sizes := CanonicalSizes(table);
      canonical := sizes;
      CanonicalPositive(table, sizes);
      if sizes == [] {
        cut := StoreFresh(population, table, keys, storeCol, cols, count);
      } else {
        var segIdx := FirstSegmentIndex(keys, storeCol);
        idx := segIdx;
        cut := StoreAligned(population, keys, storeCol, cols, count, sizes, segIdx);
      }
    }

    method StoreNext(population: int, keys: seq<Key>, storeCol: seq<bool>, cols: seq<HostColumn>, count: nat,
                     sizes: seq<nat>, segIdx: nat, offset: nat, ghost start: map<Key, Column>, ghost cut: seq<nat>,
                     ghost from: nat) returns (nextOffset: nat, nextIdx: nat, ghost grown: seq<nat>)
      requires StoreOk(store) && Batch(keys, storeCol, cols, count) && offset < count
      requires AlignedTo(start, store, keys, storeCol, cols, count, offset, cut, sizes, segIdx, from)
      modifies this`store
      ensures offset < nextOffset <= count && StoreOk(store)
      ensures AlignedTo(start, store, keys, storeCol, cols, count, nextOffset, grown, sizes, nextIdx, from)
    {
      var take := NextTake(count - offset, sizes, segIdx);
      nextOffset, grown := AppendToAll(population, keys, storeCol, cols, count, offset, take, start, cut);
      nextIdx := segIdx + 1;
      TakesStep(cut, count, offset, sizes, segIdx, from, take);
    }

    /** Splits the batch at the canonical boundaries. Every step takes at least one row because no
        canonical segment is empty, which is why the loop ends. */
    method StoreAligned(population: int, keys: seq<Key>, storeCol: seq<bool>, cols: seq<HostColumn>, count: nat,
                        sizes: seq<nat>, from: nat) returns (ghost cut: seq<nat>)
      requires StoreOk(store) && Batch(keys, storeCol, cols, count) && Positive(sizes)
      modifies this`store
      ensures StoreOk(store) && cut == Takes(count, sizes, from)
      ensures Stored(old(store), store, keys, storeCol, cols, count, count, cut)
    {
      ghost var start := store;
      var offset, segIdx: nat := 0, from;
      cut := [];
      NothingAligned(store, keys, storeCol, cols, count, sizes, from);
      while offset < count
        invariant StoreOk(store) && 0 <= offset <= count
        invariant AlignedTo(start, store, keys, storeCol, cols, count, offset, cut, sizes, segIdx, from)
      {
        offset, segIdx, cut := StoreNext(population, keys, storeCol, cols, count, sizes, segIdx, offset, start, cut,
                                         from);
      }
      AllTakes(cut, count, sizes, segIdx, from);
    }

    method StorePiece(population: int, keys: seq<Key>, storeCol: seq<bool>, cols: seq<HostColumn>, count: nat,
                      offset: nat, sizes: seq<nat>, ghost start: map<Key, Column>)
      returns (nextOffset: nat, nextSizes: seq<nat>)
      requires StoreOk(store) && Batch(keys, storeCol, cols, count) && offset < count
      requires PiecedTo(start, store, keys, storeCol, cols, count, offset, sizes)
      modifies this`store
      ensures offset < nextOffset <= count && StoreOk(store)
      ensures PiecedTo(start, store, keys, storeCol, cols, count, nextOffset, nextSizes)
    {
      var take := if SEGMENT_ROWS <= count - offset then SEGMENT_ROWS else count - offset;
      PiecesStep(sizes, count, offset, take);
      nextSizes := sizes + [take];
      ghost var grown;
      nextOffset, grown := AppendToAll(population, keys, storeCol, cols, count, offset, take, start, sizes);
    }

    /** A segment per million rows. */
    method StorePieces(population: int, keys: seq<Key>, storeCol: seq<bool>, cols: seq<HostColumn>, count: nat)
      returns (sizes: seq<nat>)
      requires StoreOk(store) && Batch(keys, storeCol, cols, count)
      modifies this`store
      ensures StoreOk(store) && sizes == Pieces(count)
      ensures Stored(old(store), store, keys, storeCol, cols, count, count, sizes)
    {
      ghost var start := store;
      var offset := 0;
      sizes := [];
      NothingPieced(store, keys, storeCol, cols, count);
      while offset < count
        invariant StoreOk(store) && 0 <= offset <= count
        invariant PiecedTo(start, store, keys, storeCol, cols, count, offset, sizes)
      {
        offset, sizes := StorePiece(population, keys, storeCol, cols, count, offset, sizes, start);
      }
      AllPieces(sizes, count);
    }

    /** The first columns of a table: the layout remembers their sizes. */
    method StoreFresh(population: int, table: nat, keys: seq<Key>, storeCol: seq<bool>, cols: seq<HostColumn>,
                      count: nat) returns (ghost cut: seq<nat>)
      requires Valid() && Batch(keys, storeCol, cols, count)
      modifies this
      ensures Valid() && cut == Pieces(count) && Stored(old(store), store, keys, storeCol, cols, count, count, cut)
      ensures LayoutGains(old(layouts), layouts, table, Pieces(count))
    {
      var sizes := StorePieces(population, keys, storeCol, cols, count);
      cut := sizes;
      PiecesPositive(count);
      var layout := if table in layouts then layouts[table] else NO_LAYOUT;
      assert LayoutOk(layout.(segmentSizes := layout.segmentSizes + sizes));
      layouts := layouts[table := layout.(segmentSizes := layout.segmentSizes + sizes)];
    }

    ghost method SomeCanonical(table: nat) returns (sizes: seq<nat>)
      requires Valid()
      ensures CanonicalFor(store, layouts, table, sizes) && Positive(sizes)
    {
      if k :| HasSegments(store, table, k) {
        sizes := Sizes(store[k].segments);
      } else {
        sizes := if table in layouts then layouts[table].segmentSizes else [];
      }
      CanonicalPositive(table, sizes);
    }

    ghost method SomeIndex(keys: seq<Key>, storeCol: seq<bool>) returns (idx: nat)
      requires |storeCol| == |keys|
      ensures IndexFor(store, keys, storeCol, idx)
    {
      if i :| 0 <= i < |keys| && storeCol[i] && ColumnAt(store, keys[i]).segments != [] {
        idx := |ColumnAt(store, keys[i]).segments|;
      } else {
        idx := 0;
      }
    }

    lemma {:induction false} CanonicalPositive(table: nat, sizes: seq<nat>)
      requires Valid() && CanonicalFor(store, layouts, table, sizes)
      ensures Positive(sizes)
    {
      if k :| HasSegments(store, table, k) && sizes == Sizes(store[k].segments) {
        assert ColumnOk(store[k]);
      }
    }
  }

  /** The first i keys have been looked up: those not resident are erased and marked. */
  ghost predicate Marked(start: map<Key, Column>, now: map<Key, Column>, keys: seq<Key>, storeCol: seq<bool>,
                         expectedRows: int, i: nat)
    requires i <= |keys|
  {
    && |storeCol| == i
    && (forall k :: k in now ==> k in start && now[k] == start[k])
    && (forall k :: k in start && (k !in keys || Resident(start, k, expectedRows)) ==> k in now)
    && (forall j :: 0 <= j < i ==> (storeCol[j] <==> !Resident(start, keys[j], expectedRows)))
    && (forall j :: 0 <= j < i && storeCol[j] ==> keys[j] !in now)
  }

  lemma {:induction false} MarkNext(start: map<Key, Column>, now: map<Key, Column>, after: map<Key, Column>,
                                    keys: seq<Key>, storeCol: seq<bool>, expectedRows: int, i: nat, missing: bool)
    requires i < |keys| && Marked(start, now, keys, storeCol, expectedRows, i)
    requires missing <==> !Resident(now, keys[i], expectedRows)
    requires after == if missing then now - {keys[i]} else now
    ensures Marked(start, after, keys, storeCol + [missing], expectedRows, i + 1)
  {
    assert keys[i] in keys;
  }

  /** The sizes a table's layout still remembers: a drop forgets them, erasing its columns does not. */
  function KeptSizes(layouts: map<nat, Layout>, table: nat, kept: bool): seq<nat> {
    if kept && table in layouts then layouts[table].segmentSizes else []
  }

  ghost predicate Positive(sizes: seq<nat>) {
    forall i :: 0 <= i < |sizes| ==> sizes[i] > 0
  }

  function ColumnAt(store: map<Key, Column>, key: Key): Column {
    if key in store then store[key] else NO_COLUMN
  }

  ghost predicate HasSegments(store: map<Key, Column>, table: nat, k: Key) {
    k in store && k.table == table && store[k].segments != []
  }

  ghost predicate CanonicalFor(store: map<Key, Column>, layouts: map<nat, Layout>, table: nat, sizes: seq<nat>) {
    if exists k :: HasSegments(store, table, k) then
      exists k :: HasSegments(store, table, k) && sizes == Sizes(store[k].segments)
    else sizes == if table in layouts then layouts[table].segmentSizes else []
  }

  ghost predicate IndexFor(store: map<Key, Column>, keys: seq<Key>, storeCol: seq<bool>, idx: nat)
    requires |storeCol| == |keys|
  {
    if exists i :: 0 <= i < |keys| && storeCol[i] && ColumnAt(store, keys[i]).segments != [] then
      exists i :: 0 <= i < |keys| && storeCol[i] && ColumnAt(store, keys[i]).segments != [] &&
                  idx == |ColumnAt(store, keys[i]).segments|
    else idx == 0
  }

  ghost predicate LayoutGains(before: map<nat, Layout>, after: map<nat, Layout>, table: nat, sizes: seq<nat>) {
    && table in after
    && after[table].segmentSizes == (if table in before then before[table].segmentSizes else []) + sizes
    && (forall t :: t != table ==> (t in after <==> t in before) && (t in after ==> after[t] == before[t]))
  }

  /** Distinct keys, a flag and a host column with at least n rows for each. */
  ghost predicate Batch(keys: seq<Key>, storeCol: seq<bool>, cols: seq<HostColumn>, n: nat) {
    && |keys| == |storeCol| == |cols|
    && (forall i, j :: 0 <= i < j < |keys| ==> keys[i] != keys[j])
    && (forall i :: 0 <= i < |cols| ==> HostOk(cols[i], |cols[i].values|) && n <= |cols[i].values|)
  }

  ghost predicate ToStore(keys: seq<Key>, storeCol: seq<bool>, k: Key)
    requires |storeCol| == |keys|
  {
    exists i :: 0 <= i < |keys| && storeCol[i] && keys[i] == k
  }

  ghost predicate SameAt(a: map<Key, Column>, b: map<Key, Column>, k: Key) {
    (k in a <==> k in b) && (k in a ==> a[k] == b[k])
  }

  /** The column has gained the first n rows since the start, values and validity, in segments of the sizes
      `cut`. */
  ghost predicate Holds(start: map<Key, Column>, column: Column, key: Key, col: HostColumn, n: nat, cut: seq<nat>)
    requires n <= |col.values|
  {
    Gained(ColumnAt(start, key), column, col.values[..n], HostMask(col)[..n], cut)
  }

  ghost predicate ColumnStored(start: map<Key, Column>, now: map<Key, Column>, key: Key, col: HostColumn, n: nat,
                               cut: seq<nat>)
    requires n <= |col.values|
  {
    Holds(start, ColumnAt(now, key), key, col, n, cut)
  }

  ghost predicate Stored(start: map<Key, Column>, now: map<Key, Column>, keys: seq<Key>, storeCol: seq<bool>,
                         cols: seq<HostColumn>, count: nat, n: nat, cut: seq<nat>)
    requires Batch(keys, storeCol, cols, count) && n <= count
  {
    && RangeStored(start, now, keys, storeCol, cols, n, cut, 0, |keys|)
    && OthersSame(start, now, keys, storeCol)
  }

  /** One call of MlxCacheStoreSegment. `canonical` is whichever resident column's sizes the map walk comes
      to first, or the layout's; idx the position it is read from; cut the sizes of the new segments. */
  ghost predicate SegmentStored(store: map<Key, Column>, layouts: map<nat, Layout>, table: nat, keys: seq<Key>,
                                storeCol: seq<bool>, cols: seq<HostColumn>, count: nat, canonical: seq<nat>, idx: nat,
                                cut: seq<nat>, store2: map<Key, Column>, layouts2: map<nat, Layout>)
    requires Batch(keys, storeCol, cols, count)
  {
    && Stored(store, store2, keys, storeCol, cols, count, count, cut)
    && CanonicalFor(store, layouts, table, canonical)
    && (canonical == [] || IndexFor(store, keys, storeCol, idx))
    && Positive(canonical) && cut == (if canonical == [] then Pieces(count) else Takes(count, canonical, idx))
    && (layouts2 == layouts || (canonical == [] && LayoutGains(layouts, layouts2, table, Pieces(count))))
  }

  /** The columns from lo to hi that are to be stored hold the first n rows. */
  ghost predicate RangeStored(start: map<Key, Column>, now: map<Key, Column>, keys: seq<Key>, storeCol: seq<bool>,
                              cols: seq<HostColumn>, n: nat, cut: seq<nat>, lo: nat, hi: nat)
    requires Batch(keys, storeCol, cols, n) && hi <= |keys|
  {
    forall j :: lo <= j < hi && storeCol[j] ==> ColumnStored(start, now, keys[j], cols[j], n, cut)
  }

  ghost predicate OthersSame(start: map<Key, Column>, now: map<Key, Column>, keys: seq<Key>, storeCol: seq<bool>)
    requires |storeCol| == |keys|
  {
    forall k: Key :: !ToStore(keys, storeCol, k) ==> SameAt(start, now, k)
  }

  /** The columns below i have gained the slice, the others are still at the offset. */
  ghost predicate StoredUpTo(start: map<Key, Column>, now: map<Key, Column>, keys: seq<Key>, storeCol: seq<bool>,
                             cols: seq<HostColumn>, count: nat, offset: nat, take: nat, cut: seq<nat>, i: nat)
    requires Batch(keys, storeCol, cols, count) && offset + take <= count && i <= |keys|
  {
    && RangeStored(start, now, keys, storeCol, cols, offset + take, cut + [take], 0, i)
    && RangeStored(start, now, keys, storeCol, cols, offset, cut, i, |keys|)
    && OthersSame(start, now, keys, storeCol)
  }

  lemma {:induction false} NoneAppended(start: map<Key, Column>, now: map<Key, Column>, keys: seq<Key>,
                                        storeCol: seq<bool>, cols: seq<HostColumn>, count: nat, offset: nat, take: nat,
                                        cut: seq<nat>)
    requires Batch(keys, storeCol, cols, count) && offset + take <= count
    requires Stored(start, now, keys, storeCol, cols, count, offset, cut)
    ensures StoredUpTo(start, now, keys, storeCol, cols, count, offset, take, cut, 0)
  {
  }

  lemma {:induction false} SkipOne(start: map<Key, Column>, now: map<Key, Column>, keys: seq<Key>,
                                   storeCol: seq<bool>, cols: seq<HostColumn>, count: nat, offset: nat, take: nat,
                                   cut: seq<nat>, i: nat)
    requires Batch(keys, storeCol, cols, count) && offset + take <= count
    requires i < |keys| && !storeCol[i] && StoredUpTo(start, now, keys, storeCol, cols, count, offset, take, cut, i)
    ensures StoredUpTo(start, now, keys, storeCol, cols, count, offset, take, cut, i + 1)
  {
    RangeExtend(start, now, keys, storeCol, cols, offset + take, cut + [take], i);
  }

  lemma {:induction false} AllAppended(start: map<Key, Column>, now: map<Key, Column>, keys: seq<Key>,
                                       storeCol: seq<bool>, cols: seq<HostColumn>, count: nat, offset: nat, take: nat,
                                       cut: seq<nat>, next: nat, grown: seq<nat>)
    requires Batch(keys, storeCol, cols, count) && offset + take <= count
    requires StoredUpTo(start, now, keys, storeCol, cols, count, offset, take, cut, |keys|)
    requires next == offset + take && grown == cut + [take]
    ensures Stored(start, now, keys, storeCol, cols, count, next, grown)
  {
  }

  /** Storing under another key leaves the columns' progress as it was. */
  lemma {:induction false} AppendKeeps(start: map<Key, Column>, now: map<Key, Column>, keys: seq<Key>,
                                       storeCol: seq<bool>, cols: seq<HostColumn>, n: nat, cut: seq<nat>, lo: nat,
                                       hi: nat, i: nat, column: Column)
    requires Batch(keys, storeCol, cols, n) && hi <= |keys| && i < |keys| && !(lo <= i < hi)
    requires RangeStored(start, now, keys, storeCol, cols, n, cut, lo, hi)
    ensures RangeStored(start, now[keys[i] := column], keys, storeCol, cols, n, cut, lo, hi)
  {
    var after := now[keys[i] := column];
    forall j | lo <= j < hi && storeCol[j] ensures ColumnStored(start, after, keys[j], cols[j], n, cut) {
      assert keys[j] != keys[i] && ColumnAt(after, keys[j]) == ColumnAt(now, keys[j]);
      assert ColumnStored(start, now, keys[j], cols[j], n, cut);
    }
  }

  lemma {:induction false} OutsideKept(start: map<Key, Column>, now: map<Key, Column>, keys: seq<Key>,
                                       storeCol: seq<bool>, i: nat, column: Column)
    requires |storeCol| == |keys| && i < |keys| && storeCol[i] && OthersSame(start, now, keys, storeCol)
    ensures OthersSame(start, now[keys[i] := column], keys, storeCol)
  {
    forall k: Key | !ToStore(keys, storeCol, k) ensures SameAt(start, now[keys[i] := column], k) {
      assert k != keys[i] && SameAt(start, now, k);
    }
  }

  lemma {:induction false} AppendOne(start: map<Key, Column>, now: map<Key, Column>, keys: seq<Key>,
                                     storeCol: seq<bool>, cols: seq<HostColumn>, count: nat, offset: nat, take: nat,
                                     cut: seq<nat>, i: nat, column: Column)
    requires Batch(keys, storeCol, cols, count) && offset + take <= count && i < |keys| && storeCol[i]
    requires StoredUpTo(start, now, keys, storeCol, cols, count, offset, take, cut, i)
    requires Holds(start, column, keys[i], cols[i], offset + take, cut + [take])
    ensures StoredUpTo(start, now[keys[i] := column], keys, storeCol, cols, count, offset, take, cut, i + 1)
  {
    var n, grown := offset + take, cut + [take];
    AppendKeeps(start, now, keys, storeCol, cols, n, grown, 0, i, i, column);
    AppendKeeps(start, now, keys, storeCol, cols, offset, cut, i + 1, |keys|, i, column);
    OutsideKept(start, now, keys, storeCol, i, column);
    RangeExtend(start, now[keys[i] := column], keys, storeCol, cols, n, grown, i);
  }

  lemma {:induction false} RangeExtend(start: map<Key, Column>, now: map<Key, Column>, keys: seq<Key>,
                                       storeCol: seq<bool>, cols: seq<HostColumn>, n: nat, cut: seq<nat>, i: nat)
    requires Batch(keys, storeCol, cols, n) && i < |keys|
    requires RangeStored(start, now, keys, storeCol, cols, n, cut, 0, i)
    requires storeCol[i] ==> ColumnStored(start, now, keys[i], cols[i], n, cut)
    ensures RangeStored(start, now, keys, storeCol, cols, n, cut, 0, i + 1)
  {
  }

  /** Appending the next slice to a column that stands at the offset. */
  lemma {:induction false} SliceStored(start: map<Key, Column>, before: Column, after: Column, key: Key,
                                       col: HostColumn, offset: nat, take: nat, cut: seq<nat>)
    requires offset + take <= |col.values|
    requires Holds(start, before, key, col, offset, cut) && Appended(before, after, col, offset, take)
    ensures Holds(start, after, key, col, offset + take, cut + [take])
  {
    var values, mask := col.values, HostMask(col);
    GainedTwice(ColumnAt(start, key), before, after, values[..offset], mask[..offset], cut,
                values[offset..offset + take], mask[offset..offset + take], [take]);
    assert values[..offset + take] == values[..offset] + values[offset..offset + take];
    assert mask[..offset + take] == mask[..offset] + mask[offset..offset + take];
  }

  lemma {:induction false} ColumnAtOk(store: map<Key, Column>, key: Key)
    requires StoreOk(store)
    ensures ColumnOk(ColumnAt(store, key))
  {
    EmptyColumnOk();
  }

  lemma {:induction false} AppendNext(start: map<Key, Column>, now: map<Key, Column>, keys: seq<Key>,
                                      storeCol: seq<bool>, cols: seq<HostColumn>, count: nat, offset: nat, take: nat,
                                      cut: seq<nat>, i: nat, column: Column)
    requires Batch(keys, storeCol, cols, count) && offset + take <= count && i < |keys| && storeCol[i]
    requires StoredUpTo(start, now, keys, storeCol, cols, count, offset, take, cut, i)
    requires Appended(ColumnAt(now, keys[i]), column, cols[i], offset, take)
    ensures StoredUpTo(start, now[keys[i] := column], keys, storeCol, cols, count, offset, take, cut, i + 1)
  {
    assert ColumnStored(start, now, keys[i], cols[i], offset, cut);
    SliceStored(start, ColumnAt(now, keys[i]), column, keys[i], cols[i], offset, take, cut);
    AppendOne(start, now, keys, storeCol, cols, count, offset, take, cut, i, column);
  }

  /** Of the pieces of a batch, those up to the offset. */
  ghost predicate PiecesDone(cut: seq<nat>, count: nat, offset: nat) {
    offset <= count && cut + Pieces(count - offset) == Pieces(count)
  }

  lemma {:induction false} AllPieces(cut: seq<nat>, count: nat)
    requires PiecesDone(cut, count, count)
    ensures cut == Pieces(count)
  {
    assert cut + Pieces(0) == cut;
  }

  lemma {:induction false} PiecesStep(cut: seq<nat>, count: nat, offset: nat, take: nat)
    requires offset < count && PiecesDone(cut, count, offset)
    requires take == if SEGMENT_ROWS <= count - offset then SEGMENT_ROWS else count - offset
    ensures PiecesDone(cut + [take], count, offset + take)
  {
    assert (cut + [take]) + Pieces(count - offset - take) == cut + Pieces(count - offset);
  }

  /** StorePieces' progress: `offset` rows of the batch stored, in the segments of `cut`. */
  ghost predicate PiecedTo(start: map<Key, Column>, now: map<Key, Column>, keys: seq<Key>, storeCol: seq<bool>,
                           cols: seq<HostColumn>, count: nat, offset: nat, cut: seq<nat>)
    requires Batch(keys, storeCol, cols, count) && offset <= count
  {
    Stored(start, now, keys, storeCol, cols, count, offset, cut) && PiecesDone(cut, count, offset)
  }

  lemma {:induction false} NothingPieced(store: map<Key, Column>, keys: seq<Key>, storeCol: seq<bool>,
                                         cols: seq<HostColumn>, count: nat)
    requires Batch(keys, storeCol, cols, count) && StoreOk(store)
    ensures PiecedTo(store, store, keys, storeCol, cols, count, 0, [])
  {
    StoredNothing(store, keys, storeCol, cols, count);
    assert [] + Pieces(count) == Pieces(count);
  }

  ghost predicate TakesDone(cut: seq<nat>, count: nat, offset: nat, sizes: seq<nat>, idx: nat, from: nat)
    requires Positive(sizes)
  {
    offset <= count && cut + Takes(count - offset, sizes, idx) == Takes(count, sizes, from)
  }

  /** StoreAligned's progress: `offset` rows of the batch stored, in the segments of `cut`. */
  ghost predicate AlignedTo(start: map<Key, Column>, now: map<Key, Column>, keys: seq<Key>, storeCol: seq<bool>,
                            cols: seq<HostColumn>, count: nat, offset: nat, cut: seq<nat>, sizes: seq<nat>, idx: nat,
                            from: nat)
    requires Batch(keys, storeCol, cols, count) && offset <= count
  {
    && Stored(start, now, keys, storeCol, cols, count, offset, cut)
    && Positive(sizes) && TakesDone(cut, count, offset, sizes, idx, from)
  }

  lemma {:induction false} NothingAligned(store: map<Key, Column>, keys: seq<Key>, storeCol: seq<bool>,
                                          cols: seq<HostColumn>, count: nat, sizes: seq<nat>, from: nat)
    requires Batch(keys, storeCol, cols, count) && StoreOk(store) && Positive(sizes)
    ensures AlignedTo(store, store, keys, storeCol, cols, count, 0, [], sizes, from, from)
  {
    StoredNothing(store, keys, storeCol, cols, count);
    NoTakes(count, sizes, from);
  }

  lemma {:induction false} NoTakes(count: nat, sizes: seq<nat>, from: nat)
    requires Positive(sizes)
    ensures TakesDone([], count, 0, sizes, from, from)
  {
  }

  lemma {:induction false} AllTakes(cut: seq<nat>, count: nat, sizes: seq<nat>, idx: nat, from: nat)
    requires Positive(sizes) && TakesDone(cut, count, count, sizes, idx, from)
    ensures cut == Takes(count, sizes, from)
  {
    assert cut + Takes(0, sizes, idx) == cut;
  }

  lemma {:induction false} TakesStep(cut: seq<nat>, count: nat, offset: nat, sizes: seq<nat>, idx: nat, from: nat,
                                     take: nat)
    requires Positive(sizes) && offset < count && TakesDone(cut, count, offset, sizes, idx, from)
    requires take == NextTake(count - offset, sizes, idx)
    ensures TakesDone(cut + [take], count, offset + take, sizes, idx + 1, from)
  {
    assert (cut + [take]) + Takes(count - offset - take, sizes, idx + 1) == cut + Takes(count - offset, sizes, idx);
  }

  lemma {:induction false} StoredNothing(store: map<Key, Column>, keys: seq<Key>, storeCol: seq<bool>,
                                         cols: seq<HostColumn>, count: nat)
    requires Batch(keys, storeCol, cols, count) && StoreOk(store)
    ensures Stored(store, store, keys, storeCol, cols, count, 0, [])
  {
    forall i | 0 <= i < |keys| && storeCol[i] ensures ColumnStored(store, store, keys[i], cols[i], 0, []) {
      ColumnAtOk(store, keys[i]);
    }
  }

  lemma {:induction false} EmptyColumnOk()
    ensures ColumnOk(NO_COLUMN)
  {
  }

  ghost predicate AllOrNone(flags: seq<bool>) {
    (forall i :: 0 <= i < |flags| ==> flags[i]) || (forall i :: 0 <= i < |flags| ==> !flags[i])
  }

  ghost predicate AllResident(store: map<Key, Column>, keys: seq<Key>, expectedRows: int) {
    forall i :: 0 <= i < |keys| ==> Resident(store, keys[i], expectedRows)
  }
}
