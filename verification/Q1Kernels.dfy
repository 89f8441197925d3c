/** The two TPC-H Q1 kernels. The fused scan strides over the whole grid and is exact for every
    row count; the dedicated kernel keeps one tile per threadgroup under the same grid cap, so it
    reads only the first 256 tiles. */
module Q1Kernels {
  import opened Arith
  import opened Strides
  import opened Sums
  import opened TileKernel
  import opened TreeReduce

  const MAX_Q1_GRID: nat := 256
  const DEDICATED_ROWS: nat := MAX_Q1_GRID * TILE_ROWS

  function PickQ1Grid(n: nat): (grid: nat)
    ensures n == 0 ==> grid == 1
    ensures 0 < n <= 33_554_432 ==> (grid - 1) * 131_072 < n <= grid * 131_072
    ensures n > 33_554_432 ==> grid == 256
  {
    var tiles := Tiles(n);
    if tiles < 1 then 1 else if tiles > MAX_Q1_GRID then MAX_Q1_GRID else tiles
  }

  // The fused scan.

  /** Value columns packed row by row; lane p reads column colMap[p]. */
  datatype PackedBatch = PackedBatch(card: nat, codes: seq<int>, pass: seq<bool>, packed: seq<int>, packN: nat,
                                     colMap: seq<int>)

  ghost predicate PackedWellFormed(b: PackedBatch) {
    && b.card > 0 && |b.colMap| > 0 && |b.pass| == |b.codes| && |b.packed| == |b.codes| * b.packN
  }

  predicate Mapped(b: PackedBatch, p: nat)
    requires p < |b.colMap|
  {
    0 <= b.colMap[p] < b.packN
  }

  function PackedValue(b: PackedBatch, row: nat, p: nat): int
    requires PackedWellFormed(b) && row < |b.codes| && p < |b.colMap|
  {
    if Mapped(b, p) then
      SlotBelow(row, |b.codes|, b.packN, b.colMap[p]);
      b.packed[Slot(row, b.packN, b.colMap[p])]
    else 0
  }

  /** The same batch lane by lane: a lane mapped outside the pack never contributes. */
  function Unpacked(b: PackedBatch): (r: Batch)
    requires PackedWellFormed(b)
    ensures WellFormed(r)
  {
    var n, width := |b.codes|, |b.colMap|;
    Batch(b.card, b.codes, b.pass,
          seq(width, p requires 0 <= p < width => seq(n, row requires 0 <= row < n => PackedValue(b, row, p))),
          seq(width, p requires 0 <= p < width => seq(n, row requires 0 <= row < n => Mapped(b, p))))
  }

  lemma {:induction false} PackedPart(b: PackedBatch, row: nat, g: nat, p: nat)
    requires PackedWellFormed(b) && row < |b.codes| && g < b.card && p < |b.colMap| && Counted(Unpacked(b), row, g)
    ensures Slot(g, |b.colMap|, p) < Slots(Unpacked(b))
    ensures SumPart(Unpacked(b), Slot(g, |b.colMap|, p))[row] == PackedValue(b, row, p)
    ensures CountPart(Unpacked(b), Slot(g, |b.colMap|, p))[row] == if Mapped(b, p) then 1 else 0
  {
    SlotBelow(g, b.card, |b.colMap|, p);
    SlotInverse(g, |b.colMap|, p);
  }

  lemma {:induction false} OtherPart(b: PackedBatch, row: nat, g: nat, s: nat)
    requires PackedWellFormed(b) && row < |b.codes| && Counted(Unpacked(b), row, g)
    requires s < Slots(Unpacked(b)) && !(Slot(g, |b.colMap|, 0) <= s < Slot(g, |b.colMap|, |b.colMap|))
    ensures SumPart(Unpacked(b), s)[row] == 0 && CountPart(Unpacked(b), s)[row] == 0
  {
    SlotRange(s, b.card, |b.colMap|);
  }

  method AddPackedLanes(b: PackedBatch, row: nat, g: nat, sums: array<int>, counts: array<int>)
    requires PackedWellFormed(b) && row < |b.codes| && g < b.card && Counted(Unpacked(b), row, g)
    requires sums.Length == counts.Length == Slots(Unpacked(b)) && sums != counts
    modifies sums, counts
    ensures AddsRow(old(sums[..]), sums[..], SumParts(Unpacked(b)), row)
    ensures AddsRow(old(counts[..]), counts[..], CountParts(Unpacked(b)), row)
  {
    var width := |b.colMap|;
    ghost var v := Unpacked(b);
    for p := 0 to width
      invariant forall s :: Slot(g, width, 0) <= s < Slot(g, width, p) && s < Slots(v) ==>
                  sums[s] == old(sums[s]) + SumPart(v, s)[row] && counts[s] == old(counts[s]) + CountPart(v, s)[row]
      invariant forall s :: 0 <= s < Slots(v) && !(Slot(g, width, 0) <= s < Slot(g, width, p)) ==>
                  sums[s] == old(sums[s]) && counts[s] == old(counts[s])
    {
      PackedPart(b, row, g, p);
      var slot := Slot(g, width, p);
      if 0 <= b.colMap[p] < b.packN {
        SlotBelow(row, |b.codes|, b.packN, b.colMap[p]);
        sums[slot] := sums[slot] + b.packed[row * b.packN + b.colMap[p]];
        counts[slot] := counts[slot] + 1;
      }
    }
    forall s | 0 <= s < Slots(v) && !(Slot(g, width, 0) <= s < Slot(g, width, width))
      ensures SumPart(v, s)[row] == 0 && CountPart(v, s)[row] == 0
    {
      OtherPart(b, row, g, s);
    }
  }

  method AddPackedRow(b: PackedBatch, row: nat, sums: array<int>, counts: array<int>, rows: array<int>)
    requires PackedWellFormed(b) && row < |b.codes|
    requires sums.Length == counts.Length == Slots(Unpacked(b)) && rows.Length == b.card
    requires sums != counts && sums != rows && counts != rows
    modifies sums, counts, rows
    ensures AddsRow(old(sums[..]), sums[..], SumParts(Unpacked(b)), row)
    ensures AddsRow(old(counts[..]), counts[..], CountParts(Unpacked(b)), row)
    ensures AddsRow(old(rows[..]), rows[..], RowParts(Unpacked(b)), row)
  {
    if !b.pass[row] || b.codes[row] < 0 || b.codes[row] >= b.card {
      UncountedRowAddsNothing(Unpacked(b), row);
      return;
    }
    var g := b.codes[row];
    rows[g] := rows[g] + 1;
    AddPackedLanes(b, row, g, sums, counts);
  }

  /** One thread of the grid: for (row = gid; row < nrows; row += gsize). */
  method FusedLane(b: PackedBatch, gid: nat, gsize: nat) returns (sums: seq<int>, counts: seq<int>, rows: seq<int>)
    requires PackedWellFormed(b) && gid < gsize
    ensures LaneAccount(Unpacked(b), sums, counts, rows, 0, gsize, gid, |b.codes|)
  {
    ghost var v, n := Unpacked(b), |b.codes|;
    var slots := b.card * |b.colMap|;
    var localSum, localCnt, localRows := new int[slots](_ => 0), new int[slots](_ => 0), new int[b.card](_ => 0);
    var row := gid;
    AccountStarts(v, localSum[..], localCnt[..], localRows[..], 0, gsize, gid, Min(row, n));
    while row < |b.codes|
      invariant row % gsize == gid
      invariant LaneAccount(v, localSum[..], localCnt[..], localRows[..], 0, gsize, gid, Min(row, n))
    {
      ghost var sum0, cnt0, rows0 := localSum[..], localCnt[..], localRows[..];
      AddPackedRow(b, row, localSum, localCnt, localRows);
      RowVisited(v, sum0, cnt0, rows0, localSum[..], localCnt[..], localRows[..], 0, gsize, gid, row, n);
      row := row + gsize;
    }
    sums, counts, rows := localSum[..], localCnt[..], localRows[..];
  }

  /** Per slot, what every thread of the grid sums. */
  function GridTotals(parts: seq<seq<int>>, gsize: nat, n: nat): (r: seq<seq<int>>)
    requires gsize > 0 && forall s :: 0 <= s < |parts| ==> n <= |parts[s]|
    ensures |r| == |parts| && forall s :: 0 <= s < |r| ==> |r[s]| == gsize
  {
    seq(|parts|, s requires 0 <= s < |parts| => Lanes(parts[s], 0, gsize, n))
  }

  lemma {:induction false} LanesMakeGridBlock(lanes: seq<seq<int>>, parts: seq<seq<int>>, gsize: nat, first: nat,
                                              n: nat, block: seq<int>)
    requires forall s :: 0 <= s < |parts| ==> n <= |parts[s]|
    requires AllLanes(lanes, |parts|) && LanesDone(lanes, parts, 0, gsize, first, n) && first + LANES <= gsize
    requires |block| == |parts| && forall s :: 0 <= s < |block| ==> block[s] == Sum(Column(lanes, s))
    ensures BlockHolds(block, GridTotals(parts, gsize, n), first, first + LANES)
  {
    forall s | 0 <= s < |parts|
      ensures block[s] == Prefix(GridTotals(parts, gsize, n)[s],
                                 first + LANES) - Prefix(GridTotals(parts, gsize, n)[s], first)
    {
      var all, column := Lanes(parts[s], 0, gsize, n), Column(lanes, s);
      forall l | 0 <= l < LANES ensures column[l] == all[first + l] {
        assert LaneHolds(lanes[l], parts, 0, gsize, first + l, n);
      }
      assert column == all[first..first + LANES];
      SumSlice(all, first, first + LANES);
    }
  }

  method ReduceGridLanes(lanes: seq<seq<int>>, ghost parts: seq<seq<int>>, slots: nat, gsize: nat, first: nat, n: nat)
    returns (block: seq<int>)
    requires |parts| == slots && forall s :: 0 <= s < |parts| ==> n <= |parts[s]|
    requires AllLanes(lanes, slots) && LanesDone(lanes, parts, 0, gsize, first, n) && first + LANES <= gsize
    ensures BlockHolds(block, GridTotals(parts, gsize, n), first, first + LANES)
  {
    var reduced := BlockReduce(lanes, slots);
    block := reduced[..];
    LanesMakeGridBlock(lanes, parts, gsize, first, n, block);
  }

  method RunFusedBlock(b: PackedBatch, first: nat, gsize: nat)
    returns (sums: seq<int>, counts: seq<int>, rows: seq<int>)
    requires PackedWellFormed(b) && first + LANES <= gsize
    ensures BlockHolds(sums, GridTotals(SumParts(Unpacked(b)), gsize, |b.codes|), first, first + LANES)
    ensures BlockHolds(counts, GridTotals(CountParts(Unpacked(b)), gsize, |b.codes|), first, first + LANES)
    ensures BlockHolds(rows, GridTotals(RowParts(Unpacked(b)), gsize, |b.codes|), first, first + LANES)
  {
    ghost var v := Unpacked(b);
    var laneSums: seq<seq<int>>, laneCounts: seq<seq<int>>, laneRows: seq<seq<int>> := [], [], [];
    for lid := 0 to LANES
      invariant |laneSums| == |laneCounts| == |laneRows| == lid
      invariant LanesDone(laneSums, SumParts(v), 0, gsize, first, |b.codes|)
      invariant LanesDone(laneCounts, CountParts(v), 0, gsize, first, |b.codes|)
      invariant LanesDone(laneRows, RowParts(v), 0, gsize, first, |b.codes|)
    {
      var s, c, r := FusedLane(b, first + lid, gsize);
      laneSums, laneCounts, laneRows := laneSums + [s], laneCounts + [c], laneRows + [r];
    }
    sums := ReduceGridLanes(laneSums, SumParts(v), b.card * |b.colMap|, gsize, first, |b.codes|);
    counts := ReduceGridLanes(laneCounts, CountParts(v), b.card * |b.colMap|, gsize, first, |b.codes|);
    rows := ReduceGridLanes(laneRows, RowParts(v), b.card, gsize, first, |b.codes|);
  }

  /** The partials of one kind: block t's share of what the grid's threads summed. */
  ghost predicate GridPartials(partial: seq<int>, parts: seq<seq<int>>, gsize: nat, n: nat, blocks: nat) {
    && gsize > 0 && (forall s :: 0 <= s < |parts| ==> n <= |parts[s]|)
    && PartialsHold(partial, GridTotals(parts, gsize, n), blocks, LANES)
  }

  method StoreFusedBlock(b: PackedBatch, t: nat, grid: nat, sums: array<int>, counts: array<int>, rows: array<int>)
    requires PackedWellFormed(b) && t < grid
    requires sums.Length == counts.Length == grid * |SumParts(Unpacked(b))|
    requires rows.Length == grid * |RowParts(Unpacked(b))|
    requires sums != counts && sums != rows && counts != rows
    requires GridPartials(sums[..], SumParts(Unpacked(b)), grid * LANES, |b.codes|, t)
    requires GridPartials(counts[..], CountParts(Unpacked(b)), grid * LANES, |b.codes|, t)
    requires GridPartials(rows[..], RowParts(Unpacked(b)), grid * LANES, |b.codes|, t)
    modifies sums, counts, rows
    ensures GridPartials(sums[..], SumParts(Unpacked(b)), grid * LANES, |b.codes|, t + 1)
    ensures GridPartials(counts[..], CountParts(Unpacked(b)), grid * LANES, |b.codes|, t + 1)
    ensures GridPartials(rows[..], RowParts(Unpacked(b)), grid * LANES, |b.codes|, t + 1)
  {
    ghost var v, gsize, n := Unpacked(b), grid * LANES, |b.codes|;
    SlotsPositive(v);
    var s, c, r := RunFusedBlock(b, t * LANES, grid * LANES);
    WriteBlock(sums, s, GridTotals(SumParts(v), gsize, n), gsize, t, grid, LANES);
    WriteBlock(counts, c, GridTotals(CountParts(v), gsize, n), gsize, t, grid, LANES);
    WriteBlock(rows, r, GridTotals(RowParts(v), gsize, n), gsize, t, grid, LANES);
  }

  method RunFusedScan(b: PackedBatch, grid: nat) returns (sums: array<int>, counts: array<int>, rows: array<int>)
    requires PackedWellFormed(b) && grid > 0
    ensures fresh(sums) && fresh(counts) && fresh(rows)
    ensures GridPartials(sums[..], SumParts(Unpacked(b)), grid * LANES, |b.codes|, grid)
    ensures GridPartials(counts[..], CountParts(Unpacked(b)), grid * LANES, |b.codes|, grid)
    ensures GridPartials(rows[..], RowParts(Unpacked(b)), grid * LANES, |b.codes|, grid)
  {
    var slots := b.card * |b.colMap|;
    sums, counts, rows := new int[grid * slots], new int[grid * slots], new int[grid * b.card];
    ghost var v := Unpacked(b);
    for t := 0 to grid
      invariant sums.Length == counts.Length == grid * |SumParts(v)| && rows.Length == grid * |RowParts(v)|
      invariant GridPartials(sums[..], SumParts(v), grid * LANES, |b.codes|, t)
      invariant GridPartials(counts[..], CountParts(v), grid * LANES, |b.codes|, t)
      invariant GridPartials(rows[..], RowParts(v), grid * LANES, |b.codes|, t)
    {
      StoreFusedBlock(b, t, grid, sums, counts, rows);
    }
  }

  /** Every row belongs to one thread of the grid, so the merged totals are those of all rows. */
  method MergeGrid(partial: array<int>, ghost parts: seq<seq<int>>, slots: nat, grid: nat, ghost n: nat)
    returns (final: seq<int>)
    requires |parts| == slots && grid > 0 && grid * slots <= partial.Length
    requires forall s :: 0 <= s < |parts| ==> |parts[s]| == n
    requires GridPartials(partial[..], parts, grid * LANES, n, grid)
    ensures TotalsOf(final, parts, n)
  {
    ghost var gsize := grid * LANES;
    final := MergePartials(partial, GridTotals(parts, gsize, n), slots, grid, gsize, LANES);
    forall s | 0 <= s < |parts| ensures final[s] == Prefix(parts[s], n) {
      LanesCoverRange(parts[s], 0, gsize, n);
    }
  }

  /** GroupedQ1FusedAccumulate. `false` stands for the exception on an ineligible shape. */
  method GroupedQ1FusedAccumulate(state: GroupedState, codes: seq<int>, pass: seq<bool>, packed: seq<int>, packN: nat,
                                  colMap: seq<int>, programs: seq<nat>, kinds: seq<AggKind>, intLane: seq<bool>)
    returns (ok: bool)
    requires state.Valid() && |pass| == |codes| && |packed| == |codes| * packN
    requires |kinds| == |intLane| == state.nprogs && LaneMap(programs, |colMap|, state.nprogs)
    modifies state.rows, state.ivalues, state.counts
    ensures ok <==> codes != [] && TileShape(kinds, intLane, state.card) &&
                    0 < |colMap| <= 8 && state.card * |colMap| <= 512
    ensures !ok ==> state.rows[..] == old(state.rows[..]) && state.ivalues[..] == old(state.ivalues[..]) &&
                    state.counts[..] == old(state.counts[..])
    ensures ok ==> FoldedInto(Unpacked(PackedBatch(state.card, codes, pass, packed, packN, colMap)), |codes|,
                              programs, kinds, state.nprogs,
                              old(state.rows[..]), old(state.ivalues[..]), old(state.counts[..]),
                              state.rows[..], state.ivalues[..], state.counts[..])
  {
    var eligible := ProgramsUseTileKernel(kinds, intLane, state.card);
    if codes == [] || !eligible {
      return false;
    }
    if |colMap| == 0 || |colMap| > MAX_TILE_LANES || state.card * |colMap| > MAX_TILE_SLOTS {
      return false;
    }
    var b, n, grid := PackedBatch(state.card, codes, pass, packed, packN, colMap), |codes|, PickQ1Grid(|codes|);
    var slots := b.card * |colMap|;
    ghost var v := Unpacked(b);
    var sumPartials, countPartials, rowPartials := RunFusedScan(b, grid);
    var sums := MergeGrid(sumPartials, SumParts(v), slots, grid, n);
    var counts := MergeGrid(countPartials, CountParts(v), slots, grid, n);
    var rows := MergeGrid(rowPartials, RowParts(v), b.card, grid, n);
    ghost var rows0, sums0, counts0 := state.rows[..], state.ivalues[..], state.counts[..];
    MergeTilePartials(state, programs, kinds, rows, sums, counts);
    TotalsFold(v, n, programs, kinds, state.nprogs, rows, sums, counts, rows0, sums0, counts0,
               state.rows[..], state.ivalues[..], state.counts[..]);
    return true;
  }
}
