/** The tile kernel, its merge kernel and the host merge, as a refinement of the row-by-row
    grouped fold. Slots are flat: group g, value lane p lives at g * laneCount + p. */
module TileKernel {
  import opened Arith
  import opened GroupBy
  import opened Strides
  import opened Sums
  import opened TreeReduce

  const TILE_ROWS: nat := 131072

  /** One evaluated batch: a group code, a pass flag, and per value lane a value and a mask. */
  datatype Batch = Batch(card: nat, codes: seq<int>, pass: seq<bool>, vals: seq<seq<int>>, masks: seq<seq<bool>>)

  ghost predicate WellFormed(b: Batch) {
    && b.card > 0 && |b.vals| > 0
    && |b.masks| == |b.vals| && |b.pass| == |b.codes|
    && (forall p :: 0 <= p < |b.vals| ==> |b.vals[p]| == |b.codes|)
    && (forall p :: 0 <= p < |b.vals| ==> |b.masks[p]| == |b.codes|)
  }

  function Slots(b: Batch): nat { b.card * |b.vals| }

  // What the batch contributes, row by row, to each slot.

  predicate Counted(b: Batch, row: nat, g: nat)
    requires row < |b.codes| == |b.pass|
  {
    b.pass[row] && b.codes[row] == g
  }

  function SumPart(b: Batch, s: nat): (r: seq<int>)
    requires WellFormed(b) && s < Slots(b)
    ensures |r| == |b.codes|
  {
    SlotRange(s, b.card, |b.vals|);
    var g, p := s / |b.vals|, s % |b.vals|;
    seq(|b.codes|, row requires 0 <= row < |b.codes| => if Counted(b, row, g) &&
        b.masks[p][row] then b.vals[p][row] else 0)
  }

  function CountPart(b: Batch, s: nat): (r: seq<int>)
    requires WellFormed(b) && s < Slots(b)
    ensures |r| == |b.codes|
  {
    SlotRange(s, b.card, |b.vals|);
    var g, p := s / |b.vals|, s % |b.vals|;
    seq(|b.codes|, row requires 0 <= row < |b.codes| => if Counted(b, row, g) && b.masks[p][row] then 1 else 0)
  }

  function RowPart(b: Batch, g: nat): (r: seq<int>)
    requires WellFormed(b)
    ensures |r| == |b.codes|
  {
    seq(|b.codes|, row requires 0 <= row < |b.codes| => if Counted(b, row, g) then 1 else 0)
  }

  function SumParts(b: Batch): (r: seq<seq<int>>)
    requires WellFormed(b)
    ensures |r| == Slots(b)
    ensures forall s :: 0 <= s < |r| ==> |r[s]| == |b.codes|
  {
    seq(Slots(b), s requires 0 <= s < Slots(b) => SumPart(b, s))
  }

  function CountParts(b: Batch): (r: seq<seq<int>>)
    requires WellFormed(b)
    ensures |r| == Slots(b)
    ensures forall s :: 0 <= s < |r| ==> |r[s]| == |b.codes|
  {
    seq(Slots(b), s requires 0 <= s < Slots(b) => CountPart(b, s))
  }

  function RowParts(b: Batch): (r: seq<seq<int>>)
    requires WellFormed(b)
    ensures |r| == b.card
    ensures forall g :: 0 <= g < |r| ==> |r[g]| == |b.codes|
  {
    seq(b.card, g requires 0 <= g < b.card => RowPart(b, g))
  }

  // The reference: GROUP BY code over the rows that pass, per value lane those whose lane is not NULL.

  function PassingRows(b: Batch, n: nat): seq<Row>
    requires WellFormed(b) && n <= |b.codes|
  {
    if n == 0 then []
    else PassingRows(b, n - 1) + if b.pass[n - 1] then [Row(b.codes[n - 1], 0)] else []
  }

  function LaneRows(b: Batch, p: nat, n: nat): seq<Row>
    requires WellFormed(b) && p < |b.vals| && n <= |b.codes|
  {
    if n == 0 then []
    else LaneRows(b, p, n - 1) +
         if b.pass[n - 1] && b.masks[p][n - 1] then [Row(b.codes[n - 1], b.vals[p][n - 1])] else []
  }

  lemma {:induction false} PassingRowsStep(b: Batch, g: int, n: nat)
    requires WellFormed(b) && 0 < n <= |b.codes|
    ensures KeyCount(PassingRows(b, n), g) ==
            KeyCount(PassingRows(b, n - 1), g) + if b.pass[n - 1] && b.codes[n - 1] == g then 1 else 0
  {
    AppendRow(PassingRows(b, n - 1), Row(b.codes[n - 1], 0), g);
    assert PassingRows(b, n - 1) + [] == PassingRows(b, n - 1);
  }

  lemma {:induction false} LaneRowsStep(b: Batch, p: nat, g: int, n: nat)
    requires WellFormed(b) && 0 < n <= |b.codes| && p < |b.vals|
    ensures KeySum(LaneRows(b, p, n), g) == KeySum(LaneRows(b, p, n - 1), g) +
              if b.pass[n - 1] && b.codes[n - 1] == g && b.masks[p][n - 1] then b.vals[p][n - 1] else 0
    ensures KeyCount(LaneRows(b, p, n), g) == KeyCount(LaneRows(b, p, n - 1), g) +
              if b.pass[n - 1] && b.codes[n - 1] == g && b.masks[p][n - 1] then 1 else 0
  {
    AppendRow(LaneRows(b, p, n - 1), Row(b.codes[n - 1], b.vals[p][n - 1]), g);
    assert LaneRows(b, p, n - 1) + [] == LaneRows(b, p, n - 1);
  }

  lemma {:induction false} RowPartIsFold(b: Batch, part: seq<int>, g: nat, n: nat)
    requires WellFormed(b) && n <= |b.codes| == |part|
    requires forall row :: 0 <= row < |part| ==> part[row] == (if Counted(b, row, g) then 1 else 0)
    ensures Prefix(part, n) == KeyCount(PassingRows(b, n), g)
  {
    if n > 0 {
      RowPartIsFold(b, part, g, n - 1);
      PassingRowsStep(b, g, n);
    }
  }

  lemma {:induction false} SumPartIsFold(b: Batch, part: seq<int>, g: nat, p: nat, n: nat)
    requires WellFormed(b) && n <= |b.codes| == |part| && p < |b.vals|
    requires forall row :: 0 <= row < |part| ==>
               part[row] == (if Counted(b, row, g) && b.masks[p][row] then b.vals[p][row] else 0)
    ensures Prefix(part, n) == KeySum(LaneRows(b, p, n), g)
  {
    if n > 0 {
      SumPartIsFold(b, part, g, p, n - 1);
      LaneRowsStep(b, p, g, n);
    }
  }

  lemma {:induction false} CountPartIsFold(b: Batch, part: seq<int>, g: nat, p: nat, n: nat)
    requires WellFormed(b) && n <= |b.codes| == |part| && p < |b.vals|
    requires forall row :: 0 <= row < |part| ==> part[row] == (if Counted(b, row, g) && b.masks[p][row] then 1 else 0)
    ensures Prefix(part, n) == KeyCount(LaneRows(b, p, n), g)
  {
    if n > 0 {
      CountPartIsFold(b, part, g, p, n - 1);
      LaneRowsStep(b, p, g, n);
    }
  }

  /** Slot by slot, the kernel's contributions are the reference fold. */
  lemma {:induction false} PartsAreFold(b: Batch, g: nat, p: nat, n: nat)
    requires WellFormed(b) && g < b.card && p < |b.vals| && n <= |b.codes|
    requires Slot(g, |b.vals|, p) < Slots(b)
    ensures Prefix(SumPart(b, Slot(g, |b.vals|, p)), n) == KeySum(LaneRows(b, p, n), g)
    ensures Prefix(CountPart(b, Slot(g, |b.vals|, p)), n) == KeyCount(LaneRows(b, p, n), g)
    ensures Prefix(RowPart(b, g), n) == KeyCount(PassingRows(b, n), g)
  {
    SlotInverse(g, |b.vals|, p);
    SumPartIsFold(b, SumPart(b, Slot(g, |b.vals|, p)), g, p, n);
    CountPartIsFold(b, CountPart(b, Slot(g, |b.vals|, p)), g, p, n);
    RowPartIsFold(b, RowPart(b, g), g, n);
  }

  // One lane.

  /** acc[s] is what this lane has summed of contribution s up to row hi. */
  ghost predicate LaneHolds(acc: seq<int>, parts: seq<seq<int>>, lo: nat, threads: nat, lane: nat, hi: nat) {
    && |acc| == |parts| && lo <= hi && threads > 0
    && (forall s :: 0 <= s < |parts| ==> hi <= |parts[s]|)
    && (forall s :: 0 <= s < |parts| ==> acc[s] == Strided(parts[s], lo, threads, lane, hi))
  }

  ghost predicate AddsRow(before: seq<int>, after: seq<int>, parts: seq<seq<int>>, row: nat) {
    && |before| == |after| == |parts|
    && (forall s :: 0 <= s < |parts| ==> row < |parts[s]|)
    && (forall s :: 0 <= s < |parts| ==> after[s] == before[s] + parts[s][row])
  }

  /** Visiting the lane's next row keeps the lane's account, up to its following row. */
  lemma {:induction false} LaneAdvances(before: seq<int>, after: seq<int>, parts: seq<seq<int>>, lo: nat,
                                        threads: nat, lane: nat, row: nat, end: nat)
    requires LaneHolds(before, parts, lo, threads, lane, row) && AddsRow(before, after, parts, row)
    requires lo <= row < end && (row - lo) % threads == lane
    requires forall s :: 0 <= s < |parts| ==> end <= |parts[s]|
    ensures LaneHolds(after, parts, lo, threads, lane, Min(row + threads, end))
  {
    forall s | 0 <= s < |parts|
      ensures after[s] == Strided(parts[s], lo, threads, lane, Min(row + threads, end))
    {
      StridedGap(parts[s], lo, threads, lane, row, Min(row + threads, end));
    }
  }

  lemma {:induction false} LaneStarts(acc: seq<int>, parts: seq<seq<int>>, lo: nat, threads: nat, lane: nat, hi: nat)
    requires |acc| == |parts| && lane < threads && lo <= hi <= lo + lane
    requires forall s :: 0 <= s < |parts| ==> hi <= |parts[s]|
    requires forall s :: 0 <= s < |acc| ==> acc[s] == 0
    ensures LaneHolds(acc, parts, lo, threads, lane, hi)
  {
    forall s | 0 <= s < |parts| ensures Strided(parts[s], lo, threads, lane, hi) == 0 {
      StridedBeforeFirst(parts[s], lo, threads, lane, hi);
    }
  }

  /** The value-lane loop of one passing row of group g. */
  method AddLanes(b: Batch, row: nat, g: nat, sums: array<int>, counts: array<int>)
    requires WellFormed(b) && row < |b.codes| && g < b.card && Counted(b, row, g)
    requires sums.Length == counts.Length == Slots(b) && sums != counts
    modifies sums, counts
    ensures AddsRow(old(sums[..]), sums[..], SumParts(b), row)
    ensures AddsRow(old(counts[..]), counts[..], CountParts(b), row)
  {
    var width := |b.vals|;
    for p := 0 to width
      invariant forall s :: Slot(g, width, 0) <= s < Slot(g, width, p) && s < Slots(b) ==>
                  sums[s] == old(sums[s]) + SumPart(b, s)[row] && counts[s] == old(counts[s]) + CountPart(b, s)[row]
      invariant forall s :: 0 <= s < Slots(b) && !(Slot(g, width, 0) <= s < Slot(g, width, p)) ==>
                  sums[s] == old(sums[s]) && counts[s] == old(counts[s])
    {
      SlotBelow(g, b.card, width, p);
      SlotInverse(g, width, p);
      var slot := Slot(g, width, p);
      if b.masks[p][row] {
        sums[slot] := sums[slot] + b.vals[p][row];
        counts[slot] := counts[slot] + 1;
      }
    }
    forall s | 0 <= s < Slots(b) && !(Slot(g, width, 0) <= s < Slot(g, width, width))
      ensures SumPart(b, s)[row] == 0 && CountPart(b, s)[row] == 0
    {
      SlotRange(s, b.card, width);
    }
  }

  lemma {:induction false} UncountedRowAddsNothing(b: Batch, row: nat)
    requires WellFormed(b) && row < |b.codes|
    requires !b.pass[row] || b.codes[row] < 0 || b.codes[row] >= b.card
    ensures forall s :: 0 <= s < Slots(b) ==> SumParts(b)[s][row] == 0 && CountParts(b)[s][row] == 0
    ensures forall g :: 0 <= g < b.card ==> RowParts(b)[g][row] == 0
  {
    forall s | 0 <= s < Slots(b) ensures SumPart(b, s)[row] == 0 && CountPart(b, s)[row] == 0 {
      SlotRange(s, b.card, |b.vals|);
    }
  }

  /** The body of the row loop. */
  method AddRow(b: Batch, row: nat, sums: array<int>, counts: array<int>, rows: array<int>)
    requires WellFormed(b) && row < |b.codes|
    requires sums.Length == counts.Length == Slots(b) && rows.Length == b.card
    requires sums != counts && sums != rows && counts != rows
    modifies sums, counts, rows
    ensures AddsRow(old(sums[..]), sums[..], SumParts(b), row)
    ensures AddsRow(old(counts[..]), counts[..], CountParts(b), row)
    ensures AddsRow(old(rows[..]), rows[..], RowParts(b), row)
  {
    if !b.pass[row] || b.codes[row] < 0 || b.codes[row] >= b.card {
      UncountedRowAddsNothing(b, row);
      return;
    }
    var g := b.codes[row];
    rows[g] := rows[g] + 1;
    AddLanes(b, row, g, sums, counts);
  }

  ghost predicate LaneAccount(b: Batch, sums: seq<int>, counts: seq<int>, rows: seq<int>, lo: nat, threads: nat,
                              lane: nat, hi: nat)
    requires WellFormed(b)
  {
    && LaneHolds(sums, SumParts(b), lo, threads, lane, hi)
    && LaneHolds(counts, CountParts(b), lo, threads, lane, hi)
    && LaneHolds(rows, RowParts(b), lo, threads, lane, hi)
  }

  /** What any row loop body that adds one row's parts does for the lane's account. */
  lemma {:induction false} RowVisited(b: Batch, sum0: seq<int>, cnt0: seq<int>, rows0: seq<int>, sums: seq<int>,
                                      counts: seq<int>, rows: seq<int>, lo: nat, threads: nat, lane: nat, row: nat,
                                      end: nat)
    requires WellFormed(b) && lo <= row < end <= |b.codes| && threads > 0 && (row - lo) % threads == lane
    requires LaneAccount(b, sum0, cnt0, rows0, lo, threads, lane, row)
    requires AddsRow(sum0, sums, SumParts(b), row) && AddsRow(cnt0, counts, CountParts(b), row)
    requires AddsRow(rows0, rows, RowParts(b), row)
    ensures LaneAccount(b, sums, counts, rows, lo, threads, lane, Min(row + threads, end))
    ensures (row + threads - lo) % threads == lane
  {
    LaneAdvances(sum0, sums, SumParts(b), lo, threads, lane, row, end);
    LaneAdvances(cnt0, counts, CountParts(b), lo, threads, lane, row, end);
    LaneAdvances(rows0, rows, RowParts(b), lo, threads, lane, row, end);
    AddModulus(row - lo, threads);
  }

  lemma {:induction false} AccountStarts(b: Batch, sums: seq<int>, counts: seq<int>, rows: seq<int>, lo: nat,
                                         threads: nat, lane: nat, hi: nat)
    requires WellFormed(b) && lane < threads && lo <= hi <= lo + lane && hi <= |b.codes|
    requires |sums| == |counts| == Slots(b) && |rows| == b.card
    requires forall s :: 0 <= s < Slots(b) ==> sums[s] == 0 && counts[s] == 0
    requires forall g :: 0 <= g < b.card ==> rows[g] == 0
    ensures LaneAccount(b, sums, counts, rows, lo, threads, lane, hi)
    ensures lane % threads == lane
  {
    LaneStarts(sums, SumParts(b), lo, threads, lane, hi);
    LaneStarts(counts, CountParts(b), lo, threads, lane, hi);
    LaneStarts(rows, RowParts(b), lo, threads, lane, hi);
    SmallMod(lane, threads);
  }

  /** One turn of the row loop. */
  method VisitRow(b: Batch, start: nat, end: nat, lane: nat, row: nat, sums: array<int>, counts: array<int>,
                  rows: array<int>)
    requires WellFormed(b) && start <= row < end <= |b.codes| && (row - start) % LANES == lane
    requires sums.Length == counts.Length == Slots(b) && rows.Length == b.card
    requires sums != counts && sums != rows && counts != rows
    requires LaneAccount(b, sums[..], counts[..], rows[..], start, LANES, lane, row)
    modifies sums, counts, rows
    ensures LaneAccount(b, sums[..], counts[..], rows[..], start, LANES, lane, Min(row + LANES, end))
    ensures (row + LANES - start) % LANES == lane
  {
    ghost var sum0, cnt0, rows0 := sums[..], counts[..], rows[..];
    AddRow(b, row, sums, counts, rows);
    RowVisited(b, sum0, cnt0, rows0, sums[..], counts[..], rows[..], start, LANES, lane, row, end);
  }

  /** A lane's accumulators before its first row. */
  method ClearLocals(b: Batch, start: nat, end: nat, lane: nat)
    returns (sums: array<int>, counts: array<int>, rows: array<int>)
    requires WellFormed(b) && start <= end <= |b.codes| && lane < LANES
    ensures fresh(sums) && fresh(counts) && fresh(rows) && sums != counts && sums != rows && counts != rows
    ensures sums.Length == counts.Length == Slots(b) && rows.Length == b.card
    ensures LaneAccount(b, sums[..], counts[..], rows[..], start, LANES, lane, Min(start + lane, end))
    ensures lane % LANES == lane
  {
    var slots := Slots(b);
    sums, counts, rows := new int[slots](_ => 0), new int[slots](_ => 0), new int[b.card](_ => 0);
    AccountStarts(b, sums[..], counts[..], rows[..], start, LANES, lane, Min(start + lane, end));
  }

  /** One lane of one tile: for (row = start + lane; row < end; row += 256). */
  method AccumulateLane(b: Batch, start: nat, end: nat, lane: nat)
    returns (sums: seq<int>, counts: seq<int>, rows: seq<int>)
    requires WellFormed(b) && start <= end <= |b.codes| && lane < LANES
    ensures LaneAccount(b, sums, counts, rows, start, LANES, lane, end)
  {
    var localSum, localCnt, localRows := ClearLocals(b, start, end, lane);
    var row := start + lane;
    while row < end
      invariant start <= row && (row - start) % LANES == lane
      invariant LaneAccount(b, localSum[..], localCnt[..], localRows[..], start, LANES, lane, Min(row, end))
    {
      VisitRow(b, start, end, lane, row, localSum, localCnt, localRows);
      row := row + LANES;
    }
    sums, counts, rows := localSum[..], localCnt[..], localRows[..];
  }

  // One tile: 256 lanes, then the block reductions.

  ghost predicate BlockHolds(block: seq<int>, parts: seq<seq<int>>, start: nat, end: nat) {
    && |block| == |parts| && start <= end
    && (forall s :: 0 <= s < |parts| ==> end <= |parts[s]|)
    && (forall s :: 0 <= s < |parts| ==> block[s] == Prefix(parts[s], end) - Prefix(parts[s], start))
  }

  ghost predicate TileBlock(b: Batch, sums: seq<int>, counts: seq<int>, rows: seq<int>, start: nat, end: nat)
    requires WellFormed(b)
  {
    && BlockHolds(sums, SumParts(b), start, end)
    && BlockHolds(counts, CountParts(b), start, end)
    && BlockHolds(rows, RowParts(b), start, end)
  }

  /** Every lane's share has been computed. */
  ghost predicate LanesDone(lanes: seq<seq<int>>, parts: seq<seq<int>>, lo: nat, threads: nat, first: nat, hi: nat) {
    forall l :: 0 <= l < |lanes| ==> LaneHolds(lanes[l], parts, lo, threads, first + l, hi)
  }

  /** The 256 lane accounts of a tile, tree-reduced, are the tile's share of every slot. */
  lemma {:induction false} LanesMakeBlock(lanes: seq<seq<int>>, parts: seq<seq<int>>, start: nat, end: nat,
                                          block: seq<int>)
    requires AllLanes(lanes, |parts|) && LanesDone(lanes, parts, start, LANES, 0, end) && |block| == |parts|
    requires forall s :: 0 <= s < |block| ==> block[s] == Sum(Column(lanes, s))
    ensures BlockHolds(block, parts, start, end)
  {
    assert LaneHolds(lanes[0], parts, start, LANES, 0, end);
    forall s | 0 <= s < |parts| ensures block[s] == Prefix(parts[s], end) - Prefix(parts[s], start) {
      var column := Column(lanes, s);
      forall l | 0 <= l < LANES ensures column[l] == Strided(parts[s], start, LANES, l, end) {
        assert LaneHolds(lanes[l], parts, start, LANES, 0 + l, end);
      }
      assert column == Lanes(parts[s], start, LANES, end);
      LanesCoverRange(parts[s], start, LANES, end);
    }
  }

  method ReduceLanes(lanes: seq<seq<int>>, ghost parts: seq<seq<int>>, slots: nat, start: nat, end: nat)
    returns (block: seq<int>)
    requires |parts| == slots && AllLanes(lanes, slots) && LanesDone(lanes, parts, start, LANES, 0, end)
    ensures BlockHolds(block, parts, start, end)
  {
    var reduced := BlockReduce(lanes, slots);
    block := reduced[..];
    LanesMakeBlock(lanes, parts, start, end, block);
  }

  method RunTile(b: Batch, start: nat, end: nat) returns (sums: seq<int>, counts: seq<int>, rows: seq<int>)
    requires WellFormed(b) && start <= end <= |b.codes|
    ensures TileBlock(b, sums, counts, rows, start, end)
  {
    var laneSums: seq<seq<int>>, laneCounts: seq<seq<int>>, laneRows: seq<seq<int>> := [], [], [];
    for lane := 0 to LANES
      invariant |laneSums| == |laneCounts| == |laneRows| == lane
      invariant LanesDone(laneSums, SumParts(b), start, LANES, 0, end)
      invariant LanesDone(laneCounts, CountParts(b), start, LANES, 0, end)
      invariant LanesDone(laneRows, RowParts(b), start, LANES, 0, end)
    {
      var s, c, r := AccumulateLane(b, start, end, lane);
      laneSums, laneCounts, laneRows := laneSums + [s], laneCounts + [c], laneRows + [r];
    }
    sums := ReduceLanes(laneSums, SumParts(b), Slots(b), start, end);
    counts := ReduceLanes(laneCounts, CountParts(b), Slots(b), start, end);
    rows := ReduceLanes(laneRows, RowParts(b), b.card, start, end);
  }

  // All tiles.

  function TileStart(n: nat, t: nat, size: nat): (r: nat)
    ensures r <= n
  {
    Min(n, t * size)
  }

  function Tiles(n: nat): nat { (n + TILE_ROWS - 1) / TILE_ROWS }

  /** Block t's share when blocks take `size` elements each. */
  function TileShare(part: seq<int>, t: nat, size: nat): int {
    MultiplesApart(size, t, t + 1);
    Prefix(part, TileStart(|part|, t + 1, size)) - Prefix(part, TileStart(|part|, t, size))
  }

  /** The flat partial array holds tile i / slots's share of slot i % slots at i. */
  ghost predicate PartialsHold(partial: seq<int>, parts: seq<seq<int>>, tiles: nat, size: nat) {
    && |partial| >= tiles * |parts|
    && forall i :: 0 <= i < tiles * |parts| ==>
         |parts| > 0 && partial[i] == TileShare(parts[i % |parts|], i / |parts|, size)
  }

  /** Writes one tile's block at partial[t * slots ..]. */
  method WriteBlock(partial: array<int>, block: seq<int>, ghost parts: seq<seq<int>>, ghost n: nat, t: nat,
                    tiles: nat, ghost size: nat)
    requires |block| == |parts| > 0 && t < tiles && partial.Length == tiles * |parts|
    requires BlockHolds(block, parts, TileStart(n, t, size), TileStart(n, t + 1, size))
    requires forall s :: 0 <= s < |parts| ==> |parts[s]| == n
    requires PartialsHold(partial[..], parts, t, size)
    modifies partial
    ensures PartialsHold(partial[..], parts, t + 1, size)
  {
    ghost var before := partial[..];
    MultiplesApart(|parts|, t, tiles);
    forall s | 0 <= s < |block| {
      partial[t * |block| + s] := block[s];
    }
    forall i | 0 <= i < (t + 1) * |parts| ensures partial[i] == TileShare(parts[i % |parts|], i / |parts|, size) {
      if i < t * |parts| {
        assert partial[i] == before[i];
      } else {
        QuotientUnique(i, |parts|, t, i - t * |parts|);
        assert partial[t * |block| + (i - t * |parts|)] == block[i - t * |parts|];
      }
    }
  }

  /** Runs tile t and stores its three blocks. */
  method StoreTile(b: Batch, t: nat, tiles: nat, sums: array<int>, counts: array<int>, rows: array<int>)
    requires WellFormed(b) && t < tiles == Tiles(|b.codes|)
    requires sums.Length == counts.Length == tiles * |SumParts(b)| && rows.Length == tiles * |RowParts(b)|
    requires sums != counts && sums != rows && counts != rows
    requires PartialsHold(sums[..], SumParts(b), t, TILE_ROWS)
    requires PartialsHold(counts[..], CountParts(b), t, TILE_ROWS)
    requires PartialsHold(rows[..], RowParts(b), t, TILE_ROWS)
    modifies sums, counts, rows
    ensures PartialsHold(sums[..], SumParts(b), t + 1, TILE_ROWS)
    ensures PartialsHold(counts[..], CountParts(b), t + 1, TILE_ROWS)
    ensures PartialsHold(rows[..], RowParts(b), t + 1, TILE_ROWS)
  {
    TileInRange(|b.codes|, t);
    SlotsPositive(b);
    var start := t * TILE_ROWS;
    var end := Min(|b.codes|, start + TILE_ROWS);
    var s, c, r := RunTile(b, start, end);
    WriteBlock(sums, s, SumParts(b), |b.codes|, t, tiles, TILE_ROWS);
    WriteBlock(counts, c, CountParts(b), |b.codes|, t, tiles, TILE_ROWS);
    WriteBlock(rows, r, RowParts(b), |b.codes|, t, tiles, TILE_ROWS);
  }

  /** GroupedTileAccumulateKernel over the whole batch: one block per tile. */
  method RunTiles(b: Batch) returns (sums: array<int>, counts: array<int>, rows: array<int>)
    requires WellFormed(b)
    ensures fresh(sums) && fresh(counts) && fresh(rows)
    ensures PartialsHold(sums[..], SumParts(b), Tiles(|b.codes|), TILE_ROWS)
    ensures PartialsHold(counts[..], CountParts(b), Tiles(|b.codes|), TILE_ROWS)
    ensures PartialsHold(rows[..], RowParts(b), Tiles(|b.codes|), TILE_ROWS)
  {
    var tiles, slots := Tiles(|b.codes|), Slots(b);
    sums, counts, rows := new int[tiles * slots], new int[tiles * slots], new int[tiles * b.card];
    for t := 0 to tiles
      invariant sums.Length == counts.Length == tiles * |SumParts(b)| && rows.Length == tiles * |RowParts(b)|
      invariant PartialsHold(sums[..], SumParts(b), t, TILE_ROWS)
      invariant PartialsHold(counts[..], CountParts(b), t, TILE_ROWS)
      invariant PartialsHold(rows[..], RowParts(b), t, TILE_ROWS)
    {
      StoreTile(b, t, tiles, sums, counts, rows);
    }
  }

  lemma {:induction false} SlotsPositive(b: Batch)
    requires WellFormed(b)
    ensures Slots(b) > 0
  {
    SlotBelow(0, b.card, |b.vals|, 0);
  }

  lemma {:induction false} TileInRange(n: nat, t: nat)
    requires t < Tiles(n)
    ensures t * TILE_ROWS < n
    ensures TileStart(n, t, TILE_ROWS) == t * TILE_ROWS && TileStart(n, t + 1, TILE_ROWS) ==
            Min(n, t * TILE_ROWS + TILE_ROWS)
  {
  }

  // The merge kernel.

  /** Column c of the per-tile partials. */
  function TileColumn(partial: seq<int>, width: nat, c: nat, tiles: nat): (r: seq<int>)
    requires c < width && tiles * width <= |partial|
    ensures |r| == tiles
  {
    seq(tiles, t requires 0 <= t < tiles => (SlotBelow(t, tiles, width, c); partial[Slot(t, width, c)]))
  }

  /** One lane of GroupedTileMergeKernel: for (t = lid; t < ntiles; t += 256) acc += partials[t * SLOTS + tg]. */
  method MergeLane(partial: array<int>, width: nat, c: nat, tiles: nat, lid: nat) returns (acc: int)
    requires c < width && tiles * width <= partial.Length && lid < LANES
    ensures acc == Strided(TileColumn(partial[..], width, c, tiles), 0, LANES, lid, tiles)
  {
    ghost var column := TileColumn(partial[..], width, c, tiles);
    acc := 0;
    var t := lid;
    StridedBeforeFirst(column, 0, LANES, lid, Min(t, tiles));
    SmallMod(lid, LANES);
    while t < tiles
      invariant t % LANES == lid
      invariant acc == Strided(column, 0, LANES, lid, Min(t, tiles))
    {
      StridedGap(column, 0, LANES, lid, t, Min(t + LANES, tiles));
      AddModulus(t, LANES);
      SlotBelow(t, tiles, width, c);
      acc := acc + partial[Slot(t, width, c)];
      t := t + LANES;
    }
  }

  /** One threadgroup of the merge kernel: the total of one column. */
  method MergeColumn(partial: array<int>, width: nat, c: nat, tiles: nat) returns (total: int)
    requires c < width && tiles * width <= partial.Length
    ensures total == Sum(TileColumn(partial[..], width, c, tiles))
  {
    ghost var column := TileColumn(partial[..], width, c, tiles);
    var tg := new int[LANES];
    for lid := 0 to LANES
      invariant forall l :: 0 <= l < lid ==> tg[l] == Strided(column, 0, LANES, l, tiles)
    {
      var acc := MergeLane(partial, width, c, tiles, lid);
      tg[lid] := acc;
    }
    assert tg[0..0 + LANES] == Lanes(column, 0, LANES, tiles);
    LanesArePow2();
    TreeAdd(tg, 0, LANES);
    LanesCoverRange(column, 0, LANES, tiles);
    total := tg[0];
  }

  method MergeAll(partial: array<int>, width: nat, tiles: nat) returns (final: seq<int>)
    requires tiles * width <= partial.Length
    ensures |final| == width
    ensures forall c :: 0 <= c < width ==> final[c] == Sum(TileColumn(partial[..], width, c, tiles))
  {
    final := [];
    for c := 0 to width
      invariant |final| == c
      invariant forall i :: 0 <= i < c ==> final[i] == Sum(TileColumn(partial[..], width, i, tiles))
    {
      var total := MergeColumn(partial, width, c, tiles);
      final := final + [total];
    }
  }

  lemma {:induction false} SharesTelescope(part: seq<int>, column: seq<int>, t: nat, size: nat)
    requires t <= |column|
    requires forall i :: 0 <= i < t ==> column[i] == TileShare(part, i, size)
    ensures Prefix(column, t) == Prefix(part, TileStart(|part|, t, size))
  {
    if t > 0 {
      SharesTelescope(part, column, t - 1, size);
    }
  }

  /** The two levels lose nothing: a merged column is the sum over everything the blocks cover. */
  lemma {:induction false} ColumnsAreTotals(partial: seq<int>, parts: seq<seq<int>>, tiles: nat, size: nat, c: nat)
    requires c < |parts| && tiles * |parts| <= |partial|
    requires PartialsHold(partial, parts, tiles, size)
    ensures Sum(TileColumn(partial, |parts|, c, tiles)) == Prefix(parts[c], TileStart(|parts[c]|, tiles, size))
  {
    var column := TileColumn(partial, |parts|, c, tiles);
    forall t | 0 <= t < tiles ensures column[t] == TileShare(parts[c], t, size) {
      SlotInverse(t, |parts|, c);
      SlotBelow(t, tiles, |parts|, c);
    }
    SharesTelescope(parts[c], column, tiles, size);
  }

  // The host merge.

  datatype AggKind = SUM | AVG | COUNT_STAR | COUNT | MIN | MAX

  predicate Summed(kind: AggKind) { kind.SUM? || kind.AVG? }

  /** MlxGroupedState: rows per group, and per (group, program) an exact total and a count. */
  class GroupedState {
    const card: nat
    const nprogs: nat
    const rows: array<int>
    const ivalues: array<int>
    const counts: array<int>

    ghost predicate Valid()
    {
      && rows.Length == card
      && ivalues.Length == card * nprogs && counts.Length == card * nprogs
      && rows != ivalues && rows != counts && ivalues != counts
    }

    constructor (card: nat, nprogs: nat)
      ensures Valid() && this.card == card && this.nprogs == nprogs
      ensures fresh(rows) && fresh(ivalues) && fresh(counts)
      ensures forall i :: 0 <= i < card ==> rows[i] == 0
      ensures forall i :: 0 <= i < card * nprogs ==> ivalues[i] == 0 && counts[i] == 0
    {
      this.card, this.nprogs := card, nprogs;
      rows := new int[card](_ => 0);
      ivalues := new int[card * nprogs](_ => 0);
      counts := new int[card * nprogs](_ => 0);
    }
  }

  /** val_slots: the program of each value lane, each program at most once. */
  ghost predicate LaneMap(programs: seq<nat>, width: nat, nprogs: nat) {
    && |programs| == width
    && (forall v :: 0 <= v < width ==> programs[v] < nprogs)
    && (forall v, w :: 0 <= v < w < width ==> programs[v] != programs[w])
  }

  /** What value lane v adds to flat slot i of the state. */
  function LaneGain(final: seq<int>, programs: seq<nat>, kinds: seq<AggKind>, nprogs: nat, v: nat, i: nat): int
    requires v < |programs| && nprogs > 0
  {
    var p, kslot := programs[v], Slot(i / nprogs, |programs|, v);
    if i % nprogs == p && p < |kinds| && Summed(kinds[p]) && kslot < |final| then final[kslot] else 0
  }

  /** What a merge of the first `lanes` value lanes adds to slot i. */
  function Gain(final: seq<int>, programs: seq<nat>, kinds: seq<AggKind>, nprogs: nat, lanes: nat, i: nat): int
    requires lanes <= |programs| && nprogs > 0
  {
    if lanes == 0 then 0
    else Gain(final, programs, kinds, nprogs, lanes - 1, i) + LaneGain(final, programs, kinds, nprogs, lanes - 1, i)
  }

  /** A slot whose program no lane among the first feeds, or that is not summed, gains nothing. */
  lemma {:induction false} NoLaneNoGain(final: seq<int>, programs: seq<nat>, kinds: seq<AggKind>, nprogs: nat,
                                        lanes: nat, g: nat, p: nat)
    requires lanes <= |programs| && p < nprogs == |kinds|
    requires !Summed(kinds[p]) || forall v :: 0 <= v < lanes ==> programs[v] != p
    ensures Gain(final, programs, kinds, nprogs, lanes, Slot(g, nprogs, p)) == 0
  {
    if lanes > 0 {
      NoLaneNoGain(final, programs, kinds, nprogs, lanes - 1, g, p);
      SlotInverse(g, nprogs, p);
    }
  }

  /** A summed program's slot gains its own lane's total, once. */
  lemma {:induction false} GainOfLane(final: seq<int>, programs: seq<nat>, kinds: seq<AggKind>, nprogs: nat,
                                      lanes: nat, g: nat, v: nat)
    requires LaneMap(programs, |programs|, nprogs) && v < lanes <= |programs| && nprogs == |kinds|
    requires Summed(kinds[programs[v]]) && Slot(g, |programs|, v) < |final|
    ensures Gain(final, programs, kinds, nprogs, lanes, Slot(g, nprogs, programs[v])) == final[Slot(g, |programs|, v)]
  {
    SlotInverse(g, nprogs, programs[v]);
    if v == lanes - 1 {
      NoLaneNoGain(final, programs, kinds, nprogs, lanes - 1, g, programs[v]);
    } else {
      GainOfLane(final, programs, kinds, nprogs, lanes - 1, g, v);
    }
  }

  /** Lane v has been added for the groups below g. */
  ghost predicate MergedUpTo(before: seq<int>, now: seq<int>, final: seq<int>, programs: seq<nat>,
                             kinds: seq<AggKind>, nprogs: nat, v: nat, g: nat)
    requires v < |programs| && nprogs > 0
  {
    && |before| == |now|
    && (forall i :: 0 <= i < |now| && i / nprogs < g ==>
          now[i] == before[i] + LaneGain(final, programs, kinds, nprogs, v, i))
    && (forall i :: 0 <= i < |now| && i / nprogs >= g ==> now[i] == before[i])
  }

  lemma {:induction false} MergeStep(before: seq<int>, now: seq<int>, final: seq<int>, programs: seq<nat>,
                                     kinds: seq<AggKind>, nprogs: nat, v: nat, g: nat, slot: nat, x: int)
    requires v < |programs| && nprogs > 0 && MergedUpTo(before, now, final, programs, kinds, nprogs, v, g)
    requires programs[v] < nprogs && slot == Slot(g, nprogs, programs[v]) < |now|
    requires x == now[slot] + LaneGain(final, programs, kinds, nprogs, v, slot)
    ensures MergedUpTo(before, now[slot := x], final, programs, kinds, nprogs, v, g + 1)
  {
    SlotInverse(g, nprogs, programs[v]);
    forall i | 0 <= i < |now| && i / nprogs == g && i != slot
      ensures LaneGain(final, programs, kinds, nprogs, v, i) == 0
    {
      assert i == nprogs * (i / nprogs) + i % nprogs;
    }
  }

  /** Every slot has moved by what lane v adds to it. */
  ghost predicate LaneAdded(before: seq<int>, now: seq<int>, final: seq<int>, programs: seq<nat>, kinds: seq<AggKind>,
                            nprogs: nat, v: nat)
    requires v < |programs|
  {
    && |before| == |now| && nprogs > 0
    && forall i :: 0 <= i < |now| ==> now[i] == before[i] + LaneGain(final, programs, kinds, nprogs, v, i)
  }

  lemma {:induction false} MergedAll(before: seq<int>, now: seq<int>, final: seq<int>, programs: seq<nat>,
                                     kinds: seq<AggKind>, nprogs: nat, v: nat, card: nat)
    requires v < |programs| && nprogs > 0 && MergedUpTo(before, now, final, programs, kinds, nprogs, v, card)
    requires |now| == card * nprogs
    ensures LaneAdded(before, now, final, programs, kinds, nprogs, v)
  {
    forall i | 0 <= i < |now| ensures i / nprogs < card {
      SlotRange(i, card, nprogs);
    }
  }

  /** Group g's update of lane v: the slot moves by the lane's total if its program is summed. */
  lemma {:induction false} LaneStep(before: seq<int>, now: seq<int>, final: seq<int>, programs: seq<nat>,
                                    kinds: seq<AggKind>, nprogs: nat, v: nat, g: nat, x: int)
    requires v < |programs| && programs[v] < nprogs == |kinds| &&
             MergedUpTo(before, now, final, programs, kinds, nprogs, v, g)
    requires Slot(g, nprogs, programs[v]) < |now| && Slot(g, |programs|, v) < |final|
    requires x == now[Slot(g, nprogs, programs[v])] +
                  if Summed(kinds[programs[v]]) then final[Slot(g, |programs|, v)] else 0
    ensures MergedUpTo(before, now[Slot(g, nprogs, programs[v]) := x], final, programs, kinds, nprogs, v, g + 1)
  {
    SlotInverse(g, nprogs, programs[v]);
    MergeStep(before, now, final, programs, kinds, nprogs, v, g, Slot(g, nprogs, programs[v]), x);
  }

  /** One group of a value lane: the slot's value and count move by the lane's totals. */
  method MergeLaneGroup(state: GroupedState, v: nat, g: nat, programs: seq<nat>, kinds: seq<AggKind>, sums: seq<int>,
                        counts: seq<int>, ghost sums0: seq<int>, ghost counts0: seq<int>)
    requires state.Valid() && v < |programs| && programs[v] < state.nprogs == |kinds| && g < state.card
    requires |sums| == |counts| == state.card * |programs|
    requires MergedUpTo(sums0, state.ivalues[..], sums, programs, kinds, state.nprogs, v, g)
    requires MergedUpTo(counts0, state.counts[..], counts, programs, kinds, state.nprogs, v, g)
    modifies state.ivalues, state.counts
    ensures MergedUpTo(sums0, state.ivalues[..], sums, programs, kinds, state.nprogs, v, g + 1)
    ensures MergedUpTo(counts0, state.counts[..], counts, programs, kinds, state.nprogs, v, g + 1)
  {
    var p, width := programs[v], |programs|;
    SlotBelow(g, state.card, state.nprogs, p);
    SlotBelow(g, state.card, width, v);
    var slot, kslot := Slot(g, state.nprogs, p), Slot(g, width, v);
    ghost var sumsNow, countsNow := state.ivalues[..], state.counts[..];
    if Summed(kinds[p]) {
      state.ivalues[slot] := state.ivalues[slot] + sums[kslot];
      state.counts[slot] := state.counts[slot] + counts[kslot];
    }
    LaneStep(sums0, sumsNow, sums, programs, kinds, state.nprogs, v, g, state.ivalues[slot]);
    LaneStep(counts0, countsNow, counts, programs, kinds, state.nprogs, v, g, state.counts[slot]);
    assert state.ivalues[..] == sumsNow[slot := state.ivalues[slot]];
    assert state.counts[..] == countsNow[slot := state.counts[slot]];
  }

  /** One value lane of MergeTilePartials. */
  method MergeOneLane(state: GroupedState, v: nat, programs: seq<nat>, kinds: seq<AggKind>, sums: seq<int>,
                      counts: seq<int>)
    requires state.Valid() && v < |programs| && LaneMap(programs, |programs|, state.nprogs) && |kinds| == state.nprogs
    requires |sums| == |counts| == state.card * |programs|
    modifies state.ivalues, state.counts
    ensures LaneAdded(old(state.ivalues[..]), state.ivalues[..], sums, programs, kinds, state.nprogs, v)
    ensures LaneAdded(old(state.counts[..]), state.counts[..], counts, programs, kinds, state.nprogs, v)
  {
    assert programs[v] < state.nprogs;
    ghost var sums0, counts0 := state.ivalues[..], state.counts[..];
    for g := 0 to state.card
      invariant MergedUpTo(sums0, state.ivalues[..], sums, programs, kinds, state.nprogs, v, g)
      invariant MergedUpTo(counts0, state.counts[..], counts, programs, kinds, state.nprogs, v, g)
    {
      MergeLaneGroup(state, v, g, programs, kinds, sums, counts, sums0, counts0);
    }
    MergedAll(sums0, state.ivalues[..], sums, programs, kinds, state.nprogs, v, state.card);
    MergedAll(counts0, state.counts[..], counts, programs, kinds, state.nprogs, v, state.card);
  }

  ghost predicate GainsAdded(before: seq<int>, after: seq<int>, final: seq<int>, programs: seq<nat>,
                             kinds: seq<AggKind>, nprogs: nat)
  {
    && |before| == |after|
    && forall i :: 0 <= i < |after| ==>
         nprogs > 0 && after[i] == before[i] + Gain(final, programs, kinds, nprogs, |programs|, i)
  }

  /** MergeTilePartials: adds the merged totals of one batch into the running state. */
  method MergeTilePartials(state: GroupedState, programs: seq<nat>, kinds: seq<AggKind>, rows: seq<int>,
                           sums: seq<int>, counts: seq<int>)
    requires state.Valid() && LaneMap(programs, |programs|, state.nprogs) && |kinds| == state.nprogs > 0
    requires |sums| == |counts| == state.card * |programs| && |rows| == state.card
    modifies state.rows, state.ivalues, state.counts
    ensures forall g :: 0 <= g < state.card ==> state.rows[g] == old(state.rows[g]) + rows[g]
    ensures GainsAdded(old(state.ivalues[..]), state.ivalues[..], sums, programs, kinds, state.nprogs)
    ensures GainsAdded(old(state.counts[..]), state.counts[..], counts, programs, kinds, state.nprogs)
  {
    for g := 0 to state.card
      invariant forall h :: 0 <= h < g ==> state.rows[h] == old(state.rows[h]) + rows[h]
      invariant forall h :: g <= h < state.card ==> state.rows[h] == old(state.rows[h])
      invariant state.ivalues[..] == old(state.ivalues[..]) && state.counts[..] == old(state.counts[..])
    {
      state.rows[g] := state.rows[g] + rows[g];
    }
    for v := 0 to |programs|
      invariant forall g :: 0 <= g < state.card ==> state.rows[g] == old(state.rows[g]) + rows[g]
      invariant forall i :: 0 <= i < state.ivalues.Length ==>
                  state.ivalues[i] == old(state.ivalues[i]) + Gain(sums, programs, kinds, state.nprogs, v, i)
      invariant forall i :: 0 <= i < state.counts.Length ==>
                  state.counts[i] == old(state.counts[i]) + Gain(counts, programs, kinds, state.nprogs, v, i)
    {
      ghost var sums0, counts0 := state.ivalues[..], state.counts[..];
      MergeOneLane(state, v, programs, kinds, sums, counts);
      assert LaneAdded(sums0, state.ivalues[..], sums, programs, kinds, state.nprogs, v);
      assert LaneAdded(counts0, state.counts[..], counts, programs, kinds, state.nprogs, v);
    }
  }

  const MAX_TILE_LANES: nat := 8
  const MAX_TILE_SLOTS: nat := 512
  const MAX_TILE_CARD: nat := 64

  /** The programs that take a value lane. */
  ghost function SumsAndAverages(kinds: seq<AggKind>): set<nat> {
    set p: nat | p < |kinds| && (kinds[p] == SUM || kinds[p] == AVG)
  }

  ghost predicate Tileable(kind: AggKind, intLane: bool) {
    kind != MIN && kind != MAX && (kind == SUM || kind == AVG ==> intLane)
  }

  /** The shapes of the tile kernels: at most 64 groups, neither MIN nor MAX, sums and averages in the int lane
      only, and at least one of them, but no more than 512 (program, group) pairs. */
  ghost predicate TileShape(kinds: seq<AggKind>, intLane: seq<bool>, card: nat)
    requires |kinds| == |intLane|
  {
    && 1 <= card <= 64 && (forall p :: 0 <= p < |kinds| ==> Tileable(kinds[p], intLane[p]))
    && 1 <= |SumsAndAverages(kinds)| && |SumsAndAverages(kinds)| * card <= 512
  }

  lemma {:induction false} SumsAndAveragesStep(kinds: seq<AggKind>, p: nat)
    requires p < |kinds|
    ensures SumsAndAverages(kinds[..p + 1]) == SumsAndAverages(kinds[..p]) +
                                               if kinds[p] == SUM || kinds[p] == AVG then {p} else {}
  {
  }

  method ProgramsUseTileKernel(kinds: seq<AggKind>, intLane: seq<bool>, card: nat) returns (ok: bool)
    requires |kinds| == |intLane|
    ensures ok <==> TileShape(kinds, intLane, card)
  {
    if card == 0 || card > MAX_TILE_CARD {
      return false;
    }
    var valProgs := 0;
    for p := 0 to |kinds|
      invariant valProgs == |SumsAndAverages(kinds[..p])|
      invariant forall q :: 0 <= q < p ==> Tileable(kinds[q], intLane[q])
    {
      SumsAndAveragesStep(kinds, p);
      match kinds[p]
      case COUNT_STAR =>
      case COUNT =>
      case SUM =>
        if !intLane[p] {
          return false;
        }
        valProgs := valProgs + 1;
      case AVG =>
        if !intLane[p] {
          return false;
        }
        valProgs := valProgs + 1;
      case MIN => return false;
      case MAX => return false;
    }
    assert kinds[..|kinds|] == kinds;
    ok := valProgs > 0 && valProgs * card <= MAX_TILE_SLOTS;
  }

  /** A program's slots hold the batch's grouped fold on top of what they held; programs no value
      lane feeds, and those of another kind, keep what they had. */
  ghost predicate FoldedInto(b: Batch, n: nat, programs: seq<nat>, kinds: seq<AggKind>, nprogs: nat, rows0: seq<int>,
                             sums0: seq<int>, counts0: seq<int>, rows1: seq<int>, sums1: seq<int>, counts1: seq<int>)
    requires WellFormed(b) && n <= |b.codes| && LaneMap(programs, |b.vals|, nprogs) && |kinds| == nprogs
    requires |rows0| == |rows1| == b.card && |sums0| == |sums1| == |counts0| == |counts1| == b.card * nprogs
  {
    && (forall g :: 0 <= g < b.card ==> rows1[g] == rows0[g] + KeyCount(PassingRows(b, n), g))
    && (forall g, v :: 0 <= g < b.card && 0 <= v < |b.vals| &&
                       (kinds[programs[v]] == SUM || kinds[programs[v]] == AVG) ==>
          LaneFolded(b, n, g, v, Slot(g, nprogs, programs[v]), sums0, counts0, sums1, counts1))
    && (forall g, p :: 0 <= g < b.card && 0 <= p < nprogs &&
                       (!(kinds[p] == SUM || kinds[p] == AVG) || p !in programs) ==>
          SlotKept(Slot(g, nprogs, p), sums0, counts0, sums1, counts1))
  }

  ghost predicate LaneFolded(b: Batch, n: nat, g: nat, v: nat, slot: nat, sums0: seq<int>, counts0: seq<int>,
                             sums1: seq<int>, counts1: seq<int>)
    requires WellFormed(b) && n <= |b.codes| && v < |b.vals| && |sums0| == |sums1| == |counts0| == |counts1|
  {
    && slot < |sums0|
    && sums1[slot] == sums0[slot] + KeySum(LaneRows(b, v, n), g)
    && counts1[slot] == counts0[slot] + KeyCount(LaneRows(b, v, n), g)
  }

  ghost predicate SlotKept(slot: nat, sums0: seq<int>, counts0: seq<int>, sums1: seq<int>, counts1: seq<int>)
    requires |sums0| == |sums1| == |counts0| == |counts1|
  {
    slot < |sums0| && sums1[slot] == sums0[slot] && counts1[slot] == counts0[slot]
  }

  /** COUNT(col): the passing rows of group g, among the first n, in which the column is present. */
  function PresentRows(b: Batch, present: seq<bool>, g: nat, n: nat): nat
    requires WellFormed(b) && n <= |b.codes| == |present|
  {
    if n == 0 then 0
    else PresentRows(b, present, g, n - 1) + if Counted(b, n - 1, g) && present[n - 1] then 1 else 0
  }

  lemma {:induction false} NobodyPresentIff(b: Batch, present: seq<bool>, g: nat, n: nat)
    requires WellFormed(b) && n <= |b.codes| == |present|
    ensures PresentRows(b, present, g, n) == 0 <==> NobodyPresent(b, present, g, n)
  {
    if n > 0 {
      NobodyPresentIff(b, present, g, n - 1);
      assert NobodyPresent(b, present, g, n) <==>
             NobodyPresent(b, present, g, n - 1) && !(Counted(b, n - 1, g) && present[n - 1]);
    }
  }

  ghost predicate NobodyPresent(b: Batch, present: seq<bool>, g: nat, n: nat)
    requires WellFormed(b) && n <= |b.codes| == |present|
  {
    forall row :: 0 <= row < n ==> !(Counted(b, row, g) && present[row])
  }

  /** The kernel has no lane for COUNT(col). From a fresh state its count is right exactly when the group
      has no passing row with the column present. */
  lemma {:induction false} CountRightIff(b: Batch, n: nat, programs: seq<nat>, kinds: seq<AggKind>, nprogs: nat,
                                         rows0: seq<int>, sums0: seq<int>, counts0: seq<int>, rows1: seq<int>,
                                         sums1: seq<int>, counts1: seq<int>, present: seq<bool>, g: nat, p: nat)
    requires WellFormed(b) && n <= |b.codes| == |present| && LaneMap(programs, |b.vals|, nprogs) && |kinds| == nprogs
    requires |rows0| == |rows1| == b.card && |sums0| == |sums1| == |counts0| == |counts1| == b.card * nprogs
    requires FoldedInto(b, n, programs, kinds, nprogs, rows0, sums0, counts0, rows1, sums1, counts1)
    requires forall i :: 0 <= i < |counts0| ==> counts0[i] == 0
    requires g < b.card && p < nprogs && kinds[p] == COUNT
    ensures Slot(g, nprogs, p) < |counts1|
    ensures counts1[Slot(g, nprogs, p)] == PresentRows(b, present, g, n) <==> NobodyPresent(b, present, g, n)
  {
    assert SlotKept(Slot(g, nprogs, p), sums0, counts0, sums1, counts1);
    NobodyPresentIff(b, present, g, n);
  }

  ghost predicate TotalsOf(final: seq<int>, parts: seq<seq<int>>, n: nat) {
    |final| == |parts| && forall s :: 0 <= s < |parts| ==> n <= |parts[s]| && final[s] == Prefix(parts[s], n)
  }

  /** Merged totals, added slot by slot, are the grouped fold. */
  lemma {:induction false} TotalsFold(b: Batch, n: nat, programs: seq<nat>, kinds: seq<AggKind>, nprogs: nat,
                                      rows: seq<int>, sums: seq<int>, counts: seq<int>, rows0: seq<int>,
                                      sums0: seq<int>, counts0: seq<int>, rows1: seq<int>, sums1: seq<int>,
                                      counts1: seq<int>)
    requires WellFormed(b) && n <= |b.codes| && LaneMap(programs, |b.vals|, nprogs) && |kinds| == nprogs > 0
    requires |rows0| == |rows1| == b.card && |sums0| == |sums1| == |counts0| == |counts1| == b.card * nprogs
    requires TotalsOf(rows, RowParts(b), n) && TotalsOf(sums, SumParts(b), n) && TotalsOf(counts, CountParts(b), n)
    requires forall g :: 0 <= g < b.card ==> rows1[g] == rows0[g] + rows[g]
    requires GainsAdded(sums0, sums1, sums, programs, kinds, nprogs)
    requires GainsAdded(counts0, counts1, counts, programs, kinds, nprogs)
    ensures FoldedInto(b, n, programs, kinds, nprogs, rows0, sums0, counts0, rows1, sums1, counts1)
  {
    forall g | 0 <= g < b.card ensures rows1[g] == rows0[g] + KeyCount(PassingRows(b, n), g) {
      SlotBelow(g, b.card, |b.vals|, 0);
      PartsAreFold(b, g, 0, n);
    }
    forall g, v | 0 <= g < b.card && 0 <= v < |b.vals| && Summed(kinds[programs[v]])
      ensures LaneFolded(b, n, g, v, Slot(g, nprogs, programs[v]), sums0, counts0, sums1, counts1)
    {
      LaneFolds(b.card, programs, kinds, nprogs, sums, g, v);
      LaneFolds(b.card, programs, kinds, nprogs, counts, g, v);
      PartsAreFold(b, g, v, n);
    }
    forall g, p | 0 <= g < b.card && 0 <= p < nprogs && (!Summed(kinds[p]) || p !in programs)
      ensures SlotKept(Slot(g, nprogs, p), sums0, counts0, sums1, counts1)
    {
      SlotBelow(g, b.card, nprogs, p);
      NoLaneNoGain(sums, programs, kinds, nprogs, |programs|, g, p);
      NoLaneNoGain(counts, programs, kinds, nprogs, |programs|, g, p);
    }
  }

  lemma {:induction false} LaneFolds(card: nat, programs: seq<nat>, kinds: seq<AggKind>, nprogs: nat, final: seq<int>,
                                     g: nat, v: nat)
    requires LaneMap(programs, |programs|, nprogs) && |kinds| == nprogs > 0
    requires |final| == card * |programs| && g < card && v < |programs| && Summed(kinds[programs[v]])
    ensures Slot(g, |programs|, v) < card * |programs| && Slot(g, nprogs, programs[v]) < card * nprogs
    ensures Gain(final, programs, kinds, nprogs, |programs|, Slot(g, nprogs, programs[v])) ==
            final[Slot(g, |programs|, v)]
  {
    SlotBelow(g, card, |programs|, v);
    SlotBelow(g, card, nprogs, programs[v]);
    GainOfLane(final, programs, kinds, nprogs, |programs|, g, v);
  }

  /** GroupedTileMergeKernel for one kind of partial. */
  method MergePartials(partial: array<int>, ghost parts: seq<seq<int>>, slots: nat, tiles: nat, ghost n: nat,
                       ghost size: nat) returns (final: seq<int>)
    requires |parts| == slots && tiles * slots <= partial.Length && PartialsHold(partial[..], parts, tiles, size)
    requires forall s :: 0 <= s < |parts| ==> |parts[s]| == n
    ensures TotalsOf(final, parts, TileStart(n, tiles, size))
  {
    final := MergeAll(partial, slots, tiles);
    forall c | 0 <= c < |parts| ensures final[c] == Prefix(parts[c], TileStart(n, tiles, size)) {
      ColumnsAreTotals(partial[..], parts, tiles, size, c);
    }
  }

  /** The tile driver's batch: a row passes when its code is a group. */
  function TileBatch(card: nat, codes: seq<int>, vals: seq<seq<int>>, masks: seq<seq<bool>>): Batch {
    Batch(card, codes, seq(|codes|, row requires 0 <= row < |codes| => 0 <= codes[row] < card), vals, masks)
  }

  /** GroupedTileKernelAccumulate. `false` stands for the exception on an ineligible shape. */
  method GroupedTileKernelAccumulate(state: GroupedState, codes: seq<int>, vals: seq<seq<int>>, masks: seq<seq<bool>>,
                                     programs: seq<nat>, kinds: seq<AggKind>, intLane: seq<bool>) returns (ok: bool)
    requires state.Valid() && |masks| == |vals|
    requires forall p :: 0 <= p < |vals| ==> |vals[p]| == |codes|
    requires forall p :: 0 <= p < |masks| ==> |masks[p]| == |codes|
    requires |kinds| == |intLane| == state.nprogs && LaneMap(programs, |vals|, state.nprogs)
    modifies state.rows, state.ivalues, state.counts
    ensures ok <==> codes != [] && TileShape(kinds, intLane, state.card) &&
                    0 < |vals| <= 8 && state.card * |vals| <= 512
    ensures !ok ==> state.rows[..] == old(state.rows[..]) && state.ivalues[..] == old(state.ivalues[..]) &&
                    state.counts[..] == old(state.counts[..])
    ensures ok ==> FoldedInto(TileBatch(state.card, codes, vals, masks), |codes|, programs, kinds, state.nprogs,
                              old(state.rows[..]), old(state.ivalues[..]), old(state.counts[..]),
                              state.rows[..], state.ivalues[..], state.counts[..])
  {
    var eligible := ProgramsUseTileKernel(kinds, intLane, state.card);
    if codes == [] || !eligible {
      return false;
    }
    if |vals| == 0 || |vals| > MAX_TILE_LANES || state.card * |vals| > MAX_TILE_SLOTS {
      return false;
    }
    var b, n, tiles := TileBatch(state.card, codes, vals, masks), |codes|, Tiles(|codes|);
    var sumPartials, countPartials, rowPartials := RunTiles(b);
    var sums := MergePartials(sumPartials, SumParts(b), Slots(b), tiles, n, TILE_ROWS);
    var counts := MergePartials(countPartials, CountParts(b), Slots(b), tiles, n, TILE_ROWS);
    var rows := MergePartials(rowPartials, RowParts(b), b.card, tiles, n, TILE_ROWS);
    ghost var rows0, sums0, counts0 := state.rows[..], state.ivalues[..], state.counts[..];
    MergeTilePartials(state, programs, kinds, rows, sums, counts);
    TotalsFold(b, n, programs, kinds, state.nprogs, rows, sums, counts, rows0, sums0, counts0,
               state.rows[..], state.ivalues[..], state.counts[..]);
    return true;
  }
}
