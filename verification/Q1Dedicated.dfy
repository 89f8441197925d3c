/** The dedicated Q1 kernel: the filter is folded into the byte codes (a code of at least `card` is
    a filtered row), value columns are deduplicated and laid out column-major, counts come from the
    group's rows. One tile per threadgroup under the grid cap: rows past the cap are not read. */
module Q1Dedicated {
  import opened Arith
  import opened GroupBy
  import opened Sums
  import opened Q1Kernels
  import opened TileKernel
  import opened TreeReduce

  datatype Bundle = Bundle(card: nat, codes: seq<nat>, cols: seq<seq<int>>)

  ghost predicate Bundled(b: Bundle) {
    b.card > 0 && |b.cols| > 0 && forall d :: 0 <= d < |b.cols| ==> |b.cols[d]| == |b.codes|
  }

  /** What the aggregates mean: lane v of the plan sums column distOf[v], nothing is NULL. */
  function Planned(b: Bundle, distOf: seq<nat>): (r: Batch)
    requires Bundled(b) && distOf != [] && forall v :: 0 <= v < |distOf| ==> distOf[v] < |b.cols|
    ensures WellFormed(r) && |r.vals| == |distOf|
  {
    var n := |b.codes|;
    Batch(b.card, b.codes, seq(n, row requires 0 <= row < n => b.codes[row] < b.card),
          seq(|distOf|, v requires 0 <= v < |distOf| => b.cols[distOf[v]]),
          seq(|distOf|, v requires 0 <= v < |distOf| => seq(n, row requires 0 <= row < n => true)))
  }

  /** Slot d * card + g collects column d over the rows of group g. */
  function ColPart(b: Bundle, s: nat): (r: seq<int>)
    requires Bundled(b) && s < |b.cols| * b.card
    ensures |r| == |b.codes|
  {
    SlotRange(s, |b.cols|, b.card);
    var d, g := s / b.card, s % b.card;
    seq(|b.codes|, row requires 0 <= row < |b.codes| => if b.codes[row] == g then b.cols[d][row] else 0)
  }

  function ColParts(b: Bundle): (r: seq<seq<int>>)
    requires Bundled(b)
    ensures |r| == |b.cols| * b.card
    ensures forall s :: 0 <= s < |r| ==> |r[s]| == |b.codes|
  {
    seq(|b.cols| * b.card, s requires 0 <= s < |b.cols| * b.card => ColPart(b, s))
  }

  function GroupParts(b: Bundle): (r: seq<seq<int>>)
    requires Bundled(b)
    ensures |r| == b.card
    ensures forall g :: 0 <= g < |r| ==> |r[g]| == |b.codes|
  {
    seq(b.card, g requires 0 <= g < b.card =>
      seq(|b.codes|, row requires 0 <= row < |b.codes| => if b.codes[row] == g then 1 else 0))
  }

  lemma {:induction false} ColPartAt(b: Bundle, row: nat, d: nat)
    requires Bundled(b) && row < |b.codes| && d < |b.cols| && b.codes[row] < b.card
    ensures Slot(d, b.card, b.codes[row]) < |b.cols| * b.card
    ensures ColPart(b, Slot(d, b.card, b.codes[row]))[row] == b.cols[d][row]
    ensures Slot(d, b.card, b.codes[row]) / b.card == d
  {
    SlotBelow(d, |b.cols|, b.card, b.codes[row]);
    SlotInverse(d, b.card, b.codes[row]);
  }

  lemma {:induction false} ColPartElsewhere(b: Bundle, row: nat, s: nat)
    requires Bundled(b) && row < |b.codes| && s < |b.cols| * b.card
    requires s != Slot(s / b.card, b.card, b.codes[row]) || b.codes[row] >= b.card
    ensures ColPart(b, s)[row] == 0
  {
    SlotRange(s, |b.cols|, b.card);
  }

  /** The unrolled per-column additions of one row of group g. */
  method AddColumns(b: Bundle, row: nat, acc: array<int>)
    requires Bundled(b) && row < |b.codes| && b.codes[row] < b.card && acc.Length == |b.cols| * b.card
    modifies acc
    ensures forall s :: 0 <= s < acc.Length ==> acc[s] == old(acc[s]) + ColPart(b, s)[row]
  {
    var g := b.codes[row];
    for d := 0 to |b.cols|
      invariant forall s :: 0 <= s < acc.Length && s / b.card < d ==> acc[s] == old(acc[s]) + ColPart(b, s)[row]
      invariant forall s :: 0 <= s < acc.Length && s / b.card >= d ==> acc[s] == old(acc[s])
    {
      ColPartAt(b, row, d);
      ghost var slot := Slot(d, b.card, g);
      acc[d * b.card + g] := acc[d * b.card + g] + b.cols[d][row];
      forall s | 0 <= s < acc.Length && s / b.card == d && s != slot ensures ColPart(b, s)[row] == 0 {
        ColPartElsewhere(b, row, s);
      }
    }
    forall s | 0 <= s < acc.Length ensures s / b.card < |b.cols| {
      SlotRange(s, |b.cols|, b.card);
    }
  }

  method AddBundleRow(b: Bundle, row: nat, acc: array<int>, rows: array<int>)
    requires Bundled(b) && row < |b.codes|
    requires acc.Length == |b.cols| * b.card && rows.Length == b.card && acc != rows
    modifies acc, rows
    ensures AddsRow(old(acc[..]), acc[..], ColParts(b), row)
    ensures AddsRow(old(rows[..]), rows[..], GroupParts(b), row)
  {
    var g := b.codes[row];
    if g >= b.card {
      forall s | 0 <= s < |b.cols| * b.card ensures ColPart(b, s)[row] == 0 {
        ColPartElsewhere(b, row, s);
      }
      return;
    }
    rows[g] := rows[g] + 1;
    AddColumns(b, row, acc);
  }

  ghost predicate BundleAccount(b: Bundle, sums: seq<int>, rows: seq<int>, lo: nat, lane: nat, hi: nat)
    requires Bundled(b)
  {
    LaneHolds(sums, ColParts(b), lo, LANES, lane, hi) && LaneHolds(rows, GroupParts(b), lo, LANES, lane, hi)
  }

  lemma {:induction false} BundleRowVisited(b: Bundle, sums0: seq<int>, rows0: seq<int>, sums: seq<int>,
                                            rows: seq<int>, start: nat, lane: nat, row: nat, end: nat)
    requires Bundled(b) && start <= row < end <= |b.codes| && (row - start) % LANES == lane
    requires BundleAccount(b, sums0, rows0, start, lane, row)
    requires AddsRow(sums0, sums, ColParts(b), row) && AddsRow(rows0, rows, GroupParts(b), row)
    ensures BundleAccount(b, sums, rows, start, lane, Min(row + LANES, end))
    ensures (row + LANES - start) % LANES == lane
  {
    LaneAdvances(sums0, sums, ColParts(b), start, LANES, lane, row, end);
    LaneAdvances(rows0, rows, GroupParts(b), start, LANES, lane, row, end);
    AddModulus(row - start, LANES);
  }

  lemma {:induction false} BundleStarts(b: Bundle, sums: seq<int>, rows: seq<int>, lo: nat, lane: nat, hi: nat)
    requires Bundled(b) && lane < LANES && lo <= hi <= lo + lane && hi <= |b.codes|
    requires |sums| == |b.cols| * b.card && |rows| == b.card
    requires (forall s :: 0 <= s < |sums| ==> sums[s] == 0) && forall g :: 0 <= g < |rows| ==> rows[g] == 0
    ensures BundleAccount(b, sums, rows, lo, lane, hi) && lane % LANES == lane
  {
    LaneStarts(sums, ColParts(b), lo, LANES, lane, hi);
    LaneStarts(rows, GroupParts(b), lo, LANES, lane, hi);
  }

  /** A lane stands at `row`: it has taken in its rows before that. */
  ghost predicate LaneAt(b: Bundle, sums: seq<int>, rows: seq<int>, start: nat, lane: nat, row: nat, end: nat)
    requires Bundled(b)
  {
    start <= row && (row - start) % LANES == lane && BundleAccount(b, sums, rows, start, lane, Min(row, end))
  }

  method VisitBundleRow(b: Bundle, start: nat, end: nat, lane: nat, row: nat, acc: array<int>, rows: array<int>)
    returns (next: nat)
    requires Bundled(b) && row < end <= |b.codes| && LaneAt(b, acc[..], rows[..], start, lane, row, end)
    requires acc.Length == |b.cols| * b.card && rows.Length == b.card && acc != rows
    modifies acc, rows
    ensures next == row + LANES && LaneAt(b, acc[..], rows[..], start, lane, next, end)
  {
    ghost var acc0, rows0 := acc[..], rows[..];
    AddBundleRow(b, row, acc, rows);
    BundleRowVisited(b, acc0, rows0, acc[..], rows[..], start, lane, row, end);
    next := row + LANES;
  }

  method BundleLane(b: Bundle, start: nat, end: nat, lane: nat) returns (sums: seq<int>, rows: seq<int>)
    requires Bundled(b) && start <= end <= |b.codes| && lane < LANES
    ensures BundleAccount(b, sums, rows, start, lane, end)
  {
    var acc, localRows := new int[|b.cols| * b.card](_ => 0), new int[b.card](_ => 0);
    var row := start + lane;
    BundleStarts(b, acc[..], localRows[..], start, lane, Min(row, end));
    while row < end
      invariant LaneAt(b, acc[..], localRows[..], start, lane, row, end)
    {
      row := VisitBundleRow(b, start, end, lane, row, acc, localRows);
    }
    sums, rows := acc[..], localRows[..];
  }

  method RunBundleTile(b: Bundle, start: nat, end: nat) returns (sums: seq<int>, rows: seq<int>)
    requires Bundled(b) && start <= end <= |b.codes|
    ensures BlockHolds(sums, ColParts(b), start, end)
    ensures BlockHolds(rows, GroupParts(b), start, end)
  {
    var laneSums: seq<seq<int>>, laneRows: seq<seq<int>> := [], [];
    for lane := 0 to LANES
      invariant |laneSums| == |laneRows| == lane
      invariant LanesDone(laneSums, ColParts(b), start, LANES, 0, end)
      invariant LanesDone(laneRows, GroupParts(b), start, LANES, 0, end)
    {
      var s, r := BundleLane(b, start, end, lane);
      laneSums, laneRows := laneSums + [s], laneRows + [r];
    }
    sums := ReduceLanes(laneSums, ColParts(b), |b.cols| * b.card, start, end);
    rows := ReduceLanes(laneRows, GroupParts(b), b.card, start, end);
  }

  lemma {:induction false} GridTileInRange(n: nat, t: nat)
    requires n > 0 && t < PickQ1Grid(n)
    ensures t < Tiles(n)
  {
  }

  method StoreBundleTile(b: Bundle, t: nat, tiles: nat, sums: array<int>, rows: array<int>)
    requires Bundled(b) && b.codes != [] && t < tiles == PickQ1Grid(|b.codes|)
    requires sums.Length == tiles * |ColParts(b)| && rows.Length == tiles * |GroupParts(b)| && sums != rows
    requires PartialsHold(sums[..], ColParts(b), t, TILE_ROWS)
    requires PartialsHold(rows[..], GroupParts(b), t, TILE_ROWS)
    modifies sums, rows
    ensures PartialsHold(sums[..], ColParts(b), t + 1, TILE_ROWS)
    ensures PartialsHold(rows[..], GroupParts(b), t + 1, TILE_ROWS)
  {
    GridTileInRange(|b.codes|, t);
    TileInRange(|b.codes|, t);
    SlotBelow(0, |b.cols|, b.card, 0);
    var start := t * TILE_ROWS;
    var end := Min(|b.codes|, start + TILE_ROWS);
    var s, r := RunBundleTile(b, start, end);
    WriteBlock(sums, s, ColParts(b), |b.codes|, t, tiles, TILE_ROWS);
    WriteBlock(rows, r, GroupParts(b), |b.codes|, t, tiles, TILE_ROWS);
  }

  method RunBundleTiles(b: Bundle, tiles: nat) returns (sums: array<int>, rows: array<int>)
    requires Bundled(b) && b.codes != [] && tiles == PickQ1Grid(|b.codes|)
    ensures fresh(sums) && fresh(rows)
    ensures PartialsHold(sums[..], ColParts(b), tiles, TILE_ROWS)
    ensures PartialsHold(rows[..], GroupParts(b), tiles, TILE_ROWS)
  {
    var slots := |b.cols| * b.card;
    sums, rows := new int[tiles * slots], new int[tiles * b.card];
    for t := 0 to tiles
      invariant sums.Length == tiles * |ColParts(b)| && rows.Length == tiles * |GroupParts(b)|
      invariant PartialsHold(sums[..], ColParts(b), t, TILE_ROWS)
      invariant PartialsHold(rows[..], GroupParts(b), t, TILE_ROWS)
    {
      StoreBundleTile(b, t, tiles, sums, rows);
    }
  }

  // The host merge.

  /** The merged column totals and row counts, arranged lane by lane as the tile kernel has them. */
  function ByLane(sums: seq<int>, card: nat, distOf: seq<nat>): (r: seq<int>)
    requires forall v :: 0 <= v < |distOf| ==> (distOf[v] + 1) * card <= |sums|
    ensures |r| == card * |distOf|
  {
    seq(card * |distOf|, s requires 0 <= s < card * |distOf| =>
      (SlotRange(s, card, |distOf|);
       SlotBelow(distOf[s % |distOf|], distOf[s % |distOf|] + 1, card, s / |distOf|);
       sums[Slot(distOf[s % |distOf|], card, s / |distOf|)]))
  }

  function RowsByLane(rows: seq<int>, width: nat): (r: seq<int>)
    ensures |r| == |rows| * width
  {
    seq(|rows| * width, s requires 0 <= s < |rows| * width => (SlotRange(s, |rows|, width); rows[s / width]))
  }

  method MergeBundleLane(state: GroupedState, v: nat, programs: seq<nat>, kinds: seq<AggKind>, distOf: seq<nat>,
                         sums: seq<int>, rows: seq<int>)
    requires state.Valid() && v < |programs| == |distOf| && LaneMap(programs, |programs|, state.nprogs)
    requires |kinds| == state.nprogs && Summed(kinds[programs[v]]) && |rows| == state.card
    requires forall w :: 0 <= w < |distOf| ==> (distOf[w] + 1) * state.card <= |sums|
    modifies state.ivalues, state.counts
    ensures forall i :: 0 <= i < state.ivalues.Length ==>
              state.ivalues[i] == old(state.ivalues[i])
                                  + LaneGain(ByLane(sums, state.card, distOf), programs, kinds, state.nprogs, v, i)
    ensures forall i :: 0 <= i < state.counts.Length ==>
              state.counts[i] == old(state.counts[i])
                                 + LaneGain(RowsByLane(rows, |programs|), programs, kinds, state.nprogs, v, i)
  {
    var p, d := programs[v], distOf[v];
    ghost var width, sumView, rowView := |programs|, ByLane(sums, state.card, distOf), RowsByLane(rows, |programs|);
    ghost var sums0, counts0 := state.ivalues[..], state.counts[..];
    for g := 0 to state.card
      invariant MergedUpTo(sums0, state.ivalues[..], sumView, programs, kinds, state.nprogs, v, g)
      invariant MergedUpTo(counts0, state.counts[..], rowView, programs, kinds, state.nprogs, v, g)
    {
      SlotBelow(g, state.card, state.nprogs, p);
      BundleSlots(state.card, programs, distOf, sums, rows, g, v);
      var slot := Slot(g, state.nprogs, p);
      ghost var sumsNow, countsNow := state.ivalues[..], state.counts[..];
      state.ivalues[slot] := state.ivalues[slot] + sums[d * state.card + g];
      state.counts[slot] := state.counts[slot] + rows[g];
      LaneStep(sums0, sumsNow, sumView, programs, kinds, state.nprogs, v, g, state.ivalues[slot]);
      LaneStep(counts0, countsNow, rowView, programs, kinds, state.nprogs, v, g, state.counts[slot]);
      assert state.ivalues[..] == sumsNow[slot := state.ivalues[slot]];
      assert state.counts[..] == countsNow[slot := state.counts[slot]];
    }
    MergedAll(sums0, state.ivalues[..], sumView, programs, kinds, state.nprogs, v, state.card);
    MergedAll(counts0, state.counts[..], rowView, programs, kinds, state.nprogs, v, state.card);
  }

  lemma {:induction false} BundleSlots(card: nat, programs: seq<nat>, distOf: seq<nat>, sums: seq<int>,
                                       rows: seq<int>, g: nat, v: nat)
    requires v < |programs| == |distOf| && g < card == |rows|
    requires forall w :: 0 <= w < |distOf| ==> (distOf[w] + 1) * card <= |sums|
    ensures Slot(distOf[v], card, g) < |sums| && Slot(g, |programs|, v) < card * |programs|
    ensures ByLane(sums, card, distOf)[Slot(g, |programs|, v)] == sums[Slot(distOf[v], card, g)]
    ensures RowsByLane(rows, |programs|)[Slot(g, |programs|, v)] == rows[g]
  {
    SlotBelow(g, card, |programs|, v);
    SlotInverse(g, |programs|, v);
    SlotBelow(distOf[v], distOf[v] + 1, card, g);
  }

  lemma {:induction false} ArrangedTotal(b: Bundle, distOf: seq<nat>, g: nat, v: nat, m: nat)
    requires Bundled(b) && distOf != [] && forall w :: 0 <= w < |distOf| ==> distOf[w] < |b.cols|
    requires g < b.card && v < |distOf| && m <= |b.codes|
    ensures Slot(g, |distOf|, v) < Slots(Planned(b, distOf)) && Slot(distOf[v], b.card, g) < |b.cols| * b.card
    ensures Prefix(SumPart(Planned(b, distOf), Slot(g, |distOf|, v)), m) ==
            Prefix(ColPart(b, Slot(distOf[v], b.card, g)), m)
    ensures Prefix(CountPart(Planned(b, distOf), Slot(g, |distOf|, v)), m) == Prefix(GroupParts(b)[g], m)
    ensures Prefix(RowPart(Planned(b, distOf), g), m) == Prefix(GroupParts(b)[g], m)
  {
    var plan, s, d := Planned(b, distOf), Slot(g, |distOf|, v), Slot(distOf[v], b.card, g);
    SlotInverse(g, |distOf|, v);
    SlotBelow(g, b.card, |distOf|, v);
    SlotInverse(distOf[v], b.card, g);
    SlotBelow(distOf[v], |b.cols|, b.card, g);
    PrefixDependsOnPrefix(SumPart(plan, s), ColPart(b, d), m);
    PrefixDependsOnPrefix(CountPart(plan, s), GroupParts(b)[g], m);
    PrefixDependsOnPrefix(RowPart(plan, g), GroupParts(b)[g], m);
  }

  lemma {:induction false} ArrangedTotals(b: Bundle, distOf: seq<nat>, sums: seq<int>, rows: seq<int>, m: nat)
    requires Bundled(b) && distOf != [] && m <= |b.codes| && forall v :: 0 <= v < |distOf| ==> distOf[v] < |b.cols|
    requires TotalsOf(sums, ColParts(b), m) && TotalsOf(rows, GroupParts(b), m)
    requires forall v :: 0 <= v < |distOf| ==> (distOf[v] + 1) * b.card <= |sums|
    ensures TotalsOf(ByLane(sums, b.card, distOf), SumParts(Planned(b, distOf)), m)
    ensures TotalsOf(RowsByLane(rows, |distOf|), CountParts(Planned(b, distOf)), m)
    ensures TotalsOf(rows, RowParts(Planned(b, distOf)), m)
  {
    forall s | 0 <= s < b.card * |distOf|
      ensures ByLane(sums, b.card, distOf)[s] == Prefix(SumParts(Planned(b, distOf))[s], m)
      ensures RowsByLane(rows, |distOf|)[s] == Prefix(CountParts(Planned(b, distOf))[s], m)
    {
      ArrangedSlot(b, distOf, sums, rows, m, s);
    }
    forall g | 0 <= g < b.card ensures rows[g] == Prefix(RowParts(Planned(b, distOf))[g], m) {
      ArrangedTotal(b, distOf, g, 0, m);
    }
  }

  lemma {:induction false} ArrangedSlot(b: Bundle, distOf: seq<nat>, sums: seq<int>, rows: seq<int>, m: nat, s: nat)
    requires Bundled(b) && distOf != [] && m <= |b.codes| && forall v :: 0 <= v < |distOf| ==> distOf[v] < |b.cols|
    requires TotalsOf(sums, ColParts(b), m) && TotalsOf(rows, GroupParts(b), m)
    requires forall v :: 0 <= v < |distOf| ==> (distOf[v] + 1) * b.card <= |sums|
    requires s < b.card * |distOf|
    ensures ByLane(sums, b.card, distOf)[s] == Prefix(SumPart(Planned(b, distOf), s), m)
    ensures RowsByLane(rows, |distOf|)[s] == Prefix(CountPart(Planned(b, distOf), s), m)
  {
    SlotRange(s, b.card, |distOf|);
    var g, v := s / |distOf|, s % |distOf|;
    BundleSlots(b.card, distOf, distOf, sums, rows, g, v);
    ArrangedTotal(b, distOf, g, v, m);
    TotalAt(sums, ColParts(b), m, Slot(distOf[v], b.card, g));
    TotalAt(rows, GroupParts(b), m, g);
  }

  lemma {:induction false} TotalAt(final: seq<int>, parts: seq<seq<int>>, m: nat, i: nat)
    requires TotalsOf(final, parts, m) && i < |parts|
    ensures m <= |parts[i]| && final[i] == Prefix(parts[i], m)
  {
  }

  method MergeBundle(state: GroupedState, programs: seq<nat>, kinds: seq<AggKind>, distOf: seq<nat>, sums: seq<int>,
                     rows: seq<int>)
    requires state.Valid() && |programs| == |distOf| && LaneMap(programs, |programs|, state.nprogs)
    requires |kinds| == state.nprogs > 0 && |rows| == state.card
    requires forall v :: 0 <= v < |programs| ==> Summed(kinds[programs[v]])
    requires forall v :: 0 <= v < |distOf| ==> (distOf[v] + 1) * state.card <= |sums|
    modifies state.rows, state.ivalues, state.counts
    ensures forall g :: 0 <= g < state.card ==> state.rows[g] == old(state.rows[g]) + rows[g]
    ensures GainsAdded(old(state.ivalues[..]), state.ivalues[..], ByLane(sums, state.card, distOf), programs, kinds,
                       state.nprogs)
    ensures GainsAdded(old(state.counts[..]), state.counts[..], RowsByLane(rows, |programs|), programs, kinds,
                       state.nprogs)
  {
    for g := 0 to state.card
      invariant forall h :: 0 <= h < g ==> state.rows[h] == old(state.rows[h]) + rows[h]
      invariant forall h :: g <= h < state.card ==> state.rows[h] == old(state.rows[h])
      invariant state.ivalues[..] == old(state.ivalues[..]) && state.counts[..] == old(state.counts[..])
    {
      state.rows[g] := state.rows[g] + rows[g];
    }
    ghost var sumView, rowView := ByLane(sums, state.card, distOf), RowsByLane(rows, |programs|);
    for v := 0 to |programs|
      invariant forall g :: 0 <= g < state.card ==> state.rows[g] == old(state.rows[g]) + rows[g]
      invariant forall i :: 0 <= i < state.ivalues.Length ==>
                  state.ivalues[i] == old(state.ivalues[i]) + Gain(sumView, programs, kinds, state.nprogs, v, i)
      invariant forall i :: 0 <= i < state.counts.Length ==>
                  state.counts[i] == old(state.counts[i]) + Gain(rowView, programs, kinds, state.nprogs, v, i)
    {
      MergeBundleLane(state, v, programs, kinds, distOf, sums, rows);
    }
  }

  const MAX_Q1_DIST: nat := 5

  /** GroupedQ1DedicatedAccumulate, after its layout check: the state gains the fold of the first
      256 tiles' rows, and of no others. */
  method GroupedQ1DedicatedAccumulate(state: GroupedState, b: Bundle, programs: seq<nat>, kinds: seq<AggKind>,
                                      intLane: seq<bool>, distOf: seq<nat>) returns (ok: bool)
    requires state.Valid() && state.card == b.card && (b.card > 0 && |b.cols| > 0 ==> Bundled(b))
    requires |kinds| == |intLane| == state.nprogs && |distOf| == |programs| > 0
    requires LaneMap(programs, |programs|, state.nprogs) &&
             forall v :: 0 <= v < |programs| ==> Summed(kinds[programs[v]])
    modifies state.rows, state.ivalues, state.counts
    ensures ok <==> b.codes != [] && TileShape(kinds, intLane, b.card) && 0 < |b.cols| <= 5 &&
                    b.card < 255 && |b.cols| * b.card <= 512 &&
                    forall v :: 0 <= v < |distOf| ==> distOf[v] < |b.cols|
    ensures !ok ==> state.rows[..] == old(state.rows[..]) && state.ivalues[..] == old(state.ivalues[..]) &&
                    state.counts[..] == old(state.counts[..])
    ensures ok ==> FoldedInto(Planned(b, distOf), Min(|b.codes|, 33_554_432), programs, kinds, state.nprogs,
                              old(state.rows[..]), old(state.ivalues[..]), old(state.counts[..]),
                              state.rows[..], state.ivalues[..], state.counts[..])
  {
    var eligible := ProgramsUseTileKernel(kinds, intLane, b.card);
    if b.codes == [] || !eligible {
      return false;
    }
    if |b.cols| == 0 || |b.cols| > MAX_Q1_DIST || b.card >= 255 || |b.cols| * b.card > MAX_TILE_SLOTS {
      return false;
    }
    if exists v :: 0 <= v < |distOf| && distOf[v] >= |b.cols| {
      return false;
    }
    var n, tiles := |b.codes|, PickQ1Grid(|b.codes|);
    var sumPartials, rowPartials := RunBundleTiles(b, tiles);
    var sums := MergePartials(sumPartials, ColParts(b), |b.cols| * b.card, tiles, n, TILE_ROWS);
    var rows := MergePartials(rowPartials, GroupParts(b), b.card, tiles, n, TILE_ROWS);
    ghost var m, rows0, sums0, counts0 := Min(n, DEDICATED_ROWS), state.rows[..], state.ivalues[..], state.counts[..];
    assert TileStart(n, tiles, TILE_ROWS) == m;
    forall v | 0 <= v < |distOf| ensures (distOf[v] + 1) * b.card <= |sums| {
      MultiplesApart(b.card, distOf[v], |b.cols|);
    }
    MergeBundle(state, programs, kinds, distOf, sums, rows);
    ArrangedTotals(b, distOf, sums, rows, m);
    TotalsFold(Planned(b, distOf), m, programs, kinds, state.nprogs, rows, ByLane(sums, b.card, distOf),
               RowsByLane(rows, |distOf|), rows0, sums0, counts0, state.rows[..], state.ivalues[..], state.counts[..]);
    return true;
  }

  // When the cap matters.

  /** Group g's row count over the rows the kernel reads, against all rows. */
  ghost predicate CountsExact(b: Bundle, distOf: seq<nat>, g: nat)
    requires Bundled(b) && distOf != [] && forall v :: 0 <= v < |distOf| ==> distOf[v] < |b.cols|
  {
    KeyCount(PassingRows(Planned(b, distOf), Min(|b.codes|, 33_554_432)), g) ==
    KeyCount(PassingRows(Planned(b, distOf), |b.codes|), g)
  }

  /** None of rows m to n has code g. */
  ghost predicate NoneBetween(codes: seq<int>, g: nat, m: nat, n: nat)
    requires n <= |codes|
  {
    forall row :: m <= row < n ==> codes[row] != g
  }

  lemma {:induction false} TailCount(b: Bundle, distOf: seq<nat>, g: nat, m: nat, n: nat)
    requires Bundled(b) && distOf != [] && forall v :: 0 <= v < |distOf| ==> distOf[v] < |b.cols|
    requires m <= n <= |b.codes| && g < b.card
    ensures KeyCount(PassingRows(Planned(b, distOf), m), g) <= KeyCount(PassingRows(Planned(b, distOf), n), g)
    ensures KeyCount(PassingRows(Planned(b, distOf), m), g) == KeyCount(PassingRows(Planned(b, distOf), n), g) <==>
            NoneBetween(b.codes, g, m, n)
  {
    if m < n {
      TailCount(b, distOf, g, m, n - 1);
      PassingRowsStep(Planned(b, distOf), g, n);
      assert NoneBetween(b.codes, g, m, n) <==> NoneBetween(b.codes, g, m, n - 1) && b.codes[n - 1] != g;
    }
  }

  /** Rows without code g leave the group's sums and lane counts alone. */
  lemma {:induction false} TailLane(b: Bundle, distOf: seq<nat>, v: nat, g: nat, m: nat, n: nat)
    requires Bundled(b) && distOf != [] && forall v :: 0 <= v < |distOf| ==> distOf[v] < |b.cols|
    requires m <= n <= |b.codes| && g < b.card && v < |distOf| && NoneBetween(b.codes, g, m, n)
    ensures KeySum(LaneRows(Planned(b, distOf), v, m), g) == KeySum(LaneRows(Planned(b, distOf), v, n), g)
    ensures KeyCount(LaneRows(Planned(b, distOf), v, m), g) == KeyCount(LaneRows(Planned(b, distOf), v, n), g)
  {
    TailRows(Planned(b, distOf), v, g, m, n);
  }

  /** Rows of other groups change nothing of group g's. */
  lemma {:induction false} TailRows(plan: Batch, v: nat, g: nat, m: nat, n: nat)
    requires WellFormed(plan) && v < |plan.vals| && m <= n <= |plan.codes| && NoneBetween(plan.codes, g, m, n)
    ensures KeySum(LaneRows(plan, v, m), g) == KeySum(LaneRows(plan, v, n), g)
    ensures KeyCount(LaneRows(plan, v, m), g) == KeyCount(LaneRows(plan, v, n), g)
  {
    if m < n {
      assert NoneBetween(plan.codes, g, m, n - 1) && plan.codes[n - 1] != g;
      TailRows(plan, v, g, m, n - 1);
      LaneRowsStep(plan, v, g, n);
    }
  }

  /** No row past the cap carries the code of a group. */
  ghost predicate TailUngrouped(b: Bundle) {
    forall row :: 33_554_432 <= row < |b.codes| ==> b.codes[row] >= b.card
  }

  lemma {:induction false} TailUngroupedIff(b: Bundle)
    requires b.card > 0
    ensures TailUngrouped(b) <==>
            forall g :: 0 <= g < b.card ==> NoneBetween(b.codes, g, Min(|b.codes|, 33_554_432), |b.codes|)
  {
    var m := Min(|b.codes|, 33_554_432);
    if !TailUngrouped(b) {
      var row :| 33_554_432 <= row < |b.codes| && b.codes[row] < b.card;
      assert !NoneBetween(b.codes, b.codes[row], m, |b.codes|);
    }
  }

  /** Every group is counted right exactly when no row past the cap passes the filter. */
  lemma {:induction false} DedicatedCountsIff(b: Bundle, distOf: seq<nat>)
    requires Bundled(b) && distOf != [] && forall v :: 0 <= v < |distOf| ==> distOf[v] < |b.cols|
    ensures (forall g :: 0 <= g < b.card ==> CountsExact(b, distOf, g)) <==> TailUngrouped(b)
  {
    TailUngroupedIff(b);
    var m := Min(|b.codes|, 33_554_432);
    forall g | 0 <= g < b.card ensures CountsExact(b, distOf, g) <==> NoneBetween(b.codes, g, m, |b.codes|) {
      TailCount(b, distOf, g, m, |b.codes|);
    }
  }

  /** What the kernel leaves, the fold of the rows it reads, is the fold of all rows (row counts, sums
      and lane counts) exactly when no row past the cap passes the filter. */
  lemma {:induction false} DedicatedExactIff(b: Bundle, distOf: seq<nat>, programs: seq<nat>, kinds: seq<AggKind>,
                                             nprogs: nat, rows0: seq<int>, sums0: seq<int>, counts0: seq<int>,
                                             rows1: seq<int>, sums1: seq<int>, counts1: seq<int>)
    requires Bundled(b) && distOf != [] && forall v :: 0 <= v < |distOf| ==> distOf[v] < |b.cols|
    requires LaneMap(programs, |distOf|, nprogs) && |kinds| == nprogs && |rows0| == |rows1| == b.card
    requires |sums0| == |sums1| == |counts0| == |counts1| == b.card * nprogs
    requires FoldedInto(Planned(b, distOf), Min(|b.codes|, 33_554_432), programs, kinds, nprogs,
                        rows0, sums0, counts0, rows1, sums1, counts1)
    ensures TailUngrouped(b) <==>
            FoldedInto(Planned(b, distOf), |b.codes|, programs, kinds, nprogs, rows0, sums0, counts0, rows1, sums1,
                       counts1)
  {
    var m, n, plan := Min(|b.codes|, 33_554_432), |b.codes|, Planned(b, distOf);
    DedicatedCountsIff(b, distOf);
    if TailUngrouped(b) {
      TailUngroupedIff(b);
      forall g, v | 0 <= g < b.card && 0 <= v < |distOf| && Summed(kinds[programs[v]])
        ensures LaneFolded(plan, n, g, v, Slot(g, nprogs, programs[v]), sums0, counts0, sums1, counts1)
      {
        assert LaneFolded(plan, m, g, v, Slot(g, nprogs, programs[v]), sums0, counts0, sums1, counts1);
        TailLane(b, distOf, v, g, m, n);
      }
      forall g | 0 <= g < b.card ensures rows1[g] == rows0[g] + KeyCount(PassingRows(plan, n), g) {
        assert CountsExact(b, distOf, g);
      }
    } else {
      var g :| 0 <= g < b.card && !CountsExact(b, distOf, g);
      assert rows1[g] != rows0[g] + KeyCount(PassingRows(plan, n), g);
    }
  }

  function EqualCodes(n: nat): (b: Bundle)
    ensures Bundled(b) && |b.codes| == n
  {
    Bundle(1, seq(n, _ => 0), [seq(n, _ => 1)])
  }

  /** One row past the cap is enough to lose: a batch of equal codes is undercounted. */
  lemma {:induction false} DedicatedDropsTail(n: nat)
    requires n > 33_554_432
    ensures !CountsExact(EqualCodes(n), [0], 0)
  {
    TailCount(EqualCodes(n), [0], 0, 33_554_432, n);
    assert EqualCodes(n).codes[33_554_432] == 0;
  }
}
