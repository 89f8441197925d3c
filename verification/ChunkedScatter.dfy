/** The chunk-and-flush accumulator: int32 partials on the device, flushed into exact host totals
    before any of them can wrap. */
module ChunkedScatter {
  import opened AbsBound
  import opened Arith
  import opened GroupBy
  import opened Sums
  import opened TileKernel

  const INT32_HALF: int := 0x8000_0000
  const INT32_MAX: nat := 0x7FFF_FFFF
  const FP32_EXACT: nat := 16777216

  datatype Program = Program(kind: AggKind, intLane: bool, int32Rows: bool, fp32Rows: bool, rowAbsBound: nat)

  /** The planner flags a program for int32 rows only when its bound fits. */
  predicate Planned(p: Program) {
    p.int32Rows ==> p.rowAbsBound <= INT32_MAX
  }

  predicate Int32Sum(p: Program) {
    p.intLane && Summed(p.kind) && p.int32Rows
  }

  lemma {:induction false} QuotientBound(limit: nat, bound: nat, chunk: nat)
    requires bound > 0 && chunk <= limit / bound
    ensures chunk * bound <= limit
  {
    assert limit == bound * (limit / bound) + limit % bound;
    NatProductMonotone(chunk, limit / bound, bound);
  }

  /** That many rows of the program stay within its device sum: int32, or the integers fp32 holds exactly. */
  ghost predicate Allows(p: Program, rows: nat) {
    p.intLane && (p.kind == SUM || p.kind == AVG) ==>
      && (p.int32Rows ==> rows * p.rowAbsBound <= 0x7FFF_FFFF)
      && (!p.int32Rows && p.fp32Rows ==> rows * p.rowAbsBound <= 16_777_216)
  }

  ghost predicate AllAllow(programs: seq<Program>, rows: nat) {
    forall p :: 0 <= p < |programs| ==> Allows(programs[p], rows)
  }

  /** GpuScatterChunkRows: few enough rows that no int32 partial can wrap, and no fewer. One row is always taken. */
  method GpuScatterChunkRows(programs: seq<Program>) returns (chunk: nat)
    requires forall p :: 0 <= p < |programs| ==> Planned(programs[p])
    ensures 1 <= chunk <= 2048
    ensures forall p :: 0 <= p < |programs| && Int32Sum(programs[p]) ==> chunk * programs[p].rowAbsBound <= 0x7FFF_FFFF
    ensures chunk > 1 ==> AllAllow(programs, chunk)
    ensures chunk < 2048 ==> !AllAllow(programs, chunk + 1)
  {
    chunk := 2048;
    for i := 0 to |programs|
      invariant 1 <= chunk <= 2048
      invariant chunk > 1 ==> AllAllow(programs[..i], chunk)
      invariant chunk < 2048 ==> !AllAllow(programs[..i], chunk + 1)
    {
      chunk := ShrinkChunk(programs[i], chunk, programs[..i]);
      assert programs[..i + 1] == programs[..i] + [programs[i]];
    }
    assert programs[..|programs|] == programs;
    forall p | 0 <= p < |programs| && Int32Sum(programs[p]) ensures chunk * programs[p].rowAbsBound <= INT32_MAX {
      assert Planned(programs[p]) && (chunk > 1 ==> Allows(programs[p], chunk));
    }
  }

  /** One program's say in the chunk size. */
  method ShrinkChunk(program: Program, chunk0: nat, ghost before: seq<Program>) returns (chunk: nat)
    requires 1 <= chunk0 <= 2048
    requires chunk0 > 1 ==> AllAllow(before, chunk0)
    requires chunk0 < 2048 ==> !AllAllow(before, chunk0 + 1)
    ensures 1 <= chunk <= 2048
    ensures chunk > 1 ==> AllAllow(before + [program], chunk)
    ensures chunk < 2048 ==> !AllAllow(before + [program], chunk + 1)
  {
    chunk := chunk0;
    if program.intLane && Summed(program.kind) && (program.int32Rows || program.fp32Rows) {
      var bound := Max(program.rowAbsBound, 1);
      var limit := if program.int32Rows then INT32_MAX / bound else FP32_EXACT / bound;
      var rows := Max(1, limit);
      chunk := if chunk <= rows then chunk else rows;
      ChunkAllowed(program, chunk, rows);
    }
    Shrunk(before, program, chunk0, chunk);
  }

  /** The rows a program allows: the whole quotient, or one. */
  lemma {:induction false} ChunkAllowed(program: Program, chunk: nat, rows: nat)
    requires program.intLane && Summed(program.kind) && (program.int32Rows || program.fp32Rows)
    requires rows == Max(1, (if program.int32Rows then INT32_MAX else FP32_EXACT) / Max(program.rowAbsBound, 1))
    requires 1 <= chunk <= rows
    ensures chunk > 1 ==> Allows(program, chunk)
    ensures chunk == rows && chunk < 2048 ==> !Allows(program, chunk + 1)
  {
    var limit, bound := if program.int32Rows then INT32_MAX else FP32_EXACT, Max(program.rowAbsBound, 1);
    if chunk > 1 {
      QuotientBound(limit, bound, chunk);
      NatProductMonotone(program.rowAbsBound, bound, chunk);
    }
    if chunk == rows && chunk < 2048 {
      PastQuotient(limit, bound, chunk + 1);
    }
  }

  lemma {:induction false} PastQuotient(limit: nat, bound: nat, rows: nat)
    requires bound > 0 && rows > limit / bound
    ensures rows * bound > limit
  {
    assert limit == (limit / bound) * bound + limit % bound;
    NatProductMonotone(limit / bound + 1, rows, bound);
    assert (limit / bound + 1) * bound == (limit / bound) * bound + bound;
  }

  lemma {:induction false} AllowsLess(p: Program, a: nat, b: nat)
    requires a <= b && Allows(p, b)
    ensures Allows(p, a)
  {
    NatProductMonotone(a, b, p.rowAbsBound);
  }

  lemma {:induction false} Shrunk(before: seq<Program>, program: Program, chunk0: nat, chunk: nat)
    requires chunk <= chunk0 && (chunk0 > 1 ==> AllAllow(before, chunk0))
    requires chunk0 < 2048 ==> !AllAllow(before, chunk0 + 1)
    requires chunk > 1 ==> Allows(program, chunk)
    requires chunk < chunk0 ==> !Allows(program, chunk + 1)
    ensures chunk > 1 ==> AllAllow(before + [program], chunk)
    ensures chunk0 <= 2048 && chunk < 2048 ==> !AllAllow(before + [program], chunk + 1)
  {
    var all := before + [program];
    if chunk > 1 {
      forall p | 0 <= p < |all| ensures Allows(all[p], chunk) {
        if p < |before| {
          AllowsLess(before[p], chunk, chunk0);
        }
      }
    }
    if chunk < chunk0 {
      assert all[|before|] == program;
    } else if chunk < 2048 {
      var p :| 0 <= p < |before| && !Allows(before[p], chunk + 1);
      assert all[p] == before[p];
    }
  }

  // ---- One program's scatter ----

  lemma {:induction false} RangeBound(s: seq<int>, lo: nat, hi: nat, bound: nat)
    requires lo <= hi <= |s| && forall i :: lo <= i < hi ==> Magnitude(s[i]) <= bound
    ensures Magnitude(Prefix(s, hi) - Prefix(s, lo)) <= (hi - lo) * bound
  {
    if lo < hi {
      RangeBound(s, lo, hi - 1, bound);
      assert (hi - lo) * bound == (hi - 1 - lo) * bound + bound;
    }
  }

  ghost predicate LaneBounded(b: Batch, p: nat, bound: nat)
    requires WellFormed(b) && p < |b.vals|
  {
    forall row :: 0 <= row < |b.codes| && b.masks[p][row] ==> Magnitude(b.vals[p][row]) <= bound
  }

  /** What slot s has gathered from rows lo to hi. */
  function Gathered(b: Batch, s: nat, lo: nat, hi: nat): int
    requires WellFormed(b) && s < Slots(b) && lo <= hi <= |b.codes|
  {
    Prefix(SumPart(b, s), hi) - Prefix(SumPart(b, s), lo)
  }

  lemma {:induction false} GatheredBound(b: Batch, s: nat, lo: nat, hi: nat, bound: nat)
    requires WellFormed(b) && s < Slots(b) && lo <= hi <= |b.codes| && s % |b.vals| < |b.vals|
    requires LaneBounded(b, s % |b.vals|, bound)
    ensures Magnitude(Gathered(b, s, lo, hi)) <= (hi - lo) * bound
  {
    RangeBound(SumPart(b, s), lo, hi, bound);
  }

  ghost predicate ProgramPartials(isums: seq<int>, b: Batch, p: nat, lo: nat, hi: nat)
    requires WellFormed(b) && lo <= hi <= |b.codes|
  {
    |isums| == Slots(b) && forall s :: 0 <= s < |isums| && s % |b.vals| == p ==> isums[s] == Gathered(b, s, lo, hi)
  }

  /** One row's update of program p: only its own group's slot moves. */
  lemma {:induction false} RowUpdatesSlot(b: Batch, p: nat, row: nat, g: nat)
    requires WellFormed(b) && row < |b.codes| && p < |b.vals| && Counted(b, row, g) && g < b.card
    ensures Slot(g, |b.vals|, p) < Slots(b) && Slot(g, |b.vals|, p) % |b.vals| == p
    ensures SumPart(b, Slot(g, |b.vals|, p))[row] == if b.masks[p][row] then b.vals[p][row] else 0
    ensures forall s :: 0 <= s < Slots(b) && s % |b.vals| == p && s != Slot(g, |b.vals|, p) ==> SumPart(b, s)[row] == 0
  {
    SlotInverse(g, |b.vals|, p);
    SlotBelow(g, b.card, |b.vals|, p);
    forall s | 0 <= s < Slots(b) && s % |b.vals| == p && s != Slot(g, |b.vals|, p) ensures SumPart(b, s)[row] == 0 {
      SlotRange(s, b.card, |b.vals|);
    }
  }

  lemma {:induction false} RowOutside(b: Batch, row: nat)
    requires WellFormed(b) && row < |b.codes| && !(b.pass[row] && 0 <= b.codes[row] < b.card)
    ensures forall s :: 0 <= s < Slots(b) ==> SumPart(b, s)[row] == 0
  {
    UncountedRowAddsNothing(b, row);
    assert forall s :: 0 <= s < Slots(b) ==> SumParts(b)[s] == SumPart(b, s);
  }

  /** The slot's next partial is exact: it is still within the chunk's bound. */
  lemma {:induction false} UpdateExact(b: Batch, s: nat, lo: nat, row: nat, bound: nat, chunk: nat)
    requires WellFormed(b) && s < Slots(b) && lo <= row < |b.codes| && row < lo + chunk
    requires s % |b.vals| < |b.vals| && LaneBounded(b, s % |b.vals|, bound) && chunk * bound <= INT32_MAX
    ensures Wrap(Gathered(b, s, lo, row) + SumPart(b, s)[row], INT32_HALF) == Gathered(b, s, lo, row + 1)
  {
    GatheredBound(b, s, lo, row + 1, bound);
    NatProductMonotone(row + 1 - lo, chunk, bound);
  }

  /** scatter_add of program p's values into its int32 slots, rows lo to hi. */
  method ScatterProgram(b: Batch, p: nat, lo: nat, hi: nat, isums: array<int>, ghost bound: nat, ghost chunk: nat)
    requires WellFormed(b) && p < |b.vals| && lo <= hi <= |b.codes| && hi <= lo + chunk
    requires LaneBounded(b, p, bound) && chunk * bound <= INT32_MAX
    requires ProgramPartials(isums[..], b, p, lo, lo)
    modifies isums
    ensures ProgramPartials(isums[..], b, p, lo, hi)
    ensures forall s :: 0 <= s < isums.Length && s % |b.vals| != p ==> isums[s] == old(isums[s])
  {
    for row := lo to hi
      invariant ProgramPartials(isums[..], b, p, lo, row)
      invariant forall s :: 0 <= s < isums.Length && s % |b.vals| != p ==> isums[s] == old(isums[s])
    {
      if !(b.pass[row] && 0 <= b.codes[row] < b.card) {
        RowOutside(b, row);
        continue;
      }
      var g := b.codes[row];
      RowUpdatesSlot(b, p, row, g);
      var linear := Slot(g, |b.vals|, p);
      UpdateExact(b, linear, lo, row, bound, chunk);
      var v := if b.masks[p][row] then b.vals[p][row] else 0;
      isums[linear] := Wrap(isums[linear] + v, INT32_HALF);
    }
  }

  // ---- Scatter, flush, and the chunk loop ----

  /** Batch, program list and chunk size fit together: every int32 program's lane stays within its bound. */
  ghost predicate Ready(b: Batch, programs: seq<Program>, chunk: nat) {
    && WellFormed(b) && |programs| == |b.vals| && chunk >= 1
    && (forall p :: 0 <= p < |programs| && Int32Sum(programs[p]) ==> LaneBounded(b, p, programs[p].rowAbsBound))
    && (forall p :: 0 <= p < |programs| && Int32Sum(programs[p]) ==> chunk * programs[p].rowAbsBound <= INT32_MAX)
  }

  predicate InInt32Sum(programs: seq<Program>, s: nat)
    requires |programs| > 0
  {
    SlotProgramInRange(s, |programs|);
    Int32Sum(programs[s % |programs|])
  }

  lemma {:induction false} SlotProgramInRange(s: nat, width: nat)
    requires width > 0
    ensures 0 <= s % width < width
  {
  }

  ghost predicate AllZero(isums: seq<int>) {
    forall s :: 0 <= s < |isums| ==> isums[s] == 0
  }

  /** The partials of the programs below n, for rows lo to hi; all others still zero. */
  ghost predicate PartialsBelow(isums: seq<int>, b: Batch, programs: seq<Program>, n: nat, lo: nat, hi: nat)
    requires WellFormed(b) && |programs| == |b.vals| && lo <= hi <= |b.codes|
  {
    && |isums| == Slots(b)
    && (forall s :: 0 <= s < |isums| ==>
          isums[s] == if s % |b.vals| < n && InInt32Sum(programs, s) then Gathered(b, s, lo, hi) else 0)
  }

  /** GroupedGpuScatter, int32 lanes. */
  method GroupedGpuScatter(b: Batch, programs: seq<Program>, lo: nat, hi: nat, isums: array<int>, ghost chunk: nat)
    requires Ready(b, programs, chunk) && lo <= hi <= |b.codes| && hi <= lo + chunk
    requires isums.Length == Slots(b) && AllZero(isums[..])
    modifies isums
    ensures PartialsBelow(isums[..], b, programs, |programs|, lo, hi)
  {
    for p := 0 to |programs|
      invariant PartialsBelow(isums[..], b, programs, p, lo, hi)
    {
      ghost var before := isums[..];
      if Int32Sum(programs[p]) {
        ScatterProgram(b, p, lo, hi, isums, programs[p].rowAbsBound, chunk);
      }
      NextProgram(before, isums[..], b, programs, p, lo, hi);
    }
    forall s | 0 <= s < isums.Length ensures s % |b.vals| < |programs| {
      SlotProgramInRange(s, |b.vals|);
    }
  }

  lemma {:induction false} NextProgram(before: seq<int>, after: seq<int>, b: Batch, programs: seq<Program>, p: nat,
                                       lo: nat, hi: nat)
    requires WellFormed(b) && p < |programs| == |b.vals| && lo <= hi <= |b.codes|
    requires PartialsBelow(before, b, programs, p, lo, hi) && |after| == |before|
    requires forall s :: 0 <= s < |after| && s % |b.vals| != p ==> after[s] == before[s]
    requires if Int32Sum(programs[p]) then ProgramPartials(after, b, p, lo, hi) else after == before
    ensures PartialsBelow(after, b, programs, p + 1, lo, hi)
  {
  }

  /** GroupedGpuFlushPartials: the partials move into the exact totals and start over from zero. */
  method GroupedGpuFlushPartials(state: GroupedState, programs: seq<Program>, isums: array<int>)
    requires state.Valid() && state.nprogs == |programs| > 0 && isums.Length == state.card * |programs|
    requires isums != state.ivalues && isums != state.rows && isums != state.counts
    modifies state.ivalues, isums
    ensures AllZero(isums[..])
    ensures forall s :: 0 <= s < state.ivalues.Length ==>
              state.ivalues[s] == old(state.ivalues[s]) + if InInt32Sum(programs, s) then old(isums[s]) else 0
  {
    for s := 0 to isums.Length
      invariant isums[..] == old(isums[..])
      invariant forall t :: 0 <= t < s ==>
                  state.ivalues[t] == old(state.ivalues[t]) + if InInt32Sum(programs, t) then isums[t] else 0
      invariant forall t :: s <= t < isums.Length ==> state.ivalues[t] == old(state.ivalues[t])
    {
      if InInt32Sum(programs, s) {
        state.ivalues[s] := state.ivalues[s] + isums[s];
      }
    }
    forall s | 0 <= s < isums.Length {
      isums[s] := 0;
    }
  }

  /** The exact totals after the first n rows of the segment. */
  ghost predicate TotalsAfter(before: seq<int>, now: seq<int>, b: Batch, programs: seq<Program>, n: nat)
    requires WellFormed(b) && |programs| == |b.vals| && n <= |b.codes|
  {
    && |now| == |before| == Slots(b)
    && (forall s :: 0 <= s < |now| ==>
          now[s] == before[s] + if InInt32Sum(programs, s) then Prefix(SumPart(b, s), n) else 0)
  }

  method ScatterChunk(state: GroupedState, b: Batch, programs: seq<Program>, lo: nat, hi: nat, isums: array<int>,
                      ghost before: seq<int>, ghost chunk: nat)
    requires Ready(b, programs, chunk) && lo <= hi <= |b.codes| && hi <= lo + chunk
    requires state.Valid() && state.card == b.card && state.nprogs == |programs|
    requires isums.Length == Slots(b) && AllZero(isums[..])
    requires isums != state.ivalues && isums != state.rows && isums != state.counts
    requires TotalsAfter(before, state.ivalues[..], b, programs, lo)
    modifies state.ivalues, isums
    ensures AllZero(isums[..]) && TotalsAfter(before, state.ivalues[..], b, programs, hi)
  {
    GroupedGpuScatter(b, programs, lo, hi, isums, chunk);
    forall s | 0 <= s < isums.Length && InInt32Sum(programs, s) ensures isums[s] == Gathered(b, s, lo, hi) {
      SlotProgramInRange(s, |b.vals|);
    }
    GroupedGpuFlushPartials(state, programs, isums);
  }

  /** GroupedAccumulateArrays on the device path: chunk, scatter in int32, flush. The totals gain the
      exact grouped sums of every int32 program; the other slots keep what they had. */
  method GroupedAccumulateArrays(state: GroupedState, b: Batch, programs: seq<Program>)
    requires WellFormed(b) && |programs| == |b.vals|
    requires state.Valid() && state.card == b.card && state.nprogs == |programs|
    requires forall p :: 0 <= p < |programs| ==> Planned(programs[p])
    requires forall p :: 0 <= p < |programs| && Int32Sum(programs[p]) ==> LaneBounded(b, p, programs[p].rowAbsBound)
    modifies state.ivalues
    ensures TotalsAfter(old(state.ivalues[..]), state.ivalues[..], b, programs, |b.codes|)
  {
    var chunk := GpuScatterChunkRows(programs);
    var isums := new int[b.card * |programs|](_ => 0);
    ghost var before := state.ivalues[..];
    var n := |b.codes|;
    if chunk >= n {
      ScatterChunk(state, b, programs, 0, n, isums, before, chunk);
      return;
    }
    var off := 0;
    while off < n
      invariant 0 <= off && AllZero(isums[..])
      invariant TotalsAfter(before, state.ivalues[..], b, programs, if off <= n then off else n)
    {
      var end := if off + chunk <= n then off + chunk else n;
      ScatterChunk(state, b, programs, off, end, isums, before, chunk);
      off := off + chunk;
    }
  }

  /** In GROUP BY terms: program p's slot of group g gains that group's exact sum. */
  lemma {:induction false} ChunkedIsGroupBy(before: seq<int>, now: seq<int>, b: Batch, programs: seq<Program>, g: nat,
                                            p: nat)
    requires WellFormed(b) && |programs| == |b.vals| && TotalsAfter(before, now, b, programs, |b.codes|)
    requires g < b.card && p < |programs| && Int32Sum(programs[p])
    ensures Slot(g, |programs|, p) < |now|
    ensures now[Slot(g, |programs|, p)] == before[Slot(g, |programs|, p)] + KeySum(LaneRows(b, p, |b.codes|), g)
  {
    SlotBelow(g, b.card, |programs|, p);
    SlotInverse(g, |programs|, p);
    PartsAreFold(b, g, p, |b.codes|);
    assert InInt32Sum(programs, Slot(g, |programs|, p));
  }
}
