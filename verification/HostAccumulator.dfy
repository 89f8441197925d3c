/** The threaded host accumulator: it equals the sequential fold. Slots are addressed as (program, group). */
module HostAccumulator {
  import opened Arith
  import opened EvalSegments
  import opened Folds
  import opened Postfix
  import opened ZoneMaps

  datatype HostProgram = HostProgram(kind: Kind, vals: seq<int>, mask: Option<seq<bool>>)

  ghost predicate ProgramOk(p: HostProgram, n: nat) {
    |p.vals| == n && (p.mask.Some? ==> |p.mask.value| == n)
  }

  /** What each row contributes to a program's slot of group g. */
  function Contributed(codes: seq<int>, p: HostProgram, g: int): (r: seq<Option<int>>)
    requires ProgramOk(p, |codes|)
    ensures |r| == |codes|
  {
    seq(|codes|, i requires 0 <= i < |codes| =>
      if codes[i] == g && (p.mask.Some? ==> p.mask.value[i]) then Some(p.vals[i]) else None)
  }

  lemma {:induction false} FoldStep(kind: Kind, rows: seq<Option<int>>, lo: nat, i: nat)
    requires lo <= i < |rows|
    ensures Fold(kind, rows[lo..i + 1]) ==
            if rows[i].None? then Fold(kind, rows[lo..i])
            else Result(Combine(kind, Fold(kind, rows[lo..i]).ivalue, rows[i].value), Fold(kind, rows[lo..i]).count + 1)
  {
    assert rows[lo..i + 1][..i - lo] == rows[lo..i];
  }

  /** The slots of one program over rows lo to i. */
  ghost predicate PassHolds(ivalues: seq<int>, counts: seq<int>, codes: seq<int>, p: HostProgram, card: nat, lo: nat,
                            i: nat)
    requires ProgramOk(p, |codes|) && lo <= i <= |codes|
  {
    && |ivalues| >= card && |counts| >= card
    && (forall g :: 0 <= g < card ==> SlotHolds(ivalues[g], counts[g], codes, p, g, lo, i))
  }

  ghost predicate SlotHolds(ivalue: int, count: int, codes: seq<int>, p: HostProgram, g: int, lo: nat, i: nat)
    requires ProgramOk(p, |codes|) && lo <= i <= |codes|
  {
    Fold(p.kind, Contributed(codes, p, g)[lo..i]) == Result(ivalue,
                                                            Fold(p.kind, Contributed(codes, p, g)[lo..i]).count) &&
    count == Fold(p.kind, Contributed(codes, p, g)[lo..i]).count
  }

  /** One row taken into account: group g's slot moves, the others stay. */
  lemma {:induction false} PassAdvances(ivalues0: seq<int>, counts0: seq<int>, ivalues: seq<int>, counts: seq<int>,
                                        codes: seq<int>, p: HostProgram, card: nat, lo: nat, i: nat)
    requires ProgramOk(p, |codes|) && lo <= i < |codes| && PassHolds(ivalues0, counts0, codes, p, card, lo, i)
    requires |ivalues| == |ivalues0| && |counts| == |counts0|
    requires forall g :: 0 <= g < card ==>
               if codes[i] == g && (p.mask.Some? ==> p.mask.value[i])
               then ivalues[g] == Combine(p.kind, ivalues0[g], p.vals[i]) && counts[g] == counts0[g] + 1
               else ivalues[g] == ivalues0[g] && counts[g] == counts0[g]
    ensures PassHolds(ivalues, counts, codes, p, card, lo, i + 1)
  {
    forall g | 0 <= g < card ensures SlotHolds(ivalues[g], counts[g], codes, p, g, lo, i + 1) {
      assert SlotHolds(ivalues0[g], counts0[g], codes, p, g, lo, i);
      FoldStep(p.kind, Contributed(codes, p, g), lo, i);
    }
  }

  lemma {:induction false} PassStarts(ivalues: seq<int>, counts: seq<int>, codes: seq<int>, p: HostProgram, card: nat,
                                      lo: nat)
    requires ProgramOk(p, |codes|) && lo <= |codes| && |ivalues| >= card && |counts| >= card
    requires forall g :: 0 <= g < card ==> ivalues[g] == Neutral(p.kind) && counts[g] == 0
    ensures PassHolds(ivalues, counts, codes, p, card, lo, lo)
  {
    forall g | 0 <= g < card ensures SlotHolds(ivalues[g], counts[g], codes, p, g, lo, lo) {
      assert Contributed(codes, p, g)[lo..lo] == [];
    }
  }

  /** The unmasked sum pass: no branch per row, out-of-range codes go to a dump slot behind the groups. */
  method SumPass(codes: seq<int>, p: HostProgram, card: nat, lo: nat, hi: nat)
    returns (isum: array<int>, cnt: array<int>)
    requires ProgramOk(p, |codes|) && lo <= hi <= |codes| && (p.kind == SUM || p.kind == AVG) && p.mask.None?
    ensures fresh(isum) && fresh(cnt) && PassHolds(isum[..], cnt[..], codes, p, card, lo, hi)
  {
    isum, cnt := new int[card + 1](_ => 0), new int[card + 1](_ => 0);
    PassStarts(isum[..], cnt[..], codes, p, card, lo);
    for i := lo to hi
      invariant PassHolds(isum[..], cnt[..], codes, p, card, lo, i)
    {
      ghost var isum0, cnt0 := isum[..], cnt[..];
      var g := codes[i];
      var slot := if g < 0 || g > card then card else g;
      isum[slot] := isum[slot] + p.vals[i];
      cnt[slot] := cnt[slot] + 1;
      PassAdvances(isum0, cnt0, isum[..], cnt[..], codes, p, card, lo, i);
    }
  }

  /** The other passes: rows out of range or masked are skipped. COUNT leaves the value alone. */
  method MaskedPass(codes: seq<int>, p: HostProgram, card: nat, lo: nat, hi: nat)
    returns (ivalues: array<int>, counts: array<int>)
    requires ProgramOk(p, |codes|) && lo <= hi <= |codes|
    ensures fresh(ivalues) && fresh(counts) && PassHolds(ivalues[..], counts[..], codes, p, card, lo, hi)
  {
    var neutral := Neutral(p.kind);
    ivalues, counts := new int[card](_ => neutral), new int[card](_ => 0);
    PassStarts(ivalues[..], counts[..], codes, p, card, lo);
    for i := lo to hi
      invariant PassHolds(ivalues[..], counts[..], codes, p, card, lo, i)
    {
      ghost var ivalues0, counts0 := ivalues[..], counts[..];
      var g := codes[i];
      if !(g < 0 || g >= card || (p.mask.Some? && !p.mask.value[i])) {
        ivalues[g] := Combine(p.kind, ivalues[g], p.vals[i]);
        counts[g] := counts[g] + 1;
      }
      PassAdvances(ivalues0, counts0, ivalues[..], counts[..], codes, p, card, lo, i);
    }
  }

  /** The reference for rows lo to hi: every group's fold. COUNT(*) slots are never touched. */
  function GroupFolds(codes: seq<int>, p: HostProgram, card: nat, lo: nat, hi: nat): (r: seq<Result>)
    requires ProgramOk(p, |codes|) && lo <= hi <= |codes|
    ensures |r| == card
  {
    seq(card, g requires 0 <= g < card =>
      if p.kind == COUNT_STAR then Result(0, 0) else Fold(p.kind, Contributed(codes, p, g)[lo..hi]))
  }

  /** One worker's pass over one program. */
  method ProgramPass(codes: seq<int>, p: HostProgram, card: nat, lo: nat, hi: nat) returns (slots: seq<Result>)
    requires ProgramOk(p, |codes|) && lo <= hi <= |codes|
    ensures slots == GroupFolds(codes, p, card, lo, hi)
  {
    if p.kind == COUNT_STAR {
      return seq(card, _ => Result(0, 0));
    }
    var ivalues, counts;
    if (p.kind == SUM || p.kind == AVG) && p.mask.None? {
      ivalues, counts := SumPass(codes, p, card, lo, hi);
    } else {
      ivalues, counts := MaskedPass(codes, p, card, lo, hi);
    }
    forall g | 0 <= g < card ensures counts[g] >= 0 && Result(ivalues[g], counts[g]) ==
      GroupFolds(codes, p, card, lo, hi)[g] {
      assert SlotHolds(ivalues[..][g], counts[..][g], codes, p, g, lo, hi);
    }
    ghost var values, totals := ivalues[..], counts[..];
    slots := [];
    for g := 0 to card
      invariant ivalues[..] == values && counts[..] == totals
      invariant slots == GroupFolds(codes, p, card, lo, hi)[..g]
    {
      slots := slots + [Result(ivalues[g], counts[g])];
    }
  }

  // ---- Group rows ----

  function Matches(codes: seq<int>, g: int): (r: seq<Option<int>>)
    ensures |r| == |codes|
  {
    seq(|codes|, i requires 0 <= i < |codes| => if codes[i] == g then Some(0) else None)
  }

  function GroupRows(codes: seq<int>, card: nat, lo: nat, hi: nat): (r: seq<nat>)
    requires lo <= hi <= |codes|
    ensures |r| == card
  {
    seq(card, g requires 0 <= g < card => Fold(COUNT, Matches(codes, g)[lo..hi]).count)
  }

  method RowsPass(codes: seq<int>, card: nat, lo: nat, hi: nat) returns (rows: seq<nat>)
    requires lo <= hi <= |codes|
    ensures rows == GroupRows(codes, card, lo, hi)
  {
    var dump := new nat[card + 1](_ => 0);
    for i := lo to hi
      invariant forall g :: 0 <= g < card ==> dump[g] == Fold(COUNT, Matches(codes, g)[lo..i]).count
    {
      forall g | 0 <= g < card
        ensures Fold(COUNT, Matches(codes, g)[lo..i + 1]).count ==
                Fold(COUNT, Matches(codes, g)[lo..i]).count + if codes[i] == g then 1 else 0
      {
        FoldStep(COUNT, Matches(codes, g), lo, i);
      }
      var g := codes[i];
      var slot := if g < 0 || g > card then card else g;
      dump[slot] := dump[slot] + 1;
    }
    rows := dump[..card];
  }

  // ---- Threads ----

  /** Where thread t's rows start. */
  function Split(n: nat, chunk: nat, t: nat): (b: nat)
    ensures b <= n
  {
    Min(t * chunk, n)
  }

  lemma {:induction false} SplitOrder(n: nat, chunk: nat, t: nat)
    ensures Split(n, chunk, t) <= Split(n, chunk, t + 1)
    ensures Split(n, chunk, t + 1) == Min(Split(n, chunk, t) + chunk, n)
  {
    assert (t + 1) * chunk == t * chunk + chunk;
  }

  lemma {:induction false} SplitsCover(n: nat, threads: nat)
    requires threads > 0
    ensures Split(n, (n + threads - 1) / threads, threads) == n
  {
    var chunk := (n + threads - 1) / threads;
    assert n + threads - 1 == threads * chunk + (n + threads - 1) % threads;
  }

  datatype Local = Local(rows: seq<nat>, slots: seq<seq<Result>>)

  ghost predicate ProgramsOk(codes: seq<int>, programs: seq<HostProgram>) {
    forall p :: 0 <= p < |programs| ==> ProgramOk(programs[p], |codes|)
  }

  /** What one worker leaves for rows lo to hi. */
  ghost predicate LocalIs(local: Local, codes: seq<int>, programs: seq<HostProgram>, card: nat, lo: nat, hi: nat)
    requires ProgramsOk(codes, programs) && lo <= hi <= |codes|
  {
    && local.rows == GroupRows(codes, card, lo, hi)
    && |local.slots| == |programs|
    && (forall p :: 0 <= p < |programs| ==> local.slots[p] == GroupFolds(codes, programs[p], card, lo, hi))
  }

  method RunWorker(codes: seq<int>, programs: seq<HostProgram>, card: nat, lo: nat, hi: nat) returns (local: Local)
    requires ProgramsOk(codes, programs) && lo <= hi <= |codes|
    ensures LocalIs(local, codes, programs, card, lo, hi)
  {
    var rows := RowsPass(codes, card, lo, hi);
    var slots: seq<seq<Result>> := [];
    for p := 0 to |programs|
      invariant |slots| == p
      invariant forall q :: 0 <= q < p ==> slots[q] == GroupFolds(codes, programs[q], card, lo, hi)
    {
      var pass := ProgramPass(codes, programs[p], card, lo, hi);
      slots := slots + [pass];
    }
    local := Local(rows, slots);
  }

  /** The running state: rows per group, and a result per (program, group). */
  class HostState {
    var rows: seq<nat>
    var slots: seq<seq<Result>>

    constructor (rows: seq<nat>, slots: seq<seq<Result>>)
      ensures this.rows == rows && this.slots == slots
    {
      this.rows, this.slots := rows, slots;
    }

    /** Merges one worker's local state. */
    method MergeLocal(local: Local, codes: seq<int>, programs: seq<HostProgram>, card: nat, ghost lo: nat,
                      ghost hi: nat, ghost rows0: seq<nat>, ghost slots0: seq<seq<Result>>)
      requires ProgramsOk(codes, programs) && lo <= hi <= |codes|
      requires LocalIs(local, codes, programs, card, lo, hi)
      requires Accumulated(rows0, slots0, rows, slots, codes, programs, card, lo)
      modifies this
      ensures Accumulated(rows0, slots0, rows, slots, codes, programs, card, hi)
    {
      RowsMerge(rows0, rows, local.rows, codes, card, lo, hi);
      rows := AddRows(rows, local.rows);
      ghost var before := slots;
      var merged: seq<seq<Result>> := [];
      for p := 0 to |programs|
        invariant slots == before && |merged| == p && RowsAccumulated(rows0, rows, codes, card, hi)
        invariant forall q :: 0 <= q < p ==> ProgramAccumulated(slots0[q], merged[q], codes, programs[q], card, hi)
      {
        assert ProgramAccumulated(slots0[p], slots[p], codes, programs[p], card, lo);
        ProgramMerges(slots0[p], slots[p], codes, programs[p], card, lo, hi);
        merged := merged + [MergeSlots(programs[p].kind, slots[p], local.slots[p])];
      }
      slots := merged;
    }
  }

  function AddRows(a: seq<nat>, b: seq<nat>): (r: seq<nat>)
    requires |a| == |b|
    ensures |r| == |a|
  {
    seq(|a|, g requires 0 <= g < |a| => a[g] + b[g])
  }

  function MergeSlots(kind: Kind, a: seq<Result>, b: seq<Result>): (r: seq<Result>)
    requires |a| == |b|
    ensures |r| == |a|
  {
    seq(|a|, g requires 0 <= g < |a| => MergeResults(kind, a[g], b[g]))
  }

  /** The state is what it was, merged with the folds of the first n rows. */
  ghost predicate Accumulated(rows0: seq<nat>, slots0: seq<seq<Result>>, rows: seq<nat>, slots: seq<seq<Result>>,
                              codes: seq<int>, programs: seq<HostProgram>, card: nat, n: nat)
    requires ProgramsOk(codes, programs) && n <= |codes|
  {
    && RowsAccumulated(rows0, rows, codes, card, n)
    && |slots0| == |slots| == |programs|
    && (forall p :: 0 <= p < |programs| ==> ProgramAccumulated(slots0[p], slots[p], codes, programs[p], card, n))
  }

  ghost predicate RowsAccumulated(before: seq<nat>, now: seq<nat>, codes: seq<int>, card: nat, n: nat)
    requires n <= |codes|
  {
    && |before| == |now| == card
    && (forall g :: 0 <= g < card ==> now[g] == before[g] + GroupRows(codes, card, 0, n)[g])
  }

  ghost predicate ProgramAccumulated(before: seq<Result>, now: seq<Result>, codes: seq<int>, p: HostProgram,
                                     card: nat, n: nat)
    requires ProgramOk(p, |codes|) && n <= |codes|
  {
    && |before| == |now| == card
    && (forall g :: 0 <= g < card ==> now[g] == MergeResults(p.kind, before[g], GroupFolds(codes, p, card, 0, n)[g]))
  }

  lemma {:induction false} MergeAssociative(kind: Kind, a: Result, b: Result, c: Result)
    ensures MergeResults(kind, MergeResults(kind, a, b), c) == MergeResults(kind, a, MergeResults(kind, b, c))
  {
  }

  lemma {:induction false} ProgramMerges(before: seq<Result>, now: seq<Result>, codes: seq<int>, p: HostProgram,
                                         card: nat, lo: nat, hi: nat)
    requires ProgramOk(p, |codes|) && lo <= hi <= |codes| && ProgramAccumulated(before, now, codes, p, card, lo)
    ensures ProgramAccumulated(before, MergeSlots(p.kind, now, GroupFolds(codes, p, card, lo, hi)), codes, p, card, hi)
  {
    forall g | 0 <= g < card
      ensures MergeResults(p.kind, now[g], GroupFolds(codes, p, card, lo, hi)[g]) ==
              MergeResults(p.kind, before[g], GroupFolds(codes, p, card, 0, hi)[g])
    {
      var rows := Contributed(codes, p, g);
      assert rows[0..lo] + rows[lo..hi] == rows[0..hi];
      FoldConcat(p.kind, rows[0..lo], rows[lo..hi]);
      MergeAssociative(p.kind, before[g], GroupFolds(codes, p, card, 0, lo)[g], GroupFolds(codes, p, card, lo, hi)[g]);
    }
  }

  lemma {:induction false} RowsMerge(rows0: seq<nat>, rows: seq<nat>, local: seq<nat>, codes: seq<int>, card: nat,
                                     lo: nat, hi: nat)
    requires lo <= hi <= |codes| && local == GroupRows(codes, card, lo, hi)
    requires RowsAccumulated(rows0, rows, codes, card, lo)
    ensures RowsAccumulated(rows0, AddRows(rows, local), codes, card, hi)
  {
    forall g | 0 <= g < card ensures rows[g] + local[g] == rows0[g] + GroupRows(codes, card, 0, hi)[g] {
      var all := Matches(codes, g);
      assert all[0..lo] + all[lo..hi] == all[0..hi];
      FoldConcat(COUNT, all[0..lo], all[lo..hi]);
    }
  }

  method RunWorkers(codes: seq<int>, programs: seq<HostProgram>, card: nat, threads: nat, chunk: nat)
    returns (locals: seq<Local>)
    requires ProgramsOk(codes, programs)
    ensures |locals| == threads && WorkersDone(locals, codes, programs, card, chunk)
  {
    locals := [];
    for t := 0 to threads
      invariant |locals| == t && WorkersDone(locals, codes, programs, card, chunk)
    {
      SplitOrder(|codes|, chunk, t);
      var lo := Min(t * chunk, |codes|);
      var hi := Min(lo + chunk, |codes|);
      var local := RunWorker(codes, programs, card, lo, hi);
      locals := locals + [local];
    }
  }

  ghost predicate WorkersDone(locals: seq<Local>, codes: seq<int>, programs: seq<HostProgram>, card: nat, chunk: nat)
    requires ProgramsOk(codes, programs)
  {
    forall t :: 0 <= t < |locals| ==> WorkerDone(locals[t], codes, programs, card, chunk, t)
  }

  ghost predicate WorkerDone(local: Local, codes: seq<int>, programs: seq<HostProgram>, card: nat, chunk: nat, t: nat)
    requires ProgramsOk(codes, programs)
  {
    && Split(|codes|, chunk, t) <= Split(|codes|, chunk, t + 1)
    && LocalIs(local, codes, programs, card, Split(|codes|, chunk, t), Split(|codes|, chunk, t + 1))
  }

  /** Values the neutral element does not move: what an initialised state holds. */
  ghost predicate Within(kind: Kind, r: Result) {
    (kind == MIN ==> r.ivalue <= INT64_MAX) && (kind == MAX ==> r.ivalue >= INT64_MIN)
  }

  ghost predicate StateOk(slots: seq<seq<Result>>, programs: seq<HostProgram>, card: nat) {
    && |slots| == |programs|
    && (forall p :: 0 <= p < |programs| ==> |slots[p]| == card)
    && (forall p, g :: 0 <= p < |programs| && 0 <= g < card ==> Within(programs[p].kind, slots[p][g]))
  }

  /** The host path of GroupedAccumulateArrays: contiguous chunks, one per thread, merged in order. For
      any thread count the state gains the sequential fold of all rows. */
  method AccumulateOnHost(state: HostState, codes: seq<int>, programs: seq<HostProgram>, card: nat, threads: nat)
    requires threads > 0 && ProgramsOk(codes, programs) && |state.rows| == card && StateOk(state.slots, programs, card)
    modifies state
    ensures Accumulated(old(state.rows), old(state.slots), state.rows, state.slots, codes, programs, card, |codes|)
    ensures StateGained(old(state.rows), old(state.slots), state.rows, state.slots, codes, programs, card)
  {
    var n := |codes|;
    ghost var rows0, slots0 := state.rows, state.slots;
    NothingYet(rows0, slots0, codes, programs, card);
    if n == 0 {
      AccumulatedGains(rows0, slots0, state.rows, state.slots, codes, programs, card);
      return;
    }
    var chunk := (n + threads - 1) / threads;
    SplitsCover(n, threads);
    var locals := RunWorkers(codes, programs, card, threads, chunk);
    for t := 0 to threads
      invariant Accumulated(rows0, slots0, state.rows, state.slots, codes, programs, card, Split(n, chunk, t))
    {
      assert WorkerDone(locals[t], codes, programs, card, chunk, t);
      state.MergeLocal(locals[t], codes, programs, card, Split(n, chunk, t), Split(n, chunk, t + 1), rows0, slots0);
    }
    AccumulatedGains(rows0, slots0, state.rows, state.slots, codes, programs, card);
  }

  // ---- What the state has gained ----

  /** A slot has gained its group's contributing rows. A COUNT(*) has no use for its slot. */
  ghost predicate SlotGained(codes: seq<int>, p: HostProgram, g: int, before: Result, after: Result)
    requires ProgramOk(p, |codes|)
  {
    if p.kind == COUNT_STAR then after == before else Added(p.kind, before, Contributed(codes, p, g), after)
  }

  /** Every group has gained its rows, and every slot its contributing rows. */
  ghost predicate StateGained(rows0: seq<nat>, slots0: seq<seq<Result>>, rows: seq<nat>, slots: seq<seq<Result>>,
                              codes: seq<int>, programs: seq<HostProgram>, card: nat)
    requires ProgramsOk(codes, programs)
  {
    && |rows| == |rows0| == card && (forall g :: 0 <= g < card ==> rows[g] == rows0[g] + multiset(codes)[g])
    && |slots| == |slots0| == |programs|
    && (forall p :: 0 <= p < |programs| ==> ProgramGained(slots0[p], slots[p], codes, programs[p], card))
  }

  ghost predicate ProgramGained(before: seq<Result>, after: seq<Result>, codes: seq<int>, p: HostProgram, card: nat)
    requires ProgramOk(p, |codes|)
  {
    |before| == |after| == card && forall g :: 0 <= g < card ==> SlotGained(codes, p, g, before[g], after[g])
  }

  lemma {:induction false} MatchesCount(codes: seq<int>, g: int)
    ensures Fold(COUNT, Matches(codes, g)).count == multiset(codes)[g]
  {
    if codes != [] {
      var n := |codes| - 1;
      MatchesCount(codes[..n], g);
      assert codes == codes[..n] + [codes[n]];
      assert Matches(codes, g)[..n] == Matches(codes[..n], g);
    }
  }

  lemma {:induction false} AccumulatedGains(rows0: seq<nat>, slots0: seq<seq<Result>>, rows: seq<nat>,
                                            slots: seq<seq<Result>>, codes: seq<int>, programs: seq<HostProgram>,
                                            card: nat)
    requires ProgramsOk(codes, programs)
    requires Accumulated(rows0, slots0, rows, slots, codes, programs, card, |codes|)
    ensures StateGained(rows0, slots0, rows, slots, codes, programs, card)
  {
    RowsGain(rows0, rows, codes, card);
    forall p | 0 <= p < |programs| ensures ProgramGained(slots0[p], slots[p], codes, programs[p], card) {
      assert ProgramAccumulated(slots0[p], slots[p], codes, programs[p], card, |codes|);
      ProgramGains(slots0[p], slots[p], codes, programs[p], card);
    }
  }

  lemma {:induction false} RowsGain(rows0: seq<nat>, rows: seq<nat>, codes: seq<int>, card: nat)
    requires RowsAccumulated(rows0, rows, codes, card, |codes|)
    ensures forall g :: 0 <= g < card ==> rows[g] == rows0[g] + multiset(codes)[g]
  {
    forall g | 0 <= g < card ensures rows[g] == rows0[g] + multiset(codes)[g] {
      MatchesCount(codes, g);
      assert Matches(codes, g)[0..|codes|] == Matches(codes, g);
    }
  }

  lemma {:induction false} ProgramGains(before: seq<Result>, after: seq<Result>, codes: seq<int>, p: HostProgram,
                                        card: nat)
    requires ProgramOk(p, |codes|) && ProgramAccumulated(before, after, codes, p, card, |codes|)
    ensures ProgramGained(before, after, codes, p, card)
  {
    forall g | 0 <= g < card ensures SlotGained(codes, p, g, before[g], after[g]) {
      var rows := Contributed(codes, p, g);
      assert rows[0..|codes|] == rows;
      MergeAdds(p.kind, before[g], rows);
    }
  }

  lemma {:induction false} NothingYet(rows0: seq<nat>, slots0: seq<seq<Result>>, codes: seq<int>,
                                      programs: seq<HostProgram>, card: nat)
    requires ProgramsOk(codes, programs) && |rows0| == card && StateOk(slots0, programs, card)
    ensures Accumulated(rows0, slots0, rows0, slots0, codes, programs, card, 0)
  {
    forall p | 0 <= p < |programs| ensures ProgramAccumulated(slots0[p], slots0[p], codes, programs[p], card, 0) {
      forall g | 0 <= g < card
        ensures slots0[p][g] == MergeResults(programs[p].kind, slots0[p][g],
                                             GroupFolds(codes, programs[p], card, 0, 0)[g])
      {
        assert Contributed(codes, programs[p], g)[0..0] == [];
        assert Within(programs[p].kind, slots0[p][g]);
      }
    }
  }
}
