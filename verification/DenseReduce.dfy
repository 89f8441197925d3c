/** The dense driver: runs of kept segments are concatenated, reduced group by group under a mask, and
    the flat list of outputs is merged into the running state. Sums and counts come out as the fold of
    all rows. The merge leaves the counts of MIN and MAX alone, and what that costs is stated exactly. */
module DenseReduce {
  import opened EvalSegments
  import opened Folds
  import opened HostAccumulator
  import opened Postfix
  import opened SegmentBatches
  import opened ZoneMaps

  // ---- The outputs of one batch: rows lo to hi ----

  /** A group's outputs: [count] or [value, count], nothing for COUNT(*). */
  function GroupOuts(kind: Kind, fold: Result): seq<int> {
    if kind == COUNT_STAR then [] else if kind == COUNT then [fold.count] else [fold.ivalue, fold.count]
  }

  /** A program's outputs, group after group. */
  function ProgramOuts(kind: Kind, folds: seq<Result>): seq<int> {
    if folds == [] then []
    else ProgramOuts(kind, folds[..|folds| - 1]) + GroupOuts(kind, folds[|folds| - 1])
  }

  /** The group row counts, then the outputs of the first n programs. */
  function AllOuts(codes: seq<int>, programs: seq<HostProgram>, card: nat, lo: nat, hi: nat, n: nat): seq<int>
    requires ProgramsOk(codes, programs) && lo <= hi <= |codes| && n <= |programs|
  {
    if n == 0 then GroupRows(codes, card, lo, hi)
    else AllOuts(codes, programs, card, lo, hi, n - 1) +
         ProgramOuts(programs[n - 1].kind, GroupFolds(codes, programs[n - 1], card, lo, hi))
  }

  /** `part` stands in the list at position `at`. */
  ghost predicate StandsAt(outs: seq<int>, at: nat, part: seq<int>) {
    at + |part| <= |outs| && outs[at..at + |part|] == part
  }

  lemma {:induction false} StandsLast(front: seq<int>, part: seq<int>)
    ensures StandsAt(front + part, |front|, part)
  {
  }

  lemma {:induction false} StandsOnward(outs: seq<int>, at: nat, part: seq<int>, more: seq<int>)
    requires StandsAt(outs, at, part)
    ensures StandsAt(outs + more, at, part)
  {
  }

  lemma {:induction false} StandsWithin(outs: seq<int>, at: nat, part: seq<int>, from: nat, inner: seq<int>)
    requires StandsAt(outs, at, part) && StandsAt(part, from, inner)
    ensures StandsAt(outs, at + from, inner)
  {
    assert forall i :: 0 <= i < |part| ==> outs[at + i] == part[i];
  }

  /** Group g's outputs among its program's. */
  lemma {:induction false} GroupStandsAt(kind: Kind, folds: seq<Result>, g: nat)
    requires g < |folds|
    ensures StandsAt(ProgramOuts(kind, folds), |ProgramOuts(kind, folds[..g])|, GroupOuts(kind, folds[g]))
    ensures ProgramOuts(kind, folds[..g + 1]) == ProgramOuts(kind, folds[..g]) + GroupOuts(kind, folds[g])
  {
    var front, last := folds[..|folds| - 1], folds[|folds| - 1];
    assert folds[..g + 1][..g] == folds[..g];
    if g < |front| {
      GroupStandsAt(kind, front, g);
      assert front[..g] == folds[..g] && front[g] == folds[g];
      StandsOnward(ProgramOuts(kind, front), |ProgramOuts(kind, front[..g])|, GroupOuts(kind, front[g]),
                   GroupOuts(kind, last));
    } else {
      StandsLast(ProgramOuts(kind, front), GroupOuts(kind, last));
    }
  }

  lemma {:induction false} GroupInOuts(outs: seq<int>, cursor: nat, kind: Kind, folds: seq<Result>, g: nat)
    requires g < |folds| && StandsAt(outs, cursor, ProgramOuts(kind, folds))
    ensures StandsAt(outs, cursor + |ProgramOuts(kind, folds[..g])|, GroupOuts(kind, folds[g]))
    ensures |ProgramOuts(kind, folds[..g + 1])| == |ProgramOuts(kind, folds[..g])| + |GroupOuts(kind, folds[g])|
  {
    GroupStandsAt(kind, folds, g);
    StandsWithin(outs, cursor, ProgramOuts(kind, folds), |ProgramOuts(kind, folds[..g])|, GroupOuts(kind, folds[g]));
  }

  /** Program p's outputs among all. */
  lemma {:induction false} ProgramStandsAt(codes: seq<int>, programs: seq<HostProgram>, card: nat, lo: nat, hi: nat,
                                           p: nat, n: nat)
    requires ProgramsOk(codes, programs) && lo <= hi <= |codes| && p < n <= |programs|
    ensures StandsAt(AllOuts(codes, programs, card, lo, hi, n), |AllOuts(codes, programs, card, lo, hi, p)|,
                     ProgramOuts(programs[p].kind, GroupFolds(codes, programs[p], card, lo, hi)))
  {
    if p == n - 1 {
      StandsLast(AllOuts(codes, programs, card, lo, hi, p),
                 ProgramOuts(programs[p].kind, GroupFolds(codes, programs[p], card, lo, hi)));
    } else {
      ProgramStandsAt(codes, programs, card, lo, hi, p, n - 1);
      StandsOnward(AllOuts(codes, programs, card, lo, hi, n - 1), |AllOuts(codes, programs, card, lo, hi, p)|,
                   ProgramOuts(programs[p].kind, GroupFolds(codes, programs[p], card, lo, hi)),
                   ProgramOuts(programs[n - 1].kind, GroupFolds(codes, programs[n - 1], card, lo, hi)));
    }
  }

  lemma {:induction false} RowsStandAt(codes: seq<int>, programs: seq<HostProgram>, card: nat, lo: nat, hi: nat, n: nat)
    requires ProgramsOk(codes, programs) && lo <= hi <= |codes| && n <= |programs|
    ensures StandsAt(AllOuts(codes, programs, card, lo, hi, n), 0, GroupRows(codes, card, lo, hi))
  {
    if n > 0 {
      RowsStandAt(codes, programs, card, lo, hi, n - 1);
      StandsOnward(AllOuts(codes, programs, card, lo, hi, n - 1), 0, GroupRows(codes, card, lo, hi),
                   ProgramOuts(programs[n - 1].kind, GroupFolds(codes, programs[n - 1], card, lo, hi)));
    }
  }

  /** One program's masked reductions, group by group. */
  method ReduceProgram(codes: seq<int>, p: HostProgram, card: nat, lo: nat, hi: nat) returns (outs: seq<int>)
    requires ProgramOk(p, |codes|) && lo <= hi <= |codes|
    ensures outs == ProgramOuts(p.kind, GroupFolds(codes, p, card, lo, hi))
  {
    outs := [];
    ghost var folds := GroupFolds(codes, p, card, lo, hi);
    for g := 0 to card
      invariant outs == ProgramOuts(p.kind, folds[..g])
    {
      GroupStandsAt(p.kind, folds, g);
      var value, count := Reduce(p.kind, Contributed(codes, p, g)[lo..hi]);
      outs := outs + if p.kind == COUNT_STAR then [] else if p.kind == COUNT then [count] else [value, count];
    }
    assert folds[..card] == folds;
  }

  /** GroupedDenseGpuReduce. */
  method GroupedDenseGpuReduce(codes: seq<int>, programs: seq<HostProgram>, card: nat, lo: nat, hi: nat)
    returns (outs: seq<int>)
    requires ProgramsOk(codes, programs) && lo <= hi <= |codes|
    ensures outs == AllOuts(codes, programs, card, lo, hi, |programs|)
  {
    outs := ReduceRows(codes, card, lo, hi);
    for p := 0 to |programs|
      invariant outs == AllOuts(codes, programs, card, lo, hi, p)
    {
      var block := ReduceProgram(codes, programs[p], card, lo, hi);
      outs := outs + block;
    }
  }

  method ReduceRows(codes: seq<int>, card: nat, lo: nat, hi: nat) returns (outs: seq<int>)
    requires lo <= hi <= |codes|
    ensures outs == GroupRows(codes, card, lo, hi)
  {
    outs := [];
    for g := 0 to card
      invariant |outs| == g && forall h :: 0 <= h < g ==> outs[h] == GroupRows(codes, card, lo, hi)[h]
    {
      var _, rows := Reduce(COUNT, Matches(codes, g)[lo..hi]);
      outs := outs + [rows];
    }
  }

  // ---- Merging the outputs ----

  /** What the merge makes of a slot: MIN and MAX take the value and keep the count. */
  function DenseMerge(kind: Kind, a: Result, b: Result): Result {
    if kind == COUNT_STAR then a
    else if kind == MIN || kind == MAX then Result(Combine(kind, a.ivalue, b.ivalue), a.count)
    else MergeResults(kind, a, b)
  }

  /** A group none of whose rows contribute leaves the neutral value. */
  lemma {:induction false} NothingFolded(kind: Kind, rows: seq<Option<int>>)
    requires Fold(kind, rows).count == 0
    ensures Fold(kind, rows).ivalue == Neutral(kind)
  {
    if rows != [] {
      NothingFolded(kind, rows[..|rows| - 1]);
    }
  }

  /** Merges one group's outputs. */
  method MergeGroup(kind: Kind, slot0: Result, outs: seq<int>, at: nat, ghost fold: Result)
    returns (slot: Result, next: nat)
    requires StandsAt(outs, at, GroupOuts(kind, fold)) && Within(kind, slot0)
    requires fold.count == 0 ==> fold.ivalue == Neutral(kind)
    ensures slot == DenseMerge(kind, slot0, fold) && Within(kind, slot) && next == at + |GroupOuts(kind, fold)|
  {
    slot, next := slot0, at;
    assert forall i :: 0 <= i < |GroupOuts(kind, fold)| ==> outs[at + i] == GroupOuts(kind, fold)[i];
    if kind == COUNT_STAR {
      return;
    }
    if kind == COUNT {
      slot, next := slot0.(count := slot0.count + outs[at]), at + 1;
    } else if kind == MIN || kind == MAX {
      if outs[at + 1] > 0 {
        slot := slot0.(ivalue := Combine(kind, slot0.ivalue, outs[at]));
      }
      next := at + 2;
    } else {
      slot, next := Result(slot0.ivalue + outs[at], slot0.count + outs[at + 1]), at + 2;
    }
  }

  /** Group g's slot has taken in the fold of rows lo to hi. */
  ghost predicate SlotMerged(p: HostProgram, before: Result, after: Result, fold: Result) {
    after == DenseMerge(p.kind, before, fold) && Within(p.kind, after)
  }

  /** The groups' outputs of one program, from the cursor on. */
  method MergeGroups(kind: Kind, slots0: seq<Result>, outs: seq<int>, cursor: nat, ghost folds: seq<Result>,
                     ghost codes: seq<int>, ghost p: HostProgram, ghost lo: nat, ghost hi: nat)
    returns (slots: seq<Result>, next: nat)
    requires ProgramOk(p, |codes|) && lo <= hi <= |codes| && kind == p.kind && kind != COUNT_STAR
    requires |folds| == |slots0| && forall g :: 0 <= g < |folds| ==> IsGroupFold(folds[g], codes, p, g, lo, hi)
    requires StandsAt(outs, cursor, ProgramOuts(kind, folds))
    requires forall g :: 0 <= g < |slots0| ==> Within(kind, slots0[g])
    ensures |slots| == |slots0| && next == cursor + |ProgramOuts(kind, folds)|
    ensures forall g :: 0 <= g < |slots| ==> SlotMerged(p, slots0[g], slots[g], folds[g])
  {
    slots, next := [], cursor;
    for g := 0 to |slots0|
      invariant |slots| == g && next == cursor + |ProgramOuts(kind, folds[..g])|
      invariant forall h :: 0 <= h < g ==> SlotMerged(p, slots0[h], slots[h], folds[h])
    {
      assert IsGroupFold(folds[g], codes, p, g, lo, hi);
      var slot: Result;
      slot, next := MergeNextGroup(kind, slots0[g], outs, cursor, next, folds, g, codes, p, lo, hi);
      slots := slots + [slot];
    }
    assert folds[..|slots0|] == folds;
  }

  ghost predicate IsGroupFold(fold: Result, codes: seq<int>, p: HostProgram, g: nat, lo: nat, hi: nat)
    requires ProgramOk(p, |codes|) && lo <= hi <= |codes|
  {
    fold == Fold(p.kind, Contributed(codes, p, g)[lo..hi])
  }

  /** Reads one program's outputs from the cursor on. */
  method MergeProgram(kind: Kind, slots0: seq<Result>, outs: seq<int>, cursor: nat, ghost codes: seq<int>,
                      ghost p: HostProgram, ghost lo: nat, ghost hi: nat) returns (slots: seq<Result>, next: nat)
    requires ProgramOk(p, |codes|) && lo <= hi <= |codes| && kind == p.kind
    requires StandsAt(outs, cursor, ProgramOuts(kind, GroupFolds(codes, p, |slots0|, lo, hi)))
    requires forall g :: 0 <= g < |slots0| ==> Within(kind, slots0[g])
    ensures |slots| == |slots0| && next == cursor + |ProgramOuts(kind, GroupFolds(codes, p, |slots0|, lo, hi))|
    ensures forall g :: 0 <= g < |slots| ==> SlotMerged(p, slots0[g], slots[g],
                                                        GroupFolds(codes, p, |slots0|, lo, hi)[g])
  {
    ghost var folds := GroupFolds(codes, p, |slots0|, lo, hi);
    if kind == COUNT_STAR {
      NoOuts(folds);
      slots, next := slots0, cursor;
    } else {
      slots, next := MergeGroups(kind, slots0, outs, cursor, folds, codes, p, lo, hi);
    }
  }

  method MergeNextGroup(kind: Kind, slot0: Result, outs: seq<int>, ghost cursor: nat, at: nat,
                        ghost folds: seq<Result>, g: nat, ghost codes: seq<int>, ghost p: HostProgram, ghost lo: nat,
                        ghost hi: nat) returns (slot: Result, next: nat)
    requires ProgramOk(p, |codes|) && lo <= hi <= |codes| && kind == p.kind && kind != COUNT_STAR && g < |folds|
    requires folds[g] == Fold(kind, Contributed(codes, p, g)[lo..hi]) && Within(kind, slot0)
    requires StandsAt(outs, cursor, ProgramOuts(kind, folds)) && at == cursor + |ProgramOuts(kind, folds[..g])|
    ensures SlotMerged(p, slot0, slot, folds[g]) && next == cursor + |ProgramOuts(kind, folds[..g + 1])|
  {
    GroupInOuts(outs, cursor, kind, folds, g);
    if folds[g].count == 0 {
      NothingFolded(kind, Contributed(codes, p, g)[lo..hi]);
    }
    slot, next := MergeGroup(kind, slot0, outs, at, folds[g]);
  }

  lemma {:induction false} NoOuts(folds: seq<Result>)
    ensures ProgramOuts(COUNT_STAR, folds) == []
  {
    if folds != [] {
      NoOuts(folds[..|folds| - 1]);
    }
  }

  /** The state after the rows below n: like HostAccumulator.Accumulated, but for MIN and MAX counts. */
  ghost predicate Reduced(rows0: seq<nat>, slots0: seq<seq<Result>>, rows: seq<nat>, slots: seq<seq<Result>>,
                          codes: seq<int>, programs: seq<HostProgram>, card: nat, n: nat)
    requires ProgramsOk(codes, programs) && n <= |codes|
  {
    && RowsAccumulated(rows0, rows, codes, card, n)
    && |slots0| == |slots| == |programs|
    && (forall p :: 0 <= p < |programs| ==> ProgramReduced(slots0[p], slots[p], codes, programs[p], card, n))
  }

  ghost predicate ProgramReduced(before: seq<Result>, now: seq<Result>, codes: seq<int>, p: HostProgram, card: nat,
                                 n: nat)
    requires ProgramOk(p, |codes|) && n <= |codes|
  {
    && |before| == |now| == card
    && (forall g {:trigger SlotReduced(before[g], now[g], codes, p, card, n, g)} :: 0 <= g < card ==>
          SlotReduced(before[g], now[g], codes, p, card, n, g))
  }

  ghost predicate SlotReduced(before: Result, now: Result, codes: seq<int>, p: HostProgram, card: nat, n: nat, g: nat)
    requires ProgramOk(p, |codes|) && n <= |codes| && g < card
  {
    now == DenseMerge(p.kind, before, GroupFolds(codes, p, card, 0, n)[g]) && Within(p.kind, now)
  }

  lemma {:induction false} ProgramAdvances(before: seq<Result>, now: seq<Result>, after: seq<Result>, codes: seq<int>,
                                           p: HostProgram, card: nat, lo: nat, hi: nat)
    requires ProgramOk(p, |codes|) && lo <= hi <= |codes| && ProgramReduced(before, now, codes, p, card, lo)
    requires |after| == card
    requires forall g :: 0 <= g < card ==> SlotMerged(p, now[g], after[g], GroupFolds(codes, p, card, lo, hi)[g])
    ensures ProgramReduced(before, after, codes, p, card, hi)
  {
    forall g | 0 <= g < card ensures SlotReduced(before[g], after[g], codes, p, card, hi, g) {
      assert SlotReduced(before[g], now[g], codes, p, card, lo, g);
      assert SlotMerged(p, now[g], after[g], GroupFolds(codes, p, card, lo, hi)[g]);
      var rows := Contributed(codes, p, g);
      assert rows[0..lo] + rows[lo..hi] == rows[0..hi];
      FoldConcat(p.kind, rows[0..lo], rows[lo..hi]);
    }
  }

  /** GroupedDenseGpuReduceMerge: reads the outputs with a running cursor. */
  method GroupedDenseGpuReduceMerge(state: HostState, outs: seq<int>, kinds: seq<Kind>, card: nat,
                                    ghost codes: seq<int>, ghost programs: seq<HostProgram>, ghost lo: nat,
                                    ghost hi: nat, ghost rows0: seq<nat>, ghost slots0: seq<seq<Result>>)
    requires ProgramsOk(codes, programs) && lo <= hi <= |codes|
    requires |kinds| == |programs| && forall p :: 0 <= p < |kinds| ==> kinds[p] == programs[p].kind
    requires outs == AllOuts(codes, programs, card, lo, hi, |programs|)
    requires Reduced(rows0, slots0, state.rows, state.slots, codes, programs, card, lo)
    modifies state
    ensures Reduced(rows0, slots0, state.rows, state.slots, codes, programs, card, hi)
  {
    MergeRows(state, outs, card, codes, programs, lo, hi, rows0);
    var merged := MergePrograms(kinds, state.slots, outs, card, codes, programs, lo, hi, slots0);
    state.slots := merged;
  }

  /** The programs' outputs, one after the other from the cursor on. */
  method MergePrograms(kinds: seq<Kind>, slots: seq<seq<Result>>, outs: seq<int>, card: nat, ghost codes: seq<int>,
                       ghost programs: seq<HostProgram>, ghost lo: nat, ghost hi: nat, ghost slots0: seq<seq<Result>>)
    returns (merged: seq<seq<Result>>)
    requires ProgramsOk(codes, programs) && lo <= hi <= |codes|
    requires |kinds| == |programs| == |slots| == |slots0| &&
             forall p :: 0 <= p < |kinds| ==> kinds[p] == programs[p].kind
    requires outs == AllOuts(codes, programs, card, lo, hi, |programs|)
    requires forall p :: 0 <= p < |programs| ==> ProgramReduced(slots0[p], slots[p], codes, programs[p], card, lo)
    ensures |merged| == |programs|
    ensures forall p :: 0 <= p < |programs| ==> ProgramReduced(slots0[p], merged[p], codes, programs[p], card, hi)
  {
    var cursor := card;
    merged := [];
    for p := 0 to |kinds|
      invariant cursor == |AllOuts(codes, programs, card, lo, hi, p)|
      invariant ReducedUpTo(slots0, merged, codes, programs, card, hi, p)
    {
      ghost var before := merged;
      var next: seq<Result>;
      next, cursor := MergeNext(kinds[p], slots[p], outs, cursor, card, codes, programs, p, lo, hi, slots0[p]);
      merged := merged + [next];
      ReducedOneMore(slots0, before, next, codes, programs, card, hi, p);
    }
  }

  /** The first p programs have taken in the rows below n. */
  ghost predicate ReducedUpTo(slots0: seq<seq<Result>>, merged: seq<seq<Result>>, codes: seq<int>,
                              programs: seq<HostProgram>, card: nat, n: nat, p: nat)
    requires ProgramsOk(codes, programs) && n <= |codes| && p <= |programs| == |slots0|
  {
    |merged| == p && forall q :: 0 <= q < p ==> ProgramReduced(slots0[q], merged[q], codes, programs[q], card, n)
  }

  lemma {:induction false} ReducedOneMore(slots0: seq<seq<Result>>, merged: seq<seq<Result>>, next: seq<Result>,
                                          codes: seq<int>, programs: seq<HostProgram>, card: nat, n: nat, p: nat)
    requires ProgramsOk(codes, programs) && n <= |codes| && p < |programs| == |slots0|
    requires ReducedUpTo(slots0, merged, codes, programs, card, n, p)
    requires ProgramReduced(slots0[p], next, codes, programs[p], card, n)
    ensures ReducedUpTo(slots0, merged + [next], codes, programs, card, n, p + 1)
  {
  }

  method MergeRows(state: HostState, outs: seq<int>, card: nat, ghost codes: seq<int>,
                   ghost programs: seq<HostProgram>, ghost lo: nat, ghost hi: nat, ghost rows0: seq<nat>)
    requires ProgramsOk(codes, programs) && lo <= hi <= |codes|
    requires outs == AllOuts(codes, programs, card, lo, hi, |programs|)
    requires RowsAccumulated(rows0, state.rows, codes, card, lo)
    modifies state`rows
    ensures RowsAccumulated(rows0, state.rows, codes, card, hi)
  {
    RowsStandAt(codes, programs, card, lo, hi, |programs|);
    assert outs[..card] == GroupRows(codes, card, lo, hi);
    var rows: seq<nat> := outs[..card];
    RowsMerge(rows0, state.rows, rows, codes, card, lo, hi);
    state.rows := AddRows(state.rows, rows);
  }

  /** One program of the merge. */
  method MergeNext(kind: Kind, slots: seq<Result>, outs: seq<int>, cursor: nat, card: nat, ghost codes: seq<int>,
                   ghost programs: seq<HostProgram>, ghost p: nat, ghost lo: nat, ghost hi: nat,
                   ghost before: seq<Result>) returns (merged: seq<Result>, next: nat)
    requires ProgramsOk(codes, programs) && lo <= hi <= |codes| && p < |programs| && kind == programs[p].kind
    requires outs == AllOuts(codes, programs, card, lo, hi, |programs|) &&
             cursor == |AllOuts(codes, programs, card, lo, hi, p)|
    requires ProgramReduced(before, slots, codes, programs[p], card, lo)
    ensures ProgramReduced(before, merged, codes, programs[p], card, hi)
    ensures next == |AllOuts(codes, programs, card, lo, hi, p + 1)|
  {
    ProgramStandsAt(codes, programs, card, lo, hi, p, |programs|);
    forall g | 0 <= g < |slots| ensures Within(kind, slots[g]) {
      assert SlotReduced(before[g], slots[g], codes, programs[p], card, lo, g);
    }
    merged, next := MergeProgram(kind, slots, outs, cursor, codes, programs[p], lo, hi);
    ProgramAdvances(before, slots, merged, codes, programs[p], card, lo, hi);
  }

  // ---- The driver ----

  lemma {:induction false} InIndices(lo: nat, hi: nat, s: nat)
    requires lo <= hi
    ensures s in Indices(lo, hi) <==> lo <= s < hi
  {
    if lo < hi {
      InIndices(lo, hi - 1, s);
    }
  }

  ghost predicate InSome(batches: seq<Range>, s: nat) {
    exists b :: 0 <= b < |batches| && batches[b].lo <= s < batches[b].hi
  }

  lemma {:induction false} InBatched(batches: seq<Range>, s: nat)
    requires AllRanges(batches)
    ensures s in Batched(batches) <==> InSome(batches, s)
  {
    if batches != [] {
      var front, last := batches[..|batches| - 1], batches[|batches| - 1];
      InBatched(front, s);
      InIndices(last.lo, last.hi, s);
      InSomeAppend(front, last, s);
      assert batches == front + [last];
    }
  }

  lemma {:induction false} InSomeAppend(front: seq<Range>, last: Range, s: nat)
    ensures InSome(front + [last], s) <==> InSome(front, s) || last.lo <= s < last.hi
  {
    var batches := front + [last];
    if InSome(front, s) {
      var b :| 0 <= b < |front| && front[b].lo <= s < front[b].hi;
      assert batches[b] == front[b];
    }
    assert batches[|front|] == last;
  }

  /** Batches that list segments in ascending order follow one another. */
  lemma {:induction false} BatchesInOrder(batches: seq<Range>)
    requires AllRanges(batches)
    requires forall i, j :: 0 <= i < j < |Batched(batches)| ==> Batched(batches)[i] < Batched(batches)[j]
    ensures forall b, c :: 0 <= b < c < |batches| ==> batches[b].hi <= batches[c].lo
  {
    if batches != [] {
      var n := |batches| - 1;
      var front, last := Batched(batches[..n]), Indices(batches[n].lo, batches[n].hi);
      forall i, j | 0 <= i < j < |front| ensures front[i] < front[j] {
        assert Batched(batches)[i] == front[i] && Batched(batches)[j] == front[j];
      }
      BatchesInOrder(batches[..n]);
      forall b | 0 <= b < n ensures batches[b].hi <= batches[n].lo {
        InBatched(batches[..n], batches[b].hi - 1);
        assert batches[..n][b] == batches[b];
        InIndices(batches[n].lo, batches[n].hi, batches[n].lo);
        var i :| 0 <= i < |front| && front[i] == batches[b].hi - 1;
        var j :| 0 <= j < |last| && last[j] == batches[n].lo;
        assert Batched(batches)[i] == front[i] && Batched(batches)[|front| + j] == last[j];
      }
    }
  }

  lemma {:induction false} KeptAscending(counts: seq<nat>, pruned: seq<bool>)
    requires |counts| == |pruned|
    ensures var kept := KeptSegments(counts, pruned, |counts|);
            forall i, j :: 0 <= i < j < |kept| ==> kept[i] < kept[j]
  {
    if counts != [] {
      KeptOnce(counts, pruned, |counts|, 0);
    }
  }

  /** Segment s's rows are rows Start(s) to Start(s + 1). */
  function Start(counts: seq<nat>, s: nat): nat
    requires s <= |counts|
  {
    SegmentBatches.Rows(counts, 0, s)
  }

  lemma {:induction false} StartMonotone(counts: seq<nat>, s: nat, u: nat)
    requires s <= u <= |counts|
    ensures Start(counts, s) <= Start(counts, u)
  {
    if s < u {
      StartMonotone(counts, s, u - 1);
    }
  }

  /** A pruned segment has no row in any group: the filter rejects them all, and rejected rows carry the
      dump code. */
  ghost predicate PrunedAreDumped(counts: seq<nat>, pruned: seq<bool>, codes: seq<int>, card: nat)
    requires |counts| == |pruned| && Start(counts, |counts|) == |codes|
  {
    forall s :: 0 <= s < |counts| && pruned[s] ==> SegmentDumped(counts, s, codes, card)
  }

  ghost predicate SegmentDumped(counts: seq<nat>, s: nat, codes: seq<int>, card: nat)
    requires s < |counts|
  {
    forall i :: Start(counts, s) <= i < Start(counts, s + 1) && i < |codes| ==> !(0 <= codes[i] < card)
  }

  // ---- Which segments the zone maps prune ----

  /** The zone maps rule the segment out for every predicate that could be parsed. */
  ghost predicate RuledOut(filter: MlxFilter, zoneMaps: seq<seq<ZoneMap>>, s: nat) {
    Infix(filter.ops) && (|filter.ops| == 3 ==> Prunes(TripleOf(filter.ops, 0), s, zoneMaps))
  }

  /** The prune decisions of the driver, segment by segment. */
  method PruneSegments(filter: MlxFilter, zoneMaps: seq<seq<ZoneMap>>, n: nat) returns (pruned: seq<bool>)
    ensures |pruned| == n && forall s :: 0 <= s < n && pruned[s] ==> RuledOut(filter, zoneMaps, s)
    ensures |filter.ops| == 3 ==>
              forall s :: 0 <= s < n ==> (pruned[s] <==> ComparisonPrunes(filter.ops, s, zoneMaps))
  {
    var ok, preds := BuildSegmentPrunePreds(filter.ops);
    if ok {
      TailPredsTyped(filter.ops, 3);
    }
    pruned := [];
    for s := 0 to n
      invariant |pruned| == s && forall t :: 0 <= t < s && pruned[t] ==> RuledOut(filter, zoneMaps, t)
      invariant |filter.ops| == 3 ==>
                  forall t :: 0 <= t < s ==> (pruned[t] <==> ComparisonPrunes(filter.ops, t, zoneMaps))
    {
      var prune := SegmentShouldPrune(s, preds, zoneMaps);
      pruned := pruned + [prune];
    }
  }

  /** A program that counts every row the filter lets through. */
  function EveryRow(): Program { EvalSegments.Program(COUNT_STAR, [], []) }

  /** Rows the filter rejects carry the dump code, segment after segment. */
  ghost predicate RejectedAreDumped(env: Env, segments: seq<Segment>, filter: MlxFilter, counts: seq<nat>,
                                    codes: seq<int>, card: nat)
    requires AllOk(segments) && |counts| == |segments|
  {
    forall k :: 0 <= k < |segments| ==> RowsDumped(env, segments[k], filter, codes, Start(counts, k), card)
  }

  /** The rows of one segment, whose codes stand from `start` on. */
  ghost predicate RowsDumped(env: Env, s: Segment, filter: MlxFilter, codes: seq<int>, start: nat, card: nat)
    requires SegmentOk(s)
  {
    forall i :: 0 <= i < s.count && !Passes(env, s, filter, EveryRow(), i) ==> start + i < |codes| ==>
        codes[start + i] == card
  }

  lemma {:induction false} DumpedSegment(env: Env, segment: Segment, filter: MlxFilter, counts: seq<nat>, s: nat,
                                         codes: seq<int>, card: nat)
    requires SegmentOk(segment) && s < |counts| && counts[s] == segment.count
    requires RowsDumped(env, segment, filter, codes, Start(counts, s), card)
    requires forall i :: 0 <= i < segment.count ==> !Passes(env, segment, filter, EveryRow(), i)
    ensures SegmentDumped(counts, s, codes, card)
  {
    forall r | Start(counts, s) <= r < Start(counts, s + 1) && r < |codes| ensures !(0 <= codes[r] < card) {
      var i := r - Start(counts, s);
      assert !Passes(env, segment, filter, EveryRow(), i);
      assert codes[Start(counts, s) + i] == card;
    }
  }

  /** What the zone maps prune holds only rejected rows, whatever the prune pattern they give. */
  lemma {:induction false} ZoneMapsPruneDumped(env: Env, segments: seq<Segment>, filter: MlxFilter,
                                               zoneMaps: seq<seq<ZoneMap>>, counts: seq<nat>, pruned: seq<bool>,
                                               codes: seq<int>, card: nat)
    requires Evaluable(env, segments, filter, [EveryRow()]) && ZonesCover(zoneMaps, segments) && NullColsCover(filter)
    requires |counts| == |segments| == |pruned| && Start(counts, |counts|) == |codes|
    requires forall s :: 0 <= s < |segments| ==> counts[s] == segments[s].count
    requires forall s :: 0 <= s < |segments| && pruned[s] ==> RuledOut(filter, zoneMaps, s)
    requires RejectedAreDumped(env, segments, filter, counts, codes, card)
    ensures PrunedAreDumped(counts, pruned, codes, card)
  {
    forall s | 0 <= s < |counts| && pruned[s] ensures SegmentDumped(counts, s, codes, card) {
      if counts[s] > 0 {
        PrunedSegmentIsEmpty(env, segments, filter, [EveryRow()], zoneMaps, s, 0);
        assert RowsDumped(env, segments[s], filter, codes, Start(counts, s), card);
        assert [EveryRow()][0] == EveryRow();
        DumpedSegment(env, segments[s], filter, counts, s, codes, card);
      }
    }
  }

  /** Rows outside every group change nothing. */
  lemma {:induction false} DumpedRowsAddNothing(rows0: seq<nat>, slots0: seq<seq<Result>>, rows: seq<nat>,
                                                slots: seq<seq<Result>>, codes: seq<int>, programs: seq<HostProgram>,
                                                card: nat, lo: nat, hi: nat)
    requires ProgramsOk(codes, programs) && lo <= hi <= |codes| &&
             Reduced(rows0, slots0, rows, slots, codes, programs, card, lo)
    requires forall i :: lo <= i < hi ==> !(0 <= codes[i] < card)
    ensures Reduced(rows0, slots0, rows, slots, codes, programs, card, hi)
  {
    forall g | 0 <= g < card ensures GroupRows(codes, card, 0, hi)[g] == GroupRows(codes, card, 0, lo)[g] {
      DumpedFold(COUNT, Matches(codes, g), lo, hi);
    }
    forall p | 0 <= p < |programs| ensures ProgramReduced(slots0[p], slots[p], codes, programs[p], card, hi) {
      assert ProgramReduced(slots0[p], slots[p], codes, programs[p], card, lo);
      forall g | 0 <= g < card ensures SlotReduced(slots0[p][g], slots[p][g], codes, programs[p], card, hi, g) {
        assert SlotReduced(slots0[p][g], slots[p][g], codes, programs[p], card, lo, g);
        DumpedFold(programs[p].kind, Contributed(codes, programs[p], g), lo, hi);
      }
    }
  }

  lemma {:induction false} DumpedFold(kind: Kind, rows: seq<Option<int>>, lo: nat, hi: nat)
    requires lo <= hi <= |rows| && forall i :: lo <= i < hi ==> rows[i].None?
    ensures Fold(kind, rows[0..hi]) == Fold(kind, rows[0..lo])
  {
    if lo < hi {
      DumpedFold(kind, rows, lo, hi - 1);
      FoldStep(kind, rows, 0, hi - 1);
    }
  }

  /** The cached dense driver: whatever is pruned and wherever the batches end, the state gains the fold of
      all rows. */
  method AccumulateCached(state: HostState, counts: seq<nat>, pruned: seq<bool>, codes: seq<int>,
                          programs: seq<HostProgram>, card: nat)
    requires ProgramsOk(codes, programs) && |counts| == |pruned| && Start(counts, |counts|) == |codes|
    requires PrunedAreDumped(counts, pruned, codes, card)
    requires |state.rows| == card && StateOk(state.slots, programs, card)
    modifies state
    ensures Reduced(old(state.rows), old(state.slots), state.rows, state.slots, codes, programs, card, |codes|)
    ensures DenseGained(old(state.rows), old(state.slots), state.rows, state.slots, codes, programs, card)
  {
    ghost var rows0, slots0 := state.rows, state.slots;
    NothingReduced(rows0, slots0, codes, programs, card);
    var batches := BatchSegments(counts, pruned);
    KeptAscending(counts, pruned);
    BatchesInOrder(batches);
    var kinds := seq(|programs|, p requires 0 <= p < |programs| => programs[p].kind);
    ghost var pos: nat := 0;
    for b := 0 to |batches|
      invariant pos <= |counts| && Start(counts, pos) <= |codes|
      invariant pos == if b == 0 then 0 else batches[b - 1].hi
      invariant Reduced(rows0, slots0, state.rows, state.slots, codes, programs, card, Start(counts, pos))
    {
      var batch := batches[b];
      SkipGap(rows0, slots0, state.rows, state.slots, counts, pruned, codes, programs, card, batches, b, pos, batch.lo);
      StartMonotone(counts, batch.lo, batch.hi);
      StartMonotone(counts, batch.hi, |counts|);
      var outs := GroupedDenseGpuReduce(codes, programs, card, Start(counts, batch.lo), Start(counts, batch.hi));
      GroupedDenseGpuReduceMerge(state, outs, kinds, card, codes, programs, Start(counts, batch.lo),
                                 Start(counts, batch.hi), rows0, slots0);
      pos := batch.hi;
    }
    SkipGap(rows0, slots0, state.rows, state.slots, counts, pruned, codes, programs, card, batches, |batches|, pos,
            |counts|);
    ReducedGains(rows0, slots0, state.rows, state.slots, codes, programs, card);
  }

  /** A slot has gained its group's contributing rows, except that MIN and MAX keep their count. */
  ghost predicate DenseSlotGained(codes: seq<int>, p: HostProgram, g: int, before: Result, after: Result)
    requires ProgramOk(p, |codes|)
  {
    if p.kind == MIN || p.kind == MAX then
      && after.count == before.count
      && Added(p.kind, before, Contributed(codes, p, g),
               Result(after.ivalue, before.count + |ValuesOf(Contributed(codes, p, g))|))
    else SlotGained(codes, p, g, before, after)
  }

  ghost predicate DenseProgramGained(before: seq<Result>, after: seq<Result>, codes: seq<int>, p: HostProgram,
                                     card: nat)
    requires ProgramOk(p, |codes|)
  {
    |before| == |after| == card && forall g :: 0 <= g < card ==> DenseSlotGained(codes, p, g, before[g], after[g])
  }

  ghost predicate DenseGained(rows0: seq<nat>, slots0: seq<seq<Result>>, rows: seq<nat>, slots: seq<seq<Result>>,
                              codes: seq<int>, programs: seq<HostProgram>, card: nat)
    requires ProgramsOk(codes, programs)
  {
    && |rows| == |rows0| == card && (forall g :: 0 <= g < card ==> rows[g] == rows0[g] + multiset(codes)[g])
    && |slots| == |slots0| == |programs|
    && (forall p :: 0 <= p < |programs| ==> DenseProgramGained(slots0[p], slots[p], codes, programs[p], card))
  }

  lemma {:induction false} ReducedGains(rows0: seq<nat>, slots0: seq<seq<Result>>, rows: seq<nat>,
                                        slots: seq<seq<Result>>, codes: seq<int>, programs: seq<HostProgram>,
                                        card: nat)
    requires ProgramsOk(codes, programs)
    requires Reduced(rows0, slots0, rows, slots, codes, programs, card, |codes|)
    ensures DenseGained(rows0, slots0, rows, slots, codes, programs, card)
  {
    RowsGain(rows0, rows, codes, card);
    forall p | 0 <= p < |programs| ensures DenseProgramGained(slots0[p], slots[p], codes, programs[p], card) {
      assert ProgramReduced(slots0[p], slots[p], codes, programs[p], card, |codes|);
      forall g | 0 <= g < card ensures DenseSlotGained(codes, programs[p], g, slots0[p][g], slots[p][g]) {
        SlotReducedGains(slots0[p][g], slots[p][g], codes, programs[p], card, g);
      }
    }
  }

  lemma {:induction false} SlotReducedGains(before: Result, after: Result, codes: seq<int>, p: HostProgram, card: nat,
                                            g: nat)
    requires ProgramOk(p, |codes|) && g < card && SlotReduced(before, after, codes, p, card, |codes|, g)
    ensures DenseSlotGained(codes, p, g, before, after)
  {
    var rows := Contributed(codes, p, g);
    assert rows[0..|codes|] == rows;
    MergeAdds(p.kind, before, rows);
    FoldAggregates(p.kind, rows);
  }

  /** Between two batches, before the first and after the last, there are only empty and pruned segments. */
  lemma {:induction false} SkipGap(rows0: seq<nat>, slots0: seq<seq<Result>>, rows: seq<nat>, slots: seq<seq<Result>>,
                                   counts: seq<nat>, pruned: seq<bool>, codes: seq<int>, programs: seq<HostProgram>,
                                   card: nat, batches: seq<Range>, b: nat, pos: nat, to: nat)
    requires ProgramsOk(codes, programs) && |counts| == |pruned| && Start(counts, |counts|) == |codes|
    requires PrunedAreDumped(counts, pruned, codes, card)
    requires AllRanges(batches) && Batched(batches) == KeptSegments(counts, pruned, |counts|)
    requires forall c, d :: 0 <= c < d < |batches| ==> batches[c].hi <= batches[d].lo
    requires b <= |batches| && pos == (if b == 0 then 0 else batches[b - 1].hi)
    requires pos <= |counts| && Start(counts, pos) <= |codes| &&
             to == (if b < |batches| then batches[b].lo else |counts|) <= |counts|
    requires Reduced(rows0, slots0, rows, slots, codes, programs, card, Start(counts, pos))
    ensures pos <= to && Start(counts, to) <= |codes|
    ensures Reduced(rows0, slots0, rows, slots, codes, programs, card, Start(counts, to))
  {
    for s := pos to to
      invariant Start(counts, s) <= |codes|
      invariant Reduced(rows0, slots0, rows, slots, codes, programs, card, Start(counts, s))
    {
      GapNotKept(counts, pruned, batches, b, pos, to, s);
      StartMonotone(counts, s + 1, |counts|);
      if pruned[s] {
        assert SegmentDumped(counts, s, codes, card);
      }
      DumpedRowsAddNothing(rows0, slots0, rows, slots, codes, programs, card, Start(counts, s), Start(counts, s + 1));
    }
    StartMonotone(counts, to, |counts|);
  }

  lemma {:induction false} GapNotKept(counts: seq<nat>, pruned: seq<bool>, batches: seq<Range>, b: nat, pos: nat,
                                      to: nat, s: nat)
    requires |counts| == |pruned| && AllRanges(batches) && Batched(batches) == KeptSegments(counts, pruned, |counts|)
    requires forall c, d :: 0 <= c < d < |batches| ==> batches[c].hi <= batches[d].lo
    requires b <= |batches| && pos == (if b == 0 then 0 else batches[b - 1].hi)
    requires to == (if b < |batches| then batches[b].lo else |counts|) && pos <= s < to <= |counts|
    ensures !Kept(counts, pruned, s)
  {
    KeptOnce(counts, pruned, |counts|, s);
    InBatched(batches, s);
    forall c | 0 <= c < |batches| ensures !(batches[c].lo <= s < batches[c].hi) {
      assert c < b - 1 ==> batches[c].hi <= batches[b - 1].lo;
      assert b < c ==> batches[b].hi <= batches[c].lo;
    }
  }

  lemma {:induction false} NothingReduced(rows0: seq<nat>, slots0: seq<seq<Result>>, codes: seq<int>,
                                          programs: seq<HostProgram>, card: nat)
    requires ProgramsOk(codes, programs) && |rows0| == card && StateOk(slots0, programs, card)
    ensures Reduced(rows0, slots0, rows0, slots0, codes, programs, card, 0)
  {
    forall p | 0 <= p < |programs| ensures ProgramReduced(slots0[p], slots0[p], codes, programs[p], card, 0) {
      forall g | 0 <= g < card ensures SlotReduced(slots0[p][g], slots0[p][g], codes, programs[p], card, 0, g) {
        assert Contributed(codes, programs[p], g)[0..0] == [];
        assert Within(programs[p].kind, slots0[p][g]);
      }
    }
  }

  // ---- What the missing counts cost ----

  /** What the operator emits for a slot: a COUNT's count, and of the others the value, or NULL where nothing
      was counted. */
  function Emitted(kind: Kind, r: Result): Option<int> {
    if kind == COUNT then Some(r.count) else if r.count == 0 then None else Some(r.ivalue)
  }

  /** From a fresh state, a MIN or MAX is emitted as the fold would be exactly when the group has no
      contributing row: otherwise it comes out NULL. Every other kind is emitted right. */
  lemma {:induction false} EmittedRightIff(kind: Kind, rows: seq<Option<int>>)
    requires kind != COUNT_STAR
    ensures Emitted(kind, DenseMerge(kind, Result(Neutral(kind), 0), Fold(kind, rows))) ==
            Emitted(kind, Fold(kind, rows)) <==>
            (kind != MIN && kind != MAX) || forall i :: 0 <= i < |rows| ==> rows[i].None?
  {
    CountZeroIff(kind, rows);
  }

  lemma {:induction false} CountZeroIff(kind: Kind, rows: seq<Option<int>>)
    ensures Fold(kind, rows).count == 0 <==> forall i :: 0 <= i < |rows| ==> rows[i].None?
  {
    if rows != [] {
      CountZeroIff(kind, rows[..|rows| - 1]);
    }
  }

  /** Where MIN and MAX are not asked for, the dense driver and the host path leave the same state. */
  lemma {:induction false} AgreesWithHost(rows0: seq<nat>, slots0: seq<seq<Result>>, rows: seq<nat>,
                                          slots: seq<seq<Result>>, codes: seq<int>, programs: seq<HostProgram>,
                                          card: nat, n: nat)
    requires ProgramsOk(codes, programs) && n <= |codes| &&
             Reduced(rows0, slots0, rows, slots, codes, programs, card, n)
    requires forall p :: 0 <= p < |programs| ==> programs[p].kind != MIN && programs[p].kind != MAX
    ensures Accumulated(rows0, slots0, rows, slots, codes, programs, card, n)
  {
    forall p | 0 <= p < |programs| ensures ProgramAccumulated(slots0[p], slots[p], codes, programs[p], card, n) {
      assert ProgramReduced(slots0[p], slots[p], codes, programs[p], card, n);
      forall g | 0 <= g < card
        ensures slots[p][g] == MergeResults(programs[p].kind, slots0[p][g],
                                            GroupFolds(codes, programs[p], card, 0, n)[g])
      {
        assert SlotReduced(slots0[p][g], slots[p][g], codes, programs[p], card, n, g);
      }
    }
  }
}
