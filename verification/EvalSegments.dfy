/** Evaluating aggregates segment by segment: pruned or not, split anywhere, the results are one fold
    over all rows. Int-lane programs; the final division of AVG is left to the caller. */
module EvalSegments {
  import opened FilterAssembly
  import opened Folds
  import opened Postfix
  import opened ZoneMaps

  datatype Program = Program(kind: Kind, ops: seq<Op>, nullCols: seq<nat>)

  datatype MlxFilter = MlxFilter(ops: seq<Op>, nullCols: seq<nat>)

  // ---- Rows of a segment ----

  function RowEnv(env: Env, s: Segment, i: nat): Env
    requires forall c :: 0 <= c < |s.cols| ==> i < |s.cols[c]|
  {
    env.(row := (c: nat) => if c < |s.cols| then s.cols[c][i] else Bool(false))
  }

  /** The filter's code, if any, yields a truth value, and every int program an integer, on every row. */
  ghost predicate Runs(env: Env, s: Segment, filter: MlxFilter, programs: seq<Program>)
    requires SegmentOk(s)
  {
    && (forall i :: 0 <= i < s.count ==>
          (filter.ops != [] ==> WellFormedCode(RowEnv(env, s, i), filter.ops) && FilterValue(env, s, filter, i).Bool?))
    && (forall c :: c in filter.nullCols ==> c < |s.valids|)
    && (forall p :: 0 <= p < |programs| ==> ProgramRuns(env, s, programs[p]))
  }

  ghost predicate ProgramRuns(env: Env, s: Segment, program: Program)
    requires SegmentOk(s)
  {
    && (forall c :: c in program.nullCols ==> c < |s.valids|)
    && (HasValueGraph(program.kind) ==> forall i :: 0 <= i < s.count ==> RowRuns(env, s, program, i))
  }

  ghost predicate RowRuns(env: Env, s: Segment, program: Program, i: nat)
    requires SegmentOk(s) && i < s.count
  {
    WellFormedCode(RowEnv(env, s, i), program.ops) && Run(RowEnv(env, s, i), program.ops, []).value[0].Int?
  }

  function FilterValue(env: Env, s: Segment, filter: MlxFilter, i: nat): Value
    requires SegmentOk(s) && i < s.count
  {
    match Run(RowEnv(env, s, i), filter.ops, [])
    case None => Bool(false)
    case Some(stack) => if stack == [] then Bool(false) else stack[|stack| - 1]
  }

  function RowValue(env: Env, s: Segment, program: Program, i: nat): int
    requires SegmentOk(s) && i < s.count
  {
    match Run(RowEnv(env, s, i), program.ops, [])
    case None => 0
    case Some(stack) => if stack == [] || !stack[|stack| - 1].Int? then 0 else stack[|stack| - 1].i
  }

  predicate ColumnsPresent(s: Segment, cols: seq<nat>, i: nat)
    requires SegmentOk(s) && i < s.count
  {
    forall c :: c in cols ==> c < |s.valids| && Present(s, c, i)
  }

  /** Whether row i counts for a program: the filter holds and no referenced column is NULL. */
  predicate Passes(env: Env, s: Segment, filter: MlxFilter, program: Program, i: nat)
    requires SegmentOk(s) && i < s.count
  {
    && (filter.ops != [] ==> FilterValue(env, s, filter, i) == Bool(true))
    && ColumnsPresent(s, filter.nullCols, i)
    && ColumnsPresent(s, program.nullCols, i)
  }

  /** What each row of the segment contributes to a program: its value, or nothing. */
  function Contributions(env: Env, s: Segment, filter: MlxFilter, program: Program): (r: seq<Option<int>>)
    requires SegmentOk(s)
    ensures |r| == s.count
  {
    seq(s.count, i requires 0 <= i < s.count =>
      if Passes(env, s, filter, program, i) then Some(RowValue(env, s, program, i)) else None)
  }

  // ---- One segment's outputs ----

  /** Whether a program needs a row mask in this segment. */
  predicate SegmentHasMask(s: Segment, filter: MlxFilter, program: Program) {
    filter.ops != [] || AnyMasked(s, filter.nullCols) || AnyMasked(s, program.nullCols)
  }

  predicate AnyMasked(s: Segment, cols: seq<nat>) {
    exists c :: c in cols && c < |s.valids| && s.valids[c].Some?
  }

  /** mx::sum, min or max of the masked values, and of the mask itself. */
  method Reduce(kind: Kind, rows: seq<Option<int>>) returns (value: int, count: nat)
    ensures HasValueGraph(kind) ==> value == Fold(kind, rows).ivalue
    ensures count == Fold(kind, rows).count
  {
    value, count := Neutral(kind), 0;
    for i := 0 to |rows|
      invariant value == Fold(kind, rows[..i]).ivalue && count == Fold(kind, rows[..i]).count
    {
      assert rows[..i + 1][..i] == rows[..i];
      if rows[i].Some? {
        value, count := Combine(kind, value, rows[i].value), count + 1;
      }
    }
    assert rows[..|rows|] == rows;
  }

  /** How many outputs a program has in a segment: [value?][count?]. */
  function Width(s: Segment, filter: MlxFilter, program: Program): nat {
    (if HasValueGraph(program.kind) then 1 else 0) + (if SegmentHasMask(s, filter, program) then 1 else 0)
  }

  ghost predicate ColsKnown(s: Segment, filter: MlxFilter, programs: seq<Program>) {
    && (forall c :: c in filter.nullCols ==> c < |s.valids|)
    && (forall p, c :: 0 <= p < |programs| && c in programs[p].nullCols ==> c < |s.valids|)
  }

  /** Where program p's outputs start. */
  function Cursor(s: Segment, filter: MlxFilter, programs: seq<Program>, p: nat): nat
    requires p <= |programs| && ColsKnown(s, filter, programs)
  {
    if p == 0 then 0 else Cursor(s, filter, programs, p - 1) + Width(s, filter, programs[p - 1])
  }

  /** Program p's outputs stand at its cursor: its fold's value, then its count if it is masked. */
  ghost predicate OutputsAt(env: Env, s: Segment, filter: MlxFilter, programs: seq<Program>, outs: seq<int>, p: nat)
    requires p < |programs| && SegmentOk(s) && ColsKnown(s, filter, programs)
  {
    var at, program := Cursor(s, filter, programs, p), programs[p];
    var fold := Fold(program.kind, Contributions(env, s, filter, program));
    && at + Width(s, filter, program) <= |outs|
    && (HasValueGraph(program.kind) ==> outs[at] == fold.ivalue)
    && (SegmentHasMask(s, filter, program) ==> outs[at + if HasValueGraph(program.kind) then 1 else 0] == fold.count)
  }

  /** NullMask: whether every listed column is present in row i. */
  method RowPresent(s: Segment, cols: seq<nat>, i: nat) returns (present: bool)
    requires SegmentOk(s) && i < s.count
    ensures present <==> ColumnsPresent(s, cols, i)
  {
    for j := 0 to |cols|
      invariant forall h :: 0 <= h < j ==> cols[h] < |s.valids| && Present(s, cols[h], i)
    {
      if cols[j] >= |s.valids| || !Present(s, cols[j], i) {
        assert cols[j] in cols;
        return false;
      }
    }
    present := true;
  }

  /** One row of a program's graph: the filter's mask, the null masks and, where there is one, the value. */
  method EvalRow(env: Env, s: Segment, filter: MlxFilter, program: Program, i: nat) returns (row: Option<int>)
    requires SegmentOk(s) && Runs(env, s, filter, [program]) && i < s.count
    ensures SameContribution(program.kind, row, Contributions(env, s, filter, program)[i])
  {
    assert ProgramRuns(env, s, [program][0]);
    if filter.ops != [] {
      var truth := EvalOps(RowEnv(env, s, i), filter.ops);
      if truth != Bool(true) {
        return None;
      }
    }
    var kept := RowPresent(s, filter.nullCols, i);
    var present := RowPresent(s, program.nullCols, i);
    if !kept || !present {
      return None;
    }
    if !HasValueGraph(program.kind) {
      return Some(0);
    }
    assert RowRuns(env, s, program, i);
    var value := EvalOps(RowEnv(env, s, i), program.ops);
    row := Some(value.i);
  }

  /** A count needs to know only whether the row counts. */
  ghost predicate SameContribution(kind: Kind, a: Option<int>, b: Option<int>) {
    (a.Some? <==> b.Some?) && (HasValueGraph(kind) ==> a == b)
  }

  lemma {:induction false} SameFold(kind: Kind, a: seq<Option<int>>, b: seq<Option<int>>)
    requires |a| == |b| && forall i :: 0 <= i < |a| ==> SameContribution(kind, a[i], b[i])
    ensures Fold(kind, a) == Fold(kind, b)
  {
    if a != [] {
      var n := |a| - 1;
      SameFold(kind, a[..n], b[..n]);
      assert SameContribution(kind, a[n], b[n]);
    }
  }

  /** One program over one segment: evaluate, then reduce. */
  method EvalProgram(env: Env, s: Segment, filter: MlxFilter, program: Program) returns (value: int, count: nat)
    requires SegmentOk(s) && Runs(env, s, filter, [program])
    ensures HasValueGraph(program.kind) ==>
              value == Fold(program.kind, Contributions(env, s, filter, program)).ivalue
    ensures count == Fold(program.kind, Contributions(env, s, filter, program)).count
  {
    var rows: seq<Option<int>> := [];
    for i := 0 to s.count
      invariant |rows| == i
      invariant forall j :: 0 <= j < i ==> SameContribution(program.kind, rows[j],
                                                            Contributions(env, s, filter, program)[j])
    {
      var row := EvalRow(env, s, filter, program, i);
      rows := rows + [row];
    }
    SameFold(program.kind, rows, Contributions(env, s, filter, program));
    value, count := Reduce(program.kind, rows);
  }

  /** BuildSumGraphs over one segment, evaluated. */
  method BuildSumGraphs(env: Env, s: Segment, filter: MlxFilter, programs: seq<Program>) returns (outs: seq<int>)
    requires SegmentOk(s) && SegmentEvaluable(env, s, filter, programs)
    ensures |outs| == Cursor(s, filter, programs, |programs|)
    ensures forall p :: 0 <= p < |programs| ==> OutputsAt(env, s, filter, programs, outs, p)
  {
    outs := [];
    for p := 0 to |programs|
      invariant |outs| == Cursor(s, filter, programs, p)
      invariant forall q :: 0 <= q < p ==> OutputsAt(env, s, filter, programs, outs, q)
    {
      ghost var before := outs;
      var program := programs[p];
      assert ProgramRuns(env, s, programs[p]);
      var value, count := EvalProgram(env, s, filter, program);
      if HasValueGraph(program.kind) {
        outs := outs + [value];
      }
      if SegmentHasMask(s, filter, program) {
        outs := outs + [count];
      }
      forall q | 0 <= q < p ensures OutputsAt(env, s, filter, programs, outs, q) {
        assert OutputsAt(env, s, filter, programs, before, q);
      }
    }
  }

  lemma {:induction false} AllPassCount(kind: Kind, rows: seq<Option<int>>)
    requires forall i :: 0 <= i < |rows| ==> rows[i].Some?
    ensures Fold(kind, rows).count == |rows|
  {
    if rows != [] {
      AllPassCount(kind, rows[..|rows| - 1]);
    }
  }

  lemma {:induction false} Unmasked(s: Segment, cols: seq<nat>, i: nat)
    requires SegmentOk(s) && i < s.count && !AnyMasked(s, cols) && forall c :: c in cols ==> c < |s.valids|
    ensures ColumnsPresent(s, cols, i)
  {
  }

  /** Without a mask every row counts. */
  lemma {:induction false} MasklessCount(env: Env, s: Segment, filter: MlxFilter, program: Program)
    requires SegmentOk(s) && ColsKnown(s, filter, [program]) && !SegmentHasMask(s, filter, program)
    ensures Fold(program.kind, Contributions(env, s, filter, program)).count == s.count
  {
    var rows := Contributions(env, s, filter, program);
    forall i | 0 <= i < |rows| ensures rows[i].Some? {
      Unmasked(s, filter.nullCols, i);
      assert [program][0] == program;
      Unmasked(s, program.nullCols, i);
    }
    AllPassCount(program.kind, rows);
  }

  /** Reads one program's outputs at the cursor. */
  method ReadOutputs(env: Env, s: Segment, filter: MlxFilter, programs: seq<Program>, outs: seq<int>, p: nat,
                     cursor: nat) returns (ivalue: int, count: int, next: nat)
    requires SegmentOk(s) && ColsKnown(s, filter, programs) && p < |programs|
    requires OutputsAt(env, s, filter, programs, outs, p) && cursor == Cursor(s, filter, programs, p)
    ensures next == Cursor(s, filter, programs, p + 1)
    ensures HasValueGraph(programs[p].kind) ==>
              ivalue == Fold(programs[p].kind, Contributions(env, s, filter, programs[p])).ivalue
    ensures !HasValueGraph(programs[p].kind) ==> ivalue == 0
    ensures count == Fold(programs[p].kind, Contributions(env, s, filter, programs[p])).count
  {
    var program := programs[p];
    ivalue, count, next := 0, s.count, cursor;
    if HasValueGraph(program.kind) {
      ivalue := outs[next];
      next := next + 1;
    }
    if SegmentHasMask(s, filter, program) {
      count := outs[next];
      next := next + 1;
    } else {
      assert forall c :: c in program.nullCols ==> c < |s.valids|;
      MasklessCount(env, s, filter, program);
    }
  }

  /** The segment's fold has been merged into a result. */
  ghost predicate Merged(env: Env, s: Segment, filter: MlxFilter, program: Program, before: Result, after: Result)
    requires SegmentOk(s)
  {
    after == MergeResults(program.kind, before, Fold(program.kind, Contributions(env, s, filter, program)))
  }

  /** MergeSegmentOutputs: reads the outputs back with a running cursor and merges them into the results. */
  method MergeSegmentOutputs(env: Env, s: Segment, filter: MlxFilter, programs: seq<Program>, outs: seq<int>,
                             results0: seq<Result>) returns (results: seq<Result>)
    requires SegmentOk(s) && ColsKnown(s, filter, programs) && |results0| == |programs|
    requires forall p :: 0 <= p < |programs| ==> OutputsAt(env, s, filter, programs, outs, p)
    requires forall p :: 0 <= p < |programs| && !HasValueGraph(programs[p].kind) ==> results0[p].ivalue == 0
    ensures |results| == |programs|
    ensures forall p :: 0 <= p < |programs| ==> Merged(env, s, filter, programs[p], results0[p], results[p])
    ensures forall p :: 0 <= p < |programs| ==>
              Added(programs[p].kind, results0[p], Contributions(env, s, filter, programs[p]), results[p])
  {
    results := [];
    var cursor := 0;
    for p := 0 to |programs|
      invariant |results| == p && cursor == Cursor(s, filter, programs, p)
      invariant forall q :: 0 <= q < p ==> Merged(env, s, filter, programs[q], results0[q], results[q])
    {
      var ivalue, count;
      ivalue, count, cursor := ReadOutputs(env, s, filter, programs, outs, p, cursor);
      results := results + [Result(Combine(programs[p].kind, results0[p].ivalue, ivalue), results0[p].count + count)];
    }
    forall p | 0 <= p < |programs|
      ensures Added(programs[p].kind, results0[p], Contributions(env, s, filter, programs[p]), results[p])
    {
      assert Merged(env, s, filter, programs[p], results0[p], results[p]);
      MergeAdds(programs[p].kind, results0[p], Contributions(env, s, filter, programs[p]));
    }
  }

  // ---- All segments ----

  /** Zone maps of column c for segment k, where there are any, cover the segment's data. */
  ghost predicate ZonesCover(zoneMaps: seq<seq<ZoneMap>>, segments: seq<Segment>) {
    forall c, k :: 0 <= c < |zoneMaps| && 0 <= k < |zoneMaps[c]| && k < |segments| ==>
      ZoneFits(zoneMaps[c][k], segments[k], c)
  }

  ghost predicate ZoneFits(zm: ZoneMap, s: Segment, c: nat) {
    SegmentOk(s) && c < |s.cols| ==> ZoneCovers(zm, s, c)
  }

  ghost predicate AllOk(segments: seq<Segment>) {
    forall k :: 0 <= k < |segments| ==> SegmentOk(segments[k])
  }

  ghost predicate Evaluable(env: Env, segments: seq<Segment>, filter: MlxFilter, programs: seq<Program>) {
    AllOk(segments) && forall k :: 0 <= k < |segments| ==> SegmentEvaluable(env, segments[k], filter, programs)
  }

  ghost predicate SegmentEvaluable(env: Env, s: Segment, filter: MlxFilter, programs: seq<Program>)
    requires SegmentOk(s)
  {
    ColsKnown(s, filter, programs) && Runs(env, s, filter, programs)
  }

  /** null_cols cover the columns the filter loads. */
  ghost predicate NullColsCover(filter: MlxFilter) {
    forall i :: 0 <= i < |filter.ops| && filter.ops[i].LoadCol? ==> filter.ops[i].col in filter.nullCols
  }

  lemma {:induction false} TripleFails(env: Env, s: Segment, filter: MlxFilter, i: nat)
    requires SegmentOk(s) && i < s.count && |filter.ops| == 3 && IsTriple(filter.ops, 0)
    requires var pred := TripleOf(filter.ops, 0);
             && pred.col < |s.cols|
             && s.cols[pred.col][i].Int? == pred.constant.Int? && s.cols[pred.col][i].Real? == pred.constant.Real?
             && !s.cols[pred.col][i].Bool?
             && !Satisfies(pred, s.cols[pred.col][i])
    ensures FilterValue(env, s, filter, i) == Bool(false)
  {
    var rowEnv, ops := RowEnv(env, s, i), filter.ops;
    assert ops[..2][..1] == ops[..1] && ops[..1][..0] == [];
    assert Run(rowEnv, ops[..1], []) == Some([] + [s.cols[ops[0].col][i]]);
    assert Run(rowEnv, ops[..2], []).Some?;
  }

  /** A pruned segment has no passing row. */
  lemma {:induction false} PrunedSegmentIsEmpty(env: Env, segments: seq<Segment>, filter: MlxFilter,
                                                programs: seq<Program>, zoneMaps: seq<seq<ZoneMap>>, k: nat, p: nat)
    requires Evaluable(env, segments, filter, programs) && ZonesCover(zoneMaps, segments) && NullColsCover(filter)
    requires k < |segments| && segments[k].count > 0 && p < |programs|
    requires Infix(filter.ops) && (|filter.ops| == 3 ==> Prunes(TripleOf(filter.ops, 0), k, zoneMaps))
    ensures forall i :: 0 <= i < segments[k].count ==> !Passes(env, segments[k], filter, programs[p], i)
  {
    var s := segments[k];
    assert SegmentEvaluable(env, s, filter, programs);
    assert ZoneFits(zoneMaps[TripleOf(filter.ops, 0).col][k], s, TripleOf(filter.ops, 0).col) by {
      OnlySingleComparisonsPrune(RowEnv(env, s, 0), filter.ops);
    }
    OnlySingleComparisonsPrune(RowEnv(env, s, 0), filter.ops);
    var pred := TripleOf(filter.ops, 0);
    assert filter.ops[0].col in filter.nullCols;
    forall i | 0 <= i < s.count && Present(s, pred.col, i) ensures FilterValue(env, s, filter, i) == Bool(false) {
      RuledOutIsEmpty(pred, zoneMaps[pred.col][k], s, i);
      TripleFails(env, s, filter, i);
    }
  }

  /** All rows' contributions, segment after segment. */
  function AllContributions(env: Env, segments: seq<Segment>, filter: MlxFilter, program: Program,
                            n: nat): seq<Option<int>>
    requires n <= |segments| && AllOk(segments)
  {
    if n == 0 then []
    else AllContributions(env, segments, filter, program, n - 1) + Contributions(env, segments[n - 1], filter, program)
  }

  /** Merging the folds of the listed segments, in order. */
  function MergeListed(env: Env, segments: seq<Segment>, filter: MlxFilter, program: Program, listed: seq<nat>): Result
    requires AllOk(segments) && forall j :: 0 <= j < |listed| ==> listed[j] < |segments|
  {
    if listed == [] then Result(Neutral(program.kind), 0)
    else
      MergeResults(program.kind, MergeListed(env, segments, filter, program, listed[..|listed| - 1]),
                   Fold(program.kind, Contributions(env, segments[listed[|listed| - 1]], filter, program)))
  }

  /** The listed segments account for every contribution of the first n. */
  ghost predicate Accounts(env: Env, segments: seq<Segment>, filter: MlxFilter, programs: seq<Program>,
                           listed: seq<nat>, n: nat)
    requires n <= |segments| && AllOk(segments)
  {
    && (forall j :: 0 <= j < |listed| ==> listed[j] < n)
    && (forall p :: 0 <= p < |programs| ==>
          MergeListed(env, segments, filter, programs[p], listed) ==
          Fold(programs[p].kind, AllContributions(env, segments, filter, programs[p], n)))
  }

  lemma {:induction false} ListSegment(env: Env, segments: seq<Segment>, filter: MlxFilter, programs: seq<Program>,
                                       listed: seq<nat>, n: nat)
    requires n < |segments| && AllOk(segments)
    requires Accounts(env, segments, filter, programs, listed, n)
    ensures Accounts(env, segments, filter, programs, listed + [n], n + 1)
  {
    forall p | 0 <= p < |programs|
      ensures MergeListed(env, segments, filter, programs[p], listed + [n]) ==
              Fold(programs[p].kind, AllContributions(env, segments, filter, programs[p], n + 1))
    {
      assert (listed + [n])[..|listed|] == listed;
      FoldConcat(programs[p].kind, AllContributions(env, segments, filter, programs[p], n),
                 Contributions(env, segments[n], filter, programs[p]));
    }
  }

  lemma {:induction false} SkipSegment(env: Env, segments: seq<Segment>, filter: MlxFilter, programs: seq<Program>,
                                       listed: seq<nat>, n: nat)
    requires n < |segments| && AllOk(segments)
    requires Accounts(env, segments, filter, programs, listed, n)
    requires forall p, i :: 0 <= p < |programs| && 0 <= i < segments[n].count ==>
               !Passes(env, segments[n], filter, programs[p], i)
    ensures Accounts(env, segments, filter, programs, listed, n + 1)
  {
    forall p | 0 <= p < |programs|
      ensures MergeListed(env, segments, filter, programs[p], listed) ==
              Fold(programs[p].kind, AllContributions(env, segments, filter, programs[p], n + 1))
    {
      var kind, before := programs[p].kind, AllContributions(env, segments, filter, programs[p], n);
      NobodyPasses(kind, Contributions(env, segments[n], filter, programs[p]));
      FoldConcat(kind, before, Contributions(env, segments[n], filter, programs[p]));
      FoldBounds(kind, before);
    }
  }

  /** No predicates, or those of a filter in infix order: for a single comparison, that one. */
  predicate ParsedFrom(ops: seq<Op>, preds: seq<PrunePred>) {
    preds != [] ==> Infix(ops) && (|ops| == 3 ==> preds == [TripleOf(ops, 0)])
  }

  /** Predicates are parsed whenever there are zone maps to hold against and the code allows it. */
  predicate ParsedAll(ops: seq<Op>, zoneMaps: Option<seq<seq<ZoneMap>>>, preds: seq<PrunePred>) {
    preds != [] <==> zoneMaps.Some? && Infix(ops)
  }

  /** Empty, or the filter is one comparison that rules the segment out. */
  predicate Skipped(segments: seq<Segment>, filter: MlxFilter, zoneMaps: Option<seq<seq<ZoneMap>>>, k: nat)
    requires k < |segments|
  {
    segments[k].count == 0 || (zoneMaps.Some? && ComparisonPrunes(filter.ops, k, zoneMaps.value))
  }

  /** The list has the segments below n that are not skipped, in order. */
  ghost predicate ListsUnskipped(segments: seq<Segment>, filter: MlxFilter, zoneMaps: Option<seq<seq<ZoneMap>>>,
                                 listed: seq<nat>, n: nat)
    requires n <= |segments|
  {
    && (forall k :: k in listed <==> 0 <= k < n && !Skipped(segments, filter, zoneMaps, k))
    && (forall i, j :: 0 <= i < j < |listed| ==> listed[i] < listed[j])
  }

  /** Empty, or pruned by the zone maps. */
  method ShouldSkip(env: Env, segments: seq<Segment>, filter: MlxFilter, programs: seq<Program>,
                    zoneMaps: Option<seq<seq<ZoneMap>>>, preds: seq<PrunePred>, k: nat) returns (skip: bool)
    requires Evaluable(env, segments, filter, programs) && NullColsCover(filter) && k < |segments|
    requires zoneMaps.Some? ==> ZonesCover(zoneMaps.value, segments)
    requires ParsedFrom(filter.ops, preds) && ParsedAll(filter.ops, zoneMaps, preds)
    ensures skip <==> Skipped(segments, filter, zoneMaps, k)
    ensures skip ==> forall p, i :: 0 <= p < |programs| && 0 <= i < segments[k].count ==>
                       !Passes(env, segments[k], filter, programs[p], i)
  {
    if segments[k].count == 0 {
      return true;
    }
    if zoneMaps.None? {
      return false;
    }
    assert SegmentEvaluable(env, segments[k], filter, programs);
    PredsAreTyped(env, segments[k], filter, programs, preds);
    assert |filter.ops| == 3 && IsTriple(filter.ops, 0) ==> Infix(filter.ops);
    skip := SegmentShouldPrune(k, preds, zoneMaps.value);
    assert preds != [] ==> preds[0] == TripleOf(filter.ops, 0);
    if skip {
      forall p | 0 <= p < |programs|
        ensures forall i :: 0 <= i < segments[k].count ==> !Passes(env, segments[k], filter, programs[p], i)
      {
        PrunedSegmentIsEmpty(env, segments, filter, programs, zoneMaps.value, k, p);
      }
    }
  }

  /** The segments to evaluate: those not empty and not pruned. */
  method SelectSegments(env: Env, segments: seq<Segment>, filter: MlxFilter, programs: seq<Program>,
                        zoneMaps: Option<seq<seq<ZoneMap>>>) returns (evaluated: seq<nat>)
    requires Evaluable(env, segments, filter, programs) && NullColsCover(filter)
    requires zoneMaps.Some? ==> ZonesCover(zoneMaps.value, segments)
    ensures Accounts(env, segments, filter, programs, evaluated, |segments|)
    ensures ListsUnskipped(segments, filter, zoneMaps, evaluated, |segments|)
  {
    evaluated := [];
    var preds := ParsePreds(filter, zoneMaps);
    NothingListed(env, segments, filter, programs);
    for k := 0 to |segments|
      invariant Accounts(env, segments, filter, programs, evaluated, k)
      invariant ListsUnskipped(segments, filter, zoneMaps, evaluated, k)
    {
      evaluated := SelectNext(env, segments, filter, programs, zoneMaps, preds, evaluated, k);
    }
  }

  method ParsePreds(filter: MlxFilter, zoneMaps: Option<seq<seq<ZoneMap>>>) returns (preds: seq<PrunePred>)
    ensures ParsedFrom(filter.ops, preds) && ParsedAll(filter.ops, zoneMaps, preds)
  {
    preds := [];
    if zoneMaps.Some? {
      var _, parsed := BuildSegmentPrunePreds(filter.ops);
      preds := parsed;
    }
  }

  lemma {:induction false} NothingListed(env: Env, segments: seq<Segment>, filter: MlxFilter, programs: seq<Program>)
    requires AllOk(segments)
    ensures Accounts(env, segments, filter, programs, [], 0)
  {
  }

  method SelectNext(env: Env, segments: seq<Segment>, filter: MlxFilter, programs: seq<Program>,
                    zoneMaps: Option<seq<seq<ZoneMap>>>, preds: seq<PrunePred>, listed: seq<nat>, k: nat)
    returns (evaluated: seq<nat>)
    requires Evaluable(env, segments, filter, programs) && NullColsCover(filter) && k < |segments|
    requires zoneMaps.Some? ==> ZonesCover(zoneMaps.value, segments)
    requires ParsedFrom(filter.ops, preds) && ParsedAll(filter.ops, zoneMaps, preds)
    requires Accounts(env, segments, filter, programs, listed, k)
    requires ListsUnskipped(segments, filter, zoneMaps, listed, k)
    ensures Accounts(env, segments, filter, programs, evaluated, k + 1)
    ensures ListsUnskipped(segments, filter, zoneMaps, evaluated, k + 1)
  {
    var skip := ShouldSkip(env, segments, filter, programs, zoneMaps, preds, k);
    if skip {
      SkipSegment(env, segments, filter, programs, listed, k);
      evaluated := listed;
    } else {
      ListSegment(env, segments, filter, programs, listed, k);
      evaluated := listed + [k];
    }
  }

  /** For a filter that runs, the parsed predicates are none, or the one comparison. */
  lemma {:induction false} PredsAreTyped(env: Env, s: Segment, filter: MlxFilter, programs: seq<Program>,
                                         preds: seq<PrunePred>)
    requires SegmentOk(s) && s.count > 0 && Runs(env, s, filter, programs)
    requires ParsedFrom(filter.ops, preds)
    ensures preds == [] || (Infix(filter.ops) && |filter.ops| == 3 && preds == [TripleOf(filter.ops, 0)])
  {
    if preds != [] {
      OnlySingleComparisonsPrune(RowEnv(env, s, 0), filter.ops);
    }
  }

  method EvalSegment(env: Env, s: Segment, filter: MlxFilter, programs: seq<Program>, results0: seq<Result>)
    returns (results: seq<Result>)
    requires SegmentOk(s) && SegmentEvaluable(env, s, filter, programs) && |results0| == |programs|
    requires forall p :: 0 <= p < |programs| && !HasValueGraph(programs[p].kind) ==> results0[p].ivalue == 0
    ensures |results| == |programs|
    ensures forall p :: 0 <= p < |programs| ==> Merged(env, s, filter, programs[p], results0[p], results[p])
    ensures forall p :: 0 <= p < |programs| && !HasValueGraph(programs[p].kind) ==> results[p].ivalue == 0
  {
    var outs := BuildSumGraphs(env, s, filter, programs);
    results := MergeSegmentOutputs(env, s, filter, programs, outs, results0);
  }

  /** EvalSegments: whatever is pruned and however the rows are split, the results are one fold. */
  method EvalSegments(env: Env, segments: seq<Segment>, filter: MlxFilter, programs: seq<Program>,
                      zoneMaps: Option<seq<seq<ZoneMap>>>) returns (results: seq<Result>)
    requires Evaluable(env, segments, filter, programs) && NullColsCover(filter)
    requires zoneMaps.Some? ==> ZonesCover(zoneMaps.value, segments)
    ensures |results| == |programs|
    ensures forall p :: 0 <= p < |programs| ==>
              results[p] == Fold(programs[p].kind, AllContributions(env, segments, filter, programs[p], |segments|))
    ensures forall p :: 0 <= p < |programs| ==>
              Aggregates(programs[p].kind, AllContributions(env, segments, filter, programs[p], |segments|), results[p])
  {
    var evaluated := SelectSegments(env, segments, filter, programs, zoneMaps);
    results := seq(|programs|, p requires 0 <= p < |programs| => Result(Neutral(programs[p].kind), 0));
    for j := 0 to |evaluated|
      invariant |results| == |programs|
      invariant forall p :: 0 <= p < |programs| ==>
                  results[p] == MergeListed(env, segments, filter, programs[p], evaluated[..j])
      invariant forall p :: 0 <= p < |programs| && !HasValueGraph(programs[p].kind) ==> results[p].ivalue == 0
    {
      assert SegmentEvaluable(env, segments[evaluated[j]], filter, programs);
      results := EvalSegment(env, segments[evaluated[j]], filter, programs, results);
      assert evaluated[..j + 1][..j] == evaluated[..j];
    }
    assert evaluated[..|evaluated|] == evaluated;
    forall p | 0 <= p < |programs|
      ensures Aggregates(programs[p].kind, AllContributions(env, segments, filter, programs[p], |segments|), results[p])
    {
      FoldAggregates(programs[p].kind, AllContributions(env, segments, filter, programs[p], |segments|));
    }
  }

  // ---- Resegmenting ----

  ghost predicate SameCell(s: Segment, i: nat, w: Segment, j: nat, c: nat)
    requires SegmentOk(s) && SegmentOk(w) && i < s.count && j < w.count && c < |s.cols| == |w.cols|
  {
    s.cols[c][i] == w.cols[c][j] && (Present(s, c, i) <==> Present(w, c, j))
  }

  /** Row i of s is row j of w: the same values, and the same of them NULL. */
  ghost predicate SameRow(s: Segment, i: nat, w: Segment, j: nat)
    requires SegmentOk(s) && SegmentOk(w) && i < s.count && j < w.count && |s.cols| == |w.cols|
  {
    forall c :: 0 <= c < |s.cols| ==> SameCell(s, i, w, j, c)
  }

  ghost predicate RowStands(s: Segment, i: nat, w: Segment, m: nat)
    requires SegmentOk(s) && SegmentOk(w) && i < s.count && m + i < w.count && |s.cols| == |w.cols|
  {
    SameRow(s, i, w, m + i)
  }

  /** s is the rows of w from m on. */
  ghost predicate PartOf(s: Segment, w: Segment, m: nat) {
    && SegmentOk(s) && SegmentOk(w) && |s.cols| == |w.cols| && m + s.count <= w.count
    && forall i :: 0 <= i < s.count ==> RowStands(s, i, w, m)
  }

  lemma {:induction false} SameRowRuns(env: Env, s: Segment, i: nat, w: Segment, j: nat, ops: seq<Op>)
    requires SegmentOk(s) && SegmentOk(w) && i < s.count && j < w.count && |s.cols| == |w.cols|
    requires SameRow(s, i, w, j)
    ensures Run(RowEnv(env, s, i), ops, []) == Run(RowEnv(env, w, j), ops, [])
  {
    if ops != [] {
      var op := ops[|ops| - 1];
      SameRowRuns(env, s, i, w, j, ops[..|ops| - 1]);
      if op.LoadCol? && op.col < |s.cols| {
        assert SameCell(s, i, w, j, op.col);
      }
    }
  }

  lemma {:induction false} SameRowPresent(s: Segment, i: nat, w: Segment, j: nat, cols: seq<nat>)
    requires SegmentOk(s) && SegmentOk(w) && i < s.count && j < w.count && |s.cols| == |w.cols|
    requires SameRow(s, i, w, j)
    ensures ColumnsPresent(s, cols, i) == ColumnsPresent(w, cols, j)
  {
    forall c | 0 <= c < |s.valids| ensures Present(s, c, i) == Present(w, c, j) {
      assert SameCell(s, i, w, j, c);
    }
  }

  lemma {:induction false} SameRowCounts(env: Env, s: Segment, i: nat, w: Segment, j: nat, filter: MlxFilter,
                                         program: Program)
    requires SegmentOk(s) && SegmentOk(w) && i < s.count && j < w.count && |s.cols| == |w.cols|
    requires SameRow(s, i, w, j)
    ensures Contributions(env, s, filter, program)[i] == Contributions(env, w, filter, program)[j]
  {
    SameRowRuns(env, s, i, w, j, filter.ops);
    SameRowRuns(env, s, i, w, j, program.ops);
    SameRowPresent(s, i, w, j, filter.nullCols);
    SameRowPresent(s, i, w, j, program.nullCols);
  }

  /** How many rows stand in the segments before k. */
  function RowsBefore(segments: seq<Segment>, k: nat): nat
    requires k <= |segments|
  {
    if k == 0 then 0 else RowsBefore(segments, k - 1) + segments[k - 1].count
  }

  lemma {:induction false} RowsBeforeGrows(segments: seq<Segment>, k: nat, n: nat)
    requires k <= n <= |segments|
    ensures RowsBefore(segments, k) <= RowsBefore(segments, n)
  {
    if k < n {
      RowsBeforeGrows(segments, k, n - 1);
    }
  }

  ghost predicate PartAt(segments: seq<Segment>, k: nat, w: Segment)
    requires k < |segments|
  {
    PartOf(segments[k], w, RowsBefore(segments, k))
  }

  /** The segments are w, cut in any places. */
  ghost predicate CutsOf(segments: seq<Segment>, w: Segment) {
    && RowsBefore(segments, |segments|) == w.count
    && forall k :: 0 <= k < |segments| ==> PartAt(segments, k, w)
  }

  /** Wherever a table is cut, its segments contribute what its rows contribute, in their order. */
  lemma {:induction false} AnyCutContributes(env: Env, segments: seq<Segment>, w: Segment, filter: MlxFilter,
                                             program: Program, n: nat)
    requires SegmentOk(w) && AllOk(segments) && CutsOf(segments, w) && n <= |segments|
    ensures RowsBefore(segments, n) <= w.count
    ensures AllContributions(env, segments, filter, program, n) ==
            Contributions(env, w, filter, program)[..RowsBefore(segments, n)]
  {
    RowsBeforeGrows(segments, n, |segments|);
    if n > 0 {
      AnyCutContributes(env, segments, w, filter, program, n - 1);
      assert PartAt(segments, n - 1, w);
      NextContributes(env, segments[n - 1], w, RowsBefore(segments, n - 1), filter, program);
    }
  }

  lemma {:induction false} NextContributes(env: Env, s: Segment, w: Segment, m: nat, filter: MlxFilter,
                                           program: Program)
    requires PartOf(s, w, m)
    ensures Contributions(env, w, filter, program)[..m] + Contributions(env, s, filter, program) ==
            Contributions(env, w, filter, program)[..m + s.count]
  {
    PartContributes(env, s, w, m, filter, program);
    Adjacent(Contributions(env, w, filter, program), m, m + s.count);
  }

  lemma {:induction false} Adjacent<T>(all: seq<T>, m: nat, n: nat)
    requires m <= n <= |all|
    ensures all[..m] + all[m..n] == all[..n]
  {
  }

  lemma {:induction false} PartContributes(env: Env, s: Segment, w: Segment, m: nat, filter: MlxFilter,
                                           program: Program)
    requires PartOf(s, w, m)
    ensures Contributions(env, s, filter, program) == Contributions(env, w, filter, program)[m..m + s.count]
  {
    var part, all := Contributions(env, s, filter, program), Contributions(env, w, filter, program);
    forall i | 0 <= i < s.count ensures part[i] == all[m..m + s.count][i] {
      assert RowStands(s, i, w, m);
      SameRowCounts(env, s, i, w, m + i, filter, program);
    }
  }

  /** Code that runs on every row of a table runs on every row of its parts. */
  lemma {:induction false} PartEvaluable(env: Env, s: Segment, w: Segment, m: nat, filter: MlxFilter,
                                         programs: seq<Program>)
    requires PartOf(s, w, m) && SegmentEvaluable(env, w, filter, programs)
    ensures SegmentEvaluable(env, s, filter, programs)
  {
    forall i | 0 <= i < s.count && filter.ops != []
      ensures WellFormedCode(RowEnv(env, s, i), filter.ops) && FilterValue(env, s, filter, i).Bool?
    {
      assert RowStands(s, i, w, m);
      SameRowRuns(env, s, i, w, m + i, filter.ops);
      assert WellFormedCode(RowEnv(env, w, m + i), filter.ops) && FilterValue(env, w, filter, m + i).Bool?;
    }
    forall p | 0 <= p < |programs| ensures ProgramRuns(env, s, programs[p]) {
      PartProgramRuns(env, s, w, m, programs, p);
    }
  }

  lemma {:induction false} PartProgramRuns(env: Env, s: Segment, w: Segment, m: nat, programs: seq<Program>, p: nat)
    requires PartOf(s, w, m) && p < |programs| && ProgramRuns(env, w, programs[p])
    ensures ProgramRuns(env, s, programs[p])
  {
    if HasValueGraph(programs[p].kind) {
      forall i | 0 <= i < s.count ensures RowRuns(env, s, programs[p], i) {
        assert RowStands(s, i, w, m) && RowRuns(env, w, programs[p], m + i);
        SameRowRuns(env, s, i, w, m + i, programs[p].ops);
      }
    }
  }
}
