/** What a row contributes to an aggregate, in SQL's terms: the programs and the filter are those the planner
    compiles from the query and renumbers to the columns of the scan. */
module RowMeaning {
  import opened Acceptance
  import opened ColumnRemap
  import opened Evaluation = EvalSegments
  import opened FilterAssembly
  import opened Folds
  import opened NullLogic
  import opened Postfix
  import opened Translator
  import opened TranslatorCorrectness
  import opened ZoneMaps

  /** A conjunct of the scan's predicate: a WHERE expression, or a filter pushed down to one column. */
  datatype Condition = Where(e: Expr) | Pushed(col: nat, f: TableFilter)

  datatype Aggregate = Aggregate(kind: Kind, arg: Option<Expr>)

  /** The projections list the scanned columns that the programs see, and those that the filter sees. */
  datatype Request = Request(plan: Plan, conditions: seq<Condition>, scanProjection: seq<nat>,
                             cacheProjection: seq<nat>)

  function ForPrograms(q: Request): Scanned { Scanned(q.plan.scan.columnIds, q.scanProjection) }

  function ForFilter(q: Request): Scanned { Scanned(q.plan.scan.columnIds, q.cacheProjection) }

  /** WHERE expressions stand below every projection. */
  function Below(plan: Plan): Plan { Plan([], plan.scan) }

  // ---- SQL ----

  function ValueAt(row: nat -> Value, valid: nat -> bool, col: nat): Option<Value> {
    if valid(col) then Some(row(col)) else None
  }

  /** The row passes: SQL says TRUE. For a WHERE expression the columns it mentions are moreover not NULL,
      which SqlTrueKeeps shows to follow unless a disjunction or a negated conjunction is in it. */
  ghost predicate Keeps(plan: Plan, env: Env, valid: nat -> bool, c: Condition) {
    match c
    case Where(e) =>
      && SqlTrue(Plan([], plan.scan), env, valid, e)
      && forall col :: Mentions(Plan([], plan.scan), 0, e, col) ==> valid(col)
    case Pushed(col, f) => SqlFilter(f, ValueAt(env.row, valid, col)) == Some(Truth(true))
  }

  ghost predicate KeepsAll(q: Request, env: Env, valid: nat -> bool) {
    forall i :: 0 <= i < |q.conditions| ==> Keeps(q.plan, env, valid, q.conditions[i])
  }

  ghost predicate NotNull(plan: Plan, env: Env, valid: nat -> bool, arg: Option<Expr>) {
    arg.Some? ==> Sql(plan, env, valid, 0, arg.value).Some?
  }

  /** A row counts when it passes and the argument is not NULL; it then brings the argument's value, times ten
      to the scale of its type. */
  ghost predicate RowMeans(q: Request, env: Env, valid: nat -> bool, agg: Aggregate, row: Option<int>) {
    && (row.Some? <==> KeepsAll(q, env, valid) && NotNull(q.plan, env, valid, agg.arg))
    && (row.Some? && HasValueGraph(agg.kind) && agg.arg.Some? ==>
          var v := Sql(q.plan, env, valid, 0, agg.arg.value);
          v.Some? && v.value.Num? && row.value as real == v.value.r * Pow10(ScaleOf(TypeOf(agg.arg.value))) as real)
  }

  // ---- What the planner builds ----

  function CompiledPart(plan: Plan, c: Condition): Option<Part> {
    match c
    case Where(e) =>
      (match Compile(Below(plan), 0, e)
       case None => None
       case Some(code) => if code.lane == BOOL_LANE then Some(Part(code.ops, code.cols)) else None)
    case Pushed(col, f) =>
      (match CompileFilter(f, col)
       case None => None
       case Some(ops) => Some(Part(ops, {col})))
  }

  ghost predicate Lists(cols: seq<nat>, columns: set<nat>) {
    forall c :: c in cols <==> c in columns
  }

  ghost predicate IsPart(plan: Plan, c: Condition, part: Part) { CompiledPart(plan, c) == Some(part) }

  /** Assembled from the conditions' parts, its columns listed, and renumbered. */
  ghost predicate FilterBuilt(q: Request, parts: seq<Part>, cols: seq<nat>, filter: MlxFilter) {
    && |parts| == |q.conditions| && (forall i :: 0 <= i < |parts| ==> IsPart(q.plan, q.conditions[i], parts[i]))
    && Lists(cols, Assembled(parts, |parts|).nullCols)
    && Mapped(ForFilter(q), Assembled(parts, |parts|).ops, cols)
    && filter == MlxFilter(RemapOps(ForFilter(q), Assembled(parts, |parts|).ops), RemapCols(ForFilter(q), cols))
  }

  /** Compiled from the argument, its columns listed, and renumbered. COUNT(*) has no argument; programs with a
      value are those of the int lane. */
  ghost predicate ProgramBuilt(q: Request, agg: Aggregate, cols: seq<nat>, program: Program) {
    && program.kind == agg.kind && (agg.kind == COUNT_STAR <==> agg.arg.None?)
    && match agg.arg
       case None => cols == [] && program.ops == [] && program.nullCols == []
       case Some(e) =>
         Compile(q.plan, 0, e).Some? &&
         var code := Compile(q.plan, 0, e).value;
         && code.lane != BOOL_LANE && (HasValueGraph(agg.kind) ==> code.lane == INT_LANE)
         && Lists(cols, code.cols) && Mapped(ForPrograms(q), code.ops, cols)
         && program.ops == RemapOps(ForPrograms(q), code.ops) && program.nullCols == RemapCols(ForPrograms(q), cols)
  }

  /** Typed by the binder over this row; a pushed filter hides no IS NOT NULL among other conditions. */
  ghost predicate ConditionTyped(plan: Plan, env: Env, c: Condition) {
    match c
    case Where(e) => Typed(Below(plan), env, 0, e)
    case Pushed(col, f) =>
      LaneTyped(f, env.row(col)) && (NotNulls(f) == 0 || CompileFilter(f, col) == Some([]))
  }

  ghost predicate RowTyped(q: Request, env: Env, aggs: seq<Aggregate>) {
    && (forall i :: 0 <= i < |q.conditions| ==> ConditionTyped(q.plan, env, q.conditions[i]))
    && (forall p :: 0 <= p < |aggs| ==> ArgTyped(q, env, aggs[p]))
  }

  ghost predicate ArgTyped(q: Request, env: Env, agg: Aggregate) {
    agg.arg.Some? ==> Typed(q.plan, env, 0, agg.arg.value)
  }

  function ValidAt(s: Segment, i: nat): nat -> bool {
    (c: nat) => c < |s.valids| && Shown(s.valids[c], i)
  }

  /** Row i of the segment shows the storage row, values and NULLs, where the projections put its columns. */
  ghost predicate RowShown(q: Request, env: Env, row: nat -> Value, valid: nat -> bool, s: Segment, i: nat)
    requires SegmentOk(s) && i < s.count
  {
    && Presents(ForPrograms(q), row, RowEnv(env, s, i).row) && Presents(ForPrograms(q), valid, ValidAt(s, i))
    && Presents(ForFilter(q), row, RowEnv(env, s, i).row) && Presents(ForFilter(q), valid, ValidAt(s, i))
  }

  // ---- One condition ----

  predicate Truthful(plan: Plan, env: Env, c: Condition) {
    match c
    case Where(e) => Eval(Below(plan), env, 0, e) == Truth(true)
    case Pushed(col, f) => Holds(f, env.row(col))
  }

  lemma {:induction false} WhereYields(plan: Plan, env: Env, e: Expr)
    requires Compile(plan, 0, e).Some? && Compile(plan, 0, e).value.lane == BOOL_LANE && Typed(plan, env, 0, e)
    ensures Yields(env, Compile(plan, 0, e).value.ops, Bool(Eval(plan, env, 0, e) == Truth(true)))
    ensures Compile(plan, 0, e).value.ops != []
  {
    var v := CompileCorrect(plan, env, 0, e);
    assert Run(env, Compile(plan, 0, e).value.ops, []) == Some([] + [v]);
  }

  /** The code of a condition yields its truth. */
  lemma {:induction false} ConditionYields(plan: Plan, env: Env, c: Condition)
    requires CompiledPart(plan, c).Some? && ConditionTyped(plan, env, c)
    ensures PartYields(env, CompiledPart(plan, c).value.ops, Truthful(plan, env, c))
  {
    match c
    case Where(e) => WhereYields(Below(plan), env, e);
    case Pushed(col, f) => PartYieldsIff(env, f, col);
  }

  /** True with its columns present is what SQL calls TRUE. */
  lemma {:induction false} ConditionKeeps(plan: Plan, env: Env, valid: nat -> bool, c: Condition)
    requires CompiledPart(plan, c).Some?
    ensures Truthful(plan, env, c) && AllValid(valid, CompiledPart(plan, c).value.cols) <==> Keeps(plan, env, valid, c)
  {
    match c
    case Where(e) =>
      FilterMaskExact(Below(plan), env, valid, e);
      forall col: nat
        ensures col in Compile(Below(plan), 0, e).value.cols <==> Mentions(Below(plan), 0, e, col)
      {
        CollectsMentioned(Below(plan), 0, e, col);
      }
    case Pushed(col, f) =>
      TableFilterMaskIsSqlTrue(f, ValueAt(env.row, valid, col), col);
  }

  /** Where every WHERE expression is an AND of comparisons and their negations, TRUE alone decides. */
  lemma {:induction false} SqlTrueKeeps(plan: Plan, env: Env, valid: nat -> bool, e: Expr)
    requires CompiledPart(plan, Where(e)).Some? && Conjunctive(Below(plan), e)
    ensures Keeps(plan, env, valid, Where(e)) <==> SqlTrue(Below(plan), env, valid, e)
  {
    ConjunctiveMaskIsSqlTrue(Below(plan), env, valid, e);
    ConditionKeeps(plan, env, valid, Where(e));
  }

  // ---- The whole predicate ----

  function Truths(q: Request, env: Env): (r: seq<bool>)
    ensures |r| == |q.conditions|
  {
    seq(|q.conditions|, i requires 0 <= i < |q.conditions| => Truthful(q.plan, env, q.conditions[i]))
  }

  ghost predicate AllTruthful(q: Request, env: Env) {
    forall i :: 0 <= i < |q.conditions| ==> Truthful(q.plan, env, q.conditions[i])
  }

  lemma {:induction false} AssembledYields(q: Request, env: Env, parts: seq<Part>)
    requires |parts| == |q.conditions| && forall i :: 0 <= i < |parts| ==> IsPart(q.plan, q.conditions[i], parts[i])
    requires forall i :: 0 <= i < |q.conditions| ==> ConditionTyped(q.plan, env, q.conditions[i])
    ensures PartYields(env, Assembled(parts, |parts|).ops, AllTrue(Truths(q, env), |parts|))
    ensures AllTrue(Truths(q, env), |parts|) <==> AllTruthful(q, env)
  {
    var truths := Truths(q, env);
    forall i | 0 <= i < |parts| ensures PartYields(env, parts[i].ops, truths[i]) {
      assert IsPart(q.plan, q.conditions[i], parts[i]);
      ConditionYields(q.plan, env, q.conditions[i]);
    }
    AssembledIsConjunction(env, parts, truths, |parts|);
  }

  /** True with all its columns present: SQL keeps the row. */
  lemma {:induction false} AssembledKeeps(q: Request, env: Env, valid: nat -> bool, parts: seq<Part>)
    requires |parts| == |q.conditions| && forall i :: 0 <= i < |parts| ==> IsPart(q.plan, q.conditions[i], parts[i])
    ensures AllTruthful(q, env) && AllValid(valid, Assembled(parts, |parts|).nullCols) <==> KeepsAll(q, env, valid)
  {
    AssembledMask(valid, parts, |parts|);
    forall i | 0 <= i < |parts|
      ensures Truthful(q.plan, env, q.conditions[i]) && AllValid(valid, parts[i].cols) <==>
              Keeps(q.plan, env, valid, q.conditions[i])
    {
      assert IsPart(q.plan, q.conditions[i], parts[i]);
      ConditionKeeps(q.plan, env, valid, q.conditions[i]);
    }
  }

  // ---- Renumbered ----

  /** Renumbered columns are present in the segment exactly when the storage columns are. */
  lemma {:induction false} RemappedPresent(sc: Scanned, valid: nat -> bool, s: Segment, i: nat, cols: seq<nat>,
                                           columns: set<nat>)
    requires SegmentOk(s) && i < s.count && Presents(sc, valid, ValidAt(s, i)) && Lists(cols, columns)
    requires forall j :: 0 <= j < |cols| ==> ToChunk(sc, cols[j]).Some?
    ensures ColumnsPresent(s, RemapCols(sc, cols), i) <==> AllValid(valid, columns)
  {
    RemapKeepsMask(valid, ValidAt(s, i), sc, cols);
    var chunk := RemapCols(sc, cols);
    forall c | 0 <= c < |s.valids| ensures Present(s, c, i) <==> Shown(s.valids[c], i) {
    }
    assert forall j :: 0 <= j < |cols| ==> cols[j] in cols && chunk[j] in chunk;
  }

  lemma {:induction false} RemappedYields(env: Env, row: nat -> Value, s: Segment, i: nat, sc: Scanned,
                                          ops: seq<Op>, v: Value)
    requires SegmentOk(s) && i < s.count && Presents(sc, row, RowEnv(env, s, i).row)
    requires (forall j :: 0 <= j < |ops| ==> OpMapped(sc, ops[j])) && Yields(env.(row := row), ops, v)
    ensures Run(RowEnv(env, s, i), RemapOps(sc, ops), []) == Some([v])
  {
    RemapKeepsMeaning(env.(row := row), RowEnv(env, s, i).row, sc, ops, []);
    assert env.(row := row).(row := RowEnv(env, s, i).row) == RowEnv(env, s, i);
    assert Run(env.(row := row), ops, []) == Some([] + [v]) && [] + [v] == [v];
  }

  /** The built filter's code, if it has any, yields whether every condition is true. */
  lemma {:induction false} FilterRuns(q: Request, env: Env, row: nat -> Value, valid: nat -> bool, s: Segment, i: nat,
                                      parts: seq<Part>, cols: seq<nat>, filter: MlxFilter)
    requires SegmentOk(s) && i < s.count && RowShown(q, env, row, valid, s, i) && FilterBuilt(q, parts, cols, filter)
    requires RowTyped(q, env.(row := row), [])
    ensures filter.ops == [] ==> AllTruthful(q, env.(row := row))
    ensures filter.ops != [] ==>
              Run(RowEnv(env, s, i), filter.ops, []) == Some([Bool(AllTruthful(q, env.(row := row)))])
  {
    AssembledYields(q, env.(row := row), parts);
    if filter.ops != [] {
      RemappedYields(env, row, s, i, ForFilter(q), Assembled(parts, |parts|).ops,
                     Bool(AllTruthful(q, env.(row := row))));
    }
  }

  /** The built filter passes the rows SQL keeps. */
  lemma {:induction false} FilterKeeps(q: Request, env: Env, row: nat -> Value, valid: nat -> bool, s: Segment, i: nat,
                                       parts: seq<Part>, cols: seq<nat>, filter: MlxFilter)
    requires SegmentOk(s) && i < s.count && RowShown(q, env, row, valid, s, i) && FilterBuilt(q, parts, cols, filter)
    requires RowTyped(q, env.(row := row), [])
    ensures (filter.ops != [] ==> FilterValue(env, s, filter, i) == Bool(true)) &&
            ColumnsPresent(s, filter.nullCols, i) <==>
            KeepsAll(q, env.(row := row), valid)
  {
    FilterRuns(q, env, row, valid, s, i, parts, cols, filter);
    RemappedPresent(ForFilter(q), valid, s, i, cols, Assembled(parts, |parts|).nullCols);
    AssembledKeeps(q, env.(row := row), valid, parts);
  }

  // ---- The argument ----

  /** The argument's code yields an integer for a program with a value. */
  lemma {:induction false} ProgramYields(q: Request, env: Env, row: nat -> Value, valid: nat -> bool, s: Segment,
                                         i: nat, agg: Aggregate, cols: seq<nat>, program: Program) returns (v: Value)
    requires SegmentOk(s) && i < s.count && RowShown(q, env, row, valid, s, i)
    requires ProgramBuilt(q, agg, cols, program) && agg.arg.Some? && ArgTyped(q, env.(row := row), agg)
    ensures Run(RowEnv(env, s, i), program.ops, []) == Some([v])
    ensures Represents(v, Compile(q.plan, 0, agg.arg.value).value.lane, ScaleOf(TypeOf(agg.arg.value)),
                       Eval(q.plan, env.(row := row), 0, agg.arg.value))
  {
    v := CompileCorrect(q.plan, env.(row := row), 0, agg.arg.value);
    RemappedYields(env, row, s, i, ForPrograms(q), Compile(q.plan, 0, agg.arg.value).value.ops, v);
  }

  /** The program's mask asks for the argument not to be NULL. */
  lemma {:induction false} ProgramPresent(q: Request, env: Env, row: nat -> Value, valid: nat -> bool, s: Segment,
                                          i: nat, agg: Aggregate, cols: seq<nat>, program: Program)
    requires SegmentOk(s) && i < s.count && RowShown(q, env, row, valid, s, i) && ProgramBuilt(q, agg, cols, program)
    ensures ColumnsPresent(s, program.nullCols, i) <==> NotNull(q.plan, env.(row := row), valid, agg.arg)
  {
    if agg.arg.Some? {
      RemappedPresent(ForPrograms(q), valid, s, i, cols, Compile(q.plan, 0, agg.arg.value).value.cols);
      ProgramMaskIsNotNull(q.plan, env.(row := row), valid, agg.arg.value);
    }
  }

  /** The theorem: row i of a segment contributes what the storage row means to the aggregate. */
  lemma {:induction false} ContributionMeans(q: Request, env: Env, row: nat -> Value, valid: nat -> bool, s: Segment,
                                             i: nat, parts: seq<Part>, filterCols: seq<nat>, filter: MlxFilter,
                                             agg: Aggregate, cols: seq<nat>, program: Program)
    requires SegmentOk(s) && i < s.count && RowShown(q, env, row, valid, s, i)
    requires FilterBuilt(q, parts, filterCols, filter) && ProgramBuilt(q, agg, cols, program)
    requires RowTyped(q, env.(row := row), [agg])
    ensures RowMeans(q, env.(row := row), valid, agg, Contributions(env, s, filter, program)[i])
  {
    assert ArgTyped(q, env.(row := row), [agg][0]);
    FilterKeeps(q, env, row, valid, s, i, parts, filterCols, filter);
    ProgramPresent(q, env, row, valid, s, i, agg, cols, program);
    assert Contributions(env, s, filter, program)[i].Some? <==>
           KeepsAll(q, env.(row := row), valid) && NotNull(q.plan, env.(row := row), valid, agg.arg);
    if HasValueGraph(agg.kind) && agg.arg.Some? {
      ValueMeans(q, env, row, valid, s, i, agg, cols, program);
    }
  }

  lemma {:induction false} ValueMeans(q: Request, env: Env, row: nat -> Value, valid: nat -> bool, s: Segment, i: nat,
                                      agg: Aggregate, cols: seq<nat>, program: Program)
    requires SegmentOk(s) && i < s.count && RowShown(q, env, row, valid, s, i)
    requires ProgramBuilt(q, agg, cols, program) && agg.arg.Some? && ArgTyped(q, env.(row := row), agg)
    requires HasValueGraph(agg.kind)
    ensures var v := Sql(q.plan, env.(row := row), valid, 0, agg.arg.value);
            v.Some? ==> v.value.Num? && RowValue(env, s, program, i) as real ==
                                        v.value.r * Pow10(ScaleOf(TypeOf(agg.arg.value))) as real
  {
    var e, rowEnv := agg.arg.value, env.(row := row);
    var v := ProgramYields(q, env, row, valid, s, i, agg, cols, program);
    TopValue(env, s, program, i, v);
    ProgramMaskIsNotNull(q.plan, rowEnv, valid, e);
    Scaled(v, ScaleOf(TypeOf(e)), Eval(q.plan, rowEnv, 0, e), Sql(q.plan, rowEnv, valid, 0, e));
  }

  lemma {:induction false} Scaled(v: Value, scale: nat, m: Meaning, sql: Option<Meaning>)
    requires Represents(v, INT_LANE, scale, m) && (sql.Some? ==> sql.value == m)
    ensures sql.Some? ==> sql.value.Num? && v.Int? && v.i as real == sql.value.r * Pow10(scale) as real
  {
  }

  lemma {:induction false} TopValue(env: Env, s: Segment, program: Program, i: nat, v: Value)
    requires SegmentOk(s) && i < s.count && Run(RowEnv(env, s, i), program.ops, []) == Some([v]) && v.Int?
    ensures RowValue(env, s, program, i) == v.i
  {
  }

  // ---- Built code runs ----

  lemma {:induction false} RemappedKnown(sc: Scanned, s: Segment, cols: seq<nat>)
    requires |sc.projection| <= |s.valids| && forall j :: 0 <= j < |cols| ==> ToChunk(sc, cols[j]).Some?
    ensures forall c :: c in RemapCols(sc, cols) ==> c < |s.valids|
  {
    forall c | c in RemapCols(sc, cols) ensures c < |s.valids| {
      var j :| 0 <= j < |cols| && RemapCols(sc, cols)[j] == c;
      assert ToChunk(sc, cols[j]).value < |sc.projection|;
    }
  }

  ghost predicate Built(q: Request, aggs: seq<Aggregate>, parts: seq<Part>, filterCols: seq<nat>, filter: MlxFilter,
                        cols: seq<seq<nat>>, programs: seq<Program>) {
    && FilterBuilt(q, parts, filterCols, filter) && |aggs| == |cols| == |programs|
    && forall p :: 0 <= p < |aggs| ==> ProgramBuilt(q, aggs[p], cols[p], programs[p])
  }

  /** The segment's row i is storage row rows(i), which the binder typed. */
  ghost predicate RowBacked(q: Request, env: Env, aggs: seq<Aggregate>, row: nat -> Value, valid: nat -> bool,
                            s: Segment, i: nat)
    requires SegmentOk(s) && i < s.count
  {
    RowShown(q, env, row, valid, s, i) && RowTyped(q, env.(row := row), aggs)
  }

  ghost predicate Backed(q: Request, env: Env, aggs: seq<Aggregate>, rows: nat -> nat -> Value,
                         valids: nat -> nat -> bool, s: Segment) {
    && SegmentOk(s) && |q.scanProjection| <= |s.valids| && |q.cacheProjection| <= |s.valids|
    && forall i :: 0 <= i < s.count ==> RowBacked(q, env, aggs, rows(i), valids(i), s, i)
  }

  /** Over rows the binder typed, the built filter and the built programs run. */
  lemma {:induction false} BuiltRuns(q: Request, env: Env, aggs: seq<Aggregate>, rows: nat -> nat -> Value,
                                     valids: nat -> nat -> bool, s: Segment, parts: seq<Part>, filterCols: seq<nat>,
                                     filter: MlxFilter, cols: seq<seq<nat>>, programs: seq<Program>)
    requires Backed(q, env, aggs, rows, valids, s)
    requires Built(q, aggs, parts, filterCols, filter, cols, programs)
    ensures SegmentEvaluable(env, s, filter, programs)
  {
    RemappedKnown(ForFilter(q), s, filterCols);
    forall i | 0 <= i < s.count && filter.ops != []
      ensures WellFormedCode(RowEnv(env, s, i), filter.ops) && FilterValue(env, s, filter, i).Bool?
    {
      assert RowBacked(q, env, aggs, rows(i), valids(i), s, i);
      FilterRuns(q, env, rows(i), valids(i), s, i, parts, filterCols, filter);
    }
    forall p | 0 <= p < |programs|
      ensures ProgramRuns(env, s, programs[p])
    {
      ProgramBuiltRuns(q, env, aggs, rows, valids, s, cols[p], programs[p], p);
    }
    ColumnsKnown(s, filter, programs);
  }

  lemma {:induction false} ColumnsKnown(s: Segment, filter: MlxFilter, programs: seq<Program>)
    requires forall c :: c in filter.nullCols ==> c < |s.valids|
    requires forall p :: 0 <= p < |programs| ==> forall c :: c in programs[p].nullCols ==> c < |s.valids|
    ensures ColsKnown(s, filter, programs)
  {
  }

  lemma {:induction false} ProgramBuiltRuns(q: Request, env: Env, aggs: seq<Aggregate>, rows: nat -> nat -> Value,
                                            valids: nat -> nat -> bool, s: Segment, cols: seq<nat>, program: Program,
                                            p: nat)
    requires Backed(q, env, aggs, rows, valids, s) && p < |aggs| && ProgramBuilt(q, aggs[p], cols, program)
    ensures ProgramRuns(env, s, program)
  {
    RemappedKnown(ForPrograms(q), s, cols);
    if HasValueGraph(program.kind) {
      forall i | 0 <= i < s.count ensures RowRuns(env, s, program, i) {
        assert RowBacked(q, env, aggs, rows(i), valids(i), s, i);
        assert ArgTyped(q, env.(row := rows(i)), aggs[p]);
        var v := ProgramYields(q, env, rows(i), valids(i), s, i, aggs[p], cols, program);
      }
    }
  }

  // ---- The filter's columns cover what it loads ----

  lemma {:induction false} FilterLoads(f: TableFilter, col: nat, c: nat)
    requires CompileFilter(f, col).Some? && Loads(CompileFilter(f, col).value, c)
    ensures c == col
    decreases f, 1, 0
  {
    match f
    case AllOf(children) => ChildrenLoad(f, children, And, col, |children|, c);
    case AnyOf(children) => ChildrenLoad(f, children, Or, col, |children|, c);
    case _ =>
  }

  lemma {:induction false} ChildrenLoad(f: TableFilter, children: seq<TableFilter>, op: Op, col: nat, n: nat, c: nat)
    requires 0 < n <= |children| && (f == AllOf(children) || f == AnyOf(children)) && !op.LoadCol?
    requires CompileChildren(f, children, op, col, n).Some? && Loads(CompileChildren(f, children, op, col, n).value, c)
    ensures c == col
    decreases f, 0, n
  {
    var last := CompileFilter(children[n - 1], col).value;
    if Loads(last, c) {
      FilterLoads(children[n - 1], col, c);
    } else if n > 1 {
      var front := CompileChildren(f, children, op, col, n - 1).value;
      LoadsConcat(front, last, c);
      LoadsConcat(front + last, [op], c);
      ChildrenLoad(f, children, op, col, n - 1, c);
    }
  }

  lemma {:induction false} PartLoads(plan: Plan, c: Condition, col: nat)
    requires CompiledPart(plan, c).Some? && Loads(CompiledPart(plan, c).value.ops, col)
    ensures col in CompiledPart(plan, c).value.cols
  {
    match c
    case Where(e) => LoadsCollected(Below(plan), 0, e, col);
    case Pushed(at, f) => FilterLoads(f, at, col);
  }

  lemma {:induction false} AssembledLoads(q: Request, parts: seq<Part>, n: nat, col: nat)
    requires n <= |parts| == |q.conditions|
    requires forall i :: 0 <= i < |parts| ==> IsPart(q.plan, q.conditions[i], parts[i])
    requires Loads(Assembled(parts, n).ops, col)
    ensures col in Assembled(parts, n).nullCols
  {
    if n > 0 {
      var front, part := Assembled(parts, n - 1).ops, parts[n - 1].ops;
      LoadsConcat(front, part, col);
      LoadsConcat(front + part, [And], col);
      if Loads(part, col) {
        assert IsPart(q.plan, q.conditions[n - 1], parts[n - 1]);
        PartLoads(q.plan, q.conditions[n - 1], col);
      } else {
        AssembledLoads(q, parts, n - 1, col);
      }
    }
  }

  lemma {:induction false} BuiltCovers(q: Request, parts: seq<Part>, cols: seq<nat>, filter: MlxFilter)
    requires FilterBuilt(q, parts, cols, filter)
    ensures NullColsCover(filter)
  {
    var ops := Assembled(parts, |parts|).ops;
    forall i | 0 <= i < |filter.ops| && filter.ops[i].LoadCol? ensures filter.ops[i].col in filter.nullCols {
      assert OpMapped(ForFilter(q), ops[i]) && filter.ops[i] == RemapOp(ForFilter(q), ops[i]);
      assert Loads(ops, ops[i].col);
      AssembledLoads(q, parts, |parts|, ops[i].col);
      var j :| 0 <= j < |cols| && cols[j] == ops[i].col;
      assert filter.nullCols[j] == filter.ops[i].col;
    }
  }
}
