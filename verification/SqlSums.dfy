/** An ungrouped aggregation from the query to its results: compiled, renumbered, populated, fused and summed
    from the cache, it returns the SQL aggregates of the table's rows. */
module SqlSums {
  import opened Acceptance
  import opened CacheRuns
  import opened CacheSums
  import opened ColumnCache
  import opened Evaluation = EvalSegments
  import opened FilterAssembly
  import opened Folds
  import opened Postfix
  import opened RowMeaning
  import opened Sums
  import opened Translator
  import opened TranslatorMachine
  import opened ZoneMaps
  import ColumnRemap

  // ---- The table's rows ----

  function CellAt(t: Table, col: nat, j: nat): Value {
    var values := AllValues(t.source(Key(t.id, col)));
    if j < |values| then Int(values[j]) else Int(0)
  }

  function PresentAt(t: Table, col: nat, j: nat): bool {
    var marks := AllMarks(t.source(Key(t.id, col)));
    j < |marks| && marks[j]
  }

  /** Row j of the table, by storage column, and which of its values are there. */
  function TableRow(t: Table, j: nat): nat -> Value {
    (col: nat) => CellAt(t, col, j)
  }

  function TableValid(t: Table, j: nat): nat -> bool {
    (col: nat) => PresentAt(t, col, j)
  }

  ghost predicate RowsMean(q: Request, env: Env, t: Table, agg: Aggregate, rows: seq<Option<int>>) {
    && |rows| == Sum(t.counts)
    && forall j :: 0 <= j < |rows| ==> RowMeans(q, env.(row := TableRow(t, j)), TableValid(t, j), agg, rows[j])
  }

  /** The aggregate of the table's rows, each taken as SQL takes it. */
  ghost predicate SqlAggregate(q: Request, env: Env, t: Table, agg: Aggregate, r: Result) {
    exists rows: seq<Option<int>> :: RowsMean(q, env, t, agg, rows) && Aggregates(agg.kind, rows, r)
  }

  /** There is one answer. */
  lemma {:induction false} AnswerUnique(q: Request, env: Env, t: Table, agg: Aggregate, x: Result, y: Result)
    requires agg.kind == COUNT_STAR <==> agg.arg.None?
    requires SqlAggregate(q, env, t, agg, x) && SqlAggregate(q, env, t, agg, y)
    ensures x == y
  {
    var a :| RowsMean(q, env, t, agg, a) && Aggregates(agg.kind, a, x);
    var b :| RowsMean(q, env, t, agg, b) && Aggregates(agg.kind, b, y);
    forall i | 0 <= i < |a| ensures SameContribution(agg.kind, a[i], b[i]) {
      assert RowMeans(q, env.(row := TableRow(t, i)), TableValid(t, i), agg, a[i]);
      assert RowMeans(q, env.(row := TableRow(t, i)), TableValid(t, i), agg, b[i]);
    }
    SameFold(agg.kind, a, b);
    FoldAggregates(agg.kind, a);
    FoldAggregates(agg.kind, b);
    AggregatesUnique(agg.kind, a, x, Fold(agg.kind, a));
    AggregatesUnique(agg.kind, b, y, Fold(agg.kind, b));
  }

  // ---- The planner ----

  ghost predicate ConditionTaken(plan: Plan, c: Condition) {
    match c
    case Where(e) => Accepts(Below(plan), 0, e, BOOL_LANE)
    case Pushed(_, f) => FilterTaken(f)
  }

  ghost predicate ConditionNeeds(plan: Plan, c: Condition, col: nat) {
    match c
    case Where(e) => Mentions(Below(plan), 0, e, col)
    case Pushed(at, _) => at == col
  }

  /** The projection names the place where the scan lists the column, the first one if there are several. */
  ghost predicate Listed(columnIds: seq<nat>, projection: seq<nat>, col: nat) {
    exists id :: id in projection && ListsFirst(columnIds, id, col)
  }

  ghost predicate ListsFirst(columnIds: seq<nat>, id: nat, col: nat) {
    id < |columnIds| && columnIds[id] == col && col !in columnIds[..id]
  }

  ghost predicate FilterWanted(q: Request) {
    forall i :: 0 <= i < |q.conditions| ==> ConditionWanted(q, q.conditions[i])
  }

  ghost predicate ConditionWanted(q: Request, c: Condition) {
    && ConditionTaken(q.plan, c)
    && forall col :: ConditionNeeds(q.plan, c, col) ==> Listed(q.plan.scan.columnIds, q.cacheProjection, col)
  }

  ghost predicate ArgWanted(q: Request, agg: Aggregate) {
    agg.arg.Some? ==>
      && (Accepts(q.plan, 0, agg.arg.value, INT_LANE) || Accepts(q.plan, 0, agg.arg.value, FLOAT_LANE))
      && forall col :: Mentions(q.plan, 0, agg.arg.value, col) ==> Listed(q.plan.scan.columnIds, q.scanProjection, col)
  }

  /** What the planner takes: conditions and arguments the translator accepts, over columns the projections list. */
  ghost predicate Wanted(q: Request, aggs: seq<Aggregate>) {
    FilterWanted(q) && forall p :: 0 <= p < |aggs| ==> ArgWanted(q, aggs[p])
  }

  lemma {:induction false} PartIff(plan: Plan, c: Condition)
    ensures CompiledPart(plan, c).Some? <==> ConditionTaken(plan, c)
    ensures CompiledPart(plan, c).Some? ==>
              forall col :: col in CompiledPart(plan, c).value.cols <==> ConditionNeeds(plan, c, col)
  {
    match c
    case Where(e) =>
      CompilesIff(Below(plan), 0, e, BOOL_LANE);
      if CompiledPart(plan, c).Some? {
        forall col: nat
          ensures col in Compile(Below(plan), 0, e).value.cols <==> Mentions(Below(plan), 0, e, col)
        {
          CollectsMentioned(Below(plan), 0, e, col);
        }
      }
    case Pushed(col, f) => FilterTakenIff(f, col);
  }

  method BuildPart(plan: Plan, c: Condition) returns (part: Option<Part>)
    ensures part == CompiledPart(plan, c)
  {
    match c
    case Where(e) =>
      var translator := new MlxExprTranslator(Below(plan));
      var ok, lane := translator.Translate(0, e);
      if !ok || lane != BOOL_LANE {
        return None;
      }
      assert translator.ops == Compile(Below(plan), 0, e).value.ops;
      assert translator.referencedCols == Compile(Below(plan), 0, e).value.cols;
      part := Some(Part(translator.ops, translator.referencedCols));
    case Pushed(col, f) =>
      var ops := CompileFilter(f, col);
      part := if ops.None? then None else Some(Part(ops.value, {col}));
  }

  method BuildParts(q: Request) returns (parts: Option<seq<Part>>)
    ensures parts.Some? <==> forall i :: 0 <= i < |q.conditions| ==> ConditionTaken(q.plan, q.conditions[i])
    ensures parts.Some? ==> |parts.value| == |q.conditions| &&
                            forall i :: 0 <= i < |q.conditions| ==> IsPart(q.plan, q.conditions[i], parts.value[i])
  {
    var built: seq<Part> := [];
    for i := 0 to |q.conditions|
      invariant |built| == i && forall j :: 0 <= j < i ==> IsPart(q.plan, q.conditions[j], built[j])
      invariant forall j :: 0 <= j < i ==> ConditionTaken(q.plan, q.conditions[j])
    {
      PartIff(q.plan, q.conditions[i]);
      var part := BuildPart(q.plan, q.conditions[i]);
      if part.None? {
        return None;
      }
      built := built + [part.value];
    }
    parts := Some(built);
  }

  /** The columns of a set, in a list. */
  method ListColumns(columns: set<nat>) returns (cols: seq<nat>)
    ensures Lists(cols, columns)
  {
    cols := [];
    var rest := columns;
    while rest != {}
      invariant rest <= columns && forall c :: c in cols <==> c in columns - rest
      decreases rest
    {
      var c :| c in rest;
      cols := cols + [c];
      rest := rest - {c};
    }
  }

  method Renumber(ops: seq<Op>, cols: seq<nat>, sc: ColumnRemap.Scanned)
    returns (ok: bool, newOps: seq<Op>, newCols: seq<nat>)
    ensures ok <==> ColumnRemap.Mapped(sc, ops, cols)
    ensures ok ==> newOps == ColumnRemap.RemapOps(sc, ops) && newCols == ColumnRemap.RemapCols(sc, cols)
  {
    var opArray := new Op[|ops|](i requires 0 <= i < |ops| => ops[i]);
    var colArray := new nat[|cols|](i requires 0 <= i < |cols| => cols[i]);
    assert opArray[..] == ops && colArray[..] == cols;
    ok := ColumnRemap.RemapStorageToChunk(opArray, colArray, sc);
    newOps, newCols := opArray[..], colArray[..];
  }

  /** Code whose loads are among its columns is renumbered exactly when all its columns are listed. */
  lemma {:induction false} MappedIff(sc: ColumnRemap.Scanned, ops: seq<Op>, cols: seq<nat>, columns: set<nat>)
    requires Lists(cols, columns) && forall i :: 0 <= i < |ops| && ops[i].LoadCol? ==> ops[i].col in columns
    ensures ColumnRemap.Mapped(sc, ops, cols) <==>
            forall col :: col in columns ==> Listed(sc.columnIds, sc.projection, col)
  {
    forall col: nat ensures Listed(sc.columnIds, sc.projection, col) <==> ColumnRemap.ToChunk(sc, col).Some? {
      ListedIff(sc, col);
    }
    if ColumnRemap.Mapped(sc, ops, cols) {
      forall col | col in columns ensures Listed(sc.columnIds, sc.projection, col) {
        var i :| 0 <= i < |cols| && cols[i] == col;
      }
    }
  }

  lemma {:induction false} ListedIff(sc: ColumnRemap.Scanned, col: nat)
    ensures Listed(sc.columnIds, sc.projection, col) <==> ColumnRemap.ToChunk(sc, col).Some?
  {
    ColumnRemap.FoundIff(sc, col);
    if ColumnRemap.ToChunk(sc, col).Some? {
      var out: nat :| out < |sc.projection| && ColumnRemap.Names(sc, out, col) &&
                      ColumnRemap.FirstListing(sc, sc.projection[out]);
      assert ListsFirst(sc.columnIds, sc.projection[out], col);
    }
    if Listed(sc.columnIds, sc.projection, col) {
      var id: nat :| id in sc.projection && ListsFirst(sc.columnIds, id, col);
      var out: nat :| out < |sc.projection| && sc.projection[out] == id;
      forall j | 0 <= j < id ensures sc.columnIds[j] != sc.columnIds[id] {
        assert sc.columnIds[j] in sc.columnIds[..id];
      }
      assert ColumnRemap.Names(sc, out, col) && ColumnRemap.FirstListing(sc, sc.projection[out]);
    }
  }

  /** The assembled filter needs what the conditions need. */
  lemma {:induction false} FilterNeeds(q: Request, parts: seq<Part>)
    requires |parts| == |q.conditions|
    requires forall i :: 0 <= i < |parts| ==> IsPart(q.plan, q.conditions[i], parts[i])
    ensures (forall col :: col in Assembled(parts, |parts|).nullCols ==>
               Listed(q.plan.scan.columnIds, q.cacheProjection, col)) <==>
            forall i, col :: 0 <= i < |q.conditions| && ConditionNeeds(q.plan, q.conditions[i], col) ==>
              Listed(q.plan.scan.columnIds, q.cacheProjection, col)
  {
    forall i | 0 <= i < |parts|
      ensures forall col :: col in parts[i].cols <==> ConditionNeeds(q.plan, q.conditions[i], col)
    {
      assert IsPart(q.plan, q.conditions[i], parts[i]);
      PartIff(q.plan, q.conditions[i]);
    }
    forall col ensures col in Assembled(parts, |parts|).nullCols <==>
                       exists i :: 0 <= i < |parts| && col in parts[i].cols
    {
      AssembledColumns(parts, |parts|, col);
    }
  }

  lemma {:induction false} AssembledColumns(parts: seq<Part>, n: nat, col: nat)
    requires n <= |parts|
    ensures col in Assembled(parts, n).nullCols <==> exists i :: 0 <= i < n && col in parts[i].cols
  {
    if n > 0 {
      AssembledColumns(parts, n - 1, col);
    }
  }

  /** The filter, assembled and renumbered. */
  method BuildFilter(q: Request)
    returns (filter: Option<MlxFilter>, ghost parts: seq<Part>, ghost cols: seq<nat>)
    ensures filter.Some? <==> FilterWanted(q)
    ensures filter.Some? ==> FilterBuilt(q, parts, cols, filter.value)
  {
    parts, cols := [], [];
    var built := BuildParts(q);
    if built.None? {
      return None, parts, cols;
    }
    var assembled := AssembleFilter(built.value);
    var listed := ListColumns(assembled.nullCols);
    forall i | 0 <= i < |assembled.ops| && assembled.ops[i].LoadCol?
      ensures assembled.ops[i].col in assembled.nullCols
    {
      assert Loads(assembled.ops, assembled.ops[i].col);
      AssembledLoads(q, built.value, |built.value|, assembled.ops[i].col);
    }
    MappedIff(ForFilter(q), assembled.ops, listed, assembled.nullCols);
    FilterNeeds(q, built.value);
    var ok, ops, nullCols := Renumber(assembled.ops, listed, ForFilter(q));
    if !ok {
      return None, parts, cols;
    }
    parts, cols := built.value, listed;
    filter := Some(MlxFilter(ops, nullCols));
  }

  /** An aggregate's program. Int lane only: an argument with a value graph is not of the float lane. */
  method BuildProgram(q: Request, agg: Aggregate) returns (program: Option<Program>, ghost cols: seq<nat>)
    requires ArgInScope(q, agg)
    ensures program.Some? <==> ArgWanted(q, agg)
    ensures program.Some? ==> ProgramBuilt(q, agg, cols, program.value)
  {
    cols := [];
    if agg.arg.None? {
      return Some(Program(agg.kind, [], [])), cols;
    }
    var e := agg.arg.value;
    CompilesIff(q.plan, 0, e, INT_LANE);
    CompilesIff(q.plan, 0, e, FLOAT_LANE);
    var translator := new MlxExprTranslator(q.plan);
    var ok, lane := translator.Translate(0, e);
    if !ok || lane == BOOL_LANE {
      return None, cols;
    }
    ghost var code := Compile(q.plan, 0, e).value;
    assert translator.ops == code.ops && translator.referencedCols == code.cols;
    var listed := ListColumns(translator.referencedCols);
    ArgNeeds(q, e, listed);
    var taken, ops, nullCols := Renumber(translator.ops, listed, ForPrograms(q));
    if !taken {
      return None, cols;
    }
    cols := listed;
    program := Some(Program(agg.kind, ops, nullCols));
  }

  /** COUNT(*) has no argument, the others one; SUM, AVG, MIN and MAX of an argument in the float lane are left out. */
  ghost predicate ArgInScope(q: Request, agg: Aggregate) {
    && (agg.kind == COUNT_STAR <==> agg.arg.None?)
    && (HasValueGraph(agg.kind) && agg.arg.Some? ==> !Accepts(q.plan, 0, agg.arg.value, FLOAT_LANE))
  }

  lemma {:induction false} ArgNeeds(q: Request, e: Expr, cols: seq<nat>)
    requires Compile(q.plan, 0, e).Some? && Lists(cols, Compile(q.plan, 0, e).value.cols)
    ensures ColumnRemap.Mapped(ForPrograms(q), Compile(q.plan, 0, e).value.ops, cols) <==>
            forall col :: Mentions(q.plan, 0, e, col) ==> Listed(q.plan.scan.columnIds, q.scanProjection, col)
  {
    var code := Compile(q.plan, 0, e).value;
    forall i | 0 <= i < |code.ops| && code.ops[i].LoadCol? ensures code.ops[i].col in code.cols {
      assert Loads(code.ops, code.ops[i].col);
      LoadsCollected(q.plan, 0, e, code.ops[i].col);
    }
    forall col: nat ensures col in code.cols <==> Mentions(q.plan, 0, e, col) {
      CollectsMentioned(q.plan, 0, e, col);
    }
    MappedIff(ForPrograms(q), code.ops, cols, code.cols);
  }

  /** The programs of all aggregates. */
  ghost predicate ProgramsBuilt(q: Request, aggs: seq<Aggregate>, cols: seq<seq<nat>>, programs: seq<Program>) {
    && |programs| == |cols| == |aggs|
    && forall p :: 0 <= p < |aggs| ==> ProgramBuilt(q, aggs[p], cols[p], programs[p])
  }

  lemma {:induction false} OneMoreProgram(q: Request, aggs: seq<Aggregate>, cols: seq<seq<nat>>,
                                          programs: seq<Program>, agg: Aggregate, listed: seq<nat>, program: Program)
    requires ProgramsBuilt(q, aggs, cols, programs) && ProgramBuilt(q, agg, listed, program)
    ensures ProgramsBuilt(q, aggs + [agg], cols + [listed], programs + [program])
  {
    forall p | 0 <= p < |aggs| + 1
      ensures ProgramBuilt(q, (aggs + [agg])[p], (cols + [listed])[p], (programs + [program])[p])
    {
      if p < |aggs| {
        assert ProgramBuilt(q, aggs[p], cols[p], programs[p]);
      }
    }
  }

  method BuildPrograms(q: Request, aggs: seq<Aggregate>)
    returns (programs: Option<seq<Program>>, ghost cols: seq<seq<nat>>)
    requires forall p :: 0 <= p < |aggs| ==> ArgInScope(q, aggs[p])
    ensures programs.Some? <==> forall p :: 0 <= p < |aggs| ==> ArgWanted(q, aggs[p])
    ensures programs.Some? ==> ProgramsBuilt(q, aggs, cols, programs.value)
  {
    var built: seq<Program> := [];
    cols := [];
    for p := 0 to |aggs|
      invariant ProgramsBuilt(q, aggs[..p], cols, built)
      invariant forall r :: 0 <= r < p ==> ArgWanted(q, aggs[r])
    {
      ghost var listed;
      var program;
      program, listed := BuildProgram(q, aggs[p]);
      if program.None? {
        return None, cols;
      }
      OneMoreProgram(q, aggs[..p], cols, built, aggs[p], listed, program.value);
      assert aggs[..p + 1] == aggs[..p] + [aggs[p]];
      built, cols := built + [program.value], cols + [listed];
    }
    assert aggs[..|aggs|] == aggs;
    programs := Some(built);
  }

  // ---- The table as the filter sees it ----

  /** The cached columns, in the order the filter's projection lists them. */
  function KeysOf(q: Request, t: Table): (keys: seq<Key>)
    requires ProjectionsOk(q)
    ensures |keys| == |q.cacheProjection|
  {
    seq(|q.cacheProjection|, out requires 0 <= out < |q.cacheProjection| =>
      Key(t.id, q.plan.scan.columnIds[q.cacheProjection[out]]))
  }

  /** The filter's projection lists scanned columns and begins with the programs' projection. */
  ghost predicate ProjectionsOk(q: Request) {
    && q.scanProjection <= q.cacheProjection && q.cacheProjection != []
    && forall out :: 0 <= out < |q.cacheProjection| ==> q.cacheProjection[out] < |q.plan.scan.columnIds|
  }

  lemma {:induction false} TableShown(q: Request, env: Env, t: Table, j: nat)
    requires TableOk(t) && ProjectionsOk(q) && SegmentOk(TableSegment(t, KeysOf(q, t)))
    requires j < TableSegment(t, KeysOf(q, t)).count == Sum(t.counts)
    ensures RowShown(q, env, TableRow(t, j), TableValid(t, j), TableSegment(t, KeysOf(q, t)), j)
  {
    var s, keys := TableSegment(t, KeysOf(q, t)), KeysOf(q, t);
    forall out | 0 <= out < |q.cacheProjection|
      ensures ColumnRemap.Shows(ForFilter(q), TableRow(t, j), RowEnv(env, s, j).row, out)
      ensures ColumnRemap.Shows(ForFilter(q), TableValid(t, j), ValidAt(s, j), out)
    {
      assert s.cols[out] == Ints(AllValues(t.source(keys[out])));
    }
    forall out | 0 <= out < |q.scanProjection|
      ensures ColumnRemap.Shows(ForPrograms(q), TableRow(t, j), RowEnv(env, s, j).row, out)
      ensures ColumnRemap.Shows(ForPrograms(q), TableValid(t, j), ValidAt(s, j), out)
    {
      assert ColumnRemap.Shows(ForFilter(q), TableRow(t, j), RowEnv(env, s, j).row, out);
      assert ColumnRemap.Shows(ForFilter(q), TableValid(t, j), ValidAt(s, j), out);
    }
  }

  /** The binder typed every row of the table. */
  ghost predicate TableTyped(q: Request, env: Env, t: Table, aggs: seq<Aggregate>) {
    forall j :: 0 <= j < Sum(t.counts) ==> RowTyped(q, env.(row := TableRow(t, j)), aggs)
  }

  lemma {:induction false} TableBacked(q: Request, env: Env, t: Table, aggs: seq<Aggregate>)
    requires TableOk(t) && ProjectionsOk(q) && TableTyped(q, env, t, aggs)
    ensures Backed(q, env, aggs, (j: nat) => TableRow(t, j), (j: nat) => TableValid(t, j),
                   TableSegment(t, KeysOf(q, t)))
  {
    TableSegmentOk(t, KeysOf(q, t));
    var s := TableSegment(t, KeysOf(q, t));
    forall j | 0 <= j < s.count ensures RowBacked(q, env, aggs, TableRow(t, j), TableValid(t, j), s, j) {
      TableShown(q, env, t, j);
    }
  }

  // ---- The query ----

  lemma {:induction false} FoldIsSql(q: Request, env: Env, t: Table, aggs: seq<Aggregate>, parts: seq<Part>,
                                     filterCols: seq<nat>, filter: MlxFilter, cols: seq<nat>, program: Program, p: nat,
                                     r: Result)
    requires TableOk(t) && ProjectionsOk(q) && TableTyped(q, env, t, aggs) && p < |aggs|
    requires FilterBuilt(q, parts, filterCols, filter) && ProgramBuilt(q, aggs[p], cols, program)
    requires SegmentOk(TableSegment(t, KeysOf(q, t)))
    requires Aggregates(program.kind, Contributions(env, TableSegment(t, KeysOf(q, t)), filter, program), r)
    ensures SqlAggregate(q, env, t, aggs[p], r)
  {
    TableSegmentOk(t, KeysOf(q, t));
    var s := TableSegment(t, KeysOf(q, t));
    var rows := Contributions(env, s, filter, program);
    forall j | 0 <= j < |rows|
      ensures RowMeans(q, env.(row := TableRow(t, j)), TableValid(t, j), aggs[p], rows[j])
    {
      TableShown(q, env, t, j);
      assert RowTyped(q, env.(row := TableRow(t, j)), aggs);
      assert ArgTyped(q, env.(row := TableRow(t, j)), aggs[p]);
      ContributionMeans(q, env, TableRow(t, j), TableValid(t, j), s, j, parts, filterCols, filter, aggs[p], cols,
                        program);
    }
    assert RowsMean(q, env, t, aggs[p], rows);
  }

  /** Plans the query and runs it on the cache. It is planned exactly if the planner wants it, and then the results
      are the SQL aggregates of the table's rows; there are none only where there are no rows. */
  method SqlQuery(env: Env, cache: Cache, t: Table, q: Request, aggs: seq<Aggregate>)
    returns (planned: bool, results: Option<seq<Result>>)
    requires cache.Valid() && TableOk(t) && ProjectionsOk(q) && Distinct(KeysOf(q, t)) && TableTyped(q, env, t, aggs)
    requires forall p :: 0 <= p < |aggs| ==> ArgInScope(q, aggs[p])
    requires Hits(cache, t, KeysOf(q, t)) ==>
               RowsThere(cache.store, t, KeysOf(q, t)) && RowAligned(cache.store, KeysOf(q, t))
    modifies cache
    ensures cache.Valid()
    ensures planned <==> Wanted(q, aggs)
    ensures !planned ==> results.None? && cache.store == old(cache.store)
    ensures planned ==> (results.Some? <==> Sum(t.counts) > 0)
    ensures results.Some? ==> |results.value| == |aggs| &&
                              forall p :: 0 <= p < |aggs| ==> SqlAggregate(q, env, t, aggs[p], results.value[p])
  {
    ghost var parts, filterCols, cols;
    var filter, programs;
    filter, parts, filterCols := BuildFilter(q);
    if filter.None? {
      return false, None;
    }
    programs, cols := BuildPrograms(q, aggs);
    if programs.None? {
      return false, None;
    }
    planned := true;
    results := RunPlanned(env, cache, t, q, aggs, filter.value, programs.value, parts, filterCols, cols);
  }

  method RunPlanned(env: Env, cache: Cache, t: Table, q: Request, aggs: seq<Aggregate>, filter: MlxFilter,
                    programs: seq<Program>, ghost parts: seq<Part>, ghost filterCols: seq<nat>,
                    ghost cols: seq<seq<nat>>) returns (results: Option<seq<Result>>)
    requires cache.Valid() && TableOk(t) && ProjectionsOk(q) && Distinct(KeysOf(q, t)) && TableTyped(q, env, t, aggs)
    requires Built(q, aggs, parts, filterCols, filter, cols, programs)
    requires Hits(cache, t, KeysOf(q, t)) ==>
               RowsThere(cache.store, t, KeysOf(q, t)) && RowAligned(cache.store, KeysOf(q, t))
    modifies cache
    ensures cache.Valid()
    ensures results.Some? <==> Sum(t.counts) > 0
    ensures results.Some? ==> |results.value| == |aggs| &&
                              forall p :: 0 <= p < |aggs| ==> SqlAggregate(q, env, t, aggs[p], results.value[p])
  {
    var keys := KeysOf(q, t);
    TableSegmentOk(t, keys);
    TableBacked(q, env, t, aggs);
    BuiltRuns(q, env, aggs, (j: nat) => TableRow(t, j), (j: nat) => TableValid(t, j), TableSegment(t, keys), parts,
              filterCols, filter, cols, programs);
    BuiltCovers(q, parts, filterCols, filter);
    results := SumQuery(env, cache, t, keys, programs, filter);
    if results.Some? {
      forall p | 0 <= p < |aggs| ensures SqlAggregate(q, env, t, aggs[p], results.value[p]) {
        FoldIsSql(q, env, t, aggs, parts, filterCols, filter, cols[p], programs[p], p, results.value[p]);
      }
    }
  }
}
