/** Which trees the translator takes, said about the tree alone, and which columns they mention. */
module Acceptance {
  import opened Postfix
  import opened Translator

  // ---- Projections ----

  /** `at` is the first projection at or below `level` that produces the table. */
  ghost predicate Produces(plan: Plan, level: nat, table: nat, at: nat) {
    && level <= at < |plan.projs| && plan.projs[at].table == table
    && forall j :: level <= j < at ==> plan.projs[j].table != table
  }

  /** No projection at or below `level` produces the table. */
  ghost predicate NotProjected(plan: Plan, level: nat, table: nat) {
    forall j :: level <= j < |plan.projs| ==> plan.projs[j].table != table
  }

  lemma {:induction false} FoundProjection(projs: seq<Projection>, level: nat, table: nat)
    requires level <= |projs|
    ensures forall j :: level <= j < FindProjection(projs, level, table) ==> projs[j].table != table
    decreases |projs| - level
  {
    if level < |projs| && projs[level].table != table {
      FoundProjection(projs, level + 1, table);
    }
  }

  /** The search finds the projection that produces the table, if one does. */
  lemma {:induction false} SearchFinds(plan: Plan, level: nat, table: nat)
    requires level <= |plan.projs|
    ensures var at := FindProjection(plan.projs, level, table);
            if at < |plan.projs| then Produces(plan, level, table, at) else NotProjected(plan, level, table)
  {
    FoundProjection(plan.projs, level, table);
  }

  // ---- The trees that are taken ----

  /** Columns: DECIMAL of at most 18 digits as integers; DOUBLE, FLOAT, BIGINT, INTEGER and DATE as floats. */
  ghost predicate ColumnLane(ty: Type, lane: Lane) {
    match lane
    case INT_LANE => ty.Decimal? && !ty.wide
    case FLOAT_LANE => ty.DoubleT? || ty.FloatT? || ty.BigintT? || ty.IntegerT? || ty.DateT?
    case BOOL_LANE => false
  }

  ghost predicate LiteralLane(c: Constant, ty: Type, lane: Lane) {
    match lane
    case INT_LANE => ty.Decimal? && !ty.wide && c.Raw?
    case FLOAT_LANE =>
      || (ty.DateT? && c.Days?)
      || ((ty.DoubleT? || ty.FloatT? || ty.BigintT? || ty.IntegerT? || ty.OtherNumericT?) && c.Number?)
    case BOOL_LANE => false
  }

  /** Widening between decimals of at most 18 digits, such decimals to float, and numbers to float. */
  ghost predicate CastLanes(from: Type, to: Type, need: Lane, lane: Lane) {
    || (from.Decimal? && !from.wide && to.Decimal? && !to.wide && from.scale <= to.scale
        && need == INT_LANE && lane == INT_LANE)
    || (from.Decimal? && !from.wide && (to.DoubleT? || to.FloatT?) && need == INT_LANE && lane == FLOAT_LANE)
    || ((from.DoubleT? || from.FloatT? || from.BigintT? || from.IntegerT? || from.OtherNumericT?)
        && (to.DoubleT? || to.FloatT?) && need == FLOAT_LANE && lane == FLOAT_LANE)
  }

  ghost predicate CallLane(name: Function, arity: nat, lane: Lane) {
    || (arity == 2 && (name.Plus? || name.Minus? || name.Times?) && lane != BOOL_LANE)
    || (arity == 2 && name.Divide? && lane == FLOAT_LANE)
    || (arity == 1 && (name.Minus? || name.AbsF?) && lane != BOOL_LANE)
    || (arity == 1 && (name.SinF? || name.CosF? || name.SqrtF?) && lane == FLOAT_LANE)
  }

  /** The translator takes the tree, in this lane. */
  ghost predicate Accepts(plan: Plan, level: nat, e: Expr, lane: Lane)
    requires level <= |plan.projs|
    decreases |plan.projs| - level, e
  {
    match e
    case ColumnRef(table, column, ty) =>
      || (exists at: nat :: Produces(plan, level, table, at) && column < |plan.projs[at].expressions| &&
                            Accepts(plan, at + 1, plan.projs[at].expressions[column], lane))
      || (NotProjected(plan, level, table) && table == plan.scan.table && column < |plan.scan.columnIds| &&
          ColumnLane(ty, lane))
    case Literal(c, ty) => LiteralLane(c, ty, lane)
    case Cast(child, ty, tryCast) =>
      !tryCast && (|| (CastLanes(TypeOf(child), ty, INT_LANE, lane) && Accepts(plan, level, child, INT_LANE))
                   || (CastLanes(TypeOf(child), ty, FLOAT_LANE, lane) && Accepts(plan, level, child, FLOAT_LANE)))
    case Compare(cmp, l, r) =>
      cmp.Some? && lane == BOOL_LANE &&
      (|| (Accepts(plan, level, l, INT_LANE) && Accepts(plan, level, r, INT_LANE))
       || (Accepts(plan, level, l, FLOAT_LANE) && Accepts(plan, level, r, FLOAT_LANE)))
    case Conjunction(_, children) =>
      lane == BOOL_LANE && children != [] &&
      forall i :: 0 <= i < |children| ==> Accepts(plan, level, children[i], BOOL_LANE)
    case Operator(isNot, children) =>
      lane == BOOL_LANE && isNot && |children| == 1 && Accepts(plan, level, children[0], BOOL_LANE)
    case Call(name, children, _) =>
      CallLane(name, |children|, lane) && forall i :: 0 <= i < |children| ==> Accepts(plan, level, children[i], lane)
    case Unsupported(_) => false
  }

  ghost predicate Compiles(code: Option<Code>, lane: Lane) { code.Some? && code.value.lane == lane }

  /** The translator takes exactly these trees. */
  lemma {:induction false} CompilesIff(plan: Plan, level: nat, e: Expr, lane: Lane)
    requires level <= |plan.projs|
    ensures Compiles(Compile(plan, level, e), lane) <==> Accepts(plan, level, e, lane)
    decreases |plan.projs| - level, e, 1, 0
  {
    match e
    case ColumnRef(table, column, ty) =>
      ColumnIff(plan, level, e, lane);
    case Literal(c, ty) =>
    case Cast(child, ty, tryCast) =>
      CompilesIff(plan, level, child, INT_LANE);
      CompilesIff(plan, level, child, FLOAT_LANE);
    case Compare(cmp, l, r) =>
      CompilesIff(plan, level, l, INT_LANE);
      CompilesIff(plan, level, r, INT_LANE);
      CompilesIff(plan, level, l, FLOAT_LANE);
      CompilesIff(plan, level, r, FLOAT_LANE);
    case Conjunction(_, children) =>
      if children != [] {
        JoinIff(plan, level, e, |children|);
      }
    case Operator(isNot, children) =>
      if |children| == 1 {
        CompilesIff(plan, level, children[0], BOOL_LANE);
      }
    case Call(name, children, _) =>
      CallIff(plan, level, e, lane);
    case Unsupported(_) =>
  }

  lemma {:induction false} ColumnIff(plan: Plan, level: nat, e: Expr, lane: Lane)
    requires level <= |plan.projs| && e.ColumnRef?
    ensures Compiles(Compile(plan, level, e), lane) <==> Accepts(plan, level, e, lane)
    decreases |plan.projs| - level, e, 0, 0
  {
    SearchFinds(plan, level, e.table);
    var at := FindProjection(plan.projs, level, e.table);
    if at < |plan.projs| {
      if e.column < |plan.projs[at].expressions| {
        CompilesIff(plan, at + 1, plan.projs[at].expressions[e.column], lane);
      } else {
        assert Compile(plan, level, e).None?;
      }
      ThroughProjection(plan, level, e, at, lane);
    } else {
      ScanColumn(plan, level, e, lane);
    }
  }

  lemma {:induction false} ThroughProjection(plan: Plan, level: nat, e: Expr, at: nat, lane: Lane)
    requires level <= |plan.projs| && e.ColumnRef? && Produces(plan, level, e.table, at)
    ensures Accepts(plan, level, e, lane) <==>
            e.column < |plan.projs[at].expressions| &&
            Accepts(plan, at + 1, plan.projs[at].expressions[e.column], lane)
  {
    forall other: nat | Produces(plan, level, e.table, other) ensures other == at {
    }
    assert !NotProjected(plan, level, e.table);
  }

  lemma {:induction false} ScanColumn(plan: Plan, level: nat, e: Expr, lane: Lane)
    requires level <= |plan.projs| && e.ColumnRef? && NotProjected(plan, level, e.table)
    ensures Accepts(plan, level, e, lane) <==>
            e.table == plan.scan.table && e.column < |plan.scan.columnIds| && ColumnLane(e.ty, lane)
  {
  }

  lemma {:induction false} CallIff(plan: Plan, level: nat, e: Expr, lane: Lane)
    requires level <= |plan.projs| && e.Call?
    ensures Compiles(Compile(plan, level, e), lane) <==> Accepts(plan, level, e, lane)
    decreases |plan.projs| - level, e, 0, 0
  {
    if |e.children| == 1 {
      CompilesIff(plan, level, e.children[0], lane);
      UnaryTaken(plan, level, e, lane);
      UnaryLanes(e.name, Compile(plan, level, e.children[0]), lane);
    } else if |e.children| == 2 {
      CompilesIff(plan, level, e.children[0], lane);
      CompilesIff(plan, level, e.children[1], lane);
      BinaryTaken(plan, level, e, lane);
      BinaryLanes(e.name, Compile(plan, level, e.children[0]), Compile(plan, level, e.children[1]), lane);
    }
  }

  lemma {:induction false} UnaryTaken(plan: Plan, level: nat, e: Expr, lane: Lane)
    requires level <= |plan.projs| && e.Call? && |e.children| == 1
    ensures Accepts(plan, level, e, lane) <==> CallLane(e.name, 1, lane) && Accepts(plan, level, e.children[0], lane)
  {
  }

  lemma {:induction false} BinaryTaken(plan: Plan, level: nat, e: Expr, lane: Lane)
    requires level <= |plan.projs| && e.Call? && |e.children| == 2
    ensures Accepts(plan, level, e, lane) <==>
            CallLane(e.name, 2, lane) && Accepts(plan, level, e.children[0], lane) &&
            Accepts(plan, level, e.children[1], lane)
  {
  }

  lemma {:induction false} UnaryLanes(name: Function, c: Option<Code>, lane: Lane)
    ensures CallLane(name, 1, lane) && Compiles(c, lane) <==>
            UnaryOp(name).Some? && Compiles(c, lane) && lane != BOOL_LANE &&
            (UnaryOp(name).value.Apply? ==> lane == FLOAT_LANE)
  {
  }

  lemma {:induction false} BinaryLanes(name: Function, l: Option<Code>, r: Option<Code>, lane: Lane)
    ensures CallLane(name, 2, lane) && Compiles(l, lane) && Compiles(r, lane) <==>
            BinaryOp(name).Some? && Compiles(Pair(l, r, BinaryOp(name).value, None), lane)
  {
  }

  lemma {:induction false} JoinIff(plan: Plan, level: nat, e: Expr, n: nat)
    requires level <= |plan.projs| && e.Conjunction? && 0 < n <= |e.children|
    ensures CompileJoin(plan, level, e, n).Some? <==>
            forall i :: 0 <= i < n ==> Accepts(plan, level, e.children[i], BOOL_LANE)
    ensures CompileJoin(plan, level, e, n).Some? ==> CompileJoin(plan, level, e, n).value.lane == BOOL_LANE
    decreases |plan.projs| - level, e, 0, n
  {
    CompilesIff(plan, level, e.children[n - 1], BOOL_LANE);
    JoinTakes(plan, level, e, n);
    if n > 1 {
      JoinIff(plan, level, e, n - 1);
    }
  }

  lemma {:induction false} JoinTakes(plan: Plan, level: nat, e: Expr, n: nat)
    requires level <= |plan.projs| && e.Conjunction? && 0 < n <= |e.children|
    ensures CompileJoin(plan, level, e, n).Some? <==>
            Compiles(Compile(plan, level, e.children[n - 1]), BOOL_LANE) &&
            (n > 1 ==> CompileJoin(plan, level, e, n - 1).Some?)
    ensures CompileJoin(plan, level, e, n).Some? ==> CompileJoin(plan, level, e, n).value.lane == BOOL_LANE
    ensures CompileJoin(plan, level, e, n).Some? ==>
              CompileJoin(plan, level, e, n).value.cols ==
              Compile(plan, level, e.children[n - 1]).value.cols +
              (if n > 1 then CompileJoin(plan, level, e, n - 1).value.cols else {})
  {
  }

  /** The outcome of a translation: taken, in the tree's lane, or declined, because it has none. */
  ghost predicate Decided(plan: Plan, level: nat, e: Expr, ok: bool, lane: Lane)
    requires level <= |plan.projs|
  {
    if ok then Accepts(plan, level, e, lane) else forall other: Lane :: !Accepts(plan, level, e, other)
  }

  lemma {:induction false} CompileDecides(plan: Plan, level: nat, e: Expr)
    requires level <= |plan.projs|
    ensures forall lane: Lane :: Compiles(Compile(plan, level, e), lane) ==> Decided(plan, level, e, true, lane)
    ensures Compile(plan, level, e).None? ==> forall lane: Lane :: Decided(plan, level, e, false, lane)
  {
    forall lane: Lane ensures Compiles(Compile(plan, level, e), lane) <==> Accepts(plan, level, e, lane) {
      CompilesIff(plan, level, e, lane);
    }
  }

  // ---- The columns a tree mentions ----

  /** A column of the scan stands somewhere in the tree, looking through the projections. */
  ghost predicate Mentions(plan: Plan, level: nat, e: Expr, col: nat)
    requires level <= |plan.projs|
    decreases |plan.projs| - level, e
  {
    match e
    case ColumnRef(table, column, ty) =>
      || (exists at: nat :: Produces(plan, level, table, at) && column < |plan.projs[at].expressions| &&
                            Mentions(plan, at + 1, plan.projs[at].expressions[column], col))
      || (NotProjected(plan, level, table) && column < |plan.scan.columnIds| && plan.scan.columnIds[column] == col)
    case Literal(_, _) => false
    case Cast(child, _, _) => Mentions(plan, level, child, col)
    case Compare(_, l, r) => Mentions(plan, level, l, col) || Mentions(plan, level, r, col)
    case Conjunction(_, children) => exists i :: 0 <= i < |children| && Mentions(plan, level, children[i], col)
    case Operator(_, children) => exists i :: 0 <= i < |children| && Mentions(plan, level, children[i], col)
    case Call(_, children, _) => exists i :: 0 <= i < |children| && Mentions(plan, level, children[i], col)
    case Unsupported(_) => false
  }

  /** The translator collects exactly the columns the tree mentions, which are the ones its code loads. */
  lemma {:induction false} CollectsMentioned(plan: Plan, level: nat, e: Expr, col: nat)
    requires level <= |plan.projs| && Compile(plan, level, e).Some?
    ensures col in Compile(plan, level, e).value.cols <==> Mentions(plan, level, e, col)
    decreases |plan.projs| - level, e, 1, 0
  {
    match e
    case ColumnRef(table, column, ty) =>
      ColumnCollects(plan, level, e, col);
    case Literal(_, _) =>
    case Cast(child, _, _) =>
      CollectsMentioned(plan, level, child, col);
    case Compare(_, l, r) =>
      CollectsMentioned(plan, level, l, col);
      CollectsMentioned(plan, level, r, col);
    case Conjunction(_, children) =>
      JoinCollects(plan, level, e, |children|, col);
    case Operator(_, children) =>
      CollectsMentioned(plan, level, children[0], col);
    case Call(_, children, _) =>
      CallCollects(plan, level, e, col);
  }

  lemma {:induction false} ColumnCollects(plan: Plan, level: nat, e: Expr, col: nat)
    requires level <= |plan.projs| && e.ColumnRef? && Compile(plan, level, e).Some?
    ensures col in Compile(plan, level, e).value.cols <==> Mentions(plan, level, e, col)
    decreases |plan.projs| - level, e, 0, 0
  {
    SearchFinds(plan, level, e.table);
    var at := FindProjection(plan.projs, level, e.table);
    if at < |plan.projs| {
      CollectsMentioned(plan, at + 1, plan.projs[at].expressions[e.column], col);
      ThroughMentions(plan, level, e, at, col);
    }
  }

  lemma {:induction false} ThroughMentions(plan: Plan, level: nat, e: Expr, at: nat, col: nat)
    requires level <= |plan.projs| && e.ColumnRef? && Produces(plan, level, e.table, at)
    requires e.column < |plan.projs[at].expressions|
    ensures Mentions(plan, level, e, col) <==> Mentions(plan, at + 1, plan.projs[at].expressions[e.column], col)
  {
    forall other: nat | Produces(plan, level, e.table, other) ensures other == at {
    }
    assert !NotProjected(plan, level, e.table);
  }

  lemma {:induction false} CallCollects(plan: Plan, level: nat, e: Expr, col: nat)
    requires level <= |plan.projs| && e.Call? && Compile(plan, level, e).Some?
    ensures col in Compile(plan, level, e).value.cols <==> Mentions(plan, level, e, col)
    decreases |plan.projs| - level, e, 0, 0
  {
    CallCols(plan, level, e);
    CallMentions(plan, level, e, col);
    CollectsMentioned(plan, level, e.children[0], col);
    if |e.children| == 2 {
      CollectsMentioned(plan, level, e.children[1], col);
    }
  }

  lemma {:induction false} CallCols(plan: Plan, level: nat, e: Expr)
    requires level <= |plan.projs| && e.Call? && Compile(plan, level, e).Some?
    ensures 1 <= |e.children| <= 2 && Compile(plan, level, e.children[0]).Some?
    ensures |e.children| == 2 ==> Compile(plan, level, e.children[1]).Some?
    ensures Compile(plan, level, e).value.cols ==
            Compile(plan, level, e.children[0]).value.cols +
            if |e.children| == 2 then Compile(plan, level, e.children[1]).value.cols else {}
  {
  }

  lemma {:induction false} CallMentions(plan: Plan, level: nat, e: Expr, col: nat)
    requires level <= |plan.projs| && e.Call? && 1 <= |e.children| <= 2
    ensures Mentions(plan, level, e, col) <==>
            Mentions(plan, level, e.children[0], col) ||
            (|e.children| == 2 && Mentions(plan, level, e.children[1], col))
  {
  }

  lemma {:induction false} JoinCollects(plan: Plan, level: nat, e: Expr, n: nat, col: nat)
    requires level <= |plan.projs| && e.Conjunction? && 0 < n <= |e.children| && CompileJoin(plan, level, e, n).Some?
    ensures col in CompileJoin(plan, level, e, n).value.cols <==>
            exists i :: 0 <= i < n && Mentions(plan, level, e.children[i], col)
    decreases |plan.projs| - level, e, 0, n
  {
    JoinTakes(plan, level, e, n);
    CollectsMentioned(plan, level, e.children[n - 1], col);
    if n > 1 {
      JoinCollects(plan, level, e, n - 1, col);
    }
  }

  /** Loading is the code's view of the same set. */
  ghost predicate Loads(ops: seq<Op>, col: nat) {
    exists i :: 0 <= i < |ops| && ops[i] == LoadCol(col)
  }

  lemma {:induction false} LoadsConcat(a: seq<Op>, b: seq<Op>, col: nat)
    ensures Loads(a + b, col) <==> Loads(a, col) || Loads(b, col)
  {
    if Loads(a, col) {
      var i :| 0 <= i < |a| && a[i] == LoadCol(col);
      assert (a + b)[i] == LoadCol(col);
    }
    if Loads(b, col) {
      var i :| 0 <= i < |b| && b[i] == LoadCol(col);
      assert (a + b)[|a| + i] == LoadCol(col);
    }
  }

  lemma {:induction false} LoadsCollected(plan: Plan, level: nat, e: Expr, col: nat)
    requires level <= |plan.projs| && Compile(plan, level, e).Some?
    ensures Loads(Compile(plan, level, e).value.ops, col) <==> col in Compile(plan, level, e).value.cols
    decreases |plan.projs| - level, e, 1, 0
  {
    var code := Compile(plan, level, e).value;
    match e
    case ColumnRef(table, column, ty) =>
      var at := FindProjection(plan.projs, level, table);
      if at < |plan.projs| {
        LoadsCollected(plan, at + 1, plan.projs[at].expressions[column], col);
      } else {
        assert code.ops[0] == LoadCol(plan.scan.columnIds[column]);
      }
    case Literal(_, _) =>
    case Cast(child, ty, _) =>
      LoadsCollected(plan, level, child, col);
      LoadsConcat(Compile(plan, level, child).value.ops, CastTail(TypeOf(child), ty, false).value.tail, col);
    case Compare(cmp, l, r) =>
      PairLoads(plan, level, e, l, r, Cmp(cmp.value), col);
    case Conjunction(_, children) =>
      JoinLoads(plan, level, e, |children|, col);
    case Operator(_, children) =>
      LoadsCollected(plan, level, children[0], col);
      LoadsConcat(Compile(plan, level, children[0]).value.ops, [Not], col);
    case Call(name, children, _) =>
      if |children| == 2 {
        PairLoads(plan, level, e, children[0], children[1], BinaryOp(name).value, col);
      } else {
        LoadsCollected(plan, level, children[0], col);
        LoadsConcat(Compile(plan, level, children[0]).value.ops, [UnaryOp(name).value], col);
      }
  }

  lemma {:induction false} PairLoads(plan: Plan, level: nat, e: Expr, l: Expr, r: Expr, op: Op, col: nat)
    requires level <= |plan.projs| && l < e && r < e && !op.LoadCol?
    requires Compile(plan, level, l).Some? && Compile(plan, level, r).Some?
    ensures var a, b := Compile(plan, level, l).value, Compile(plan, level, r).value;
            Loads(a.ops + b.ops + [op], col) <==> col in a.cols + b.cols
    decreases |plan.projs| - level, e, 0, 0
  {
    var a, b := Compile(plan, level, l).value, Compile(plan, level, r).value;
    LoadsCollected(plan, level, l, col);
    LoadsCollected(plan, level, r, col);
    LoadsConcat(a.ops, b.ops, col);
    LoadsConcat(a.ops + b.ops, [op], col);
  }

  lemma {:induction false} JoinLoads(plan: Plan, level: nat, e: Expr, n: nat, col: nat)
    requires level <= |plan.projs| && e.Conjunction? && 0 < n <= |e.children| && CompileJoin(plan, level, e, n).Some?
    ensures var code := CompileJoin(plan, level, e, n).value;
            Loads(code.ops, col) <==> col in code.cols
    decreases |plan.projs| - level, e, 0, n
  {
    var last := Compile(plan, level, e.children[n - 1]).value;
    LoadsCollected(plan, level, e.children[n - 1], col);
    if n > 1 {
      JoinLoads(plan, level, e, n - 1, col);
      var front := CompileJoin(plan, level, e, n - 1).value;
      LoadsConcat(front.ops, last.ops, col);
      LoadsConcat(front.ops + last.ops, [if e.conjunctive then And else Or], col);
    }
  }
}
