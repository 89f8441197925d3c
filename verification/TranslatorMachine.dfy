/** The translator as the planner runs it: one object whose operation list and column set grow while
    the recursion walks the tree. A declined tree leaves whatever had been appended. */
module TranslatorMachine {
  import opened Postfix
  import opened Translator
  import opened Acceptance
  import TranslatorCorrectness

  class MlxExprTranslator {
    const plan: Plan
    var ops: seq<Op>
    var referencedCols: set<nat>

    constructor (plan: Plan)
      ensures this.plan == plan && ops == [] && referencedCols == {}
    {
      this.plan := plan;
      ops, referencedCols := [], {};
    }

    /** Appended exactly the code of a tree. */
    twostate predicate Appended(code: Code)
      reads this
    {
      ops == old(ops) + code.ops && referencedCols == old(referencedCols) + code.cols
    }

    method Translate(level: nat, e: Expr) returns (ok: bool, lane: Lane)
      requires level <= |plan.projs|
      modifies this
      ensures old(ops) <= ops && old(referencedCols) <= referencedCols
      ensures ok <==> Compile(plan, level, e).Some?
      ensures ok ==> lane == Compile(plan, level, e).value.lane && Appended(Compile(plan, level, e).value)
      ensures Decided(plan, level, e, ok, lane)
      decreases |plan.projs| - level, e, 1, 0
    {
      CompileDecides(plan, level, e);
      lane := FLOAT_LANE;
      match e
      case ColumnRef(table, column, ty) =>
        ok, lane := TranslateColumn(level, e);
      case Literal(c, ty) =>
        var code := CompileLiteral(c, ty);
        ok := code.Some?;
        if ok {
          ops := ops + code.value.ops;
          lane := code.value.lane;
        }
      case Cast(child, ty, tryCast) =>
        ok, lane := TranslateCast(level, e);
      case Compare(cmp, l, r) =>
        if cmp.None? {
          return false, lane;
        }
        ok, lane := TranslatePair(level, e, l, r, Cmp(cmp.value));
        lane := BOOL_LANE;
      case Conjunction(all, children) =>
        if |children| == 0 {
          return false, lane;
        }
        ok := TranslateJoin(level, e);
        lane := BOOL_LANE;
      case Operator(isNot, children) =>
        if !isNot || |children| != 1 {
          return false, lane;
        }
        ok, lane := Translate(level, children[0]);
        if !ok || lane != BOOL_LANE {
          return false, lane;
        }
        ops := ops + [Not];
      case Call(name, children, _) =>
        ok, lane := TranslateCall(level, e);
      case Unsupported(_) =>
        ok := false;
    }

    method TranslateColumn(level: nat, e: Expr) returns (ok: bool, lane: Lane)
      requires level <= |plan.projs| && e.ColumnRef?
      modifies this
      ensures old(ops) <= ops && old(referencedCols) <= referencedCols
      ensures ok <==> Compile(plan, level, e).Some?
      ensures ok ==> lane == Compile(plan, level, e).value.lane && Appended(Compile(plan, level, e).value)
      ensures Decided(plan, level, e, ok, lane)
      decreases |plan.projs| - level, e, 0, 0
    {
      CompileDecides(plan, level, e);
      lane := FLOAT_LANE;
      var at := FindProjection(plan.projs, level, e.table);
      if at < |plan.projs| {
        if e.column >= |plan.projs[at].expressions| {
          return false, lane;
        }
        ok, lane := Translate(at + 1, plan.projs[at].expressions[e.column]);
        return;
      }
      if e.table != plan.scan.table || !IsSupportedColumnType(e.ty) || e.column >= |plan.scan.columnIds| {
        return false, lane;
      }
      var storage := plan.scan.columnIds[e.column];
      ops := ops + [LoadCol(storage)];
      referencedCols := referencedCols + {storage};
      return true, LaneOfColumn(e.ty);
    }

    method TranslateCast(level: nat, e: Expr) returns (ok: bool, lane: Lane)
      requires level <= |plan.projs| && e.Cast?
      modifies this
      ensures old(ops) <= ops && old(referencedCols) <= referencedCols
      ensures ok <==> Compile(plan, level, e).Some?
      ensures ok ==> lane == Compile(plan, level, e).value.lane && Appended(Compile(plan, level, e).value)
      decreases |plan.projs| - level, e, 0, 0
    {
      var tail := CastTail(TypeOf(e.child), e.ty, e.tryCast);
      if tail.None? {
        return false, FLOAT_LANE;
      }
      ok, lane := Translate(level, e.child);
      if !ok || lane != tail.value.need {
        return false, lane;
      }
      ops := ops + tail.value.tail;
      lane := tail.value.lane;
    }

    /** Two operands of one value lane, then the operation. */
    method TranslatePair(level: nat, ghost e: Expr, l: Expr, r: Expr, op: Op) returns (ok: bool, lane: Lane)
      requires level <= |plan.projs| && l < e && r < e
      modifies this
      ensures old(ops) <= ops && old(referencedCols) <= referencedCols
      ensures ok <==> Pair(Compile(plan, level, l), Compile(plan, level, r), op, None).Some?
      ensures ok ==> lane == Compile(plan, level, l).value.lane &&
                     Appended(Pair(Compile(plan, level, l), Compile(plan, level, r), op, None).value)
      decreases |plan.projs| - level, e, 0, 0
    {
      ok, lane := Translate(level, l);
      if !ok {
        return;
      }
      var rightLane;
      ok, rightLane := Translate(level, r);
      if !ok || lane != rightLane || lane == BOOL_LANE {
        return false, lane;
      }
      if lane == INT_LANE && op == Div {
        return false, lane;
      }
      ops := ops + [op];
    }

    method TranslateCall(level: nat, e: Expr) returns (ok: bool, lane: Lane)
      requires level <= |plan.projs| && e.Call?
      modifies this
      ensures old(ops) <= ops && old(referencedCols) <= referencedCols
      ensures ok <==> Compile(plan, level, e).Some?
      ensures ok ==> lane == Compile(plan, level, e).value.lane && Appended(Compile(plan, level, e).value)
      decreases |plan.projs| - level, e, 0, 1
    {
      lane := FLOAT_LANE;
      if |e.children| == 2 {
        var op := BinaryOp(e.name);
        if op.None? {
          return false, lane;
        }
        ok, lane := TranslatePair(level, e, e.children[0], e.children[1], op.value);
      } else if |e.children| == 1 {
        var op := UnaryOp(e.name);
        if op.None? {
          return false, lane;
        }
        ok, lane := Translate(level, e.children[0]);
        if !ok || lane == BOOL_LANE || (op.value.Apply? && lane != FLOAT_LANE) {
          return false, lane;
        }
        ops := ops + [op.value];
      } else {
        ok := false;
      }
    }

    /** The conjunction loop: the first child, then one child and one operation at a time. */
    method TranslateJoin(level: nat, e: Expr) returns (ok: bool)
      requires level <= |plan.projs| && e.Conjunction? && e.children != []
      modifies this
      ensures old(ops) <= ops && old(referencedCols) <= referencedCols
      ensures ok <==> CompileJoin(plan, level, e, |e.children|).Some?
      ensures ok ==> CompileJoin(plan, level, e, |e.children|).value.lane == BOOL_LANE &&
                     Appended(CompileJoin(plan, level, e, |e.children|).value)
      decreases |plan.projs| - level, e, 0, 0
    {
      var lane;
      ok, lane := Translate(level, e.children[0]);
      if !ok || lane != BOOL_LANE {
        JoinFailsOnward(plan, level, e, 1, |e.children|);
        return false;
      }
      for i := 1 to |e.children|
        invariant ok && old(ops) <= ops && old(referencedCols) <= referencedCols
        invariant CompileJoin(plan, level, e, i).Some? && CompileJoin(plan, level, e, i).value.lane == BOOL_LANE
        invariant Appended(CompileJoin(plan, level, e, i).value)
      {
        ok := TranslateNextChild(level, e, i, old(ops), old(referencedCols));
        if !ok {
          JoinFailsOnward(plan, level, e, i + 1, |e.children|);
          return;
        }
      }
    }

    /** Child i of a conjunction and its operation. */
    method TranslateNextChild(level: nat, e: Expr, i: nat, ghost ops0: seq<Op>, ghost cols0: set<nat>)
      returns (ok: bool)
      requires level <= |plan.projs| && e.Conjunction? && 0 < i < |e.children|
      requires CompileJoin(plan, level, e, i).Some? && CompileJoin(plan, level, e, i).value.lane == BOOL_LANE
      requires ops == ops0 + CompileJoin(plan, level, e, i).value.ops
      requires referencedCols == cols0 + CompileJoin(plan, level, e, i).value.cols
      modifies this
      ensures ops0 <= ops && cols0 <= referencedCols
      ensures ok <==> CompileJoin(plan, level, e, i + 1).Some?
      ensures ok ==> CompileJoin(plan, level, e, i + 1).value.lane == BOOL_LANE &&
                     ops == ops0 + CompileJoin(plan, level, e, i + 1).value.ops &&
                     referencedCols == cols0 + CompileJoin(plan, level, e, i + 1).value.cols
      decreases |plan.projs| - level, e, 0, -1
    {
      var lane;
      ok, lane := Translate(level, e.children[i]);
      if !ok || lane != BOOL_LANE {
        return false;
      }
      ops := ops + [if e.conjunctive then And else Or];
    }
  }

  lemma {:induction false} JoinFailsOnward(plan: Plan, level: nat, e: Expr, i: nat, n: nat)
    requires level <= |plan.projs| && e.Conjunction? && 0 < i <= n <= |e.children|
    requires CompileJoin(plan, level, e, i).None?
    ensures CompileJoin(plan, level, e, n).None?
    decreases n
  {
    if i < n {
      JoinFailsOnward(plan, level, e, i, n - 1);
    }
  }

  /** Compile, then run: the stack machine ends with the tree's exact value, scaled by its type. */
  method TranslateAndEval(plan: Plan, env: Env, e: Expr) returns (ok: bool, v: Value, lane: Lane)
    requires Typed(plan, env, 0, e)
    ensures Decided(plan, 0, e, ok, lane)
    ensures ok ==> TranslatorCorrectness.Represents(v, lane, ScaleOf(TypeOf(e)), Eval(plan, env, 0, e))
  {
    var translator := new MlxExprTranslator(plan);
    v := Bool(false);
    ok, lane := translator.Translate(0, e);
    if ok {
      ghost var x := TranslatorCorrectness.CompileCorrect(plan, env, 0, e);
      assert translator.ops == Compile(plan, 0, e).value.ops;
      assert Run(env, translator.ops, []) == Some([] + [x]);
      v := EvalOps(env, translator.ops);
    }
  }
}
