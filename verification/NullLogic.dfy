/** NULLs: the bridge masks a row when any referenced column is NULL; SQL evaluates in three-valued
    logic. This relates the two. Division is strict here, as every other arithmetic function. */
module NullLogic {
  import opened Postfix
  import opened Translator

  // ---- SQL's three-valued meaning; None is NULL ----

  function And3(a: Option<Meaning>, b: Option<Meaning>): Option<Meaning> {
    if a == Some(Truth(false)) || b == Some(Truth(false)) then Some(Truth(false))
    else if a.None? || b.None? then None
    else Some(Truth(TruthOf(a.value) && TruthOf(b.value)))
  }

  function Or3(a: Option<Meaning>, b: Option<Meaning>): Option<Meaning> {
    if a == Some(Truth(true)) || b == Some(Truth(true)) then Some(Truth(true))
    else if a.None? || b.None? then None
    else Some(Truth(TruthOf(a.value) || TruthOf(b.value)))
  }

  function Not3(a: Option<Meaning>): Option<Meaning> {
    if a.None? then None else Some(Truth(!TruthOf(a.value)))
  }

  function Sql(plan: Plan, env: Env, valid: nat -> bool, level: nat, e: Expr): Option<Meaning>
    requires level <= |plan.projs|
    decreases |plan.projs| - level, e, 1, 0
  {
    match e
    case ColumnRef(table, column, ty) =>
      var at := FindProjection(plan.projs, level, table);
      if at < |plan.projs| then
        if column < |plan.projs[at].expressions| then Sql(plan, env, valid, at + 1, plan.projs[at].expressions[column])
        else None
      else if column < |plan.scan.columnIds| && valid(plan.scan.columnIds[column]) then
        Some(StoredMeaning(env.row(plan.scan.columnIds[column]), ty))
      else None
    case Literal(c, ty) => if c.Null? then None else Some(ConstantMeaning(c, ty))
    case Cast(child, _, _) => Sql(plan, env, valid, level, child)
    case Compare(cmp, l, r) =>
      var a, b := Sql(plan, env, valid, level, l), Sql(plan, env, valid, level, r);
      if cmp.None? || a.None? || b.None? then None
      else Some(Truth(Related(cmp.value, NumOf(a.value), NumOf(b.value))))
    case Conjunction(_, children) => SqlJoin(plan, env, valid, level, e, |children|)
    case Operator(_, children) => if |children| == 1 then Not3(Sql(plan, env, valid, level, children[0])) else None
    case Call(name, children, _) =>
      if |children| == 2 then
        var a, b := Sql(plan, env, valid, level, children[0]), Sql(plan, env, valid, level, children[1]);
        if a.None? || b.None? then None else Some(Num(CallMeaning(env, name, [NumOf(a.value), NumOf(b.value)])))
      else if |children| == 1 then
        var a := Sql(plan, env, valid, level, children[0]);
        if a.None? then None else Some(Num(CallMeaning(env, name, [NumOf(a.value)])))
      else None
    case Unsupported(_) => None
  }

  function SqlJoin(plan: Plan, env: Env, valid: nat -> bool, level: nat, e: Expr, n: nat): Option<Meaning>
    requires level <= |plan.projs| && e.Conjunction? && n <= |e.children|
    decreases |plan.projs| - level, e, 0, n
  {
    if n == 0 then Some(Truth(e.conjunctive))
    else
      var rest, last := SqlJoin(plan, env, valid, level, e, n - 1), Sql(plan, env, valid, level, e.children[n - 1]);
      if e.conjunctive then And3(rest, last) else Or3(rest, last)
  }

  // ---- Rows without NULLs in the referenced columns ----

  ghost predicate AllValid(valid: nat -> bool, cols: set<nat>) {
    forall c :: c in cols ==> valid(c)
  }

  /** With every referenced column present, SQL's answer is the two-valued one. */
  lemma {:induction false} NoNullsAgree(plan: Plan, env: Env, valid: nat -> bool, level: nat, e: Expr)
    requires level <= |plan.projs| && Compile(plan, level, e).Some?
    requires AllValid(valid, Compile(plan, level, e).value.cols)
    ensures Sql(plan, env, valid, level, e) == Some(Eval(plan, env, level, e))
    ensures Compile(plan, level, e).value.lane == BOOL_LANE ==> Eval(plan, env, level, e).Truth?
    decreases |plan.projs| - level, e, 1, 0
  {
    match e
    case ColumnRef(table, column, ty) =>
      var at := FindProjection(plan.projs, level, table);
      if at < |plan.projs| {
        NoNullsAgree(plan, env, valid, at + 1, plan.projs[at].expressions[column]);
      }
    case Literal(c, ty) =>
    case Cast(child, ty, tryCast) =>
      NoNullsAgree(plan, env, valid, level, child);
    case Compare(cmp, l, r) =>
      NoNullsAgree(plan, env, valid, level, l);
      NoNullsAgree(plan, env, valid, level, r);
    case Conjunction(all, children) =>
      JoinAgrees(plan, env, valid, level, e, |children|);
    case Operator(_, children) =>
      NoNullsAgree(plan, env, valid, level, children[0]);
    case Call(name, children, _) =>
      NoNullsAgree(plan, env, valid, level, children[0]);
      if |children| == 2 {
        NoNullsAgree(plan, env, valid, level, children[1]);
      }
  }

  lemma {:induction false} JoinAgrees(plan: Plan, env: Env, valid: nat -> bool, level: nat, e: Expr, n: nat)
    requires level <= |plan.projs| && e.Conjunction? && 0 < n <= |e.children| && CompileJoin(plan, level, e, n).Some?
    requires AllValid(valid, CompileJoin(plan, level, e, n).value.cols)
    ensures SqlJoin(plan, env, valid, level, e, n) == Some(Truth(EvalJoin(plan, env, level, e, n)))
    decreases |plan.projs| - level, e, 0, n
  {
    NoNullsAgree(plan, env, valid, level, e.children[n - 1]);
    if n > 1 {
      JoinAgrees(plan, env, valid, level, e, n - 1);
    } else {
      assert SqlJoin(plan, env, valid, level, e, 0) == Some(Truth(EvalJoin(plan, env, level, e, 0)));
    }
  }

  // ---- Rows with NULLs ----

  /** Trees in which a NULL anywhere makes the whole NULL: values, comparisons, negations of those. */
  ghost predicate Strict(plan: Plan, level: nat, e: Expr)
    requires level <= |plan.projs|
    decreases |plan.projs| - level, e
  {
    match e
    case ColumnRef(table, column, _) =>
      var at := FindProjection(plan.projs, level, table);
      at < |plan.projs| && column < |plan.projs[at].expressions| ==>
        Strict(plan, at + 1, plan.projs[at].expressions[column])
    case Literal(_, _) => true
    case Cast(child, _, _) => Strict(plan, level, child)
    case Compare(_, l, r) => Strict(plan, level, l) && Strict(plan, level, r)
    case Conjunction(_, _) => false
    case Operator(_, children) => forall i :: 0 <= i < |children| ==> Strict(plan, level, children[i])
    case Call(_, children, _) => forall i :: 0 <= i < |children| ==> Strict(plan, level, children[i])
    case Unsupported(_) => true
  }

  /** The compiler only puts boolean trees under boolean operations, so every value tree is strict. */
  lemma {:induction false} ValuesAreStrict(plan: Plan, level: nat, e: Expr)
    requires level <= |plan.projs| && Compile(plan, level, e).Some? && Compile(plan, level, e).value.lane != BOOL_LANE
    ensures Strict(plan, level, e)
    decreases |plan.projs| - level, e
  {
    match e
    case ColumnRef(table, column, ty) =>
      var at := FindProjection(plan.projs, level, table);
      if at < |plan.projs| {
        ValuesAreStrict(plan, at + 1, plan.projs[at].expressions[column]);
      }
    case Literal(c, ty) =>
    case Cast(child, ty, tryCast) =>
      ValuesAreStrict(plan, level, child);
    case Call(name, children, _) =>
      ValuesAreStrict(plan, level, children[0]);
      if |children| == 2 {
        ValuesAreStrict(plan, level, children[1]);
      }
    case Conjunction(_, children) =>
      JoinIsBool(plan, level, e, |children|);
    case _ =>
  }

  lemma {:induction false} JoinIsBool(plan: Plan, level: nat, e: Expr, n: nat)
    requires level <= |plan.projs| && e.Conjunction? && 0 < n <= |e.children| && CompileJoin(plan, level, e, n).Some?
    ensures CompileJoin(plan, level, e, n).value.lane == BOOL_LANE
  {
  }

  /** A NULL in any referenced column makes a strict tree NULL. */
  lemma {:induction false} StrictNull(plan: Plan, env: Env, valid: nat -> bool, level: nat, e: Expr)
    requires level <= |plan.projs| && Compile(plan, level, e).Some? && Strict(plan, level, e)
    requires !AllValid(valid, Compile(plan, level, e).value.cols)
    ensures Sql(plan, env, valid, level, e).None?
    decreases |plan.projs| - level, e
  {
    match e
    case ColumnRef(table, column, ty) =>
      var at := FindProjection(plan.projs, level, table);
      if at < |plan.projs| {
        StrictNull(plan, env, valid, at + 1, plan.projs[at].expressions[column]);
      }
    case Literal(c, ty) =>
    case Cast(child, ty, tryCast) =>
      StrictNull(plan, env, valid, level, child);
    case Compare(cmp, l, r) =>
      if !AllValid(valid, Compile(plan, level, l).value.cols) {
        StrictNull(plan, env, valid, level, l);
      } else {
        StrictNull(plan, env, valid, level, r);
      }
    case Operator(_, children) =>
      StrictNull(plan, env, valid, level, children[0]);
    case Call(name, children, _) =>
      if |children| == 2 {
        if !AllValid(valid, Compile(plan, level, children[0]).value.cols) {
          StrictNull(plan, env, valid, level, children[0]);
        } else {
          StrictNull(plan, env, valid, level, children[1]);
        }
      } else {
        StrictNull(plan, env, valid, level, children[0]);
      }
  }

  // ---- Program masks ----

  /** A value program's mask, the validity of every column it loads, holds exactly when SQL's value is
      not NULL, and then the values agree. */
  lemma {:induction false} ProgramMaskIsNotNull(plan: Plan, env: Env, valid: nat -> bool, e: Expr)
    requires Compile(plan, 0, e).Some? && Compile(plan, 0, e).value.lane != BOOL_LANE
    ensures AllValid(valid, Compile(plan, 0, e).value.cols) <==> Sql(plan, env, valid, 0, e).Some?
    ensures Sql(plan, env, valid, 0, e).Some? ==> Sql(plan, env, valid, 0, e).value == Eval(plan, env, 0, e)
  {
    ValuesAreStrict(plan, 0, e);
    if AllValid(valid, Compile(plan, 0, e).value.cols) {
      NoNullsAgree(plan, env, valid, 0, e);
    } else {
      StrictNull(plan, env, valid, 0, e);
    }
  }

  // ---- Filter masks ----

  ghost predicate SqlTrue(plan: Plan, env: Env, valid: nat -> bool, e: Expr) {
    Sql(plan, env, valid, 0, e) == Some(Truth(true))
  }

  /** The bridge keeps a row when the predicate evaluates to true and no referenced column is NULL. */
  ghost predicate FilterMask(plan: Plan, env: Env, valid: nat -> bool, e: Expr)
    requires Compile(plan, 0, e).Some?
  {
    AllValid(valid, Compile(plan, 0, e).value.cols) && Eval(plan, env, 0, e) == Truth(true)
  }

  /** The mask is SQL TRUE on the rows without NULLs among the referenced columns: it never keeps a row
      SQL drops, and it drops exactly those TRUE rows that have a NULL there. */
  lemma {:induction false} FilterMaskExact(plan: Plan, env: Env, valid: nat -> bool, e: Expr)
    requires Compile(plan, 0, e).Some?
    ensures FilterMask(plan, env, valid, e) <==>
            SqlTrue(plan, env, valid, e) && AllValid(valid, Compile(plan, 0, e).value.cols)
  {
    if AllValid(valid, Compile(plan, 0, e).value.cols) {
      NoNullsAgree(plan, env, valid, 0, e);
    }
  }

  /** AND-combinations of strict predicates, comparisons and their negations. */
  ghost predicate Conjunctive(plan: Plan, e: Expr) {
    Strict(plan, 0, e)
    || (e.Conjunction? && e.conjunctive && forall i :: 0 <= i < |e.children| ==> Conjunctive(plan, e.children[i]))
  }

  /** In such a filter a NULL in a referenced column is never SQL TRUE. */
  lemma {:induction false} ConjunctiveNull(plan: Plan, env: Env, valid: nat -> bool, e: Expr)
    requires Compile(plan, 0, e).Some? && Conjunctive(plan, e)
    requires !AllValid(valid, Compile(plan, 0, e).value.cols)
    ensures !SqlTrue(plan, env, valid, e)
    decreases e, 1, 0
  {
    if Strict(plan, 0, e) {
      StrictNull(plan, env, valid, 0, e);
    } else {
      ConjunctiveJoinNull(plan, env, valid, e, |e.children|);
    }
  }

  lemma {:induction false} ConjunctiveJoinNull(plan: Plan, env: Env, valid: nat -> bool, e: Expr, n: nat)
    requires e.Conjunction? && e.conjunctive && 0 < n <= |e.children| && CompileJoin(plan, 0, e, n).Some?
    requires forall i :: 0 <= i < |e.children| ==> Conjunctive(plan, e.children[i])
    requires !AllValid(valid, CompileJoin(plan, 0, e, n).value.cols)
    ensures SqlJoin(plan, env, valid, 0, e, n) != Some(Truth(true))
    decreases e, 0, n
  {
    var last := e.children[n - 1];
    if !AllValid(valid, Compile(plan, 0, last).value.cols) {
      ConjunctiveNull(plan, env, valid, last);
    } else {
      ConjunctiveJoinNull(plan, env, valid, e, n - 1);
    }
  }

  /** For those filters mask and SQL TRUE are the same. */
  lemma {:induction false} ConjunctiveMaskIsSqlTrue(plan: Plan, env: Env, valid: nat -> bool, e: Expr)
    requires Compile(plan, 0, e).Some? && Conjunctive(plan, e)
    ensures FilterMask(plan, env, valid, e) <==> SqlTrue(plan, env, valid, e)
  {
    FilterMaskExact(plan, env, valid, e);
    if !AllValid(valid, Compile(plan, 0, e).value.cols) {
      ConjunctiveNull(plan, env, valid, e);
    }
  }

  // ---- A disjunction that loses a row ----

  function Column(c: nat): Expr { ColumnRef(0, c, DoubleT) }

  function EqualsOne(c: nat): Expr { Compare(Some(EQ), Column(c), Literal(Number(1.0), DoubleT)) }

  function OneOrOne(): Expr { Conjunction(false, [EqualsOne(0), EqualsOne(1)]) }

  function TwoColumns(): Plan { Plan([], Scan(0, [0, 1])) }

  /** a = 1 OR b = 1 with a = 1 and b NULL is SQL TRUE, and the mask drops the row. */
  lemma {:induction false} DisjunctionLosesRow(env: Env)
    requires env.row(0) == Real(1.0)
    ensures Compile(TwoColumns(), 0, OneOrOne()).Some?
    ensures SqlTrue(TwoColumns(), env, c => c != 1, OneOrOne())
    ensures !FilterMask(TwoColumns(), env, c => c != 1, OneOrOne())
  {
    OneOrOneLoadsBoth();
    var plan, e, valid := TwoColumns(), OneOrOne(), (c: nat) => c != 1;
    assert Sql(plan, env, valid, 0, EqualsOne(0)) == Some(Truth(true));
    assert SqlJoin(plan, env, valid, 0, e, 0) == Some(Truth(false));
    assert SqlJoin(plan, env, valid, 0, e, 1) == Some(Truth(true));
  }

  lemma {:induction false} OneOrOneLoadsBoth()
    ensures Compile(TwoColumns(), 0, OneOrOne()).Some? && 1 in Compile(TwoColumns(), 0, OneOrOne()).value.cols
  {
    var plan, e := TwoColumns(), OneOrOne();
    assert FindProjection(plan.projs, 0, 0) == 0;
    assert Compile(plan, 0, EqualsOne(0)).Some? && Compile(plan, 0, EqualsOne(1)).Some?;
    assert CompileJoin(plan, 0, e, 1) == Compile(plan, 0, EqualsOne(0));
    assert 1 in Compile(plan, 0, EqualsOne(1)).value.cols;
    assert 1 in CompileJoin(plan, 0, e, 2).value.cols;
  }
}
