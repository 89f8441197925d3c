/** Pushed-down table filters, and how the scan's whole predicate is assembled from its parts. */
module FilterAssembly {
  import opened NullLogic
  import opened Postfix
  import opened Translator
  import opened TranslatorCorrectness

  // ---- Table filters on one column ----

  /** A constant comparison carries its constant already cast to the column's lane; None where the
      source finds no such constant. */
  datatype TableFilter =
    | ConstantComparison(cmp: Option<Comparison>, constant: Option<Value>)
    | AllOf(children: seq<TableFilter>)
    | AnyOf(children: seq<TableFilter>)
    | IsNotNull
    | OtherFilter

  function ConstantOp(v: Value): Option<Op> {
    match v
    case Int(i) => Some(ConstInt(i))
    case Real(r) => Some(ConstFloat(r))
    case Bool(_) => None
  }

  /** TranslateTableFilter. */
  function CompileFilter(f: TableFilter, col: nat): Option<seq<Op>>
    decreases f, 1, 0
  {
    match f
    case ConstantComparison(cmp, constant) =>
      if cmp.None? || constant.None? || ConstantOp(constant.value).None? then None
      else Some([LoadCol(col), ConstantOp(constant.value).value, Cmp(cmp.value)])
    case AllOf(children) => if children == [] then None else CompileChildren(f, children, And, col, |children|)
    case AnyOf(children) => if children == [] then None else CompileChildren(f, children, Or, col, |children|)
    case IsNotNull => Some([])
    case OtherFilter => None
  }

  /** The first n children, an operation after each but the first, whatever they emitted. */
  function CompileChildren(f: TableFilter, children: seq<TableFilter>, op: Op, col: nat, n: nat): Option<seq<Op>>
    requires 0 < n <= |children| && (f == AllOf(children) || f == AnyOf(children))
    decreases f, 0, n
  {
    match CompileFilter(children[n - 1], col)
    case None => None
    case Some(last) =>
      if n == 1 then Some(last)
      else
        match CompileChildren(f, children, op, col, n - 1)
        case None => None
        case Some(front) => Some(front + last + [op])
  }

  /** The filters that are taken: comparisons with a constant, non-empty ANDs and ORs, IS NOT NULL. */
  ghost predicate FilterTaken(f: TableFilter)
    decreases f
  {
    match f
    case ConstantComparison(cmp, constant) =>
      cmp.Some? && constant.Some? && (constant.value.Int? || constant.value.Real?)
    case AllOf(children) => children != [] && forall i :: 0 <= i < |children| ==> FilterTaken(children[i])
    case AnyOf(children) => children != [] && forall i :: 0 <= i < |children| ==> FilterTaken(children[i])
    case IsNotNull => true
    case OtherFilter => false
  }

  lemma {:induction false} FilterTakenIff(f: TableFilter, col: nat)
    ensures CompileFilter(f, col).Some? <==> FilterTaken(f)
    decreases f, 1, 0
  {
    match f
    case AllOf(children) =>
      if children != [] {
        ChildrenTakenIff(f, children, And, col, |children|);
      }
    case AnyOf(children) =>
      if children != [] {
        ChildrenTakenIff(f, children, Or, col, |children|);
      }
    case _ =>
  }

  lemma {:induction false} ChildrenTakenIff(f: TableFilter, children: seq<TableFilter>, op: Op, col: nat, n: nat)
    requires 0 < n <= |children| && (f == AllOf(children) || f == AnyOf(children))
    ensures CompileChildren(f, children, op, col, n).Some? <==> forall i :: 0 <= i < n ==> FilterTaken(children[i])
    decreases f, 0, n
  {
    FilterTakenIff(children[n - 1], col);
    if n > 1 {
      ChildrenTakenIff(f, children, op, col, n - 1);
    }
  }

  /** The filter's truth on a value that is present. */
  predicate Holds(f: TableFilter, v: Value)
    decreases f, 1, 0
  {
    match f
    case ConstantComparison(cmp, constant) =>
      cmp.Some? && constant.Some? &&
      (match (v, constant.value)
       case (Int(a), Int(b)) => Related(cmp.value, a as real, b as real)
       case (Real(a), Real(b)) => Related(cmp.value, a, b)
       case _ => false)
    case AllOf(children) => HoldsOver(f, children, true, v, |children|)
    case AnyOf(children) => HoldsOver(f, children, false, v, |children|)
    case IsNotNull => true
    case OtherFilter => false
  }

  predicate HoldsOver(f: TableFilter, children: seq<TableFilter>, all: bool, v: Value, n: nat)
    requires n <= |children| && (f == AllOf(children) || f == AnyOf(children))
    decreases f, 0, n
  {
    if n == 0 then all
    else if all then HoldsOver(f, children, all, v, n - 1) && Holds(children[n - 1], v)
    else HoldsOver(f, children, all, v, n - 1) || Holds(children[n - 1], v)
  }

  /** SQL's three-valued truth of the filter on a column value that may be NULL. */
  function SqlFilter(f: TableFilter, v: Option<Value>): Option<Meaning>
    decreases f, 1, 0
  {
    match f
    case ConstantComparison(cmp, constant) => if v.None? then None else Some(Truth(Holds(f, v.value)))
    case AllOf(children) => SqlOver(f, children, true, v, |children|)
    case AnyOf(children) => SqlOver(f, children, false, v, |children|)
    case IsNotNull => Some(Truth(v.Some?))
    case OtherFilter => None
  }

  function SqlOver(f: TableFilter, children: seq<TableFilter>, all: bool, v: Option<Value>, n: nat): Option<Meaning>
    requires n <= |children| && (f == AllOf(children) || f == AnyOf(children))
    decreases f, 0, n
  {
    if n == 0 then Some(Truth(all))
    else if all then And3(SqlOver(f, children, all, v, n - 1), SqlFilter(children[n - 1], v))
    else Or3(SqlOver(f, children, all, v, n - 1), SqlFilter(children[n - 1], v))
  }

  /** Constants are in the column's lane. */
  ghost predicate LaneTyped(f: TableFilter, v: Value)
    decreases f
  {
    match f
    case ConstantComparison(_, constant) =>
      constant.Some? ==> !v.Bool? && (v.Int? <==> constant.value.Int?) && (v.Real? <==> constant.value.Real?)
    case AllOf(children) => forall i :: 0 <= i < |children| ==> LaneTyped(children[i], v)
    case AnyOf(children) => forall i :: 0 <= i < |children| ==> LaneTyped(children[i], v)
    case _ => true
  }

  /** How many IS NOT NULL leaves a filter has. */
  function NotNulls(f: TableFilter): nat
    decreases f, 1, 0
  {
    match f
    case IsNotNull => 1
    case AllOf(children) => NotNullsOver(f, children, |children|)
    case AnyOf(children) => NotNullsOver(f, children, |children|)
    case _ => 0
  }

  function NotNullsOver(f: TableFilter, children: seq<TableFilter>, n: nat): nat
    requires n <= |children| && (f == AllOf(children) || f == AnyOf(children))
    decreases f, 0, n
  {
    if n == 0 then 0 else NotNullsOver(f, children, n - 1) + NotNulls(children[n - 1])
  }

  // ---- Without IS NOT NULL inside, the code is the filter ----

  lemma {:induction false} FilterYields(env: Env, f: TableFilter, col: nat)
    requires CompileFilter(f, col).Some? && NotNulls(f) == 0 && LaneTyped(f, env.row(col))
    ensures Yields(env, CompileFilter(f, col).value, Bool(Holds(f, env.row(col))))
    decreases f, 1, 0
  {
    match f
    case ConstantComparison(cmp, constant) =>
      var op := ConstantOp(constant.value).value;
      YieldsLeaf(env, LoadCol(col), env.row(col));
      YieldsLeaf(env, op, constant.value);
      YieldsBinary(env, [LoadCol(col)], [op], env.row(col), constant.value, Cmp(cmp.value));
      assert [LoadCol(col)] + [op] + [Cmp(cmp.value)] == [LoadCol(col), op, Cmp(cmp.value)];
    case AllOf(children) =>
      ChildrenYield(env, f, children, true, col, |children|);
    case AnyOf(children) =>
      ChildrenYield(env, f, children, false, col, |children|);
    case IsNotNull =>
  }

  lemma {:induction false} ChildrenYield(env: Env, f: TableFilter, children: seq<TableFilter>, all: bool, col: nat,
                                         n: nat)
    requires 0 < n <= |children| && f == (if all then AllOf(children) else AnyOf(children))
    requires CompileChildren(f, children, if all then And else Or, col, n).Some?
    requires NotNullsOver(f, children, n) == 0
    requires forall i :: 0 <= i < n ==> LaneTyped(children[i], env.row(col))
    ensures Yields(env, CompileChildren(f, children, if all then And else Or, col, n).value,
                   Bool(HoldsOver(f, children, all, env.row(col), n)))
    decreases f, 0, n
  {
    var last := children[n - 1];
    FilterYields(env, last, col);
    if n > 1 {
      ChildrenYield(env, f, children, all, col, n - 1);
      JoinStep(env, CompileChildren(f, children, if all then And else Or, col, n - 1).value,
               CompileFilter(last, col).value, HoldsOver(f, children, all, env.row(col), n - 1),
               Holds(last, env.row(col)), all);
    } else {
      assert HoldsOver(f, children, all, env.row(col), 0) == all;
    }
  }

  // ---- With one, the stack cannot come out right ----

  /** Stack height gained by a list of operations. */
  function Effect(ops: seq<Op>): int {
    if ops == [] then 0
    else
      var op := ops[|ops| - 1];
      Effect(ops[..|ops| - 1]) + if IsUnary(op) then 0 else if IsBinary(op) then -1 else 1
  }

  lemma {:induction false} EffectAppend(ops: seq<Op>, op: Op)
    ensures Effect(ops + [op]) == Effect(ops) + if IsUnary(op) then 0 else if IsBinary(op) then -1 else 1
  {
    assert (ops + [op])[..|ops|] == ops;
  }

  lemma {:induction false} EffectConcat(a: seq<Op>, b: seq<Op>)
    ensures Effect(a + b) == Effect(a) + Effect(b)
  {
    if b == [] {
      assert a + b == a;
    } else {
      EffectConcat(a, b[..|b| - 1]);
      assert (a + b)[..|a + b| - 1] == a + b[..|b| - 1];
    }
  }

  lemma {:induction false} RunHeight(env: Env, ops: seq<Op>, stack: seq<Value>)
    requires Run(env, ops, stack).Some?
    ensures |Run(env, ops, stack).value| == |stack| + Effect(ops)
  {
    if ops != [] {
      RunHeight(env, ops[..|ops| - 1], stack);
      StepHeight(env, ops[|ops| - 1], Run(env, ops[..|ops| - 1], stack).value);
    }
  }

  lemma {:induction false} StepHeight(env: Env, op: Op, stack: seq<Value>)
    requires Step(env, op, stack).Some?
    ensures |Step(env, op, stack).value| == |stack| + if IsUnary(op) then 0 else if IsBinary(op) then -1 else 1
  {
  }

  /** An accepted filter's code gains one value less one for every IS NOT NULL in it. */
  lemma {:induction false} FilterEffect(f: TableFilter, col: nat)
    requires CompileFilter(f, col).Some?
    ensures Effect(CompileFilter(f, col).value) == 1 - NotNulls(f)
    decreases f, 1, 0
  {
    match f
    case ConstantComparison(cmp, constant) =>
      var op := ConstantOp(constant.value).value;
      EffectAppend([], LoadCol(col));
      EffectAppend([] + [LoadCol(col)], op);
      EffectAppend([] + [LoadCol(col)] + [op], Cmp(cmp.value));
      assert [LoadCol(col), op, Cmp(cmp.value)] == [] + [LoadCol(col)] + [op] + [Cmp(cmp.value)];
    case AllOf(children) =>
      ChildrenEffect(f, children, And, col, |children|);
    case AnyOf(children) =>
      ChildrenEffect(f, children, Or, col, |children|);
    case IsNotNull =>
  }

  lemma {:induction false} ChildrenEffect(f: TableFilter, children: seq<TableFilter>, op: Op, col: nat, n: nat)
    requires 0 < n <= |children| && (f == AllOf(children) || f == AnyOf(children)) && IsBinary(op) && !IsUnary(op)
    requires CompileChildren(f, children, op, col, n).Some?
    ensures Effect(CompileChildren(f, children, op, col, n).value) == 1 - NotNullsOver(f, children, n)
    decreases f, 0, n
  {
    var last := CompileFilter(children[n - 1], col).value;
    FilterEffect(children[n - 1], col);
    if n > 1 {
      ChildrenEffect(f, children, op, col, n - 1);
      var front := CompileChildren(f, children, op, col, n - 1).value;
      EffectConcat(front, last);
      assert (front + last + [op])[..|front + last|] == front + last;
    } else {
      assert NotNullsOver(f, children, 0) == 0;
    }
  }

  ghost predicate WellFormedCode(env: Env, ops: seq<Op>) {
    Run(env, ops, []).Some? && |Run(env, ops, []).value| == 1
  }

  /** An accepted filter runs to one truth value exactly when no IS NOT NULL occurs in it; what that means
      for the predicate it becomes part of is PartYieldsIff. */
  lemma {:induction false} WellFormedIff(env: Env, f: TableFilter, col: nat)
    requires CompileFilter(f, col).Some? && LaneTyped(f, env.row(col))
    ensures WellFormedCode(env, CompileFilter(f, col).value) <==> NotNulls(f) == 0
  {
    var ops := CompileFilter(f, col).value;
    if NotNulls(f) == 0 {
      FilterYields(env, f, col);
      assert Run(env, ops, []) == Some([] + [Bool(Holds(f, env.row(col)))]);
    } else if Run(env, ops, []).Some? {
      RunHeight(env, ops, []);
      FilterEffect(f, col);
    }
  }

  // ---- Single-column filters agree with SQL ----

  lemma {:induction false} PresentAgrees(f: TableFilter, v: Value, col: nat)
    requires CompileFilter(f, col).Some?
    ensures SqlFilter(f, Some(v)) == Some(Truth(Holds(f, v)))
    decreases f, 1, 0
  {
    match f
    case AllOf(children) => ChildrenAgree(f, children, true, v, col, |children|);
    case AnyOf(children) => ChildrenAgree(f, children, false, v, col, |children|);
    case _ =>
  }

  lemma {:induction false} ChildrenAgree(f: TableFilter, children: seq<TableFilter>, all: bool, v: Value, col: nat,
                                         n: nat)
    requires 0 < n <= |children| && f == (if all then AllOf(children) else AnyOf(children))
    requires CompileChildren(f, children, if all then And else Or, col, n).Some?
    ensures SqlOver(f, children, all, Some(v), n) == Some(Truth(HoldsOver(f, children, all, v, n)))
    decreases f, 0, n
  {
    PresentAgrees(children[n - 1], v, col);
    if n > 1 {
      ChildrenAgree(f, children, all, v, col, n - 1);
    } else {
      assert SqlOver(f, children, all, Some(v), 0) == Some(Truth(HoldsOver(f, children, all, v, 0)));
    }
  }

  lemma {:induction false} AbsentNotTrue(f: TableFilter, col: nat)
    requires CompileFilter(f, col).Some?
    ensures SqlFilter(f, None) != Some(Truth(true))
    decreases f, 1, 0
  {
    match f
    case AllOf(children) => ChildrenNotTrue(f, children, true, col, |children|);
    case AnyOf(children) => ChildrenNotTrue(f, children, false, col, |children|);
    case _ =>
  }

  lemma {:induction false} ChildrenNotTrue(f: TableFilter, children: seq<TableFilter>, all: bool, col: nat, n: nat)
    requires 0 < n <= |children| && f == (if all then AllOf(children) else AnyOf(children))
    requires CompileChildren(f, children, if all then And else Or, col, n).Some?
    ensures SqlOver(f, children, all, None, n) != Some(Truth(true))
    decreases f, 0, n
  {
    AbsentNotTrue(children[n - 1], col);
    if n > 1 {
      ChildrenNotTrue(f, children, all, col, n - 1);
    } else {
      assert SqlOver(f, children, all, None, 0) == Some(Truth(all));
    }
  }

  /** One column, so its validity is the whole NULL mask: keeping the rows where the column is present
      and the filter holds keeps exactly the rows where SQL's answer is TRUE, disjunctions included. */
  lemma {:induction false} TableFilterMaskIsSqlTrue(f: TableFilter, v: Option<Value>, col: nat)
    requires CompileFilter(f, col).Some?
    ensures v.Some? && Holds(f, v.value) <==> SqlFilter(f, v) == Some(Truth(true))
  {
    if v.Some? {
      PresentAgrees(f, v.value, col);
    } else {
      AbsentNotTrue(f, col);
    }
  }

  // ---- The whole predicate ----

  /** A part of the scan's predicate: its code, possibly none, and the columns whose NULLs mask rows. */
  datatype Part = Part(ops: seq<Op>, cols: set<nat>)

  datatype Filter = Filter(ops: seq<Op>, nullCols: set<nat>)

  /** WHERE expressions and table filters are appended one after another, an AND after each one that
      adds code to code already there. */
  method AssembleFilter(parts: seq<Part>) returns (filter: Filter)
    ensures filter == Assembled(parts, |parts|)
  {
    filter := Filter([], {});
    for i := 0 to |parts|
      invariant filter == Assembled(parts, i)
    {
      var cols := filter.nullCols + parts[i].cols;
      if parts[i].ops == [] {
        filter := Filter(filter.ops, cols);
      } else {
        var hadOps := filter.ops != [];
        var ops := filter.ops + parts[i].ops;
        if hadOps {
          ops := ops + [And];
        }
        filter := Filter(ops, cols);
      }
    }
  }

  function Assembled(parts: seq<Part>, n: nat): Filter
    requires n <= |parts|
  {
    if n == 0 then Filter([], {})
    else
      var front, part := Assembled(parts, n - 1), parts[n - 1];
      Filter(if part.ops == [] then front.ops
             else if front.ops == [] then part.ops
             else front.ops + part.ops + [And],
             front.nullCols + part.cols)
  }

  /** A part's code, if any, comes out as `truth`; a part without code is left to its mask. */
  ghost predicate PartYields(env: Env, ops: seq<Op>, truth: bool) {
    if ops == [] then truth else Yields(env, ops, Bool(truth))
  }

  /** Filters that emit nothing only ask for the column to be present. */
  lemma {:induction false} CodelessHolds(f: TableFilter, v: Value, col: nat)
    requires CompileFilter(f, col) == Some([])
    ensures Holds(f, v)
    decreases f, 1
  {
    match f
    case AllOf(children) => OnlyChild(f, children, And, v, col);
    case AnyOf(children) => OnlyChild(f, children, Or, v, col);
    case _ =>
  }

  lemma {:induction false} OnlyChild(f: TableFilter, children: seq<TableFilter>, op: Op, v: Value, col: nat)
    requires (f == AllOf(children) || f == AnyOf(children)) && children != []
    requires CompileChildren(f, children, op, col, |children|) == Some([])
    ensures HoldsOver(f, children, f.AllOf?, v, |children|)
    decreases f, 0
  {
    assert |children| == 1;
    CodelessHolds(children[0], v, col);
    assert HoldsOver(f, children, f.AllOf?, v, 0) == f.AllOf?;
  }

  /** As a part of the predicate an accepted filter does its work exactly when no IS NOT NULL occurs in it or
      it emits no code at all: a lone IS NOT NULL is left to the mask, while one among other conditions
      leaves the operation that joins them without an operand. */
  lemma {:induction false} PartYieldsIff(env: Env, f: TableFilter, col: nat)
    requires CompileFilter(f, col).Some? && LaneTyped(f, env.row(col))
    ensures PartYields(env, CompileFilter(f, col).value, Holds(f, env.row(col))) <==>
            NotNulls(f) == 0 || CompileFilter(f, col).value == []
  {
    var ops, truth := CompileFilter(f, col).value, Holds(f, env.row(col));
    FilterEffect(f, col);
    if ops == [] {
      CodelessHolds(f, env.row(col), col);
    } else if NotNulls(f) == 0 {
      FilterYields(env, f, col);
    } else if Yields(env, ops, Bool(truth)) {
      assert Run(env, ops, []) == Some([] + [Bool(truth)]);
      RunHeight(env, ops, []);
    }
  }

  /** The conjunction of the first n truths. */
  function AllTrue(truths: seq<bool>, n: nat): (r: bool)
    requires n <= |truths|
    ensures r <==> forall i :: 0 <= i < n ==> truths[i]
  {
    if n == 0 then true else AllTrue(truths, n - 1) && truths[n - 1]
  }

  /** The assembled code is well formed and is the conjunction of its parts. */
  lemma {:induction false} AssembledIsConjunction(env: Env, parts: seq<Part>, truths: seq<bool>, n: nat)
    requires n <= |parts| == |truths|
    requires forall i :: 0 <= i < |parts| ==> PartYields(env, parts[i].ops, truths[i])
    ensures PartYields(env, Assembled(parts, n).ops, AllTrue(truths, n))
  {
    if n > 0 {
      AssembledIsConjunction(env, parts, truths, n - 1);
      AppendPart(env, Assembled(parts, n - 1).ops, parts[n - 1].ops, AllTrue(truths, n - 1), truths[n - 1]);
    }
  }

  lemma {:induction false} AppendPart(env: Env, front: seq<Op>, part: seq<Op>, x: bool, y: bool)
    requires PartYields(env, front, x) && PartYields(env, part, y)
    ensures PartYields(env, if part == [] then front else if front == [] then part else front + part + [And], x && y)
  {
    if part != [] && front != [] {
      JoinStep(env, front, part, x, y, true);
    }
  }

  /** Its mask columns are the parts' columns. */
  lemma {:induction false} AssembledMask(valid: nat -> bool, parts: seq<Part>, n: nat)
    requires n <= |parts|
    ensures AllValid(valid, Assembled(parts, n).nullCols) <==>
            forall i :: 0 <= i < n ==> AllValid(valid, parts[i].cols)
  {
    if n > 0 {
      AssembledMask(valid, parts, n - 1);
    }
  }
}
