/** The postfix programs the planner emits and the stack machine the bridge runs them on, one row
    at a time. The int lane holds exact integers and the float lane exact reals. */
module Postfix {

  datatype Option<T> = None | Some(value: T)

  datatype Value = Int(i: int) | Real(r: real) | Bool(b: bool)

  datatype Comparison = LT | LE | GT | GE | EQ | NE

  datatype FloatFunction = SIN | COS | SQRT

  datatype Op =
    | LoadCol(col: nat)
    | ConstInt(ivalue: int)
    | ConstFloat(value: real)
    | ToFloat(factor: real)
    | Negate
    | Abs
    | Apply(fn: FloatFunction)
    | Not
    | Add
    | Sub
    | Mul
    | Div
    | Cmp(cmp: Comparison)
    | And
    | Or

  /** A row's column values, and the functions the model leaves uninterpreted. */
  datatype Env = Env(row: nat -> Value, apply: (FloatFunction, real) -> real, divide: (real, real) -> real)

  function CompareInt(c: Comparison, a: int, b: int): bool {
    match c
    case LT => a < b
    case LE => a <= b
    case GT => a > b
    case GE => a >= b
    case EQ => a == b
    case NE => a != b
  }

  function CompareReal(c: Comparison, a: real, b: real): bool {
    match c
    case LT => a < b
    case LE => a <= b
    case GT => a > b
    case GE => a >= b
    case EQ => a == b
    case NE => a != b
  }

  /** What a comparison says of two numbers, in terms of `at most` alone. */
  predicate Related(c: Comparison, x: real, y: real) {
    match c
    case LT => !(y <= x)
    case LE => x <= y
    case GT => !(x <= y)
    case GE => y <= x
    case EQ => x <= y && y <= x
    case NE => !(x <= y && y <= x)
  }

  /** An integer taken to the float lane and multiplied. */
  function Rescale(x: int, factor: real): real {
    x as real * factor
  }

  function Unary(env: Env, op: Op, a: Value): Option<Value> {
    match (op, a)
    case (ToFloat(f), Int(x)) => Some(Real(Rescale(x, f)))
    case (Negate, Int(x)) => Some(Int(-x))
    case (Negate, Real(x)) => Some(Real(-x))
    case (Abs, Int(x)) => Some(Int(if x < 0 then -x else x))
    case (Abs, Real(x)) => Some(Real(if x < 0.0 then -x else x))
    case (Apply(f), Real(x)) => Some(Real(env.apply(f, x)))
    case (Not, Bool(x)) => Some(Bool(!x))
    case _ => None
  }

  function Binary(env: Env, op: Op, a: Value, b: Value): Option<Value> {
    match (op, a, b)
    case (Add, Int(x), Int(y)) => Some(Int(x + y))
    case (Add, Real(x), Real(y)) => Some(Real(x + y))
    case (Sub, Int(x), Int(y)) => Some(Int(x - y))
    case (Sub, Real(x), Real(y)) => Some(Real(x - y))
    case (Mul, Int(x), Int(y)) => Some(Int(x * y))
    case (Mul, Real(x), Real(y)) => Some(Real(x * y))
    case (Div, Real(x), Real(y)) => Some(Real(env.divide(x, y)))
    case (Cmp(c), Int(x), Int(y)) => Some(Bool(CompareInt(c, x, y)))
    case (Cmp(c), Real(x), Real(y)) => Some(Bool(CompareReal(c, x, y)))
    case (And, Bool(x), Bool(y)) => Some(Bool(x && y))
    case (Or, Bool(x), Bool(y)) => Some(Bool(x || y))
    case _ => None
  }

  predicate IsUnary(op: Op) {
    op.ToFloat? || op.Negate? || op.Abs? || op.Apply? || op.Not?
  }

  predicate IsBinary(op: Op) {
    op.Add? || op.Sub? || op.Mul? || op.Div? || op.Cmp? || op.And? || op.Or?
  }

  function Push(stack: seq<Value>, v: Option<Value>): Option<seq<Value>> {
    match v
    case None => None
    case Some(x) => Some(stack + [x])
  }

  /** One operation. None: the stack underflows, or the operands are of the wrong lane. */
  function Step(env: Env, op: Op, stack: seq<Value>): Option<seq<Value>> {
    var n := |stack|;
    match op
    case LoadCol(c) => Some(stack + [env.row(c)])
    case ConstInt(v) => Some(stack + [Int(v)])
    case ConstFloat(v) => Some(stack + [Real(v)])
    case _ =>
      if IsUnary(op) then
        if n < 1 then None else Push(stack[..n - 1], Unary(env, op, stack[n - 1]))
      else
        if n < 2 then None else Push(stack[..n - 2], Binary(env, op, stack[n - 2], stack[n - 1]))
  }

  function Run(env: Env, ops: seq<Op>, stack: seq<Value>): Option<seq<Value>> {
    if ops == [] then Some(stack)
    else
      match Run(env, ops[..|ops| - 1], stack)
      case None => None
      case Some(s) => Step(env, ops[|ops| - 1], s)
  }

  lemma {:induction false} RunAppend(env: Env, ops: seq<Op>, op: Op, stack: seq<Value>)
    ensures Run(env, ops + [op], stack) ==
            if Run(env, ops, stack).None? then None else Step(env, op, Run(env, ops, stack).value)
  {
    assert (ops + [op])[..|ops|] == ops;
  }

  lemma {:induction false} RunConcat(env: Env, a: seq<Op>, b: seq<Op>, stack: seq<Value>)
    requires Run(env, a, stack).Some?
    ensures Run(env, a + b, stack) == Run(env, b, Run(env, a, stack).value)
  {
    if b == [] {
      assert a + b == a;
    } else {
      var front, last, s := b[..|b| - 1], b[|b| - 1], Run(env, a, stack).value;
      RunConcat(env, a, front, stack);
      assert a + b == (a + front) + [last] && b == front + [last];
      RunAppend(env, a + front, last, stack);
      RunAppend(env, front, last, s);
    }
  }

  /** Running code on a program's stack leaves everything below it alone. */
  lemma {:induction false} RunPrefix(env: Env, ops: seq<Op>, n: nat, stack: seq<Value>)
    requires n <= |ops| && Run(env, ops, stack).Some?
    ensures Run(env, ops[..n], stack).Some?
    decreases |ops|
  {
    if n < |ops| {
      RunPrefix(env, ops[..|ops| - 1], n, stack);
      assert ops[..|ops| - 1][..n] == ops[..n];
    } else {
      assert ops[..n] == ops;
    }
  }

  /** The body of the loop: pops the operands, pushes the result. */
  method EvalOp(env: Env, op: Op, stack0: seq<Value>) returns (stack: seq<Value>)
    requires Step(env, op, stack0).Some?
    ensures Step(env, op, stack0) == Some(stack)
  {
    stack := stack0;
    if op.LoadCol? {
      stack := stack + [env.row(op.col)];
    } else if op.ConstInt? {
      stack := stack + [Int(op.ivalue)];
    } else if op.ConstFloat? {
      stack := stack + [Real(op.value)];
    } else if IsUnary(op) {
      var a := stack[|stack| - 1];
      stack := stack[..|stack| - 1];
      stack := stack + [Unary(env, op, a).value];
    } else {
      assert stack[..|stack| - 1][..|stack| - 2] == stack[..|stack| - 2];
      var b := stack[|stack| - 1];
      stack := stack[..|stack| - 1];
      var a := stack[|stack| - 1];
      stack := stack[..|stack| - 1];
      stack := stack + [Binary(env, op, a, b).value];
    }
  }

  /** EvalOps: the loop over the operations with its explicit stack. */
  method EvalOps(env: Env, ops: seq<Op>) returns (result: Value)
    requires Run(env, ops, []).Some? && Run(env, ops, []).value != []
    ensures result == Run(env, ops, []).value[|Run(env, ops, []).value| - 1]
  {
    var stack: seq<Value> := [];
    for i := 0 to |ops|
      invariant Run(env, ops[..i], []) == Some(stack)
    {
      RunPrefix(env, ops, i + 1, []);
      assert ops[..i + 1][..i] == ops[..i];
      stack := EvalOp(env, ops[i], stack);
    }
    assert ops[..|ops|] == ops;
    result := stack[|stack| - 1];
  }
}
