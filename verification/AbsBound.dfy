/** The planner's magnitude analysis of postfix programs, and what it buys: exact sums in a machine
    word whatever the order, and exact rows in a word even when columns or intermediates wrap. */
module AbsBound {
  import opened Arith
  import opened Postfix
  import opened Sums

  // ---- The analysis ----

  /** Smallest and largest stored value of a column, when the statistics know them. */
  datatype Range = Range(lo: int, hi: int)

  function Magnitude(x: int): nat { if x < 0 then -x else x }

  function Max(a: nat, b: nat): nat { if a >= b then a else b }

  /** One operation on the stack of bounds. None: the analysis declines. */
  function BoundStep(stats: nat -> Option<Range>, op: Op, stack: seq<nat>): Option<seq<nat>> {
    var n := |stack|;
    match op
    case LoadCol(c) =>
      (match stats(c)
       case None => None
       case Some(r) => Some(stack + [Max(Magnitude(r.lo), Magnitude(r.hi))]))
    case ConstInt(v) => Some(stack + [Magnitude(v)])
    case Add => if n < 2 then None else Some(stack[..n - 2] + [stack[n - 2] + stack[n - 1]])
    case Sub => if n < 2 then None else Some(stack[..n - 2] + [stack[n - 2] + stack[n - 1]])
    case Mul => if n < 2 then None else Some(stack[..n - 2] + [stack[n - 2] * stack[n - 1]])
    case Negate => if n < 1 then None else Some(stack)
    case Abs => if n < 1 then None else Some(stack)
    case _ => None
  }

  function Bounds(stats: nat -> Option<Range>, ops: seq<Op>): Option<seq<nat>> {
    if ops == [] then Some([])
    else
      match Bounds(stats, ops[..|ops| - 1])
      case None => None
      case Some(s) => BoundStep(stats, ops[|ops| - 1], s)
  }

  /** One operation of the analysis: pops the operands' bounds, pushes the result's. */
  method PushBound(stats: nat -> Option<Range>, op: Op, stack0: seq<nat>) returns (ok: bool, stack: seq<nat>)
    ensures ok <==> BoundStep(stats, op, stack0).Some?
    ensures ok ==> stack == BoundStep(stats, op, stack0).value
  {
    ok, stack := true, stack0;
    if op.LoadCol? {
      var range := stats(op.col);
      if range.None? {
        return false, stack;
      }
      stack := stack + [Max(Magnitude(range.value.lo), Magnitude(range.value.hi))];
    } else if op.ConstInt? {
      stack := stack + [Magnitude(op.ivalue)];
    } else if op.Add? || op.Sub? || op.Mul? {
      if |stack| < 2 {
        return false, stack;
      }
      var b := stack[|stack| - 1];
      stack := stack[..|stack| - 1];
      var a := stack[|stack| - 1];
      stack := stack[..|stack| - 1];
      assert stack == stack0[..|stack0| - 2];
      stack := stack + [if op.Mul? then a * b else a + b];
    } else if op.Negate? || op.Abs? {
      ok := |stack| >= 1;
    } else {
      ok := false;
    }
  }

  /** program_abs_bound over int-lane programs. */
  method ProgramAbsBound(stats: nat -> Option<Range>, ops: seq<Op>) returns (ok: bool, bound: nat)
    ensures ok <==> Bounds(stats, ops).Some?
    ensures ok ==> var s := Bounds(stats, ops).value; bound == if s == [] then 0 else s[|s| - 1]
  {
    var stack: seq<nat> := [];
    for i := 0 to |ops|
      invariant Bounds(stats, ops[..i]) == Some(stack)
    {
      assert ops[..i + 1][..i] == ops[..i];
      var known, next := PushBound(stats, ops[i], stack);
      if !known {
        BoundsFail(stats, ops, i + 1);
        return false, 0;
      }
      stack := next;
    }
    assert ops[..|ops|] == ops;
    ok, bound := true, if stack == [] then 0 else stack[|stack| - 1];
  }

  lemma {:induction false} BoundsFail(stats: nat -> Option<Range>, ops: seq<Op>, n: nat)
    requires n <= |ops| && Bounds(stats, ops[..n]).None?
    ensures Bounds(stats, ops).None?
    decreases |ops|
  {
    if n == |ops| {
      assert ops[..n] == ops;
    } else {
      assert ops[..|ops| - 1][..n] == ops[..n];
      BoundsFail(stats, ops[..|ops| - 1], n);
    }
  }

  // ---- A wrapping machine ----

  /** Two's complement reduction into [-half, half). */
  function Wrap(x: int, half: int): (r: int)
    requires half > 0
    ensures -half <= r < half
    ensures -half <= x < half ==> r == x
  {
    if -half <= x < half then
      SmallMod(x + half, 2 * half);
      (x + half) % (2 * half) - half
    else (x + half) % (2 * half) - half
  }

  /** The same programs on words of the given half range: columns and constants are cast, every result wraps. */
  function WordStep(row: nat -> int, half: int, op: Op, stack: seq<int>): Option<seq<int>>
    requires half > 0
  {
    var n := |stack|;
    match op
    case LoadCol(c) => Some(stack + [Wrap(row(c), half)])
    case ConstInt(v) => Some(stack + [Wrap(v, half)])
    case Add => if n < 2 then None else Some(stack[..n - 2] + [Wrap(stack[n - 2] + stack[n - 1], half)])
    case Sub => if n < 2 then None else Some(stack[..n - 2] + [Wrap(stack[n - 2] - stack[n - 1], half)])
    case Mul => if n < 2 then None else Some(stack[..n - 2] + [Wrap(stack[n - 2] * stack[n - 1], half)])
    case Negate => if n < 1 then None else Some(stack[..n - 1] + [Wrap(-stack[n - 1], half)])
    case Abs => if n < 1 then None else Some(stack[..n - 1] + [Wrap(Magnitude(stack[n - 1]), half)])
    case _ => None
  }

  function WordRun(row: nat -> int, half: int, ops: seq<Op>): Option<seq<int>>
    requires half > 0
  {
    if ops == [] then Some([])
    else
      match WordRun(row, half, ops[..|ops| - 1])
      case None => None
      case Some(s) => WordStep(row, half, ops[|ops| - 1], s)
  }

  // ---- Soundness ----

  ghost predicate WithinStats(stats: nat -> Option<Range>, row: nat -> int) {
    forall c :: stats(c).Some? ==> stats(c).value.lo <= row(c) <= stats(c).value.hi
  }

  function IntEnv(row: nat -> int, env: Env): Env {
    env.(row := (c: nat) => Int(row(c)))
  }

  /** One stack entry: the exact value v, its word w and its bound b. */
  ghost predicate EntryOk(v: Value, w: int, b: nat, half: int) {
    v.Int? && Magnitude(v.i) <= b && (b < half ==> w == v.i)
  }

  ghost predicate StacksOk(vs: seq<Value>, ws: seq<int>, bs: seq<nat>, half: int) {
    |vs| == |ws| == |bs| && forall i :: 0 <= i < |vs| ==> EntryOk(vs[i], ws[i], bs[i], half)
  }

  lemma {:induction false} ProductBound(a: int, b: int, x: nat, y: nat)
    requires Magnitude(a) <= x && Magnitude(b) <= y
    ensures Magnitude(a * b) <= x * y
  {
    var p, q := Magnitude(a), Magnitude(b);
    assert Magnitude(a * b) == p * q by {
      if a < 0 && b < 0 {
        assert a * b == (-a) * (-b);
      } else if a < 0 {
        assert a * b == -((-a) * b);
      } else if b < 0 {
        assert a * b == -(a * (-b));
      }
    }
    assert p * q <= x * q by { NatProductMonotone(p, x, q); }
    assert q * x <= y * x by { NatProductMonotone(q, y, x); }
  }

  lemma {:induction false} NatProductMonotone(a: nat, b: nat, c: nat)
    requires a <= b
    ensures a * c <= b * c
  {
    assert b * c == a * c + (b - a) * c;
    assert 0 <= (b - a) * c;
  }

  /** A product bounded below the word range has exact words: a factor whose bound is out of range meets
      only a zero. */
  lemma {:induction false} ProductWords(a: int, b: int, v: int, w: int, x: nat, y: nat, half: int)
    requires Magnitude(a) <= x && Magnitude(b) <= y && half > 0
    requires (x < half ==> v == a) && (y < half ==> w == b)
    requires x * y < half
    ensures Wrap(v * w, half) == a * b
  {
    ProductBound(a, b, x, y);
    if x == 0 {
      assert v * w == 0 && a * b == 0;
    } else if y == 0 {
      assert v * w == 0 && a * b == 0;
    } else {
      NatProductMonotone(1, x, y);
      NatProductMonotone(1, y, x);
    }
  }

  lemma {:induction false} BinaryEntry(env: Env, op: Op, v1: Value, v2: Value, w1: int, w2: int, b1: nat, b2: nat,
                                       half: int)
    requires half > 0 && EntryOk(v1, w1, b1, half) && EntryOk(v2, w2, b2, half)
    requires op.Add? || op.Sub? || op.Mul?
    ensures Binary(env, op, v1, v2).Some?
    ensures EntryOk(Binary(env, op, v1, v2).value,
                    Wrap(if op.Add? then w1 + w2 else if op.Sub? then w1 - w2 else w1 * w2, half),
                    if op.Mul? then b1 * b2 else b1 + b2, half)
  {
    if op.Mul? {
      ProductBound(v1.i, v2.i, b1, b2);
      if b1 * b2 < half {
        ProductWords(v1.i, v2.i, w1, w2, b1, b2, half);
      }
    }
  }

  /** Every operation keeps value, word and bound in step. */
  lemma {:induction false} StepOk(stats: nat -> Option<Range>, row: nat -> int, env: Env, half: int, op: Op,
                                  vs: seq<Value>, ws: seq<int>, bs: seq<nat>)
    requires half > 0 && WithinStats(stats, row) && StacksOk(vs, ws, bs, half) && BoundStep(stats, op, bs).Some?
    ensures Step(IntEnv(row, env), op, vs).Some? && WordStep(row, half, op, ws).Some?
    ensures StacksOk(Step(IntEnv(row, env), op, vs).value, WordStep(row, half, op, ws).value,
                     BoundStep(stats, op, bs).value, half)
  {
    if op.Add? || op.Sub? || op.Mul? {
      BinaryStepOk(stats, row, env, half, op, vs, ws, bs);
    } else if op.Negate? || op.Abs? {
      UnaryStepOk(stats, row, env, half, op, vs, ws, bs);
    } else if op.LoadCol? {
      assert stats(op.col).Some?;
    }
  }

  lemma {:induction false} BinaryStepOk(stats: nat -> Option<Range>, row: nat -> int, env: Env, half: int, op: Op,
                                        vs: seq<Value>, ws: seq<int>, bs: seq<nat>)
    requires half > 0 && StacksOk(vs, ws, bs, half) && |vs| >= 2 && (op.Add? || op.Sub? || op.Mul?)
    ensures Step(IntEnv(row, env), op, vs).Some?
    ensures StacksOk(Step(IntEnv(row, env), op, vs).value, WordStep(row, half, op, ws).value,
                     BoundStep(stats, op, bs).value, half)
  {
    var n := |vs|;
    assert EntryOk(vs[n - 2], ws[n - 2], bs[n - 2], half) && EntryOk(vs[n - 1], ws[n - 1], bs[n - 1], half);
    BinaryEntry(IntEnv(row, env), op, vs[n - 2], vs[n - 1], ws[n - 2], ws[n - 1], bs[n - 2], bs[n - 1], half);
  }

  lemma {:induction false} UnaryStepOk(stats: nat -> Option<Range>, row: nat -> int, env: Env, half: int, op: Op,
                                       vs: seq<Value>, ws: seq<int>, bs: seq<nat>)
    requires half > 0 && StacksOk(vs, ws, bs, half) && |vs| >= 1 && (op.Negate? || op.Abs?)
    ensures Step(IntEnv(row, env), op, vs).Some?
    ensures StacksOk(Step(IntEnv(row, env), op, vs).value, WordStep(row, half, op, ws).value,
                     BoundStep(stats, op, bs).value, half)
  {
    var n := |vs|;
    assert EntryOk(vs[n - 1], ws[n - 1], bs[n - 1], half);
  }

  lemma {:induction false} RunsOk(stats: nat -> Option<Range>, row: nat -> int, env: Env, half: int, ops: seq<Op>)
    requires half > 0 && WithinStats(stats, row) && Bounds(stats, ops).Some?
    ensures Run(IntEnv(row, env), ops, []).Some? && WordRun(row, half, ops).Some?
    ensures StacksOk(Run(IntEnv(row, env), ops, []).value, WordRun(row, half, ops).value, Bounds(stats, ops).value,
                     half)
  {
    if ops != [] {
      var front := ops[..|ops| - 1];
      RunsOk(stats, row, env, half, front);
      StepOk(stats, row, env, half, ops[|ops| - 1], Run(IntEnv(row, env), front, []).value,
             WordRun(row, half, front).value, Bounds(stats, front).value);
    }
  }

  function Top<T>(s: seq<T>): T
    requires s != []
  {
    s[|s| - 1]
  }

  /** Soundness: a program the analysis accepts never underflows, and every row within the statistics
      evaluates to at most the bound in magnitude. */
  lemma {:induction false} BoundIsSound(stats: nat -> Option<Range>, row: nat -> int, env: Env, ops: seq<Op>)
    requires WithinStats(stats, row) && Bounds(stats, ops).Some? && Bounds(stats, ops).value != []
    ensures Run(IntEnv(row, env), ops, []).Some? && Run(IntEnv(row, env), ops, []).value != []
    ensures var v := Top(Run(IntEnv(row, env), ops, []).value);
            v.Int? && Magnitude(v.i) <= Top(Bounds(stats, ops).value)
  {
    RunsOk(stats, row, env, 1, ops);
    var vs, bs := Run(IntEnv(row, env), ops, []).value, Bounds(stats, ops).value;
    assert EntryOk(Top(vs), Top(WordRun(row, 1, ops).value), Top(bs), 1);
  }

  /** If the bound fits the word, evaluating in wrapping words gives the exact value, though columns
      and intermediates may wrap. */
  lemma {:induction false} WordsAreExact(stats: nat -> Option<Range>, row: nat -> int, env: Env, half: int,
                                         ops: seq<Op>)
    requires half > 0 && WithinStats(stats, row) && Bounds(stats, ops).Some? && Bounds(stats, ops).value != []
    requires Top(Bounds(stats, ops).value) < half
    ensures Run(IntEnv(row, env), ops, []).Some? && Run(IntEnv(row, env), ops, []).value != []
    ensures WordRun(row, half, ops).Some? && WordRun(row, half, ops).value != []
    ensures Top(Run(IntEnv(row, env), ops, []).value) == Int(Top(WordRun(row, half, ops).value))
  {
    RunsOk(stats, row, env, half, ops);
    var vs, ws, bs := Run(IntEnv(row, env), ops, []).value, WordRun(row, half, ops).value, Bounds(stats, ops).value;
    assert EntryOk(Top(vs), Top(ws), Top(bs), half);
  }

  // ---- The bound is attained ----

  ghost predicate LoadsOnce(ops: seq<Op>) {
    forall i, j :: 0 <= i < j < |ops| && ops[i].LoadCol? && ops[j].LoadCol? ==> ops[i].col != ops[j].col
  }

  ghost predicate Symmetric(stats: nat -> Option<Range>) {
    forall c :: stats(c).Some? ==> stats(c).value.lo == -stats(c).value.hi <= 0
  }

  /** The entries the program leaves can have these signs, each being 1 or -1: a column can have either, a
      constant has its own, and operands have the signs that let their magnitudes add up. */
  ghost predicate CanSign(ops: seq<Op>, signs: seq<int>)
    decreases |ops|
  {
    if ops == [] then signs == []
    else
      signs != [] &&
      var front, rest, s := ops[..|ops| - 1], signs[..|signs| - 1], signs[|signs| - 1];
      match ops[|ops| - 1]
      case LoadCol(_) => CanSign(front, rest)
      case ConstInt(v) => s * Magnitude(v) == v && CanSign(front, rest)
      case Add => CanSign(front, rest + [s, s])
      case Sub => CanSign(front, rest + [s, -s])
      case Mul => CanSign(front, rest + [s, 1]) || CanSign(front, rest + [-s, -1])
      case Negate => CanSign(front, rest + [-s])
      case Abs => s == 1 && (CanSign(front, rest + [1]) || CanSign(front, rest + [-1]))
      case _ => false
  }

  ghost predicate AreSigns(signs: seq<int>) {
    forall i :: 0 <= i < |signs| ==> signs[i] == 1 || signs[i] == -1
  }

  /** Every entry is as large as its bound, with its sign. */
  ghost predicate Attained(vs: seq<Value>, bs: seq<nat>, signs: seq<int>) {
    |vs| == |bs| == |signs| && forall i :: 0 <= i < |vs| ==> vs[i] == Int(signs[i] * bs[i])
  }

  ghost predicate AttainedBy(stats: nat -> Option<Range>, row: nat -> int, env: Env, ops: seq<Op>, signs: seq<int>)
    requires Bounds(stats, ops).Some?
  {
    && WithinStats(stats, row) && Run(IntEnv(row, env), ops, []).Some?
    && Attained(Run(IntEnv(row, env), ops, []).value, Bounds(stats, ops).value, signs)
  }

  /** A row whose columns have signs that work brings every entry to its bound. */
  lemma {:induction false} SignedRow(stats: nat -> Option<Range>, env: Env, ops: seq<Op>, signs: seq<int>)
    returns (row: nat -> int)
    requires Symmetric(stats) && LoadsOnce(ops) && Bounds(stats, ops).Some? && AreSigns(signs) && CanSign(ops, signs)
    ensures AttainedBy(stats, row, env, ops, signs)
    decreases |ops|
  {
    if ops == [] {
      row := (c: nat) => if stats(c).Some? then stats(c).value.hi else 0;
      return;
    }
    var front, op := ops[..|ops| - 1], ops[|ops| - 1];
    var before := SignsBefore(ops, signs);
    row := SignedRow(stats, env, front, before);
    if op.LoadCol? {
      ghost var inner := row;
      var hi, s := stats(op.col).value.hi, signs[|signs| - 1];
      row := (c: nat) => if c == op.col then s * hi else inner(c);
      OtherColumns(env, front, inner, row, op.col);
    }
    SignedStep(stats, env, row, op, Run(IntEnv(row, env), front, []).value, Bounds(stats, front).value, before, signs);
  }

  /** The operands' signs. */
  lemma {:induction false} SignsBefore(ops: seq<Op>, signs: seq<int>) returns (before: seq<int>)
    requires ops != [] && AreSigns(signs) && CanSign(ops, signs)
    ensures AreSigns(before) && CanSign(ops[..|ops| - 1], before) && SignsFit(ops[|ops| - 1], before, signs)
  {
    var front, rest, s := ops[..|ops| - 1], signs[..|signs| - 1], signs[|signs| - 1];
    match ops[|ops| - 1]
    case LoadCol(_) => before := rest;
    case ConstInt(_) => before := rest;
    case Add => before := rest + [s, s];
    case Sub => before := rest + [s, -s];
    case Mul => before := if CanSign(front, rest + [s, 1]) then rest + [s, 1] else rest + [-s, -1];
    case Negate => before := rest + [-s];
    case Abs => before := if CanSign(front, rest + [1]) then rest + [1] else rest + [-1];
  }

  /** How the signs of the operands and of the result belong together. */
  ghost predicate SignsFit(op: Op, before: seq<int>, signs: seq<int>) {
    signs != [] &&
    var rest, s := signs[..|signs| - 1], signs[|signs| - 1];
    match op
    case LoadCol(_) => before == rest
    case ConstInt(v) => before == rest && s * Magnitude(v) == v
    case Add => before == rest + [s, s]
    case Sub => before == rest + [s, -s]
    case Mul => before == rest + [s, 1] || before == rest + [-s, -1]
    case Negate => before == rest + [-s]
    case Abs => s == 1 && (before == rest + [1] || before == rest + [-1])
    case _ => false
  }

  lemma {:induction false} OtherColumns(env: Env, ops: seq<Op>, a: nat -> int, b: nat -> int, col: nat)
    requires forall c :: c != col ==> a(c) == b(c)
    requires forall i :: 0 <= i < |ops| && ops[i].LoadCol? ==> ops[i].col != col
    ensures Run(IntEnv(a, env), ops, []) == Run(IntEnv(b, env), ops, [])
  {
    if ops != [] {
      var front, op := ops[..|ops| - 1], ops[|ops| - 1];
      OtherColumns(env, front, a, b, col);
      if Run(IntEnv(a, env), front, []).Some? {
        StepOnRow(env, op, a, b, Run(IntEnv(a, env), front, []).value);
      }
    }
  }

  lemma {:induction false} StepOnRow(env: Env, op: Op, a: nat -> int, b: nat -> int, stack: seq<Value>)
    requires op.LoadCol? ==> a(op.col) == b(op.col)
    ensures Step(IntEnv(a, env), op, stack) == Step(IntEnv(b, env), op, stack)
  {
  }

  /** One operation keeps every entry at its bound. */
  lemma {:induction false} SignedStep(stats: nat -> Option<Range>, env: Env, row: nat -> int, op: Op, vs: seq<Value>,
                                      bs: seq<nat>, before: seq<int>, signs: seq<int>)
    requires Attained(vs, bs, before) && AreSigns(before) && AreSigns(signs) && SignsFit(op, before, signs)
    requires BoundStep(stats, op, bs).Some? && Symmetric(stats)
    requires op.LoadCol? ==> row(op.col) == signs[|signs| - 1] * stats(op.col).value.hi
    ensures Step(IntEnv(row, env), op, vs).Some?
    ensures Attained(Step(IntEnv(row, env), op, vs).value, BoundStep(stats, op, bs).value, signs)
  {
    if op.LoadCol? || op.ConstInt? {
      SignedLeaf(stats, env, row, op, vs, bs, before, signs);
    } else if op.Add? || op.Sub? || op.Mul? {
      SignedBinary(stats, env, row, op, vs, bs, before, signs);
    }
  }

  lemma {:induction false} SignedLeaf(stats: nat -> Option<Range>, env: Env, row: nat -> int, op: Op, vs: seq<Value>,
                                      bs: seq<nat>, before: seq<int>, signs: seq<int>)
    requires Attained(vs, bs, before) && SignsFit(op, before, signs) && (op.LoadCol? || op.ConstInt?)
    requires BoundStep(stats, op, bs).Some? && Symmetric(stats)
    requires op.LoadCol? ==> row(op.col) == signs[|signs| - 1] * stats(op.col).value.hi
    ensures Step(IntEnv(row, env), op, vs).Some?
    ensures Attained(Step(IntEnv(row, env), op, vs).value, BoundStep(stats, op, bs).value, signs)
  {
    if op.LoadCol? {
      var r := stats(op.col).value;
      assert Max(Magnitude(r.lo), Magnitude(r.hi)) == r.hi;
    }
  }

  lemma {:induction false} SignedBinary(stats: nat -> Option<Range>, env: Env, row: nat -> int, op: Op,
                                        vs: seq<Value>, bs: seq<nat>, before: seq<int>, signs: seq<int>)
    requires Attained(vs, bs, before) && SignsFit(op, before, signs) && (op.Add? || op.Sub? || op.Mul?)
    requires BoundStep(stats, op, bs).Some?
    ensures Step(IntEnv(row, env), op, vs).Some?
    ensures Attained(Step(IntEnv(row, env), op, vs).value, BoundStep(stats, op, bs).value, signs)
  {
    var n, s := |vs|, signs[|signs| - 1];
    if op.Mul? {
      SignedProduct(before[n - 2], before[n - 1], bs[n - 2], bs[n - 1], s);
    }
  }

  lemma {:induction false} SignedProduct(s: int, t: int, a: nat, b: nat, u: int)
    requires (t == 1 && s == u) || (t == -1 && s == -u)
    ensures (s * a) * (t * b) == u * (a * b)
  {
  }

  /** A program without constants and ABS that loads no column twice, over ranges symmetric to zero, reaches its
      bound on some row. */
  lemma {:induction false} BoundIsAttained(stats: nat -> Option<Range>, env: Env, ops: seq<Op>)
    returns (row: nat -> int)
    requires Symmetric(stats) && LoadsOnce(ops) && forall i :: 0 <= i < |ops| ==> !ops[i].ConstInt? && !ops[i].Abs?
    requires Bounds(stats, ops).Some? && |Bounds(stats, ops).value| == 1
    ensures WithinStats(stats, row) && Run(IntEnv(row, env), ops, []) == Some([Int(Bounds(stats, ops).value[0])])
  {
    AllSigns(stats, ops, [1]);
    row := SignedRow(stats, env, ops, [1]);
    var vs, bs := Run(IntEnv(row, env), ops, []).value, Bounds(stats, ops).value;
    assert Attained(vs, bs, [1]) && vs == [vs[0]] && vs[0] == Int(1 * bs[0]);
  }

  lemma {:induction false} AllSigns(stats: nat -> Option<Range>, ops: seq<Op>, signs: seq<int>)
    requires forall i :: 0 <= i < |ops| ==> !ops[i].ConstInt? && !ops[i].Abs?
    requires Bounds(stats, ops).Some? && |signs| == |Bounds(stats, ops).value|
    ensures CanSign(ops, signs)
    decreases |ops|
  {
    if ops != [] {
      var front, rest, s := ops[..|ops| - 1], signs[..|signs| - 1], signs[|signs| - 1];
      match ops[|ops| - 1]
      case LoadCol(_) => AllSigns(stats, front, rest);
      case Add => AllSigns(stats, front, rest + [s, s]);
      case Sub => AllSigns(stats, front, rest + [s, -s]);
      case Mul => AllSigns(stats, front, rest + [s, 1]);
      case Negate => AllSigns(stats, front, rest + [-s]);
      case _ =>
    }
  }

  /** Constants of opposite signs never reach it: 3 + -5 is bounded by 8. */
  lemma {:induction false} ConstantsCancel(stats: nat -> Option<Range>, row: nat -> int, env: Env)
    ensures var ops := [ConstInt(3), ConstInt(-5), Add];
            Bounds(stats, ops) == Some([8]) && Run(IntEnv(row, env), ops, []) == Some([Int(-2)])
  {
    var ops := [ConstInt(3), ConstInt(-5), Add];
    var one, two := ops[..1], ops[..2];
    assert one[..0] == [] && two[..1] == one && ops[..3 - 1] == two;
    assert one[0] == ConstInt(3) && two[1] == ConstInt(-5);
    assert Bounds(stats, one) == Some([] + [3]) && [] + [3] == [3];
    assert Bounds(stats, two) == BoundStep(stats, two[1], [3]) == Some([3] + [5]);
    assert Run(IntEnv(row, env), one, []) == Some([] + [Int(3)]) && [] + [Int(3)] == [Int(3)];
    assert Run(IntEnv(row, env), two, []) == Step(IntEnv(row, env), two[1], [Int(3)]) == Some([Int(3)] + [Int(-5)]);
    assert ops[|ops| - 1] == Add && [3] + [5] == [3, 5] && [Int(3)] + [Int(-5)] == [Int(3), Int(-5)];
    assert BoundStep(stats, Add, [3, 5]) == Some([3, 5][..0] + [8]) && [3, 5][..0] + [8] == [8];
    assert Step(IntEnv(row, env), Add, [Int(3), Int(-5)]) == Some([Int(3), Int(-5)][..0] + [Int(-2)]);
    assert [Int(3), Int(-5)][..0] + [Int(-2)] == [Int(-2)];
  }

  // ---- Sums in any order and grouping ----

  /** A way of adding up rows: any order, any parenthesisation. */
  datatype SumTree = Leaf(v: int) | Node(left: SumTree, right: SumTree)

  function Flatten(t: SumTree): (s: seq<int>)
    ensures s != []
  {
    match t
    case Leaf(v) => [v]
    case Node(l, r) => Flatten(l) + Flatten(r)
  }

  function ExactSum(t: SumTree): int {
    match t
    case Leaf(v) => v
    case Node(l, r) => ExactSum(l) + ExactSum(r)
  }

  /** The same additions in wrapping words. */
  function WordSum(t: SumTree, half: int): int
    requires half > 0
  {
    match t
    case Leaf(v) => Wrap(v, half)
    case Node(l, r) => Wrap(WordSum(l, half) + WordSum(r, half), half)
  }

  /** With at most n rows of magnitude at most b and n * b inside the word, no partial sum wraps. */
  lemma {:induction false} SumsAreExact(t: SumTree, b: nat, half: int)
    requires half > 0 && AllWithin(Flatten(t), b) && |Flatten(t)| * b < half
    ensures WordSum(t, half) == ExactSum(t)
    ensures Magnitude(ExactSum(t)) <= |Flatten(t)| * b
  {
    match t
    case Leaf(v) =>
      assert Flatten(t)[0] == v;
    case Node(l, r) =>
      ConcatWithin(Flatten(l), Flatten(r), b);
      Distribute(|Flatten(l)|, |Flatten(r)|, b);
      SumsAreExact(l, b, half);
      SumsAreExact(r, b, half);
      NodeExact(ExactSum(l), ExactSum(r), |Flatten(l)| * b, |Flatten(r)| * b, half);
  }

  lemma {:induction false} NodeExact(x: int, y: int, m: nat, n: nat, half: int)
    requires half > 0 && Magnitude(x) <= m && Magnitude(y) <= n && m + n < half
    ensures Wrap(x + y, half) == x + y && Magnitude(x + y) <= m + n
  {
  }

  ghost predicate AllWithin(s: seq<int>, b: nat) {
    forall i :: 0 <= i < |s| ==> Magnitude(s[i]) <= b
  }

  lemma {:induction false} ConcatWithin(l: seq<int>, r: seq<int>, b: nat)
    requires AllWithin(l + r, b)
    ensures AllWithin(l, b) && AllWithin(r, b)
  {
    forall i | 0 <= i < |l| ensures Magnitude(l[i]) <= b {
      assert (l + r)[i] == l[i];
    }
    forall i | 0 <= i < |r| ensures Magnitude(r[i]) <= b {
      assert (l + r)[|l| + i] == r[i];
    }
  }

  lemma {:induction false} Distribute(x: nat, y: nat, b: nat)
    ensures (x + y) * b == x * b + y * b && x * b >= 0 && y * b >= 0
  {
  }

  lemma {:induction false} ExactSumIsSum(t: SumTree)
    ensures ExactSum(t) == Sum(Flatten(t))
  {
    match t
    case Leaf(v) =>
      assert [] + [v] == [v];
      SumAppend([], v);
    case Node(l, r) =>
      ExactSumIsSum(l);
      ExactSumIsSum(r);
      SumConcat(Flatten(l), Flatten(r));
  }

  /** Any two ways of adding up the same rows agree with each other and with the plain sum. */
  lemma {:induction false} AnyOrderAnyGrouping(t: SumTree, values: seq<int>, b: nat, half: int)
    requires half > 0 && multiset(Flatten(t)) == multiset(values)
    requires forall i :: 0 <= i < |values| ==> Magnitude(values[i]) <= b
    requires |values| * b < half
    ensures WordSum(t, half) == Sum(values)
  {
    var leaves := Flatten(t);
    assert |leaves| == |multiset(leaves)| == |multiset(values)| == |values|;
    forall i | 0 <= i < |leaves| ensures Magnitude(leaves[i]) <= b {
      assert leaves[i] in multiset(values);
    }
    SumsAreExact(t, b, half);
    ExactSumIsSum(t);
    SumPermutation(leaves, values);
  }

  // ---- The planner's gate ----

  const INT64_HALF: int := 0x8000_0000_0000_0000
  const GATE: nat := 0x2000_0000_0000_0000

  /** The accept test: bound times the estimated row count stays below 2^61. */
  predicate GateAccepts(bound: nat, estimatedRows: nat) {
    bound * Max(estimatedRows, 1) < GATE
  }

  lemma {:induction false} GateArithmetic(n: nat, est: nat, bound: nat)
    requires bound * est < GATE && n <= 4 * est
    ensures n * bound < INT64_HALF
  {
    NatProductMonotone(n, 4 * est, bound);
    assert (4 * est) * bound == 4 * (bound * est);
  }

  /** The gate leaves a factor of four: it holds for up to four times the estimate. */
  lemma {:induction false} GateIsSafe(bound: nat, estimatedRows: nat, values: seq<int>, t: SumTree)
    requires GateAccepts(bound, estimatedRows) && |values| <= 4 * Max(estimatedRows, 1)
    requires forall i :: 0 <= i < |values| ==> Magnitude(values[i]) <= bound
    requires multiset(Flatten(t)) == multiset(values)
    ensures WordSum(t, INT64_HALF) == Sum(values)
  {
    GateArithmetic(|values|, Max(estimatedRows, 1), bound);
    AnyOrderAnyGrouping(t, values, bound, INT64_HALF);
  }

  function Repeat(v: int, n: nat): (s: seq<int>)
    ensures |s| == n
  {
    seq(n, _ => v)
  }

  lemma {:induction false} RepeatSum(v: int, n: nat)
    ensures Sum(Repeat(v, n)) == n * v
  {
    if n > 0 {
      RepeatSum(v, n - 1);
      assert Repeat(v, n) == Repeat(v, n - 1) + [v];
      SumAppend(Repeat(v, n - 1), v);
      assert n * v == (n - 1) * v + v;
    }
  }

  ghost predicate AllSumsFit(bound: nat, n: nat, half: int) {
    forall values: seq<int> :: BoundedRows(values, bound, n) ==> -half <= Sum(values) < half
  }

  predicate BoundedRows(values: seq<int>, bound: nat, n: nat) {
    |values| == n && forall i :: 0 <= i < n ==> Magnitude(values[i]) <= bound
  }

  /** For n actual rows the sums fit a word for all data within the bound exactly when n * bound does. */
  lemma {:induction false} FitsIff(bound: nat, n: nat, half: int)
    requires half > 0
    ensures AllSumsFit(bound, n, half) <==> n * bound < half
  {
    if n * bound < half {
      forall values: seq<int> | BoundedRows(values, bound, n) ensures -half <= Sum(values) < half {
        PrefixBound(values, n, bound);
      }
    } else {
      RepeatSum(bound, n);
      assert BoundedRows(Repeat(bound, n), bound, n);
    }
  }

  /** The largest bound the gate lets through with this estimate. */
  function LargestAccepted(estimatedRows: nat): (b: nat)
    ensures GateAccepts(b, estimatedRows)
    ensures forall bound: nat :: GateAccepts(bound, estimatedRows) ==> bound <= b
  {
    LargestIs(Max(estimatedRows, 1));
    (GATE - 1) / Max(estimatedRows, 1)
  }

  lemma {:induction false} LargestIs(est: nat)
    requires est > 0
    ensures (GATE - 1) / est * est < GATE
    ensures forall bound: nat :: bound * est < GATE ==> bound <= (GATE - 1) / est
  {
    var q, r := (GATE - 1) / est, (GATE - 1) % est;
    assert GATE - 1 == q * est + r;
    forall bound: nat | bound * est < GATE ensures bound <= q {
      AtMostQuotient(bound, q, r, est);
    }
  }

  lemma {:induction false} AtMostQuotient(bound: nat, q: nat, r: nat, est: nat)
    requires r < est
    ensures bound > q ==> bound * est > q * est + r
  {
    if bound > q {
      NatProductMonotone(q + 1, bound, est);
      assert (q + 1) * est == q * est + est;
    }
  }

  /** Every bound the gate accepts is safe for n actual rows. */
  ghost predicate GateSafeFor(estimatedRows: nat, n: nat) {
    forall bound: nat :: GateAccepts(bound, estimatedRows) ==> AllSumsFit(bound, n, INT64_HALF)
  }

  /** Exactly how far the estimate may be off: what the gate accepts is safe for n actual rows if and only
      if n rows at the largest bound it accepts fit an int64. */
  lemma {:induction false} GateSafeIff(estimatedRows: nat, n: nat)
    ensures GateSafeFor(estimatedRows, n) <==>
            n * (0x1FFF_FFFF_FFFF_FFFF / Max(estimatedRows, 1)) < 0x8000_0000_0000_0000
  {
    var b := LargestAccepted(estimatedRows);
    FitsIff(b, n, INT64_HALF);
    if n * b < INT64_HALF {
      forall bound: nat | GateAccepts(bound, estimatedRows) ensures AllSumsFit(bound, n, INT64_HALF) {
        NatProductMonotone(bound, b, n);
        FitsIff(bound, n, INT64_HALF);
      }
    }
  }

  /** With one estimated row the gate is not safe for eight: it accepts a bound of 2^60. */
  lemma {:induction false} LowEstimateOverflows()
    ensures GateAccepts(0x1000_0000_0000_0000, 1)
    ensures !AllSumsFit(0x1000_0000_0000_0000, 8, INT64_HALF) && !GateSafeFor(1, 8)
  {
    FitsIff(0x1000_0000_0000_0000, 8, INT64_HALF);
    GateSafeIff(1, 8);
  }
}
