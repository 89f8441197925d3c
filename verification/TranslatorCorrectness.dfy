/** Translation preserves meaning: every accepted typed tree, run on the stack machine, leaves exactly
    one more value, of the predicted lane, that stands for the tree's exact value. */
module TranslatorCorrectness {
  import opened Postfix
  import opened Translator

  /** Int-lane values are the exact value times 10^scale. */
  ghost predicate Represents(v: Value, lane: Lane, scale: nat, m: Meaning) {
    match lane
    case INT_LANE => v.Int? && m.Num? && v.i as real == m.r * Pow10(scale) as real
    case FLOAT_LANE => v.Real? && m == Num(v.r)
    case BOOL_LANE => v.Bool? && m == Truth(v.b)
  }

  // ---- Scaled arithmetic ----

  lemma {:induction false} Pow10Adds(a: nat, b: nat)
    ensures Pow10(a + b) == Pow10(a) * Pow10(b)
    ensures Pow10(1) == 10
  {
    if a > 0 {
      Pow10Adds(a - 1, b);
      assert Pow10(a + b) == 10 * Pow10((a - 1) + b);
      assert 10 * (Pow10(a - 1) * Pow10(b)) == (10 * Pow10(a - 1)) * Pow10(b);
    }
  }

  lemma {:induction false} ScaleSum(x: real, y: real, p: real)
    ensures (x + y) * p == x * p + y * p
    ensures (x - y) * p == x * p - y * p
    ensures (-x) * p == -(x * p)
  {
  }

  lemma {:induction false} ScaleProduct(x: real, y: real, p: real, q: real)
    ensures (x * p) * (y * q) == (x * y) * (p * q)
  {
    calc {
      (x * p) * (y * q);
      x * (p * (y * q));
      { assert p * (y * q) == y * (p * q); }
      x * (y * (p * q));
      (x * y) * (p * q);
    }
  }

  lemma {:induction false} ScaleOrder(x: real, y: real, p: real)
    requires p > 0.0
    ensures x < y <==> x * p < y * p
    ensures x == y <==> x * p == y * p
  {
    if x < y {
      assert (y - x) * p > 0.0;
      assert (y - x) * p == y * p - x * p;
    } else if y < x {
      assert (x - y) * p > 0.0;
      assert (x - y) * p == x * p - y * p;
    }
  }

  lemma {:induction false} Unscale(x: real, p: real)
    requires p > 0.0
    ensures x / p * p == x
    ensures x * p * (1.0 / p) == x
  {
    assert p * (1.0 / p) == 1.0;
    assert x * p * (1.0 / p) == x * (p * (1.0 / p));
  }

  lemma {:induction false} IntProduct(a: int, b: int)
    ensures (a * b) as real == a as real * b as real
  {
    if a == 0 || b == 0 {
    } else {
      ProductAsReal(a, b);
    }
  }

  lemma {:induction false} ProductAsReal(a: int, b: int)
    ensures (a * b) as real == a as real * b as real
    decreases if b < 0 then -b else b
  {
    if b > 0 {
      ProductAsReal(a, b - 1);
      assert a * b == a * (b - 1) + a;
      assert a as real * b as real == a as real * (b - 1) as real + a as real;
    } else if b < 0 {
      ProductAsReal(a, b + 1);
      assert a * b == a * (b + 1) - a;
      assert a as real * b as real == a as real * (b + 1) as real - a as real;
    }
  }

  // ---- Running pieces of code ----

  /** Running the code on any stack adds the one value v. */
  ghost predicate Yields(env: Env, ops: seq<Op>, v: Value) {
    forall stack: seq<Value> :: Run(env, ops, stack) == Some(stack + [v])
  }

  lemma {:induction false} YieldsUnary(env: Env, ops: seq<Op>, a: Value, op: Op)
    requires Yields(env, ops, a) && IsUnary(op) && Unary(env, op, a).Some?
    ensures Yields(env, ops + [op], Unary(env, op, a).value)
  {
    forall stack: seq<Value> ensures Run(env, ops + [op], stack) == Some(stack + [Unary(env, op, a).value]) {
      assert Run(env, ops, stack) == Some(stack + [a]);
      RunAppend(env, ops, op, stack);
      assert (stack + [a])[..|stack|] == stack;
    }
  }

  lemma {:induction false} BinaryOnStack(env: Env, op: Op, stack: seq<Value>, a: Value, b: Value)
    requires IsBinary(op) && Binary(env, op, a, b).Some?
    ensures Step(env, op, stack + [a] + [b]) == Some(stack + [Binary(env, op, a, b).value])
  {
    assert (stack + [a] + [b])[..|stack|] == stack;
  }

  lemma {:induction false} YieldsBinary(env: Env, l: seq<Op>, r: seq<Op>, a: Value, b: Value, op: Op)
    requires Yields(env, l, a) && Yields(env, r, b) && IsBinary(op) && Binary(env, op, a, b).Some?
    ensures Yields(env, l + r + [op], Binary(env, op, a, b).value)
  {
    forall stack: seq<Value> ensures Run(env, l + r + [op], stack) == Some(stack + [Binary(env, op, a, b).value]) {
      assert Run(env, l, stack) == Some(stack + [a]);
      RunConcat(env, l, r, stack);
      assert Run(env, r, stack + [a]) == Some(stack + [a] + [b]);
      RunAppend(env, l + r, op, stack);
      BinaryOnStack(env, op, stack, a, b);
    }
  }

  lemma {:induction false} YieldsLeaf(env: Env, op: Op, v: Value)
    requires !IsUnary(op) && !IsBinary(op) && Step(env, op, []) == Some([] + [v])
    ensures Yields(env, [op], v)
  {
    forall stack: seq<Value> ensures Run(env, [op], stack) == Some(stack + [v]) {
      assert [] + [op] == [op];
      RunAppend(env, [], op, stack);
      assert ([] + [v])[0] == v;
    }
  }

  // ---- The construct lemmas ----

  lemma {:induction false} LiteralCorrect(env: Env, c: Constant, ty: Type) returns (v: Value)
    requires CompileLiteral(c, ty).Some?
    ensures var code := CompileLiteral(c, ty).value;
            && Yields(env, code.ops, v) && Represents(v, code.lane, ScaleOf(ty), ConstantMeaning(c, ty))
            && (code.lane == INT_LANE ==> ty.Decimal?)
  {
    var code := CompileLiteral(c, ty).value;
    if ty.Decimal? {
      v := Int(c.raw);
      Unscale(c.raw as real, Pow10(ScaleOf(ty)) as real);
    } else if ty.DateT? {
      v := Real(c.days as real);
    } else {
      v := Real(c.number);
    }
    YieldsLeaf(env, code.ops[0], v);
    assert code.ops == [code.ops[0]];
  }

  lemma {:induction false} ColumnCorrect(env: Env, storage: nat, ty: Type)
    requires IsSupportedColumnType(ty)
    requires if IsIntLaneType(ty) then env.row(storage).Int? else env.row(storage).Real?
    ensures Yields(env, [LoadCol(storage)], env.row(storage))
    ensures Represents(env.row(storage), LaneOfColumn(ty), ScaleOf(ty), StoredMeaning(env.row(storage), ty))
  {
    YieldsLeaf(env, LoadCol(storage), env.row(storage));
    if IsIntLaneType(ty) {
      Unscale(env.row(storage).i as real, Pow10(ScaleOf(ty)) as real);
    }
  }

  lemma {:induction false} Widen(i: int, m: real, s: nat, k: nat)
    requires i as real == m * Pow10(s) as real
    ensures (i * Pow10(k)) as real == m * Pow10(s + k) as real
  {
    var p, q := Pow10(s), Pow10(k);
    IntProduct(i, q);
    Pow10Adds(s, k);
    IntProduct(p, q);
    assert (m * p as real) * q as real == m * (p as real * q as real);
  }

  lemma {:induction false} TimesConstant(env: Env, ops: seq<Op>, i: int, f: int)
    requires Yields(env, ops, Int(i))
    ensures Yields(env, ops + [ConstInt(f), Mul], Int(i * f))
  {
    YieldsLeaf(env, ConstInt(f), Int(f));
    YieldsBinary(env, ops, [ConstInt(f)], Int(i), Int(f), Mul);
    assert ops + [ConstInt(f), Mul] == ops + [ConstInt(f)] + [Mul];
  }

  lemma {:induction false} Inverse(n: nat)
    ensures InversePow10(n) * Pow10(n) as real == 1.0
    ensures InversePow10(n) == 1.0 / Pow10(n) as real
  {
    if n > 0 {
      Inverse(n - 1);
      assert InversePow10(n) * Pow10(n) as real == InversePow10(n - 1) / 10.0 * (10.0 * Pow10(n - 1) as real);
    }
  }

  lemma {:induction false} DivideOut(i: int, r: real, n: nat)
    requires i as real == r * Pow10(n) as real
    ensures Rescale(i, InversePow10(n)) == r
  {
    Inverse(n);
    var p, q := Pow10(n) as real, InversePow10(n);
    assert (r * p) * q == r * (q * p);
  }

  /** A value in the lane and at the scale a cast calls for: what its code has to leave. */
  ghost predicate CastYields(env: Env, ops: seq<Op>, v: Value, cast: CastCode, to: Type, m: Meaning) {
    Yields(env, ops + cast.tail, v) && Represents(v, cast.lane, ScaleOf(to), m)
  }

  /** Widening multiplies the raw integer by the missing power of ten; a cast to float divides it out. */
  lemma {:induction false} CastCorrect(env: Env, ops: seq<Op>, a: Value, from: Type, to: Type, m: Meaning)
    returns (v: Value)
    requires CastTail(from, to, false).Some?
    requires Yields(env, ops, a) && Represents(a, CastTail(from, to, false).value.need, ScaleOf(from), m)
    ensures CastYields(env, ops, v, CastTail(from, to, false).value, to, m)
    ensures CastTail(from, to, false).value.lane == INT_LANE ==> to.Decimal?
  {
    if CastTail(from, to, false).value.tail == [] {
      UnchangedTail(from, to);
      v := a;
      CastUnchanged(env, ops, a, ScaleOf(from), CastTail(from, to, false).value, to, m);
    } else if to.Decimal? {
      WideningTail(from, to);
      v := CastWidens(env, ops, a, from.scale, to, m);
    } else {
      FloatTail(from, to);
      v := CastFloats(env, ops, a, from.scale, to, m);
    }
  }

  lemma {:induction false} CastUnchanged(env: Env, ops: seq<Op>, a: Value, scale: nat, cast: CastCode, to: Type,
                                         m: Meaning)
    requires Yields(env, ops, a) && Represents(a, cast.need, scale, m)
    requires cast.tail == [] && cast.need == cast.lane && (cast.lane == INT_LANE ==> scale == ScaleOf(to))
    ensures CastYields(env, ops, a, cast, to, m)
  {
    assert ops + cast.tail == ops;
  }

  lemma {:induction false} CastWidens(env: Env, ops: seq<Op>, a: Value, s: nat, to: Type, m: Meaning) returns (v: Value)
    requires Yields(env, ops, a) && Represents(a, INT_LANE, s, m) && to.Decimal? && s < to.scale
    ensures CastYields(env, ops, v, CastCode(INT_LANE, [ConstInt(Pow10(to.scale - s)), Mul], INT_LANE), to, m)
  {
    v := WidenCast(env, ops, a.i, s, to.scale - s, m.r);
  }

  lemma {:induction false} CastFloats(env: Env, ops: seq<Op>, a: Value, s: nat, to: Type, m: Meaning) returns (v: Value)
    requires Yields(env, ops, a) && Represents(a, INT_LANE, s, m)
    ensures CastYields(env, ops, v, CastCode(INT_LANE, [ToFloat(InversePow10(s))], FLOAT_LANE), to, m)
  {
    v := FloatCast(env, ops, a.i, s, m.r);
  }

  lemma {:induction false} UnchangedTail(from: Type, to: Type)
    requires CastTail(from, to, false).Some? && CastTail(from, to, false).value.tail == []
    ensures CastTail(from, to, false).value.need == CastTail(from, to, false).value.lane != BOOL_LANE
    ensures CastTail(from, to, false).value.lane == INT_LANE ==> to.Decimal? && ScaleOf(from) == ScaleOf(to)
  {
  }

  lemma {:induction false} WideningTail(from: Type, to: Type)
    requires CastTail(from, to, false).Some? && CastTail(from, to, false).value.tail != [] && to.Decimal?
    ensures from.Decimal? && from.scale < to.scale
    ensures CastTail(from, to, false).value == CastCode(INT_LANE, [ConstInt(Pow10(to.scale - from.scale)), Mul],
                                                        INT_LANE)
  {
  }

  lemma {:induction false} FloatTail(from: Type, to: Type)
    requires CastTail(from, to, false).Some? && CastTail(from, to, false).value.tail != [] && !to.Decimal?
    ensures from.Decimal?
    ensures CastTail(from, to, false).value == CastCode(INT_LANE, [ToFloat(InversePow10(from.scale))], FLOAT_LANE)
  {
  }

  lemma {:induction false} WidenCast(env: Env, ops: seq<Op>, i: int, s: nat, k: nat, r: real) returns (v: Value)
    requires Yields(env, ops, Int(i)) && i as real == r * Pow10(s) as real
    ensures Yields(env, ops + [ConstInt(Pow10(k)), Mul], v)
    ensures v.Int? && v.i as real == r * Pow10(s + k) as real
  {
    v := Int(i * Pow10(k));
    TimesConstant(env, ops, i, Pow10(k));
    Widen(i, r, s, k);
  }

  lemma {:induction false} ToFloatResult(env: Env, i: int, factor: real, r: real)
    requires Rescale(i, factor) == r
    ensures Unary(env, ToFloat(factor), Int(i)) == Some(Real(r))
  {
  }

  lemma {:induction false} FloatCast(env: Env, ops: seq<Op>, i: int, s: nat, r: real) returns (v: Value)
    requires Yields(env, ops, Int(i)) && i as real == r * Pow10(s) as real
    ensures Yields(env, ops + [ToFloat(InversePow10(s))], v)
    ensures v == Real(r)
  {
    DivideOut(i, r, s);
    v := Real(r);
    ToFloatResult(env, i, InversePow10(s), r);
    YieldsUnary(env, ops, Int(i), ToFloat(InversePow10(s)));
  }

  /** Comparing raw integers of one scale compares the values. */
  lemma {:induction false} CompareScaled(op: Comparison, a: int, b: int, x: real, y: real, p: real)
    requires p > 0.0 && a as real == x * p && b as real == y * p
    ensures CompareInt(op, a, b) == Related(op, x, y)
  {
    ScaleOrder(x, y, p);
    ScaleOrder(y, x, p);
    assert a < b <==> a as real < b as real;
    assert b < a <==> b as real < a as real;
  }

  lemma {:induction false} CompareCorrect(env: Env, l: Code, r: Code, a: Value, b: Value, op: Comparison, scale: nat,
                                          x: Meaning, y: Meaning)
    requires l.lane == r.lane != BOOL_LANE
    requires Yields(env, l.ops, a) && Represents(a, l.lane, scale, x)
    requires Yields(env, r.ops, b) && Represents(b, r.lane, scale, y)
    ensures Yields(env, l.ops + r.ops + [Cmp(op)], Bool(Related(op, NumOf(x), NumOf(y))))
  {
    YieldsBinary(env, l.ops, r.ops, a, b, Cmp(op));
    if l.lane == INT_LANE {
      CompareScaled(op, a.i, b.i, x.r, y.r, Pow10(scale) as real);
    }
  }

  function RawResult(name: Function, a: int, b: int): int {
    if name.Plus? then a + b else if name.Minus? then a - b else a * b
  }

  /** Sums and differences keep a common scale; a product's scale is the sum of the scales. */
  lemma {:induction false} BinaryScaled(env: Env, name: Function, a: int, b: int, x: real, y: real, s: nat, t: nat)
    requires name.Plus? || name.Minus? || name.Times?
    requires a as real == x * Pow10(s) as real && b as real == y * Pow10(t) as real
    requires !name.Times? ==> s == t
    ensures RawResult(name, a, b) as real ==
            CallMeaning(env, name, [x, y]) * Pow10(if name.Times? then s + t else s) as real
  {
    if name.Times? {
      ProductScaled(a, b, x, y, s, t);
    } else {
      ScaleSum(x, y, Pow10(s) as real);
    }
  }

  lemma {:induction false} ProductScaled(a: int, b: int, x: real, y: real, s: nat, t: nat)
    requires a as real == x * Pow10(s) as real && b as real == y * Pow10(t) as real
    ensures (a * b) as real == (x * y) * Pow10(s + t) as real
  {
    var p, q := Pow10(s), Pow10(t);
    Pow10Adds(s, t);
    IntProduct(a, b);
    IntProduct(p, q);
    ScaleProduct(x, y, p as real, q as real);
  }

  lemma {:induction false} BinaryCallCorrect(env: Env, l: Code, r: Code, a: Value, b: Value, name: Function,
                                             x: Meaning, y: Meaning, tx: Type, ty: Type, result: Type)
    returns (v: Value)
    requires BinaryOp(name).Some? && Pair(Some(l), Some(r), BinaryOp(name).value, None).Some?
    requires Yields(env, l.ops, a) && Represents(a, l.lane, ScaleOf(tx), x) && (l.lane == INT_LANE ==> tx.Decimal?)
    requires Yields(env, r.ops, b) && Represents(b, r.lane, ScaleOf(ty), y) && (r.lane == INT_LANE ==> ty.Decimal?)
    requires CallTyped(name, [tx, ty], result)
    ensures Yields(env, l.ops + r.ops + [BinaryOp(name).value], v)
    ensures Represents(v, l.lane, ScaleOf(result), Num(CallMeaning(env, name, [NumOf(x), NumOf(y)])))
    ensures l.lane == INT_LANE ==> result.Decimal?
  {
    if l.lane == INT_LANE {
      v := IntCallCorrect(env, l.ops, r.ops, a.i, b.i, name, x.r, y.r, tx, ty, result);
    } else {
      v := Real(CallMeaning(env, name, [a.r, b.r]));
      BinaryFloat(env, l.ops, r.ops, a.r, b.r, name);
    }
  }

  lemma {:induction false} IntCallCorrect(env: Env, l: seq<Op>, r: seq<Op>, a: int, b: int, name: Function, x: real,
                                          y: real, tx: Type, ty: Type, result: Type) returns (v: Value)
    requires name.Plus? || name.Minus? || name.Times?
    requires Yields(env, l, Int(a)) && a as real == x * Pow10(ScaleOf(tx)) as real && tx.Decimal?
    requires Yields(env, r, Int(b)) && b as real == y * Pow10(ScaleOf(ty)) as real && ty.Decimal?
    requires CallTyped(name, [tx, ty], result)
    ensures Yields(env, l + r + [BinaryOp(name).value], v)
    ensures Represents(v, INT_LANE, ScaleOf(result), Num(CallMeaning(env, name, [x, y])))
    ensures result.Decimal?
  {
    DecimalCallTyped(name, tx, ty, result);
    v := Int(RawResult(name, a, b));
    BinaryInt(env, l, r, a, b, name);
    ResultRepresents(env, name, a, b, x, y, ScaleOf(tx), ScaleOf(ty), ScaleOf(result));
  }

  lemma {:induction false} ResultRepresents(env: Env, name: Function, a: int, b: int, x: real, y: real, s: nat,
                                            t: nat, u: nat)
    requires name.Plus? || name.Minus? || name.Times?
    requires a as real == x * Pow10(s) as real && b as real == y * Pow10(t) as real
    requires if name.Times? then u == s + t else u == s == t
    ensures Represents(Int(RawResult(name, a, b)), INT_LANE, u, Num(CallMeaning(env, name, [x, y])))
  {
    BinaryScaled(env, name, a, b, x, y, s, t);
  }

  lemma {:induction false} DecimalCallTyped(name: Function, tx: Type, ty: Type, result: Type)
    requires tx.Decimal? && ty.Decimal? && CallTyped(name, [tx, ty], result) &&
             (name.Plus? || name.Minus? || name.Times?)
    ensures result.Decimal?
    ensures name.Times? ==> ScaleOf(result) == ScaleOf(tx) + ScaleOf(ty)
    ensures !name.Times? ==> ScaleOf(tx) == ScaleOf(ty) == ScaleOf(result)
  {
    var args := [tx, ty];
    assert args[0] == tx && args[1] == ty;
  }

  lemma {:induction false} BinaryInt(env: Env, l: seq<Op>, r: seq<Op>, a: int, b: int, name: Function)
    requires Yields(env, l, Int(a)) && Yields(env, r, Int(b)) && (name.Plus? || name.Minus? || name.Times?)
    ensures Yields(env, l + r + [BinaryOp(name).value], Int(RawResult(name, a, b)))
  {
    YieldsBinary(env, l, r, Int(a), Int(b), BinaryOp(name).value);
  }

  lemma {:induction false} BinaryFloat(env: Env, l: seq<Op>, r: seq<Op>, a: real, b: real, name: Function)
    requires Yields(env, l, Real(a)) && Yields(env, r, Real(b)) && BinaryOp(name).Some?
    ensures Yields(env, l + r + [BinaryOp(name).value], Real(CallMeaning(env, name, [a, b])))
  {
    var op := BinaryOp(name).value;
    YieldsBinary(env, l, r, Real(a), Real(b), op);
    var args := [a, b];
    assert args[0] == a && args[1] == b;
    assert Binary(env, op, Real(a), Real(b)).value == Real(CallMeaning(env, name, args));
  }

  lemma {:induction false} ScaleMagnitude(x: real, p: real)
    requires p > 0.0
    ensures Magnitude(x) * p == Magnitude(x * p)
  {
    if x < 0.0 {
      assert (-x) * p > 0.0;
      assert (-x) * p == -(x * p);
    } else {
      assert x * p >= 0.0;
    }
  }

  lemma {:induction false} UnaryCallCorrect(env: Env, c: Code, a: Value, name: Function, x: Meaning, tx: Type,
                                            result: Type) returns (v: Value)
    requires UnaryOp(name).Some? && c.lane != BOOL_LANE && (UnaryOp(name).value.Apply? ==> c.lane == FLOAT_LANE)
    requires Yields(env, c.ops, a) && Represents(a, c.lane, ScaleOf(tx), x) && (c.lane == INT_LANE ==> tx.Decimal?)
    requires CallTyped(name, [tx], result)
    ensures Yields(env, c.ops + [UnaryOp(name).value], v)
    ensures Represents(v, c.lane, ScaleOf(result), Num(CallMeaning(env, name, [NumOf(x)])))
    ensures c.lane == INT_LANE ==> result.Decimal?
  {
    var op := UnaryOp(name).value;
    v := Unary(env, op, a).value;
    YieldsUnary(env, c.ops, a, op);
    if c.lane == INT_LANE {
      ScaleSum(x.r, x.r, Pow10(ScaleOf(tx)) as real);
      ScaleMagnitude(x.r, Pow10(ScaleOf(tx)) as real);
    }
  }

  // ---- The theorem ----

  ghost predicate Correct(plan: Plan, env: Env, level: nat, e: Expr, code: Code, v: Value)
    requires level <= |plan.projs|
  {
    && Yields(env, code.ops, v)
    && Represents(v, code.lane, ScaleOf(TypeOf(e)), Eval(plan, env, level, e))
    && (code.lane == INT_LANE ==> TypeOf(e).Decimal?)
  }

  lemma {:induction false} CompileCorrect(plan: Plan, env: Env, level: nat, e: Expr) returns (v: Value)
    requires level <= |plan.projs| && Typed(plan, env, level, e) && Compile(plan, level, e).Some?
    ensures Correct(plan, env, level, e, Compile(plan, level, e).value, v)
    decreases |plan.projs| - level, e, 1, 0
  {
    match e
    case ColumnRef(table, column, ty) =>
      var at := FindProjection(plan.projs, level, table);
      if at < |plan.projs| {
        v := CompileCorrect(plan, env, at + 1, plan.projs[at].expressions[column]);
      } else {
        v := env.row(plan.scan.columnIds[column]);
        ColumnCorrect(env, plan.scan.columnIds[column], ty);
      }
    case Literal(c, ty) =>
      v := LiteralCorrect(env, c, ty);
    case Cast(child, ty, tryCast) =>
      v := CastedCorrect(plan, env, level, e);
    case Compare(_, _, _) =>
      v := ComparisonCorrect(plan, env, level, e);
    case Conjunction(all, children) =>
      JoinCorrect(plan, env, level, e, |children|);
      v := Bool(EvalJoin(plan, env, level, e, |children|));
    case Operator(_, children) =>
      v := NegationCorrect(plan, env, level, e);
    case Call(name, children, ty) =>
      v := CallCorrect(plan, env, level, e);
  }

  lemma {:induction false} CastedCorrect(plan: Plan, env: Env, level: nat, e: Expr) returns (v: Value)
    requires level <= |plan.projs| && Typed(plan, env, level, e) && Compile(plan, level, e).Some? && e.Cast?
    ensures Correct(plan, env, level, e, Compile(plan, level, e).value, v)
    decreases |plan.projs| - level, e, 0, 0
  {
    var a := CompileCorrect(plan, env, level, e.child);
    v := CastCorrect(env, Compile(plan, level, e.child).value.ops, a, TypeOf(e.child), e.ty,
                     Eval(plan, env, level, e.child));
  }

  lemma {:induction false} NegationCorrect(plan: Plan, env: Env, level: nat, e: Expr) returns (v: Value)
    requires level <= |plan.projs| && Typed(plan, env, level, e) && Compile(plan, level, e).Some? && e.Operator?
    ensures Correct(plan, env, level, e, Compile(plan, level, e).value, v)
    decreases |plan.projs| - level, e, 0, 0
  {
    var child := e.children[0];
    var a := CompileCorrect(plan, env, level, child);
    v := Bool(!a.b);
    YieldsUnary(env, Compile(plan, level, child).value.ops, a, Not);
  }

  lemma {:induction false} ComparisonCorrect(plan: Plan, env: Env, level: nat, e: Expr) returns (v: Value)
    requires level <= |plan.projs| && Typed(plan, env, level, e) && Compile(plan, level, e).Some? && e.Compare?
    ensures Correct(plan, env, level, e, Compile(plan, level, e).value, v)
    decreases |plan.projs| - level, e, 0, 0
  {
    var l, r, op := e.left, e.right, e.cmp.value;
    var a := CompileCorrect(plan, env, level, l);
    var b := CompileCorrect(plan, env, level, r);
    CompareCorrect(env, Compile(plan, level, l).value, Compile(plan, level, r).value, a, b, op,
                   ScaleOf(TypeOf(l)), Eval(plan, env, level, l), Eval(plan, env, level, r));
    v := Bool(Related(op, NumOf(Eval(plan, env, level, l)), NumOf(Eval(plan, env, level, r))));
  }

  lemma {:induction false} CallCorrect(plan: Plan, env: Env, level: nat, e: Expr) returns (v: Value)
    requires level <= |plan.projs| && Typed(plan, env, level, e) && Compile(plan, level, e).Some? && e.Call?
    ensures Correct(plan, env, level, e, Compile(plan, level, e).value, v)
    decreases |plan.projs| - level, e, 0, 0
  {
    var children := e.children;
    var types := seq(|children|, i requires 0 <= i < |children| => TypeOf(children[i]));
    var first := children[0];
    var a := CompileCorrect(plan, env, level, first);
    if |children| == 2 {
      var second := children[1];
      var b := CompileCorrect(plan, env, level, second);
      assert types == [TypeOf(first), TypeOf(second)];
      v := BinaryCallCorrect(env, Compile(plan, level, first).value, Compile(plan, level, second).value, a, b, e.name,
                             Eval(plan, env, level, first), Eval(plan, env, level, second),
                             TypeOf(first), TypeOf(second), e.ty);
    } else {
      assert types == [TypeOf(first)];
      v := UnaryCallCorrect(env, Compile(plan, level, first).value, a, e.name, Eval(plan, env, level, first),
                            TypeOf(first), e.ty);
    }
  }

  lemma {:induction false} JoinStep(env: Env, front: seq<Op>, last: seq<Op>, x: bool, y: bool, conjunctive: bool)
    requires Yields(env, front, Bool(x)) && Yields(env, last, Bool(y))
    ensures Yields(env, front + last + [if conjunctive then And else Or], Bool(if conjunctive then x && y else x || y))
  {
    YieldsBinary(env, front, last, Bool(x), Bool(y), if conjunctive then And else Or);
  }

  lemma {:induction false} JoinCorrect(plan: Plan, env: Env, level: nat, e: Expr, n: nat)
    requires level <= |plan.projs| && Typed(plan, env, level, e) && e.Conjunction? && 0 < n <= |e.children|
    requires CompileJoin(plan, level, e, n).Some?
    ensures var code := CompileJoin(plan, level, e, n).value;
            code.lane == BOOL_LANE && Yields(env, code.ops, Bool(EvalJoin(plan, env, level, e, n)))
    decreases |plan.projs| - level, e, 0, n
  {
    var child := e.children[n - 1];
    assert Typed(plan, env, level, child);
    var a := CompileCorrect(plan, env, level, child);
    if n == 1 {
      assert EvalJoin(plan, env, level, e, 0) == e.conjunctive;
    } else {
      JoinCorrect(plan, env, level, e, n - 1);
      JoinStep(env, CompileJoin(plan, level, e, n - 1).value.ops, Compile(plan, level, child).value.ops,
               EvalJoin(plan, env, level, e, n - 1), a.b, e.conjunctive);
    }
  }
}
