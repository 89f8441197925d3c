/** The expression compiler: typed trees to postfix programs, through a chain of projections. */
module Translator {
  import opened Postfix

  // ---- Types and trees ----

  /** `wide` decimals are those of more than 18 digits. OtherNumericT stands for the numeric types no column may
      have: the small, the unsigned and the huge integers. */
  datatype Type =
    | Decimal(scale: nat, wide: bool) | DoubleT | FloatT | BigintT | IntegerT | DateT | BooleanT
    | OtherNumericT | OtherT

  /** DECIMAL of at most 18 digits: raw scaled integers, exact in the int64 lane. */
  predicate IsIntLaneType(ty: Type) { ty.Decimal? && !ty.wide }

  predicate IsSupportedColumnType(ty: Type) {
    match ty
    case DoubleT => true
    case FloatT => true
    case BigintT => true
    case IntegerT => true
    case DateT => true
    case Decimal(_, _) => IsIntLaneType(ty)
    case _ => false
  }

  predicate IsNumeric(ty: Type) {
    ty.Decimal? || ty.DoubleT? || ty.FloatT? || ty.BigintT? || ty.IntegerT? || ty.OtherNumericT?
  }

  function ScaleOf(ty: Type): nat { if ty.Decimal? then ty.scale else 0 }

  datatype Constant = Null | Raw(raw: int) | Days(days: int) | Number(number: real)

  datatype Function = Plus | Minus | Times | Divide | SinF | CosF | SqrtF | AbsF | OtherF

  datatype Expr =
    | ColumnRef(table: nat, column: nat, ty: Type)
    | Literal(constant: Constant, ty: Type)
    | Cast(child: Expr, ty: Type, tryCast: bool)
    | Compare(cmp: Option<Comparison>, left: Expr, right: Expr)
    | Conjunction(conjunctive: bool, children: seq<Expr>)
    | Operator(isNot: bool, children: seq<Expr>)
    | Call(name: Function, children: seq<Expr>, ty: Type)
    | Unsupported(ty: Type)

  function TypeOf(e: Expr): Type {
    match e
    case ColumnRef(_, _, ty) => ty
    case Literal(_, ty) => ty
    case Cast(_, ty, _) => ty
    case Compare(_, _, _) => BooleanT
    case Conjunction(_, _) => BooleanT
    case Operator(_, _) => BooleanT
    case Call(_, _, ty) => ty
    case Unsupported(ty) => ty
  }

  datatype Projection = Projection(table: nat, expressions: seq<Expr>)

  /** The scan below the projections: its table index and the storage column behind each output column. */
  datatype Scan = Scan(table: nat, columnIds: seq<nat>)

  datatype Plan = Plan(projs: seq<Projection>, scan: Scan)

  /** The first projection at or below `level` that produces the table. */
  function FindProjection(projs: seq<Projection>, level: nat, table: nat): (at: nat)
    requires level <= |projs|
    ensures level <= at <= |projs|
    ensures at < |projs| ==> projs[at].table == table
    decreases |projs| - level
  {
    if level == |projs| || projs[level].table == table then level else FindProjection(projs, level + 1, table)
  }

  // ---- What a tree means ----

  datatype Meaning = Num(r: real) | Truth(b: bool)

  function Pow10(n: nat): (r: nat)
    ensures r > 0
  {
    if n == 0 then 1 else 10 * Pow10(n - 1)
  }

  /** 10^-n, that is 1 / Pow10(n). */
  function InversePow10(n: nat): real {
    if n == 0 then 1.0 else InversePow10(n - 1) / 10.0
  }

  /** A stored value: decimals are raw integers, everything else rides the float lane. */
  function StoredMeaning(v: Value, ty: Type): Meaning {
    match v
    case Int(i) => Num(i as real / Pow10(ScaleOf(ty)) as real)
    case Real(r) => Num(r)
    case Bool(b) => Truth(b)
  }

  function ConstantMeaning(c: Constant, ty: Type): Meaning {
    match c
    case Null => Num(0.0)
    case Raw(i) => Num(i as real / Pow10(ScaleOf(ty)) as real)
    case Days(d) => Num(d as real)
    case Number(x) => Num(x)
  }

  function NumOf(m: Meaning): real { if m.Num? then m.r else 0.0 }

  function TruthOf(m: Meaning): bool { if m.Truth? then m.b else false }

  function Magnitude(x: real): real { if x < 0.0 then -x else x }

  function CallMeaning(env: Env, name: Function, args: seq<real>): real {
    if |args| == 2 then
      match name
      case Plus => args[0] + args[1]
      case Minus => args[0] - args[1]
      case Times => args[0] * args[1]
      case Divide => env.divide(args[0], args[1])
      case _ => 0.0
    else if |args| == 1 then
      match name
      case Minus => -args[0]
      case SinF => env.apply(SIN, args[0])
      case CosF => env.apply(COS, args[0])
      case SqrtF => env.apply(SQRT, args[0])
      case AbsF => Magnitude(args[0])
      case _ => 0.0
    else 0.0
  }

  /** The value of a tree over a row, in exact arithmetic. Casts the compiler accepts keep the value. */
  function Eval(plan: Plan, env: Env, level: nat, e: Expr): Meaning
    requires level <= |plan.projs|
    decreases |plan.projs| - level, e, 1, 0
  {
    match e
    case ColumnRef(table, column, ty) =>
      var at := FindProjection(plan.projs, level, table);
      if at < |plan.projs| then
        if column < |plan.projs[at].expressions| then Eval(plan, env, at + 1, plan.projs[at].expressions[column])
        else Num(0.0)
      else if column < |plan.scan.columnIds| then StoredMeaning(env.row(plan.scan.columnIds[column]), ty)
      else Num(0.0)
    case Literal(c, ty) => ConstantMeaning(c, ty)
    case Cast(child, _, _) => Eval(plan, env, level, child)
    case Compare(cmp, l, r) =>
      if cmp.None? then Truth(false)
      else Truth(Related(cmp.value, NumOf(Eval(plan, env, level, l)), NumOf(Eval(plan, env, level, r))))
    case Conjunction(all, children) => Truth(EvalJoin(plan, env, level, e, |children|))
    case Operator(_, children) =>
      if |children| == 1 then Truth(!TruthOf(Eval(plan, env, level, children[0]))) else Truth(false)
    case Call(name, children, _) =>
      if |children| == 2 then
        Num(CallMeaning(env, name, [NumOf(Eval(plan, env, level, children[0])),
                                    NumOf(Eval(plan, env, level, children[1]))]))
      else if |children| == 1 then
        Num(CallMeaning(env, name, [NumOf(Eval(plan, env, level, children[0]))]))
      else Num(0.0)
    case Unsupported(_) => Num(0.0)
  }

  /** The conjunction or disjunction of the first n children. */
  function EvalJoin(plan: Plan, env: Env, level: nat, e: Expr, n: nat): bool
    requires level <= |plan.projs| && e.Conjunction? && n <= |e.children|
    decreases |plan.projs| - level, e, 0, n
  {
    if n == 0 then e.conjunctive
    else
      var rest, last := EvalJoin(plan, env, level, e, n - 1), TruthOf(Eval(plan, env, level, e.children[n - 1]));
      if e.conjunctive then rest && last else rest || last
  }

  // ---- The binder's typing ----

  /** Typing of a call as the binder leaves it: sums at one scale, products at the sum of the scales. */
  ghost predicate CallTyped(name: Function, args: seq<Type>, ty: Type) {
    if |args| == 2 then
      && (args[0].Decimal? && args[1].Decimal? ==> ty.Decimal?)
      && (args[0].Decimal? && args[1].Decimal? && (name.Plus? || name.Minus?) ==>
            args[0].scale == args[1].scale == ScaleOf(ty))
      && (args[0].Decimal? && args[1].Decimal? && name.Times? ==> ScaleOf(ty) == args[0].scale + args[1].scale)
    else if |args| == 1 then
      args[0].Decimal? ==> ty.Decimal? && ty.scale == args[0].scale
    else true
  }

  /** Binder typing, and stored values in the lane their column's type says. */
  ghost predicate Typed(plan: Plan, env: Env, level: nat, e: Expr)
    requires level <= |plan.projs|
    decreases |plan.projs| - level, e
  {
    match e
    case ColumnRef(table, column, ty) =>
      var at := FindProjection(plan.projs, level, table);
      if at < |plan.projs| then
        && column < |plan.projs[at].expressions|
        && TypeOf(plan.projs[at].expressions[column]) == ty
        && Typed(plan, env, at + 1, plan.projs[at].expressions[column])
      else
        column < |plan.scan.columnIds| ==>
          var v := env.row(plan.scan.columnIds[column]);
          if IsIntLaneType(ty) then v.Int? else v.Real?
    case Literal(c, ty) =>
      && (ty.Decimal? && !c.Null? ==> c.Raw?)
      && (ty.DateT? && !c.Null? ==> c.Days?)
      && (!ty.Decimal? && IsNumeric(ty) && !c.Null? ==> c.Number?)
    case Cast(child, _, _) => Typed(plan, env, level, child)
    case Compare(_, l, r) => TypeOf(l) == TypeOf(r) && Typed(plan, env, level, l) && Typed(plan, env, level, r)
    case Conjunction(_, children) => children != [] && forall i :: 0 <= i < |children| ==>
        Typed(plan, env, level, children[i])
    case Operator(_, children) => forall i :: 0 <= i < |children| ==> Typed(plan, env, level, children[i])
    case Call(name, children, ty) =>
      && (forall i :: 0 <= i < |children| ==> Typed(plan, env, level, children[i]))
      && CallTyped(name, seq(|children|, i requires 0 <= i < |children| => TypeOf(children[i])), ty)
    case Unsupported(_) => true
  }

  // ---- The compiler ----

  datatype Lane = FLOAT_LANE | INT_LANE | BOOL_LANE

  datatype Code = Code(ops: seq<Op>, cols: set<nat>, lane: Lane)

  function LaneOfColumn(ty: Type): Lane { if IsIntLaneType(ty) then INT_LANE else FLOAT_LANE }

  function CompileLiteral(c: Constant, ty: Type): Option<Code> {
    if c.Null? then None
    else if ty.Decimal? then
      if IsIntLaneType(ty) && c.Raw? then Some(Code([ConstInt(c.raw)], {}, INT_LANE)) else None
    else if ty.DateT? then
      if c.Days? then Some(Code([ConstFloat(c.days as real)], {}, FLOAT_LANE)) else None
    else if IsNumeric(ty) && c.Number? then Some(Code([ConstFloat(c.number)], {}, FLOAT_LANE))
    else None
  }

  /** The lane a cast needs its child in, the operations it adds, and its own lane. */
  datatype CastCode = CastCode(need: Lane, tail: seq<Op>, lane: Lane)

  function CastTail(from: Type, to: Type, tryCast: bool): Option<CastCode> {
    if tryCast then None
    else if to.Decimal? && from.Decimal? then
      if !IsIntLaneType(to) || !IsIntLaneType(from) || to.scale < from.scale then None
      else if to.scale == from.scale then Some(CastCode(INT_LANE, [], INT_LANE))
      else Some(CastCode(INT_LANE, [ConstInt(Pow10(to.scale - from.scale)), Mul], INT_LANE))
    else if !to.DoubleT? && !to.FloatT? then None
    else if from.Decimal? then
      if !IsIntLaneType(from) then None
      else Some(CastCode(INT_LANE, [ToFloat(InversePow10(from.scale))], FLOAT_LANE))
    else if IsNumeric(from) then Some(CastCode(FLOAT_LANE, [], FLOAT_LANE))
    else None
  }

  function BinaryOp(name: Function): Option<Op> {
    match name
    case Plus => Some(Add)
    case Minus => Some(Sub)
    case Times => Some(Mul)
    case Divide => Some(Div)
    case _ => None
  }

  function UnaryOp(name: Function): Option<Op> {
    match name
    case Minus => Some(Negate)
    case SinF => Some(Apply(SIN))
    case CosF => Some(Apply(COS))
    case SqrtF => Some(Apply(SQRT))
    case AbsF => Some(Abs)
    case _ => None
  }

  /** What Translate appends for a tree, or None where it declines. */
  function Compile(plan: Plan, level: nat, e: Expr): Option<Code>
    requires level <= |plan.projs|
    decreases |plan.projs| - level, e, 1, 0
  {
    match e
    case ColumnRef(table, column, ty) =>
      var at := FindProjection(plan.projs, level, table);
      if at < |plan.projs| then
        if column < |plan.projs[at].expressions| then Compile(plan, at + 1, plan.projs[at].expressions[column])
        else None
      else if table != plan.scan.table || !IsSupportedColumnType(ty) || column >= |plan.scan.columnIds| then None
      else
        var storage := plan.scan.columnIds[column];
        Some(Code([LoadCol(storage)], {storage}, LaneOfColumn(ty)))
    case Literal(c, ty) => CompileLiteral(c, ty)
    case Cast(child, ty, tryCast) =>
      (match CastTail(TypeOf(child), ty, tryCast)
       case None => None
       case Some(cast) =>
         match Compile(plan, level, child)
         case None => None
         case Some(c) => if c.lane == cast.need then Some(Code(c.ops + cast.tail, c.cols, cast.lane)) else None)
    case Compare(cmp, l, r) =>
      (match cmp
       case None => None
       case Some(op) => Pair(Compile(plan, level, l), Compile(plan, level, r), Cmp(op), Some(BOOL_LANE)))
    case Conjunction(all, children) =>
      if children == [] then None else CompileJoin(plan, level, e, |children|)
    case Operator(isNot, children) =>
      if !isNot || |children| != 1 then None
      else
        (match Compile(plan, level, children[0])
         case None => None
         case Some(c) => if c.lane == BOOL_LANE then Some(Code(c.ops + [Not], c.cols, BOOL_LANE)) else None)
    case Call(name, children, _) =>
      if |children| == 2 then
        (match BinaryOp(name)
         case None => None
         case Some(op) => Pair(Compile(plan, level, children[0]), Compile(plan, level, children[1]), op, None))
      else if |children| == 1 then
        (match UnaryOp(name)
         case None => None
         case Some(op) =>
           match Compile(plan, level, children[0])
           case None => None
           case Some(c) =>
             if c.lane == BOOL_LANE || (op.Apply? && c.lane != FLOAT_LANE) then None
             else Some(Code(c.ops + [op], c.cols, c.lane)))
      else None
    case Unsupported(_) => None
  }

  /** Two operands of one value lane and their operation. `lane` is the result lane if it is not theirs. */
  function Pair(l: Option<Code>, r: Option<Code>, op: Op, lane: Option<Lane>): Option<Code> {
    if l.None? || r.None? then None
    else if l.value.lane != r.value.lane || l.value.lane == BOOL_LANE then None
    else if l.value.lane == INT_LANE && op == Div then None
    else Some(Code(l.value.ops + r.value.ops + [op], l.value.cols + r.value.cols,
                   if lane.Some? then lane.value else l.value.lane))
  }

  /** The first n children of a conjunction, folded to the left. */
  function CompileJoin(plan: Plan, level: nat, e: Expr, n: nat): Option<Code>
    requires level <= |plan.projs| && e.Conjunction? && 0 < n <= |e.children|
    decreases |plan.projs| - level, e, 0, n
  {
    match Compile(plan, level, e.children[n - 1])
    case None => None
    case Some(last) =>
      if last.lane != BOOL_LANE then None
      else if n == 1 then Some(last)
      else
        match CompileJoin(plan, level, e, n - 1)
        case None => None
        case Some(front) =>
          Some(Code(front.ops + last.ops + [if e.conjunctive then And else Or], front.cols + last.cols, BOOL_LANE))
  }
}
