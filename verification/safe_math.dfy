/**
 The bounded evaluator of `safe_math.py`: syntax trees, the checks before evaluation, and evaluation
 with its guards on integer growth. Floats are opaque: a `Host` says what the platform computes with
 them. Names and functions are the default ones.
 */
module SafeMath {
  import opened Common
  import opened IntegerWidth

  const MAX_LENGTH: nat := 300
  const MAX_NESTING: int := 32
  const MAX_NODES: nat := 200
  const MAX_STEPS: nat := 1000
  const MAX_INT_BITS: nat := 4096
  const MAX_FACTORIAL: int := 170
  const FLOAT_BITS: nat := 1024

  /** A double, by its bit pattern. */
  datatype Float = Float(pattern: bv64)

  datatype Value = I(n: int) | F(x: Float)

  datatype Problem =
    | NumberTooLarge | DivisionByZero | ExponentTooLarge | NotReal | NotAllowed | UnknownName
    | UnknownFunction | WrongArguments | BadArgument | TooComplex

  datatype Result<T> = Ok(value: T) | Err(problem: Problem)

  datatype Literal = IntLit(n: int) | FloatLit(x: Float) | OtherLit

  datatype Operator = Add | Sub | Mult | Div | FloorDivide | Mod | Pow | OtherOperator

  datatype Sign = Minus | Plus | OtherSign

  /** Expressions; `Foreign` is any node type the evaluator does not know. */
  datatype Node =
    | Constant(value: Literal)
    | Name(id: string)
    | BinOp(left: Node, op: Operator, right: Node)
    | UnaryOp(sign: Sign, operand: Node)
    | Call(func: Node, args: seq<Node>, keywords: nat)
    | Foreign(children: seq<Node>)

  datatype Fn =
    | AbsFn | RoundFn | MinFn | MaxFn | IntFn | FloatFn | PowFn | CeilFn | FloorFn | FactorialFn
    | FloatingFn(name: string, least: nat, most: nat)

  /** What a float operation of the platform gives. */
  datatype HostResult = Got(x: Float) | Overflowed | ZeroDivided | ComplexResult | Refused

  /** The platform's floats. */
  datatype Host = Host(
    constants: map<string, Float>,
    tooLarge: Float -> bool,                        // finite and above the magnitude limit
    isZero: Float -> bool,
    negate: Float -> Float,
    exponentAllowed: (Value, Value) -> bool,
    arith: (Operator, Value, Value) -> HostResult,
    power: (Value, Value) -> HostResult,
    whole: (Fn, Float) -> Option<int>,              // as an integer, where the function gives one
    integral: Float -> Option<int>,                 // its value, if that is a whole number
    pick: (Fn, seq<Value>) -> nat,                  // which argument is the least or greatest
    call: (Fn, seq<Value>) -> HostResult)

  /** A finite double lies below 2 ** 1024. */
  ghost predicate Sound(h: Host) {
    forall fn, x :: h.whole(fn, x).Some? ==> Width(h.whole(fn, x).value) <= FLOAT_BITS
  }

  function FromHost(r: HostResult): Result<Value> {
    match r
    case Got(x) => Ok(F(x))
    case Overflowed => Err(NumberTooLarge)
    case ZeroDivided => Err(DivisionByZero)
    case ComplexResult => Err(NotReal)
    case Refused => Err(BadArgument)
  }

  // ---------- Guards and operators ----------

  /** `_check_number`. */
  function CheckNumber(v: Value, h: Host): Result<Value> {
    match v
    case I(n) => if Width(n) <= MAX_INT_BITS then Ok(v) else Err(NumberTooLarge)
    case F(x) => if h.tooLarge(x) then Err(NumberTooLarge) else Ok(v)
  }

  /** The size estimate `_power` makes for two integers. */
  predicate PowerAllowed(a: int, b: nat) {
    Abs(a) <= 1 || b * Width(a) <= MAX_INT_BITS
  }

  predicate ExponentAllowed(a: Value, b: Value, h: Host) {
    if a.I? && b.I? then Abs(b.n) <= 1000000 || Abs(a.n) <= 1 else h.exponentAllowed(a, b)
  }

  /** `_power`. */
  function Power(a: Value, b: Value, h: Host): Result<Value> {
    if a.I? && b.I? && b.n >= 0 then
      if PowerAllowed(a.n, b.n) then Ok(I(IntPow(a.n, b.n))) else Err(NumberTooLarge)
    else if !ExponentAllowed(a, b, h) then Err(ExponentTooLarge)
    else FromHost(h.power(a, b))
  }

  /** `_mult` on integers. */
  predicate ProductAllowed(a: int, b: int) {
    Width(a) + Width(b) <= MAX_INT_BITS + 1
  }

  predicate IsZero(v: Value, h: Host) {
    match v
    case I(n) => n == 0
    case F(x) => h.isZero(x)
  }

  /** An operator of `_BINOPS` on two integers; true division and negative powers leave the integers. */
  function OnIntegers(op: Operator, a: int, b: int, h: Host): Result<Value> {
    match op
    case Add => Ok(I(a + b))
    case Sub => Ok(I(a - b))
    case Mult => if ProductAllowed(a, b) then Ok(I(a * b)) else Err(NumberTooLarge)
    case Div => if b == 0 then Err(DivisionByZero) else FromHost(h.arith(op, I(a), I(b)))
    case FloorDivide => if b == 0 then Err(DivisionByZero) else Ok(I(FloorDiv(a, b)))
    case Mod => if b == 0 then Err(DivisionByZero) else Ok(I(FloorMod(a, b)))
    case Pow => Power(I(a), I(b), h)
    case OtherOperator => Err(NotAllowed)
  }

  function OnFloats(op: Operator, a: Value, b: Value, h: Host): Result<Value> {
    match op
    case Pow => Power(a, b, h)
    case OtherOperator => Err(NotAllowed)
    case Add => FromHost(h.arith(op, a, b))
    case Sub => FromHost(h.arith(op, a, b))
    case Mult => FromHost(h.arith(op, a, b))
    case _ => if IsZero(b, h) then Err(DivisionByZero) else FromHost(h.arith(op, a, b))
  }

  /** An operator's result before it is checked. */
  function Operate(op: Operator, a: Value, b: Value, h: Host): Result<Value> {
    if a.I? && b.I? then OnIntegers(op, a.n, b.n, h) else OnFloats(op, a, b, h)
  }

  function Checked(r: Result<Value>, h: Host): Result<Value> {
    match r
    case Err(_) => r
    case Ok(v) => CheckNumber(v, h)
  }

  // ---------- Functions ----------

  function Lookup(name: string): Option<Fn> {
    if name == "abs" then Some(AbsFn)
    else if name == "round" then Some(RoundFn)
    else if name == "min" then Some(MinFn)
    else if name == "max" then Some(MaxFn)
    else if name == "int" then Some(IntFn)
    else if name == "float" then Some(FloatFn)
    else if name == "pow" then Some(PowFn)
    else if name == "ceil" then Some(CeilFn)
    else if name == "floor" then Some(FloorFn)
    else if name == "factorial" then Some(FactorialFn)
    else if name in {"sqrt", "log2", "log10", "exp", "sin", "cos", "tan", "asin", "acos", "atan",
                     "sinh", "cosh", "tanh", "degrees", "radians"} then Some(FloatingFn(name, 1, 1))
    else if name == "log" then Some(FloatingFn(name, 1, 2))
    else if name == "atan2" then Some(FloatingFn(name, 2, 2))
    else if name == "hypot" then Some(FloatingFn(name, 1, 10))
    else None
  }

  predicate TakesArguments(fn: Fn, count: nat) {
    match fn
    case RoundFn => 1 <= count <= 2
    case MinFn => 1 <= count <= 20
    case MaxFn => 1 <= count <= 20
    case PowFn => count == 2
    case FloatingFn(_, least, most) => least <= count <= most
    case _ => count == 1
  }

  function Factorial(n: nat): nat {
    if n == 0 then 1 else n * Factorial(n - 1)
  }

  function Ten(k: nat): (p: nat)
    ensures p > 0
  {
    if k == 0 then 1 else 10 * Ten(k - 1)
  }

  /** An integer rounded to a multiple of `p`, halves to the even multiple. */
  function RoundTo(n: int, p: nat): int
    requires p > 0
  {
    var q, r := FloorDiv(n, p), FloorMod(n, p);
    if 2 * r < p || (2 * r == p && q % 2 == 0) then n - r else n - r + p
  }

  /** A number made an integer by `round`, `int`, `ceil` or `floor`. */
  function Wholly(fn: Fn, v: Value, h: Host): Result<int> {
    match v
    case I(n) => Ok(n)
    case F(x) => match h.whole(fn, x) case Some(n) => Ok(n) case None => Err(BadArgument)
  }

  /** `_int_arg`: an integer, or a float that is a whole number. */
  function IntArg(v: Value, h: Host): Result<int> {
    match v
    case I(n) => Ok(n)
    case F(x) => match h.integral(x) case Some(n) => Ok(n) case None => Err(BadArgument)
  }

  function AsInteger(r: Result<int>): Result<Value> {
    match r
    case Ok(n) => Ok(I(n))
    case Err(p) => Err(p)
  }

  /** `_round` with a number of digits. */
  function RoundDigits(v: Value, digits: Result<int>, h: Host): Result<Value> {
    match digits
    case Err(p) => Err(p)
    case Ok(d) =>
      if !(-20 <= d <= 20) then Err(BadArgument)
      else match v
        case F(_) => FromHost(h.call(RoundFn, [v, I(d)]))
        case I(n) => Ok(I(if d >= 0 then n else RoundTo(n, Ten(-d))))
  }

  function FactorialOf(n: Result<int>): Result<Value> {
    match n
    case Err(p) => Err(p)
    case Ok(k) => if 0 <= k <= MAX_FACTORIAL then Ok(I(Factorial(k))) else Err(BadArgument)
  }

  predicate AllIntegers(args: seq<Value>) {
    forall k :: 0 <= k < |args| ==> args[k].I?
  }

  function Extreme(args: seq<Value>, greatest: bool): int
    requires args != [] && AllIntegers(args)
  {
    if |args| == 1 then args[0].n
    else
      var rest := Extreme(args[1..], greatest);
      if (args[0].n > rest) == greatest then args[0].n else rest
  }

  /** A function's result before it is checked. */
  function Invoke(fn: Fn, args: seq<Value>, h: Host): Result<Value> {
    if !TakesArguments(fn, |args|) then Err(WrongArguments)
    else match fn
      case AbsFn => if args[0].I? then Ok(I(Abs(args[0].n))) else FromHost(h.call(fn, args))
      case RoundFn =>
        if |args| == 1 then AsInteger(Wholly(fn, args[0], h))
        else RoundDigits(args[0], IntArg(args[1], h), h)
      case IntFn => AsInteger(Wholly(fn, args[0], h))
      case CeilFn => AsInteger(Wholly(fn, args[0], h))
      case FloorFn => AsInteger(Wholly(fn, args[0], h))
      case FloatFn => FromHost(h.call(fn, args))
      case PowFn => Power(args[0], args[1], h)
      case FactorialFn => FactorialOf(IntArg(args[0], h))
      case MinFn => Selected(fn, args, h)
      case MaxFn => Selected(fn, args, h)
      case FloatingFn(_, _, _) => FromHost(h.call(fn, args))
  }

  /** `min` and `max`; a single number is not a collection. */
  function Selected(fn: Fn, args: seq<Value>, h: Host): Result<Value>
    requires args != []
  {
    if |args| == 1 then Err(BadArgument)
    else if AllIntegers(args) then Ok(I(Extreme(args, fn.MaxFn?)))
    else Ok(args[h.pick(fn, args) % |args|])
  }

  // ---------- What evaluation means ----------

  function ValueOf(node: Node, h: Host): Result<Value> {
    match node
    case Constant(IntLit(n)) => CheckNumber(I(n), h)
    case Constant(FloatLit(x)) => CheckNumber(F(x), h)
    case Constant(OtherLit) => Err(NotAllowed)
    case Name(id) => if id in h.constants then Ok(F(h.constants[id])) else Err(UnknownName)
    case BinOp(l, op, r) =>
      if op.OtherOperator? then Err(NotAllowed)
      else
        var a := ValueOf(l, h);
        if a.Err? then a
        else
          var b := ValueOf(r, h);
          if b.Err? then b else Checked(Operate(op, a.value, b.value, h), h)
    case UnaryOp(sign, e) =>
      var a := ValueOf(e, h);
      if a.Err? then a else Signed(sign, a.value, h)
    case Call(f, args, keywords) =>
      if !f.Name? || keywords > 0 then Err(NotAllowed)
      else
        var fn := Lookup(f.id);
        if fn.None? then Err(UnknownFunction)
        else
          var vs := ValuesOf(args, h);
          if vs.Err? then Err(vs.problem) else Checked(Invoke(fn.value, vs.value, h), h)
    case Foreign(_) => Err(NotAllowed)
  }

  function ValuesOf(nodes: seq<Node>, h: Host): Result<seq<Value>> {
    if nodes == [] then Ok([])
    else
      var a := ValueOf(nodes[0], h);
      if a.Err? then Err(a.problem)
      else
        var rest := ValuesOf(nodes[1..], h);
        if rest.Err? then rest else Ok([a.value] + rest.value)
  }

  function Signed(sign: Sign, v: Value, h: Host): Result<Value> {
    match sign
    case OtherSign => Err(NotAllowed)
    case Plus => Ok(v)
    case Minus => Ok(match v case I(n) => I(-n) case F(x) => F(h.negate(x)))
  }

  // ---------- Widths ----------

  predicate Within(v: Value, bits: nat) {
    v.I? ==> Width(v.n) <= bits
  }

  predicate AllWithin(vs: seq<Value>, bits: nat) {
    forall k :: 0 <= k < |vs| ==> Within(vs[k], bits)
  }

  lemma PowerWithin(a: Value, b: Value, h: Host)
    requires Power(a, b, h).Ok?
    ensures Within(Power(a, b, h).value, MAX_INT_BITS + 1)
  {
    hide Bits;
    if a.I? && b.I? && b.n >= 0 {
      if Abs(a.n) <= 1 {
        UnitPower(a.n, b.n);
        AbsLeWidth(IntPow(a.n, b.n), 1);
        assert Width(1) == 1 by { OneBit(); }
      } else {
        PowerWidth(a.n, b.n);
      }
    }
  }

  lemma OneBit()
    ensures Width(1) == 1
  {
    assert Bits(0) == 0;
  }

  /** The guards come before the work: an operator never computes an integer wider than 4097 bits. */
  lemma OperateWithin(op: Operator, a: Value, b: Value, h: Host)
    requires Within(a, MAX_INT_BITS) && Within(b, MAX_INT_BITS) && Operate(op, a, b, h).Ok?
    ensures Within(Operate(op, a, b, h).value, MAX_INT_BITS + 1)
  {
    hide Bits, Width, Power, IntPow;
    if op == Pow { PowerWithin(a, b, h); }
    if a.I? && b.I? {
      match op
      case Add => SumWidth(a.n, b.n, MAX_INT_BITS);
      case Sub => SumWidth(a.n, b.n, MAX_INT_BITS);
      case Mult => ProductWidth(a.n, b.n);
      case FloorDivide =>
        FloorWidths(a.n, b.n);
        AbsLeWidth(FloorDiv(a.n, b.n), a.n);
      case Mod =>
        FloorWidths(a.n, b.n);
        AbsLeWidth(FloorMod(a.n, b.n), b.n);
      case _ =>
    }
  }

  lemma {:induction false} FactorialBound(n: nat)
    requires n <= 170
    ensures Factorial(n) <= Pow2(8 * n)
  {
    if n > 0 {
      FactorialBound(n - 1);
      assert Pow2(8) == 256;
      Pow2Add(8, 8 * (n - 1));
      assert 8 + 8 * (n - 1) == 8 * n;
      MulMono(n, Factorial(n - 1), 256, Pow2(8 * (n - 1)));
    }
  }

  lemma FactorialWithin(n: nat)
    requires n <= 170
    ensures Width(Factorial(n)) <= 8 * n + 1
  {
    FactorialBound(n);
    BitsFit(Factorial(n), 8 * n + 1);
    assert Pow2(8 * n + 1) == 2 * Pow2(8 * n);
  }

  lemma {:induction false} TenBound(k: nat)
    ensures Ten(k) <= Pow2(4 * k)
  {
    if k > 0 {
      TenBound(k - 1);
      assert Pow2(4 * k) == 2 * Pow2(4 * k - 1) == 4 * Pow2(4 * k - 2);
      assert Pow2(4 * k - 2) == 2 * Pow2(4 * k - 3) == 4 * Pow2(4 * k - 4);
    }
  }

  lemma RoundWithin(n: int, k: nat)
    requires k <= 20 && Width(n) <= MAX_INT_BITS
    ensures Width(RoundTo(n, Ten(k))) <= MAX_INT_BITS + 1
  {
    var p := Ten(k);
    var d := RoundTo(n, p) - n;
    FloorDivMod(n, p);
    assert Abs(d) <= p;
    TenBound(k);
    BitsFit(p, 4 * k + 1);
    assert Pow2(4 * k + 1) == 2 * Pow2(4 * k);
    hide RoundTo, Ten, Pow2, Bits;
    AbsLeWidth(d, p);
    SumWidth(n, d, MAX_INT_BITS);
  }

  lemma {:induction false} ExtremeIsOne(args: seq<Value>, greatest: bool)
    requires args != [] && AllIntegers(args)
    ensures I(Extreme(args, greatest)) in args
    ensures forall k :: 0 <= k < |args| ==>
      if greatest then args[k].n <= Extreme(args, greatest) else Extreme(args, greatest) <= args[k].n
  {
    if |args| > 1 {
      ExtremeIsOne(args[1..], greatest);
      assert forall k :: 1 <= k < |args| ==> args[k] == args[1..][k - 1];
    }
  }

  lemma WhollyWithin(fn: Fn, v: Value, h: Host)
    requires Sound(h) && Within(v, MAX_INT_BITS) && Wholly(fn, v, h).Ok?
    ensures Width(Wholly(fn, v, h).value) <= MAX_INT_BITS
  {
  }

  /** No function computes an integer wider than 4097 bits either. */
  lemma InvokeWithin(fn: Fn, args: seq<Value>, h: Host)
    requires Sound(h) && AllWithin(args, MAX_INT_BITS) && Invoke(fn, args, h).Ok?
    ensures Within(Invoke(fn, args, h).value, MAX_INT_BITS + 1)
  {
    hide Power, RoundTo, Ten, Extreme, Factorial, Sound, Bits;
    match fn
    case AbsFn =>
    case PowFn => PowerWithin(args[0], args[1], h);
    case RoundFn => RoundFnWithin(args, h);
    case IntFn => WhollyWithin(fn, args[0], h);
    case CeilFn => WhollyWithin(fn, args[0], h);
    case FloorFn => WhollyWithin(fn, args[0], h);
    case FactorialFn => FactorialWithin(IntArg(args[0], h).value);
    case MinFn => if AllIntegers(args) { ExtremeIsOne(args, false); }
    case MaxFn => if AllIntegers(args) { ExtremeIsOne(args, true); }
    case _ =>
  }

  lemma RoundFnWithin(args: seq<Value>, h: Host)
    requires Sound(h) && AllWithin(args, MAX_INT_BITS) && Invoke(RoundFn, args, h).Ok?
    ensures Within(Invoke(RoundFn, args, h).value, MAX_INT_BITS + 1)
  {
    hide RoundTo, Ten, Sound, Bits;
    if |args| == 1 {
      WhollyWithin(RoundFn, args[0], h);
    } else if args[0].I? {
      var d := IntArg(args[1], h).value;
      if d < 0 { RoundWithin(args[0].n, -d); }
    }
  }

  /** Every value an expression can have is at most 4096 bits wide. */
  lemma {:induction false} ValueWithin(node: Node, h: Host)
    requires ValueOf(node, h).Ok?
    ensures Within(ValueOf(node, h).value, MAX_INT_BITS)
    decreases node
  {
    hide Bits, Operate, Invoke, Lookup;
    if node.UnaryOp? { ValueWithin(node.operand, h); }
  }

  lemma {:induction false} ValuesWithin(nodes: seq<Node>, h: Host)
    requires ValuesOf(nodes, h).Ok?
    ensures AllWithin(ValuesOf(nodes, h).value, MAX_INT_BITS)
  {
    hide Within;
    if nodes != [] {
      ValueWithin(nodes[0], h);
      ValuesWithin(nodes[1..], h);
    }
  }

  // ---------- Integer expressions ----------

  predicate IntegerOnly(node: Node) {
    match node
    case Constant(IntLit(_)) => true
    case BinOp(l, op, r) => op in {Add, Sub, Mult, FloorDivide, Mod, Pow} && IntegerOnly(l) && IntegerOnly(r)
    case UnaryOp(sign, e) => sign in {Minus, Plus} && IntegerOnly(e)
    case _ => false
  }

  /** The value in unbounded arithmetic; a division by zero and a negative exponent have none. */
  function MathValue(node: Node): Option<int> {
    match node
    case Constant(IntLit(n)) => Some(n)
    case BinOp(l, op, r) =>
      var a, b := MathValue(l), MathValue(r);
      if a.None? || b.None? then None else MathResult(op, a.value, b.value)
    case UnaryOp(sign, e) =>
      var a := MathValue(e);
      if a.None? || sign.OtherSign? then None else Some(if sign.Minus? then -a.value else a.value)
    case _ => None
  }

  function MathResult(op: Operator, a: int, b: int): Option<int> {
    match op
    case Add => Some(a + b)
    case Sub => Some(a - b)
    case Mult => Some(a * b)
    case FloorDivide => if b == 0 then None else Some(FloorDiv(a, b))
    case Mod => if b == 0 then None else Some(FloorMod(a, b))
    case Pow => if b < 0 then None else Some(IntPow(a, b))
    case _ => None
  }

  /** Every part of the expression is at most 4096 bits wide, and no power's estimate exceeds that. */
  predicate Fits(node: Node)
    requires MathValue(node).Some?
  {
    match node
    case Constant(_) => Width(MathValue(node).value) <= MAX_INT_BITS
    case BinOp(l, op, r) =>
      && Fits(l) && Fits(r) && Width(MathValue(node).value) <= MAX_INT_BITS
      && (op.Pow? ==> PowerAllowed(MathValue(l).value, MathValue(r).value))
    case UnaryOp(_, e) => Fits(e)
  }

  /** The guard of the multiplication refuses nothing that the check of its result would let through. */
  lemma ProductGuardIsLossless(a: int, b: int)
    requires !ProductAllowed(a, b)
    requires Width(a) <= MAX_INT_BITS && Width(b) <= MAX_INT_BITS
    ensures Width(a * b) > MAX_INT_BITS
  {
    hide Bits;
    ProductWidth(a, b);
    ZeroBits();
  }

  lemma ZeroBits()
    ensures Width(0) == 0
  {
  }

  /** The guard of the power does: for an exponent, some base within the limit is refused although its
      power is within the limit too, exactly when the exponent is at most 4096 and does not divide it. */
  lemma PowerGuardLosesExactlyWhen(b: nat)
    ensures (exists a: int :: LosesPower(a, b)) <==> 1 <= b <= MAX_INT_BITS && MAX_INT_BITS % b != 0
  {
    if a: int :| LosesPower(a, b) { LostPowerNeeds(a, b); }
    if 1 <= b <= MAX_INT_BITS && MAX_INT_BITS % b != 0 { PowerIsLost(b); }
  }

  /** The guard refuses the power of a base within the limit, and its value is within the limit. */
  ghost predicate LosesPower(a: int, b: nat) {
    Width(a) <= MAX_INT_BITS && !PowerAllowed(a, b) && Width(IntPow(a, b)) <= MAX_INT_BITS
  }

  lemma LostPowerNeeds(a: int, b: nat)
    requires LosesPower(a, b)
    ensures 1 <= b <= MAX_INT_BITS && MAX_INT_BITS % b != 0
  {
    var w := Width(a);
    PowerWidthAtLeast(a, b);
    WideFromTwo(a);
    hide Bits, Width, IntPow;
    assert b * w == b * (w - 1) + b;
    if b > MAX_INT_BITS { MulMono(b, 1, b, w - 1); }
    if b > 0 && MAX_INT_BITS % b == 0 { NoMultipleBetween(b, w - 1, MAX_INT_BITS / b); }
    assert b == 0 ==> b * w == 0;
  }

  lemma WideFromTwo(a: int)
    requires Abs(a) > 1
    ensures Width(a) >= 2
  {
    BitsFit(Abs(a), 1);
  }

  lemma NoMultipleBetween(b: nat, j: nat, q: nat)
    ensures b * q <= b * j || b * j + b <= b * q
  {
    if q <= j { MulMono(b, q, b, j); } else { MulMono(b, j + 1, b, q); }
    assert b * (j + 1) == b * j + b;
  }

  lemma PowerIsLost(b: nat)
    requires 1 <= b <= MAX_INT_BITS && MAX_INT_BITS % b != 0
    ensures LosesPower(Pow2(MAX_INT_BITS / b), b)
  {
    var k := MAX_INT_BITS / b;
    assert b * k + MAX_INT_BITS % b == MAX_INT_BITS;
    assert b * (k + 1) == b * k + b;
    Pow2Width(k);
    PowerOfPow2(k, b);
    Pow2Width(b * k);
    assert k == 0 ==> b * k == 0;
    Pow2Double(k - 1);
    hide Bits, Width, Pow2, IntPow;
  }

  /** So 2 ** 2049 is refused, though its 2050 bits are within the limit. */
  lemma PowerGuardIsNot(h: Host)
    ensures Power(I(2), I(2049), h) == Err(NumberTooLarge)
    ensures Width(IntPow(2, 2049)) <= MAX_INT_BITS
  {
    assert MAX_INT_BITS / 2049 == 1 && MAX_INT_BITS % 2049 != 0 && Pow2(1) == 2 by { assert Pow2(0) == 1; }
    hide Pow2, IntPow, Width, Bits;
    PowerIsLost(2049);
  }

  /** One operator: the evaluator gives the integer result exactly when there is one, it is within the
      limit, and for a power the estimate allows it. */
  lemma OperateExact(op: Operator, a: int, b: int, n: int, h: Host)
    requires op in {Add, Sub, Mult, FloorDivide, Mod, Pow}
    requires Width(a) <= MAX_INT_BITS && Width(b) <= MAX_INT_BITS
    ensures Checked(Operate(op, I(a), I(b), h), h) == Ok(I(n))
            <==> && MathResult(op, a, b) == Some(n) && Width(n) <= MAX_INT_BITS
                 && (op.Pow? ==> PowerAllowed(a, b))
  {
    hide Bits, IntPow, PowerAllowed;
    if op == Mult && !ProductAllowed(a, b) {
      hide Width;
      ProductGuardIsLossless(a, b);
    }
  }

  /** On integer expressions the evaluator returns an integer exactly when the expression has a value,
      all its parts fit, and then returns that value: Python's, computed without bounds. */
  lemma {:induction false} IntegersAreExact(node: Node, n: int, h: Host)
    requires IntegerOnly(node)
    ensures ValueOf(node, h) == Ok(I(n)) <==> MathValue(node) == Some(n) && Fits(node)
    decreases node, 1
  {
    match node
    case Constant(_) => hide Width;
    case UnaryOp(sign, e) =>
      IntegersAreExact(e, if sign.Minus? then -n else n, h);
    case BinOp(l, op, r) => BinaryIsExact(node, n, h);
  }

  /** What induction gives for a part: its integer value, if it has one, is the mathematical one. */
  lemma PartExact(node: Node, h: Host)
    requires IntegerOnly(node)
    ensures ValueOf(node, h).Ok? && ValueOf(node, h).value.I? ==>
      MathValue(node) == Some(ValueOf(node, h).value.n) && Fits(node)
      && Width(ValueOf(node, h).value.n) <= MAX_INT_BITS
    ensures MathValue(node).Some? && Fits(node) ==> ValueOf(node, h) == Ok(I(MathValue(node).value))
    decreases node, 2
  {
    if ValueOf(node, h).Ok? && ValueOf(node, h).value.I? {
      IntegersAreExact(node, ValueOf(node, h).value.n, h);
      ValueWithin(node, h);
    }
    if MathValue(node).Some? && Fits(node) { IntegersAreExact(node, MathValue(node).value, h); }
  }

  lemma BinaryIsExact(node: Node, n: int, h: Host)
    requires node.BinOp? && IntegerOnly(node)
    ensures ValueOf(node, h) == Ok(I(n)) <==> MathValue(node) == Some(n) && Fits(node)
    decreases node, 0
  {
    var a, b := ValueOf(node.left, h), ValueOf(node.right, h);
    PartExact(node.left, h);
    PartExact(node.right, h);
    hide Width, PowerAllowed;
    if a.Ok? && b.Ok? {
      if a.value.I? && b.value.I? {
        OperateExact(node.op, a.value.n, b.value.n, n, h);
        hide Operate, MathResult;
      } else {
        FloatsStayFloats(node.op, a.value, b.value, h);
        hide Operate;
      }
    }
  }

  lemma FloatsStayFloats(op: Operator, a: Value, b: Value, h: Host)
    requires a.F? || b.F?
    ensures Operate(op, a, b, h).Ok? ==> Operate(op, a, b, h).value.F?
    ensures Checked(Operate(op, a, b, h), h).Ok? ==> Checked(Operate(op, a, b, h), h).value.F?
  {
  }

  /** No expression is refused for its number of steps: the evaluator's own limit is the only source of
      that refusal. */
  lemma {:induction false} ValueNeedsNoLimit(node: Node, h: Host)
    ensures ValueOf(node, h) != Err(TooComplex)
    decreases node
  {
    hide Lookup, IntPow, Bits, Abs;
    match node
    case BinOp(l, op, r) =>
      ValueNeedsNoLimit(l, h);
      ValueNeedsNoLimit(r, h);
    case UnaryOp(_, e) => ValueNeedsNoLimit(e, h);
    case Call(_, args, _) => ValuesNeedNoLimit(args, h);
    case _ =>
  }

  lemma {:induction false} ValuesNeedNoLimit(nodes: seq<Node>, h: Host)
    ensures ValuesOf(nodes, h) != Err(TooComplex)
    decreases nodes
  {
    if nodes != [] {
      ValueNeedsNoLimit(nodes[0], h);
      ValuesNeedNoLimit(nodes[1..], h);
    }
  }
}
