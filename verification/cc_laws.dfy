/** What integer expressions mean, in numbers: the results that C asks for, with the widths written out. */
module CcLaws {
  import opened CcInt
  import opened Numbers
  import opened Wrappers

  // ---------- types ----------

  /** The type in which two operands meet: the first of these that one of them has, or int. */
  function Meet(t1: Ty, t2: Ty): Ty {
    if t1.U64? || t2.U64? then U64 else if t1.I64? || t2.I64? then I64 else if t1.U32? || t2.U32? then U32 else I32
  }

  lemma MeetIsStandard(t1: Ty, t2: Ty)
    ensures Meet(t1, t2) == StandardCommonType(t1, t2) == CommonType(t1, t2)
  {
    CommonTypeIsStandard(t1, t2);
  }

  /** The type that each operator has, from the types of its operands. */
  lemma TypingLaw(e: Expr, vars: seq<Ty>)
    requires Wf(e, vars)
    ensures match e
            case Num(_, t) => TypeOf(e, vars) == t
            case Var(x) => TypeOf(e, vars) == vars[x]
            case Neg(a) => TypeOf(e, vars) == StandardCommonType(I32, TypeOf(a, vars))
            case BitNot(a) => TypeOf(e, vars) == StandardCommonType(I32, TypeOf(a, vars))
            case Bin(_, l, r) => TypeOf(e, vars) == StandardCommonType(TypeOf(l, vars), TypeOf(r, vars))
            case Cond(_, t, f) => TypeOf(e, vars) == StandardCommonType(TypeOf(t, vars), TypeOf(f, vars))
            case Shift(_, l, _) => TypeOf(e, vars) == StandardCommonType(I32, TypeOf(l, vars))
            case Assign(x, _) => TypeOf(e, vars) == vars[x]
            case Cast(t, _) => TypeOf(e, vars) == t
            case Comma(_, r) => TypeOf(e, vars) == TypeOf(r, vars)
            case _ => TypeOf(e, vars) == I32
  {
    match e
    case Neg(a) => CommonTypeIsStandard(I32, TypeOf(a, vars));
    case BitNot(a) => CommonTypeIsStandard(I32, TypeOf(a, vars));
    case Shift(_, l, _) => CommonTypeIsStandard(I32, TypeOf(l, vars));
    case Bin(_, l, r) => CommonTypeIsStandard(TypeOf(l, vars), TypeOf(r, vars));
    case Cond(_, t, f) => CommonTypeIsStandard(TypeOf(t, vars), TypeOf(f, vars));
    case _ =>
  }

  // ---------- numbers ----------

  function Bitsize(t: Ty): nat { if t.I32? || t.U32? then 32 else 64 }

  /** v is the value of type t that x becomes. */
  predicate Becomes(t: Ty, x: int, v: int) {
    match t
    case I32 => -2147483648 <= v <= 2147483647 && (v - x) % 4294967296 == 0
    case U32 => 0 <= v <= 4294967295 && (v - x) % 4294967296 == 0
    case I64 => -9223372036854775808 <= v <= 9223372036854775807 && (v - x) % 18446744073709551616 == 0
    case U64 => 0 <= v <= 18446744073709551615 && (v - x) % 18446744073709551616 == 0
  }

  lemma WrapBecomes(t: Ty, x: int)
    ensures Becomes(t, x, Wrap(t, x))
  {
    SameMod(Modulus(t), Wrap(t, x), x);
    hide Wrap;
  }

  /** There is only one such value. */
  lemma BecomesOnce(t: Ty, x: int, v: int)
    requires Becomes(t, x, v)
    ensures v == Wrap(t, x)
  {
    var m, w := Modulus(t), Wrap(t, x);
    SameMod(m, v, x);
    SameMod(m, v, w);
    hide Wrap;
    var q := (v - w) / m;
    DivMod(v - w, m);
    if q >= 1 { TimesAtLeast(q, m); } else if q <= -1 { TimesAtLeast(-q, m); }
  }

  /** Sums, differences and products of congruent numbers are congruent. */
  lemma Congruent(m: nat, a: int, x: int, b: int, y: int)
    requires m > 0 && a % m == x % m && b % m == y % m
    ensures (a + b) % m == (x + y) % m && (a - b) % m == (x - y) % m && (a * b) % m == (x * y) % m
  {
    SameMod(m, a, x);
    SameMod(m, b, y);
    var i, j := (a - x) / m, (b - y) / m;
    DivMod(a - x, m);
    DivMod(b - y, m);
    assert a == x + i * m && b == y + j * m;
    Multiple(m, i + j);
    Multiple(m, i - j);
    Multiple(m, x * j + y * i + i * j * m);
    Sums(m, x, i, y, j);
    SameMod(m, a + b, x + y);
    SameMod(m, a - b, x - y);
    SameMod(m, a * b, x * y);
  }

  lemma Sums(m: int, x: int, i: int, y: int, j: int)
    ensures (x + i * m) + (y + j * m) - (x + y) == m * (i + j)
    ensures (x + i * m) - (y + j * m) - (x - y) == m * (i - j)
    ensures (x + i * m) * (y + j * m) - x * y == m * (x * j + y * i + i * j * m)
  {}

  // ---------- arithmetic ----------

  /** The type of e; int if it has none. */
  ghost function Kind(e: Expr, vars: seq<Ty>): Ty { if Wf(e, vars) then TypeOf(e, vars) else I32 }

  /** What e does; nothing defined if it uses names or values that are not there. */
  ghost function Run(e: Expr, vars: seq<Ty>, env: Env): Result { if Wf(e, vars) && Fits(env, vars) then Eval(e, vars, env) else Undefined }

  /** Names and values are all there. */
  ghost predicate Ready(e: Expr, vars: seq<Ty>, env: Env) { Wf(e, vars) && Fits(env, vars) }


  /** Both operands have been evaluated, the right one first. */
  ghost predicate Operands(l: Expr, r: Expr, vars: seq<Ty>, env: Env, x: int, y: int, last: Env) {
    var b := Run(r, vars, env);
    b.Ok? && b.v == y && Run(l, vars, b.env) == Ok(x, last)
  }

  /** The operation is carried out in the type in which the operands meet. */
  lemma BinAny(op: BinOp, l: Expr, r: Expr, vars: seq<Ty>, env: Env, x: int, y: int, last: Env)
    requires Operands(l, r, vars, env, x, y, last)
    ensures var t := Meet(Kind(l, vars), Kind(r, vars));
      Run(Bin(op, l, r), vars, env)
      == if Traps(op, t, Wrap(t, x), Wrap(t, y)) then Undefined else Ok(BinValue(op, t, Wrap(t, x), Wrap(t, y)), last)
  {
    hide Wrap, InRange, Fits, BinValue, Traps;
    MeetIsStandard(Kind(l, vars), Kind(r, vars));
    hide CommonType, Meet;
  }

  function Exact(op: BinOp, x: int, y: int): int { if op == Add then x + y else if op == Sub then x - y else x * y }

  /** Sums, differences and products are the mathematical ones, reduced to the type in which the operands meet. */
  lemma ArithmeticValue(op: BinOp, l: Expr, r: Expr, vars: seq<Ty>, env: Env, x: int, y: int, last: Env)
    requires Operands(l, r, vars, env, x, y, last)
    requires op == Add || op == Sub || op == Mul
    ensures var z := Run(Bin(op, l, r), vars, env);
      z.Ok? && z.env == last && Becomes(Meet(Kind(l, vars), Kind(r, vars)), Exact(op, x, y), z.v)
  {
    hide Wrap, Eval, Fits, Becomes, TypeOf, Wf, Meet, Operands;
    BinAny(op, l, r, vars, env, x, y, last);
    var t := Meet(Kind(l, vars), Kind(r, vars));
    Congruent(Modulus(t), Wrap(t, x), x, Wrap(t, y), y);
    WrapSame(t, Exact(op, Wrap(t, x), Wrap(t, y)), Exact(op, x, y));
    WrapBecomes(t, Exact(op, x, y));
  }

  lemma WrapSame(t: Ty, a: int, b: int)
    requires a % Modulus(t) == b % Modulus(t)
    ensures Wrap(t, a) == Wrap(t, b)
  {}

  /** -2147483648 for int. */
  function Least(t: Ty): int { if t.I32? then -2147483648 else if t.I64? then -9223372036854775808 else 0 }

  /** q and m are the quotient and remainder of a by b; the remainder has the sign of the dividend. */
  predicate Divides(a: int, b: int, q: int, m: int) {
    a == q * b + m && Abs(m) < Abs(b) && (m > 0 ==> a > 0) && (m < 0 ==> a < 0)
  }

  /** Quotient and remainder belong together. There are none for a divisor of zero, or if the quotient does not fit. */
  lemma DivisionValue(l: Expr, r: Expr, vars: seq<Ty>, env: Env, x: int, y: int, last: Env, a: int, b: int)
    requires Operands(l, r, vars, env, x, y, last)
    requires Becomes(Meet(Kind(l, vars), Kind(r, vars)), x, a) && Becomes(Meet(Kind(l, vars), Kind(r, vars)), y, b)
    ensures var q, m, low := Run(Bin(Div, l, r), vars, env), Run(Bin(Rem, l, r), vars, env), Least(Meet(Kind(l, vars), Kind(r, vars)));
      if b == 0 || (low < 0 && a == low && b == -1) then q.Undefined? && m.Undefined?
      else q.Ok? && m.Ok? && q.env == m.env == last && Divides(a, b, q.v, m.v)
  {
    hide Wrap, Eval, Fits, Becomes, TypeOf, Wf, Meet, Operands, Divides;
    var t := Meet(Kind(l, vars), Kind(r, vars));
    BinAny(Div, l, r, vars, env, x, y, last);
    BinAny(Rem, l, r, vars, env, x, y, last);
    BecomesOnce(t, x, a);
    BecomesOnce(t, y, b);
    if !Traps(Div, t, a, b) {
      Truncated(a, b);
      QuotientFits(t, a, b);
      hide TruncDiv, TruncMod;
      InRangeWraps(t, TruncDiv(a, b));
      InRangeWraps(t, TruncMod(a, b));
    }
  }

  lemma InRangeWraps(t: Ty, v: int)
    requires InRange(t, v)
    ensures Wrap(t, v) == v
  {}

  lemma Truncated(a: int, b: int)
    requires b != 0
    ensures var q, m := TruncDiv(a, b), TruncMod(a, b);
      Divides(a, b, q, m) && Abs(q) <= Abs(a) && Abs(m) <= Abs(a) && (Abs(b) >= 2 && a != 0 ==> Abs(q) < Abs(a)) && (a >= 0 && b > 0 ==> q >= 0)
  {
    var n: int, d: int := Abs(a), Abs(b);
    DivMod(n, d);
    var k, s := n / d, n % d;
    QuotientNonNegative(n, d);
    TimesAtMost(k, d, n);
    Negated(k, d);
    assert TruncDiv(a, b) == (if (a < 0) == (b < 0) then k else -k) && TruncMod(a, b) == if a < 0 then -s else s;
    hide TruncDiv, TruncMod;
  }

  lemma QuotientNonNegative(n: nat, d: nat)
    requires d > 0
    ensures n / d >= 0 && n % d <= n
  {
    DivMod(n, d);
  }

  lemma Negated(k: int, d: int)
    ensures -k * -d == k * d && -k * d == -(k * d) && k * -d == -(k * d)
  {}

  lemma TimesAtMost(k: nat, d: nat, n: nat)
    requires d >= 1 && k * d <= n
    ensures k <= n && (d >= 2 && n > 0 ==> k < n)
  {
    if k > 0 {
      assert k * d == k + k * (d - 1);
      assert k * (d - 1) >= 0;
      if d >= 2 { TimesAtLeast(d - 1, k); assert (d - 1) * k == k * (d - 1); }
    }
  }

  lemma QuotientFits(t: Ty, a: int, b: int)
    requires InRange(t, a) && InRange(t, b) && !Traps(Div, t, a, b)
    ensures InRange(t, TruncDiv(a, b)) && InRange(t, TruncMod(a, b))
  {
    Truncated(a, b);
    hide TruncDiv, TruncMod;
    UnitDivisor(a, b, TruncDiv(a, b), TruncMod(a, b));
  }

  lemma UnitDivisor(a: int, b: int, q: int, m: int)
    requires Divides(a, b, q, m)
    ensures (b == 1 ==> q == a && m == 0) && (b == -1 ==> q == -a && m == 0)
  {
    if b == 1 { assert q * b == q; }
    if b == -1 { assert q * b == -q; }
  }

  /** A minus sign. */
  lemma NegationValue(e: Expr, vars: seq<Ty>, env: Env)
    requires Run(e, vars, env).Ok?
    ensures var a, z := Run(e, vars, env), Run(Neg(e), vars, env);
      z.Ok? && z.env == a.env && Becomes(Meet(I32, Kind(e, vars)), -a.v, z.v)
  {
    hide Wrap, InRange, Fits, Becomes;
    MeetIsStandard(I32, Kind(e, vars));
    hide CommonType, Meet;
    var a, t := Run(e, vars, env), Meet(I32, Kind(e, vars));
    assert Run(Neg(e), vars, env) == Ok(Wrap(t, -Wrap(t, a.v)), a.env);
    hide Eval;
    Congruent(Modulus(t), 0, 0, Wrap(t, a.v), a.v);
    WrapSame(t, -Wrap(t, a.v), -a.v);
    WrapBecomes(t, -a.v);
  }

  // ---------- bits ----------

  /** Bit k of x in two's complement. */
  function Bit(x: int, k: nat): int { (x / Pow2(k)) % 2 }

  function BitOf(op: BinOp, a: int, b: int): int {
    if op == BitAnd then (if a == 1 && b == 1 then 1 else 0)
    else if op == BitOr then (if a == 1 || b == 1 then 1 else 0)
    else if a != b then 1 else 0
  }

  /** The bits of half a number are the higher ones. */
  lemma BitHalf(x: int, k: nat)
    requires k > 0
    ensures Bit(x, k) == Bit(x / 2, k - 1)
  {
    var p := Pow2(k - 1);
    DivMod(x, 2);
    DivMod(x / 2, p);
    var q, r := x / 2 / p, x / 2 % p;
    assert x == q * (2 * p) + (2 * r + x % 2) by { assert 2 * (q * p) == q * (2 * p); }
    QuotientIs(x, 2 * p, q, 2 * r + x % 2);
  }

  lemma {:induction false} BitsAt(op: BinOp, a: nat, b: nat, k: nat)
    requires op == BitAnd || op == BitOr || op == BitXor
    ensures Bit(Bits(op, a, b), k) == BitOf(op, Bit(a, k), Bit(b, k))
    decreases k
  {
    hide Bits;
    BitsUnfold(op, a, b);
    if k > 0 {
      BitHalf(a, k);
      BitHalf(b, k);
      BitHalf(Bits(op, a, b), k);
      BitsAt(op, a / 2, b / 2, k - 1);
    }
  }

  /** The last bit of a bitwise operation, as an arithmetic expression. */
  function LastBit(op: BinOp, x: int, y: int): int {
    if op == BitAnd then x * y else if op == BitOr then x + y - x * y else (x + y) % 2
  }

  lemma BitsStep(op: BinOp, a: nat, b: nat)
    ensures Bits(op, a, b) == LastBit(op, a % 2, b % 2) + 2 * Bits(op, a / 2, b / 2)
  {
    if a == 0 && b == 0 {
      assert LastBit(op, 0, 0) == 0;
    } else {
      hide LastBit;
      LastBitIs(op, a % 2, b % 2);
    }
  }

  lemma LastBitIs(op: BinOp, x: int, y: int)
    ensures LastBit(op, x, y) == if op == BitAnd then x * y else if op == BitOr then x + y - x * y else (x + y) % 2
  {}

  lemma BitsUnfold(op: BinOp, a: nat, b: nat)
    requires op == BitAnd || op == BitOr || op == BitXor
    ensures var v := Bits(op, a, b); v % 2 == BitOf(op, a % 2, b % 2) && v / 2 == Bits(op, a / 2, b / 2)
  {
    hide Bits, LastBit, BitOf;
    BitsStep(op, a, b);
    LastBits(op, a % 2, b % 2);
    QuotientIs(Bits(op, a, b), 2, Bits(op, a / 2, b / 2), LastBit(op, a % 2, b % 2));
  }

  lemma LastBits(op: BinOp, x: int, y: int)
    requires 0 <= x <= 1 && 0 <= y <= 1 && (op == BitAnd || op == BitOr || op == BitXor)
    ensures BitOf(op, x, y) == LastBit(op, x, y) && 0 <= BitOf(op, x, y) <= 1
  {}

  /** Congruent numbers have the same low bits. */
  lemma {:induction false} LowBits(x: int, y: int, w: nat, k: nat)
    requires k < w && (x - y) % Pow2(w) == 0
    ensures Bit(x, k) == Bit(y, k)
    decreases k
  {
    var p := Pow2(w - 1);
    var q := (x - y) / Pow2(w);
    DivMod(x - y, Pow2(w));
    assert x - y == 2 * (q * p) by { assert q * (2 * p) == 2 * (q * p); }
    DivMod(y, 2);
    QuotientIs(x, 2, y / 2 + q * p, y % 2);
    if k > 0 {
      BitHalf(x, k);
      BitHalf(y, k);
      assert x / 2 - y / 2 == p * q;
      Multiple(p, q);
      LowBits(x / 2, y / 2, w - 1, k - 1);
    }
  }

  lemma Widths(t: Ty)
    ensures Pow2(Bitsize(t)) == Modulus(t) && Bitsize(t) == 8 * Size(t)
  {
    assert Pow2(8) == 256;
    hide Pow2;
    PowAdd(8, 8);
    assert Pow2(16) == 65536;
    PowAdd(16, 16);
    assert Pow2(32) == 4294967296;
    PowAdd(32, 32);
  }

  /** Bitwise operators work bit by bit; in which type shows only in how many bits there are and whether the last is a sign. */
  lemma BitwiseValue(op: BinOp, l: Expr, r: Expr, vars: seq<Ty>, env: Env, x: int, y: int, last: Env, k: nat)
    requires Operands(l, r, vars, env, x, y, last)
    requires (op == BitAnd || op == BitOr || op == BitXor) && k < Bitsize(Meet(Kind(l, vars), Kind(r, vars)))
    ensures var z := Run(Bin(op, l, r), vars, env);
      && z.Ok? && z.env == last && InRange(Meet(Kind(l, vars), Kind(r, vars)), z.v)
      && Bit(z.v, k) == BitOf(op, Bit(x, k), Bit(y, k))
  {
    hide Wrap, Eval, Fits, TypeOf, Wf, Meet, Operands, Bits, Bit, Pow2, BitOf, InRange;
    var t := Meet(Kind(l, vars), Kind(r, vars));
    BinAny(op, l, r, vars, env, x, y, last);
    var m := Modulus(t);
    var a, b := Wrap(t, x) % m, Wrap(t, y) % m;
    BitsAt(op, a, b, k);
    SameLow(t, a, x, k);
    SameLow(t, b, y, k);
    SameLow(t, Wrap(t, Bits(op, a, b)), Bits(op, a, b), k);
  }

  lemma SameLow(t: Ty, a: int, x: int, k: nat)
    requires k < Bitsize(t) && (a % Modulus(t) == x % Modulus(t) || a == Wrap(t, x) % Modulus(t))
    ensures Bit(a, k) == Bit(x, k)
  {
    hide Wrap, Bit, Pow2;
    Widths(t);
    DivMod(Wrap(t, x), Modulus(t));
    if a == Wrap(t, x) % Modulus(t) { QuotientIs(a, Modulus(t), 0, a); }
    SameMod(Modulus(t), a, x);
    LowBits(a, x, Bitsize(t), k);
  }

  /** The complement flips every bit. */
  lemma ComplementValue(e: Expr, vars: seq<Ty>, env: Env, k: nat)
    requires Run(e, vars, env).Ok? && k < Bitsize(Kind(e, vars))
    ensures var a, z := Run(e, vars, env), Run(BitNot(e), vars, env);
      z.Ok? && z.env == a.env && InRange(Kind(e, vars), z.v) && Bit(z.v, k) == 1 - Bit(a.v, k)
  {
    hide Wrap, Fits, Bit, Pow2, InRange;
    var a, t := Run(e, vars, env), Kind(e, vars);
    assert Run(BitNot(e), vars, env) == Ok(Wrap(t, -1 - a.v), a.env);
    hide Eval, TypeOf, Wf;
    SameLow(t, Wrap(t, -1 - a.v), -1 - a.v, k);
    Flipped(a.v, k);
  }

  lemma {:induction false} Flipped(x: int, k: nat)
    ensures Bit(-1 - x, k) == 1 - Bit(x, k)
    decreases k
  {
    DivMod(x, 2);
    QuotientIs(-1 - x, 2, -1 - x / 2, 1 - x % 2);
    if k > 0 {
      BitHalf(x, k);
      BitHalf(-1 - x, k);
      Flipped(x / 2, k - 1);
    }
  }

  /** A shift to the left multiplies, and one to the right divides and rounds down, in the type of the left operand;
      there is none by a negative number or by as much as the type has bits. */
  lemma ShiftedValue(left: bool, l: Expr, r: Expr, vars: seq<Ty>, env: Env, x: int, n: int, last: Env)
    requires Operands(l, r, vars, env, x, n, last)
    ensures var z, t := Run(Shift(left, l, r), vars, env), Kind(l, vars);
      if !(0 <= n < Bitsize(t)) then z.Undefined?
      else
        && z.Ok? && z.env == last
        && if left then Becomes(t, x * Pow2(n), z.v) else z.v * Pow2(n) <= x < z.v * Pow2(n) + Pow2(n)
  {
    var t := Kind(l, vars);
    hide Wrap, Fits, TypeOf, Becomes;
    Widths(t);
    hide Pow2;
    assert InRange(t, x);
    if 0 <= n < Bitsize(t) {
      if left {
        WrapBecomes(t, x * Pow2(n));
      } else {
        DivMod(x, Pow2(n));
        HalvesFit(t, x, Pow2(n));
        InRangeWraps(t, x / Pow2(n));
      }
    }
  }

  lemma HalvesFit(t: Ty, x: int, p: nat)
    requires InRange(t, x) && p > 0
    ensures InRange(t, x / p)
  {
    DivMod(x, p);
    var q := x / p;
    if x >= 0 {
      QuotientNonNegative(x, p);
      TimesAtMost(q, p, x);
    } else {
      if q < x { Distribute(x, q, p); TimesAtLeast(x - q, p); TimesAtLeast(-x, p); Between(x, p); }
    }
  }

  lemma Between(x: int, p: nat)
    requires x < 0 && p > 0
    ensures x * p <= x
  {
    assert x * p == x + x * (p - 1);
    TimesAtMostZero(x, p - 1);
  }

  // ---------- comparison and choice ----------

  /** Operands are compared as values of the type in which they meet. */
  lemma ComparedValue(op: CmpOp, l: Expr, r: Expr, vars: seq<Ty>, env: Env, x: int, y: int, last: Env, a: int, b: int)
    requires Operands(l, r, vars, env, x, y, last)
    requires var t := Meet(Kind(l, vars), Kind(r, vars)); Becomes(t, x, a) && Becomes(t, y, b)
    ensures var holds := match op case Eq => a == b case Ne => a != b case Lt => a < b case Le => a <= b;
      Run(Compare(op, l, r), vars, env) == Ok(if holds then 1 else 0, last)
  {
    hide Wrap, InRange, Fits, Becomes;
    var t := Meet(Kind(l, vars), Kind(r, vars));
    MeetIsStandard(Kind(l, vars), Kind(r, vars));
    hide CommonType, Meet;
    BecomesOnce(t, x, a);
    BecomesOnce(t, y, b);
  }

  /** A condition is false exactly if it is zero; the result has the type in which both branches meet. */
  lemma ChosenValue(c: Expr, t: Expr, f: Expr, vars: seq<Ty>, env: Env)
    requires Ready(Cond(c, t, f), vars, env) && Run(c, vars, env).Ok?
    ensures var a := Run(c, vars, env);
      var b, z := Run(if a.v == 0 then f else t, vars, a.env), Run(Cond(c, t, f), vars, env);
      if b.Undefined? then z.Undefined?
      else z.Ok? && z.env == b.env && Becomes(Meet(Kind(t, vars), Kind(f, vars)), b.v, z.v)
  {
    hide Wrap, InRange, Fits, Becomes;
    MeetIsStandard(Kind(t, vars), Kind(f, vars));
    hide CommonType, Meet;
    var a := Run(c, vars, env);
    var b := Run(if a.v == 0 then f else t, vars, a.env);
    if b.Ok? { WrapBecomes(Meet(Kind(t, vars), Kind(f, vars)), b.v); }
  }

  /** `!e` is `e ? 0 : 1`; `l && r` is `l ? !!r : 0`; `l || r` is `l ? 1 : !!r`. */
  lemma LogicIsChoice(l: Expr, r: Expr, vars: seq<Ty>, env: Env)
    requires Wf(l, vars) && Wf(r, vars) && Fits(env, vars)
    ensures Wf(Not(Not(r)), vars)
    ensures Run(Not(l), vars, env) == Run(Cond(l, Num(0, I32), Num(1, I32)), vars, env)
    ensures Run(LogAnd(l, r), vars, env) == Run(Cond(l, Not(Not(r)), Num(0, I32)), vars, env)
    ensures Run(LogOr(l, r), vars, env) == Run(Cond(l, Num(1, I32), Not(Not(r))), vars, env)
  {
    hide Wrap, InRange, Fits, Eval, Run, CommonType;
    var a := Run(l, vars, env);
    ShortCircuit(l, r, vars, env);
    Constant(0, vars, env);
    Constant(1, vars, env);
    CondOfInts(l, Num(0, I32), Num(1, I32), vars, env);
    CondOfInts(l, Not(Not(r)), Num(0, I32), vars, env);
    CondOfInts(l, Num(1, I32), Not(Not(r)), vars, env);
    if a.Ok? {
      NotTwice(r, vars, a.env);
      Constant(0, vars, a.env);
      Constant(1, vars, a.env);
    }
  }

  lemma Constant(v: int, vars: seq<Ty>, env: Env)
    requires 0 <= v <= 1 && Fits(env, vars)
    ensures Run(Num(v, I32), vars, env) == Ok(v, env) && Ready(Num(v, I32), vars, env) && Kind(Num(v, I32), vars) == I32
  {}

  lemma ShortCircuit(l: Expr, r: Expr, vars: seq<Ty>, env: Env)
    requires Wf(l, vars) && Wf(r, vars) && Fits(env, vars)
    ensures var a := Run(l, vars, env);
      if a.Undefined? then Run(Not(l), vars, env) == Run(LogAnd(l, r), vars, env) == Run(LogOr(l, r), vars, env) == Undefined
      else
        var last := Truly(Run(r, vars, a.env));
        && Fits(a.env, vars) && Run(Not(l), vars, env) == Ok(if a.v == 0 then 1 else 0, a.env)
        && Run(LogAnd(l, r), vars, env) == (if a.v == 0 then Ok(0, a.env) else last)
        && Run(LogOr(l, r), vars, env) == (if a.v == 0 then last else Ok(1, a.env))
  {
    hide Wrap, InRange, Fits, CommonType, TypeOf, Wf;
    RunNot(l, vars, env);
    RunAnd(l, r, vars, env);
    RunOr(l, r, vars, env);
    hide Eval;
  }

  /** The truth value of a result. */
  function Truly(r: Result): Result { if r.Undefined? then r else Ok(if r.v != 0 then 1 else 0, r.env) }

  lemma RunNot(e: Expr, vars: seq<Ty>, env: Env)
    requires Wf(e, vars) && Fits(env, vars)
    ensures var a := Run(e, vars, env); Run(Not(e), vars, env) == if a.Undefined? then a else Ok(if a.v == 0 then 1 else 0, a.env)
  {
    hide Wrap, InRange, Fits, CommonType;
  }

  lemma RunAnd(l: Expr, r: Expr, vars: seq<Ty>, env: Env)
    requires Wf(l, vars) && Wf(r, vars) && Fits(env, vars)
    ensures var a := Run(l, vars, env);
      Run(LogAnd(l, r), vars, env) == if a.Undefined? then a else if a.v == 0 then Ok(0, a.env) else Truly(Run(r, vars, a.env))
  {
    hide Wrap, InRange, Fits, CommonType;
  }

  lemma RunOr(l: Expr, r: Expr, vars: seq<Ty>, env: Env)
    requires Wf(l, vars) && Wf(r, vars) && Fits(env, vars)
    ensures var a := Run(l, vars, env);
      Run(LogOr(l, r), vars, env) == if a.Undefined? then a else if a.v == 0 then Truly(Run(r, vars, a.env)) else Ok(1, a.env)
  {
    hide Wrap, InRange, Fits, CommonType;
  }

  /** A choice between two values of type int. */
  lemma CondOfInts(c: Expr, t: Expr, f: Expr, vars: seq<Ty>, env: Env)
    requires Wf(c, vars) && Wf(t, vars) && Wf(f, vars) && Fits(env, vars) && Kind(t, vars) == Kind(f, vars) == I32
    ensures Wf(Cond(c, t, f), vars)
    ensures Run(c, vars, env).Undefined? ==> Run(Cond(c, t, f), vars, env).Undefined?
    ensures var a := Run(c, vars, env);
      a.Ok? ==> Run(Cond(c, t, f), vars, env) == Run(if a.v != 0 then t else f, vars, a.env)
  {
    hide Wrap, InRange, Fits;
    var a := Run(c, vars, env);
    if a.Ok? {
      var b := Run(if a.v != 0 then t else f, vars, a.env);
      if b.Ok? {
        assert Kind(Cond(c, t, f), vars) == I32;
        InRangeWraps(I32, b.v);
      }
    }
  }

  lemma NotTwice(e: Expr, vars: seq<Ty>, env: Env)
    requires Wf(e, vars) && Fits(env, vars)
    ensures var a := Run(e, vars, env);
      Wf(Not(Not(e)), vars) && Run(Not(Not(e)), vars, env) == Truly(a)
  {
    RunNot(e, vars, env);
    RunNot(Not(e), vars, env);
    hide Eval, Fits;
  }

  /** An assignment stores and yields what its right side becomes in the variable's type. */
  lemma AssignedValue(x: nat, e: Expr, vars: seq<Ty>, env: Env)
    requires x < |vars| && Run(e, vars, env).Ok?
    ensures var a, z := Run(e, vars, env), Run(Assign(x, e), vars, env);
      z.Ok? && Becomes(vars[x], a.v, z.v) && x < |a.env| && z.env == a.env[x := z.v]
  {
    hide Wrap, InRange, Becomes;
    WrapBecomes(vars[x], Run(e, vars, env).v);
  }

  /** A cast converts, and a comma drops its left value. */
  lemma CastValue(to: Ty, d: Expr, e: Expr, vars: seq<Ty>, env: Env)
    requires Wf(d, vars) && Run(e, vars, env).Ok?
    ensures var a, c := Run(e, vars, env), Run(Cast(to, e), vars, env);
      c.Ok? && Becomes(to, a.v, c.v) && c.env == a.env && Run(Comma(e, d), vars, env) == Run(d, vars, a.env)
  {
    hide Wrap, InRange, Becomes, Fits;
    WrapBecomes(to, Run(e, vars, env).v);
  }
}
