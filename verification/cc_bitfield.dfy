/** The code that reads and writes bit-fields. */
module CcBitField {
  import opened CcInt
  import opened CcMachine
  import S = CcStruct
  import opened Numbers

  // ---------- fields of numbers ----------

  /** l bits of n, from bit s on. */
  function Field(n: int, s: nat, l: nat): (f: int)
    ensures 0 <= f < Pow2(l)
  {
    n / Pow2(s) % Pow2(l)
  }

  /** n with those bits replaced by f. */
  function SetField(n: int, s: nat, l: nat, f: int): int { n + (f - Field(n, s, l)) * Pow2(s) }

  lemma FieldParts(n: int, s: nat, l: nat) returns (hi: int, lo: int)
    ensures n == hi * Pow2(s + l) + Field(n, s, l) * Pow2(s) + lo && 0 <= lo < Pow2(s)
  {
    hide Pow2;
    DivMod(n, Pow2(s));
    var q := n / Pow2(s);
    DivMod(q, Pow2(l));
    hi, lo := q / Pow2(l), n % Pow2(s);
    PowAdd(s, l);
    var f := q % Pow2(l);
    assert q * Pow2(s) == (hi * Pow2(l)) * Pow2(s) + f * Pow2(s);
    assert (hi * Pow2(l)) * Pow2(s) == hi * (Pow2(s) * Pow2(l));
  }

  lemma FieldIs(n: int, s: nat, l: nat, hi: int, f: int, lo: int)
    requires n == hi * Pow2(s + l) + f * Pow2(s) + lo && 0 <= f < Pow2(l) && 0 <= lo < Pow2(s)
    ensures Field(n, s, l) == f
  {
    hide Pow2;
    PowAdd(s, l);
    assert hi * (Pow2(s) * Pow2(l)) == (hi * Pow2(l)) * Pow2(s);
    assert (hi * Pow2(l) + f) * Pow2(s) == (hi * Pow2(l)) * Pow2(s) + f * Pow2(s);
    QuotientIs(n, Pow2(s), hi * Pow2(l) + f, lo);
    QuotientIs(hi * Pow2(l) + f, Pow2(l), hi, f);
  }

  lemma FieldSet(n: int, s: nat, l: nat, f: int)
    requires 0 <= f < Pow2(l)
    ensures Field(SetField(n, s, l, f), s, l) == f
  {
    hide Pow2, Field;
    var hi, lo := FieldParts(n, s, l);
    var g := Field(n, s, l);
    Distribute(f, g, Pow2(s));
    FieldIs(SetField(n, s, l, f), s, l, hi, f, lo);
  }

  lemma TimesSplit(d: int, a: nat, b: nat)
    requires a <= b
    ensures d * Pow2(b) == (d * Pow2(b - a)) * Pow2(a)
  {
    PowAdd(a, b - a);
    hide Pow2;
    assert d * (Pow2(a) * Pow2(b - a)) == (d * Pow2(b - a)) * Pow2(a);
  }

  /** Bits below bit k do not depend on what is above. */
  lemma AddHigh(n: int, d: int, k: nat, s: nat, l: nat)
    requires s + l <= k
    ensures Field(n + d * Pow2(k), s, l) == Field(n, s, l)
  {
    hide *;
    var hi, lo := FieldParts(n, s, l);
    TimesSplit(d, s + l, k);
    var e := d * Pow2(k - (s + l));
    assert (hi + e) * Pow2(s + l) == hi * Pow2(s + l) + e * Pow2(s + l);
    FieldIs(n + d * Pow2(k), s, l, hi + e, Field(n, s, l), lo);
  }

  lemma BelowSet(n: int, s: nat, l: nat, f: int, s2: nat, l2: nat)
    requires s2 + l2 <= s
    ensures Field(SetField(n, s, l, f), s2, l2) == Field(n, s2, l2)
  {
    AddHigh(n, f - Field(n, s, l), s, s2, l2);
  }

  lemma DivDiv(n: int, a: nat, b: nat)
    requires a > 0 && b > 0
    ensures a * b > 0 && n / (a * b) == n / a / b
  {
    DivMod(n, a);
    var q := n / a;
    DivMod(q, b);
    var p, r := q / b, q % b;
    assert q * a == (p * b) * a + r * a;
    assert (p * b) * a == p * (a * b);
    CancelTimes(r, b - 1, a);
    CancelTimes(0, r, a);
    Distribute(b, 1, a);
    assert b * a == a * b;
    TimesAtLeast(a, b);
    QuotientIs(n, a * b, p, r * a + n % a);
  }

  lemma FieldShift(n: int, a: nat, b: nat, l: nat)
    ensures Field(n, a + b, l) == Field(n / Pow2(a), b, l)
  {
    hide Pow2;
    PowAdd(a, b);
    DivDiv(n, Pow2(a), Pow2(b));
  }

  lemma AboveSet(n: int, s: nat, l: nat, f: int, s2: nat, l2: nat)
    requires s + l <= s2 && 0 <= f < Pow2(l)
    ensures Field(SetField(n, s, l, f), s2, l2) == Field(n, s2, l2)
  {
    hide Pow2, Field;
    var hi, lo := FieldParts(n, s, l);
    var g := Field(n, s, l);
    Distribute(f, g, Pow2(s));
    TopPart(hi, g, lo, s, l);
    TopPart(hi, f, lo, s, l);
    FieldShift(n, s + l, s2 - s - l, l2);
    FieldShift(SetField(n, s, l, f), s + l, s2 - s - l, l2);
  }

  lemma TopPart(hi: int, f: int, lo: int, s: nat, l: nat)
    requires 0 <= f < Pow2(l) && 0 <= lo < Pow2(s)
    ensures (hi * Pow2(s + l) + f * Pow2(s) + lo) / Pow2(s + l) == hi
    ensures 0 <= f * Pow2(s) + lo < Pow2(s + l)
  {
    hide Pow2;
    PowAdd(s, l);
    CancelTimes(f, Pow2(l) - 1, Pow2(s));
    CancelTimes(0, f, Pow2(s));
    Distribute(Pow2(l), 1, Pow2(s));
    assert Pow2(l) * Pow2(s) == Pow2(s) * Pow2(l);
    QuotientIs(hi * Pow2(s + l) + f * Pow2(s) + lo, Pow2(s + l), hi, f * Pow2(s) + lo);
  }

  /** Bits of bits. */
  lemma FieldOfLow(n: int, k: nat, s: nat, l: nat)
    requires s + l <= k
    ensures Field(n % Pow2(k), s, l) == Field(n, s, l)
  {
    hide Pow2, Field;
    DivMod(n, Pow2(k));
    AddHigh(n % Pow2(k), n / Pow2(k), k, s, l);
  }

  lemma FieldOfField(n: int, a: nat, k: nat, s: nat, l: nat)
    requires s + l <= k
    ensures Field(Field(n, a, k), s, l) == Field(n, a + s, l)
  {
    FieldOfLow(n / Pow2(a), k, s, l);
    FieldShift(n, a, s, l);
  }

  // ---------- bitwise operations on fields ----------

  lemma Halves(x: int)
    ensures x == 2 * (x / 2) + x % 2 && 0 <= x % 2 < 2
  {}

  lemma {:induction false} AndZero(x: nat)
    ensures Bits(BitAnd, x, 0) == 0
  {
    if x > 0 { AndZero(x / 2); }
  }

  /** x & (2^w - 1) */
  lemma {:induction false} AndLow(x: nat, w: nat)
    ensures Bits(BitAnd, x, Pow2(w) - 1) == x % Pow2(w)
    decreases w
  {
    if w == 0 {
      AndZero(x);
    } else {
      hide *;
      HalfPow(w);
      AndLow(x / 2, w - 1);
      LowHalf(x, Pow2(w - 1));
      AndStep(x, Pow2(w) - 1, Pow2(w - 1) - 1, 1);
    }
  }

  lemma LowHalf(x: nat, p: nat)
    requires p > 0
    ensures x % (2 * p) == x % 2 + 2 * ((x / 2) % p)
  {
    DivMod(x / 2, p);
    var q, r := x / 2 / p, x / 2 % p;
    assert x == q * (2 * p) + (x % 2 + 2 * r) by { assert 2 * (q * p) == q * (2 * p); }
    QuotientIs(x, 2 * p, q, x % 2 + 2 * r);
  }

  /** One bit of a bitwise operation. */
  lemma BitsStep(op: BinOp, a: nat, b: nat, a': nat, x: nat, b': nat, y: nat)
    requires a == 2 * a' + x && b == 2 * b' + y && x < 2 && y < 2 && a + b > 0
    ensures Bits(op, a, b) == (if op == BitAnd then x * y else if op == BitOr then x + y - x * y else (x + y) % 2) + 2 * Bits(op, a', b')
  {
    assert a / 2 == a' && a % 2 == x && b / 2 == b' && b % 2 == y;
  }

  /** n ones with a hole of w zeros at bit s. */
  function Hole(n: nat, s: nat, w: nat): int { Pow2(n) - 1 - (Pow2(w) - 1) * Pow2(s) }

  lemma HoleStep(n: nat, s: nat, w: nat)
    requires s + w <= n && n > 0
    ensures Hole(n, s, w) >= 0
    ensures s > 0 ==> Hole(n, s, w) == 2 * Hole(n - 1, s - 1, w) + 1 && Hole(n - 1, s - 1, w) >= 0
    ensures s == 0 && w > 0 ==> Hole(n, s, w) == 2 * Hole(n - 1, 0, w - 1) && Hole(n - 1, 0, w - 1) >= 0
  {
    HoleNat(n, s, w);
    if s > 0 {
      HoleNat(n - 1, s - 1, w);
      assert (Pow2(w) - 1) * (2 * Pow2(s - 1)) == 2 * ((Pow2(w) - 1) * Pow2(s - 1));
    } else if w > 0 {
      HoleNat(n - 1, 0, w - 1);
    }
  }

  lemma HoleNat(n: nat, s: nat, w: nat)
    requires s + w <= n
    ensures Hole(n, s, w) >= 0
  {
    PowAdd(s, w);
    PowMono(s + w, n);
    Distribute(Pow2(w), 1, Pow2(s));
    assert Pow2(w) * Pow2(s) == Pow2(s) * Pow2(w);
  }

  lemma FieldHalf(x: nat, s: nat, w: nat)
    ensures s > 0 ==> Field(x, s, w) == Field(x / 2, s - 1, w)
    ensures s == 0 && w > 0 ==> Field(x, 0, w) == x % 2 + 2 * Field(x / 2, 0, w - 1)
  {
    if s > 0 {
      DivDiv(x, 2, Pow2(s - 1));
    } else if w > 0 {
      LowHalf(x, Pow2(w - 1));
    }
  }

  lemma NoHole(x: nat, n: nat, s: nat)
    requires x < Pow2(n)
    ensures Hole(n, s, 0) == Pow2(n) - 1 && Field(x, s, 0) == 0 && x % Pow2(n) == x
  {
    hide Pow2;
    PowZero();
    QuotientIs(x, Pow2(n), 0, x);
    QuotientIs(x / Pow2(s), 1, x / Pow2(s), 0);
  }

  lemma PowZero()
    ensures Pow2(0) == 1
  {}

  lemma TwiceTimes(f: int, p: int)
    ensures f * (2 * p) == 2 * (f * p)
  {}

  lemma AndStep(x: nat, b: nat, b': nat, y: nat)
    requires b == 2 * b' + y && y < 2
    ensures Bits(BitAnd, x, b) == (x % 2) * y + 2 * Bits(BitAnd, x / 2, b')
  {
    Halves(x);
    if x == 0 && b == 0 { AndZero(0); } else { BitsStep(BitAnd, x, b, x / 2, x % 2, b', y); }
  }

  /** x & ~mask clears the field. */
  lemma {:induction false} AndHole(x: nat, n: nat, s: nat, w: nat)
    requires s + w <= n && x < Pow2(n)
    ensures Hole(n, s, w) >= 0 && Bits(BitAnd, x, Hole(n, s, w)) == x - Field(x, s, w) * Pow2(s)
    decreases n
  {
    hide *;
    HoleNat(n, s, w);
    if w == 0 {
      NoHole(x, n, s);
      AndLow(x, n);
    } else {
      HalfPow(n);
      HoleStep(n, s, w);
      FieldHalf(x, s, w);
      Halves(x);
      if s > 0 {
        AndHole(x / 2, n - 1, s - 1, w);
        AndStep(x, Hole(n, s, w), Hole(n - 1, s - 1, w), 1);
        HalfPow(s);
        TwiceTimes(Field(x, s, w), Pow2(s - 1));
      } else {
        PowZero();
        AndHole(x / 2, n - 1, 0, w - 1);
        AndStep(x, Hole(n, s, w), Hole(n - 1, 0, w - 1), 0);
      }
    }
  }

  lemma HalfPow(n: nat)
    ensures n > 0 ==> Pow2(n) == 2 * Pow2(n - 1)
  {}

  lemma {:induction false} OrZero(x: nat)
    ensures Bits(BitOr, x, 0) == x
  {
    if x > 0 { OrZero(x / 2); }
  }

  /** Putting bits where there are none is adding them. */
  lemma {:induction false} OrField(x: nat, f: nat, s: nat, w: nat)
    requires f < Pow2(w) && Field(x, s, w) == 0
    ensures f * Pow2(s) >= 0 && Bits(BitOr, x, f * Pow2(s)) == x + f * Pow2(s)
    decreases s + w
  {
    hide *;
    CancelTimes(0, f, Pow2(s));
    PowZero();
    HalfPow(s);
    HalfPow(w);
    FieldHalf(x, s, w);
    Halves(x);
    if f == 0 {
      OrZero(x);
    } else if s > 0 {
      OrField(x / 2, f, s - 1, w);
      TwiceTimes(f, Pow2(s - 1));
      OrStep(x, f * Pow2(s), f * Pow2(s - 1), 0);
    } else {
      Halves(f);
      FieldBound(x / 2, 0, w - 1);
      OrField(x / 2, f / 2, 0, w - 1);
      OrStep(x, f, f / 2, f % 2);
    }
  }

  lemma OrStep(x: nat, b: nat, b': nat, y: nat)
    requires b == 2 * b' + y && y < 2 && b > 0
    ensures Bits(BitOr, x, b) == x % 2 + y - (x % 2) * y + 2 * Bits(BitOr, x / 2, b')
  {
    Halves(x);
    BitsStep(BitOr, x, b, x / 2, x % 2, b', y);
  }

  // ---------- the generated code ----------

  function SignExtend(x: int, w: nat): int
    requires w > 0
  {
    if x >= Pow2(w - 1) then x - Pow2(w) else x
  }

  /** What `load` leaves in rax for a type of sz bytes. */
  function LoadReg(mem: Mem, a: int, sz: nat, unsigned: bool): (r: int)
    requires sz > 0
    ensures 0 <= r < W64
  {
    var x := LoadN(mem, a, sz);
    if sz < 4 then (if unsigned then x else SignExtend(x, 8 * sz)) % W32
    else if sz == 4 then SignExtend(x, 32) % W64
    else x % W64
  }

  /** Reading member m whose unit is at address a. */
  function ReadBits(mem: Mem, a: int, m: S.Member, s: int): int
    requires S.WfMember(m) && m.Bits? && 0 <= s && s + m.width <= 8 * S.Size(m)
  {
    InWord(m, s);
    var rax := LoadReg(mem, a, S.Size(m), m.unsigned);
    var shl := rax * Pow2(64 - m.width - s) % W64;
    if m.unsigned then shl / Pow2(64 - m.width)
    else Signed(8, shl) / Pow2(64 - m.width) % W64
  }

  /** Assigning the value in rax to member m whose unit is at address a. */
  function StoreBits(mem: Mem, a: int, m: S.Member, s: int, rax: int): Mem
    requires S.WfMember(m) && m.Bits? && 0 <= s && s + m.width <= 8 * S.Size(m) && m.width < 64 && 0 <= rax < W64
  {
    InWord(m, s);
    var rdi := Bits(BitAnd, rax, Pow2(m.width) - 1) * Pow2(s) % W64;
    var was := LoadReg(mem, a, S.Size(m), m.unsigned);
    var mask := (Pow2(m.width) - 1) * Pow2(s);
    HoleWord(s, m.width);
    var cleared := Bits(BitAnd, was, W64 - 1 - mask);
    StoreN(mem, a, S.Size(m), Bits(BitOr, cleared, rdi))
  }

  lemma PowEight()
    ensures Pow2(8) == 256
  {}

  lemma Pow64()
    ensures Pow2(64) == W64 && Pow2(32) == W32
  {
    hide Pow2;
    PowEight();
    PowAdd(8, 8);
    PowAdd(16, 16);
    PowAdd(32, 32);
  }

  lemma HoleWord(s: nat, w: nat)
    requires s + w <= 64
    ensures W64 - 1 - (Pow2(w) - 1) * Pow2(s) == Hole(64, s, w) >= 0
  {
    Pow64();
    HoleNat(64, s, w);
  }

  lemma InWord(m: S.Member, s: int)
    requires S.WfMember(m) && m.Bits? && 0 <= s && s + m.width <= 8 * S.Size(m)
    ensures s + m.width <= 8 * S.Size(m) <= 64 && S.Size(m) > 0
  {
    PowMono(m.lg, 3);
  }

  // ---------- reading ----------

  lemma PowerIs(n: nat)
    ensures Power(n) == Pow2(8 * n)
  {
    if n > 0 {
      PowerIs(n - 1);
      PowAdd(8, 8 * (n - 1));
      assert Pow2(8) == 256;
    }
  }

  /** rax agrees with memory in the bits of the type. */
  lemma LoadRegLow(mem: Mem, a: int, sz: nat, unsigned: bool)
    requires Bytes(mem) && 0 < sz && (sz == 1 || sz == 2 || sz == 4 || sz == 8)
    ensures LoadReg(mem, a, sz, unsigned) % Pow2(8 * sz) == LoadN(mem, a, sz) < Pow2(8 * sz)
  {
    var x := LoadN(mem, a, sz);
    LoadRange(mem, a, sz);
    PowerIs(sz);
    Pow64();
    hide Pow2, LoadN;
    var p := Pow2(8 * sz);
    QuotientIs(x, p, 0, x);
    QuotientIs(x - p, p, -1, x);
    var y := if unsigned && sz < 4 then x else if sz == 8 then x else SignExtend(x, 8 * sz);
    var w := if sz < 4 then 32 else 64;
    ModMod(y, 8 * sz, w);
  }

  lemma ModMod(y: int, a: nat, b: nat)
    requires a <= b
    ensures y % Pow2(b) % Pow2(a) == y % Pow2(a)
  {
    hide Pow2;
    DivMod(y, Pow2(b));
    TimesSplit(y / Pow2(b), a, b);
    Multiple(Pow2(a), y / Pow2(b) * Pow2(b - a));
    var e := y / Pow2(b) * Pow2(b - a);
    assert Pow2(a) * e == e * Pow2(a);
    SameMod(Pow2(a), y, y % Pow2(b));
  }

  /** The register after shifting left: the field is on top, and r is below it. */
  lemma ShiftLeft(rax: int, s: nat, w: nat) returns (r: int)
    requires 0 < w && s + w <= 64
    ensures 0 <= r < Pow2(64 - w) && rax * Pow2(64 - w - s) % W64 == Field(rax, s, w) * Pow2(64 - w) + r
    ensures 0 <= Field(rax, s, w) * Pow2(64 - w) + r < W64
  {
    hide *;
    var hi, lo := FieldParts(rax, s, w);
    var k := 64 - w - s;
    var f := Field(rax, s, w);
    r := lo * Pow2(k);
    ShiftParts(hi, f, lo, s, w, k);
    ShiftBound(lo, s, k);
    TopPart(0, f, r, 64 - w, w);
    Pow64();
    FieldBound(rax, s, w);
    assert 64 - w + w == 64;
    QuotientIs(rax * Pow2(k), W64, hi, f * Pow2(64 - w) + r);
  }

  lemma FieldBound(n: int, s: nat, l: nat)
    ensures 0 <= Field(n, s, l) < Pow2(l)
  {}

  lemma Expand(a: int, b: int, c: int, k: int)
    ensures (a + b + c) * k == a * k + b * k + c * k
  {}

  lemma Regroup(h: int, x: int, k: int)
    ensures (h * x) * k == h * (k * x)
  {}

  lemma ShiftParts(hi: int, f: int, lo: int, s: nat, w: nat, k: nat)
    requires k + s + w == 64
    ensures (hi * Pow2(s + w) + f * Pow2(s) + lo) * Pow2(k) == hi * W64 + (f * Pow2(64 - w) + lo * Pow2(k))
  {
    hide *;
    Pow64();
    PowAdd(k, s + w);
    PowAdd(k, s);
    assert k + (s + w) == 64 && k + s == 64 - w;
    Expand(hi * Pow2(s + w), f * Pow2(s), lo, Pow2(k));
    Regroup(hi, Pow2(s + w), Pow2(k));
    Regroup(f, Pow2(s), Pow2(k));
  }

  lemma ShiftBound(lo: int, s: nat, k: nat)
    requires 0 <= lo < Pow2(s)
    ensures 0 <= lo * Pow2(k) < Pow2(s + k)
  {
    PowAdd(s, k);
    hide Pow2;
    CancelTimes(lo, Pow2(s) - 1, Pow2(k));
    CancelTimes(0, lo, Pow2(k));
    Distribute(Pow2(s), 1, Pow2(k));
  }

  /** Shifting the field to the top of the register and down again isolates it. */
  lemma ShiftOut(rax: int, s: nat, w: nat)
    requires 0 < w && s + w <= 64
    ensures var f := Field(rax, s, w); var shl := rax * Pow2(64 - w - s) % W64;
      shl / Pow2(64 - w) == f && Signed(8, shl) / Pow2(64 - w) == SignExtend(f, w)
  {
    var f, p := Field(rax, s, w), Pow2(64 - w);
    var r := ShiftLeft(rax, s, w);
    TopHalf(f, r, w);
    hide Pow2, Field;
    QuotientIs(f * p + r, p, f, r);
    Distribute(f, Pow2(w), p);
    QuotientIs(f * p + r - W64, p, f - Pow2(w), r);
  }

  /** The sign bit of the register is that of the field. */
  lemma TopHalf(f: int, r: int, w: nat)
    requires 0 < w <= 64 && 0 <= f < Pow2(w) && 0 <= r < Pow2(64 - w)
    ensures f * Pow2(64 - w) + r >= W64 / 2 <==> f >= Pow2(w - 1)
    ensures Pow2(w) * Pow2(64 - w) == W64
  {
    Pow64();
    HalfPow(64);
    PowAdd(w - 1, 64 - w);
    PowAdd(w, 64 - w);
    hide Pow2;
    var p, h := Pow2(64 - w), Pow2(w - 1);
    if f >= h {
      CancelTimes(h, f, p);
    } else {
      CancelTimes(f, h - 1, p);
      Distribute(h, 1, p);
    }
  }

  /** A bit-field's value as the type of the member has it, in a 64-bit register. */
  function Extended(f: int, m: S.Member): int
    requires m.Bits? && m.width > 0
  {
    if m.unsigned then f else SignExtend(f, m.width) % W64
  }

  /** What is read depends on the field's own bits only. */
  lemma ReadsField(mem: Mem, a: int, m: S.Member, s: int)
    requires S.WfMember(m) && m.Bits? && 0 <= s && s + m.width <= 8 * S.Size(m) && Bytes(mem)
    ensures ReadBits(mem, a, m, s) == Extended(Field(LoadN(mem, a, S.Size(m)), s, m.width), m)
  {
    InWord(m, s);
    SizeCases(m);
    hide LoadN, LoadReg, Signed;
    var sz := S.Size(m);
    var rax := LoadReg(mem, a, sz, m.unsigned);
    LoadRegLow(mem, a, sz, m.unsigned);
    FieldOfLow(rax, 8 * sz, s, m.width);
    ShiftOut(rax, s, m.width);
    hide Pow2, Field;
  }

  lemma SizeCases(m: S.Member)
    requires S.WfMember(m) && m.Bits?
    ensures var sz := S.Size(m); sz == 1 || sz == 2 || sz == 4 || sz == 8
  {}

  // ---------- writing ----------

  /** The word that is stored. */
  function Merged(was: int, s: nat, w: nat, rax: int): int
    requires s + w <= 64 && 0 <= was < W64 && 0 <= rax < W64
  {
    HoleWord(s, w);
    Bits(BitOr, Bits(BitAnd, was, W64 - 1 - (Pow2(w) - 1) * Pow2(s)), Bits(BitAnd, rax, Pow2(w) - 1) * Pow2(s) % W64)
  }

  lemma MergedIs(was: int, s: nat, w: nat, rax: int)
    requires s + w <= 64 && 0 <= was < W64 && 0 <= rax < W64
    ensures Merged(was, s, w, rax) == SetField(was, s, w, rax % Pow2(w))
  {
    hide *;
    MergedParts(was, s, w, rax);
    ShiftedIn(s, w, rax);
    Merge(was, s, w, rax % Pow2(w));
  }

  /** The bits that go in, in their place. */
  lemma ShiftedIn(s: nat, w: nat, rax: int)
    requires s + w <= 64 && 0 <= rax < W64
    ensures 0 <= rax % Pow2(w) < Pow2(w) && Bits(BitAnd, rax, Pow2(w) - 1) * Pow2(s) % W64 == (rax % Pow2(w)) * Pow2(s)
  {
    hide *;
    LowBound(rax, w);
    AndLow(rax, w);
    var f := rax % Pow2(w);
    FieldRange(f, s, w);
    QuotientIs(f * Pow2(s), W64, 0, f * Pow2(s));
  }

  /** Clearing the field and putting f there sets the field. */
  lemma Merge(was: int, s: nat, w: nat, f: int)
    requires s + w <= 64 && 0 <= was < W64 && 0 <= f < Pow2(w)
    ensures Hole(64, s, w) >= 0 && f * Pow2(s) >= 0 && Bits(BitOr, Bits(BitAnd, was, Hole(64, s, w)), f * Pow2(s)) == SetField(was, s, w, f)
  {
    hide *;
    Pow64();
    AndHole(was, 64, s, w);
    Cleared(was, s, w);
    OrField(was - Field(was, s, w) * Pow2(s), f, s, w);
    Distribute(f, Field(was, s, w), Pow2(s));
    SetIs(was, s, w, f);
  }

  lemma LowBound(x: int, w: nat)
    ensures 0 <= x % Pow2(w) < Pow2(w)
  {}

  lemma SetIs(n: int, s: nat, l: nat, f: int)
    ensures SetField(n, s, l, f) == n + (f - Field(n, s, l)) * Pow2(s)
  {}

  lemma MergedParts(was: int, s: nat, w: nat, rax: int)
    requires s + w <= 64 && 0 <= was < W64 && 0 <= rax < W64
    ensures Hole(64, s, w) >= 0
    ensures Merged(was, s, w, rax) == Bits(BitOr, Bits(BitAnd, was, Hole(64, s, w)), Bits(BitAnd, rax, Pow2(w) - 1) * Pow2(s) % W64)
  {
    HoleWord(s, w);
  }

  /** The unit's new contents: only the field has changed. */
  lemma StoresField(mem: Mem, a: int, m: S.Member, s: int, rax: int)
    requires S.WfMember(m) && m.Bits? && 0 <= s && s + m.width <= 8 * S.Size(m) && m.width < 64 && 0 <= rax < W64 && Bytes(mem)
    ensures var sz := S.Size(m); var f := rax % Pow2(m.width);
      exists v :: StoreBits(mem, a, m, s, rax) == StoreN(mem, a, sz, v) && v % Pow2(8 * sz) == SetField(LoadN(mem, a, sz), s, m.width, f) % Pow2(8 * sz)
  {
    InWord(m, s);
    SizeCases(m);
    var sz, w := S.Size(m), m.width;
    var was := LoadReg(mem, a, sz, m.unsigned);
    var v := Merged(was, s, w, rax);
    StoresMerged(mem, a, m, s, rax);
    hide LoadReg, LoadN, StoreN, Pow2, Bits, StoreBits, Merged, SetField;
    MergedIs(was, s, w, rax);
    LoadRegLow(mem, a, sz, m.unsigned);
    SetLow(was, LoadN(mem, a, sz), 8 * sz, s, w, rax % Pow2(w));
    assert StoreBits(mem, a, m, s, rax) == StoreN(mem, a, sz, v);
  }

  lemma StoresMerged(mem: Mem, a: int, m: S.Member, s: int, rax: int)
    requires S.WfMember(m) && m.Bits? && 0 <= s && s + m.width <= 8 * S.Size(m) <= 64 && 0 < S.Size(m) && m.width < 64 && 0 <= rax < W64
    ensures StoreBits(mem, a, m, s, rax) == StoreN(mem, a, S.Size(m), Merged(LoadReg(mem, a, S.Size(m), m.unsigned), s, m.width, rax))
  {
    hide LoadReg, LoadN, StoreN, Pow2, Bits;
  }

  lemma FieldRange(f: nat, s: nat, w: nat)
    requires f < Pow2(w) && s + w <= 64
    ensures 0 <= f * Pow2(s) < W64
  {
    Pow64();
    TopPart(0, f, 0, s, w);
    PowMono(s + w, 64);
  }

  lemma Cleared(x: nat, s: nat, w: nat)
    ensures x - Field(x, s, w) * Pow2(s) >= 0 && Field(x - Field(x, s, w) * Pow2(s), s, w) == 0
  {
    var hi, lo := FieldParts(x, s, w);
    FieldSet(x, s, w, 0);
    hide Pow2, Field;
    Distribute(0, Field(x, s, w), Pow2(s));
    if hi < 0 {
      CancelTimes(hi, -1, Pow2(s + w));
      TopPart(0, Field(x, s, w), lo, s, w);
    }
    CancelTimes(0, hi, Pow2(s + w));
  }

  lemma SetLow(x: int, y: int, k: nat, s: nat, w: nat, f: int)
    requires x % Pow2(k) == y && s + w <= k
    ensures SetField(x, s, w, f) % Pow2(k) == SetField(y, s, w, f) % Pow2(k)
  {
    FieldOfLow(x, k, s, w);
    hide Pow2, Field;
    DivMod(x, Pow2(k));
    var q := x / Pow2(k);
    assert SetField(x, s, w, f) - SetField(y, s, w, f) == q * Pow2(k);
    Multiple(Pow2(k), q);
    assert Pow2(k) * q == q * Pow2(k);
    SameMod(Pow2(k), SetField(x, s, w, f), SetField(y, s, w, f));
  }
}
