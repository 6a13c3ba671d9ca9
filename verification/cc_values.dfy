/** Registers as representatives of C values: what the fixed instruction sequences compute. */
module CcValues {
  import opened CcInt
  import opened CcMachine
  import opened CcGen
  import opened Numbers
  import opened Wrappers

  /** a and b agree modulo m. */
  predicate Cong(m: nat, a: int, b: int)
    requires m > 0
  {
    a % m == b % m
  }

  lemma CongDiff(m: nat, a: int, b: int, k: int)
    requires m > 0 && a - b == k * m
    ensures Cong(m, a, b)
  {
    Multiple(m, k);
    assert m * k == k * m;
    SameMod(m, a, b);
  }

  lemma CongQuotient(m: nat, a: int, b: int) returns (k: int)
    requires m > 0 && Cong(m, a, b)
    ensures a - b == k * m
  {
    DivMod(a, m);
    DivMod(b, m);
    k := a / m - b / m;
    Distribute(a / m, b / m, m);
  }

  lemma CongSum(m: nat, a: int, b: int, c: int, d: int)
    requires m > 0 && Cong(m, a, b) && Cong(m, c, d)
    ensures Cong(m, a + c, b + d) && Cong(m, a - c, b - d)
  {
    var k := CongQuotient(m, a, b);
    var l := CongQuotient(m, c, d);
    assert (k + l) * m == k * m + l * m;
    Distribute(k, l, m);
    CongDiff(m, a + c, b + d, k + l);
    CongDiff(m, a - c, b - d, k - l);
  }

  lemma CongProduct(m: nat, a: int, b: int, c: int, d: int)
    requires m > 0 && Cong(m, a, b) && Cong(m, c, d)
    ensures Cong(m, a * c, b * d)
  {
    var k := CongQuotient(m, a, b);
    var l := CongQuotient(m, c, d);
    ProductStep(a, b, c, d, k, l, m);
    CongDiff(m, a * c, b * d, k * c + b * l);
  }

  lemma ProductStep(a: int, b: int, c: int, d: int, k: int, l: int, m: int)
    requires a - b == k * m && c - d == l * m
    ensures a * c - b * d == (k * c + b * l) * m
  {
    assert a * c == (b + k * m) * c == b * c + (k * m) * c;
    assert b * c == b * (d + l * m) == b * d + b * (l * m);
    assert (k * c + b * l) * m == (k * m) * c + b * (l * m);
  }

  /** Reducing modulo 2^64 first does not matter for either width. */
  lemma LowOfLow(t: Ty, x: int)
    ensures Cong(Modulus(t), x % W64, x)
  {
    DivMod(x, W64);
    var q := x / W64;
    if Size(t) == 4 { assert q * W64 == (q * W32) * W32; }
    CongDiff(Modulus(t), x % W64, x, if Size(t) == 4 then -(q * W32) else -q);
  }

  lemma ReduceMod(m: nat, x: int)
    requires m > 0
    ensures Cong(m, x % m, x) && x % m % m == x % m
  {
    DivMod(x, m);
    QuotientIs(x % m, m, 0, x % m);
  }

  /** A register holds v as a value of type t, whatever is in its upper half. */
  predicate Rep(t: Ty, v: int, r: int) { 0 <= r < W64 && Cong(Modulus(t), r, v) }

  lemma ModIs(t: Ty)
    ensures Range(Size(t)) == Modulus(t)
  {}

  /** The value that a register represents. */
  lemma Decoded(t: Ty, v: int, r: int)
    requires InRange(t, v) && Rep(t, v, r)
    ensures v == if Unsigned(t) then Low(Size(t), r) else Signed(Size(t), Low(Size(t), r))
    ensures Low(Size(t), r) == 0 <==> v == 0
  {
    WrapFacts(t, v);
  }

  lemma RepWrap(t: Ty, x: int, r: int)
    requires 0 <= r < W64 && Cong(Modulus(t), r, x)
    ensures Rep(t, Wrap(t, x), r)
  {}

  lemma SmallRep(t: Ty, v: int)
    requires 0 <= v < 2
    ensures Rep(t, v, v)
  {}

  // ---------- unary ----------

  lemma NegRep(t: Ty, v: int, r: int)
    requires Rep(t, v, r)
    ensures Rep(t, Wrap(t, -v), (-r) % W64)
  {
    hide Wrap;
    LowOfLow(t, -r);
    CongSum(Modulus(t), 0, 0, r, v);
    RepWrap(t, -v, (-r) % W64);
  }

  lemma NotRep(t: Ty, v: int, r: int)
    requires Rep(t, v, r)
    ensures Rep(t, Wrap(t, -1 - v), W64 - 1 - r)
  {
    hide Wrap;
    WordMinusOne(t);
    CongSum(Modulus(t), W64 - 1, -1, r, v);
    RepWrap(t, -1 - v, W64 - 1 - r);
  }

  lemma WordMinusOne(t: Ty)
    ensures Cong(Modulus(t), W64 - 1, -1)
  {
    CongDiff(Modulus(t), W64 - 1, -1, if Size(t) == 4 then W32 else 1);
  }

  /** Casts: only widening a 32-bit value takes an instruction. */
  lemma CastRep(from: Ty, to: Ty, v: int, r: int)
    requires InRange(from, v) && Rep(from, v, r)
    ensures var r' := if CastCode(from, to) == [MovEaxEax] then Low(4, r) else if CastCode(from, to) == [Movsxd] then Signed(4, Low(4, r)) % W64 else r;
      Rep(to, Wrap(to, v), r')
  {
    hide Wrap;
    Decoded(from, v, r);
    if Size(from) == 4 && Size(to) == 8 {
      LowOfLow(to, v);
      if Unsigned(from) { RepWrap(to, v, Low(4, r)); } else { RepWrap(to, v, v % W64); }
    } else if Size(from) == 8 && Size(to) == 4 {
      Narrow(from, to, v, r);
      RepWrap(to, v, r);
    } else {
      RepWrap(to, v, r);
    }
  }

  lemma Narrow(from: Ty, to: Ty, v: int, r: int)
    requires Size(from) == 8 && Size(to) == 4 && Cong(W64, r, v)
    ensures Cong(W32, r, v)
  {
    var k := CongQuotient(W64, r, v);
    assert k * W64 == (k * W32) * W32;
    CongDiff(W32, r, v, k * W32);
  }

  // ---------- binary ----------

  lemma LowRep(t: Ty, v: int, r: int)
    requires Rep(t, v, r)
    ensures Cong(Modulus(t), Low(Size(t), r), v) && Low(Size(t), r) == v % Modulus(t)
  {
    ReduceMod(Modulus(t), r);
  }

  lemma AluRep(op: BinOp, t: Ty, a: int, b: int, ra: int, rb: int)
    requires Rep(t, a, ra) && Rep(t, b, rb) && op != Div && op != Rem
    ensures Rep(t, BinValue(op, t, a, b), AluValue(op, Size(t), Low(Size(t), ra), Low(Size(t), rb)))
  {
    hide Wrap, Bits, Rep;
    var m, x, y := Modulus(t), Low(Size(t), ra), Low(Size(t), rb);
    LowRep(t, a, ra);
    LowRep(t, b, rb);
    CongSum(m, x, a, y, b);
    CongProduct(m, x, a, y, b);
    var z := if op == Add then x + y else if op == Sub then x - y else if op == Mul then x * y else Bits(op, x, y);
    ReduceMod(m, z);
    RepWrap(t, if op == Add then a + b else if op == Sub then a - b else if op == Mul then a * b else Bits(op, x, y), z % m);
  }

  lemma QuotientAtMost(x: nat, p: nat)
    requires p > 0
    ensures 0 <= x / p <= x && 0 <= x % p <= x && x % p < p && (p >= 2 ==> 2 * (x / p) <= x) && (p == 1 ==> x / p == x)
  {
    DivMod(x, p);
    var q := x / p;
    if q < 0 {
      CancelTimes(q, -1, p);
    } else if p >= 2 {
      CancelTimes(2, p, q);
    } else {
      CancelTimes(1, p, q);
    }
  }

  /** Quotient and remainder up to sign. */
  lemma TruncParts(a: int, b: int) returns (q: int, r: int)
    requires b != 0
    ensures TruncDiv(a, b) == (if (a < 0) == (b < 0) then q else -q) && TruncMod(a, b) == if a < 0 then -r else r
    ensures 0 <= q <= Abs(a) && 0 <= r <= Abs(a) && (Abs(b) >= 2 ==> 2 * q <= Abs(a)) && (Abs(b) == 1 ==> q == Abs(a))
  {
    QuotientAtMost(Abs(a), Abs(b));
    q, r := Abs(a) / Abs(b), Abs(a) % Abs(b);
  }

  lemma TruncSmall(t: Ty, a: int, b: int)
    requires b != 0 && InRange(t, a) && InRange(t, b) && !Traps(Div, t, a, b)
    ensures InRange(t, TruncDiv(a, b)) && InRange(t, TruncMod(a, b))
  {
    hide TruncDiv, TruncMod;
    var q, r := TruncParts(a, b);
  }

  /** Division of a register pair whose upper half extends the sign, or is zero. */
  lemma DivRep(t: Ty, a: int, b: int, ra: int, rb: int)
    requires InRange(t, a) && InRange(t, b) && Rep(t, a, ra) && Rep(t, b, rb) && !Traps(Div, t, a, b)
    ensures var w := Size(t); var m, x, y := Range(w), Low(w, ra), Low(w, rb);
      if Unsigned(t) then
        y != 0 && 0 * m + x == a && y == b && 0 <= a / b < m && TruncDiv(a, b) == a / b && TruncMod(a, b) == a % b
      else
        var hi := if Signed(w, x) < 0 then m - 1 else 0;
        Signed(w, Low(w, hi)) * m + x == a && Signed(w, y) == b != 0
        && -(m / 2) <= TruncDiv(a, b) < m / 2
    ensures InRange(t, TruncDiv(a, b)) && InRange(t, TruncMod(a, b))
  {
    hide TruncDiv, TruncMod, Rep;
    ModIs(t);
    Decoded(t, a, ra);
    Decoded(t, b, rb);
    TruncSmall(t, a, b);
    if Unsigned(t) {
      UnsignedDiv(a, b);
    } else {
      var m := Range(Size(t));
      QuotientIs(m - 1, m, 0, m - 1);
    }
  }

  lemma UnsignedDiv(a: nat, b: nat)
    requires b > 0
    ensures TruncDiv(a, b) == a / b && TruncMod(a, b) == a % b && a / b >= 0
  {
    QuotientAtMost(a, b);
    assert Abs(a) == a && Abs(b) == b;
  }

  // ---------- comparisons and shifts ----------

  lemma FlagRep(op: CmpOp, t: Ty, a: int, b: int, ra: int, rb: int)
    requires InRange(t, a) && InRange(t, b) && Rep(t, a, ra) && Rep(t, b, rb)
    ensures FlagHolds(CmpFlag(op, t), Flags(Low(Size(t), ra), Low(Size(t), rb), Size(t))) <==> CmpValue(op, a, b)
  {
    hide Rep;
    Decoded(t, a, ra);
    Decoded(t, b, rb);
    ModIs(t);
  }

  lemma SetByte(r: int, v: int)
    requires 0 <= v < 2
    ensures (r - r % 256 + v) % 256 == v
  {}

  lemma ShiftCount(t: Ty, u: Ty, n: int, rb: int)
    requires InRange(u, n) && Rep(u, n, rb) && 0 <= n < 8 * Size(t)
    ensures Count(Size(t), rb) == n
  {
    hide Pow2;
    LowRep(u, n, rb);
    WrapFacts(u, n);
    LowByte(u, rb, n);
    QuotientIs(n, 8 * Size(t), 0, n);
  }

  lemma LowByte(u: Ty, rb: int, n: int)
    requires rb % Modulus(u) == n && 0 <= n < 64
    ensures rb % 256 == n
  {
    DivMod(rb, Modulus(u));
    var q := rb / Modulus(u);
    var c := Modulus(u) / 256;
    assert q * Modulus(u) == (q * c) * 256;
    QuotientIs(rb, 256, q * c, n);
  }

  lemma ShiftRep(left: bool, t: Ty, a: int, n: nat, ra: int)
    requires InRange(t, a) && Rep(t, a, ra)
    ensures var w := Size(t); var x := Low(w, ra);
      var r := if left then Low(w, x * Pow2(n)) else if Unsigned(t) then x / Pow2(n) else Low(w, Signed(w, x) / Pow2(n));
      Rep(t, ShiftValue(left, t, a, n), r)
  {
    hide Wrap, Rep, Pow2;
    ModIs(t);
    LowRep(t, a, ra);
    Decoded(t, a, ra);
    var m, p, x := Modulus(t), Pow2(n), Low(Size(t), ra);
    if left {
      CongProduct(m, x, a, p, p);
      ReduceMod(m, x * p);
      RepOf(t, a * p, (x * p) % m);
    } else if Unsigned(t) {
      DivMod(x, p);
      QuotientAtMost(x, p);
      RepOf(t, a / p, x / p);
    } else {
      ReduceMod(m, a / p);
      RepOf(t, a / p, (a / p) % m);
    }
  }

  lemma RepOf(t: Ty, x: int, r: int)
    requires 0 <= r < W64 && Cong(Modulus(t), r, x)
    ensures Rep(t, Wrap(t, x), r)
  {
    hide Wrap;
    RepWrap(t, x, r);
  }
}
