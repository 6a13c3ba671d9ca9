/** The constants of timeconst in 64-bit machine arithmetic. */
module BcTimeconst {
  import opened BcExact
  import opened Numbers

  const WORD := 0x1_0000_0000_0000_0000

  /** Reduction to unsigned 64 bits. */
  function W(x: int): (r: nat)
    ensures r < WORD
  {
    x % WORD
  }

  lemma WSmall(x: int)
    ensures 0 <= x < WORD ==> W(x) == x
    ensures W(W(x) - 1) == W(x - 1)
  {}

  // ---------- the machine operations ----------

  function Mul64(a: nat, b: nat): nat { W(a * b) }

  function Fmul64(b: nat, n: nat, d: nat): nat
    requires b < 64 && d > 0
  {
    FloorDiv(W(W(Mul64(W(Pow2(b)), n) + d) - 1), d)
  }

  lemma Fmul64Exact(b: nat, n: nat, d: nat)
    requires b < 64 && d > 0 && Pow2(b) * n + d - 1 < WORD && Pow2(b) < WORD && n < WORD
    ensures Fmul64(b, n, d) == Fmul(b, n, d)
  {
    hide Pow2, W;
    var y := Pow2(b) * n;
    WSmall(Pow2(b));
    WSmall(y);
    WSmall(y + d);
    WSmall(y + d - 1);
    assert Mul64(W(Pow2(b)), n) == y;
    FmulIs(b, n, d);
  }

  method GcdLoop(a0: nat, b0: nat) returns (a: nat)
    ensures a == Gcd(a0, b0)
  {
    a := a0;
    var b: nat := b0;
    while b > 0
      invariant Gcd(a0, b0) == Gcd(a, b)
      decreases b
    {
      a, b := b, a % b;
    }
  }

  /** The reduced denominator, computed by the loop above. */
  function Fadj64(b: nat, n: nat, d: nat): nat
    requires b < 64 && n > 0 && d > 0
  {
    FloorDiv(Mul64(W(Pow2(b)), W(Reduced(n, d) - 1)), Reduced(n, d))
  }

  /** The printed rounding term is right exactly if its product fits. */
  lemma Fadj64Exact(b: nat, n: nat, d: nat)
    requires b < 64 && n > 0 && 0 < d < WORD && Pow2(b) < WORD
    ensures Fadj64(b, n, d) == Fadj(b, n, d) <==> Pow2(b) * (Reduced(n, d) - 1) < WORD
  {
    hide Pow2, Gcd;
    var w, q := Pow2(b), Reduced(n, d);
    var g, p, q' := Lowest(n, d);
    assert q <= d by { if g > 1 { TimesAtLeast(g, q); } }
    WSmall(w);
    WSmall(q - 1);
    var y := w * (q - 1);
    WSmall(y);
    if y >= WORD { SmallerQuotient(y, q); }
  }

  lemma SmallerQuotient(y: nat, q: nat)
    requires y >= WORD && 0 < q < WORD
    ensures W(y) / q < y / q
  {
    DivMod(y, q);
    var z := W(y);
    DivMod(z, q);
    assert z <= y - WORD by { DivMod(y, WORD); TimesAtLeast(y / WORD, WORD); }
    if y / q <= z / q { CancelTimes(y / q, z / q, q); }
  }

  // ---------- the shift ----------

  /** s is the least shift that makes the multiplier at least half. */
  predicate IsShift(s: nat, half: nat, n: nat, d: nat)
    requires d > 0
  {
    Fmul(s, n, d) >= half && forall t: nat :: t < s ==> Fmul(t, n, d) < half
  }

  lemma Powers()
    ensures Pow2(8) == 256 && Pow2(16) == 0x1_0000 && Pow2(31) == 0x8000_0000 && Pow2(32) == 0x1_0000_0000
    ensures Pow2(44) == 0x1000_0000_0000 && Pow2(45) == 0x2000_0000_0000 && Pow2(46) == 0x4000_0000_0000
    ensures Pow2(47) == 0x8000_0000_0000 && Pow2(48) == 0x1_0000_0000_0000 && Pow2(49) == 0x2_0000_0000_0000
    ensures Pow2(50) == 0x4_0000_0000_0000 && Pow2(51) == 0x8_0000_0000_0000
    ensures Pow2(62) == 0x4000_0000_0000_0000 && Pow2(63) == 0x8000_0000_0000_0000
  {
    assert Pow2(4) == 16;
    PowAdd(4, 4);
    PowAdd(8, 8);
    PowAdd(16, 16);
    assert Pow2(32) == 2 * Pow2(31);
    assert Pow2(12) == 4096 by { PowAdd(8, 4); }
    PowAdd(32, 12);
    assert Pow2(46) == 2 * Pow2(45) && Pow2(45) == 2 * Pow2(44);
    assert Pow2(48) == 2 * Pow2(47) && Pow2(47) == 2 * Pow2(46);
    assert Pow2(50) == 2 * Pow2(49) && Pow2(49) == 2 * Pow2(48);
    assert Pow2(51) == 2 * Pow2(50);
    PowAdd(51, 12);
    assert Pow2(63) == 2 * Pow2(62);
  }

  /** The scaled numerator lies just below the threshold. */
  lemma MultiplierBelow(s: nat, n: nat, d: nat, half: nat)
    requires d > 0 && Fmul(s, n, d) < half
    ensures Pow2(s) * n <= (half - 1) * d && Pow2(s + 1) * n <= 2 * ((half - 1) * d)
  {
    hide Fmul;
    assert Fmul(s, n, d) == CeilDiv(Pow2(s) * n, d) by { FmulIs(s, n, d); }
    CeilParts(Pow2(s) * n, d);
    CancelTimes(Fmul(s, n, d), half - 1, d);
    assert Pow2(s + 1) * n == 2 * (Pow2(s) * n);
  }

  lemma FmulIs(s: nat, n: nat, d: nat)
    requires d > 0
    ensures Fmul(s, n, d) == CeilDiv(Pow2(s) * n, d)
  {}

  lemma MultiplierAtLeast(s: nat, n: nat, d: nat, half: nat)
    requires d > 0 && Fmul(s, n, d) >= half > 0
    ensures Pow2(s) * n > (half - 1) * d
  {
    hide Fmul;
    FmulIs(s, n, d);
    CeilParts(Pow2(s) * n, d);
    CancelTimes(half, Fmul(s, n, d), d);
    assert half * d == (half - 1) * d + d;
  }

  /** A shift of 62 is always enough. */
  lemma EnoughShift(n: nat, d: nat, half: nat)
    requires n > 0 && 0 < d <= 0x8000_0000 && half <= 0x8000_0000
    ensures Fmul(62, n, d) >= half
  {
    if Fmul(62, n, d) < half {
      hide Pow2, Fmul;
      MultiplierBelow(62, n, d, half);
      Powers();
      TimesAtLeast(n, Pow2(62));
      CancelTimes(half - 1, 0x7FFF_FFFF, d);
    }
  }

  /** As long as the threshold is not reached, the next multiplier is computed without wrapping. */
  lemma NextFits(s: nat, n: nat, d: nat, half: nat)
    requires s <= 62 && 0 < n <= 0x8000_0000 && 0 < d <= 0x8000_0000 && 0 < half <= 0x8000_0000
    requires s > 0 ==> Fmul(s - 1, n, d) < half
    ensures Pow2(s) * n + d - 1 < WORD && Pow2(s) < WORD
  {
    hide Pow2, Fmul;
    if s > 0 {
      MultiplierBelow(s - 1, n, d, half);
      CancelTimes(half - 1, 0x7FFF_FFFF, d);
    } else {
      assert Pow2(0) == 1 by { PowZero(); }
    }
    PowMono(s, 62);
    Powers();
  }

  lemma PowZero()
    ensures Pow2(0) == 1
  {}

  /** Searches upward for the shift; the search ends, and no intermediate result wraps. */
  method Fmuls(b: nat, n: nat, d: nat) returns (s: nat)
    requires 0 < b <= 32 && 0 < n <= 0x8000_0000 && 0 < d <= 0x8000_0000
    ensures s <= 62 && IsShift(s, Pow2(b - 1), n, d) && Fmul64(s, n, d) == Fmul(s, n, d)
  {
    hide Fmul, Fmul64, Pow2;
    ghost var half := Pow2(b - 1);
    PowMono(b - 1, 31);
    Powers();
    s := 0;
    while true
      invariant s <= 62 && forall t: nat :: t < s ==> Fmul(t, n, d) < half
      decreases 62 - s
    {
      NextFits(s, n, d, half);
      Fmul64Exact(s, n, d);
      var m := Fmul64(s, n, d);
      if m >= Pow2(b - 1) { return; }
      EnoughShift(n, d, half);
      s := s + 1;
    }
  }

  /** The multiplier has exactly 32 bits. */
  lemma MultiplierRange(s: nat, n: nat, d: nat)
    requires d > 0 && IsShift(s, 0x8000_0000, n, d) && Fmul(0, n, d) < 0x8000_0000
    ensures 0x8000_0000 <= Fmul(s, n, d) < 0x1_0000_0000
  {
    hide Fmul, Pow2;
    MultiplierBelow(s - 1, n, d, 0x8000_0000);
    FmulIs(s, n, d);
    CeilParts(Pow2(s) * n, d);
    assert 2 * (0x7FFF_FFFF * d) + d == 0xFFFF_FFFF * d;
    CancelLess(Fmul(s, n, d), 0xFFFF_FFFF, d);
  }

  // ---------- one set of constants ----------

  datatype Triple = Triple(mul: nat, adj: nat, shr: nat)

  /** The conversion x -> x n / d by t, rounding down and up, for every x that the shift admits. */
  ghost predicate Converts(t: Triple, n: nat, d: nat)
    requires n > 0 && d > 0
  {
    forall x: nat :: x * Numerator(n, d) <= 0x7FFF_FFFF ==>
      (x * t.mul) / Pow2(t.shr) == (x * n) / d && (x * t.mul + t.adj) / Pow2(t.shr) == CeilDiv(x * n, d)
  }

  /** n in lowest terms. */
  function Numerator(n: nat, d: nat): nat
    requires n > 0 && d > 0
  {
    ReducedPositive(n, d);
    n / Gcd(n, d)
  }

  lemma ShiftAdmits(s: nat, n: nat, d: nat, g: nat, p: nat, q: nat, x: nat)
    requires g > 0 && n == p * g && d == q * g && p > 0 && q > 0 && d > 0
    requires Fmul(s, n, d) >= 0x8000_0000 && x * p <= 0x7FFF_FFFF
    ensures x * (q - 1) < Pow2(s)
  {
    hide Fmul, Pow2;
    MultiplierAtLeast(s, n, d, 0x8000_0000);
    var w := Pow2(s);
    assert (w * p) * g > (0x7FFF_FFFF * q) * g by { assert w * (p * g) == (w * p) * g; assert 0x7FFF_FFFF * (q * g) == (0x7FFF_FFFF * q) * g; }
    CancelLess(0x7FFF_FFFF * q, w * p, g);
    CancelTimes(x * p, 0x7FFF_FFFF, q);
    assert (x * p) * q == (x * q) * p;
    CancelLess(x * q, w, p);
    assert x * q == x * (q - 1) + x;
  }

  /** Multiplier, rounding term and shift work for every x up to (2^31 - 1) gcd(n, d) / n. */
  lemma ConvertsAll(t: Triple, n: nat, d: nat)
    requires n > 0 && d > 0 && IsShift(t.shr, 0x8000_0000, n, d) && t.mul == Fmul(t.shr, n, d) && t.adj == Fadj(t.shr, n, d)
    ensures Converts(t, n, d)
  {
    hide Fmul, Pow2, Gcd, Fadj;
    var g, p, q := Lowest(n, d);
    forall x: nat | x * p <= 0x7FFF_FFFF
      ensures (x * t.mul) / Pow2(t.shr) == (x * n) / d && (x * t.mul + t.adj) / Pow2(t.shr) == CeilDiv(x * n, d)
    {
      ShiftAdmits(t.shr, n, d, g, p, q, x);
      FloorExact(t.shr, n, d, g, p, q, x);
      CeilExact(t.shr, n, d, g, p, q, x);
    }
  }

  /** What is computed for one pair. */
  ghost predicate ConstantsFor(t: Triple, n: nat, d: nat)
    requires n > 0 && d > 0
  {
    && t.shr <= 62 && IsShift(t.shr, 0x8000_0000, n, d)
    && t.mul == Fmul(t.shr, n, d) && t.adj == Fadj64(t.shr, n, d)
  }

  ghost predicate Fits(s: nat, n: nat, d: nat)
    requires n > 0 && d > 0
  {
    Pow2(s) * (Reduced(n, d) - 1) < WORD
  }

  method FadjMethod(b: nat, n: nat, d: nat) returns (v: nat)
    requires b < 64 && n > 0 && d > 0
    ensures v == Fadj64(b, n, d)
  {
    hide Pow2, W, Mul64, FloorDiv, Gcd;
    var g := GcdLoop(n, d);
    ReducedPositive(n, d);
    var q := d / g;
    v := FloorDiv(Mul64(W(Pow2(b)), W(q - 1)), q);
  }

  method Constants(n: nat, d: nat) returns (t: Triple)
    requires 0 < n <= 0x8000_0000 && 0 < d <= 0x8000_0000
    ensures ConstantsFor(t, n, d)
  {
    hide Fmul, Pow2, Fmul64, Fadj64, IsShift;
    Powers();
    var s := Fmuls(32, n, d);
    var adj := FadjMethod(s, n, d);
    t := Triple(Fmul64(s, n, d), adj, s);
  }

  // ---------- when nothing overflows ----------

  /** A shift for n and d bounds the power of two from both sides. */
  lemma ShiftBounds(s: nat, n: nat, d: nat)
    requires n > 0 && d > 0 && IsShift(s, 0x8000_0000, n, d)
    ensures Pow2(s) * n > 0x7FFF_FFFF * d && (s > 0 ==> Pow2(s) * n <= 0xFFFF_FFFE * d)
  {
    hide Fmul, Pow2;
    MultiplierAtLeast(s, n, d, 0x8000_0000);
    if s > 0 { MultiplierBelow(s - 1, n, d, 0x8000_0000); }
  }

  lemma ReducedAtMost(n: nat, d: nat)
    requires n > 0 && d > 0
    ensures Reduced(n, d) <= d
  {
    hide Gcd;
    var g, p, q := Lowest(n, d);
    if g > 1 { TimesAtLeast(g, q); }
  }

  /** The milliseconds-per-tick and microseconds-per-tick pairs never overflow. */
  lemma ToSecondsFits(s: nat, n: nat, hz: nat)
    requires n == 1000 || n == 1000000
    requires 0 < hz <= 2000000 && IsShift(s, 0x8000_0000, n, hz)
    ensures Fits(s, n, hz)
  {
    hide Fmul, Pow2, Reduced, IsShift;
    var w, q := Pow2(s), Reduced(n, hz);
    ShiftBounds(s, n, hz);
    ReducedAtMost(n, hz);
    PowZero();
    CancelTimes(q - 1, hz, w);
    assert (q - 1) * w == w * (q - 1);
    if s > 0 {
      CancelTimes(w * 1000, 0xFFFF_FFFE * hz, hz);
      CancelTimes(hz, 2000000, hz);
      assert (w * 1000) * hz == 1000 * (hz * w);
      assert (0xFFFF_FFFE * hz) * hz == 0xFFFF_FFFE * (hz * hz);
    }
  }

  /** Nor does the ticks-per-millisecond pair. */
  lemma FromMillisFits(s: nat, hz: nat)
    requires hz > 0 && IsShift(s, 0x8000_0000, hz, 1000)
    ensures Fits(s, hz, 1000)
  {
    hide Fmul, Pow2, Reduced, IsShift;
    var w, q := Pow2(s), Reduced(hz, 1000);
    ShiftBounds(s, hz, 1000);
    ReducedAtMost(hz, 1000);
    PowZero();
    CancelTimes(q - 1, 999, w);
    assert (q - 1) * w == w * (q - 1);
    TimesAtLeast(hz, w);
  }

  /** The shift of the ticks-per-microsecond pair, for hz between lo and hi. */
  lemma ShiftIs(s: nat, hz: nat, lo: nat, hi: nat, k: nat)
    requires 0 < lo <= hz <= hi && IsShift(s, 0x8000_0000, hz, 1000000) && k > 0
    requires Pow2(k - 1) * hi <= 0x7FFF_FFFF * 1000000 && Pow2(k + 1) * lo > 0xFFFF_FFFE * 1000000
    ensures s == k
  {
    hide Fmul, Pow2, IsShift;
    ShiftBounds(s, hz, 1000000);
    CancelTimes(lo, hz, Pow2(k + 1));
    CancelTimes(hz, hi, Pow2(k - 1));
    if s < k {
      PowMono(s, k - 1);
      CancelTimes(Pow2(s), Pow2(k - 1), hz);
    }
    if s > k {
      PowMono(k + 1, s);
      CancelTimes(Pow2(k + 1), Pow2(s), hz);
    }
  }

  /** For large hz the shift is small enough. */
  lemma ShiftAtMost(s: nat, hz: nat)
    requires hz >= 123 && IsShift(s, 0x8000_0000, hz, 1000000)
    ensures s <= 44
  {
    hide Fmul, Pow2, IsShift;
    ShiftBounds(s, hz, 1000000);
    Powers();
    CancelTimes(123, hz, Pow2(45));
    if s >= 45 {
      PowMono(45, s);
      CancelTimes(Pow2(45), Pow2(s), hz);
    }
  }

  /** What the greatest common divisor with 10^6 can be. */
  lemma GcdMillion(hz: nat) returns (g: nat, k: nat, q: nat)
    requires hz > 0
    ensures g == Gcd(hz, 1000000) > 0 && hz == k * g && 1000000 == q * g && k > 0 && q == Reduced(hz, 1000000)
    ensures hz % 2 == 0 ==> g % 2 == 0
    ensures hz % 4 == 0 ==> g % 4 == 0
    ensures hz % 25 == 0 ==> g % 25 == 0
  {
    hide Gcd;
    g, k, q := Lowest(hz, 1000000);
    GcdGreatest(hz, 1000000);
    if hz % 2 == 0 { CommonDivisor(hz, 2); }
    if hz % 4 == 0 { CommonDivisor(hz, 4); }
    if hz % 25 == 0 { CommonDivisor(hz, 25); }
  }

  lemma CommonDivisor(hz: nat, c: nat)
    requires hz > 0 && c > 0 && hz % c == 0 && 1000000 % c == 0
    ensures Gcd(hz, 1000000) % c == 0
  {
    hide Gcd;
    DivMod(hz, c);
    DivMod(1000000, c);
    assert hz == (hz / c) * c && 1000000 == (1000000 / c) * c;
    assert Divides(c, hz) && Divides(c, 1000000);
    GcdGreatest(hz, 1000000);
    var x: nat :| Gcd(hz, 1000000) == x * c;
    QuotientIs(x * c, c, x, 0);
  }

  /** A divisor and its cofactor. */
  lemma Threshold(g: nat, q: nat, c: nat)
    requires q * g == 1000000 && c > 0
    ensures g >= c ==> q * c <= 1000000
    ensures g < c ==> q * (c - 1) >= 1000000
  {
    if g >= c { CancelTimes(c, g, q); } else { CancelTimes(g, c - 1, q); }
    assert c * q == q * c && g * q == q * g && (c - 1) * q == q * (c - 1);
  }

  /** Divisors of 10^6 below eight, for hz between 16 and 30. */
  lemma SmallDivisor(hz: nat, g: nat, k: nat, q: nat)
    requires 16 <= hz <= 30 && hz == k * g && 1000000 == q * g && 0 < g < 8
    requires (hz % 2 == 0 ==> g % 2 == 0) && (hz % 4 == 0 ==> g % 4 == 0) && (hz % 25 == 0 ==> g % 25 == 0)
    ensures hz * g < 122
  {
    if g == 5 {
      assert hz == 5 * k && (k == 4 || k == 5 || k == 6);
    } else if g == 4 {
      assert hz == 4 * k && k <= 7;
    } else {
      assert g == 1 || g == 2 by { OtherDivisors(g, q); }
    }
  }

  lemma OtherDivisors(g: nat, q: nat)
    requires 1000000 == q * g
    ensures g != 3 && g != 6 && g != 7 && g != 12 && g != 13 && g != 14 && g != 15
  {}

  lemma SmallHz(hz: nat, g: nat, k: nat, q: nat)
    requires 2 <= hz <= 15 && hz == k * g && 1000000 == q * g && k > 0
    ensures hz * g < 122 && g <= hz
  {
    TimesAtLeast(k, g);
    if hz >= 12 {
      OtherDivisors(g, q);
      if k >= 2 {
        CancelTimes(2, k, g);
        CancelTimes(g, 7, hz);
        assert g * hz == hz * g;
      }
    } else {
      CancelTimes(g, hz, hz);
      CancelTimes(hz, 11, hz);
      assert g * hz == hz * g;
    }
  }

  /** The ticks-per-microsecond pair overflows exactly if hz is small and has little in common with 10^6. */
  lemma FromMicrosFits(s: nat, hz: nat)
    requires hz >= 2 && IsShift(s, 0x8000_0000, hz, 1000000)
    ensures Fits(s, hz, 1000000) <==> hz * Gcd(hz, 1000000) >= 122
  {
    hide Fmul, Pow2, Reduced, IsShift, Gcd;
    var g, k, q := GcdMillion(hz);
    Powers();
    if hz >= 122 {
      LargeHzFits(s, hz);
      TimesAtLeast(g, hz);
    } else if hz >= 62 {
      ShiftIs(s, hz, 62, 121, 45);
      Threshold(g, q, 2);
      if g >= 2 { CancelTimes(2, g, hz); }
    } else if hz >= 31 {
      ShiftIs(s, hz, 31, 61, 46);
      Threshold(g, q, 4);
      OtherDivisors(g, q);
      if g >= 4 { CancelTimes(4, g, hz); } else { assert g == 1 || g == 2; }
    } else if hz >= 16 {
      ShiftIs(s, hz, 16, 30, 47);
      Threshold(g, q, 8);
      if g >= 8 { CancelTimes(8, g, hz); } else { SmallDivisor(hz, g, k, q); }
    } else {
      if hz >= 8 {
        ShiftIs(s, hz, 8, 15, 48);
      } else if hz >= 4 {
        ShiftIs(s, hz, 4, 7, 49);
      } else {
        ShiftIs(s, hz, 2, 3, 50);
      }
      SmallHz(hz, g, k, q);
      Threshold(g, q, hz + 1);
      SmallHzCofactor(hz, q);
    }
  }

  lemma SmallHzCofactor(hz: nat, q: nat)
    requires 2 <= hz <= 15 && q * hz >= 1000000
    ensures q > 66666 && (hz <= 7 ==> q > 142857)
  {
    CancelTimes(hz, 15, q);
    if hz <= 7 { CancelTimes(hz, 7, q); }
  }

  lemma LargeHzFits(s: nat, hz: nat)
    requires hz >= 122 && IsShift(s, 0x8000_0000, hz, 1000000)
    ensures Fits(s, hz, 1000000)
  {
    hide Fmul, Pow2, Reduced, IsShift, Gcd;
    var g, k, q := GcdMillion(hz);
    Powers();
    if hz == 122 {
      ShiftIs(s, hz, 122, 122, 45);
      Threshold(g, q, 2);
    } else {
      ShiftAtMost(s, hz);
      PowMono(s, 44);
      ReducedAtMost(hz, 1000000);
      CancelTimes(q - 1, 999999, Pow2(s));
      assert (q - 1) * Pow2(s) == Pow2(s) * (q - 1);
    }
  }

  // ---------- the whole table ----------

  /** The sets of constants for milliseconds and microseconds, and the three ratios, as they are printed. */
  datatype Table = Table(toMillis: Triple, fromMillis: Triple, toMicros: Triple, fromMicros: Triple, ratios: seq<nat>)

  /** Numerator and denominator of a ratio, printed once in each direction. */
  function Ratio(hz: nat, n: nat): seq<nat>
    requires hz > 0 && n > 0
  {
    ReducedPositive(hz, n);
    var g := Gcd(hz, n);
    [n / g, hz / g, hz / g, n / g]
  }

  /** The printed ratios are those of n to hz and of hz to n, in lowest terms. */
  lemma RatioRight(hz: nat, n: nat, c: nat)
    requires hz > 0 && n > 0
    ensures var r := Ratio(hz, n);
      && r[0] * hz == r[1] * n && r[2] * n == r[3] * hz && r[0] == r[3] > 0 && r[1] == r[2] > 0
      && (Divides(c, r[0]) && Divides(c, r[1]) ==> c == 1)
  {
    ReducedPositive(hz, n);
    GcdGreatest(hz, n);
    var g := Gcd(hz, n);
    ExactParts(n, g);
    ExactParts(hz, g);
    var p, q := n / g, hz / g;
    hide Gcd;
    assert p * (q * g) == q * (p * g);
    if q <= 0 { TimesAtMostZero(q, g); }
    if Divides(c, p) && Divides(c, q) {
      DividesScaled(c, p, g);
      DividesScaled(c, q, g);
      var k: nat :| g == k * (c * g);
      OneFactor(k, c, g);
    }
  }

  lemma DividesScaled(c: nat, p: nat, g: nat)
    requires Divides(c, p)
    ensures Divides(c * g, p * g)
  {
    var a: nat :| p == a * c;
    assert (a * c) * g == a * (c * g);
  }

  lemma OneFactor(k: nat, c: nat, g: nat)
    requires g > 0 && g == k * (c * g)
    ensures c == 1
  {
    var x := k * c;
    FactorOut(k, c, g);
    CancelAtMost(x, 1, g);
    CancelAtMost(1, x, g);
    if k >= 1 && c >= 1 { TimesAtLeast(k, c); }
  }

  lemma FactorOut(k: int, c: int, g: int)
    ensures k * (c * g) == (k * c) * g
  {}

  lemma ExactParts(n: nat, g: nat)
    requires g > 0 && Divides(g, n)
    ensures n == (n / g) * g
  {
    var q: nat :| n == q * g;
    QuotientIs(n, g, q, 0);
  }

  method Ratios(hz: nat, n: nat) returns (r: seq<nat>)
    requires hz > 0 && n > 0
    ensures r == Ratio(hz, n)
  {
    ReducedPositive(hz, n);
    var cd := GcdLoop(hz, n);
    r := [n / cd, hz / cd, hz / cd, n / cd];
  }

  method Timeconst(hz: nat) returns (t: Table)
    requires 2 <= hz <= 2000000
    ensures ConstantsFor(t.toMillis, 1000, hz) && ConstantsFor(t.fromMillis, hz, 1000)
    ensures ConstantsFor(t.toMicros, 1000000, hz) && ConstantsFor(t.fromMicros, hz, 1000000)
    ensures t.ratios == Ratio(hz, 1000) + Ratio(hz, 1000000) + Ratio(hz, 1000000000)
  {
    hide ConstantsFor, Ratio;
    var a := Constants(1000, hz);
    var b := Constants(hz, 1000);
    var r1 := Ratios(hz, 1000);
    var c := Constants(1000000, hz);
    var d := Constants(hz, 1000000);
    var r2 := Ratios(hz, 1000000);
    var r3 := Ratios(hz, 1000000000);
    t := Table(a, b, c, d, r1 + r2 + r3);
  }

  /** One direction of a pair: if the product fits, the printed constants convert exactly. */
  lemma FitsConverts(t: Triple, n: nat, d: nat)
    requires 0 < n && 0 < d < WORD && ConstantsFor(t, n, d)
    ensures Fits(t.shr, n, d) <==> t.adj == Fadj(t.shr, n, d)
    ensures Fits(t.shr, n, d) ==> Converts(t, n, d)
  {
    hide Fmul, Pow2, Fadj, Fadj64, Reduced, Gcd, IsShift, Converts;
    PowMono(t.shr, 62);
    Powers();
    Fadj64Exact(t.shr, n, d);
    if Fits(t.shr, n, d) { ConvertsAll(t, n, d); }
  }

  // ---------- where the product does not fit ----------

  /** The greatest common divisor is a combination of the two numbers. */
  lemma {:induction false} Bezout(a: nat, b: nat) returns (u: int, v: int)
    ensures u * a + v * b == Gcd(a, b)
    decreases b
  {
    if b == 0 {
      u, v := 1, 0;
    } else {
      var x, y := Bezout(b, a % b);
      DivMod(a, b);
      u, v := y, x - y * (a / b);
      Combine(a, b, a / b, a % b, x, y);
    }
  }

  lemma Combine(a: int, b: int, q: int, r: int, x: int, y: int)
    requires a == q * b + r
    ensures y * a + (x - y * q) * b == x * b + y * r
  {
    assert y * (q * b + r) == (y * q) * b + y * r;
    assert (x - y * q) * b == x * b - (y * q) * b;
  }

  /** A number that times the numerator leaves remainder 1. */
  lemma Inverse(n: nat, d: nat, g: nat, p: nat, q: nat) returns (x: nat)
    requires g == Gcd(n, d) > 0 && n == p * g && d == q * g && q > 1
    ensures x < q && (x * p) % q == 1
  {
    hide Gcd;
    var u, v := Bezout(n, d);
    CombineLowest(u, v, p, q, g);
    DivMod(u, q);
    x := u % q;
    var z := -v - u / q * p;
    InverseParts(u, v, p, q, u / q, x);
    QuotientIs(x * p, q, z, 1);
  }

  lemma CombineLowest(u: int, v: int, p: int, q: int, g: nat)
    requires u * (p * g) + v * (q * g) == g > 0
    ensures u * p + v * q == 1
  {
    var c := u * p + v * q;
    assert c * g == u * (p * g) + v * (q * g);
    CancelAtMost(c, 1, g);
    CancelAtMost(1, c, g);
  }

  lemma InverseParts(u: int, v: int, p: int, q: int, h: int, x: int)
    requires u * p + v * q == 1 && u == h * q + x
    ensures x * p == (-v - h * p) * q + 1
  {
    assert (h * q + x) * p == (h * p) * q + x * p;
    assert (-v - h * p) * q == -(v * q) - (h * p) * q;
  }

  /** If the product wraps, an argument whose quotient leaves remainder 1 is not rounded up. */
  lemma NotRoundedUp(w: nat, m: nat, p: nat, q: nat, r: nat, x: nat, k: nat, adj: nat)
    requires w > 0 && m * q == w * p + r && r < q && x < q && x * p == k * q + 1 && 1 < q <= 1000000 && w * (q - 1) >= WORD
    requires adj == W(w * (q - 1)) / q
    ensures (x * m + adj) / w < k + 1
  {
    var y := w * (q - 1);
    DivMod(y, WORD);
    TimesAtLeast(y / WORD, WORD);
    DivMod(W(y), q);
    Excess(w, m, p, q, r, x, k, 1);
    SmallProduct(x, r, q);
    var e := x * m - w * k;
    Spread(e, adj, q);
    TimesLess(w, q);
    CancelLess(e + adj, w, q);
    assert x * m + adj < w * k + w;
    DivMod(x * m + adj, w);
    var z := (x * m + adj) / w;
    assert (k + 1) * w == w * k + w;
    CancelLess(z, k + 1, w);
  }

  lemma Spread(e: int, a: int, q: int)
    ensures (e + a) * q == e * q + a * q
  {}

  lemma SmallProduct(x: nat, r: nat, q: nat)
    requires x < q && r < q <= 1000000
    ensures 0 <= x * r < 1000000000000
  {
    CancelTimes(x, 999999, r);
    CancelTimes(0, x, r);
  }

  /** Small numerators and no common factor to speak of: rounding up fails for some argument in the promised range. */
  lemma WrapFails(t: Triple, hz: nat)
    requires 2 <= hz <= 121 && ConstantsFor(t, hz, 1000000) && !Fits(t.shr, hz, 1000000)
    ensures !Converts(t, hz, 1000000)
  {
    hide Gcd, Pow2, Fmul;
    var g, p, q := Lowest(hz, 1000000);
    var w := Pow2(t.shr);
    PowMono(t.shr, 62);
    Powers();
    WSmall(w);
    TimesAtMost(g, p, q, hz);
    WSmall(q - 1);
    var x := Inverse(hz, 1000000, g, p, q);
    var r := MultiplierRest(t.shr, hz, 1000000, g, p, q);
    var k, rem := RatioParts(x, hz, 1000000, g, p, q);
    QuotientIs(x * p, q, k, rem);
    NotRoundedUp(w, t.mul, p, q, r, x, k, t.adj);
    CancelTimes(x, 1000000, p);
    assert x * Numerator(hz, 1000000) <= 0x7FFF_FFFF;
    assert (x * t.mul + t.adj) / Pow2(t.shr) != CeilDiv(x * hz, 1000000);
  }

  lemma TimesAtMost(g: nat, p: nat, q: nat, hz: nat)
    requires g > 0 && hz == p * g && 1000000 == q * g
    ensures p <= hz && q <= 1000000
  {
    CancelTimes(1, g, p);
    CancelTimes(1, g, q);
    assert g * p == p * g && g * q == q * g;
  }

  /** The table is right in three conversions, and in the fourth exactly if hz is large enough or has enough in common with 10^6. */
  lemma TableRight(t: Table, hz: nat)
    requires 2 <= hz <= 2000000
    requires ConstantsFor(t.toMillis, 1000, hz) && ConstantsFor(t.fromMillis, hz, 1000)
    requires ConstantsFor(t.toMicros, 1000000, hz) && ConstantsFor(t.fromMicros, hz, 1000000)
    ensures Converts(t.toMillis, 1000, hz) && Converts(t.fromMillis, hz, 1000) && Converts(t.toMicros, 1000000, hz)
    ensures Converts(t.fromMicros, hz, 1000000) <==> hz * Gcd(hz, 1000000) >= 122
  {
    assert IsShift(t.toMillis.shr, 0x8000_0000, 1000, hz) && IsShift(t.fromMillis.shr, 0x8000_0000, hz, 1000);
    assert IsShift(t.toMicros.shr, 0x8000_0000, 1000000, hz) && IsShift(t.fromMicros.shr, 0x8000_0000, hz, 1000000);
    hide Fmul, Pow2, Fadj, Fadj64, Reduced, Gcd, IsShift, Converts, Fits, ConstantsFor;
    ToSecondsFits(t.toMillis.shr, 1000, hz);
    FromMillisFits(t.fromMillis.shr, hz);
    ToSecondsFits(t.toMicros.shr, 1000000, hz);
    FromMicrosFits(t.fromMicros.shr, hz);
    FitsConverts(t.toMillis, 1000, hz);
    FitsConverts(t.fromMillis, hz, 1000);
    FitsConverts(t.toMicros, 1000000, hz);
    FitsConverts(t.fromMicros, hz, 1000000);
    if hz * Gcd(hz, 1000000) < 122 {
      GcdAtLeastOne(hz);
      CancelTimes(1, Gcd(hz, 1000000), hz);
      WrapFails(t.fromMicros, hz);
    }
  }

  lemma GcdAtLeastOne(hz: nat)
    requires hz > 0
    ensures Gcd(hz, 1000000) >= 1
  {
    GcdGreatest(hz, 1000000);
  }
}
