/** Reciprocal multiplication: multiplying by a scaled reciprocal and shifting divides exactly, up to a bound. */
module BcExact {
  import opened Numbers

  function CeilDiv(a: nat, d: nat): nat
    requires d > 0
  {
    (a + d - 1) / d
  }

  /** The multiplier: 2^b * n / d, rounded up. */
  function Fmul(b: nat, n: nat, d: nat): nat
    requires d > 0
  {
    CeilDiv(Pow2(b) * n, d)
  }

  // ---------- greatest common divisor ----------

  function Gcd(a: nat, b: nat): nat
    decreases b
  {
    if b == 0 then a else Gcd(b, a % b)
  }

  ghost predicate Divides(g: nat, x: nat) { exists q: nat :: x == q * g }

  lemma DividesSum(g: nat, x: nat, y: nat, k: nat)
    requires Divides(g, x) && Divides(g, y)
    ensures Divides(g, k * x + y)
  {
    var p: nat :| x == p * g;
    var q: nat :| y == q * g;
    assert k * x + y == (k * p + q) * g by { assert k * (p * g) == (k * p) * g; }
  }

  lemma DividesRest(g: nat, x: nat, y: nat, k: nat)
    requires Divides(g, x) && Divides(g, y) && k * x <= y
    ensures Divides(g, y - k * x)
  {
    var p: nat :| x == p * g;
    var q: nat :| y == q * g;
    assert y - k * x == (q - k * p) * g by { assert k * (p * g) == (k * p) * g; }
    if q < k * p { assert (q - k * p) * g <= 0; assert y - k * x == 0 * g; }
  }

  /** Euclid's algorithm yields a common divisor, and every common divisor divides it. */
  lemma {:induction false} GcdGreatest(a: nat, b: nat)
    ensures Divides(Gcd(a, b), a) && Divides(Gcd(a, b), b)
    ensures forall c: nat :: Divides(c, a) && Divides(c, b) ==> Divides(c, Gcd(a, b))
    ensures a + b > 0 ==> Gcd(a, b) > 0
    decreases b
  {
    if b == 0 {
      assert a == 1 * a && b == 0 * a;
    } else {
      GcdGreatest(b, a % b);
      DivMod(a, b);
      DividesSum(Gcd(a, b), b, a % b, a / b);
      forall c: nat | Divides(c, a) && Divides(c, b) ensures Divides(c, Gcd(a, b)) { DividesRest(c, b, a, a / b); }
    }
  }

  /** n and d in lowest terms. */
  lemma Lowest(n: nat, d: nat) returns (g: nat, p: nat, q: nat)
    requires n > 0 && d > 0
    ensures g == Gcd(n, d) > 0 && n == p * g && d == q * g && p > 0 && q > 0 && p == n / g && q == d / g
  {
    hide Gcd;
    GcdGreatest(n, d);
    g := Gcd(n, d);
    p :| n == p * g;
    q :| d == q * g;
    QuotientIs(n, g, p, 0);
    QuotientIs(d, g, q, 0);
  }

  // ---------- small facts about quotients ----------

  lemma CeilParts(a: nat, d: nat)
    requires d > 0
    ensures a <= CeilDiv(a, d) * d < a + d
  {
    DivMod(a + d - 1, d);
  }

  lemma CeilIs(a: nat, d: nat, m: int)
    requires d > 0 && a <= m * d < a + d
    ensures CeilDiv(a, d) == m
  {
    QuotientIs(a + d - 1, d, m, a + d - 1 - m * d);
  }

  /** The multiplier in lowest terms: M q = 2^b p + r with 0 <= r < q. */
  lemma MultiplierRest(b: nat, n: nat, d: nat, g: nat, p: nat, q: nat) returns (r: nat)
    requires g > 0 && n == p * g && d == q * g && q > 0 && d > 0
    ensures Fmul(b, n, d) * q == Pow2(b) * p + r && r < q
  {
    hide Pow2;
    var m, w := Fmul(b, n, d), Pow2(b);
    CeilParts(w * n, d);
    assert m * (q * g) == (m * q) * g;
    assert w * (p * g) == (w * p) * g;
    assert (m * q) * g < (w * p + q) * g by { assert (w * p + q) * g == (w * p) * g + q * g; }
    CancelAtMost(w * p, m * q, g);
    CancelLess(m * q, w * p + q, g);
    r := m * q - w * p;
  }

  // ---------- exactness ----------

  /** x n / d in lowest terms, rounded down and up. */
  lemma RatioParts(x: nat, n: nat, d: nat, g: nat, p: nat, q: nat) returns (k: nat, t: nat)
    requires g > 0 && n == p * g && d == q * g && q > 0 && d > 0
    ensures x * p == k * q + t && t < q
    ensures (x * n) / d == k && CeilDiv(x * n, d) == if t == 0 then k else k + 1
  {
    k, t := (x * p) / q, (x * p) % q;
    DivMod(x * p, q);
    assert x * (p * g) == (x * p) * g;
    assert (k * q + t) * g == k * (q * g) + t * g by { assert (k * q + t) * g == (k * q) * g + t * g; assert (k * q) * g == k * (q * g); }
    LessTimes(t, q, g);
    QuotientIs(x * n, d, k, t * g);
    if t == 0 {
      CeilIs(x * n, d, k);
    } else {
      assert (k + 1) * d == k * d + d;
      TimesAtLeast(t, g);
      CeilIs(x * n, d, k + 1);
    }
  }

  lemma LessTimes(t: nat, q: nat, g: nat)
    requires t < q && g > 0
    ensures 0 <= t * g < q * g
  {
    assert (q - t) * g > 0;
    Distribute(q, t, g);
  }

  /** The amount by which x times the multiplier exceeds 2^b times the quotient. */
  lemma Excess(w: nat, m: nat, p: nat, q: nat, r: nat, x: nat, k: nat, t: nat)
    requires m * q == w * p + r && x * p == k * q + t
    ensures (x * m - w * k) * q == w * t + x * r
  {
    assert (x * m - w * k) * q == x * (m * q) - (w * k) * q;
    assert x * (w * p + r) == w * (x * p) + x * r;
    assert w * (k * q + t) == (w * k) * q + w * t;
  }

  lemma Below(x: nat, r: nat, q: nat, w: nat)
    requires r < q && x * (q - 1) < w
    ensures x * r < w
  {
    TimesNonNegative(x, q - 1 - r);
    AddTimesLeft(x, q - 1 - r, r);
  }

  lemma AddTimesLeft(x: int, a: int, b: int)
    ensures x * (a + b) == x * a + x * b
  {}

  /** Multiply and shift rounds down exactly. */
  lemma FloorExact(b: nat, n: nat, d: nat, g: nat, p: nat, q: nat, x: nat)
    requires g > 0 && n == p * g && d == q * g && q > 0 && d > 0 && x * (q - 1) < Pow2(b)
    ensures (x * Fmul(b, n, d)) / Pow2(b) == (x * n) / d
  {
    hide Pow2, Fmul;
    var w, m := Pow2(b), Fmul(b, n, d);
    var r := MultiplierRest(b, n, d, g, p, q);
    var k, t := RatioParts(x, n, d, g, p, q);
    Excess(w, m, p, q, r, x, k, t);
    Below(x, r, q, w);
    var e := x * m - w * k;
    TopBound(w, q, t);
    assert e * q >= 0 by { assert w * t >= 0 && x * r >= 0; }
    CancelAtMost(0, e, q);
    CancelLess(e, w, q);
    assert w * k == k * w;
    QuotientIs(x * m, w, k, e);
  }

  lemma TopBound(w: nat, q: nat, t: nat)
    requires t < q
    ensures w * t + w <= w * q
  {
    TimesNonNegative(w, q - 1 - t);
    Expand(w, q - 1 - t, t);
  }

  lemma Expand(w: int, a: int, t: int)
    ensures w * (a + t + 1) == w * a + w * t + w
  {}

  /** The rounding term: 2^b * (q - 1) / q, rounded down, where q is d in lowest terms. */
  function Fadj(b: nat, n: nat, d: nat): nat
    requires n > 0 && d > 0
  {
    var q := Reduced(n, d);
    FloorDiv(Times(Pow2(b), q - 1), q)
  }

  function Times(a: nat, b: nat): nat { a * b }

  function FloorDiv(a: nat, d: nat): nat
    requires d > 0
  {
    a / d
  }

  function Reduced(n: nat, d: nat): (q: nat)
    requires n > 0 && d > 0
    ensures q > 0
  {
    ReducedPositive(n, d);
    d / Gcd(n, d)
  }

  lemma ReducedPositive(n: nat, d: nat)
    requires n > 0 && d > 0
    ensures Gcd(n, d) > 0 && d / Gcd(n, d) > 0
  {
    var g, p, q := Lowest(n, d);
  }

  lemma AddTimes(e: int, adj: int, q: int)
    ensures (e + adj) * q == e * q + adj * q
  {}

  lemma TimesLess(w: int, q: int)
    ensures w * (q - 1) == w * q - w
  {}

  /** The carry that rounds up: it is there exactly if the quotient leaves a remainder. */
  lemma RoundUp(w: nat, m: nat, p: nat, q: nat, r: nat, x: nat, k: nat, t: nat, a: nat, adj: nat)
    requires m * q == w * p + r && r < q && x * p == k * q + t && t < q && x * (q - 1) < w
    requires adj * q == w * (q - 1) - a && a < q
    ensures var f := x * m - w * k + adj; if t == 0 then 0 <= f < w else w <= f < 2 * w
  {
    var e, xr, wt, wq := x * m - w * k, x * r, w * t, w * q;
    Excess(w, m, p, q, r, x, k, t);
    Below(x, r, q, w);
    TimesNonNegative(x, r);
    TimesLess(w, q);
    AddTimes(e, adj, q);
    TopBound(w, q, t);
    if t == 0 {
      assert wt == 0;
      CancelAtMost(0, e, q);
      CancelLess(e + adj, w, q);
    } else {
      CarryIn(w, m, p, q, r, x, k, t, a, adj);
      CancelAtMost(w, e + adj, q);
      AddTimes(w, w, q);
      CancelLess(e + adj, 2 * w, q);
    }
  }

  lemma TimesNonNegative(x: nat, r: nat)
    ensures x * r >= 0
  {}

  lemma CarryIn(w: nat, m: nat, p: nat, q: nat, r: nat, x: nat, k: nat, t: nat, a: nat, adj: nat)
    requires m * q == w * p + r && r < q && x * p == k * q + t && 0 < t < q && x * (q - 1) < w
    requires adj * q == w * (q - 1) - a && a < q
    ensures w * t - w + x * r >= a
  {
    TimesNonNegative(x, r);
    if t == 1 {
      CarryOne(w, m, p, q, r, x, k, a, adj);
    } else {
      if x == 0 { NoQuotient(p, k, q, t); }
      TimesAtLeast(x, q - 1);
      TimesAtLeast(t - 1, w);
      TimesLess(w, t);
    }
  }

  lemma NoQuotient(p: nat, k: nat, q: nat, t: nat)
    requires 0 * p == k * q + t
    ensures t == 0
  {
    TimesNonNegative(k, q);
  }

  /** With remainder one, x r leaves the same remainder as a, and cannot be smaller. */
  lemma CarryOne(w: nat, m: nat, p: nat, q: nat, r: nat, x: nat, k: nat, a: nat, adj: nat)
    requires m * q == w * p + r && x * p == k * q + 1 && adj * q == w * (q - 1) - a && a < q
    ensures x * r >= a
  {
    Excess(w, m, p, q, r, x, k, 1);
    TimesNonNegative(x, r);
    TimesLess(w, q);
    var e, z := x * m - w * k, x * m - w * k - w + adj;
    Distribute(e, w, q);
    AddTimes(e - w, adj, q);
    if z < 0 {
      TimesAtLeast(-z, q);
      Distribute(0, z, q);
    }
    if z > 0 { TimesAtLeast(z, q); }
  }

  lemma FadjIs(b: nat, n: nat, d: nat, q: nat)
    requires n > 0 && d > 0 && Gcd(n, d) > 0 && q == d / Gcd(n, d) > 0
    ensures Fadj(b, n, d) == (Pow2(b) * (q - 1)) / q
  {
    hide Gcd, Pow2;
  }

  /** Multiply, add and shift rounds up exactly. */
  lemma CeilExact(b: nat, n: nat, d: nat, g: nat, p: nat, q: nat, x: nat)
    requires n > 0 && d > 0 && g == Gcd(n, d) > 0 && n == p * g && d == q * g && q > 0 && q == d / g && x * (q - 1) < Pow2(b)
    ensures (x * Fmul(b, n, d) + Fadj(b, n, d)) / Pow2(b) == CeilDiv(x * n, d)
  {
    hide Pow2, Fmul, Fadj, Gcd, CeilDiv;
    FadjIs(b, n, d, q);
    var w, m, adj := Pow2(b), Fmul(b, n, d), Fadj(b, n, d);
    var r := MultiplierRest(b, n, d, g, p, q);
    var k, t := RatioParts(x, n, d, g, p, q);
    DivMod(w * (q - 1), q);
    RoundUp(w, m, p, q, r, x, k, t, (w * (q - 1)) % q, adj);
    Shifted(w, x * m, adj, k, t == 0);
  }

  lemma Shifted(w: nat, y: nat, adj: nat, k: nat, even: bool)
    requires w > 0 && var f := y - w * k + adj; if even then 0 <= f < w else w <= f < 2 * w
    ensures (y + adj) / w == if even then k else k + 1
  {
    var f := y - w * k + adj;
    assert w * k == k * w && (k + 1) * w == k * w + w;
    if even { QuotientIs(y + adj, w, k, f); } else { QuotientIs(y + adj, w, k + 1, f - w); }
  }
}
