/** Integer division, remainders and powers of two. */
module Numbers {

  function Pow2(k: nat): (r: nat)
    ensures r > 0
  {
    if k == 0 then 1 else 2 * Pow2(k - 1)
  }

  lemma {:induction false} PowAdd(a: nat, b: nat)
    ensures Pow2(a + b) == Pow2(a) * Pow2(b)
  {
    if a > 0 {
      PowAdd(a - 1, b);
      assert Pow2(a + b) == 2 * Pow2(a - 1 + b);
    }
  }

  lemma {:induction false} PowMono(a: nat, b: nat)
    requires a <= b
    ensures Pow2(a) <= Pow2(b)
    decreases b
  {
    if a < b { PowMono(a, b - 1); }
  }

  lemma Multiple(p: int, q: int)
    requires p > 0
    ensures (p * q) % p == 0
  {
    assert p * q == q * p + 0;
    QuotientIs(p * q, p, q, 0);
  }

  lemma TimesAtLeast(d: int, p: int)
    requires d >= 1 && p >= 1
    ensures d * p >= p
  {
    assert (d - 1) * p >= 0;
  }

  lemma DivMod(x: int, p: int)
    requires p > 0
    ensures x == (x / p) * p + x % p && 0 <= x % p < p
  {}

  lemma Distribute(a: int, b: int, p: int)
    ensures (a - b) * p == a * p - b * p
  {}

  lemma QuotientIs(x: int, p: int, q: int, r: int)
    requires p > 0 && 0 <= r < p && x == q * p + r
    ensures x % p == r && x / p == q
  {
    DivMod(x, p);
    var q', r' := x / p, x % p;
    Distribute(q', q, p);
    Distribute(q, q', p);
    if q' > q { TimesAtLeast(q' - q, p); }
    if q' < q { TimesAtLeast(q - q', p); }
  }

  lemma SameMod(p: int, a: int, b: int)
    requires p > 0
    ensures a % p == b % p <==> (a - b) % p == 0
  {
    var qa, qb := a / p, b / p;
    if a % p == b % p {
      assert a - b == p * (qa - qb);
      Multiple(p, qa - qb);
    }
    if (a - b) % p == 0 {
      var q := (a - b) / p;
      assert a == (qb + q) * p + b % p;
      QuotientIs(a, p, qb + q, b % p);
    }
  }

  lemma TimesAtMostZero(d: int, p: int)
    requires d <= 0 && p >= 0
    ensures d * p <= 0
  {}

  /** e q < b q gives e < b. */
  lemma CancelLess(e: int, b: int, q: int)
    requires q > 0 && e * q < b * q
    ensures e < b
  {
    Distribute(b, e, q);
    if b - e <= 0 { TimesAtMostZero(b - e, q); }
  }

  lemma CancelAtMost(e: int, b: int, q: int)
    requires q > 0 && e * q <= b * q
    ensures e <= b
  {
    if e > b {
      Distribute(e, b, q);
      TimesAtLeast(e - b, q);
    }
  }

  lemma CancelTimes(a: int, b: int, q: nat)
    requires a <= b
    ensures a * q <= b * q
  {
    Distribute(b, a, q);
    assert (b - a) * q >= 0;
  }
}
