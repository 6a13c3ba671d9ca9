/** The perturbed probe sequence of awk's arrays, and why it reaches every cell of the table. */
module AwkProbe {
  import opened Numbers

  // ---------- j -> 5 j + 1 without reduction ----------

  /** n applications of j -> 5 j + 1. */
  function Iterate(n: nat, x: int): int {
    if n == 0 then x else 5 * Iterate(n - 1, x) + 1
  }

  /** The orbit of zero: n applications to x yield x + Sum(n) * (4 x + 1). */
  function Sum(n: nat): nat { if n == 0 then 0 else 5 * Sum(n - 1) + 1 }

  lemma {:induction false} IterateSum(n: nat, x: int)
    ensures Iterate(n, x) == x + Sum(n) * (4 * x + 1)
  {
    if n > 0 {
      IterateSum(n - 1, x);
      calc {
        5 * (x + Sum(n - 1) * (4 * x + 1)) + 1;
        x + (4 * x + 1) + 5 * (Sum(n - 1) * (4 * x + 1));
        x + (5 * Sum(n - 1) + 1) * (4 * x + 1);
      }
    }
  }

  lemma {:induction false} IterateAdd(n: nat, k: nat, x: int)
    ensures Iterate(n + k, x) == Iterate(k, Iterate(n, x))
  {
    if k > 0 {
      IterateAdd(n, k - 1, x);
      assert n + k - 1 == n + (k - 1);
    }
  }

  lemma SumAdd(n: nat, k: nat)
    ensures Sum(n + k) == Sum(n) + Sum(k) * (4 * Sum(n) + 1)
  {
    IterateAdd(n, k, 0);
    IterateSum(n + k, 0);
    IterateSum(n, 0);
    IterateSum(k, Sum(n));
  }

  lemma {:induction false} SumParity(n: nat)
    ensures Sum(n) % 2 == n % 2
  {
    if n > 0 { SumParity(n - 1); }
  }

  lemma Twice(s: nat)
    ensures s + s * (4 * s + 1) == 2 * (s * (2 * s + 1))
  {
    var q := s * s;
    assert s * (4 * s + 1) == 4 * q + s;
    assert s * (2 * s + 1) == 2 * q + s;
  }

  lemma SumDouble(n: nat)
    ensures Sum(2 * n) == 2 * (Sum(n) * (2 * Sum(n) + 1))
  {
    hide Sum;
    SumAdd(n, n);
    Twice(Sum(n));
  }

  // ---------- divisibility by powers of two ----------

  predicate Divides(k: nat, x: int) { x % Pow2(k) == 0 }

  lemma DividesTwice(k: nat, x: int)
    ensures Divides(k + 1, 2 * x) <==> Divides(k, x)
  {
    var p := Pow2(k);
    if x % p == 0 {
      assert 2 * x == (2 * p) * (x / p);
      Multiple(2 * p, x / p);
    }
    if (2 * x) % (2 * p) == 0 {
      assert 2 * x == (2 * p) * ((2 * x) / (2 * p));
      assert x == p * ((2 * x) / (2 * p));
      Multiple(p, (2 * x) / (2 * p));
    }
  }

  /** An odd factor does not matter. */
  lemma {:induction false} DividesOdd(k: nat, x: int, c: int)
    requires c % 2 == 1
    ensures Divides(k, x * c) <==> Divides(k, x)
  {
    if k > 0 {
      EvenProduct(x, c);
      if x % 2 == 0 {
        var h := x / 2;
        assert x == 2 * h && x * c == 2 * (h * c);
        DividesTwice(k - 1, h);
        DividesTwice(k - 1, h * c);
        DividesOdd(k - 1, h, c);
      } else {
        OddNotDivisible(k, x);
        OddNotDivisible(k, x * c);
      }
    }
  }

  lemma EvenProduct(x: int, c: int)
    requires c % 2 == 1
    ensures (x * c) % 2 == x % 2
  {
    var h := c / 2;
    assert c == 2 * h + 1;
    assert x * c == 2 * (x * h) + x;
  }

  lemma OddNotDivisible(k: nat, x: int)
    requires k > 0 && x % 2 == 1
    ensures !Divides(k, x)
  {
    var p := Pow2(k - 1);
    var q := x / (2 * p);
    DivMod(x, 2 * p);
    assert q * (2 * p) == 2 * (q * p);
  }

  /** The heart of the matter: 2^k divides the n-th orbit element of zero exactly if it divides n. */
  lemma {:induction false} SumDivides(k: nat, n: nat)
    ensures Divides(k, Sum(n)) <==> Divides(k, n)
    decreases k
  {
    if k > 0 {
      SumParity(n);
      if n % 2 == 1 {
        OddNotDivisible(k, n);
        OddNotDivisible(k, Sum(n));
      } else {
        var h := n / 2;
        SumDouble(h);
        SumDivides(k - 1, h);
        DividesTwice(k - 1, h);
        DividesOdd(k - 1, Sum(h), 2 * Sum(h) + 1);
        DividesTwice(k - 1, Sum(h) * (2 * Sum(h) + 1));
        assert n == 2 * h;
      }
    }
  }

  // ---------- one cycle through all residues ----------

  function Cycle(k: nat, n: nat, x: int): (r: int)
    ensures 0 <= r < Pow2(k)
  {
    Iterate(n, x) % Pow2(k)
  }

  /** Two iterates agree modulo 2^k exactly if their numbers do: no cell repeats within a cycle. */
  lemma CycleOnce(k: nat, i: nat, d: nat, x: int)
    ensures Cycle(k, i + d, x) == Cycle(k, i, x) <==> Divides(k, d)
  {
    hide Sum, Iterate;
    var y := Iterate(i, x);
    IterateAdd(i, d, x);
    IterateSum(d, y);
    SameMod(Pow2(k), Iterate(i + d, x), y);
    DividesOdd(k, Sum(d), 4 * y + 1);
    SumDivides(k, d);
  }

  /** Every residue is reached within one cycle of 2^k steps. */
  lemma {:induction false} CycleReaches(k: nat, x: int, y: int) returns (i: nat)
    requires 0 <= y < Pow2(k)
    ensures i < Pow2(k) && Cycle(k, i, x) == y
    decreases k
  {
    if k == 0 {
      i := 0;
    } else {
      hide Iterate, Sum;
      var p := Pow2(k - 1);
      DivMod(y, p);
      i := CycleReaches(k - 1, x, y % p);
      if Iterate(i, x) % (2 * p) != y {
        OtherHalf(k - 1, i, x, y);
        i := i + p;
      }
    }
  }

  lemma OtherHalf(k: nat, i: nat, x: int, y: int)
    requires 0 <= y < 2 * Pow2(k) && Iterate(i, x) % Pow2(k) == y % Pow2(k) && Iterate(i, x) % (2 * Pow2(k)) != y
    ensures Iterate(i + Pow2(k), x) % (2 * Pow2(k)) == y
  {
    hide Iterate, Sum;
    var p, z := Pow2(k), Iterate(i, x);
    IterateAdd(i, p, x);
    IterateSum(p, z);
    var s := Sum(p) * (4 * z + 1);
    HalfTurn(k, s, z);
    assert Pow2(k + 1) == 2 * p;
    SameMod(2 * p, z + s, z);
    SameMod(p, z + s, z);
    Halves(p, z, y);
    Halves(p, z + s, y);
  }

  /** Numbers that agree modulo p agree modulo 2 p or differ by p there. */
  lemma Halves(p: nat, z: int, y: int)
    requires p > 0 && 0 <= y < 2 * p && z % p == y % p
    ensures z % (2 * p) == y || z % (2 * p) == (if y < p then y + p else y - p)
  {
    var q := z / p;
    var r := y % p;
    assert z == q * p + r;
    if q % 2 == 0 {
      assert z == (q / 2) * (2 * p) + r;
      QuotientIs(z, 2 * p, q / 2, r);
    } else {
      assert z == (q / 2) * (2 * p) + (p + r) by { assert q == 2 * (q / 2) + 1; }
      QuotientIs(z, 2 * p, q / 2, p + r);
    }
    if y < p { QuotientIs(y, p, 0, y); } else { QuotientIs(y, p, 1, y - p); }
  }

  /** 2^k steps are a multiple of 2^k away, but not a multiple of 2^(k+1). */
  lemma HalfTurn(k: nat, s: int, z: int)
    requires s == Sum(Pow2(k)) * (4 * z + 1)
    ensures Divides(k, s) && !Divides(k + 1, s)
  {
    hide Sum, Divides, Pow2;
    var p := Pow2(k);
    PowerDivides(k);
    SumDivides(k, p);
    SumDivides(k + 1, p);
    DividesOdd(k, Sum(p), 4 * z + 1);
    DividesOdd(k + 1, Sum(p), 4 * z + 1);
  }

  lemma PowerDivides(k: nat)
    ensures Divides(k, Pow2(k)) && !Divides(k + 1, Pow2(k))
  {
    var p := Pow2(k);
    assert Pow2(k + 1) == 2 * p;
    QuotientIs(p, 2 * p, 0, p);
    QuotientIs(p, p, 1, 0);
  }

  // ---------- with the perturbation ----------

  const WORD := 0x1_0000_0000

  /** The perturbation after t probes: the hash shifted right by five bits each time. */
  function Perturb(hash: nat, t: nat): nat { if t == 0 then hash else Perturb(hash, t - 1) / 32 }

  /** The cell of probe t in a table of the given size. */
  function Pos(hash: nat, size: nat, t: nat): (p: nat)
    requires size > 0
    ensures p < size
  {
    if t == 0 then hash % size else (Pos(hash, size, t - 1) * 5 + 1 + Perturb(hash, t)) % size
  }

  /** A 32-bit hash has been shifted away after seven probes. */
  lemma {:induction false} PerturbGone(hash: nat, t: nat)
    requires hash < WORD && t >= 7
    ensures Perturb(hash, t) == 0
    decreases t
  {
    if t > 7 {
      PerturbGone(hash, t - 1);
    } else {
      var p0 := Perturb(hash, 0);
      var p1 := Perturb(hash, 1);
      assert p1 == p0 / 32 && p1 < 0x800_0000;
      var p2 := Perturb(hash, 2);
      assert p2 == p1 / 32 && p2 < 0x40_0000;
      var p3 := Perturb(hash, 3);
      assert p3 == p2 / 32 && p3 < 0x2_0000;
      var p4 := Perturb(hash, 4);
      assert p4 == p3 / 32 && p4 < 0x1000;
      var p5 := Perturb(hash, 5);
      assert p5 == p4 / 32 && p5 < 128;
      var p6 := Perturb(hash, 6);
      assert p6 == p5 / 32 && p6 < 4;
      assert Perturb(hash, 7) == p6 / 32;
    }
  }

  /** From the sixth probe on, probing is the unperturbed cycle. */
  lemma {:induction false} PosCycle(hash: nat, k: nat, n: nat)
    requires hash < WORD
    ensures Pos(hash, Pow2(k), 6 + n) == Cycle(k, n, Pos(hash, Pow2(k), 6))
  {
    var size, start := Pow2(k), Pos(hash, Pow2(k), 6);
    if n == 0 {
      QuotientIs(start, size, 0, start);
    } else {
      PosCycle(hash, k, n - 1);
      PerturbGone(hash, 6 + n);
      var y := Iterate(n - 1, start);
      SameStep(size, y);
      assert 6 + n - 1 == 6 + (n - 1);
    }
  }

  lemma SameStep(size: nat, y: int)
    requires size > 0
    ensures ((y % size) * 5 + 1) % size == (5 * y + 1) % size
  {
    var q := y / size;
    assert (y % size) * 5 + 1 - (5 * y + 1) == size * (-5 * q) by { assert y == q * size + y % size; }
    Multiple(size, -5 * q);
    SameMod(size, (y % size) * 5 + 1, 5 * y + 1);
  }

  /** Probing visits every cell, and takes at most size + 6 probes to do so. */
  lemma ProbeReaches(hash: nat, k: nat, p: nat) returns (t: nat)
    requires hash < WORD && p < Pow2(k)
    ensures t < Pow2(k) + 6 && Pos(hash, Pow2(k), t) == p
  {
    var i := CycleReaches(k, Pos(hash, Pow2(k), 6), p);
    PosCycle(hash, k, i);
    t := 6 + i;
  }

  /** The source computes in 32 bits and masks: for a table of at most 2^32 cells, wrap-around makes no difference. */
  lemma {:induction false} WrapHarmless(k: nat, x: int)
    requires k <= 32
    ensures (x % WORD) % Pow2(k) == x % Pow2(k)
  {
    var c, p := Pow2(32 - k), Pow2(k);
    PowAdd(32 - k, k);
    assert Pow2(32) == WORD by { Pow32(); }
    Regroup(c, p, x / (c * p), x, x % (c * p));
    Multiple(p, c * (x / (c * p)));
    SameMod(p, x, x % (c * p));
  }

  lemma Regroup(c: int, p: int, q: int, x: int, r: int)
    requires x == (c * p) * q + r
    ensures x - r == p * (c * q)
  {}

  lemma Pow32()
    ensures Pow2(32) == WORD
  {
    assert Pow2(8) == 256;
    PowAdd(8, 8);
    PowAdd(16, 16);
  }
}
