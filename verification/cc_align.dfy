/** Rounding to multiples. */
module CcAlign {
  import opened Numbers

  /** n rounded up to a multiple of align. */
  function AlignTo(n: int, align: nat): (r: int)
    requires align > 0
    ensures n <= r < n + align && r % align == 0
  {
    var m := n + align - 1;
    DivMod(m, align);
    Multiple(align, m / align);
    assert align * (m / align) == m / align * align;
    m / align * align
  }

  /** n rounded down to a multiple of align. */
  function AlignDown(n: int, align: nat): (r: int)
    requires align > 0
    ensures n - align < r <= n && r % align == 0
  {
    AlignTo(n - align + 1, align)
  }

  /** Two multiples of p that are less than p apart are the same. */
  lemma SameMultiple(a: int, b: int, p: nat)
    requires p > 0 && a % p == 0 && b % p == 0 && a - b < p && b - a < p
    ensures a == b
  {
    SameMod(p, a, b);
    DivMod(a - b, p);
    var k := (a - b) / p;
    if k >= 1 { TimesAtLeast(k, p); } else if k <= -1 { TimesAtLeast(-k, p); }
  }

  /** Rounding finds the nearest multiple: any other one is farther away. */
  lemma AlignNearest(n: int, align: nat, x: int)
    requires align > 0 && x % align == 0
    ensures x >= n ==> AlignTo(n, align) <= x
    ensures x <= n ==> AlignDown(n, align) >= x
  {
    var u, d := AlignTo(n, align), AlignDown(n, align);
    if x >= n && u > x { SameMultiple(u, x, align); }
    if x <= n && d < x { SameMultiple(d, x, align); }
  }
}
