/** Structs are laid out as tightly as alignment and storage units permit. */
module CcPacking {
  import opened CcAlign
  import opened CcStruct
  import opened Numbers

  /** Bit s can be the first one of m: a bit-field lies inside one unit of its type, and any other member is aligned. */
  predicate Admissible(m: Member, s: nat) {
    var unit := 8 * Pow2(m.lg);
    if m.Bits? then s / unit == (s + m.width - 1) / unit else s % unit == 0
  }

  /** A member is put at the first bit that it can have. */
  lemma StartLeast(m: Member, bits: nat, s: nat)
    requires WfMember(m) && bits <= s < Start(m, bits)
    ensures !Admissible(m, s)
  {
    hide Pow2;
    var unit := 8 * Pow2(m.lg);
    if m.Bits? {
      if Admissible(m, s) { CrossesUntil(bits, m.width, unit, s); }
    } else if Admissible(m, s) {
      AlignNearest(bits, unit, s);
    }
  }

  /** Until the next unit begins, a field that does not fit at a bit does not fit at later ones either. */
  lemma CrossesUntil(bits: nat, width: nat, unit: nat, s: nat)
    requires 0 < width <= unit && bits / unit != (bits + width - 1) / unit
    requires bits <= s < AlignTo(bits, unit)
    ensures s / unit != (s + width - 1) / unit
  {
    hide AlignTo;
    var q, r := bits / unit, bits % unit;
    DivMod(bits, unit);
    var low := q * unit;
    if r + width - 1 < unit { QuotientIs(bits + width - 1, unit, q, r + width - 1); }
    NextMultiple(unit, q);
    AlignNearest(bits, unit, low + unit);
    QuotientIs(s, unit, q, s - low);
    QuotientIs(s + width - 1, unit, q + 1, s + width - 1 - low - unit);
  }

  lemma NextMultiple(unit: nat, q: int)
    requires unit > 0
    ensures (q * unit + unit) % unit == 0 && (q + 1) * unit == q * unit + unit
  {
    Multiple(unit, q + 1);
  }

  lemma StartAdmissible(m: Member, bits: nat)
    requires WfMember(m)
    ensures Admissible(m, Start(m, bits))
  {
    hide Pow2;
    if m.Bits? {
      var unit, s := 8 * Pow2(m.lg), Start(m, bits);
      InUnit(bits, m.width, unit);
      DivMod(s, unit);
      QuotientIs(s + m.width - 1, unit, s / unit, s % unit + m.width - 1);
    }
  }

  /** The bits that are taken when member i is placed. */
  function Taken(ms: seq<Member>, bits: nat, i: nat): nat
    requires i <= |ms|
  {
    if i == 0 then bits else StartOf(ms, bits, i - 1) + Len(ms[i - 1])
  }

  lemma {:induction false} StartOfTaken(ms: seq<Member>, bits: nat, i: nat)
    requires i < |ms|
    ensures StartOf(ms, bits, i) == Start(ms[i], Taken(ms, bits, i))
    decreases i
  {
    hide Start, Len;
    if i > 0 { StartOfTaken(ms[1..], Start(ms[0], bits) + Len(ms[0]), i - 1); }
  }

  /** Every member begins at the first bit, of those not taken by the members before it, at which it can begin. */
  lemma Packed(ms: seq<Member>, i: nat)
    requires WfMembers(ms) && i < |ms|
    ensures Taken(ms, 0, i) <= StartOf(ms, 0, i) && Admissible(ms[i], StartOf(ms, 0, i))
    ensures forall s | Taken(ms, 0, i) <= s < StartOf(ms, 0, i) :: !Admissible(ms[i], s)
  {
    hide Start, Admissible, Len, StartOf;
    StartOfTaken(ms, 0, i);
    assert WfMember(ms[i]);
    StartAdmissible(ms[i], Taken(ms, 0, i));
    forall s | Taken(ms, 0, i) <= s < StartOf(ms, 0, i) ensures !Admissible(ms[i], s) { StartLeast(ms[i], Taken(ms, 0, i), s); }
  }

  lemma {:induction false} EndTaken(ms: seq<Member>, bits: nat)
    ensures EndBits(ms, bits) == Taken(ms, bits, |ms|)
  {
    hide Start, Len;
    if ms != [] { EndTaken(ms[1..], Start(ms[0], bits) + Len(ms[0])); }
  }

  /** No alignment is needed but those of the members and the one that an attribute has set. */
  lemma {:induction false} LgAttained(ms: seq<Member>, lg: nat)
    ensures Lg(ms, lg) == lg || exists i :: 0 <= i < |ms| && ms[i].lg == Lg(ms, lg)
  {
    if ms != [] {
      LgAttained(ms[1..], Max(lg, ms[0].lg));
      if Lg(ms, lg) != lg && Lg(ms, lg) != ms[0].lg {
        var i :| 0 <= i < |ms[1..]| && ms[1..][i].lg == Lg(ms, lg);
        assert ms[i + 1].lg == Lg(ms, lg);
      }
    }
  }

  /** The size is the least multiple of the alignment that covers what is taken. */
  lemma SizeLeast(ms: seq<Member>, lg: nat, x: int)
    requires x % Pow2(Lg(ms, lg)) == 0 && 8 * x >= Taken(ms, 0, |ms|)
    ensures 8 * StructSize(ms, lg) >= Taken(ms, 0, |ms|) && StructSize(ms, lg) <= x
  {
    hide Pow2, Lg, AlignTo;
    EndTaken(ms, 0);
    hide Taken, EndBits;
    RoundedLeast(EndBits(ms, 0), Pow2(Lg(ms, lg)), x);
  }

  lemma RoundedLeast(n: nat, a: nat, x: int)
    requires a > 0 && x % a == 0 && 8 * x >= n
    ensures var r := AlignTo(n, 8 * a); 8 * (r / 8) == r && n <= r && r / 8 <= x
  {
    hide AlignTo;
    var r := AlignTo(n, 8 * a);
    Eighth(r, a);
    DivMod(x, a);
    assert 8 * x == (8 * a) * (x / a);
    Multiple(8 * a, x / a);
    AlignNearest(n, 8 * a, 8 * x);
  }

  /** Two bit-fields that fit one int share it: struct { int a : 3; int b : 5; } has four bytes. */
  lemma TwoFields()
    ensures var ms := [Bits(2, 3, false), Bits(2, 5, false)];
      Layout(ms, 0) == [Slot(0, 0), Slot(0, 3)] && StructSize(ms, 0) == 4
  {
    hide *;
    var a, b := Bits(2, 3, false), Bits(2, 5, false);
    PlacedAt(a, 0);
    PlacedAt(b, 3);
    TwoMore(a, b);
    OneMember(b, 3);
    LenOf(a);
    LenOf(b);
    SizeIs([a, b], 0);
    OneInt();
  }

  lemma LenOf(m: Member)
    requires m.Bits?
    ensures Len(m) == m.width && Max(0, m.lg) == m.lg && Max(2, m.lg) == if m.lg < 2 then 2 else m.lg
  {}

  lemma OneInt()
    ensures AlignTo(8, Pow2(2) * 8) / 8 == 4
  {
    assert Pow2(1) == 2 && Pow2(2) == 4;
    hide AlignTo;
    SameMultiple(AlignTo(8, 32), 32, 32);
  }

  /** A small bit-field of an int goes right behind a few bits. */
  lemma PlacedAt(m: Member, bits: nat)
    requires m.Bits? && m.lg == 2 && 0 < m.width && bits < 8 && bits + m.width <= 32
    ensures Start(m, bits) == bits && SlotOf(m, bits) == Slot(0, bits)
  {
    assert Pow2(1) == 2 && Pow2(2) == 4;
    hide AlignDown, Pow2;
    SameMultiple(AlignDown(0, 4), 0, 4);
  }

  lemma OneMember(m: Member, bits: nat)
    ensures Layout([m], bits) == [SlotOf(m, Start(m, bits))] && EndBits([m], bits) == Start(m, bits) + Len(m)
    ensures Lg([m], 2) == Max(2, m.lg)
  {
    hide Start, SlotOf, Len;
    assert [m][1..] == [];
  }

  lemma TwoMore(a: Member, b: Member)
    ensures var n := Start(a, 0) + Len(a);
      Layout([a, b], 0) == [SlotOf(a, Start(a, 0))] + Layout([b], n) && EndBits([a, b], 0) == EndBits([b], n)
      && Lg([a, b], 0) == Lg([b], Max(0, a.lg))
  {
    hide Start, SlotOf, Len;
    assert [a, b][1..] == [b];
  }
}
