/** Layout of structs, bit-fields included. */
module CcStruct {
  import opened CcAlign
  import opened Numbers

  /** Members with alignments that are powers of two; a bit-field's alignment is its type's size, and width 0 is a separate kind. */
  datatype Member =
    | Plain(size: nat, lg: nat)
    | Bits(lg: nat, width: nat, unsigned: bool)
    | ZeroWidth(lg: nat)

  predicate WfMember(m: Member) { m.Bits? ==> m.lg <= 3 && 0 < m.width <= 8 * Pow2(m.lg) }

  predicate WfMembers(ms: seq<Member>) { forall i :: 0 <= i < |ms| ==> WfMember(ms[i]) }

  function Align(m: Member): (a: nat)
    ensures a > 0
  {
    Pow2(m.lg)
  }

  function Size(m: Member): nat { if m.Plain? then m.size else Pow2(m.lg) }

  /** How many bits a member occupies. */
  function Len(m: Member): nat {
    match m
    case Plain(size, _) => 8 * size
    case Bits(_, width, _) => width
    case ZeroWidth(_) => 0
  }

  /** Where a member is: its byte offset, and the first bit in its storage unit if it is a bit-field. */
  datatype Slot = Slot(offset: int, bitOffset: int)

  /** The first bit that m will occupy when `bits` bits are taken. */
  function Start(m: Member, bits: nat): (s: int)
    ensures s >= bits
  {
    match m
    case ZeroWidth(_) => AlignTo(bits, 8 * Align(m))
    case Bits(_, width, _) =>
      var unit := 8 * Size(m);
      if bits / unit != (bits + width - 1) / unit then AlignTo(bits, unit) else bits
    case Plain(_, _) => AlignTo(bits, 8 * Align(m))
  }

  function SlotOf(m: Member, start: int): Slot {
    match m
    case ZeroWidth(_) => Slot(0, 0)
    case Bits(_, _, _) => Slot(AlignDown(start / 8, Size(m)), start % (8 * Size(m)))
    case Plain(_, _) => Slot(start / 8, 0)
  }

  function Layout(ms: seq<Member>, bits: nat): (r: seq<Slot>)
    ensures |r| == |ms|
  {
    if ms == [] then [] else [SlotOf(ms[0], Start(ms[0], bits))] + Layout(ms[1..], Start(ms[0], bits) + Len(ms[0]))
  }

  function EndBits(ms: seq<Member>, bits: nat): (r: nat)
    ensures r >= bits
  {
    if ms == [] then bits else EndBits(ms[1..], Start(ms[0], bits) + Len(ms[0]))
  }

  function Max(a: nat, b: nat): nat { if a < b then b else a }

  /** The struct's alignment as a power of two. */
  function Lg(ms: seq<Member>, lg: nat): (r: nat)
    ensures r >= lg
  {
    if ms == [] then lg else Lg(ms[1..], Max(lg, ms[0].lg))
  }

  /** The size in bytes of a struct whose alignment is at least 2^lg. */
  function StructSize(ms: seq<Member>, lg: nat): int { AlignTo(EndBits(ms, 0), 8 * Pow2(Lg(ms, lg))) / 8 }

  lemma FromMember(ms: seq<Member>, i: nat, bits: nat, lg: nat)
    requires i < |ms|
    ensures var s := Start(ms[i], bits);
      && Layout(ms[i..], bits) == [SlotOf(ms[i], s)] + Layout(ms[i + 1..], s + Len(ms[i]))
      && EndBits(ms[i..], bits) == EndBits(ms[i + 1..], s + Len(ms[i])) && Lg(ms[i..], lg) == Lg(ms[i + 1..], Max(lg, ms[i].lg))
  {
    hide Start, SlotOf, Len;
    assert ms[i..][1..] == ms[i + 1..];
  }

  lemma NoneLeft(ms: seq<Member>, bits: nat, lg: nat)
    ensures Layout(ms[|ms|..], bits) == [] && EndBits(ms[|ms|..], bits) == bits && Lg(ms[|ms|..], lg) == lg && ms[0..] == ms
  {}

  lemma AlignIs(m: Member)
    ensures Align(m) == Pow2(m.lg)
  {}

  lemma PowMax(a: nat, b: nat)
    ensures Pow2(Max(a, b)) == if Pow2(a) < Pow2(b) then Pow2(b) else Pow2(a)
  {
    if a < b { PowMono(a, b); } else { PowMono(b, a); }
  }

  /** One member, after `bits` bits. */
  method PlaceMember(m: Member, bits: nat) returns (slot: Slot, next: nat)
    ensures slot == SlotOf(m, Start(m, bits)) && next == Start(m, bits) + Len(m)
  {
    hide Pow2, AlignTo, AlignDown;
    next := bits;
    match m {
      case ZeroWidth(_) =>
        next := AlignTo(next, Align(m) * 8);
        slot := Slot(0, 0);
      case Bits(_, width, _) =>
        var sz := Size(m);
        if next / (sz * 8) != (next + width - 1) / (sz * 8) { next := AlignTo(next, sz * 8); }
        slot := Slot(AlignDown(next / 8, sz), next % (sz * 8));
        next := next + width;
      case Plain(sz, _) =>
        next := AlignTo(next, Align(m) * 8);
        slot := Slot(next / 8, 0);
        next := next + sz * 8;
    }
  }

  /** The loop over the members. `align` is what an attribute has set, or 1. */
  method StructDecl(ms: seq<Member>, ghost lg: nat, align0: nat) returns (slots: seq<Slot>, size: int, align: nat)
    requires align0 == Pow2(lg)
    ensures slots == Layout(ms, 0) && size == StructSize(ms, lg) && align == Pow2(Lg(ms, lg))
  {
    hide *;
    var bits: nat := 0;
    slots, align := [], align0;
    ghost var l := lg;
    for i := 0 to |ms|
      invariant |slots| == i && align == Pow2(l)
      invariant slots + Layout(ms[i..], bits) == Layout(ms, 0) && EndBits(ms[i..], bits) == EndBits(ms, 0) && Lg(ms[i..], l) == Lg(ms, lg)
    {
      FromMember(ms, i, bits, l);
      var m := ms[i];
      var slot;
      slot, bits := PlaceMember(m, bits);
      slots := slots + [slot];
      PowMax(l, m.lg);
      AlignIs(m);
      if align < Align(m) { align := Align(m); }
      l := Max(l, m.lg);
    }
    NoneLeft(ms, bits, l);
    size := AlignTo(bits, align * 8) / 8;
    SizeIs(ms, lg);
  }

  lemma SizeIs(ms: seq<Member>, lg: nat)
    ensures StructSize(ms, lg) == AlignTo(EndBits(ms, 0), Pow2(Lg(ms, lg)) * 8) / 8
  {
    hide EndBits, Lg, Pow2, AlignTo;
  }

  // ---------- where members are ----------

  /** The first bit of a member in the struct. */
  function FirstBit(s: Slot): int { 8 * s.offset + s.bitOffset }

  /** A unit of size a power of two divides the alignment of its byte offset. */
  lemma UnitParts(start: nat, sz: nat)
    requires sz > 0
    ensures 8 * AlignDown(start / 8, sz) + start % (8 * sz) == start && start % (8 * sz) >= 0
  {
    var unit := 8 * sz;
    DivMod(start, unit);
    var q, r := start / unit, start % unit;
    assert start == 8 * (q * sz) + r by { assert q * unit == 8 * (q * sz); }
    DivMod(start, 8);
    DivMod(r, 8);
    QuotientIs(start, 8, q * sz + r / 8, r % 8);
    var n := start / 8;
    var d := AlignDown(n, sz);
    assert q * sz <= n < q * sz + sz;
    Multiple(sz, q);
    assert sz * q == q * sz;
    SameMultiple(d, q * sz, sz);
  }

  /** A bit-field does not cross the end of its unit. */
  lemma InUnit(bits: nat, width: nat, unit: nat)
    requires 0 < width <= unit
    ensures var s := if bits / unit != (bits + width - 1) / unit then AlignTo(bits, unit) else bits;
      0 <= s % unit && s % unit + width <= unit
  {
    DivMod(bits, unit);
    DivMod(bits + width - 1, unit);
  }

  /** Every member is where its bits start, aligned, and inside its unit. */
  predicate Sits(m: Member, s: Slot, start: int)
  {
    && (!m.ZeroWidth? ==> FirstBit(s) == start)
    && s.offset % Align(m) == 0 && s.offset >= 0 && s.bitOffset >= 0
    && (m.Bits? ==> s.bitOffset + m.width <= 8 * Size(m)) && (m.Plain? ==> s.bitOffset == 0)
  }

  lemma SlotSits(m: Member, bits: nat)
    requires WfMember(m)
    ensures Sits(m, SlotOf(m, Start(m, bits)), Start(m, bits))
  {
    hide Pow2;
    match m
    case Plain(_, lg) =>
      var s := Start(m, bits);
      Eighth(s, Pow2(lg));
    case Bits(lg, width, _) =>
      var s := Start(m, bits);
      UnitParts(s, Pow2(lg));
      InUnit(bits, width, 8 * Pow2(lg));
      NotNegative(s / 8, Pow2(lg));
    case ZeroWidth(lg) => QuotientIs(0, Pow2(lg), 0, 0);
  }

  lemma NotNegative(n: nat, a: nat)
    requires a > 0
    ensures AlignDown(n, a) >= 0
  {
    var r := AlignDown(n, a);
    if r < 0 {
      QuotientIs(0, a, 0, 0);
      SameMultiple(r, 0, a);
    }
  }

  /** A multiple of 8a, in bytes. */
  lemma Eighth(s: nat, a: nat)
    requires a > 0 && s % (8 * a) == 0
    ensures 8 * (s / 8) == s && (s / 8) % a == 0
  {
    DivMod(s, 8 * a);
    var q := s / (8 * a);
    assert q * (8 * a) == 8 * (q * a);
    QuotientIs(s, 8, q * a, 0);
    Multiple(a, q);
    assert a * q == q * a;
  }

  /** Where member i starts when the first member is laid out after `bits` bits. */
  function StartOf(ms: seq<Member>, bits: nat, i: nat): (s: nat)
    requires i < |ms|
    decreases i
  {
    if i == 0 then Start(ms[0], bits) else StartOf(ms[1..], Start(ms[0], bits) + Len(ms[0]), i - 1)
  }

  lemma {:induction false} MemberSits(ms: seq<Member>, bits: nat, i: nat)
    requires WfMembers(ms) && i < |ms|
    ensures Sits(ms[i], Layout(ms, bits)[i], StartOf(ms, bits, i))
    ensures bits <= StartOf(ms, bits, i) && StartOf(ms, bits, i) + Len(ms[i]) <= EndBits(ms, bits)
    decreases i
  {
    hide Sits, SlotOf, Start, WfMember, Len;
    if i == 0 { SlotSits(ms[0], bits); } else { MemberSits(ms[1..], Start(ms[0], bits) + Len(ms[0]), i - 1); }
  }

  /** Members occupy bits in the order in which they are declared, and no bit twice. */
  lemma {:induction false} MembersApart(ms: seq<Member>, bits: nat, i: nat, j: nat)
    requires WfMembers(ms) && i < j < |ms|
    ensures StartOf(ms, bits, i) + Len(ms[i]) <= StartOf(ms, bits, j)
    decreases i
  {
    hide Sits, SlotOf, Start, WfMember;
    var b := Start(ms[0], bits) + Len(ms[0]);
    if i == 0 {
      MemberSits(ms[1..], b, j - 1);
    } else {
      MembersApart(ms[1..], b, i - 1, j - 1);
    }
  }

  lemma {:induction false} LgCovers(ms: seq<Member>, lg: nat, i: nat)
    requires i < |ms|
    ensures ms[i].lg <= Lg(ms, lg)
  {
    if i > 0 { LgCovers(ms[1..], Max(lg, ms[0].lg), i - 1); }
  }

  /** A multiple of a power of two is one of every smaller power. */
  lemma Divides(x: int, a: nat, b: nat)
    requires a <= b && x % Pow2(b) == 0
    ensures x % Pow2(a) == 0
  {
    hide Pow2;
    PowAdd(a, b - a);
    DivMod(x, Pow2(b));
    Multiple(Pow2(a), x / Pow2(b) * Pow2(b - a));
    Regroup(x / Pow2(b), Pow2(a), Pow2(b - a));
  }

  lemma Regroup(q: int, a: int, b: int)
    ensures q * (a * b) == a * (q * b)
  {}

  /** The struct's size is a multiple of its alignment and covers all bits. */
  lemma SizeRight(ms: seq<Member>, lg: nat)
    ensures StructSize(ms, lg) % Pow2(Lg(ms, lg)) == 0 && 8 * StructSize(ms, lg) >= EndBits(ms, 0)
  {
    hide Pow2, EndBits, Lg;
    Eighth(AlignTo(EndBits(ms, 0), 8 * Pow2(Lg(ms, lg))), Pow2(Lg(ms, lg)));
  }

  /** All bytes of a member's storage unit belong to the struct. */
  lemma UnitInside(ms: seq<Member>, lg: nat, i: nat)
    requires WfMembers(ms) && i < |ms| && !ms[i].ZeroWidth?
    ensures var s := Layout(ms, 0)[i]; 0 <= s.offset && s.offset + Size(ms[i]) <= StructSize(ms, lg)
  {
    var m, s := ms[i], Layout(ms, 0)[i];
    MemberSits(ms, 0, i);
    SizeRight(ms, lg);
    assert WfMember(m);
    if m.Bits? {
      LgCovers(ms, lg, i);
      Divides(StructSize(ms, lg), m.lg, Lg(ms, lg));
      FitsAligned(s.offset, Pow2(m.lg), StructSize(ms, lg));
    }
  }

  /** An aligned unit that begins inside an aligned area ends inside it. */
  lemma FitsAligned(off: int, sz: nat, size: int)
    requires sz > 0 && off % sz == 0 && size % sz == 0 && off < size
    ensures off + sz <= size
  {
    SameMod(sz, size, off);
    DivMod(size - off, sz);
    var k := (size - off) / sz;
    if k <= 0 { TimesAtMostZero(k, sz); } else { TimesAtLeast(k, sz); }
  }
}
