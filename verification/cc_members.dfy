/** Members of a struct in memory: an assignment to a bit-field is read back, and changes no other member. */
module CcMembers {
  import opened CcInt
  import opened CcMachine
  import opened CcBitField
  import S = CcStruct
  import opened Numbers

  // ---------- the struct as one number ----------

  lemma {:induction false} LoadSplit(mem: Mem, a: int, n: nat, k: nat)
    ensures LoadN(mem, a, n + k) == LoadN(mem, a, n) + Pow2(8 * n) * LoadN(mem, a + n, k)
    decreases n
  {
    if n == 0 {
      PowZero();
    } else {
      LoadSplit(mem, a + 1, n - 1, k);
      LoadStep(mem, a, n + k);
      LoadStep(mem, a, n);
      hide *;
      assert n + k - 1 == n - 1 + k && a + 1 + (n - 1) == a + n;
      PowEight();
      PowAdd(8, 8 * (n - 1));
      assert 8 + 8 * (n - 1) == 8 * n;
      Regroup3(Pow2(8 * (n - 1)), LoadN(mem, a + n, k));
    }
  }

  lemma LoadStep(mem: Mem, a: int, n: nat)
    requires n > 0
    ensures LoadN(mem, a, n) == mem(a) + 256 * LoadN(mem, a + 1, n - 1)
  {}

  lemma Regroup3(p: int, x: int)
    ensures 256 * (p * x) == (256 * p) * x
  {}

  /** Three consecutive parts of memory. */
  lemma LoadParts(mem: Mem, base: int, size: nat, off: nat, n: nat) returns (hi: int, lo: int)
    requires Bytes(mem) && off + n <= size
    ensures LoadN(mem, base, size) == hi * Pow2(8 * off + 8 * n) + LoadN(mem, base + off, n) * Pow2(8 * off) + lo
    ensures hi == LoadN(mem, base + off + n, size - off - n) && lo == LoadN(mem, base, off) && 0 <= lo < Pow2(8 * off)
    ensures 0 <= LoadN(mem, base + off, n) < Pow2(8 * n)
  {
    hide *;
    hi, lo := LoadN(mem, base + off + n, size - off - n), LoadN(mem, base, off);
    LoadSplit(mem, base, off, size - off);
    LoadSplit(mem, base + off, n, size - off - n);
    LoadRange(mem, base, off);
    LoadRange(mem, base + off, n);
    PowerIs(off);
    PowerIs(n);
    PowAdd(8 * off, 8 * n);
    assert off + (size - off) == size && n + (size - off - n) == size - off;
    Assemble(Pow2(8 * off), Pow2(8 * n), LoadN(mem, base + off, n), hi);
  }

  lemma Assemble(p: int, q: int, u: int, hi: int)
    ensures p * (u + q * hi) == hi * (p * q) + u * p
  {}

  lemma LoadSlice(mem: Mem, base: int, size: nat, off: nat, n: nat)
    requires Bytes(mem) && off + n <= size
    ensures LoadN(mem, base + off, n) == Field(LoadN(mem, base, size), 8 * off, 8 * n)
  {
    hide *;
    var hi, lo := LoadParts(mem, base, size, off, n);
    FieldIs(LoadN(mem, base, size), 8 * off, 8 * n, hi, LoadN(mem, base + off, n), lo);
  }

  /** Replacing bits of a number below 2^k keeps it there. */
  lemma SetRange(u: int, s: nat, w: nat, k: nat, f: int)
    requires s + w <= k && 0 <= u < Pow2(k) && 0 <= f < Pow2(w)
    ensures 0 <= SetField(u, s, w, f) < Pow2(k)
  {
    hide *;
    var hi, lo := FieldParts(u, s, w);
    var g := Field(u, s, w);
    FieldBound(u, s, w);
    TopPart(hi, g, lo, s, w);
    TopPart(hi, f, lo, s, w);
    SetIs(u, s, w, f);
    Distribute(f, g, Pow2(s));
    PowAdd(s + w, k - s - w);
    assert s + w + (k - s - w) == k;
    var p, q := Pow2(s + w), Pow2(k - s - w);
    if hi < 0 { CancelTimes(hi, -1, p); }
    if hi >= q { CancelTimes(q, hi, p); Commute(p, q); }
    CancelTimes(hi, q - 1, p);
    Distribute(q, 1, p);
    Commute(p, q);
    CancelTimes(0, hi, p);
  }

  lemma Commute(p: int, q: int)
    ensures p * q == q * p
  {}

  /** Storing into a unit sets bits of the struct as a whole. */
  lemma UnitSet(mem: Mem, base: int, size: nat, off: nat, sz: nat, v: int, s: nat, w: nat, f: int)
    requires Bytes(mem) && off + sz <= size && s + w <= 8 * sz && 0 <= f < Pow2(w)
    requires v % Pow2(8 * sz) == SetField(LoadN(mem, base + off, sz), s, w, f) % Pow2(8 * sz)
    ensures LoadN(StoreN(mem, base + off, sz, v), base, size) == SetField(LoadN(mem, base, size), 8 * off + s, w, f)
  {
    hide *;
    var mem' := StoreN(mem, base + off, sz, v);
    var n, u := LoadN(mem, base, size), LoadN(mem, base + off, sz);
    StoreBytes(mem, base + off, sz, v);
    var hi, lo := LoadParts(mem, base, size, off, sz);
    var hi', lo' := LoadParts(mem', base, size, off, sz);
    forall b | base <= b < base + off ensures mem(b) == mem'(b) { StoreElsewhere(mem, base + off, sz, v, b); }
    LoadSame(mem, mem', base, off);
    forall b | base + off + sz <= b < base + off + sz + (size - off - sz) ensures mem(b) == mem'(b) { StoreElsewhere(mem, base + off, sz, v, b); }
    LoadSame(mem, mem', base + off + sz, size - off - sz);
    LoadStored(mem, base + off, sz, v);
    PowerIs(sz);
    SetRange(u, s, w, 8 * sz, f);
    var u' := SetField(u, s, w, f);
    QuotientIs(u', Pow2(8 * sz), 0, u');
    assert LoadN(mem', base + off, sz) == u';
    LoadSlice(mem, base, size, off, sz);
    FieldOfField(n, 8 * off, 8 * sz, s, w);
    SetIs(u, s, w, f);
    SetIs(n, 8 * off + s, w, f);
    PowAdd(8 * off, s);
    Widen(u, f - Field(u, s, w), Pow2(s), Pow2(8 * off));
  }

  lemma Widen(u: int, d: int, p: int, q: int)
    ensures (u + d * p) * q == u * q + d * (q * p)
  {}

  // ---------- members ----------

  /** Member i of a struct at address base has the slot that the layout gives it. */
  function SlotAt(ms: seq<S.Member>, i: nat): S.Slot
    requires i < |ms|
  {
    S.Layout(ms, 0)[i]
  }

  /** What is read from member i. */
  function Value(mem: Mem, base: int, ms: seq<S.Member>, i: nat): int
    requires S.WfMembers(ms) && i < |ms|
  {
    MemberFits(ms, i);
    var m, s := ms[i], SlotAt(ms, i);
    match m
    case Plain(size, _) => LoadN(mem, base + s.offset, size)
    case Bits(_, _, _) => ReadBits(mem, base + s.offset, m, s.bitOffset)
    case ZeroWidth(_) => 0
  }

  lemma MemberFits(ms: seq<S.Member>, i: nat)
    requires S.WfMembers(ms) && i < |ms|
    ensures var m, s := ms[i], SlotAt(ms, i);
      && S.WfMember(m) && s.offset >= 0 && s.bitOffset >= 0 && (m.Bits? ==> s.bitOffset + m.width <= 8 * S.Size(m))
      && (m.Plain? ==> s.bitOffset == 0) && (!m.ZeroWidth? ==> 8 * s.offset + s.bitOffset == S.StartOf(ms, 0, i))
  {
    S.MemberSits(ms, 0, i);
  }

  /** A member's value is made of its own bits of the struct. */
  lemma ValueIs(mem: Mem, base: int, ms: seq<S.Member>, lg: nat, i: nat)
    requires S.WfMembers(ms) && i < |ms| && Bytes(mem) && !ms[i].ZeroWidth? && S.StructSize(ms, lg) >= 0
    ensures var f := Field(LoadN(mem, base, S.StructSize(ms, lg)), S.StartOf(ms, 0, i), S.Len(ms[i]));
      Value(mem, base, ms, i) == if ms[i].Bits? then Extended(f, ms[i]) else f
  {
    hide *;
    var m, s, size := ms[i], SlotAt(ms, i), S.StructSize(ms, lg);
    ValueParts(mem, base, ms, lg, i);
    LoadSlice(mem, base, size, s.offset, S.Size(m));
    if m.Bits? {
      LenIs(m);
      ReadsField(mem, base + s.offset, m, s.bitOffset);
      FieldOfField(LoadN(mem, base, size), 8 * s.offset, 8 * S.Size(m), s.bitOffset, m.width);
    }
  }

  lemma ValueParts(mem: Mem, base: int, ms: seq<S.Member>, lg: nat, i: nat)
    requires S.WfMembers(ms) && i < |ms| && !ms[i].ZeroWidth?
    ensures var m, s := ms[i], SlotAt(ms, i);
      && S.WfMember(m) && s.offset >= 0 && s.bitOffset >= 0 && (m.Bits? ==> s.bitOffset + m.width <= 8 * S.Size(m))
      && s.offset + S.Size(m) <= S.StructSize(ms, lg)
      && (m.Plain? ==> S.StartOf(ms, 0, i) == 8 * s.offset && S.Len(m) == 8 * S.Size(m))
      && (m.Bits? ==> S.StartOf(ms, 0, i) == 8 * s.offset + s.bitOffset)
      && Value(mem, base, ms, i) == if m.Bits? then ReadBits(mem, base + s.offset, m, s.bitOffset) else LoadN(mem, base + s.offset, S.Size(m))
  {
    MemberFits(ms, i);
    S.UnitInside(ms, lg, i);
    hide LoadN, ReadBits, S.Layout, S.StartOf, S.StructSize, Pow2, S.WfMember;
  }

  /** An assignment of rax to bit-field i. */
  function Assign(mem: Mem, base: int, ms: seq<S.Member>, i: nat, rax: int): Mem
    requires S.WfMembers(ms) && i < |ms| && ms[i].Bits? && ms[i].width < 64 && 0 <= rax < W64
  {
    MemberFits(ms, i);
    StoreBits(mem, base + SlotAt(ms, i).offset, ms[i], SlotAt(ms, i).bitOffset, rax)
  }

  /** ... sets the field's bits of the struct, and touches no byte outside the struct. */
  lemma AssignSets(mem: Mem, base: int, ms: seq<S.Member>, lg: nat, i: nat, rax: int)
    requires S.WfMembers(ms) && i < |ms| && ms[i].Bits? && ms[i].width < 64 && 0 <= rax < W64 && Bytes(mem)
    ensures var size := S.StructSize(ms, lg); var mem' := Assign(mem, base, ms, i, rax);
      && size >= 0 && Bytes(mem') && 0 <= rax % Pow2(ms[i].width) < Pow2(ms[i].width)
      && LoadN(mem', base, size) == SetField(LoadN(mem, base, size), S.StartOf(ms, 0, i), ms[i].width, rax % Pow2(ms[i].width))
      && forall a :: a < base || a >= base + size ==> mem'(a) == mem(a)
  {
    hide *;
    ValueParts(mem, base, ms, lg, i);
    AssignIs(mem, base, ms, i, rax);
    SizePositive(ms[i]);
    var m, s, size, f := ms[i], SlotAt(ms, i), S.StructSize(ms, lg), rax % Pow2(ms[i].width);
    var mem' := Assign(mem, base, ms, i, rax);
    LowBound(rax, m.width);
    var off, sz := s.offset, S.Size(m);
    StoresField(mem, base + off, m, s.bitOffset, rax);
    var v :| mem' == StoreN(mem, base + off, sz, v)
             && v % Pow2(8 * sz) == SetField(LoadN(mem, base + off, sz), s.bitOffset, m.width, f) % Pow2(8 * sz);
    StoreBytes(mem, base + off, sz, v);
    UnitSet(mem, base, size, off, sz, v, s.bitOffset, m.width, f);
    forall a | a < base || a >= base + size ensures mem'(a) == mem(a) { StoreElsewhere(mem, base + off, sz, v, a); }
  }

  lemma SizePositive(m: S.Member)
    ensures m.Bits? ==> S.Size(m) > 0
  {}

  lemma AssignIs(mem: Mem, base: int, ms: seq<S.Member>, i: nat, rax: int)
    requires S.WfMembers(ms) && i < |ms| && ms[i].Bits? && ms[i].width < 64 && 0 <= rax < W64
    ensures var m, s := ms[i], SlotAt(ms, i);
      && S.WfMember(m) && 0 <= s.bitOffset && s.bitOffset + m.width <= 8 * S.Size(m)
      && Assign(mem, base, ms, i, rax) == StoreBits(mem, base + s.offset, m, s.bitOffset, rax)
  {
    MemberFits(ms, i);
    hide StoreBits, S.Layout, Pow2;
  }

  /** The operation as it is printed, up to 63 bits: what is assigned to a bit-field is read back, cut to its width and extended as its type calls for. */
  lemma ReadBack(mem: Mem, base: int, ms: seq<S.Member>, i: nat, rax: int)
    requires S.WfMembers(ms) && i < |ms| && ms[i].Bits? && 0 < ms[i].width < 64 && 0 <= rax < W64 && Bytes(mem)
    ensures Value(Assign(mem, base, ms, i, rax), base, ms, i) == Extended(rax % Pow2(ms[i].width), ms[i])
  {
    hide *;
    AssignSets(mem, base, ms, 0, i, rax);
    ValueIs(Assign(mem, base, ms, i, rax), base, ms, 0, i);
    LenIs(ms[i]);
    FieldSet(LoadN(mem, base, S.StructSize(ms, 0)), S.StartOf(ms, 0, i), ms[i].width, rax % Pow2(ms[i].width));
  }

  lemma LenIs(m: S.Member)
    requires m.Bits?
    ensures S.Len(m) == m.width
  {}

  /** No other member changes. */
  lemma OthersKept(mem: Mem, base: int, ms: seq<S.Member>, i: nat, j: nat, rax: int)
    requires S.WfMembers(ms) && i < |ms| && j < |ms| && i != j && ms[i].Bits? && ms[i].width < 64 && 0 <= rax < W64 && Bytes(mem)
    ensures Value(Assign(mem, base, ms, i, rax), base, ms, j) == Value(mem, base, ms, j)
  {
    if ms[j].ZeroWidth? {
      ZeroIs(mem, Assign(mem, base, ms, i, rax), base, ms, j);
    } else {
      hide *;
      AssignSets(mem, base, ms, 0, i, rax);
      ValueIs(mem, base, ms, 0, j);
      ValueIs(Assign(mem, base, ms, i, rax), base, ms, 0, j);
      LenIs(ms[i]);
      var n, f := LoadN(mem, base, S.StructSize(ms, 0)), rax % Pow2(ms[i].width);
      if j < i {
        S.MembersApart(ms, 0, j, i);
        BelowSet(n, S.StartOf(ms, 0, i), ms[i].width, f, S.StartOf(ms, 0, j), S.Len(ms[j]));
      } else {
        S.MembersApart(ms, 0, i, j);
        AboveSet(n, S.StartOf(ms, 0, i), ms[i].width, f, S.StartOf(ms, 0, j), S.Len(ms[j]));
      }
    }
  }

  lemma ZeroIs(mem: Mem, mem': Mem, base: int, ms: seq<S.Member>, j: nat)
    requires S.WfMembers(ms) && j < |ms| && ms[j].ZeroWidth?
    ensures Value(mem, base, ms, j) == Value(mem', base, ms, j)
  {}

  /** What an instruction on 64-bit registers can hold as an immediate operand: 32 bits, sign-extended. */
  predicate Encodable(imm: int) { -0x8000_0000 <= imm < 0x8000_0000 }

  /** The store masks the new value with an immediate: there is such an instruction exactly for fields of at most 31 bits. */
  lemma MaskEncodable(w: nat)
    ensures Encodable(Pow2(w) - 1) <==> w <= 31
  {
    Pow64();
    HalfPow(32);
    if w <= 31 { PowMono(w, 31); } else { PowMono(32, w); }
  }

  /** A field of 32 bits: the mask that is printed is beyond every immediate. */
  lemma MaskTooWide()
    ensures Pow2(32) - 1 == 0xFFFF_FFFF && !Encodable(Pow2(32) - 1)
  {
    MaskEncodable(32);
    Pow64();
  }

  /** The generated store, where all its instructions exist: the field is read back as assigned, and every other member is as before. */
  lemma StoreRight(mem: Mem, base: int, ms: seq<S.Member>, i: nat, rax: int)
    requires S.WfMembers(ms) && i < |ms| && ms[i].Bits? && 0 < ms[i].width && Encodable(Pow2(ms[i].width) - 1) && 0 <= rax < W64 && Bytes(mem)
    ensures ms[i].width < 64 && var mem' := Assign(mem, base, ms, i, rax);
      && Value(mem', base, ms, i) == Extended(rax % Pow2(ms[i].width), ms[i])
      && forall j :: 0 <= j < |ms| && j != i ==> Value(mem', base, ms, j) == Value(mem, base, ms, j)
  {
    hide *;
    MaskEncodable(ms[i].width);
    ReadBack(mem, base, ms, i, rax);
    forall j | 0 <= j < |ms| && j != i ensures Value(Assign(mem, base, ms, i, rax), base, ms, j) == Value(mem, base, ms, j) {
      OthersKept(mem, base, ms, i, j, rax);
    }
  }

  /** The value that an assignment expression has is the one assigned, not the one stored: they agree exactly if it fits the field. */
  lemma AssignedValue(rax: int, m: S.Member)
    requires m.Bits? && 0 < m.width < 64 && 0 <= rax < W64
    ensures Extended(rax % Pow2(m.width), m) == rax
       <==> if m.unsigned then rax < Pow2(m.width) else rax < Pow2(m.width - 1) || rax >= W64 - Pow2(m.width - 1)
  {
    var w := m.width;
    var f := rax % Pow2(w);
    LowBound(rax, w);
    HalfPow(w);
    PowMono(w, 64);
    Pow64();
    ModMod(rax, w, 64);
    PowMono(w, 63);
    HalfPow(64);
    hide Pow2;
    if rax < Pow2(w) { QuotientIs(rax, Pow2(w), 0, rax); }
    if !m.unsigned {
      if f >= Pow2(w - 1) { QuotientIs(f - Pow2(w), W64, -1, f - Pow2(w) + W64); } else { QuotientIs(f, W64, 0, f); }
      if rax >= W64 - Pow2(w - 1) { HighValue(rax, w); }
    }
  }

  lemma HighValue(rax: int, w: nat)
    requires 0 < w < 64 && W64 - Pow2(w - 1) <= rax < W64
    ensures rax % Pow2(w) == rax - W64 + Pow2(w)
  {
    Pow64();
    HalfPow(w);
    TimesSplit(1, w, 64);
    Distribute(Pow2(64 - w), 1, Pow2(w));
    hide Pow2;
    QuotientIs(rax, Pow2(w), Pow2(64 - w) - 1, rax - W64 + Pow2(w));
  }
}
