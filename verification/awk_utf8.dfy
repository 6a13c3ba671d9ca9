/** UTF-8: encoding, decoding, and counting and slicing characters in any bytes at all. */
module AwkUtf8 {

  // ---------- the standard ----------

  predicate Tail(b: bv8) { 0x80 <= b <= 0xBF }

  /** Section 4 of RFC 3629: s begins with a well-formed character of n bytes. */
  predicate WellFormed(s: seq<bv8>, n: nat) {
    n <= |s| && match n
      case 1 => One(s[0])
      case 2 => Two(s[0], s[1])
      case 3 => Three(s[0], s[1], s[2])
      case 4 => Four(s[0], s[1], s[2], s[3])
      case _ => false
  }

  predicate One(a: bv8) { a <= 0x7F }

  predicate Two(a: bv8, b: bv8) { 0xC2 <= a <= 0xDF && Tail(b) }

  predicate Three(a: bv8, b: bv8, c: bv8) {
    0xE0 <= a <= 0xEF && Tail(b) && Tail(c) && (a == 0xE0 ==> b >= 0xA0) && (a == 0xED ==> b <= 0x9F)
  }

  predicate Four(a: bv8, b: bv8, c: bv8, d: bv8) {
    0xF0 <= a <= 0xF4 && Tail(b) && Tail(c) && Tail(d) && (a == 0xF0 ==> b >= 0x90) && (a == 0xF4 ==> b <= 0x8F)
  }

  function Wide(b: bv8): bv32 { b as bv32 }

  function Six(b: bv8): bv32 { Wide(b) & 0x3F }

  function Value2(a: bv8, b: bv8): bv32 { ((Wide(a) & 0x1F) << 6) | Six(b) }

  function Value3(a: bv8, b: bv8, c: bv8): bv32 { ((Wide(a) & 0x0F) << 12) | (Six(b) << 6) | Six(c) }

  function Value4(a: bv8, b: bv8, c: bv8, d: bv8): bv32 { ((Wide(a) & 0x07) << 18) | (Six(b) << 12) | (Six(c) << 6) | Six(d) }

  /** Section 3: the character that those bytes stand for. */
  function Value(s: seq<bv8>, n: nat): bv32
    requires WellFormed(s, n)
  {
    match n
    case 1 => Wide(s[0])
    case 2 => Value2(s[0], s[1])
    case 3 => Value3(s[0], s[1], s[2])
    case _ => Value4(s[0], s[1], s[2], s[3])
  }

  /** A Unicode scalar value: in range, and no surrogate. */
  predicate Scalar(wc: bv32) { wc <= 0x10FFFF && !(0xD800 <= wc <= 0xDFFF) }

  function Low(wc: bv32): bv8 { (wc & 0xFF) as bv8 }

  /** A continuation byte with six bits of wc. */
  function Cont(wc: bv32): bv8 { 0x80 | Low(wc & 0x3F) }

  function Shift6(wc: bv32): bv32 { wc >> 6 }

  /** wc without its lowest 6k bits. */
  function Shifted(wc: bv32, k: nat): bv32 { if k == 0 then wc else Shift6(Shifted(wc, k - 1)) }

  /** The first byte, where `len` + 1 continuation bytes follow. */
  function LeadByte(len: nat, wc: bv32): bv8 { (if len == 0 then 0xC0 else if len == 1 then 0xE0 else 0xF0) | Low(wc) }

  /** How many bytes beyond two wc takes. */
  function Extra(wc: bv32): nat { if wc <= 0x7FF then 0 else if wc <= 0xFFFF then 1 else 2 }

  predicate Ascii(wc: bv32) { wc < 128 }

  /** What is written for wc, which need not be a character. */
  function Encode(wc: bv32): (s: seq<bv8>)
    ensures 1 <= |s| <= 4
  {
    if Ascii(wc) then [Low(wc)]
    else if Extra(wc) == 0 then [LeadByte(0, Shifted(wc, 1)), Cont(wc)]
    else if Extra(wc) == 1 then [LeadByte(1, Shifted(wc, 2)), Cont(Shifted(wc, 1)), Cont(wc)]
    else [LeadByte(2, Shifted(wc, 3)), Cont(Shifted(wc, 2)), Cont(Shifted(wc, 1)), Cont(wc)]
  }

  // ---------- bits ----------

  lemma OneBits(wc: bv32)
    requires Ascii(wc)
    ensures One(Low(wc)) && Wide(Low(wc)) == wc
  {}

  lemma ShiftIs(wc: bv32)
    ensures Shifted(wc, 1) == wc >> 6 && Shifted(wc, 2) == wc >> 12 && Shifted(wc, 3) == wc >> 18
  {
    assert Shifted(wc, 1) == Shift6(wc) && Shifted(wc, 2) == Shift6(Shifted(wc, 1)) && Shifted(wc, 3) == Shift6(Shifted(wc, 2));
    hide Shifted;
    ShiftTwice(wc);
  }

  lemma ShiftTwice(wc: bv32)
    ensures Shift6(wc) == wc >> 6 && Shift6(wc >> 6) == wc >> 12 && Shift6(wc >> 12) == wc >> 18
  {}

  lemma TwoBits(wc: bv32)
    requires 0x80 <= wc <= 0x7FF
    ensures var a, b := 0xC0 | Low(wc >> 6), Cont(wc); Two(a, b) && Value2(a, b) == wc
  {}

  lemma TwoBack(a: bv8, b: bv8)
    requires Two(a, b)
    ensures var v := Value2(a, b); 0x80 <= v <= 0x7FF && 0xC0 | Low(v >> 6) == a && Cont(v) == b
  {}

  lemma ThreeBits(wc: bv32)
    requires 0x800 <= wc <= 0xFFFF && Scalar(wc)
    ensures var a, b, c := 0xE0 | Low(wc >> 12), Cont(wc >> 6), Cont(wc); Three(a, b, c) && Value3(a, b, c) == wc
  {}

  lemma ThreeBack(a: bv8, b: bv8, c: bv8)
    requires Three(a, b, c)
    ensures var v := Value3(a, b, c);
      0x800 <= v <= 0xFFFF && Scalar(v) && 0xE0 | Low(v >> 12) == a && Cont(v >> 6) == b && Cont(v) == c
  {}

  /** The four bytes, one at a time. */
  lemma LeadOf(wc: bv32)
    requires 0x10000 <= wc <= 0x10FFFF
    ensures var a := 0xF0 | Low(wc >> 18); 0xF0 <= a <= 0xF4 && (Wide(a) & 0x07) << 18 == wc & 0x1C_0000
    ensures var a, b := 0xF0 | Low(wc >> 18), Cont(wc >> 12); (a == 0xF0 ==> b >= 0x90) && (a == 0xF4 ==> b <= 0x8F)
  {}

  lemma ContOf(wc: bv32)
    ensures Tail(Cont(wc)) && Six(Cont(wc)) == wc & 0x3F
  {}

  lemma Joined(wc: bv32)
    requires wc <= 0x1F_FFFF
    ensures (wc & 0x1C_0000) | (((wc >> 12) & 0x3F) << 12) | (((wc >> 6) & 0x3F) << 6) | (wc & 0x3F) == wc
  {}

  lemma FourBits(wc: bv32)
    requires 0x10000 <= wc <= 0x10FFFF
    ensures var a, b, c, d := 0xF0 | Low(wc >> 18), Cont(wc >> 12), Cont(wc >> 6), Cont(wc); Four(a, b, c, d) && Value4(a, b, c, d) == wc
  {
    LeadOf(wc);
    ContOf(wc >> 12);
    ContOf(wc >> 6);
    ContOf(wc);
    Joined(wc);
    hide Low, Cont, Six, Wide, Tail;
  }

  lemma FourBack(a: bv8, b: bv8, c: bv8, d: bv8)
    requires Four(a, b, c, d)
    ensures var v := Value4(a, b, c, d);
      && 0x10000 <= v <= 0x10FFFF && Scalar(v)
      && 0xF0 | Low(v >> 18) == a && Cont(v >> 12) == b && Cont(v >> 6) == c && Cont(v) == d
  {}

  /** Which of the cases applies. */
  lemma Class(wc: bv32)
    ensures !Ascii(wc) && Extra(wc) == 0 <==> 0x80 <= wc <= 0x7FF
    ensures !Ascii(wc) && Extra(wc) == 1 <==> 0x800 <= wc <= 0xFFFF
    ensures !Ascii(wc) && Extra(wc) == 2 <==> 0x10000 <= wc
    ensures Extra(wc) <= 2 && (Ascii(wc) ==> Extra(wc) == 0) && (Scalar(wc) ==> wc <= 0x10FFFF)
  {}

  lemma LeadIs(wc: bv32)
    ensures LeadByte(0, wc) == 0xC0 | Low(wc) && LeadByte(1, wc) == 0xE0 | Low(wc) && LeadByte(2, wc) == 0xF0 | Low(wc)
  {}

  /** The encoding of a character is well-formed and stands for it. */
  lemma EncodeDecodes(wc: bv32)
    requires Scalar(wc)
    ensures WellFormed(Encode(wc), |Encode(wc)|) && Value(Encode(wc), |Encode(wc)|) == wc
  {
    hide Scalar, One, Two, Three, Four, Low, Cont, Wide, Value2, Value3, Value4, Six, LeadByte, Shifted, Extra, Ascii;
    Class(wc);
    ShiftIs(wc);
    LeadIs(Shifted(wc, 1));
    LeadIs(Shifted(wc, 2));
    LeadIs(Shifted(wc, 3));
    if Ascii(wc) { OneBits(wc); } else if Extra(wc) == 0 { TwoBits(wc); } else if Extra(wc) == 1 { ThreeBits(wc); } else { FourBits(wc); }
  }

  lemma TwoScalar(v: bv32)
    requires v <= 0x7FF
    ensures Scalar(v)
  {}

  /** The bytes of a character in the terms of the encoder. */
  lemma Back1(a: bv8)
    requires One(a)
    ensures var v := Wide(a); Scalar(v) && Ascii(v) && Low(v) == a
  {}

  lemma Back2(a: bv8, b: bv8)
    requires Two(a, b)
    ensures var v := Value2(a, b); Scalar(v) && !Ascii(v) && Extra(v) == 0 && LeadByte(0, Shifted(v, 1)) == a && Cont(v) == b
  {
    var v := Value2(a, b);
    TwoBack(a, b);
    TwoScalar(v);
    hide Value2, Two, Low, Cont;
    Class(v);
    ShiftIs(v);
    LeadIs(Shifted(v, 1));
  }

  lemma Back3(a: bv8, b: bv8, c: bv8)
    requires Three(a, b, c)
    ensures var v := Value3(a, b, c);
      && Scalar(v) && !Ascii(v) && Extra(v) == 1
      && LeadByte(1, Shifted(v, 2)) == a && Cont(Shifted(v, 1)) == b && Cont(v) == c
  {
    var v := Value3(a, b, c);
    ThreeBack(a, b, c);
    hide Value3, Three, Low, Cont;
    Class(v);
    ShiftIs(v);
    LeadIs(Shifted(v, 2));
  }

  lemma Back4(a: bv8, b: bv8, c: bv8, d: bv8)
    requires Four(a, b, c, d)
    ensures var v := Value4(a, b, c, d);
      && Scalar(v) && !Ascii(v) && Extra(v) == 2
      && LeadByte(2, Shifted(v, 3)) == a && Cont(Shifted(v, 2)) == b && Cont(Shifted(v, 1)) == c && Cont(v) == d
  {
    var v := Value4(a, b, c, d);
    FourBack(a, b, c, d);
    hide Value4, Four, Low, Cont;
    Class(v);
    ShiftIs(v);
    LeadIs(Shifted(v, 3));
  }

  lemma EncodeIs(v: bv32)
    ensures Encode(v) == if Ascii(v) then [Low(v)] else if Extra(v) == 0 then [LeadByte(0, Shifted(v, 1)), Cont(v)]
                         else if Extra(v) == 1 then [LeadByte(1, Shifted(v, 2)), Cont(Shifted(v, 1)), Cont(v)]
                         else [LeadByte(2, Shifted(v, 3)), Cont(Shifted(v, 2)), Cont(Shifted(v, 1)), Cont(v)]
  {
    hide Low, Cont, LeadByte, Shifted, Extra, Ascii;
  }

  lemma Form1(s: seq<bv8>)
    requires WellFormed(s, 1)
    ensures |s| >= 1 && One(s[0]) && Value(s, 1) == Wide(s[0])
  {
    hide One, Two, Three, Four, Wide, Value2, Value3, Value4;
  }

  lemma Decode1(s: seq<bv8>)
    requires WellFormed(s, 1)
    ensures Scalar(Value(s, 1)) && Encode(Value(s, 1)) == s[..1]
  {
    hide *;
    Form1(s);
    Back1(s[0]);
    EncodeIs(Value(s, 1));
  }

  lemma Form2(s: seq<bv8>)
    requires WellFormed(s, 2)
    ensures |s| >= 2 && Two(s[0], s[1]) && Value(s, 2) == Value2(s[0], s[1])
  {
    hide One, Two, Three, Four, Wide, Value2, Value3, Value4;
  }

  lemma Decode2(s: seq<bv8>)
    requires WellFormed(s, 2)
    ensures Scalar(Value(s, 2)) && Encode(Value(s, 2)) == s[..2]
  {
    hide *;
    Form2(s);
    Back2(s[0], s[1]);
    EncodeIs(Value(s, 2));
  }

  lemma Form3(s: seq<bv8>)
    requires WellFormed(s, 3)
    ensures |s| >= 3 && Three(s[0], s[1], s[2]) && Value(s, 3) == Value3(s[0], s[1], s[2])
  {
    hide One, Two, Three, Four, Wide, Value2, Value3, Value4;
  }

  lemma Decode3(s: seq<bv8>)
    requires WellFormed(s, 3)
    ensures Scalar(Value(s, 3)) && Encode(Value(s, 3)) == s[..3]
  {
    hide *;
    Form3(s);
    Back3(s[0], s[1], s[2]);
    EncodeIs(Value(s, 3));
  }

  lemma Form4(s: seq<bv8>)
    requires WellFormed(s, 4)
    ensures |s| >= 4 && Four(s[0], s[1], s[2], s[3]) && Value(s, 4) == Value4(s[0], s[1], s[2], s[3])
  {
    hide One, Two, Three, Four, Wide, Value2, Value3, Value4;
  }

  lemma Decode4(s: seq<bv8>)
    requires WellFormed(s, 4)
    ensures Scalar(Value(s, 4)) && Encode(Value(s, 4)) == s[..4]
  {
    hide *;
    Form4(s);
    Back4(s[0], s[1], s[2], s[3]);
    EncodeIs(Value(s, 4));
  }

  /** Well-formed bytes are the encoding of the scalar value that they stand for. */
  lemma DecodeEncodes(s: seq<bv8>, n: nat)
    requires WellFormed(s, n)
    ensures Scalar(Value(s, n)) && Encode(Value(s, n)) == s[..n]
  {
    hide *;
    Lengths(s, n);
    if n == 1 { Decode1(s); } else if n == 2 { Decode2(s); } else if n == 3 { Decode3(s); } else { Decode4(s); }
  }

  lemma Lengths(s: seq<bv8>, n: nat)
    requires WellFormed(s, n)
    ensures 1 <= n <= 4 && n <= |s|
  {
    hide One, Two, Three, Four;
  }

  /** There is at most one way to read the beginning of s. */
  lemma OneReading(s: seq<bv8>, n: nat, m: nat)
    requires WellFormed(s, n) && WellFormed(s, m)
    ensures n == m
  {}

  // ---------- encoding ----------

  /** Writes the bytes of a character from the last one to the first. */
  method WcToUtf8(s: array<bv8>, wc0: bv32) returns (n: nat)
    requires s.Length >= 4
    modifies s
    ensures n == |Encode(wc0)| && s[..n] == Encode(wc0) && s[n..] == old(s[n..])
  {
    hide Low, Cont, Shift6, LeadByte, Ascii, Extra;
    var wc := wc0;
    var len := ExtraBytes(wc);
    if Ascii(wc) {
      s[0] := Low(wc);
      n := 1;
    } else {
      var i: int := len;
      while i >= 0
        invariant -1 <= i <= len && s[len + 2..] == old(s[len + 2..]) && wc == Shifted(wc0, len - i)
        invariant i < len ==> s[len + 1] == Cont(wc0)
        invariant i + 1 < len ==> s[len] == Cont(Shifted(wc0, 1))
        invariant i + 2 < len ==> s[len - 1] == Cont(Shifted(wc0, 2))
        decreases i
      {
        s[1 + i] := Cont(wc);
        wc := Shift6(wc);
        i := i - 1;
      }
      s[0] := LeadByte(len, wc);
      n := 2 + len;
    }
  }

  method ExtraBytes(wc: bv32) returns (len: nat)
    ensures len == Extra(wc) <= 2
  {
    len := (if wc > 0x7FF then 1 else 0) + (if wc > 0xFFFF then 1 else 0);
  }

  // ---------- decoding ----------

  /** How many continuation bytes a first byte calls for. */
  function Tails(a: bv8): (n: nat)
    ensures 1 <= n <= 3
  {
    if a <= 0xDF then 1 else if a <= 0xEF then 2 else 3
  }

  predicate Lead(a: bv8) { 0xC2 <= a <= 0xF4 }

  /** All that is there of a character is well, but it is cut short. */
  predicate Cut(s: seq<bv8>) { |s| > 0 && Lead(s[0]) && |s| <= Tails(s[0]) && forall i :: 1 <= i < |s| ==> Tail(s[i]) }

  function Push6(r: bv32, b: bv8): bv32 { (r << 6) | Six(b) }

  /** What the decoding loop has gathered from the first k continuation bytes. */
  function Gathered(s: seq<bv8>, k: nat): bv32
    requires k < |s|
  {
    if k == 0 then Wide(s[0]) else Push6(Gathered(s, k - 1), s[k])
  }

  function Up(a: bv32): bv32 { a << 1 }

  /** The two highest bits of the byte are set. */
  predicate More(a: bv32) { a & 0xC0 == 0xC0 }

  /** The first byte shifted left k times. */
  function Rest(a: bv8, k: nat): bv32 { if k == 0 then Wide(a) else Up(Rest(a, k - 1)) }

  /** Its highest bits tell whether to go on. */
  lemma GoesOn(a: bv8, k: nat)
    requires Lead(a) && k <= Tails(a)
    ensures More(Rest(a, k)) <==> k < Tails(a)
  {
    RestIs(a);
    hide Rest, More, Up, Wide, Lead, Tails;
    GoBits(a);
  }

  lemma RestIs(a: bv8)
    ensures Rest(a, 0) == Wide(a) && Rest(a, 1) == Up(Wide(a)) && Rest(a, 2) == Up(Up(Wide(a))) && Rest(a, 3) == Up(Up(Up(Wide(a))))
  {
    hide Up, Wide;
    assert Rest(a, 1) == Up(Rest(a, 0)) && Rest(a, 2) == Up(Rest(a, 1)) && Rest(a, 3) == Up(Rest(a, 2));
  }

  lemma GoBits(a: bv8)
    requires Lead(a)
    ensures More(Wide(a)) && (More(Up(Wide(a))) <==> Tails(a) > 1)
    ensures Tails(a) >= 2 ==> (More(Up(Up(Wide(a)))) <==> Tails(a) > 2)
    ensures Tails(a) == 3 ==> !More(Up(Up(Up(Wide(a)))))
  {}

  predicate IsTail(c: bv8) { c & 0xC0 == 0x80 }

  lemma TailBits(c: bv8)
    ensures IsTail(c) <==> Tail(c)
  {}

  /** The bits of a character with k continuation bytes. */
  function Masked(v: bv32, k: nat): bv32 { if k == 1 then v & 0x7FF else if k == 2 then v & 0xFFFF else v & 0x1F_FFFF }

  /** Shorter encodings exist. */
  predicate Overlong(v: bv32, k: nat) { v < if k == 1 then 0x80 else if k == 2 then 0x800 else 0x10000 }

  lemma Masked2(a: bv8, b: bv8)
    requires Lead(a) && Tails(a) == 1 && Tail(b)
    ensures var v := Masked(Push6(Wide(a), b), 1); Two(a, b) && v == Value2(a, b) && !Overlong(v, 1) && Scalar(v)
  {}

  lemma Masked3(a: bv8, b: bv8, c: bv8)
    requires Lead(a) && Tails(a) == 2 && Tail(b) && Tail(c)
    ensures var v := Masked(Push6(Push6(Wide(a), b), c), 2);
      v == Value3(a, b, c) && (Three(a, b, c) <==> !Overlong(v, 2) && Scalar(v))
  {}

  lemma Masked4(a: bv8, b: bv8, c: bv8, d: bv8)
    requires Lead(a) && Tails(a) == 3 && Tail(b) && Tail(c) && Tail(d)
    ensures var v := Masked(Push6(Push6(Push6(Wide(a), b), c), d), 3);
      v == Value4(a, b, c, d) && (Four(a, b, c, d) <==> !Overlong(v, 3) && Scalar(v))
  {}

  /** The checks at the end accept exactly the well-formed characters. */
  lemma Checked(s: seq<bv8>, k: nat)
    requires |s| > k > 0 && Lead(s[0]) && k == Tails(s[0]) && forall i :: 1 <= i <= k ==> Tail(s[i])
    ensures var v := Masked(Gathered(s, k), k);
      && (WellFormed(s, k + 1) <==> !Overlong(v, k) && Scalar(v))
      && (WellFormed(s, k + 1) ==> v == Value(s, k + 1))
      && forall n :: n != k + 1 ==> !WellFormed(s, n)
  {
    hide Scalar, One, Two, Three, Four, Value2, Value3, Value4, Six, Push6, Wide, Lead, Tail, Tails, Masked, Overlong;
    OtherLengths(s);
    if k == 1 {
      assert Gathered(s, 1) == Push6(Gathered(s, 0), s[1]);
      Masked2(s[0], s[1]);
    } else if k == 2 {
      assert Gathered(s, 2) == Push6(Gathered(s, 1), s[2]) && Gathered(s, 1) == Push6(Gathered(s, 0), s[1]);
      Masked3(s[0], s[1], s[2]);
    } else {
      assert Gathered(s, 3) == Push6(Gathered(s, 2), s[3]) && Gathered(s, 2) == Push6(Gathered(s, 1), s[2]) && Gathered(s, 1) == Push6(Gathered(s, 0), s[1]);
      Masked4(s[0], s[1], s[2], s[3]);
    }
  }

  /** The first byte determines the length. */
  lemma OtherLengths(s: seq<bv8>)
    requires |s| > 0 && Lead(s[0])
    ensures forall n :: WellFormed(s, n) ==> n == Tails(s[0]) + 1
  {}

  /** Nothing is well-formed that has a bad first or continuation byte, or too few bytes. */
  lemma Malformed(s: seq<bv8>)
    requires |s| > 0 && !One(s[0])
    requires !Lead(s[0]) || |s| <= Tails(s[0]) || exists i :: 1 <= i <= Tails(s[0]) && i < |s| && !Tail(s[i])
    ensures forall n :: !WellFormed(s, n)
  {}

  /** The number of bytes of the character that s begins with, 0 for NUL, -1 if there is none, and -2 if it is cut short. */
  method Utf8ToWc(s: seq<bv8>) returns (r: int, wc: bv32)
    requires |s| > 0
    ensures -2 <= r <= 4 && (r == 0 <==> s[0] == 0)
    ensures r > 0 ==> WellFormed(s, r) && wc == Value(s, r)
    ensures r < 0 ==> forall n :: !WellFormed(s, n)
    ensures r == -2 <==> Cut(s)
  {
    hide *;
    wc := 0;
    FirstByte(s);
    if One(s[0]) {
      wc := Wide(s[0]);
      r := if wc != 0 then 1 else 0;
      return;
    }
    if !Lead(s[0]) {
      Malformed(s);
      NotCut(s);
      return -1, wc;
    }
    var first, result := Wide(s[0]), Wide(s[0]);
    var k := 0;
    Steps(s, 0);
    GoesOn(s[0], 0);
    while More(first)
      invariant 0 <= k <= Tails(s[0]) && k < |s| && first == Rest(s[0], k) && result == Gathered(s, k)
      invariant More(first) <==> k < Tails(s[0])
      invariant forall i :: 1 <= i <= k ==> Tail(s[i])
      decreases Tails(s[0]) - k
    {
      if k + 1 == |s| {
        Malformed(s);
        IsCut(s);
        return -2, wc;
      }
      var c := s[k + 1];
      TailBits(c);
      if !IsTail(c) {
        Malformed(s);
        NotCut(s);
        return -1, wc;
      }
      Steps(s, k + 1);
      GoesOn(s[0], k + 1);
      result := Push6(result, c);
      first := Up(first);
      k := k + 1;
    }
    NotCut(s);
    Checked(s, k);
    result := Masked(result, k);
    if Overlong(result, k) || !Scalar(result) {
      NoneAt(s, k + 1);
      return -1, wc;
    }
    r, wc := k + 1, result;
  }

  lemma FirstByte(s: seq<bv8>)
    requires |s| > 0
    ensures One(s[0]) ==> WellFormed(s, 1) && Value(s, 1) == Wide(s[0]) && !Cut(s) && (Wide(s[0]) == 0 <==> s[0] == 0)
    ensures !One(s[0]) ==> s[0] != 0
  {}

  lemma Steps(s: seq<bv8>, k: nat)
    requires k < |s|
    ensures Gathered(s, k) == if k == 0 then Wide(s[0]) else Push6(Gathered(s, k - 1), s[k])
    ensures Rest(s[0], k) == if k == 0 then Wide(s[0]) else Up(Rest(s[0], k - 1))
  {
    hide Wide, Push6, Up;
  }

  lemma NotCut(s: seq<bv8>)
    requires |s| > 0 && (!Lead(s[0]) || |s| > Tails(s[0]) || exists i :: 1 <= i < |s| && !Tail(s[i]))
    ensures !Cut(s)
  {
    hide Lead, Tails, Tail;
  }

  lemma IsCut(s: seq<bv8>)
    requires |s| > 0 && Lead(s[0]) && |s| <= Tails(s[0]) && forall i :: 1 <= i < |s| ==> Tail(s[i])
    ensures Cut(s)
  {
    hide Lead, Tails, Tail;
  }

  lemma NoneAt(s: seq<bv8>, n: nat)
    requires !WellFormed(s, n) && forall m :: m != n ==> !WellFormed(s, m)
    ensures forall m :: !WellFormed(s, m)
  {}

  /** Characters survive: what is written for one is read back as that character, whatever follows. */
  lemma RoundTrip(wc: bv32, rest: seq<bv8>)
    requires Scalar(wc)
    ensures var s := Encode(wc) + rest; WellFormed(s, |Encode(wc)|) && Value(s, |Encode(wc)|) == wc
  {
    EncodeDecodes(wc);
    hide *;
    Longer(Encode(wc), rest, |Encode(wc)|);
  }

  lemma Longer(s: seq<bv8>, rest: seq<bv8>, n: nat)
    requires n <= |s|
    ensures WellFormed(s, n) <==> WellFormed(s + rest, n)
    ensures WellFormed(s, n) ==> Value(s, n) == Value(s + rest, n)
  {
    hide One, Two, Three, Four, Value2, Value3, Value4, Wide;
  }

  /** Surrogates and numbers beyond the range are written, but not read back as characters. */
  lemma NotReadBack(wc: bv32, n: nat)
    requires 0xD800 <= wc <= 0xDFFF || 0x10FFFF < wc <= 0x1F_FFFF
    ensures !WellFormed(Encode(wc), n)
  {
    Class(wc);
    ShiftIs(wc);
    LeadIs(Shifted(wc, 2));
    LeadIs(Shifted(wc, 3));
    if wc <= 0xFFFF {
      SurrogateBits(wc);
      BeyondNone(Encode(wc), n);
    } else {
      BeyondBits(wc);
      BeyondNone(Encode(wc), n);
    }
  }

  lemma BeyondNone(s: seq<bv8>, n: nat)
    requires |s| >= 2 && ((s[0] == 0xED && s[1] > 0x9F) || s[0] > 0xF4 || (s[0] == 0xF4 && s[1] > 0x8F))
    ensures !WellFormed(s, n)
  {}

  lemma SurrogateBits(wc: bv32)
    requires 0xD800 <= wc <= 0xDFFF
    ensures !Ascii(wc) && Extra(wc) == 1 && 0xE0 | Low(wc >> 12) == 0xED && Cont(wc >> 6) > 0x9F
  {}

  lemma BeyondBits(wc: bv32)
    requires 0x10FFFF < wc <= 0x1F_FFFF
    ensures !Ascii(wc) && Extra(wc) == 2
    ensures var a, b := 0xF0 | Low(wc >> 18), Cont(wc >> 12); a > 0xF4 || (a == 0xF4 && b > 0x8F)
  {}

  // ---------- characters of any bytes ----------

  /** How many bytes the character at the beginning takes; a byte that begins none counts as one. */
  function Step(s: seq<bv8>): (n: nat)
    requires |s| > 0
    ensures 1 <= n <= |s|
  {
    if WellFormed(s, 2) then 2 else if WellFormed(s, 3) then 3 else if WellFormed(s, 4) then 4 else 1
  }

  /** The bytes cut into characters. */
  function Chars(s: seq<bv8>): seq<seq<bv8>> { if s == [] then [] else [s[..Step(s)]] + Chars(s[Step(s)..]) }

  /** How many bytes the first n characters take. */
  function Bytes(s: seq<bv8>, n: nat): (r: nat)
    ensures r <= |s|
    decreases n
  {
    if s == [] || n == 0 then 0 else Step(s) + Bytes(s[Step(s)..], n - 1)
  }

  function Min(a: int, b: int): int { if a < b then a else b }

  /** Cutting bytes off behind a character does not change it. */
  lemma StepPrefix(s: seq<bv8>, k: nat)
    requires |s| > 0 && Step(s) <= k <= |s|
    ensures Step(s[..k]) == Step(s)
  {
    assert s[..k] + s[k..] == s;
    hide WellFormed;
    PrefixForm(s, k, 2);
    PrefixForm(s, k, 3);
    PrefixForm(s, k, 4);
  }

  lemma PrefixForm(s: seq<bv8>, k: nat, n: nat)
    requires k <= |s|
    ensures WellFormed(s[..k], n) <==> n <= k && WellFormed(s, n)
  {
    hide One, Two, Three, Four;
  }

  /** The first n characters, as bytes, are the first n characters. */
  lemma {:induction false} CharsPrefix(s: seq<bv8>, n: nat)
    ensures Bytes(s, n) <= |s| && n <= |Chars(s)| ==> Chars(s[..Bytes(s, n)]) == Chars(s)[..n]
    ensures n > |Chars(s)| ==> Bytes(s, n) == |s|
    decreases n
  {
    hide Step;
    if s != [] && n > 0 {
      var k := Step(s);
      var rest := s[k..];
      CharsPrefix(rest, n - 1);
      var b := Bytes(rest, n - 1);
      StepPrefix(s, k + b);
      assert s[..k + b][..k] == s[..k] && s[..k + b][k..] == rest[..b];
      if n <= |Chars(s)| { assert Chars(s)[..n] == [s[..k]] + Chars(rest)[..n - 1]; }
    }
  }

  /** What follows them are the other characters. */
  lemma {:induction false} CharsSuffix(s: seq<bv8>, n: nat)
    requires n <= |Chars(s)|
    ensures Chars(s[Bytes(s, n)..]) == Chars(s)[n..]
    decreases n
  {
    AllBytes(s);
    NoBytes(s);
    if n > 0 {
      SomeChars(s);
      var k := Step(s);
      CharsFrom(s, 0);
      hide *;
      assert s[0 + k..] == s[k..];
      CharsSuffix(s[k..], n - 1);
      assert s[k..][Bytes(s[k..], n - 1)..] == s[Bytes(s, n)..];
      assert Chars(s)[n..] == Chars(s[k..])[n - 1..];
    }
  }

  lemma SomeChars(s: seq<bv8>)
    requires |Chars(s)| > 0
    ensures |s| > 0
  {}

  lemma AllBytes(s: seq<bv8>)
    ensures s[..|s|] == s && s[0..] == s
  {}

  /** For any bytes: the prefix that n characters take has min(n, count) characters. */
  lemma CountOfBytes(s: seq<bv8>, n: nat)
    ensures |Chars(s[..Bytes(s, n)])| == Min(n, |Chars(s)|)
  {
    hide Step, Bytes, Chars;
    CharsPrefix(s, n);
    AllBytes(s);
  }

  /** One step of the counting loops: what the decoder says, or one byte. */
  lemma StepOf(s: seq<bv8>, r: int)
    requires |s| > 0 && -2 <= r <= 4 && (r == 0 <==> s[0] == 0) && (r > 0 ==> WellFormed(s, r)) && (r < 0 ==> forall n :: !WellFormed(s, n))
    ensures Step(s) == if r > 0 then r else 1
  {
    if r > 0 {
      forall n | WellFormed(s, n) ensures n == r { OneReading(s, n, r); }
    } else if r == 0 {
      NulForm(s);
    }
  }

  lemma NulForm(s: seq<bv8>)
    requires |s| > 0 && s[0] == 0
    ensures !WellFormed(s, 2) && !WellFormed(s, 3) && !WellFormed(s, 4)
  {}

  lemma CharsFrom(s: seq<bv8>, p: nat)
    requires p < |s|
    ensures Chars(s[p..]) == [s[p..][..Step(s[p..])]] + Chars(s[p + Step(s[p..])..])
    ensures forall n: nat :: Bytes(s[p..], n) == if n == 0 then 0 else Step(s[p..]) + Bytes(s[p + Step(s[p..])..], n - 1)
  {
    hide Step;
    assert s[p..][Step(s[p..])..] == s[p + Step(s[p..])..];
  }

  lemma NoChars(s: seq<bv8>)
    ensures Chars(s[|s|..]) == [] && forall n: nat :: Bytes(s[|s|..], n) == 0
  {}

  /** The number of characters; in byte mode, of bytes. */
  method Utf8Cnt(s: seq<bv8>, byBytes: bool) returns (cnt: nat)
    ensures cnt == if byBytes then |s| else |Chars(s)|
  {
    hide *;
    if |s| == 0 || byBytes {
      NoChars(s);
      AllBytes(s);
      return |s|;
    }
    var p := 0;
    cnt := 0;
    AllBytes(s);
    while p < |s|
      invariant p <= |s| && cnt + |Chars(s[p..])| == |Chars(s)|
      decreases |s| - p
    {
      var r, wc := Utf8ToWc(s[p..]);
      StepOf(s[p..], r);
      CharsFrom(s, p);
      p := p + if r > 0 then r else 1;
      cnt := cnt + 1;
    }
    NoChars(s);
  }

  /** How many bytes the first cnt0 characters take; in byte mode, as many. */
  method BytesInUtf8(s: seq<bv8>, cnt0: nat, byBytes: bool) returns (n: nat)
    ensures n == if byBytes then cnt0 else Bytes(s, cnt0)
  {
    hide *;
    if byBytes { return cnt0; }
    var p, cnt := 0, cnt0;
    AllBytes(s);
    while cnt > 0 && p < |s|
      invariant p <= |s| && 0 <= cnt && p + Bytes(s[p..], cnt) == Bytes(s, cnt0)
      decreases |s| - p
    {
      var r, wc := Utf8ToWc(s[p..]);
      StepOf(s[p..], r);
      CharsFrom(s, p);
      p := p + if r > 0 then r else 1;
      cnt := cnt - 1;
    }
    NoChars(s);
    NoBytes(s[p..]);
    n := p;
  }

  lemma NoBytes(s: seq<bv8>)
    ensures Bytes(s, 0) == 0
  {}

  function Clamp(x: int, lo: int, hi: int): int { if x < lo then lo else if x > hi then hi else x }

  /** Character i, counted from 1, belongs to the n0 characters from m0 on, or to all from there on; those before the first do not count. */
  predicate Wanted(i: int, m0: int, n0: int, whole: bool) { i >= m0 && (whole || i < (if m0 < 1 then 1 else m0) + n0) }

  /** The clamped bounds enclose exactly the characters that are wanted. */
  lemma SliceWanted(count: nat, m0: int, n0: int, whole: bool)
    ensures var m := Clamp(m0 - 1, 0, count); var n := if whole then count - m else Clamp(n0, 0, count - m);
      && 0 <= m <= m + n <= count && forall i | 1 <= i <= count :: m < i <= m + n <==> Wanted(i, m0, n0, whole)
  {}

  /** `substr` from character m0 on, counted from 1, n0 characters or all: the characters of the result are a slice of those of s. */
  method Substr(s: seq<bv8>, m0: int, n0: int, whole: bool, byBytes: bool) returns (t: seq<bv8>)
    ensures byBytes ==> var m := Clamp(m0 - 1, 0, |s|); var n := if whole then |s| - m else Clamp(n0, 0, |s| - m); t == s[m..m + n]
    ensures !byBytes ==> var c := |Chars(s)|; var m := Clamp(m0 - 1, 0, c); var n := if whole then c - m else Clamp(n0, 0, c - m);
      Chars(t) == Chars(s)[m..m + n]
  {
    hide Bytes, Chars;
    var nchars := Utf8Cnt(s, byBytes);
    var m := Clamp(m0 - 1, 0, nchars);
    var n := if whole then nchars - m else Clamp(n0, 0, nchars - m);
    var mb := BytesInUtf8(s, m, byBytes);
    var nb := BytesInUtf8(s[mb..], n, byBytes);
    t := s[mb..][..nb];
    if byBytes {
      assert t == s[m..m + n];
    } else {
      CharsSuffix(s, m);
      CharsPrefix(s[mb..], n);
      assert Chars(s)[m..][..n] == Chars(s)[m..m + n];
    }
  }
}
