/** Where arguments travel: four loops, two in the caller and two in the callee, that classify the same parameters. */
module CcAbi {
  import opened CcAlign
  import opened Numbers

  const GP_MAX := 6
  const FP_MAX := 8

  /** Integers and pointers, float and double, long double, and structs of more than 16 bytes. */
  datatype Kind = Gp(size: nat) | Fp(size: nat) | LDouble | Big(size: nat)

  predicate Fine(k: Kind) {
    match k
    case Gp(s) => s == 1 || s == 2 || s == 4 || s == 8
    case Fp(s) => s == 4 || s == 8
    case LDouble => true
    case Big(s) => s > 16
  }

  predicate AllFine(ks: seq<Kind>) { forall i :: 0 <= i < |ks| ==> Fine(ks[i]) }

  function SizeOf(k: Kind): nat {
    match k
    case Gp(s) => s
    case Fp(s) => s
    case LDouble => 16
    case Big(s) => s
  }

  /** How many words of eight bytes an argument takes on the stack; none is left out for alignment. */
  function Words(k: Kind): (n: nat)
    ensures n > 0
    ensures k.Gp? || k.Fp? ==> n == 1
  {
    match k
    case Gp(_) => 1
    case Fp(_) => 1
    case LDouble => 2
    case Big(s) => if s == 0 then 1 else (s + 7) / 8
  }

  // ---------- what the System V ABI says ----------

  datatype Loc = InGp(r: nat) | InFp(r: nat) | OnStack

  /** Sections 3.2.2 and 3.2.3: registers go to arguments of their class from left to right while there are any. */
  function Locs(ks: seq<Kind>, gp: nat, fp: nat): (ls: seq<Loc>)
    ensures |ls| == |ks|
  {
    if ks == [] then []
    else
      match ks[0]
      case Gp(_) => if gp < GP_MAX then [InGp(gp)] + Locs(ks[1..], gp + 1, fp) else [OnStack] + Locs(ks[1..], gp, fp)
      case Fp(_) => if fp < FP_MAX then [InFp(fp)] + Locs(ks[1..], gp, fp + 1) else [OnStack] + Locs(ks[1..], gp, fp)
      case LDouble => [OnStack] + Locs(ks[1..], gp, fp)
      case Big(_) => [OnStack] + Locs(ks[1..], gp, fp)
  }

  lemma {:induction false} LocsFit(ks: seq<Kind>, gp: nat, fp: nat)
    ensures var ls := Locs(ks, gp, fp); forall i :: 0 <= i < |ks| ==>
      && (ls[i].InGp? ==> ks[i].Gp? && gp <= ls[i].r < GP_MAX) && (ls[i].InFp? ==> ks[i].Fp? && fp <= ls[i].r < FP_MAX)
    decreases |ks|
  {
    if ks != [] {
      LocsFit(ks[1..], gp, fp);
      LocsFit(ks[1..], gp + 1, fp);
      LocsFit(ks[1..], gp, fp + 1);
    }
  }

  /** No two arguments are given the same register. */
  lemma {:induction false} RegistersDistinct(ks: seq<Kind>, gp: nat, fp: nat, i: nat, j: nat)
    requires i < j < |ks| && !Locs(ks, gp, fp)[i].OnStack?
    ensures Locs(ks, gp, fp)[i] != Locs(ks, gp, fp)[j]
    decreases |ks|
  {
    var ls := Locs(ks, gp, fp);
    var gp', fp' := if ls[0].InGp? then gp + 1 else gp, if ls[0].InFp? then fp + 1 else fp;
    assert ls == [ls[0]] + Locs(ks[1..], gp', fp');
    if i > 0 {
      RegistersDistinct(ks[1..], gp', fp', i - 1, j - 1);
    } else {
      LocsFit(ks[1..], gp', fp');
    }
  }

  /** How many of these are integers or pointers, and how many are floating-point numbers. */
  function Ints(ks: seq<Kind>): nat { if ks == [] then 0 else (if ks[0].Gp? then 1 else 0) + Ints(ks[1..]) }

  function Floats(ks: seq<Kind>): nat { if ks == [] then 0 else (if ks[0].Fp? then 1 else 0) + Floats(ks[1..]) }

  /** The n-th integer argument is in the n-th of six registers, the n-th floating-point one in the n-th of eight, and all others on the stack. */
  lemma {:induction false} LocsCounted(ks: seq<Kind>, gp: nat, fp: nat, i: nat)
    requires i < |ks| && gp <= 6 && fp <= 8
    ensures var g, f := gp + Ints(ks[..i]), fp + Floats(ks[..i]);
      Locs(ks, gp, fp)[i] == match ks[i]
                             case Gp(_) => if g < 6 then InGp(g) else OnStack
                             case Fp(_) => if f < 8 then InFp(f) else OnStack
                             case _ => OnStack
    decreases i
  {
    if i > 0 {
      var ls := Locs(ks, gp, fp);
      var gp', fp' := if ls[0].InGp? then gp + 1 else gp, if ls[0].InFp? then fp + 1 else fp;
      assert ls == [ls[0]] + Locs(ks[1..], gp', fp');
      assert ks[..i][1..] == ks[1..][..i - 1];
      LocsCounted(ks[1..], gp', fp', i - 1);
    }
  }

  /** An argument takes the least number of words that hold it. */
  lemma WordsLeast(k: Kind)
    requires Fine(k)
    ensures 8 * (Words(k) - 1) < SizeOf(k) <= 8 * Words(k)
  {}

  // ---------- the caller decides what goes on the stack ----------

  function Min(a: nat, b: nat): nat { if a < b then a else b }

  function NextGp(k: Kind, gp: nat): nat { if k.Gp? then gp + 1 else gp }

  function NextFp(k: Kind, fp: nat): nat { if k.Fp? then fp + 1 else fp }

  /** No register is left for k after gp integer and fp floating-point arguments. */
  predicate Spills(k: Kind, gp: nat, fp: nat) { if k.Gp? then gp >= GP_MAX else if k.Fp? then fp >= FP_MAX else true }

  /** The flags that the caller's first loop sets; its counters run past the number of registers. */
  function Flags(ks: seq<Kind>, gp: nat, fp: nat): (r: seq<bool>)
    ensures |r| == |ks|
  {
    if ks == [] then [] else [Spills(ks[0], gp, fp)] + Flags(ks[1..], NextGp(ks[0], gp), NextFp(ks[0], fp))
  }

  lemma FlagsFrom(ks: seq<Kind>, gp: nat, fp: nat, i: nat)
    requires i < |ks|
    ensures Flags(ks[i..], gp, fp) == [Spills(ks[i], gp, fp)] + Flags(ks[i + 1..], NextGp(ks[i], gp), NextFp(ks[i], fp))
  {
    assert ks[i..][1..] == ks[i + 1..];
  }

  /** Words of the arguments whose flag is `which`. */
  function CountWords(ks: seq<Kind>, flags: seq<bool>, which: bool): nat
    requires |flags| == |ks|
  {
    if ks == [] then 0 else (if flags[0] == which then Words(ks[0]) else 0) + CountWords(ks[1..], flags[1..], which)
  }

  lemma WordsFrom(ks: seq<Kind>, flags: seq<bool>, rest: seq<bool>, i: nat)
    requires i < |ks| && |flags| == |ks| - i && flags == [flags[0]] + rest
    ensures CountWords(ks[i..], flags, true) == (if flags[0] then Words(ks[i]) else 0) + CountWords(ks[i + 1..], rest, true)
  {
    assert ks[i..][1..] == ks[i + 1..] && flags[1..] == rest;
  }

  function OnStacks(ls: seq<Loc>): (r: seq<bool>)
    ensures |r| == |ls| && forall i :: 0 <= i < |ls| ==> r[i] == ls[i].OnStack?
  {
    if ls == [] then [] else [ls[0].OnStack?] + OnStacks(ls[1..])
  }

  lemma {:induction false} FlagsAgree(ks: seq<Kind>, gp: nat, fp: nat)
    ensures Flags(ks, gp, fp) == OnStacks(Locs(ks, Min(gp, GP_MAX), Min(fp, FP_MAX)))
    decreases |ks|
  {
    if ks != [] {
      FlagsAgree(ks[1..], NextGp(ks[0], gp), NextFp(ks[0], fp));
      LocsHead(ks, gp, fp);
      hide Locs;
    }
  }

  lemma LocsHead(ks: seq<Kind>, gp: nat, fp: nat)
    requires ks != []
    ensures var ls := Locs(ks, Min(gp, GP_MAX), Min(fp, FP_MAX));
      && ls[1..] == Locs(ks[1..], Min(NextGp(ks[0], gp), GP_MAX), Min(NextFp(ks[0], fp), FP_MAX))
      && ls[0].OnStack? == Spills(ks[0], gp, fp)
  {}

  /** The caller's first loop. A hidden result buffer takes the first integer register. */
  method Classify(ks: seq<Kind>, hidden: bool) returns (flags: seq<bool>, stack: nat)
    requires AllFine(ks)
    ensures flags == OnStacks(Locs(ks, if hidden then 1 else 0, 0))
    ensures stack == CountWords(ks, flags, true)
  {
    hide Locs, OnStacks, Flags, CountWords, AlignTo;
    var gp, fp := 0, 0;
    if hidden { gp := gp + 1; }
    ghost var gp0 := gp;
    flags, stack := [], 0;
    for i := 0 to |ks|
      invariant |flags| == i && flags + Flags(ks[i..], gp, fp) == Flags(ks, gp0, 0)
      invariant stack + CountWords(ks[i..], Flags(ks[i..], gp, fp), true) == CountWords(ks, Flags(ks, gp0, 0), true)
    {
      FlagsFrom(ks, gp, fp, i);
      WordsFrom(ks, Flags(ks[i..], gp, fp), Flags(ks[i + 1..], NextGp(ks[i], gp), NextFp(ks[i], fp)), i);
      match ks[i]
      case Big(size) =>
        flags := flags + [true];
        stack := stack + AlignTo(size, 8) / 8;
        WordsOf(size);
      case Fp(_) =>
        flags := flags + [fp >= FP_MAX];
        if fp >= FP_MAX { stack := stack + 1; }
        fp := fp + 1;
      case LDouble =>
        flags := flags + [true];
        stack := stack + 2;
      case Gp(_) =>
        flags := flags + [gp >= GP_MAX];
        if gp >= GP_MAX { stack := stack + 1; }
        gp := gp + 1;
    }
    NoneLeft(ks, flags, gp, fp);
    FlagsAgree(ks, gp0, 0);
  }

  lemma NoneLeft(ks: seq<Kind>, flags: seq<bool>, gp: nat, fp: nat)
    requires |flags| == |ks|
    ensures Flags(ks[|ks|..], gp, fp) == [] && CountWords(ks[|ks|..], [], true) == 0 && flags + [] == flags && ks[0..] == ks
  {}

  lemma WordsOf(size: nat)
    requires size > 0
    ensures AlignTo(size, 8) / 8 == (size + 7) / 8
  {
    QuotientIs((size + 7) / 8 * 8, 8, (size + 7) / 8, 0);
  }

  // ---------- the caller loads the registers ----------

  datatype Pop = PopGp(r: nat) | PopFp(r: nat)

  function Pops(ks: seq<Kind>, gp: nat, fp: nat): seq<Pop> {
    if ks == [] then []
    else
      match ks[0]
      case Gp(_) => if gp < GP_MAX then [PopGp(gp)] + Pops(ks[1..], gp + 1, fp) else Pops(ks[1..], gp, fp)
      case Fp(_) => if fp < FP_MAX then [PopFp(fp)] + Pops(ks[1..], gp, fp + 1) else Pops(ks[1..], gp, fp)
      case LDouble => Pops(ks[1..], gp, fp)
      case Big(_) => Pops(ks[1..], gp, fp)
  }

  function PopOf(l: Loc): seq<Pop> {
    match l
    case InGp(r) => [PopGp(r)]
    case InFp(r) => [PopFp(r)]
    case OnStack => []
  }

  function PopsOf(ls: seq<Loc>): seq<Pop> { if ls == [] then [] else PopOf(ls[0]) + PopsOf(ls[1..]) }

  /** The second loop pops exactly the arguments that the first one has not left on the stack, each into its register. */
  lemma {:induction false} PopsAgree(ks: seq<Kind>, gp: nat, fp: nat)
    ensures Pops(ks, gp, fp) == PopsOf(Locs(ks, gp, fp))
    decreases |ks|
  {
    if ks != [] {
      PopsAgree(ks[1..], gp + 1, fp);
      PopsAgree(ks[1..], gp, fp + 1);
      PopsAgree(ks[1..], gp, fp);
      var ls := Locs(ks, gp, fp);
      assert ls[1..] == Locs(ks[1..], if ls[0].InGp? then gp + 1 else gp, if ls[0].InFp? then fp + 1 else fp);
    }
  }

  /** The caller's second loop. */
  method LoadRegisters(ks: seq<Kind>, hidden: bool) returns (pops: seq<Pop>)
    ensures pops == (if hidden then [PopGp(0)] else []) + PopsOf(Locs(ks, if hidden then 1 else 0, 0))
  {
    var gp, fp := 0, 0;
    pops := [];
    if hidden {
      pops := [PopGp(gp)];
      gp := gp + 1;
    }
    ghost var first, gp0 := pops, gp;
    for i := 0 to |ks|
      invariant pops + Pops(ks[i..], gp, fp) == first + Pops(ks, gp0, 0)
    {
      assert ks[i..][1..] == ks[i + 1..];
      ghost var rest := Pops(ks[i..], gp, fp);
      match ks[i]
      case Fp(_) =>
        if fp < FP_MAX {
          assert rest == [PopFp(fp)] + Pops(ks[i + 1..], gp, fp + 1);
          pops := pops + [PopFp(fp)];
          fp := fp + 1;
        }
      case Gp(_) =>
        if gp < GP_MAX {
          assert rest == [PopGp(gp)] + Pops(ks[i + 1..], gp + 1, fp);
          pops := pops + [PopGp(gp)];
          gp := gp + 1;
        }
      case LDouble =>
      case Big(_) =>
    }
    PopsAgree(ks, gp0, 0);
  }

  // ---------- the callee places its parameters ----------

  /** Offsets of the parameters that are on the stack, from `top` on, and 0 for the others; the counters run past the registers. */
  function StackOffsets(ks: seq<Kind>, gp: nat, fp: nat, top: nat): (r: seq<int>)
    ensures |r| == |ks|
  {
    if ks == [] then []
    else
      var gp', fp' := NextGp(ks[0], gp), NextFp(ks[0], fp);
      if Spills(ks[0], gp, fp) then [AlignTo(top, 8)] + StackOffsets(ks[1..], gp', fp', AlignTo(top, 8) + SizeOf(ks[0]))
      else [0] + StackOffsets(ks[1..], gp', fp', top)
  }

  lemma OffsetsFrom(ks: seq<Kind>, gp: nat, fp: nat, top: nat, i: nat)
    requires i < |ks|
    ensures var gp', fp' := NextGp(ks[i], gp), NextFp(ks[i], fp);
      StackOffsets(ks[i..], gp, fp, top)
        == if Spills(ks[i], gp, fp) then [AlignTo(top, 8)] + StackOffsets(ks[i + 1..], gp', fp', AlignTo(top, 8) + SizeOf(ks[i]))
           else [0] + StackOffsets(ks[i + 1..], gp', fp', top)
  {
    assert ks[i..][1..] == ks[i + 1..];
  }

  /** Word after word from 16 bytes above the frame pointer on. Caller and callee agree on this; the ABI would put a long double at a multiple of 16. */
  function StackPlaces(ks: seq<Kind>, ls: seq<Loc>, words: nat): (r: seq<int>)
    requires |ls| == |ks|
    ensures |r| == |ks|
  {
    if ks == [] then []
    else if ls[0].OnStack? then [16 + 8 * words] + StackPlaces(ks[1..], ls[1..], words + Words(ks[0]))
    else [0] + StackPlaces(ks[1..], ls[1..], words)
  }

  lemma {:induction false} OffsetsAgree(ks: seq<Kind>, gp: nat, fp: nat, top: nat, words: nat)
    requires AllFine(ks) && AlignTo(top, 8) == 16 + 8 * words
    ensures StackOffsets(ks, gp, fp, top) == StackPlaces(ks, Locs(ks, Min(gp, GP_MAX), Min(fp, FP_MAX)), words)
    decreases |ks|
  {
    if ks != [] {
      var k := ks[0];
      var gp', fp' := if k.Gp? then gp + 1 else gp, if k.Fp? then fp + 1 else fp;
      var ls := Locs(ks, Min(gp, GP_MAX), Min(fp, FP_MAX));
      assert ls[1..] == Locs(ks[1..], Min(gp', GP_MAX), Min(fp', FP_MAX));
      if ls[0].OnStack? {
        NextTop(k, words);
        OffsetsAgree(ks[1..], gp', fp', AlignTo(top, 8) + SizeOf(k), words + Words(k));
      } else {
        OffsetsAgree(ks[1..], gp', fp', top, words);
      }
    }
  }

  lemma NextTop(k: Kind, words: nat)
    requires Fine(k)
    ensures AlignTo(16 + 8 * words + SizeOf(k), 8) == 16 + 8 * (words + Words(k))
  {}

  // ---------- slots for the other parameters ----------

  /** Slots below the frame pointer for the parameters whose offset is still 0; the others keep theirs. */
  function Slots(ks: seq<Kind>, offs: seq<int>, bottom: nat): (r: seq<int>)
    requires |offs| == |ks| && AllFine(ks)
    ensures |r| == |ks|
  {
    if ks == [] then []
    else if offs[0] != 0 then [offs[0]] + Slots(ks[1..], offs[1..], bottom)
    else
      var b := AlignTo(bottom + SizeOf(ks[0]), AlignOf(ks[0]));
      [0 - b] + Slots(ks[1..], offs[1..], b)
  }

  function AlignOf(k: Kind): (a: nat)
    requires Fine(k)
    ensures a > 0
  {
    match k
    case Gp(s) => s
    case Fp(s) => s
    case LDouble => 16
    case Big(_) => 1
  }

  lemma SlotsFrom(ks: seq<Kind>, offs: seq<int>, bottom: nat, i: nat)
    requires |offs| == |ks| && AllFine(ks) && i < |ks|
    ensures AllFine(ks[i..]) && AllFine(ks[i + 1..])
    ensures var b := if offs[i] != 0 then bottom else AlignTo(bottom + SizeOf(ks[i]), AlignOf(ks[i]));
      && Slots(ks[i..], offs[i..], bottom) == [if offs[i] != 0 then offs[i] else 0 - b] + Slots(ks[i + 1..], offs[i + 1..], b)
      && Bottom(ks[i..], offs[i..], bottom) == Bottom(ks[i + 1..], offs[i + 1..], b)
  {
    assert ks[i..][1..] == ks[i + 1..] && offs[i..][1..] == offs[i + 1..];
  }

  function Bottom(ks: seq<Kind>, offs: seq<int>, bottom: nat): nat
    requires |offs| == |ks| && AllFine(ks)
  {
    if ks == [] then bottom
    else Bottom(ks[1..], offs[1..], if offs[0] != 0 then bottom else AlignTo(bottom + SizeOf(ks[0]), AlignOf(ks[0])))
  }

  /** Where variable i may be: below `bottom`, aligned, and inside the frame, if it has no place yet. */
  predicate SlotFine(ks: seq<Kind>, offs: seq<int>, r: seq<int>, i: nat, bottom: nat, end: nat)
    requires |offs| == |ks| == |r| && i < |ks| && AllFine(ks)
  {
    if offs[i] != 0 then r[i] == offs[i]
    else 0 - end <= r[i] && r[i] + SizeOf(ks[i]) <= 0 - bottom && r[i] % AlignOf(ks[i]) == 0
  }

  lemma {:induction false} SlotsFit(ks: seq<Kind>, offs: seq<int>, bottom: nat)
    requires |offs| == |ks| && AllFine(ks)
    ensures Bottom(ks, offs, bottom) >= bottom
    ensures forall i :: 0 <= i < |ks| ==> SlotFine(ks, offs, Slots(ks, offs, bottom), i, bottom, Bottom(ks, offs, bottom))
    decreases |ks|
  {
    if ks != [] {
      var k := ks[0];
      var b := if offs[0] != 0 then bottom else AlignTo(bottom + SizeOf(k), AlignOf(k));
      var r, rest, end := Slots(ks, offs, bottom), Slots(ks[1..], offs[1..], b), Bottom(ks, offs, bottom);
      SlotsFit(ks[1..], offs[1..], b);
      if offs[0] == 0 { NegMultiple(b, AlignOf(k)); }
      forall i | 0 <= i < |ks| ensures SlotFine(ks, offs, r, i, bottom, end) {
        if i > 0 { assert SlotFine(ks[1..], offs[1..], rest, i - 1, b, end); }
      }
    }
  }

  /** Slots of different parameters do not overlap. */
  lemma {:induction false} SlotsApart(ks: seq<Kind>, offs: seq<int>, bottom: nat, i: nat, j: nat)
    requires |offs| == |ks| && AllFine(ks) && i < j < |ks| && offs[i] == 0 && offs[j] == 0
    ensures var r := Slots(ks, offs, bottom); r[j] + SizeOf(ks[j]) <= r[i]
    decreases |ks|
  {
    var b := if offs[0] != 0 then bottom else AlignTo(bottom + SizeOf(ks[0]), AlignOf(ks[0]));
    if i > 0 {
      SlotsApart(ks[1..], offs[1..], b, i - 1, j - 1);
    } else {
      SlotsFit(ks[1..], offs[1..], b);
      assert SlotFine(ks[1..], offs[1..], Slots(ks[1..], offs[1..], b), j - 1, b, Bottom(ks[1..], offs[1..], b));
    }
  }

  lemma NegMultiple(b: int, a: nat)
    requires a > 0 && b % a == 0
    ensures (-b) % a == 0
  {
    DivMod(b, a);
    Multiple(a, -(b / a));
    assert a * -(b / a) == -(b / a * a);
  }

  /** The first loop over a function's parameters. */
  method AssignStackOffsets(ks: seq<Kind>) returns (places: seq<int>)
    requires AllFine(ks)
    ensures places == StackPlaces(ks, Locs(ks, 0, 0), 0)
  {
    hide StackPlaces, Locs, StackOffsets, AlignTo;
    places := [];
    var top: nat, gp, fp := 16, 0, 0;
    for i := 0 to |ks|
      invariant |places| == i && places + StackOffsets(ks[i..], gp, fp, top) == StackOffsets(ks, 0, 0, 16)
    {
      OffsetsFrom(ks, gp, fp, top, i);
      var byRegister := false;
      match ks[i] {
        case Fp(_) => byRegister, fp := fp < FP_MAX, fp + 1;
        case Gp(_) => byRegister, gp := gp < GP_MAX, gp + 1;
        case LDouble =>
        case Big(_) =>
      }
      if byRegister {
        places := places + [0];
      } else {
        top := AlignTo(top, 8);
        places := places + [top];
        top := top + SizeOf(ks[i]);
      }
    }
    TopOfStack();
    OffsetsAgree(ks, 0, 0, 16, 0);
  }

  lemma TopOfStack()
    ensures AlignTo(16, 8) == 16
  {}

  /** The second loop: variables of kinds ks, with the offsets they already have, from `start` bytes below the frame pointer on. */
  method AssignSlots(ks: seq<Kind>, places: seq<int>, start: nat) returns (offs: seq<int>, bottom: nat)
    requires AllFine(ks) && |places| == |ks|
    ensures offs == Slots(ks, places, start) && bottom == Bottom(ks, places, start)
  {
    hide Slots, Bottom, AlignTo;
    offs, bottom := [], start;
    for i := 0 to |ks|
      invariant |offs| == i && offs + Slots(ks[i..], places[i..], bottom) == Slots(ks, places, start)
      invariant Bottom(ks[i..], places[i..], bottom) == Bottom(ks, places, start)
    {
      SlotsFrom(ks, places, bottom, i);
      if places[i] != 0 {
        offs := offs + [places[i]];
      } else {
        bottom := bottom + SizeOf(ks[i]);
        bottom := AlignTo(bottom, AlignOf(ks[i]));
        offs := offs + [0 - bottom];
      }
    }
    NoSlotsLeft(ks, places, bottom);
  }

  lemma NoSlotsLeft(ks: seq<Kind>, offs: seq<int>, bottom: nat)
    requires |offs| == |ks|
    ensures Slots(ks[|ks|..], offs[|ks|..], bottom) == [] && Bottom(ks[|ks|..], offs[|ks|..], bottom) == bottom
  {}

  /** Offsets of all parameters, and the size of the frame; a function's other variables come before its parameters. */
  method AssignOffsets(ks: seq<Kind>, others: seq<Kind>) returns (offs: seq<int>, size: nat)
    requires AllFine(ks) && AllFine(others)
    ensures var below := Bottom(others, Zeros(|others|), 0);
      offs == CalleeOffsets(ks, below) && size == AlignTo(Bottom(ks, StackPlaces(ks, Locs(ks, 0, 0), 0), below), 16)
  {
    var places := AssignStackOffsets(ks);
    var o, below := AssignSlots(others, Zeros(|others|), 0);
    var bottom;
    offs, bottom := AssignSlots(ks, places, below);
    size := AlignTo(bottom, 16);
  }

  function Zeros(n: nat): (r: seq<int>)
    ensures |r| == n && forall i :: 0 <= i < n ==> r[i] == 0
  {
    seq(n, _ => 0)
  }

  // ---------- the callee saves its registers ----------

  datatype Save = SaveGp(r: nat, off: int, size: nat) | SaveFp(r: nat, off: int, size: nat)

  /** The stores for parameters whose offset is not above the frame pointer. */
  function Saves(ks: seq<Kind>, offs: seq<int>, gp: nat, fp: nat): seq<Save>
    requires |offs| == |ks|
  {
    if ks == [] then []
    else if offs[0] > 0 then Saves(ks[1..], offs[1..], gp, fp)
    else if ks[0].Fp? then [SaveFp(fp, offs[0], SizeOf(ks[0]))] + Saves(ks[1..], offs[1..], gp, fp + 1)
    else [SaveGp(gp, offs[0], SizeOf(ks[0]))] + Saves(ks[1..], offs[1..], gp + 1, fp)
  }

  function SaveOf(k: Kind, l: Loc, off: int): seq<Save> {
    match l
    case InGp(r) => [SaveGp(r, off, SizeOf(k))]
    case InFp(r) => [SaveFp(r, off, SizeOf(k))]
    case OnStack => []
  }

  function SavesOf(ks: seq<Kind>, ls: seq<Loc>, offs: seq<int>): seq<Save>
    requires |ls| == |offs| == |ks|
  {
    if ks == [] then [] else SaveOf(ks[0], ls[0], offs[0]) + SavesOf(ks[1..], ls[1..], offs[1..])
  }

  /** Parameters on the stack have positive offsets, and the others negative ones. */
  predicate Split(ls: seq<Loc>, offs: seq<int>)
    requires |ls| == |offs|
  {
    forall i :: 0 <= i < |ls| ==> (ls[i].OnStack? <==> offs[i] > 0)
  }

  /** The last loop stores exactly the registers that carry arguments, each to the slot of its own parameter. */
  lemma {:induction false} SavesAgree(ks: seq<Kind>, offs: seq<int>, gp: nat, fp: nat)
    requires |offs| == |ks| && Split(Locs(ks, gp, fp), offs)
    ensures Saves(ks, offs, gp, fp) == SavesOf(ks, Locs(ks, gp, fp), offs)
    decreases |ks|
  {
    if ks != [] {
      var ls := Locs(ks, gp, fp);
      var gp', fp' := if ls[0].InGp? then gp + 1 else gp, if ls[0].InFp? then fp + 1 else fp;
      assert ls[1..] == Locs(ks[1..], gp', fp');
      assert Split(ls[1..], offs[1..]) by {
        forall i | 0 <= i < |ls[1..]| ensures ls[1..][i].OnStack? <==> offs[1..][i] > 0 { assert ls[1..][i] == ls[i + 1] && offs[1..][i] == offs[i + 1]; }
      }
      SavesAgree(ks[1..], offs[1..], gp', fp');
    }
  }

  method SaveRegisters(ks: seq<Kind>, offs: seq<int>) returns (saves: seq<Save>)
    requires |offs| == |ks| && Split(Locs(ks, 0, 0), offs)
    ensures saves == SavesOf(ks, Locs(ks, 0, 0), offs)
  {
    saves := [];
    var gp, fp := 0, 0;
    for i := 0 to |ks|
      invariant saves + Saves(ks[i..], offs[i..], gp, fp) == Saves(ks, offs, 0, 0)
    {
      assert ks[i..][1..] == ks[i + 1..] && offs[i..][1..] == offs[i + 1..];
      if offs[i] <= 0 {
        ghost var rest := Saves(ks[i..], offs[i..], gp, fp);
        if ks[i].Fp? {
          assert rest == [SaveFp(fp, offs[i], SizeOf(ks[i]))] + Saves(ks[i + 1..], offs[i + 1..], gp, fp + 1);
          saves := saves + [SaveFp(fp, offs[i], SizeOf(ks[i]))];
          fp := fp + 1;
        } else {
          assert rest == [SaveGp(gp, offs[i], SizeOf(ks[i]))] + Saves(ks[i + 1..], offs[i + 1..], gp + 1, fp);
          saves := saves + [SaveGp(gp, offs[i], SizeOf(ks[i]))];
          gp := gp + 1;
        }
      }
    }
    SavesAgree(ks, offs, 0, 0);
  }

  // ---------- all four agree ----------

  lemma {:induction false} PlacesSplit(ks: seq<Kind>, ls: seq<Loc>, words: nat)
    requires |ls| == |ks|
    ensures var r := StackPlaces(ks, ls, words);
      forall i :: 0 <= i < |ks| ==> if ls[i].OnStack? then r[i] > 0 && r[i] % 8 == 0 else r[i] == 0
    decreases |ks|
  {
    if ks != [] {
      PlacesSplit(ks[1..], ls[1..], words + Words(ks[0]));
      PlacesSplit(ks[1..], ls[1..], words);
    }
  }

  /** The offsets that the callee uses: stack places, and disjoint slots for the parameters in registers. */
  function CalleeOffsets(ks: seq<Kind>, below: nat): (r: seq<int>)
    requires AllFine(ks)
    ensures |r| == |ks|
  {
    Slots(ks, StackPlaces(ks, Locs(ks, 0, 0), 0), below)
  }

  lemma CalleeSplit(ks: seq<Kind>, below: nat)
    requires AllFine(ks)
    ensures Split(Locs(ks, 0, 0), CalleeOffsets(ks, below))
    ensures var ls := Locs(ks, 0, 0);
      forall i :: 0 <= i < |ks| && ls[i].OnStack? ==> CalleeOffsets(ks, below)[i] == StackPlaces(ks, ls, 0)[i]
  {
    var ls := Locs(ks, 0, 0);
    PlacesSplit(ks, ls, 0);
    var places := StackPlaces(ks, ls, 0);
    SlotsFit(ks, places, below);
    forall i | 0 <= i < |ks| ensures ls[i].OnStack? <==> CalleeOffsets(ks, below)[i] > 0 {
      assert SlotFine(ks, places, Slots(ks, places, below), i, below, Bottom(ks, places, below)) && Fine(ks[i]);
    }
    forall i | 0 <= i < |ks| && ls[i].OnStack? ensures CalleeOffsets(ks, below)[i] == places[i] {
      assert SlotFine(ks, places, Slots(ks, places, below), i, below, Bottom(ks, places, below));
    }
  }

  /** Caller and callee agree, argument by argument: passed on the stack, or in which register. */
  lemma AllAgree(ks: seq<Kind>, hidden: bool, below: nat)
    requires AllFine(ks)
    ensures var all := (if hidden then [Gp(8)] else []) + ks; var g := if hidden then 1 else 0; var ls := Locs(all, 0, 0);
      && AllFine(all) && Flags(ks, g, 0) == OnStacks(ls[g..])
      && (if hidden then [PopGp(0)] else []) + Pops(ks, g, 0) == PopsOf(ls)
      && Split(ls, CalleeOffsets(all, below))
      && Saves(all, CalleeOffsets(all, below), 0, 0) == SavesOf(all, ls, CalleeOffsets(all, below))
  {
    var all := (if hidden then [Gp(8)] else []) + ks;
    var g := if hidden then 1 else 0;
    if hidden { assert all[1..] == ks; } else { assert all == ks; }
    assert Locs(all, 0, 0)[g..] == Locs(ks, g, 0);
    FlagsAgree(ks, g, 0);
    PopsAgree(ks, g, 0);
    CalleeSplit(all, below);
    SavesAgree(all, CalleeOffsets(all, below), 0, 0);
  }
}
