/** The generator of calls: it counts what is on the stack, and pads where the count at the call would be odd. */
module CcArgGen {
  import opened CcAbi
  import opened CcCall
  import opened Numbers

  class CallGen {
    var out: seq<Insn>
    var depth: int

    constructor ()
      ensures out == [] && depth == 0
    {
      out, depth := [], 0;
    }

    method Emit(c: seq<Insn>)
      modifies this`out
      ensures out == old(out) + c
    {
      out := out + c;
    }

    /** The code of t at the current depth, which is the same afterwards. */
    method GenExpr(t: Tree)
      requires Wf(t) && depth >= 0
      modifies this
      ensures out == old(out) + Gen(t, old(depth)) && depth == old(depth)
      decreases t, 2
    {
      match t
      case Datum(id) => Emit([Compute(id)]);
      case Call(_, _, _, _) => GenFuncall(t);
    }

    method GenFuncall(t: Tree)
      requires Wf(t) && t.Call? && depth >= 0
      modifies this
      ensures out == old(out) + Gen(t, old(depth)) && depth == old(depth)
      decreases t, 1
    {
      hide *;
      CallParts(t, depth);
      GenCall(t, depth);
      AllKindsAre(t);
      ghost var was, d, c := out, depth, CallCode(t, depth);
      var stack := PushArgs(t);
      GenExpr(t.f);
      var pops := LoadRegisters(Kinds(t.args), t.hidden);
      PopsAgree(Kinds(t.args), First(t.hidden), 0);
      PopsLength(t, d);
      Emit(Loads(pops));
      depth := depth - |pops|;
      Emit([CallResult(HiddenKind(t.hidden) + Kinds(t.args), t.below), Drop(stack)]);
      depth := depth - stack;
      JoinsAll(was, PadCode(c.pad), PushAll(t.args, c.flags, true, c.d1), PushAll(t.args, c.flags, false, c.d1 + c.n), BufferCode(t.hidden),
               Gen(t.f, c.d2), Loads(pops), [CallResult(AllKinds(t), t.below), Drop(stack)]);
    }

    /** Classifies the arguments, pads, and pushes first what stays on the stack and then what goes into registers. */
    method PushArgs(t: Tree) returns (stack: nat)
      requires Wf(t) && t.Call? && depth >= 0
      modifies this
      ensures var c := CallCode(t, old(depth));
        && stack == c.n + c.pad && depth == c.d2
        && out == old(out) + PadCode(c.pad) + PushAll(t.args, c.flags, true, c.d1) + PushAll(t.args, c.flags, false, c.d1 + c.n) + BufferCode(t.hidden)
      decreases t, 0
    {
      hide *;
      CallParts(t, depth);
      KindsFine(t.args);
      FlagsAre(t, depth);
      ghost var c := CallCode(t, depth);
      var flags;
      flags, stack := Classify(Kinds(t.args), t.hidden);
      Padding(t, depth);
      if (depth + stack) % 2 == 1 {
        Emit([Pad]);
        depth := depth + 1;
        stack := stack + 1;
      }
      PushArgs2(t.args, flags, true);
      PushArgs2(t.args, flags, false);
      HiddenPush(t.hidden);
      if t.hidden {
        Emit([PushBuffer]);
        depth := depth + 1;
      }
    }

    method PushArgs2(args: Args, flags: seq<bool>, which: bool)
      requires WfArgs(args) && |flags| == Count(args) && depth >= 0
      modifies this
      ensures out == old(out) + PushAll(args, flags, which, old(depth)) && depth == old(depth) + CountWords(Kinds(args), flags, which)
      decreases args, 2
    {
      hide *;
      PassParts(args, flags, which, depth);
      if args.More? {
        ghost var was, d := out, depth;
        PushArgs2(args.rest, flags[1..], which);
        if flags[0] == which {
          GenExpr(args.e);
          Emit([PushResult(args.kind)]);
          depth := depth + Words(args.kind);
          ghost var d1 := d + CountWords(Kinds(args.rest), flags[1..], which);
          Joins(was, PushAll(args.rest, flags[1..], which, d), Gen(args.e, d1), [PushResult(args.kind)]);
        }
      }
    }
  }

  lemma Joins(was: seq<Insn>, a: seq<Insn>, b: seq<Insn>, c: seq<Insn>)
    ensures was + a + b + c == was + (a + (b + c))
  {}

  /** One step of a pass. */
  lemma {:induction false} PassParts(args: Args, flags: seq<bool>, which: bool, d: nat)
    requires WfArgs(args) && |flags| == Count(args)
    ensures args.NoArgs? ==> PushAll(args, flags, which, d) == [] && CountWords(Kinds(args), flags, which) == 0
    ensures args.More? ==> Wf(args.e) && WfArgs(args.rest) && |flags| > 0 && |flags[1..]| == Count(args.rest)
    ensures args.More? ==> var n := CountWords(Kinds(args.rest), flags[1..], which); var c := PushAll(args.rest, flags[1..], which, d);
      && PushAll(args, flags, which, d) == (if flags[0] == which then c + (Gen(args.e, d + n) + [PushResult(args.kind)]) else c)
      && CountWords(Kinds(args), flags, which) == (if flags[0] == which then Words(args.kind) else 0) + n
  {
    hide Gen, Wf, Words;
    if args.More? { assert Kinds(args)[1..] == Kinds(args.rest); }
  }

  lemma {:induction false} FlagsAre(t: Tree, d: nat)
    requires t.Call?
    ensures CallCode(t, d).flags == OnStacks(Locs(Kinds(t.args), First(t.hidden), 0)) && First(t.hidden) == if t.hidden then 1 else 0
  {
    FlagsAgree(Kinds(t.args), First(t.hidden), 0);
    hide CountWords, Locs, Flags, Kinds;
  }

  lemma {:induction false} Padding(t: Tree, d: nat)
    requires t.Call?
    ensures var c := CallCode(t, d);
      && c.pad == (if (d + c.n) % 2 == 1 then 1 else 0) && PadCode(c.pad) == (if (d + c.n) % 2 == 1 then [Pad] else [])
  {
    hide CountWords, Flags, Kinds;
  }

  lemma HiddenPush(hidden: bool)
    ensures BufferCode(hidden) == (if hidden then [PushBuffer] else []) && First(hidden) == (if hidden then 1 else 0)
  {}

  /** As many pops as pushes for registers. */
  lemma {:induction false} PopsLength(t: Tree, d: nat)
    requires t.Call?
    ensures var ps := (if t.hidden then [PopGp(0)] else []) + PopsOf(Locs(Kinds(t.args), if t.hidden then 1 else 0, 0));
      && |ps| == CountWords(Kinds(t.args), CallCode(t, d).flags, false) + First(t.hidden)
      && ps == HiddenPop(t.hidden) + PopsOf(Locs(Kinds(t.args), First(t.hidden), 0))
  {
    FlagsAre(t, d);
    CountPops(Kinds(t.args), First(t.hidden), 0);
    hide CountWords, Locs, Kinds, CallCode;
  }

  lemma {:induction false} CountPops(ks: seq<Kind>, gp: nat, fp: nat)
    ensures |PopsOf(Locs(ks, gp, fp))| == CountWords(ks, OnStacks(Locs(ks, gp, fp)), false)
    decreases |ks|
  {
    if ks != [] {
      LocsCons(ks, gp, fp);
      var ls := Locs(ks, gp, fp);
      assert OnStacks(ls)[1..] == OnStacks(ls[1..]);
      CountPops(ks[1..], if ls[0].InGp? then gp + 1 else gp, if ls[0].InFp? then fp + 1 else fp);
    }
  }

  lemma AllKindsAre(t: Tree)
    requires t.Call?
    ensures AllKinds(t) == HiddenKind(t.hidden) + Kinds(t.args)
  {
    hide Kinds, HiddenKind;
  }

  /** The pieces in the order in which they are emitted. */
  lemma JoinsAll(was: seq<Insn>, pad: seq<Insn>, a: seq<Insn>, b: seq<Insn>, buffer: seq<Insn>, f: seq<Insn>, loads: seq<Insn>, call: seq<Insn>)
    ensures was + pad + a + b + buffer + f + loads + call == was + CallText(pad, a, b, buffer, f, loads, call)
  {}

  /** A whole call at the beginning of an empty function: its code computes its value and every push is undone. */
  method GenCallCode(t: Tree) returns (code: seq<Insn>, depth: int)
    requires Wf(t)
    ensures code == Gen(t, 0) && depth == 0
  {
    var g := new CallGen();
    g.GenExpr(t);
    code, depth := g.out, g.depth;
  }
}
