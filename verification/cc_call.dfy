/** Nested calls: every parameter receives its own argument, and the stack is aligned at every call. */
module CcCall {
  import opened CcAbi
  import opened CcAlign
  import opened Numbers
  import opened Wrappers

  // ---------- calls and what they mean ----------

  /** A value that needs no call, or a call with its arguments; the callee's other variables take `below` bytes. */
  datatype Tree = Datum(id: nat) | Call(f: Tree, args: Args, hidden: bool, below: nat)

  datatype Args = NoArgs | More(kind: Kind, e: Tree, rest: Args)

  /** The address of a buffer for the result is itself a value; a call's value is made of the function and what it finds in its parameters. */
  datatype Val = Known(id: nat) | Buffer | Result(f: Val, params: seq<Val>) | Garbage

  predicate Wf(t: Tree)
    decreases t, 0
  {
    t.Datum? || (Wf(t.f) && WfArgs(t.args))
  }

  predicate WfArgs(args: Args)
    decreases args, 0
  {
    args.NoArgs? || (Fine(args.kind) && Wf(args.e) && WfArgs(args.rest))
  }

  function Meaning(t: Tree): Val
    decreases t, 0
  {
    match t
    case Datum(id) => Known(id)
    case Call(f, args, hidden, _) => Result(Meaning(f), HiddenValue(hidden) + Meanings(args))
  }

  function HiddenValue(hidden: bool): seq<Val> { if hidden then [Buffer] else [] }

  function Count(args: Args): nat { if args.NoArgs? then 0 else 1 + Count(args.rest) }

  function Meanings(args: Args): (r: seq<Val>)
    ensures |r| == Count(args)
    decreases args, 0
  {
    if args.NoArgs? then [] else [Meaning(args.e)] + Meanings(args.rest)
  }

  function Kinds(args: Args): (r: seq<Kind>)
    ensures |r| == Count(args)
  {
    if args.NoArgs? then [] else [args.kind] + Kinds(args.rest)
  }

  lemma {:induction false} KindsFine(args: Args)
    requires WfArgs(args)
    ensures AllFine(Kinds(args))
  {
    if args.More? { KindsFine(args.rest); }
  }

  // ---------- the generated code ----------

  datatype Insn =
    | Compute(id: nat)
    | Pad
    | PushResult(kind: Kind)
    | PushBuffer
    | Load(pop: Pop)
    | CallResult(ks: seq<Kind>, below: nat)
    | Drop(n: nat)

  function HiddenKind(hidden: bool): seq<Kind> { if hidden then [Gp(8)] else [] }

  function First(hidden: bool): nat { if hidden then 1 else 0 }

  function Loads(ps: seq<Pop>): seq<Insn> { if ps == [] then [] else [Load(ps[0])] + Loads(ps[1..]) }

  function HiddenPop(hidden: bool): seq<Pop> { if hidden then [PopGp(0)] else [] }

  function PadCode(pad: nat): seq<Insn> { if pad == 1 then [Pad] else [] }

  function BufferCode(hidden: bool): seq<Insn> { if hidden then [PushBuffer] else [] }

  /** The pieces of a call's code, in order. */
  function CallText(pad: seq<Insn>, onStack: seq<Insn>, inRegs: seq<Insn>, buffer: seq<Insn>, f: seq<Insn>, loads: seq<Insn>, call: seq<Insn>): seq<Insn> {
    var rest := buffer + (f + (loads + call));
    pad + (onStack + (inRegs + rest))
  }

  /** Arguments whose flag is `which`, the last one first, at depth d. */
  function PushAll(args: Args, flags: seq<bool>, which: bool, d: nat): seq<Insn>
    requires |flags| == Count(args)
    decreases args, 0
  {
    if args.NoArgs? then []
    else
      PushAll(args.rest, flags[1..], which, d)
        + if flags[0] == which then
            Gen(args.e, d + CountWords(Kinds(args.rest), flags[1..], which)) + [PushResult(args.kind)]
          else []
  }

  /** Code that computes t when d words are on the stack. */
  function Gen(t: Tree, d: nat): seq<Insn>
    decreases t, 0
  {
    match t
    case Datum(id) => [Compute(id)]
    case Call(f, args, hidden, below) =>
      var ks, h := Kinds(args), First(hidden);
      var flags := Flags(ks, h, 0);
      var n := CountWords(ks, flags, true);
      var pad := (d + n) % 2;
      var d1 := d + pad;
      CallText(PadCode(pad), PushAll(args, flags, true, d1), PushAll(args, flags, false, d1 + n), BufferCode(hidden),
               Gen(f, d1 + n + CountWords(ks, flags, false) + h), Loads(HiddenPop(hidden) + Pops(ks, h, 0)),
               [CallResult(HiddenKind(hidden) + ks, below), Drop(n + pad)])
  }

  // ---------- running it ----------

  /** A word of a value, or anything. */
  datatype Word = Piece(v: Val, j: nat) | Junk

  function HiddenWord(hidden: bool): seq<Word> { if hidden then [Piece(Buffer, 0)] else [] }

  /** The stack, its top at the end, the value just computed, and the registers for arguments. */
  datatype State = State(stack: seq<Word>, res: Val, gp: seq<Word>, fp: seq<Word>)

  predicate Regs(st: State) { |st.gp| == GP_MAX && |st.fp| == FP_MAX }

  /** Evaluating anything may use every register. */
  function Clobber(st: State): (r: State)
    ensures Regs(r) && r.stack == st.stack && r.res == st.res
  {
    st.(gp := seq(GP_MAX, _ => Junk), fp := seq(FP_MAX, _ => Junk))
  }

  /** The words of a value as they are pushed: the first one ends up on top. */
  function Pieces(v: Val, n: nat): (r: seq<Word>)
    ensures |r| == n && forall j :: 0 <= j < n ==> r[j] == Piece(v, n - 1 - j)
  {
    seq(n, j requires 0 <= j < n => Piece(v, n - 1 - j))
  }

  /** Bytes of the callee's frame. */
  datatype Cell = Cell(w: Word, b: nat) | Blank

  type Mem = int -> Cell

  function Store(m: Mem, w: Word, off: int, size: nat): Mem { a => if off <= a < off + size then Cell(w, a - off) else m(a) }

  /** The callee's stores. */
  function RunSaves(saves: seq<Save>, st: State, m: Mem): Mem
    requires Regs(st)
  {
    if saves == [] then m
    else
      match saves[0]
      case SaveGp(r, off, size) => RunSaves(saves[1..], st, Store(m, if r < GP_MAX then st.gp[r] else Junk, off, size))
      case SaveFp(r, off, size) => RunSaves(saves[1..], st, Store(m, if r < FP_MAX then st.fp[r] else Junk, off, size))
  }

  /** The word that is w words below the top of the stack, which is 16 bytes above the callee's frame pointer. */
  function WordAt(stack: seq<Word>, w: int): Word { if 0 <= w < |stack| then stack[|stack| - 1 - w] else Junk }

  /** What a parameter at offset off reads as. */
  function Param(k: Kind, off: int, stack: seq<Word>, m: Mem): Val {
    if off > 0 then
      var w := (off - 16) / 8;
      var x := WordAt(stack, w);
      if off % 8 == 0 && x.Piece? && forall j :: 0 <= j < Words(k) ==> WordAt(stack, w + j) == Piece(x.v, j) then x.v else Garbage
    else
      var x := m(off);
      if x.Cell? && x.w.Piece? && x.w.j == 0 && forall b :: 0 <= b < SizeOf(k) ==> m(off + b) == Cell(x.w, b) then x.w.v else Garbage
  }

  function Params(ks: seq<Kind>, offs: seq<int>, stack: seq<Word>, m: Mem): (r: seq<Val>)
    requires |offs| == |ks|
    ensures |r| == |ks| && forall i :: 0 <= i < |ks| ==> r[i] == Param(ks[i], offs[i], stack, m)
  {
    if ks == [] then [] else [Param(ks[0], offs[0], stack, m)] + Params(ks[1..], offs[1..], stack, m)
  }

  /** The callee places its parameters, saves its registers, and makes its result of what it then finds in the parameters. */
  function Enter(ks: seq<Kind>, below: nat, st: State): Val
    requires Regs(st) && AllFine(ks)
  {
    var offs := CalleeOffsets(ks, below);
    Result(st.res, Params(ks, offs, st.stack, RunSaves(Saves(ks, offs, 0, 0), st, _ => Blank)))
  }

  /** None: a pop from an empty stack, or a call with a stack that is not aligned to two words. */
  function Step(i: Insn, st: State): (r: Option<State>)
    requires Regs(st)
    ensures r.Some? ==> Regs(r.value)
  {
    match i
    case Compute(id) => Some(Clobber(st).(res := Known(id)))
    case Pad => Some(st.(stack := st.stack + [Junk]))
    case PushResult(k) => Some(st.(stack := st.stack + Pieces(st.res, Words(k))))
    case PushBuffer => Some(st.(stack := st.stack + [Piece(Buffer, 0)], res := Buffer))
    case Load(PopGp(r)) =>
      if st.stack == [] || r >= GP_MAX then None else Some(st.(stack := st.stack[..|st.stack| - 1], gp := st.gp[r := st.stack[|st.stack| - 1]]))
    case Load(PopFp(r)) =>
      if st.stack == [] || r >= FP_MAX then None else Some(st.(stack := st.stack[..|st.stack| - 1], fp := st.fp[r := st.stack[|st.stack| - 1]]))
    case CallResult(ks, below) =>
      if |st.stack| % 2 != 0 || !AllFine(ks) then None else Some(Clobber(st).(res := Enter(ks, below, st)))
    case Drop(n) => if n > |st.stack| then None else Some(st.(stack := st.stack[..|st.stack| - n]))
  }

  function Exec(c: seq<Insn>, st: State): (r: Option<State>)
    requires Regs(st)
    ensures r.Some? ==> Regs(r.value)
  {
    if c == [] then Some(st)
    else
      var r := Step(c[0], st);
      if r.Some? then Exec(c[1..], r.value) else None
  }

  lemma {:induction false} ExecCat(a: seq<Insn>, b: seq<Insn>, st: State)
    requires Regs(st)
    ensures Exec(a + b, st) == if Exec(a, st).Some? then Exec(b, Exec(a, st).value) else None
    decreases |a|
  {
    hide Step;
    if a == [] {
      assert a + b == b;
    } else {
      assert (a + b)[1..] == a[1..] + b;
      if Step(a[0], st).Some? { ExecCat(a[1..], b, Step(a[0], st).value); }
    }
  }

  lemma Then(a: seq<Insn>, b: seq<Insn>, st: State, mid: State, r: Option<State>)
    requires Regs(st) && Exec(a, st) == Some(mid) && Exec(b, mid) == r
    ensures Exec(a + b, st) == r
  {
    hide Exec;
    ExecCat(a, b, st);
  }

  lemma ExecOne(i: Insn, st: State)
    requires Regs(st)
    ensures Exec([i], st) == Step(i, st)
  {
    hide Step;
    var r := Step(i, st);
    if r.Some? { assert Exec([i][1..], r.value) == Some(r.value); }
  }

  // ---------- what is on the stack ----------

  /** The words of the arguments whose flag is `which`: the first one's are on top. */
  function Image(ks: seq<Kind>, vs: seq<Val>, flags: seq<bool>, which: bool): (r: seq<Word>)
    requires |vs| == |flags| == |ks|
    ensures |r| == CountWords(ks, flags, which)
  {
    if ks == [] then []
    else Image(ks[1..], vs[1..], flags[1..], which) + if flags[0] == which then Pieces(vs[0], Words(ks[0])) else []
  }

  lemma ImageCons(base: seq<Word>, ks: seq<Kind>, vs: seq<Val>, flags: seq<bool>)
    requires |vs| == |flags| == |ks| && ks != []
    ensures base + Image(ks, vs, flags, true) == (base + Image(ks[1..], vs[1..], flags[1..], true)) + if flags[0] then Pieces(vs[0], Words(ks[0])) else []
  {
    hide Pieces, Words;
  }

  lemma CountCons(ks: seq<Kind>, flags: seq<bool>, i: nat)
    requires |flags| == |ks| && 0 < i <= |ks|
    ensures CountWords(ks[..i], flags[..i], true)
         == (if flags[0] then Words(ks[0]) else 0) + CountWords(ks[1..][..i - 1], flags[1..][..i - 1], true)
  {
    hide Words;
    assert ks[..i][1..] == ks[1..][..i - 1] && flags[..i][1..] == flags[1..][..i - 1];
  }

  /** Argument i is found as many words below the top as the arguments before it take. */
  lemma {:induction false} ReadImage(base: seq<Word>, ks: seq<Kind>, vs: seq<Val>, flags: seq<bool>, i: nat, j: nat)
    requires |vs| == |flags| == |ks| && i < |ks| && flags[i] && j < Words(ks[i])
    ensures WordAt(base + Image(ks, vs, flags, true), CountWords(ks[..i], flags[..i], true) + j) == Piece(vs[i], j)
    decreases |ks|
  {
    var n := Words(ks[0]);
    var own := if flags[0] then Pieces(vs[0], n) else [];
    ImageCons(base, ks, vs, flags);
    var rest := base + Image(ks[1..], vs[1..], flags[1..], true);
    hide Image, Words, Pieces, CountWords;
    if i > 0 {
      hide WordAt;
      ReadImage(base, ks[1..], vs[1..], flags[1..], i - 1, j);
      CountCons(ks, flags, i);
      WordBelow(rest, own, CountWords(ks[1..][..i - 1], flags[1..][..i - 1], true) + j);
    } else {
      NoWords();
      assert (rest + own)[|rest + own| - 1 - j] == own[n - 1 - j];
    }
  }

  lemma NoWords()
    ensures CountWords([], [], true) == 0
  {}

  lemma WordBelow(s: seq<Word>, t: seq<Word>, w: nat)
    ensures WordAt(s + t, |t| + w) == WordAt(s, w)
  {}

  lemma {:induction false} PlaceIs(ks: seq<Kind>, ls: seq<Loc>, words: nat, i: nat)
    requires |ls| == |ks| && i < |ks| && ls[i].OnStack?
    ensures StackPlaces(ks, ls, words)[i] == 16 + 8 * (words + CountWords(ks[..i], OnStacks(ls)[..i], true))
    decreases |ks|
  {
    if i > 0 {
      PlaceIs(ks[1..], ls[1..], if ls[0].OnStack? then words + Words(ks[0]) else words, i - 1);
      assert ks[..i][1..] == ks[1..][..i - 1] && OnStacks(ls)[..i][1..] == OnStacks(ls[1..])[..i - 1];
    }
  }

  // ---------- parameters in the callee ----------

  lemma ParamIs(k: Kind, w: nat, stack: seq<Word>, m: Mem, v: Val)
    requires forall j :: 0 <= j < Words(k) ==> WordAt(stack, w + j) == Piece(v, j)
    ensures Param(k, 16 + 8 * w, stack, m) == v
  {
    hide Words, WordAt;
    PlaceDivides(w);
    assert WordAt(stack, w + 0) == Piece(v, 0);
  }

  /** Parameters on the stack. */
  lemma StackParam(base: seq<Word>, ks: seq<Kind>, vs: seq<Val>, below: nat, i: nat, m: Mem)
    requires AllFine(ks) && |vs| == |ks| && i < |ks| && Locs(ks, 0, 0)[i].OnStack?
    ensures Param(ks[i], CalleeOffsets(ks, below)[i], base + Image(ks, vs, OnStacks(Locs(ks, 0, 0)), true), m) == vs[i]
  {
    hide *;
    var ls := Locs(ks, 0, 0);
    var flags := OnStacks(ls);
    var stack := base + Image(ks, vs, flags, true);
    var w := CountWords(ks[..i], flags[..i], true);
    CalleeSplit(ks, below);
    PlaceIs(ks, ls, 0, i);
    assert CalleeOffsets(ks, below)[i] == 16 + 8 * w;
    forall j | 0 <= j < Words(ks[i]) ensures WordAt(stack, w + j) == Piece(vs[i], j) {
      ReadImage(base, ks, vs, flags, i, j);
    }
    ParamIs(ks[i], w, stack, m, vs[i]);
  }

  lemma PlaceDivides(w: nat)
    ensures (16 + 8 * w) % 8 == 0 && (16 + 8 * w - 16) / 8 == w
  {}

  /** Stores leave all bytes alone that belong to no slot. */
  lemma {:induction false} SavesElsewhere(ks: seq<Kind>, ls: seq<Loc>, offs: seq<int>, st: State, m: Mem, a: int)
    requires |ls| == |offs| == |ks| && Regs(st)
    requires forall i :: 0 <= i < |ks| && !ls[i].OnStack? ==> a < offs[i] || a >= offs[i] + SizeOf(ks[i])
    ensures RunSaves(SavesOf(ks, ls, offs), st, m)(a) == m(a)
    decreases |ks|
  {
    if ks != [] {
      var rest := SavesOf(ks[1..], ls[1..], offs[1..]);
      var c := SaveOf(ks[0], ls[0], offs[0]);
      assert forall i :: 0 <= i < |ks| - 1 ==> ks[1..][i] == ks[i + 1] && ls[1..][i] == ls[i + 1] && offs[1..][i] == offs[i + 1];
      if c == [] {
        assert c + rest == rest;
        SavesElsewhere(ks[1..], ls[1..], offs[1..], st, m, a);
      } else {
        assert (c + rest)[0] == c[0] && (c + rest)[1..] == rest;
        SavesElsewhere(ks[1..], ls[1..], offs[1..], st, Saved(c[0], st, m), a);
      }
    }
  }

  function Saved(c: Save, st: State, m: Mem): Mem
    requires Regs(st)
  {
    match c
    case SaveGp(r, off, size) => Store(m, if r < GP_MAX then st.gp[r] else Junk, off, size)
    case SaveFp(r, off, size) => Store(m, if r < FP_MAX then st.fp[r] else Junk, off, size)
  }

  predicate Apart(ks: seq<Kind>, ls: seq<Loc>, offs: seq<int>)
    requires |ls| == |offs| == |ks|
  {
    forall i, j :: 0 <= i < j < |ks| && !ls[i].OnStack? && !ls[j].OnStack? ==> offs[j] + SizeOf(ks[j]) <= offs[i]
  }

  /** The word in the register at l. */
  function InRegister(l: Loc, st: State): Word
    requires Regs(st)
  {
    match l
    case InGp(r) => if r < GP_MAX then st.gp[r] else Junk
    case InFp(r) => if r < FP_MAX then st.fp[r] else Junk
    case OnStack => Junk
  }

  /** Every slot holds the register that carries its parameter. */
  lemma {:induction false} SlotHolds(ks: seq<Kind>, ls: seq<Loc>, offs: seq<int>, st: State, m: Mem, i: nat, b: nat)
    requires |ls| == |offs| == |ks| && Regs(st) && Apart(ks, ls, offs) && i < |ks| && !ls[i].OnStack? && b < SizeOf(ks[i])
    ensures RunSaves(SavesOf(ks, ls, offs), st, m)(offs[i] + b) == Cell(InRegister(ls[i], st), b)
    decreases |ks|
  {
    var rest := SavesOf(ks[1..], ls[1..], offs[1..]);
    var c := SaveOf(ks[0], ls[0], offs[0]);
    assert forall i :: 0 <= i < |ks| - 1 ==> ks[1..][i] == ks[i + 1] && ls[1..][i] == ls[i + 1] && offs[1..][i] == offs[i + 1];
    var m1 := if c == [] then m else Saved(c[0], st, m);
    if c == [] { assert c + rest == rest; } else { assert (c + rest)[0] == c[0] && (c + rest)[1..] == rest; }
    assert RunSaves(SavesOf(ks, ls, offs), st, m) == RunSaves(rest, st, m1);
    if i == 0 {
      SavesElsewhere(ks[1..], ls[1..], offs[1..], st, m1, offs[0] + b);
    } else {
      SlotHolds(ks[1..], ls[1..], offs[1..], st, m1, i - 1, b);
    }
  }

  lemma CalleeApart(ks: seq<Kind>, below: nat)
    requires AllFine(ks)
    ensures Apart(ks, Locs(ks, 0, 0), CalleeOffsets(ks, below))
  {
    var ls := Locs(ks, 0, 0);
    var places := StackPlaces(ks, ls, 0);
    PlacesSplit(ks, ls, 0);
    forall i, j | 0 <= i < j < |ks| && !ls[i].OnStack? && !ls[j].OnStack?
      ensures CalleeOffsets(ks, below)[j] + SizeOf(ks[j]) <= CalleeOffsets(ks, below)[i]
    {
      SlotsApart(ks, places, below, i, j);
    }
  }

  /** Parameters in registers. */
  lemma RegisterParam(ks: seq<Kind>, v: Val, below: nat, i: nat, st: State)
    requires AllFine(ks) && Regs(st) && i < |ks| && !Locs(ks, 0, 0)[i].OnStack? && InRegister(Locs(ks, 0, 0)[i], st) == Piece(v, 0)
    ensures var offs := CalleeOffsets(ks, below); Param(ks[i], offs[i], st.stack, RunSaves(Saves(ks, offs, 0, 0), st, _ => Blank)) == v
  {
    hide Locs, CalleeOffsets, RunSaves, SavesOf, Saves, Apart, Split, InRegister;
    var ls, offs := Locs(ks, 0, 0), CalleeOffsets(ks, below);
    CalleeSplit(ks, below);
    SplitAt(ls, offs, i);
    CalleeApart(ks, below);
    SavesAgree(ks, offs, 0, 0);
    var m := RunSaves(SavesOf(ks, ls, offs), st, _ => Blank);
    assert Fine(ks[i]);
    forall b | 0 <= b < SizeOf(ks[i]) ensures m(offs[i] + b) == Cell(Piece(v, 0), b) {
      SlotHolds(ks, ls, offs, st, _ => Blank, i, b);
    }
    assert m(offs[i] + 0) == Cell(Piece(v, 0), 0);
  }

  lemma SplitAt(ls: seq<Loc>, offs: seq<int>, i: nat)
    requires |ls| == |offs| && Split(ls, offs) && i < |ls|
    ensures ls[i].OnStack? <==> offs[i] > 0
  {}

  /** The registers carry the arguments that belong there. */
  predicate Carry(ls: seq<Loc>, vs: seq<Val>, st: State)
    requires |vs| == |ls| && Regs(st)
  {
    forall i :: 0 <= i < |ls| && !ls[i].OnStack? ==> InRegister(ls[i], st) == Piece(vs[i], 0)
  }

  /** If the registers carry the arguments that belong there and the others are on the stack, then every parameter reads as its own argument. */
  lemma EnterRight(base: seq<Word>, ks: seq<Kind>, vs: seq<Val>, below: nat, st: State)
    requires AllFine(ks) && Regs(st) && |vs| == |ks| && Carry(Locs(ks, 0, 0), vs, st)
    requires st.stack == base + Image(ks, vs, OnStacks(Locs(ks, 0, 0)), true)
    ensures Enter(ks, below, st) == Result(st.res, vs)
  {
    hide Param, Image, CalleeOffsets, RunSaves, Saves, InRegister, AllFine;
    var offs := CalleeOffsets(ks, below);
    var m := RunSaves(Saves(ks, offs, 0, 0), st, _ => Blank);
    forall i | 0 <= i < |ks| ensures Param(ks[i], offs[i], st.stack, m) == vs[i] {
      if Locs(ks, 0, 0)[i].OnStack? {
        StackParam(base, ks, vs, below, i, m);
      } else {
        RegisterParam(ks, vs[i], below, i, st);
      }
    }
    assert Params(ks, offs, st.stack, m) == vs;
  }

  // ---------- pops ----------

  /** Popping the arguments that were pushed for registers puts each one into its register and leaves the rest of the stack. */
  lemma {:induction false} RunLoads(ks: seq<Kind>, vs: seq<Val>, gp: nat, fp: nat, base: seq<Word>, st: State) returns (st': State)
    requires |vs| == |ks| && Regs(st) && gp <= GP_MAX && fp <= FP_MAX
    requires st.stack == base + Image(ks, vs, OnStacks(Locs(ks, gp, fp)), false)
    ensures Regs(st') && Exec(Loads(PopsOf(Locs(ks, gp, fp))), st) == Some(st') && st'.stack == base && st'.res == st.res
    ensures Carry(Locs(ks, gp, fp), vs, st')
    ensures (forall r :: 0 <= r < gp ==> st'.gp[r] == st.gp[r]) && (forall r :: 0 <= r < fp ==> st'.fp[r] == st.fp[r])
    decreases |ks|
  {
    hide Step, Exec, Pieces, Image, PopsOf, Loads, Locs, Words;
    if ks == [] {
      st' := st;
      LoadsNil(vs, gp, fp, base, st);
    } else {
      var ls, rest := Locs(ks, gp, fp), Locs(ks[1..], if Locs(ks, gp, fp)[0].InGp? then gp + 1 else gp, if Locs(ks, gp, fp)[0].InFp? then fp + 1 else fp);
      LocsCons(ks, gp, fp);
      var s1 := FirstLoad(ks, vs, gp, fp, base, st);
      st' := RunLoads(ks[1..], vs[1..], if ls[0].InGp? then gp + 1 else gp, if ls[0].InFp? then fp + 1 else fp, base, s1);
      Then(Loads(PopOf(ls[0])), Loads(PopsOf(rest)), st, s1, Some(st'));
      LoadsCons(ls);
      forall i | 0 <= i < |ls| && !ls[i].OnStack? ensures InRegister(ls[i], st') == Piece(vs[i], 0) {
        if i > 0 { assert ls[i] == rest[i - 1] && vs[i] == vs[1..][i - 1]; }
      }
    }
  }

  lemma LocsCons(ks: seq<Kind>, gp: nat, fp: nat)
    requires ks != []
    ensures var ls := Locs(ks, gp, fp);
      && ls[1..] == Locs(ks[1..], if ls[0].InGp? then gp + 1 else gp, if ls[0].InFp? then fp + 1 else fp)
      && (ls[0].InGp? ==> ks[0].Gp? && ls[0].r == gp < GP_MAX) && (ls[0].InFp? ==> ks[0].Fp? && ls[0].r == fp < FP_MAX)
  {}

  lemma LoadsNil(vs: seq<Val>, gp: nat, fp: nat, base: seq<Word>, st: State)
    requires vs == [] && Regs(st) && st.stack == base + Image([], [], OnStacks(Locs([], gp, fp)), false)
    ensures Exec(Loads(PopsOf(Locs([], gp, fp))), st) == Some(st) && st.stack == base && Locs([], gp, fp) == []
  {}

  lemma LoadsCons(ls: seq<Loc>)
    requires ls != []
    ensures Loads(PopsOf(ls)) == Loads(PopOf(ls[0])) + Loads(PopsOf(ls[1..]))
  {
    var rest := PopsOf(ls[1..]);
    match ls[0]
    case OnStack => assert PopOf(ls[0]) + rest == rest;
    case InGp(r) => LoadsOne(PopGp(r), rest);
    case InFp(r) => LoadsOne(PopFp(r), rest);
  }

  lemma LoadsOne(p: Pop, rest: seq<Pop>)
    ensures Loads([p] + rest) == Loads([p]) + Loads(rest)
  {
    assert ([p] + rest)[1..] == rest && [p][1..] == [];
  }

  lemma FirstLoad(ks: seq<Kind>, vs: seq<Val>, gp: nat, fp: nat, base: seq<Word>, st: State) returns (s1: State)
    requires ks != [] && |vs| == |ks| && Regs(st) && gp <= GP_MAX && fp <= FP_MAX
    requires st.stack == base + Image(ks, vs, OnStacks(Locs(ks, gp, fp)), false)
    ensures Regs(s1) && s1.res == st.res && Exec(Loads(PopOf(Locs(ks, gp, fp)[0])), st) == Some(s1)
    ensures var ls := Locs(ks, gp, fp);
      && s1.stack == base + Image(ks[1..], vs[1..], OnStacks(ls[1..]), false)
      && (!ls[0].OnStack? ==> InRegister(ls[0], s1) == Piece(vs[0], 0))
      && (forall r :: 0 <= r < gp ==> s1.gp[r] == st.gp[r]) && (forall r :: 0 <= r < fp ==> s1.fp[r] == st.fp[r])
  {
    hide Locs, Words, CountWords;
    var ls := Locs(ks, gp, fp);
    LocsCons(ks, gp, fp);
    var below := base + Image(ks[1..], vs[1..], OnStacks(ls[1..]), false);
    assert OnStacks(ls)[1..] == OnStacks(ls[1..]);
    match ls[0]
    case OnStack =>
      s1 := st;
      assert st.stack == below;
    case InGp(r) =>
      assert st.stack == below + [Piece(vs[0], 0)];
      s1 := st.(stack := below, gp := st.gp[r := Piece(vs[0], 0)]);
      ExecOne(Load(PopGp(r)), st);
      assert Loads(PopOf(ls[0])) == [Load(PopGp(r))];
    case InFp(r) =>
      assert st.stack == below + [Piece(vs[0], 0)];
      s1 := st.(stack := below, fp := st.fp[r := Piece(vs[0], 0)]);
      ExecOne(Load(PopFp(r)), st);
      assert Loads(PopOf(ls[0])) == [Load(PopFp(r))];
  }

  // ---------- the main theorem ----------

  /** Running the code of t from st leaves its value, and the stack as it was. */
  ghost predicate Computes(t: Tree, d: nat, st: State) {
    Regs(st) && var r := Exec(Gen(t, d), st); r.Some? && r.value.stack == st.stack && r.value.res == Meaning(t)
  }

  lemma {:induction false} PushAllCons(args: Args, flags: seq<bool>, which: bool, d: nat)
    requires |flags| == Count(args) && args.More?
    ensures |flags| > 0 && |flags[1..]| == Count(args.rest)
    ensures var d1 := d + CountWords(Kinds(args.rest), flags[1..], which); var c := PushAll(args.rest, flags[1..], which, d);
      PushAll(args, flags, which, d) == if flags[0] == which then c + (Gen(args.e, d1) + [PushResult(args.kind)]) else c
    ensures var im := Image(Kinds(args.rest), Meanings(args.rest), flags[1..], which);
      Image(Kinds(args), Meanings(args), flags, which) == if flags[0] == which then im + Pieces(Meaning(args.e), Words(args.kind)) else im
  {
    hide CountWords, Gen, Meaning, Pieces, Words;
    assert Kinds(args)[1..] == Kinds(args.rest) && Meanings(args)[1..] == Meanings(args.rest);
  }

  /** From st, one pass over the arguments leads to st', with the words of the arguments on the stack. */
  ghost predicate Pushes(args: Args, flags: seq<bool>, which: bool, d: nat, st: State, st': State) {
    && |flags| == Count(args) && Regs(st) && Regs(st') && Exec(PushAll(args, flags, which, d), st) == Some(st')
    && st'.stack == st.stack + Image(Kinds(args), Meanings(args), flags, which)
  }

  lemma ArgsParts(args: Args, flags: seq<bool>, which: bool, d: nat, st: State)
    requires |flags| == Count(args) && WfArgs(args) && Regs(st)
    ensures args.NoArgs? ==> Pushes(args, flags, which, d, st, st)
    ensures args.More? ==> Wf(args.e) && WfArgs(args.rest) && |flags| > 0 && |flags[1..]| == Count(args.rest)
  {
    hide Wf, Step;
  }

  lemma PushesParts(args: Args, flags: seq<bool>, which: bool, d: nat, st: State, st': State)
    requires Pushes(args, flags, which, d, st, st')
    ensures |flags| == Count(args) && Regs(st) && Regs(st') && Exec(PushAll(args, flags, which, d), st) == Some(st')
    ensures st'.stack == st.stack + Image(Kinds(args), Meanings(args), flags, which) && |st'.stack| == |st.stack| + CountWords(Kinds(args), flags, which)
  {
    hide Exec, PushAll, Kinds, Meanings, Image, CountWords;
  }

  /** The rest of the arguments has been pushed, and now this one is. */
  lemma {:induction false} PushesMore(args: Args, flags: seq<bool>, which: bool, d: nat, st: State, s1: State)
    requires args.More? && |flags| > 0 && flags[0] == which && Pushes(args.rest, flags[1..], which, d, st, s1)
    requires Computes(args.e, d + CountWords(Kinds(args.rest), flags[1..], which), s1) && |flags| == Count(args)
    ensures exists st' :: Pushes(args, flags, which, d, st, st')
  {
    hide *;
    PushesParts(args.rest, flags[1..], which, d, st, s1);
    PushAllCons(args, flags, which, d);
    var c, im := PushAll(args.rest, flags[1..], which, d), Image(Kinds(args.rest), Meanings(args.rest), flags[1..], which);
    var d1 := d + CountWords(Kinds(args.rest), flags[1..], which);
    var s2 := ValueOf(args.e, d1, s1);
    var st' := PushOne(args.kind, s2);
    Then(Gen(args.e, d1), [PushResult(args.kind)], s1, s2, Some(st'));
    Then(c, Gen(args.e, d1) + [PushResult(args.kind)], st, s1, Some(st'));
    assert (st.stack + im) + Pieces(Meaning(args.e), Words(args.kind)) == st.stack + (im + Pieces(Meaning(args.e), Words(args.kind)));
    PushesIf(args, flags, which, d, st, st');
  }

  lemma {:induction false} PushesIf(args: Args, flags: seq<bool>, which: bool, d: nat, st: State, st': State)
    requires |flags| == Count(args) && Regs(st) && Regs(st') && Exec(PushAll(args, flags, which, d), st) == Some(st')
    requires st'.stack == st.stack + Image(Kinds(args), Meanings(args), flags, which)
    ensures Pushes(args, flags, which, d, st, st')
  {
    hide Exec, PushAll, Kinds, Meanings, Image;
  }

  lemma {:induction false} PushesSame(args: Args, flags: seq<bool>, which: bool, d: nat, st: State, s1: State)
    requires args.More? && |flags| == Count(args) && |flags| > 0 && flags[0] != which && Pushes(args.rest, flags[1..], which, d, st, s1)
    ensures Pushes(args, flags, which, d, st, s1)
  {
    hide *;
    PushesParts(args.rest, flags[1..], which, d, st, s1);
    PushAllCons(args, flags, which, d);
    PushesIf(args, flags, which, d, st, s1);
  }

  /** One pass over the arguments, the last one first. */
  lemma {:induction false} RunPushAll(args: Args, flags: seq<bool>, which: bool, d: nat, st: State) returns (st': State)
    requires |flags| == Count(args) && WfArgs(args) && Regs(st) && |st.stack| == d
    ensures Pushes(args, flags, which, d, st, st')
    decreases args, 1
  {
    hide *;
    ArgsParts(args, flags, which, d, st);
    if args.NoArgs? {
      st' := st;
    } else {
      var s1 := RunPushAll(args.rest, flags[1..], which, d, st);
      PushesParts(args.rest, flags[1..], which, d, st, s1);
      if flags[0] == which {
        RunTree(args.e, d + CountWords(Kinds(args.rest), flags[1..], which), s1);
        PushesMore(args, flags, which, d, st, s1);
        st' :| Pushes(args, flags, which, d, st, st');
      } else {
        PushesSame(args, flags, which, d, st, s1);
        st' := s1;
      }
    }
  }

  lemma PushOne(k: Kind, st: State) returns (st': State)
    requires Regs(st)
    ensures Regs(st') && Exec([PushResult(k)], st) == Some(st') && st'.stack == st.stack + Pieces(st.res, Words(k)) && st'.res == st.res
  {
    hide Pieces, Words;
    ExecOne(PushResult(k), st);
    st' := st.(stack := st.stack + Pieces(st.res, Words(k)));
  }

  /** A call, all its nested calls included: each parameter receives its own argument, and all stack alignments are right. */
  lemma {:induction false} RunTree(t: Tree, d: nat, st: State)
    requires Wf(t) && Regs(st) && |st.stack| == d
    ensures Computes(t, d, st)
    decreases t, 1
  {
    hide *;
    match t
    case Datum(_) => RunDatum(t, d, st);
    case Call(_, _, _, _) =>
      CallParts(t, d);
      var c := CallCode(t, d);
      var s1 := RunPad(t, d, st);
      var s2 := RunPushAll(t.args, c.flags, true, c.d1, s1);
      PushesParts(t.args, c.flags, true, c.d1, s1, s2);
      var s3 := RunPushAll(t.args, c.flags, false, c.d1 + c.n, s2);
      PushesParts(t.args, c.flags, false, c.d1 + c.n, s2, s3);
      var s4 := RunBuffer(t.hidden, s3);
      RunTree(t.f, c.d2, s4);
      var s5 := ValueOf(t.f, c.d2, s4);
      StagesIf(t, d, st, s1, s2, s3, s4, s5);
      RunCall(t, d, st, s1, s2, s3, s4, s5);
  }

  lemma RunDatum(t: Tree, d: nat, st: State)
    requires t.Datum? && Regs(st)
    ensures Computes(t, d, st)
  {
    ExecOne(Compute(t.id), st);
  }

  /** The pieces of a call's code and the depths between them. */
  datatype Code = Code(flags: seq<bool>, n: nat, pad: nat, d1: nat, d2: nat)

  function CallCode(t: Tree, d: nat): (c: Code)
    requires t.Call?
    ensures |c.flags| == Count(t.args)
  {
    var ks, h := Kinds(t.args), First(t.hidden);
    var flags := Flags(ks, h, 0);
    var n := CountWords(ks, flags, true);
    var pad := (d + n) % 2;
    Code(flags, n, pad, d + pad, d + pad + n + CountWords(ks, flags, false) + h)
  }

  lemma CallParts(t: Tree, d: nat)
    requires Wf(t) && t.Call?
    ensures Wf(t.f) && WfArgs(t.args)
    ensures var c := CallCode(t, d); c.d1 == d + c.pad && c.n == CountWords(Kinds(t.args), c.flags, true)
    ensures var c := CallCode(t, d); c.d2 == c.d1 + c.n + CountWords(Kinds(t.args), c.flags, false) + First(t.hidden)
  {}

  lemma RunPad(t: Tree, d: nat, st: State) returns (st': State)
    requires t.Call? && Regs(st) && |st.stack| == d
    ensures Regs(st') && Exec(PadCode(CallCode(t, d).pad), st) == Some(st') && |st'.stack| == CallCode(t, d).d1
    ensures st.stack == st'.stack[..d]
  {
    hide CountWords, Flags;
    if CallCode(t, d).pad == 1 {
      ExecOne(Pad, st);
      st' := st.(stack := st.stack + [Junk]);
    } else {
      st' := st;
    }
  }

  lemma RunBuffer(hidden: bool, st: State) returns (st': State)
    requires Regs(st)
    ensures Regs(st') && Exec(BufferCode(hidden), st) == Some(st')
    ensures st'.stack == st.stack + HiddenWord(hidden)
    ensures |st'.stack| == |st.stack| + First(hidden)
  {
    if hidden {
      ExecOne(PushBuffer, st);
      st' := st.(stack := st.stack + [Piece(Buffer, 0)], res := Buffer);
    } else {
      st' := st;
    }
  }

  lemma ValueOf(t: Tree, d: nat, st: State) returns (st': State)
    requires Computes(t, d, st)
    ensures Regs(st) && Regs(st') && Exec(Gen(t, d), st) == Some(st') && st'.stack == st.stack && st'.res == Meaning(t)
  {
    hide Exec, Gen, Meaning;
    st' := Exec(Gen(t, d), st).value;
  }

  /** The parameters of a call, the hidden one included, and their values. */
  function AllKinds(t: Tree): seq<Kind>
    requires t.Call?
  {
    HiddenKind(t.hidden) + Kinds(t.args)
  }

  function AllValues(t: Tree): seq<Val>
    requires t.Call?
  {
    HiddenValue(t.hidden) + Meanings(t.args)
  }

  /** The two passes and the hidden push leave exactly the images of all the arguments. */
  lemma {:induction false} ImageAll(t: Tree, d: nat)
    requires Wf(t) && t.Call?
    ensures AllFine(AllKinds(t)) && |AllValues(t)| == |AllKinds(t)|
    ensures var all, vs := AllKinds(t), AllValues(t); var flags := OnStacks(Locs(all, 0, 0)); var c := CallCode(t, d);
      && Image(all, vs, flags, true) == Image(Kinds(t.args), Meanings(t.args), c.flags, true)
      && Image(all, vs, flags, false) == Image(Kinds(t.args), Meanings(t.args), c.flags, false) + HiddenWord(t.hidden)
      && Loads(HiddenPop(t.hidden) + Pops(Kinds(t.args), First(t.hidden), 0)) == Loads(PopsOf(Locs(all, 0, 0)))
  {
    KindsFine(t.args);
    var ks, all, vs := Kinds(t.args), AllKinds(t), AllValues(t);
    AllAgree(ks, t.hidden, t.below);
    var ls := Locs(all, 0, 0);
    hide Locs, Pops, Loads, CountWords, Flags, Saves, CalleeOffsets, Split, AllFine, Kinds, Meanings;
    if t.hidden {
      LocsCons(all, 0, 0);
      HiddenFirst(ks);
      assert all[1..] == ks && vs[1..] == Meanings(t.args) && OnStacks(ls)[1..] == OnStacks(ls[1..]);
      assert Pieces(Buffer, 1) == [Piece(Buffer, 0)];
    } else {
      assert all == ks && vs == Meanings(t.args) && ls[0..] == ls;
    }
  }

  lemma HiddenFirst(ks: seq<Kind>)
    ensures Locs([Gp(8)] + ks, 0, 0)[0] == InGp(0)
  {}

  /** Everything has been pushed, and the function evaluated; s1 is the state after padding. */
  ghost predicate Pushed(t: Tree, d: nat, st: State, s1: State, s5: State) {
    && t.Call? && Regs(st) && |st.stack| == d && Regs(s5) && |s1.stack| == CallCode(t, d).d1 && s1.stack[..d] == st.stack
    && AllFine(AllKinds(t)) && |AllValues(t)| == |AllKinds(t)| && s5.res == Meaning(t.f)
    && var flags := OnStacks(Locs(AllKinds(t), 0, 0));
       && |Image(AllKinds(t), AllValues(t), flags, true)| == CallCode(t, d).n
       && s5.stack == s1.stack + Image(AllKinds(t), AllValues(t), flags, true) + Image(AllKinds(t), AllValues(t), flags, false)
  }

  /** What the end of the code does then. */
  ghost predicate Called(t: Tree, d: nat, st: State, s5: State, st': State) {
    && t.Call? && Regs(s5) && Regs(st') && st'.stack == st.stack && st'.res == Meaning(t)
    && Exec(Loads(PopsOf(Locs(AllKinds(t), 0, 0))) + [CallResult(AllKinds(t), t.below), Drop(CallCode(t, d).n + CallCode(t, d).pad)], s5) == Some(st')
  }

  lemma PushedParts(t: Tree, d: nat, st: State, s1: State, s5: State)
    requires Pushed(t, d, st, s1, s5)
    ensures t.Call? && Regs(st) && |st.stack| == d && Regs(s5) && |s1.stack| == CallCode(t, d).d1 && s1.stack[..d] == st.stack
    ensures AllFine(AllKinds(t)) && |AllValues(t)| == |AllKinds(t)| && s5.res == Meaning(t.f)
    ensures var flags := OnStacks(Locs(AllKinds(t), 0, 0));
      && |Image(AllKinds(t), AllValues(t), flags, true)| == CallCode(t, d).n
      && s5.stack == s1.stack + Image(AllKinds(t), AllValues(t), flags, true) + Image(AllKinds(t), AllValues(t), flags, false)
    ensures Meaning(t) == Result(Meaning(t.f), AllValues(t))
  {
    hide CallCode, AllKinds, Locs, OnStacks, Image, AllFine, Meanings;
  }

  lemma CalledIf(t: Tree, d: nat, st: State, s5: State, st': State)
    requires t.Call? && Regs(s5) && Regs(st') && st'.stack == st.stack && st'.res == Meaning(t)
    requires Exec(Loads(PopsOf(Locs(AllKinds(t), 0, 0))) + [CallResult(AllKinds(t), t.below), Drop(CallCode(t, d).n + CallCode(t, d).pad)], s5) == Some(st')
    ensures Called(t, d, st, s5, st')
  {
    hide Exec, CallCode, AllKinds, Locs, Meaning;
  }

  /** The pops, the call, and the release of the stack. */
  lemma RunCallEnd(t: Tree, d: nat, st: State, s1: State, s5: State) returns (st': State)
    requires Pushed(t, d, st, s1, s5)
    ensures Called(t, d, st, s5, st')
  {
    hide *;
    PushedParts(t, d, st, s1, s5);
    Even(t, d);
    var all, vs, c := AllKinds(t), AllValues(t), CallCode(t, d);
    var ls := Locs(all, 0, 0);
    var base := s1.stack + Image(all, vs, OnStacks(ls), true);
    RegisterCounts();
    var s6 := RunLoads(all, vs, 0, 0, base, s5);
    EnterRight(s1.stack, all, vs, t.below, s6);
    st' := CallAndDrop(all, t.below, c.n + c.pad, s6, d);
    Then(Loads(PopsOf(ls)), [CallResult(all, t.below), Drop(c.n + c.pad)], s5, s6, Some(st'));
    assert base[..d] == s1.stack[..d];
    CalledIf(t, d, st, s5, st');
  }

  lemma RegisterCounts()
    ensures GP_MAX >= 0 && FP_MAX >= 0
  {}

  lemma Even(t: Tree, d: nat)
    requires t.Call?
    ensures var c := CallCode(t, d); (c.d1 + c.n) % 2 == 0 && c.d1 == d + c.pad
  {
    hide CountWords, Flags;
  }

  lemma CallAndDrop(ks: seq<Kind>, below: nat, n: nat, st: State, d: nat) returns (st': State)
    requires Regs(st) && AllFine(ks) && |st.stack| == d + n && |st.stack| % 2 == 0
    ensures Regs(st') && Exec([CallResult(ks, below), Drop(n)], st) == Some(st') && st'.stack == st.stack[..d] && st'.res == Enter(ks, below, st)
  {
    hide Enter, AllFine;
    var s1 := Clobber(st).(res := Enter(ks, below, st));
    ExecOne(CallResult(ks, below), st);
    ExecOne(Drop(n), s1);
    st' := s1.(stack := st.stack[..d]);
    Then([CallResult(ks, below)], [Drop(n)], st, s1, Some(st'));
    assert [CallResult(ks, below)] + [Drop(n)] == [CallResult(ks, below), Drop(n)];
  }

  /** The states between the pieces of a call's code, up to the value of the function. */
  ghost predicate Stages(t: Tree, d: nat, st: State, s1: State, s2: State, s3: State, s4: State, s5: State) {
    && Wf(t) && t.Call? && Regs(st) && |st.stack| == d && Regs(s1) && Regs(s2) && Regs(s3) && Regs(s4) && Regs(s5)
    && var c := CallCode(t, d);
       && Exec(PadCode(c.pad), st) == Some(s1) && |s1.stack| == c.d1 && st.stack == s1.stack[..d]
       && Exec(PushAll(t.args, c.flags, true, c.d1), s1) == Some(s2)
       && s2.stack == s1.stack + Image(Kinds(t.args), Meanings(t.args), c.flags, true)
       && Exec(PushAll(t.args, c.flags, false, c.d1 + c.n), s2) == Some(s3)
       && s3.stack == s2.stack + Image(Kinds(t.args), Meanings(t.args), c.flags, false)
       && Exec(BufferCode(t.hidden), s3) == Some(s4) && s4.stack == s3.stack + HiddenWord(t.hidden)
       && Exec(Gen(t.f, c.d2), s4) == Some(s5) && s5.stack == s4.stack && s5.res == Meaning(t.f)
  }

  lemma {:induction false} StagesIf(t: Tree, d: nat, st: State, s1: State, s2: State, s3: State, s4: State, s5: State)
    requires Wf(t) && t.Call? && Regs(st) && |st.stack| == d && Regs(s1) && Regs(s2) && Regs(s3) && Regs(s4) && Regs(s5)
    requires var c := CallCode(t, d);
       && Exec(PadCode(c.pad), st) == Some(s1) && |s1.stack| == c.d1 && st.stack == s1.stack[..d]
       && Exec(PushAll(t.args, c.flags, true, c.d1), s1) == Some(s2)
       && s2.stack == s1.stack + Image(Kinds(t.args), Meanings(t.args), c.flags, true)
       && Exec(PushAll(t.args, c.flags, false, c.d1 + c.n), s2) == Some(s3)
       && s3.stack == s2.stack + Image(Kinds(t.args), Meanings(t.args), c.flags, false)
       && Exec(BufferCode(t.hidden), s3) == Some(s4) && s4.stack == s3.stack + HiddenWord(t.hidden)
       && Exec(Gen(t.f, c.d2), s4) == Some(s5) && s5.stack == s4.stack && s5.res == Meaning(t.f)
    ensures Stages(t, d, st, s1, s2, s3, s4, s5)
  {
    hide CallCode, Image, Meanings, Meaning, Gen, PushAll, Wf, HiddenWord, BufferCode, PadCode, Kinds, Exec;
  }

  lemma {:induction false} StageParts(t: Tree, d: nat, st: State, s1: State, s2: State, s3: State, s4: State, s5: State)
    requires Stages(t, d, st, s1, s2, s3, s4, s5)
    ensures Wf(t) && t.Call? && Regs(st) && |st.stack| == d && Regs(s5) && s5.res == Meaning(t.f)
    ensures var c := CallCode(t, d);
      && |s1.stack| == c.d1 && st.stack == s1.stack[..d]
      && s5.stack == s1.stack + Image(Kinds(t.args), Meanings(t.args), c.flags, true) + Image(Kinds(t.args), Meanings(t.args), c.flags, false) + HiddenWord(t.hidden)
  {
    hide Exec, CallCode, Kinds, Image, Meanings, Meaning, Gen, PushAll, Wf, HiddenWord, BufferCode, PadCode;
  }

  lemma {:induction false} PushedIf(t: Tree, d: nat, st: State, s1: State, s5: State)
    requires t.Call? && Regs(st) && |st.stack| == d && Regs(s5) && |s1.stack| == CallCode(t, d).d1 && s1.stack[..d] == st.stack
    requires AllFine(AllKinds(t)) && |AllValues(t)| == |AllKinds(t)| && s5.res == Meaning(t.f)
    requires var flags := OnStacks(Locs(AllKinds(t), 0, 0));
      && |Image(AllKinds(t), AllValues(t), flags, true)| == CallCode(t, d).n
      && s5.stack == s1.stack + Image(AllKinds(t), AllValues(t), flags, true) + Image(AllKinds(t), AllValues(t), flags, false)
    ensures Pushed(t, d, st, s1, s5)
  {
    hide CallCode, AllKinds, AllValues, Locs, OnStacks, Image, AllFine, Meaning;
  }

  lemma {:induction false} StagesPushed(t: Tree, d: nat, st: State, s1: State, s2: State, s3: State, s4: State, s5: State)
    requires Stages(t, d, st, s1, s2, s3, s4, s5)
    ensures Pushed(t, d, st, s1, s5)
  {
    hide *;
    StageParts(t, d, st, s1, s2, s3, s4, s5);
    ImageAll(t, d);
    CountIs(t, d);
    var c := CallCode(t, d);
    var a, b, h := Image(Kinds(t.args), Meanings(t.args), c.flags, true), Image(Kinds(t.args), Meanings(t.args), c.flags, false), HiddenWord(t.hidden);
    assert s1.stack + a + b + h == s1.stack + a + (b + h);
    PushedIf(t, d, st, s1, s5);
  }

  lemma {:induction false} RunStages(t: Tree, d: nat, st: State, s1: State, s2: State, s3: State, s4: State, s5: State, st': State, last: seq<Insn>)
    requires Stages(t, d, st, s1, s2, s3, s4, s5) && t.Call? && Regs(s5) && Exec(last, s5) == Some(st')
    ensures var c := CallCode(t, d);
      && Regs(st)
      && Exec(PadCode(c.pad) + (PushAll(t.args, c.flags, true, c.d1) + (PushAll(t.args, c.flags, false, c.d1 + c.n)
           + (BufferCode(t.hidden) + (Gen(t.f, c.d2) + last)))), st) == Some(st')
  {
    hide Exec, CallCode, Kinds, Image, Meanings, Meaning, Gen, PushAll, Wf, HiddenWord, BufferCode, PadCode;
    var c := CallCode(t, d);
    Then(Gen(t.f, c.d2), last, s4, s5, Some(st'));
    var c4 := Gen(t.f, c.d2) + last;
    Then(BufferCode(t.hidden), c4, s3, s4, Some(st'));
    var c3 := BufferCode(t.hidden) + c4;
    Then(PushAll(t.args, c.flags, false, c.d1 + c.n), c3, s2, s3, Some(st'));
    var c2 := PushAll(t.args, c.flags, false, c.d1 + c.n) + c3;
    Then(PushAll(t.args, c.flags, true, c.d1), c2, s1, s2, Some(st'));
    Then(PadCode(c.pad), PushAll(t.args, c.flags, true, c.d1) + c2, st, s1, Some(st'));
  }

  /** From the states between the pieces of a call's code to the whole. */
  lemma {:induction false} RunCall(t: Tree, d: nat, st: State, s1: State, s2: State, s3: State, s4: State, s5: State)
    requires Stages(t, d, st, s1, s2, s3, s4, s5)
    ensures Computes(t, d, st)
  {
    StagesPushed(t, d, st, s1, s2, s3, s4, s5);
    var st' := RunCallEnd(t, d, st, s1, s5);
    RunLast(t, d, st, s1, s2, s3, s4, s5, st');
  }

  lemma {:induction false} RunLast(t: Tree, d: nat, st: State, s1: State, s2: State, s3: State, s4: State, s5: State, st': State)
    requires Stages(t, d, st, s1, s2, s3, s4, s5) && Called(t, d, st, s5, st')
    ensures Computes(t, d, st)
  {
    GenCall(t, d);
    ImageAll(t, d);
    hide CallCode, Image, Meanings, Meaning, Gen, PushAll, Wf, HiddenWord, BufferCode, PadCode, AllKinds, Loads, Pops, PopsOf, Locs, Kinds, Exec, AllValues;
    var last := Loads(PopsOf(Locs(AllKinds(t), 0, 0))) + [CallResult(AllKinds(t), t.below), Drop(CallCode(t, d).n + CallCode(t, d).pad)];
    RunStages(t, d, st, s1, s2, s3, s4, s5, st', last);
  }

  lemma CountIs(t: Tree, d: nat)
    requires t.Call?
    ensures CallCode(t, d).n == CountWords(Kinds(t.args), CallCode(t, d).flags, true)
  {
    hide CountWords, Flags;
  }

  lemma {:induction false} GenCall(t: Tree, d: nat)
    requires t.Call?
    ensures var c := CallCode(t, d);
      Gen(t, d) == CallText(PadCode(c.pad), PushAll(t.args, c.flags, true, c.d1), PushAll(t.args, c.flags, false, c.d1 + c.n), BufferCode(t.hidden),
                            Gen(t.f, c.d2), Loads(HiddenPop(t.hidden) + Pops(Kinds(t.args), First(t.hidden), 0)),
                            [CallResult(AllKinds(t), t.below), Drop(c.n + c.pad)])
  {
    hide CountWords, Flags, PushAll, Loads, Pops;
  }

  /** The stack pointer at depth d in a function with `bottom` bytes of variables, called where it was at rsp: the return address,
      the caller's frame pointer and the frame are below that. */
  function StackAt(rsp: int, bottom: nat, d: nat): int { rsp - 8 - 8 - AlignTo(bottom, 16) - 8 * d }

  /** So an even depth is a stack pointer divisible by 16, in every function that is itself called with such a stack pointer. */
  lemma DepthAligned(rsp: int, bottom: nat, d: nat)
    requires rsp % 16 == 0
    ensures StackAt(rsp, bottom, d) % 16 == 0 <==> d % 2 == 0
  {
    hide AlignTo;
    var size := AlignTo(bottom, 16);
    DivMod(rsp, 16);
    DivMod(size, 16);
    assert StackAt(rsp, bottom, d) == 16 * (rsp / 16 - size / 16 - 1) - 8 * d;
  }

  /** Whatever the depth at which the code of a call begins, the call itself is made with a stack pointer divisible by 16, and gives its value. */
  lemma CallsAligned(t: Tree, rsp: int, bottom: nat, st: State)
    requires Wf(t) && Regs(st) && rsp % 16 == 0 && t.Call?
    ensures var c := CallCode(t, |st.stack|); StackAt(rsp, bottom, c.d1 + c.n) % 16 == 0 && Computes(t, |st.stack|, st)
  {
    var d := |st.stack|;
    hide Gen, Exec, Meaning, Flags, CountWords;
    RunTree(t, d, st);
    DepthAligned(rsp, bottom, CallCode(t, d).d1 + CallCode(t, d).n);
  }
}
