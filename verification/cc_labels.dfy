/** The generator numbers labels so that each one is defined at most once. */
module CcLabels {
  import opened CcInt
  import opened CcMachine
  import opened CcGen
  import opened Wrappers

  /** c defines l at most once, and not at all unless l's number is from lo up to hi. */
  ghost predicate Defines(c: seq<Insn>, l: Label, lo: nat, hi: nat) {
    CountLabel(c, l) <= if lo <= l.n < hi then 1 else 0
  }

  lemma DefinesCat(a: seq<Insn>, b: seq<Insn>, l: Label, lo: nat, mid: nat, hi: nat)
    requires lo <= mid <= hi && Defines(a, l, lo, mid) && Defines(b, l, mid, hi)
    ensures Defines(a + b, l, lo, hi)
  {
    CountCat(a, b, l);
  }

  lemma NoLabels(c: seq<Insn>, l: Label)
    requires forall i :: i in c ==> !i.Lbl?
    ensures CountLabel(c, l) == 0
  {
    if c != [] { NoLabels(c[1..], l); }
  }

  function Is(i: Insn, l: Label): nat { if i == Lbl(l) then 1 else 0 }

  lemma CountOne(a: Insn, l: Label)
    ensures CountLabel([a], l) == Is(a, l)
  {
    assert [a][1..] == [];
  }

  lemma CountTwo(a: Insn, b: Insn, l: Label)
    ensures CountLabel([a, b], l) == Is(a, l) + Is(b, l)
  {
    assert [a, b] == [a] + [b];
    CountCat([a], [b], l);
    CountOne(a, l);
    CountOne(b, l);
  }

  lemma CountThree(a: Insn, b: Insn, c: Insn, l: Label)
    ensures CountLabel([a, b, c], l) == Is(a, l) + Is(b, l) + Is(c, l)
  {
    assert [a, b, c] == [a, b] + [c];
    CountCat([a, b], [c], l);
    CountTwo(a, b, l);
    CountOne(c, l);
  }

  lemma OpNoLabels(op: BinOp, t: Ty, l: Label)
    ensures CountLabel(OpCode(op, t), l) == 0
  {
    hide CountLabel;
    var w := Size(t);
    CountOne(Alu(op, w), l);
    var a, b := if Unsigned(t) then ZeroRdx(w) else SignRdx(w), if Unsigned(t) then DivU(w) else DivS(w);
    CountTwo(a, b, l);
    CountOne(MovRdxRax, l);
    CountCat([a, b], [MovRdxRax], l);
    CountCat([a, b], [], l);
    NoLabels([], l);
  }

  lemma CmpNoLabels(op: CmpOp, t: Ty, l: Label)
    ensures CountLabel(CmpCode(op, t), l) == 0
  {
    hide CountLabel;
    CountThree(CmpRdi(Size(t)), SetAl(CmpFlag(op, t)), ZxAl, l);
  }

  lemma ShiftNoLabels(left: bool, t: Ty, l: Label)
    ensures CountLabel(ShiftCode(left, t), l) == 0
  {
    hide CountLabel;
    var w := Size(t);
    CountTwo(MovRdiRcx, if left then ShlCl(w) else if Unsigned(t) then ShrCl(w) else SarCl(w), l);
  }

  lemma CastNoLabels(from: Ty, to: Ty, l: Label)
    ensures CountLabel(CastCode(from, to), l) == 0
  {
    hide CountLabel;
    NoLabels([], l);
    CountOne(Movsxd, l);
    CountOne(MovEaxEax, l);
  }

  lemma Cat3Count(a: seq<Insn>, b: seq<Insn>, c: seq<Insn>, l: Label)
    ensures CountLabel(a + (b + c), l) == CountLabel(a, l) + CountLabel(b, l) + CountLabel(c, l)
  {
    CountCat(a, b + c, l);
    CountCat(b, c, l);
  }

  lemma TailCount(v: int, kind: LabelKind, k: nat, l: Label)
    ensures CountLabel(LogTail(v, kind, k), l) == Is(Lbl(Label(kind, k)), l) + Is(Lbl(Label(LEnd, k)), l)
  {
    assert LogTail(v, kind, k) == [MovImm(v), Jmp(Label(LEnd, k))] + [Lbl(Label(kind, k)), MovImm(1 - v), Lbl(Label(LEnd, k))];
    CountCat([MovImm(v), Jmp(Label(LEnd, k))], [Lbl(Label(kind, k)), MovImm(1 - v), Lbl(Label(LEnd, k))], l);
    CountTwo(MovImm(v), Jmp(Label(LEnd, k)), l);
    CountThree(Lbl(Label(kind, k)), MovImm(1 - v), Lbl(Label(LEnd, k)), l);
  }

  lemma OperandsCount(cr: seq<Insn>, cl: seq<Insn>, l: Label)
    ensures CountLabel(Operands(cr, cl), l) == CountLabel(cr, l) + CountLabel(cl, l)
  {
    Cat3Count(cr, [Push], cl + [PopRdi], l);
    CountCat(cl, [PopRdi], l);
    CountOne(Push, l);
    CountOne(PopRdi, l);
  }

  // ---------- shapes of code ----------

  lemma DefinesThen(c: seq<Insn>, tail: seq<Insn>, l: Label, lo: nat, hi: nat)
    requires Defines(c, l, lo, hi) && CountLabel(tail, l) == 0
    ensures Defines(c + tail, l, lo, hi)
  {
    hide CountLabel;
    CountCat(c, tail, l);
  }

  /** Two operands and then instructions that are no labels. */
  lemma DefinesBinary(cr: seq<Insn>, cl: seq<Insn>, c: seq<Insn>, l: Label, k: nat, nr: nat, nl: nat)
    requires Defines(cr, l, k, k + nr) && Defines(cl, l, k + nr, k + nr + nl) && CountLabel(c, l) == 0
    ensures Defines(Operands(cr, cl) + c, l, k, k + (nr + nl))
  {
    hide CountLabel, Operands;
    OperandsCount(cr, cl, l);
    DefinesThen(Operands(cr, cl), c, l, k, k + nr + nl);
  }

  lemma DefinesLogic(or: bool, cl: seq<Insn>, tl: Ty, cr: seq<Insn>, tr: Ty, l: Label, k: nat, nl: nat, nr: nat)
    requires Defines(cl, l, k + 1, k + 1 + nl) && Defines(cr, l, k + 1 + nl, k + 1 + nl + nr)
    ensures Defines(LogCode(or, cl, tl, cr, tr, k), l, k, k + (1 + nl + nr))
  {
    hide CountLabel, LogTail;
    var wl, wr, j, tail := Size(tl), Size(tr), TestJump(or, Label(LogKind(or), k)), LogTail(Truth(!or), LogKind(or), k);
    TailCount(Truth(!or), LogKind(or), k, l);
    Cat3Count(cr, [CmpZero(wr), j], tail, l);
    CountTwo(CmpZero(wr), j, l);
    Cat3Count(cl, [CmpZero(wl), j], cr + ([CmpZero(wr), j] + tail), l);
    CountTwo(CmpZero(wl), j, l);
  }

  lemma DefinesBranch(cc: seq<Insn>, tc: Ty, ct: seq<Insn>, cf: seq<Insn>, l: Label, k: nat, nc: nat, nt: nat, nf: nat)
    requires Defines(cc, l, k + 1, k + 1 + nc) && Defines(ct, l, k + 1 + nc, k + 1 + nc + nt)
    requires Defines(cf, l, k + 1 + nc + nt, k + 1 + nc + nt + nf)
    ensures Defines(BranchCode(cc, tc, ct, cf, k), l, k, k + (1 + nc + nt + nf))
  {
    hide CountLabel;
    var e := [Lbl(Label(LEnd, k))];
    var m := [Jmp(Label(LEnd, k)), Lbl(Label(LElse, k))];
    Cat3Count(cc, [CmpZero(Size(tc)), TestJump(false, Label(LElse, k))], ct + (m + (cf + e)), l);
    Cat3Count(ct, m, cf + e, l);
    CountCat(cf, e, l);
    CountTwo(CmpZero(Size(tc)), TestJump(false, Label(LElse, k)), l);
    CountTwo(Jmp(Label(LEnd, k)), Lbl(Label(LElse, k)), l);
    CountOne(Lbl(Label(LEnd, k)), l);
  }

  lemma DefinesLoop(ch: seq<Insn>, cb: seq<Insn>, ct: seq<Insn>, l: Label, k: nat, lo: nat, nh: nat, nb: nat, nt: nat)
    requires k < lo && Defines(ch, l, lo, lo + nh) && Defines(cb, l, lo + nh, lo + nh + nb) && Defines(ct, l, lo + nh + nb, lo + nh + nb + nt)
    ensures CountLabel(LoopCode(ch, cb, ct, k), l) <= if l.n == k || lo <= l.n < lo + nh + nb + nt then 1 else 0
  {
    hide CountLabel;
    var a, b, c := [Lbl(Label(LBegin, k))], [Lbl(Label(LCont, k))], [Lbl(Label(LBrk, k))];
    Cat3Count(a, ch, cb + (b + (ct + c)), l);
    Cat3Count(cb, b, ct + c, l);
    CountCat(ct, c, l);
    CountOne(Lbl(Label(LBegin, k)), l);
    CountOne(Lbl(Label(LCont, k)), l);
    CountOne(Lbl(Label(LBrk, k)), l);
  }

  lemma DefinesFor(ci: seq<Insn>, ch: seq<Insn>, cb: seq<Insn>, ct: seq<Insn>, l: Label, k: nat, ni: nat, nh: nat, nb: nat, nt: nat)
    requires Defines(ci, l, k + 1, k + 1 + ni) && Defines(ch, l, k + 1 + ni, k + 1 + ni + nh)
    requires Defines(cb, l, k + 1 + ni + nh, k + 1 + ni + nh + nb) && Defines(ct, l, k + 1 + ni + nh + nb, k + 1 + ni + nh + nb + nt)
    ensures Defines(ci + LoopCode(ch, cb, ct, k), l, k, k + (1 + ni + nh + nb + nt))
  {
    hide CountLabel, LoopCode;
    DefinesLoop(ch, cb, ct, l, k, k + 1 + ni, nh, nb, nt);
    CountCat(ci, LoopCode(ch, cb, ct, k), l);
  }

  lemma DefinesDo(cb: seq<Insn>, ct: seq<Insn>, l: Label, k: nat, nb: nat, nt: nat)
    requires Defines(cb, l, k + 1, k + 1 + nb) && Defines(ct, l, k + 1 + nb, k + 1 + nb + nt)
    ensures Defines(LoopCode([], cb, ct, k), l, k, k + (1 + nb + nt))
  {
    Nothing(l, k + 1);
    hide CountLabel, LoopCode;
    DefinesLoop([], cb, ct, l, k, k + 1, 0, nb, nt);
  }

  // ---------- expressions ----------

  /** The code of e with numbers from k on defines l at most once, and only if l's number is among them. */
  lemma {:induction false} LabelsOnce(e: Expr, vars: seq<Ty>, offs: Offsets, k: nat, l: Label)
    requires Wf(e, vars) && |offs| == |vars|
    ensures Defines(Gen(e, vars, offs, k), l, k, k + Labels(e))
    decreases e, 1
  {
    hide Defines, CountLabel, TypeOf, CommonType, LogCode, BranchCode, Operands, OpCode, ShiftCode, CmpCode, CastCode;
    match e
    case Num(_, _) => LeafOnce(e, vars, offs, k, l);
    case Var(_) => LeafOnce(e, vars, offs, k, l);
    case Neg(_) => UnaryOnce(e, vars, offs, k, l);
    case BitNot(_) => UnaryOnce(e, vars, offs, k, l);
    case Not(_) => UnaryOnce(e, vars, offs, k, l);
    case Cast(_, _) => UnaryOnce(e, vars, offs, k, l);
    case Assign(_, _) => AssignOnce(e, vars, offs, k, l);
    case Bin(_, _, _) => BinaryOnce(e, vars, offs, k, l);
    case Shift(_, _, _) => BinaryOnce(e, vars, offs, k, l);
    case Compare(_, _, _) => BinaryOnce(e, vars, offs, k, l);
    case LogAnd(_, _) => LogicOnce(e, vars, offs, k, l);
    case LogOr(_, _) => LogicOnce(e, vars, offs, k, l);
    case Cond(_, _, _) => CondOnce(e, vars, offs, k, l);
    case Comma(a, b) =>
      LabelsOnce(a, vars, offs, k, l);
      LabelsOnce(b, vars, offs, k + Labels(a), l);
      DefinesCat(Gen(a, vars, offs, k), Gen(b, vars, offs, k + Labels(a)), l, k, k + Labels(a), k + Labels(a) + Labels(b));
  }

  lemma GenLogic(e: Expr, vars: seq<Ty>, offs: Offsets, k: nat)
    requires Wf(e, vars) && |offs| == |vars| && (e.LogAnd? || e.LogOr?)
    ensures Labels(e) == 1 + Labels(e.l) + Labels(e.r) && Wf(e.l, vars) && Wf(e.r, vars)
    ensures Gen(e, vars, offs, k)
         == LogCode(e.LogOr?, Gen(e.l, vars, offs, k + 1), TypeOf(e.l, vars), Gen(e.r, vars, offs, k + 1 + Labels(e.l)), TypeOf(e.r, vars), k)
  {
    hide LogCode, TypeOf;
  }

  lemma {:induction false} LogicOnce(e: Expr, vars: seq<Ty>, offs: Offsets, k: nat, l: Label)
    requires Wf(e, vars) && |offs| == |vars| && (e.LogAnd? || e.LogOr?)
    ensures Defines(Gen(e, vars, offs, k), l, k, k + Labels(e))
    decreases e, 0
  {
    hide Defines, CountLabel, TypeOf, LogCode, Gen, Labels, Wf;
    GenLogic(e, vars, offs, k);
    var a, b := e.l, e.r;
    LabelsOnce(a, vars, offs, k + 1, l);
    LabelsOnce(b, vars, offs, k + 1 + Labels(a), l);
    DefinesLogic(e.LogOr?, Gen(a, vars, offs, k + 1), TypeOf(a, vars), Gen(b, vars, offs, k + 1 + Labels(a)), TypeOf(b, vars), l, k, Labels(a), Labels(b));
  }

  lemma GenCond(e: Expr, vars: seq<Ty>, offs: Offsets, k: nat)
    requires Wf(e, vars) && |offs| == |vars| && e.Cond?
    ensures Labels(e) == 1 + Labels(e.c) + Labels(e.t) + Labels(e.f) && Wf(e.c, vars) && Wf(e.t, vars) && Wf(e.f, vars)
    ensures var k1 := k + 1 + Labels(e.c);
      Gen(e, vars, offs, k)
        == BranchCode(Gen(e.c, vars, offs, k + 1), TypeOf(e.c, vars), Gen(e.t, vars, offs, k1), Gen(e.f, vars, offs, k1 + Labels(e.t)), k)
  {
    hide BranchCode, TypeOf;
  }

  lemma {:induction false} CondOnce(e: Expr, vars: seq<Ty>, offs: Offsets, k: nat, l: Label)
    requires Wf(e, vars) && |offs| == |vars| && e.Cond?
    ensures Defines(Gen(e, vars, offs, k), l, k, k + Labels(e))
    decreases e, 0
  {
    hide Defines, CountLabel, TypeOf, BranchCode, Gen, Labels, Wf;
    GenCond(e, vars, offs, k);
    var c, t, f := e.c, e.t, e.f;
    var k1 := k + 1 + Labels(c);
    LabelsOnce(c, vars, offs, k + 1, l);
    LabelsOnce(t, vars, offs, k1, l);
    LabelsOnce(f, vars, offs, k1 + Labels(t), l);
    DefinesBranch(Gen(c, vars, offs, k + 1), TypeOf(c, vars), Gen(t, vars, offs, k1), Gen(f, vars, offs, k1 + Labels(t)), l, k,
                  Labels(c), Labels(t), Labels(f));
  }

  lemma LeafOnce(e: Expr, vars: seq<Ty>, offs: Offsets, k: nat, l: Label)
    requires Wf(e, vars) && |offs| == |vars| && (e.Num? || e.Var?)
    ensures Defines(Gen(e, vars, offs, k), l, k, k + Labels(e))
  {
    hide CountLabel;
    if e.Num? { CountOne(MovImm(e.val), l); } else { CountTwo(Lea(offs[e.x]), LoadMem(Size(vars[e.x])), l); }
  }

  lemma GenUnary(e: Expr, vars: seq<Ty>, offs: Offsets, k: nat)
    requires Wf(e, vars) && |offs| == |vars| && IsUnary(e)
    ensures Labels(e) == Labels(e.e) && Wf(e.e, vars)
    ensures Gen(e, vars, offs, k) == Gen(e.e, vars, offs, k) + UnaryCode(e, vars)
  {
    hide TypeOf, CastCode;
  }

  lemma UnaryNoLabels(e: Expr, vars: seq<Ty>, l: Label)
    requires IsUnary(e) && Wf(e, vars)
    ensures CountLabel(UnaryCode(e, vars), l) == 0
  {
    hide TypeOf, CastCode, CountLabel;
    match e
    case Neg(_) => CountOne(NegRax, l);
    case BitNot(_) => CountOne(NotRax, l);
    case Not(a) => CountThree(CmpZero(Size(TypeOf(a, vars))), SetAl(FE), ZxAl, l);
    case Cast(t, a) => CastNoLabels(TypeOf(a, vars), t, l);
  }

  lemma {:induction false} UnaryOnce(e: Expr, vars: seq<Ty>, offs: Offsets, k: nat, l: Label)
    requires Wf(e, vars) && |offs| == |vars| && IsUnary(e)
    ensures Defines(Gen(e, vars, offs, k), l, k, k + Labels(e))
    decreases e, 0
  {
    hide Defines, CountLabel, UnaryCode, Gen, Labels, Wf;
    GenUnary(e, vars, offs, k);
    LabelsOnce(e.e, vars, offs, k, l);
    UnaryNoLabels(e, vars, l);
    DefinesThen(Gen(e.e, vars, offs, k), UnaryCode(e, vars), l, k, k + Labels(e.e));
  }

  lemma {:induction false} AssignOnce(e: Expr, vars: seq<Ty>, offs: Offsets, k: nat, l: Label)
    requires Wf(e, vars) && |offs| == |vars| && e.Assign?
    ensures Defines(Gen(e, vars, offs, k), l, k, k + Labels(e))
    decreases e, 0
  {
    hide CountLabel;
    LabelsOnce(e.e, vars, offs, k, l);
    var w := Size(vars[e.x]);
    Cat3Count([Lea(offs[e.x]), Push], Gen(e.e, vars, offs, k), [PopRdi, StoreMem(w)], l);
    CountTwo(Lea(offs[e.x]), Push, l);
    CountTwo(PopRdi, StoreMem(w), l);
  }

  lemma GenBinary(e: Expr, vars: seq<Ty>, offs: Offsets, k: nat)
    requires Wf(e, vars) && |offs| == |vars| && IsBinary(e)
    ensures Labels(e) == Labels(e.r) + Labels(e.l) && Wf(e.l, vars) && Wf(e.r, vars)
    ensures Gen(e, vars, offs, k) == Operands(Gen(e.r, vars, offs, k), Gen(e.l, vars, offs, k + Labels(e.r))) + BinaryCode(e, vars)
  {
    hide Operands, OpCode, ShiftCode, CmpCode, TypeOf;
  }

  lemma BinaryNoLabels(e: Expr, vars: seq<Ty>, l: Label)
    requires IsBinary(e) && Wf(e, vars)
    ensures CountLabel(BinaryCode(e, vars), l) == 0
  {
    hide OpCode, ShiftCode, CmpCode, TypeOf, CountLabel;
    var t := TypeOf(e.l, vars);
    if e.Bin? { OpNoLabels(e.op, t, l); }
    else if e.Shift? { ShiftNoLabels(e.left, t, l); }
    else { CmpNoLabels(e.cmp, t, l); }
  }

  lemma {:induction false} BinaryOnce(e: Expr, vars: seq<Ty>, offs: Offsets, k: nat, l: Label)
    requires Wf(e, vars) && |offs| == |vars| && IsBinary(e)
    ensures Defines(Gen(e, vars, offs, k), l, k, k + Labels(e))
    decreases e, 0
  {
    hide Defines, CountLabel, BinaryCode, Operands, Gen, Labels, Wf;
    GenBinary(e, vars, offs, k);
    LabelsOnce(e.r, vars, offs, k, l);
    LabelsOnce(e.l, vars, offs, k + Labels(e.r), l);
    BinaryNoLabels(e, vars, l);
    DefinesBinary(Gen(e.r, vars, offs, k), Gen(e.l, vars, offs, k + Labels(e.r)), BinaryCode(e, vars), l, k, Labels(e.r), Labels(e.l));
  }

  // ---------- statements ----------

  lemma OptOnce(e: Option<Expr>, vars: seq<Ty>, offs: Offsets, k: nat, loop: nat, l: Label)
    requires WfOpt(e, vars) && |offs| == |vars|
    ensures Defines(GenOpt(e, vars, offs, k), l, k, k + LabelsOpt(e)) && Defines(TestCode(e, vars, offs, k, loop), l, k, k + LabelsOpt(e))
    ensures Defines(AgainCode(e, vars, offs, k, loop), l, k, k + LabelsOpt(e))
  {
    hide Gen, CountLabel, Wf, Labels, TypeOf;
    CountOne(Jmp(Label(LBegin, loop)), l);
    if e.Some? {
      LabelsOnce(e.value, vars, offs, k, l);
      var w := Size(TypeOf(e.value, vars));
      CountTwo(CmpZero(w), TestJump(false, Label(LBrk, loop)), l);
      DefinesThen(Gen(e.value, vars, offs, k), [CmpZero(w), TestJump(false, Label(LBrk, loop))], l, k, k + LabelsOpt(e));
    } else {
      Nothing(l, k);
    }
    DefinesThen(GenOpt(e, vars, offs, k), [Jmp(Label(LBegin, loop))], l, k, k + LabelsOpt(e));
  }

  lemma UntilOnce(c: Expr, vars: seq<Ty>, offs: Offsets, k: nat, loop: nat, l: Label)
    requires Wf(c, vars) && |offs| == |vars|
    ensures Defines(UntilCode(c, vars, offs, k, loop), l, k, k + Labels(c))
  {
    hide Gen, CountLabel, Wf, Labels, TypeOf;
    LabelsOnce(c, vars, offs, k, l);
    var w := Size(TypeOf(c, vars));
    CountTwo(CmpZero(w), TestJump(true, Label(LBegin, loop)), l);
    DefinesThen(Gen(c, vars, offs, k), [CmpZero(w), TestJump(true, Label(LBegin, loop))], l, k, k + Labels(c));
  }

  /** The statement's code defines l at most once, and only if l's number is one of its own. */
  lemma {:induction false} LabelsOnceS(s: Stmt, vars: seq<Ty>, offs: Offsets, k: nat, lp: nat, inLoop: bool, l: Label)
    requires WfS(s, vars, inLoop) && |offs| == |vars|
    ensures Defines(GenS(s, vars, offs, k, lp, inLoop), l, k, k + LabelsS(s))
    decreases s, 1
  {
    hide Defines, CountLabel, Wf, Gen, Labels, TypeOf, GenOpt, TestCode, AgainCode, UntilCode, LoopCode, BranchCode;
    match s
    case SExpr(e) => LabelsOnce(e, vars, offs, k, l);
    case SBlock(b) => LabelsOnceB(b, vars, offs, k, lp, inLoop, l);
    case SIf(_, _, _) => IfOnce(s, vars, offs, k, lp, inLoop, l);
    case SFor(_, _, _, _) => ForOnce(s, vars, offs, k, lp, inLoop, l);
    case SDo(b, c) =>
      var k1 := k + 1 + LabelsS(b);
      LabelsOnceS(b, vars, offs, k + 1, k, true, l);
      UntilOnce(c, vars, offs, k1, k, l);
      DefinesDo(GenS(b, vars, offs, k + 1, k, true), UntilCode(c, vars, offs, k1, k), l, k, LabelsS(b), Labels(c));
    case SBreak =>
      CountOne(Jmp(Label(LBrk, lp)), l);
      NoneOf([Jmp(Label(LBrk, lp))], l, k, k);
    case SContinue =>
      CountOne(Jmp(Label(LCont, lp)), l);
      NoneOf([Jmp(Label(LCont, lp))], l, k, k);
    case SReturn(e) =>
      OptOnce(e, vars, offs, k, 0, l);
      CountOne(Jmp(Label(LReturn, 0)), l);
      DefinesThen(GenOpt(e, vars, offs, k), [Jmp(Label(LReturn, 0))], l, k, k + LabelsOpt(e));
  }

  lemma {:induction false} IfOnce(s: Stmt, vars: seq<Ty>, offs: Offsets, k: nat, lp: nat, inLoop: bool, l: Label)
    requires WfS(s, vars, inLoop) && |offs| == |vars| && s.SIf?
    ensures Defines(GenS(s, vars, offs, k, lp, inLoop), l, k, k + LabelsS(s))
    decreases s, 0
  {
    hide Defines, CountLabel, Wf, Gen, Labels, TypeOf, BranchCode;
    var c, t, f := s.c, s.thn, s.els;
    var k1 := k + 1 + Labels(c);
    var k2 := k1 + LabelsS(t);
    LabelsOnce(c, vars, offs, k + 1, l);
    LabelsOnceS(t, vars, offs, k1, lp, inLoop, l);
    var cf, nf := [], 0;
    if f.Some? {
      LabelsOnceS(f.value, vars, offs, k2, lp, inLoop, l);
      cf, nf := GenS(f.value, vars, offs, k2, lp, inLoop), LabelsS(f.value);
    } else {
      Nothing(l, k2);
    }
    DefinesBranch(Gen(c, vars, offs, k + 1), TypeOf(c, vars), GenS(t, vars, offs, k1, lp, inLoop), cf, l, k, Labels(c), LabelsS(t), nf);
  }

  lemma {:induction false} ForOnce(s: Stmt, vars: seq<Ty>, offs: Offsets, k: nat, lp: nat, inLoop: bool, l: Label)
    requires WfS(s, vars, inLoop) && |offs| == |vars| && s.SFor?
    ensures Defines(GenS(s, vars, offs, k, lp, inLoop), l, k, k + LabelsS(s))
    decreases s, 0
  {
    hide Defines, CountLabel, Wf, Gen, GenOpt, TestCode, AgainCode, LoopCode, LabelsOpt, WfOpt;
    var i, t, u, b := s.init, s.test, s.inc, s.body;
    var ci, ni := [], 0;
    if i.Some? {
      LabelsOnceS(i.value, vars, offs, k + 1, lp, false, l);
      ci, ni := GenS(i.value, vars, offs, k + 1, lp, false), LabelsS(i.value);
    } else {
      Nothing(l, k + 1);
    }
    var k1 := k + 1 + ni;
    var k2 := k1 + LabelsOpt(t);
    var k3 := k2 + LabelsS(b);
    OptOnce(t, vars, offs, k1, k, l);
    LabelsOnceS(b, vars, offs, k2, k, true, l);
    OptOnce(u, vars, offs, k3, k, l);
    DefinesFor(ci, TestCode(t, vars, offs, k1, k), GenS(b, vars, offs, k2, k, true), AgainCode(u, vars, offs, k3, k), l, k,
               ni, LabelsOpt(t), LabelsS(b), LabelsOpt(u));
  }

  lemma GenIf(s: Stmt, vars: seq<Ty>, offs: Offsets, k: nat, lp: nat, inLoop: bool)
    requires WfS(s, vars, inLoop) && |offs| == |vars| && s.SIf?
    ensures Wf(s.c, vars) && WfS(s.thn, vars, inLoop) && (s.els.Some? ==> WfS(s.els.value, vars, inLoop))
    ensures var k1 := k + 1 + Labels(s.c); var k2 := k1 + LabelsS(s.thn);
      && LabelsS(s) == 1 + Labels(s.c) + LabelsS(s.thn) + (if s.els.Some? then LabelsS(s.els.value) else 0)
      && GenS(s, vars, offs, k, lp, inLoop)
         == BranchCode(Gen(s.c, vars, offs, k + 1), TypeOf(s.c, vars), GenS(s.thn, vars, offs, k1, lp, inLoop),
                       if s.els.Some? then GenS(s.els.value, vars, offs, k2, lp, inLoop) else [], k)
  {
    hide Gen, Labels, Wf, TypeOf, BranchCode;
  }

  lemma GenFor(s: Stmt, vars: seq<Ty>, offs: Offsets, k: nat, lp: nat, inLoop: bool)
    requires WfS(s, vars, inLoop) && |offs| == |vars| && s.SFor?
    ensures (s.init.Some? ==> WfS(s.init.value, vars, false)) && WfOpt(s.test, vars) && WfOpt(s.inc, vars) && WfS(s.body, vars, true)
    ensures var ni := if s.init.Some? then LabelsS(s.init.value) else 0; var k1 := k + 1 + ni; var k2 := k1 + LabelsOpt(s.test);
      && LabelsS(s) == 1 + ni + LabelsOpt(s.test) + LabelsS(s.body) + LabelsOpt(s.inc)
      && GenS(s, vars, offs, k, lp, inLoop)
         == (if s.init.Some? then GenS(s.init.value, vars, offs, k + 1, lp, false) else [])
            + LoopCode(TestCode(s.test, vars, offs, k1, k), GenS(s.body, vars, offs, k2, k, true),
                       AgainCode(s.inc, vars, offs, k2 + LabelsS(s.body), k), k)
  {
    hide WfOpt, LabelsOpt, TestCode, AgainCode, LoopCode;
  }

  lemma NoneOf(c: seq<Insn>, l: Label, lo: nat, hi: nat)
    requires CountLabel(c, l) == 0
    ensures Defines(c, l, lo, hi)
  {}

  lemma Nothing(l: Label, lo: nat)
    ensures Defines([], l, lo, lo)
  {}

  lemma {:induction false} LabelsOnceB(b: seq<Stmt>, vars: seq<Ty>, offs: Offsets, k: nat, lp: nat, inLoop: bool, l: Label)
    requires WfB(b, vars, inLoop) && |offs| == |vars|
    ensures Defines(GenB(b, vars, offs, k, lp, inLoop), l, k, k + LabelsB(b))
    decreases b, 0
  {
    hide GenS, LabelsS, CountLabel, Defines;
    if b == [] {
      Nothing(l, k);
    } else {
      var k1 := k + LabelsS(b[0]);
      LabelsOnceS(b[0], vars, offs, k, lp, inLoop, l);
      LabelsOnceB(b[1..], vars, offs, k1, lp, inLoop, l);
      DefinesCat(GenS(b[0], vars, offs, k, lp, inLoop), GenB(b[1..], vars, offs, k1, lp, inLoop), l, k, k1, k1 + LabelsB(b[1..]));
    }
  }

  /** No label of a function's code is defined twice. */
  lemma BodyUnique(s: Stmt, vars: seq<Ty>, offs: Offsets)
    requires WfS(s, vars, false) && |offs| == |vars|
    ensures UniqueLabels(GenBody(s, vars, offs))
  {
    hide GenS, CountLabel;
    forall l: Label ensures CountLabel(GenBody(s, vars, offs), l) <= 1 {
      LabelsOnceS(s, vars, offs, 1, 0, false, l);
      CountCat(GenS(s, vars, offs, 1, 0, false), [Lbl(Label(LReturn, 0))], l);
      CountOne(Lbl(Label(LReturn, 0)), l);
    }
  }
}
