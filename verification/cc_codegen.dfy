/** The code generator itself: it appends instructions to the output and counts pushes and labels as it goes. */
module CcCodegen {
  import opened CcInt
  import opened CcMachine
  import opened CcGen
  import opened CcLabels
  import opened CcFlow
  import opened CcBody
  import opened Wrappers

  /** The text of a loop, piece by piece. */
  lemma LoopText(was: seq<Insn>, ci: seq<Insn>, ch: seq<Insn>, cb: seq<Insn>, ct: seq<Insn>, k: nat)
    ensures was + ci + [Lbl(Label(LBegin, k))] + ch + cb + [Lbl(Label(LCont, k))] + ct + [Lbl(Label(LBrk, k))]
         == was + (ci + LoopCode(ch, cb, ct, k))
  {}

  lemma DoText(was: seq<Insn>, cb: seq<Insn>, ct: seq<Insn>, k: nat)
    ensures was + [Lbl(Label(LBegin, k))] + cb + [Lbl(Label(LCont, k))] + ct + [Lbl(Label(LBrk, k))] == was + LoopCode([], cb, ct, k)
  {}

  lemma BranchText(was: seq<Insn>, cc: seq<Insn>, t: Ty, ct: seq<Insn>, cf: seq<Insn>, k: nat)
    ensures was + cc + [CmpZero(Size(t)), TestJump(false, Label(LElse, k))] + ct + [Jmp(Label(LEnd, k)), Lbl(Label(LElse, k))] + cf + [Lbl(Label(LEnd, k))]
         == was + BranchCode(cc, t, ct, cf, k)
  {}

  lemma LogText(was: seq<Insn>, or: bool, cl: seq<Insn>, tl: Ty, cr: seq<Insn>, tr: Ty, k: nat)
    ensures var j := TestJump(or, Label(LogKind(or), k));
      was + cl + [CmpZero(Size(tl)), j] + cr + [CmpZero(Size(tr)), j] + LogTail(Truth(!or), LogKind(or), k) == was + LogCode(or, cl, tl, cr, tr, k)
  {
    hide LogTail;
  }

  class CodeGen {
    var out: seq<Insn>
    var depth: int
    var labels: nat
    const vars: seq<Ty>
    const offs: seq<int>

    ghost predicate Valid()
      reads this
    {
      |offs| == |vars|
    }

    constructor (vars: seq<Ty>, offs: seq<int>)
      requires |offs| == |vars|
      ensures Valid() && out == [] && depth == 0 && labels == 1 && this.vars == vars && this.offs == offs
    {
      out, depth, labels := [], 0, 1;
      this.vars, this.offs := vars, offs;
    }

    /** The next label number. */
    method Count() returns (c: nat)
      modifies this`labels
      ensures c == old(labels) && labels == c + 1
    {
      c := labels;
      labels := labels + 1;
    }

    method Emit(c: seq<Insn>)
      modifies this`out
      ensures out == old(out) + c
    {
      out := out + c;
    }

    method EmitPush()
      modifies this`out, this`depth
      ensures out == old(out) + [Push] && depth == old(depth) + 1
    {
      Emit([Push]);
      depth := depth + 1;
    }

    method EmitPop()
      modifies this`out, this`depth
      ensures out == old(out) + [PopRdi] && depth == old(depth) - 1
    {
      Emit([PopRdi]);
      depth := depth - 1;
    }

    /** Pops the address, and stores what is in rax there. */
    method EmitStore(t: Ty)
      modifies this`out, this`depth
      ensures out == old(out) + [PopRdi, StoreMem(Size(t))] && depth == old(depth) - 1
    {
      EmitPop();
      Emit([StoreMem(Size(t))]);
    }

    /** A comparison with zero and a jump to label l. */
    method EmitTest(t: Ty, jne: bool, l: Label)
      modifies this`out
      ensures out == old(out) + [CmpZero(Size(t)), TestJump(jne, l)]
    {
      Emit([CmpZero(Size(t))]);
      Emit([TestJump(jne, l)]);
    }

    /** The end of a logical operator. */
    method EmitTail(v: int, kind: LabelKind, c: nat)
      modifies this`out
      ensures out == old(out) + LogTail(v, kind, c)
    {
      Emit([MovImm(v), Jmp(Label(LEnd, c)), Lbl(Label(kind, c)), MovImm(1 - v), Lbl(Label(LEnd, c))]);
    }

    method CastNumber(from: Ty, to: Ty)
      modifies this`out
      ensures out == old(out) + CastCode(from, to)
    {
      if Size(from) == 4 && Size(to) == 8 {
        if Unsigned(from) { Emit([MovEaxEax]); } else { Emit([Movsxd]); }
      }
    }

    /** Emits exactly the code of e, and leaves the depth as it was. */
    method GenExpr(e: Expr)
      requires Valid() && Wf(e, vars)
      modifies this
      ensures Valid() && out == old(out) + Gen(e, vars, offs, old(labels)) && labels == old(labels) + Labels(e) && depth == old(depth)
      decreases e, 1
    {
      hide CommonType, TypeOf, BinaryCode, UnaryCode, LogCode, BranchCode, Operands, CastCode, OpCode, ShiftCode, CmpCode;
      match e
      case Num(v, _) => Emit([MovImm(v)]);
      case Var(x) => EmitLoad(x);
      case Neg(_) => GenUnaryOp(e);
      case BitNot(_) => GenUnaryOp(e);
      case Not(_) => GenUnaryOp(e);
      case Bin(_, _, _) => GenBinaryOp(e);
      case Shift(_, _, _) => GenBinaryOp(e);
      case Compare(_, _, _) => GenBinaryOp(e);
      case LogAnd(_, _) => GenLogicOp(e);
      case LogOr(_, _) => GenLogicOp(e);
      case Cond(_, _, _) => GenCondOp(e);
      case Assign(_, _) => GenAssignOp(e);
      case Cast(_, _) => GenUnaryOp(e);
      case Comma(a, b) =>
        GenExpr(a);
        GenExpr(b);
    }

    /** The address of variable x, and a load from there. */
    method EmitLoad(x: nat)
      requires Valid() && x < |vars|
      modifies this`out
      ensures out == old(out) + [Lea(offs[x]), LoadMem(Size(vars[x]))]
    {
      Emit([Lea(offs[x])]);
      Emit([LoadMem(Size(vars[x]))]);
    }

    method GenAssignOp(e: Expr)
      requires Valid() && Wf(e, vars) && e.Assign?
      modifies this
      ensures Valid() && out == old(out) + Gen(e, vars, offs, old(labels)) && labels == old(labels) + Labels(e) && depth == old(depth)
      decreases e, 0
    {
      hide TypeOf;
      ghost var was := out;
      Emit([Lea(offs[e.x])]);
      EmitPush();
      GenExpr(e.e);
      EmitStore(vars[e.x]);
      assert out == was + ([Lea(offs[e.x]), Push] + (Gen(e.e, vars, offs, old(labels)) + [PopRdi, StoreMem(Size(vars[e.x]))]));
    }

    method GenUnaryOp(e: Expr)
      requires Valid() && Wf(e, vars) && IsUnary(e)
      modifies this
      ensures Valid() && out == old(out) + Gen(e, vars, offs, old(labels)) && labels == old(labels) + Labels(e) && depth == old(depth)
      decreases e, 0
    {
      hide Gen, Labels, Wf, TypeOf, CastCode;
      GenUnary(e, vars, offs, labels);
      GenExpr(e.e);
      match e
      case Neg(_) => Emit([NegRax]);
      case BitNot(_) => Emit([NotRax]);
      case Not(a) => Emit([CmpZero(Size(TypeOf(a, vars))), SetAl(FE), ZxAl]);
      case Cast(t, a) => CastNumber(TypeOf(a, vars), t);
    }

    method GenBinaryOp(e: Expr)
      requires Valid() && Wf(e, vars) && IsBinary(e)
      modifies this
      ensures Valid() && out == old(out) + Gen(e, vars, offs, old(labels)) && labels == old(labels) + Labels(e) && depth == old(depth)
      decreases e, 0
    {
      hide Gen, Labels, Wf, BinaryCode;
      GenBinary(e, vars, offs, labels);
      ghost var was := out;
      ghost var cr, cl := Gen(e.r, vars, offs, labels), Gen(e.l, vars, offs, labels + Labels(e.r));
      GenExpr(e.r);
      EmitPush();
      GenExpr(e.l);
      EmitPop();
      Emit(BinaryCode(e, vars));
      assert out == was + (Operands(cr, cl) + BinaryCode(e, vars));
    }

    method GenLogicOp(e: Expr)
      requires Valid() && Wf(e, vars) && (e.LogAnd? || e.LogOr?)
      modifies this
      ensures Valid() && out == old(out) + Gen(e, vars, offs, old(labels)) && labels == old(labels) + Labels(e) && depth == old(depth)
      decreases e, 0
    {
      hide Gen, Labels, Wf, TypeOf, LogCode, LogTail;
      GenLogic(e, vars, offs, labels);
      ghost var was := out;
      var or := e.LogOr?;
      var tl, tr := TypeOf(e.l, vars), TypeOf(e.r, vars);
      var c := Count();
      ghost var cl, cr := Gen(e.l, vars, offs, c + 1), Gen(e.r, vars, offs, c + 1 + Labels(e.l));
      GenExpr(e.l);
      EmitTest(tl, or, Label(LogKind(or), c));
      GenExpr(e.r);
      EmitTest(tr, or, Label(LogKind(or), c));
      EmitTail(Truth(!or), LogKind(or), c);
      LogText(was, or, cl, tl, cr, tr, c);
    }

    method GenCondOp(e: Expr)
      requires Valid() && Wf(e, vars) && e.Cond?
      modifies this
      ensures Valid() && out == old(out) + Gen(e, vars, offs, old(labels)) && labels == old(labels) + Labels(e) && depth == old(depth)
      decreases e, 0
    {
      hide Gen, Labels, Wf, TypeOf, BranchCode;
      GenCond(e, vars, offs, labels);
      ghost var was := out;
      var c := Count();
      var t := TypeOf(e.c, vars);
      ghost var cc, ct := Gen(e.c, vars, offs, c + 1), Gen(e.t, vars, offs, c + 1 + Labels(e.c));
      ghost var cf := Gen(e.f, vars, offs, c + 1 + Labels(e.c) + Labels(e.t));
      GenExpr(e.c);
      EmitTest(t, false, Label(LElse, c));
      GenExpr(e.t);
      Emit([Jmp(Label(LEnd, c)), Lbl(Label(LElse, c))]);
      GenExpr(e.f);
      Emit([Lbl(Label(LEnd, c))]);
      BranchText(was, cc, t, ct, cf, c);
    }

    // ---------- statements ----------

    /** Emits exactly the code of s. */
    method GenStmt(s: Stmt, lp: nat, inLoop: bool)
      requires Valid() && WfS(s, vars, inLoop)
      modifies this
      ensures Valid() && out == old(out) + GenS(s, vars, offs, old(labels), lp, inLoop)
      ensures labels == old(labels) + LabelsS(s) && depth == old(depth)
      decreases s, 1
    {
      hide Gen, Labels, Wf;
      match s
      case SExpr(e) => GenExpr(e);
      case SBlock(b) => GenBlock(b, lp, inLoop);
      case SIf(_, _, _) => GenIf(s, lp, inLoop);
      case SFor(_, _, _, _) => GenFor(s, lp, inLoop);
      case SDo(_, _) => GenDo(s, lp, inLoop);
      case SBreak => Emit([Jmp(Label(LBrk, lp))]);
      case SContinue => Emit([Jmp(Label(LCont, lp))]);
      case SReturn(e) =>
        if e.Some? { GenExpr(e.value); }
        Emit([Jmp(Label(LReturn, 0))]);
    }

    method GenBlock(b: seq<Stmt>, lp: nat, inLoop: bool)
      requires Valid() && WfB(b, vars, inLoop)
      modifies this
      ensures Valid() && out == old(out) + GenB(b, vars, offs, old(labels), lp, inLoop)
      ensures labels == old(labels) + LabelsB(b) && depth == old(depth)
      decreases b, 0
    {
      hide GenS, LabelsS, WfS;
      if b != [] {
        GenStmt(b[0], lp, inLoop);
        GenBlock(b[1..], lp, inLoop);
      }
    }

    method GenIf(s: Stmt, lp: nat, inLoop: bool)
      requires Valid() && WfS(s, vars, inLoop) && s.SIf?
      modifies this
      ensures Valid() && out == old(out) + GenS(s, vars, offs, old(labels), lp, inLoop)
      ensures labels == old(labels) + LabelsS(s) && depth == old(depth)
      decreases s, 0
    {
      hide Gen, Labels, Wf, TypeOf, GenS, LabelsS, WfS, BranchCode;
      CcLabels.GenIf(s, vars, offs, labels, lp, inLoop);
      ghost var was := out;
      var c := Count();
      var t := TypeOf(s.c, vars);
      ghost var cc, ct := Gen(s.c, vars, offs, c + 1), GenS(s.thn, vars, offs, c + 1 + Labels(s.c), lp, inLoop);
      ghost var k2 := c + 1 + Labels(s.c) + LabelsS(s.thn);
      ghost var cf := if s.els.Some? then GenS(s.els.value, vars, offs, k2, lp, inLoop) else [];
      GenExpr(s.c);
      EmitTest(t, false, Label(LElse, c));
      GenStmt(s.thn, lp, inLoop);
      Emit([Jmp(Label(LEnd, c)), Lbl(Label(LElse, c))]);
      if s.els.Some? { GenStmt(s.els.value, lp, inLoop); }
      Emit([Lbl(Label(LEnd, c))]);
      BranchText(was, cc, t, ct, cf, c);
    }

    method GenFor(s: Stmt, lp: nat, inLoop: bool)
      requires Valid() && WfS(s, vars, inLoop) && s.SFor?
      modifies this
      ensures Valid() && out == old(out) + GenS(s, vars, offs, old(labels), lp, inLoop)
      ensures labels == old(labels) + LabelsS(s) && depth == old(depth)
      decreases s, 0
    {
      hide Gen, Labels, Wf, TypeOf, GenS, LabelsS, WfS, LoopCode;
      CcLabels.GenFor(s, vars, offs, labels, lp, inLoop);
      ghost var was := out;
      var c := Count();
      ghost var k1 := c + 1 + if s.init.Some? then LabelsS(s.init.value) else 0;
      ghost var k2 := k1 + LabelsOpt(s.test);
      ghost var ci := if s.init.Some? then GenS(s.init.value, vars, offs, c + 1, lp, false) else [];
      ghost var ch, cb := TestCode(s.test, vars, offs, k1, c), GenS(s.body, vars, offs, k2, c, true);
      ghost var ct := AgainCode(s.inc, vars, offs, k2 + LabelsS(s.body), c);
      if s.init.Some? { GenStmt(s.init.value, lp, false); }
      assert out == was + ci && labels == k1;
      Emit([Lbl(Label(LBegin, c))]);
      GenTest(s.test, c);
      GenStmt(s.body, c, true);
      Emit([Lbl(Label(LCont, c))]);
      GenAgain(s.inc, c);
      Emit([Lbl(Label(LBrk, c))]);
      LoopText(was, ci, ch, cb, ct, c);
    }

    /** The test of a `for` loop, if it has one. */
    method GenTest(e: Option<Expr>, c: nat)
      requires Valid() && WfOpt(e, vars)
      modifies this
      ensures Valid() && out == old(out) + TestCode(e, vars, offs, old(labels), c)
      ensures labels == old(labels) + LabelsOpt(e) && depth == old(depth)
    {
      hide Gen, Labels, Wf, TypeOf;
      if e.Some? {
        GenExpr(e.value);
        EmitTest(TypeOf(e.value, vars), false, Label(LBrk, c));
      }
    }

    /** The step of a `for` loop, if it has one, and the jump back. */
    method GenAgain(e: Option<Expr>, c: nat)
      requires Valid() && WfOpt(e, vars)
      modifies this
      ensures Valid() && out == old(out) + AgainCode(e, vars, offs, old(labels), c)
      ensures labels == old(labels) + LabelsOpt(e) && depth == old(depth)
    {
      hide Gen, Labels, Wf, TypeOf;
      if e.Some? { GenExpr(e.value); }
      Emit([Jmp(Label(LBegin, c))]);
    }

    method GenDo(s: Stmt, lp: nat, inLoop: bool)
      requires Valid() && WfS(s, vars, inLoop) && s.SDo?
      modifies this
      ensures Valid() && out == old(out) + GenS(s, vars, offs, old(labels), lp, inLoop)
      ensures labels == old(labels) + LabelsS(s) && depth == old(depth)
      decreases s, 0
    {
      hide Gen, Labels, Wf, TypeOf, LoopCode;
      ghost var was := out;
      var c := Count();
      ghost var cb, ct := GenS(s.body, vars, offs, c + 1, c, true), UntilCode(s.c, vars, offs, c + 1 + LabelsS(s.body), c);
      Emit([Lbl(Label(LBegin, c))]);
      GenStmt(s.body, c, true);
      Emit([Lbl(Label(LCont, c))]);
      GenExpr(s.c);
      EmitTest(TypeOf(s.c, vars), true, Label(LBegin, c));
      Emit([Lbl(Label(LBrk, c))]);
      DoText(was, cb, ct, c);
    }
  }

  /** A function's code: conversions are inserted, the body is generated, and every push has been undone at the end. */
  method GenFunction(f: Function, offs: seq<int>) returns (code: seq<Insn>, depth: int)
    requires WfF(f) && |offs| == |f.vars|
    ensures code == Compile(f, offs) && depth == 0
  {
    hide TypeS, WfS, GenS, UniqueLabels;
    var g := new CodeGen(f.vars, offs);
    g.GenStmt(TypeS(f.body, f.vars, f.ret, false), 0, false);
    g.Emit([Lbl(Label(LReturn, 0))]);
    code, depth := g.out, g.depth;
  }
}
