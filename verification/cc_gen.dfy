/** The code generated for integer expressions and statements. */
module CcGen {
  import opened CcInt
  import opened CcMachine
  import opened Wrappers

  // ---------- fixed sequences ----------

  function CastCode(from: Ty, to: Ty): seq<Insn> {
    if Size(from) == 4 && Size(to) == 8 then (if Unsigned(from) then [MovEaxEax] else [Movsxd]) else []
  }

  function OpCode(op: BinOp, t: Ty): seq<Insn> {
    var w := Size(t);
    if op != Div && op != Rem then [Alu(op, w)]
    else (if Unsigned(t) then [ZeroRdx(w), DivU(w)] else [SignRdx(w), DivS(w)]) + (if op == Rem then [MovRdxRax] else [])
  }

  function CmpFlag(op: CmpOp, t: Ty): Flag {
    match op
    case Eq => FE
    case Ne => FNE
    case Lt => if Unsigned(t) then FB else FL
    case Le => if Unsigned(t) then FBE else FLE
  }

  function CmpCode(op: CmpOp, t: Ty): seq<Insn> { [CmpRdi(Size(t)), SetAl(CmpFlag(op, t)), ZxAl] }

  function ShiftCode(left: bool, t: Ty): seq<Insn> {
    [MovRdiRcx, if left then ShlCl(Size(t)) else if Unsigned(t) then ShrCl(Size(t)) else SarCl(Size(t))]
  }

  // ---------- expressions ----------

  /** Offsets of the local variables from the frame pointer. */
  type Offsets = seq<int>

  /** How many labels the code of e uses. */
  function Labels(e: Expr): nat {
    match e
    case Num(_, _) => 0
    case Var(_) => 0
    case Neg(a) => Labels(a)
    case BitNot(a) => Labels(a)
    case Not(a) => Labels(a)
    case Bin(_, l, r) => Labels(r) + Labels(l)
    case Shift(_, l, r) => Labels(r) + Labels(l)
    case Compare(_, l, r) => Labels(r) + Labels(l)
    case LogAnd(l, r) => 1 + Labels(l) + Labels(r)
    case LogOr(l, r) => 1 + Labels(l) + Labels(r)
    case Cond(c, t, f) => 1 + Labels(c) + Labels(t) + Labels(f)
    case Assign(_, a) => Labels(a)
    case Cast(_, a) => Labels(a)
    case Comma(l, r) => Labels(l) + Labels(r)
  }

  /** Two operands, the right one first: the left ends up in rax, the right in rdi. */
  function Operands(cr: seq<Insn>, cl: seq<Insn>): seq<Insn> { cr + ([Push] + (cl + [PopRdi])) }

  /** The end of a logical operator: v falls through, and the other truth value is at the label. */
  function LogTail(v: int, kind: LabelKind, k: nat): seq<Insn> {
    [MovImm(v), Jmp(Label(LEnd, k)), Lbl(Label(kind, k)), MovImm(1 - v), Lbl(Label(LEnd, k))]
  }

  function TestJump(jne: bool, l: Label): Insn { if jne then Jne(l) else Je(l) }

  function LogKind(or: bool): LabelKind { if or then LTrue else LFalse }

  /** `&&` and `||`. */
  function LogCode(or: bool, cl: seq<Insn>, tl: Ty, cr: seq<Insn>, tr: Ty, k: nat): seq<Insn> {
    cl + ([CmpZero(Size(tl)), TestJump(or, Label(LogKind(or), k))]
      + (cr + ([CmpZero(Size(tr)), TestJump(or, Label(LogKind(or), k))] + LogTail(Truth(!or), LogKind(or), k))))
  }

  /** `?:` and `if`. */
  function BranchCode(cc: seq<Insn>, tc: Ty, ct: seq<Insn>, cf: seq<Insn>, k: nat): seq<Insn> {
    cc + ([CmpZero(Size(tc)), TestJump(false, Label(LElse, k))]
      + (ct + ([Jmp(Label(LEnd, k)), Lbl(Label(LElse, k))] + (cf + [Lbl(Label(LEnd, k))]))))
  }

  /** Code of e, whose first label number is k. */
  function Gen(e: Expr, vars: seq<Ty>, offs: Offsets, k: nat): seq<Insn>
    requires Wf(e, vars) && |offs| == |vars|
  {
    match e
    case Num(v, _) => [MovImm(v)]
    case Var(x) => [Lea(offs[x]), LoadMem(Size(vars[x]))]
    case Neg(a) => Gen(a, vars, offs, k) + [NegRax]
    case BitNot(a) => Gen(a, vars, offs, k) + [NotRax]
    case Not(a) => Gen(a, vars, offs, k) + [CmpZero(Size(TypeOf(a, vars))), SetAl(FE), ZxAl]
    case Bin(op, l, r) =>
      Operands(Gen(r, vars, offs, k), Gen(l, vars, offs, k + Labels(r))) + OpCode(op, TypeOf(l, vars))
    case Shift(left, l, r) =>
      Operands(Gen(r, vars, offs, k), Gen(l, vars, offs, k + Labels(r))) + ShiftCode(left, TypeOf(l, vars))
    case Compare(op, l, r) =>
      Operands(Gen(r, vars, offs, k), Gen(l, vars, offs, k + Labels(r))) + CmpCode(op, TypeOf(l, vars))
    case LogAnd(l, r) =>
      LogCode(false, Gen(l, vars, offs, k + 1), TypeOf(l, vars), Gen(r, vars, offs, k + 1 + Labels(l)), TypeOf(r, vars), k)
    case LogOr(l, r) =>
      LogCode(true, Gen(l, vars, offs, k + 1), TypeOf(l, vars), Gen(r, vars, offs, k + 1 + Labels(l)), TypeOf(r, vars), k)
    case Cond(c, t, f) =>
      var k1 := k + 1 + Labels(c);
      BranchCode(Gen(c, vars, offs, k + 1), TypeOf(c, vars), Gen(t, vars, offs, k1), Gen(f, vars, offs, k1 + Labels(t)), k)
    case Assign(x, a) => [Lea(offs[x]), Push] + (Gen(a, vars, offs, k) + [PopRdi, StoreMem(Size(vars[x]))])
    case Cast(t, a) => Gen(a, vars, offs, k) + CastCode(TypeOf(a, vars), t)
    case Comma(l, r) => Gen(l, vars, offs, k) + Gen(r, vars, offs, k + Labels(l))
  }

  predicate IsUnary(e: Expr) { e.Neg? || e.BitNot? || e.Not? || e.Cast? }

  function UnaryCode(e: Expr, vars: seq<Ty>): seq<Insn>
    requires IsUnary(e) && Wf(e, vars)
  {
    match e
    case Neg(_) => [NegRax]
    case BitNot(_) => [NotRax]
    case Not(a) => [CmpZero(Size(TypeOf(a, vars))), SetAl(FE), ZxAl]
    case Cast(t, a) => CastCode(TypeOf(a, vars), t)
  }

  predicate IsBinary(e: Expr) { e.Bin? || e.Shift? || e.Compare? }

  function BinaryCode(e: Expr, vars: seq<Ty>): seq<Insn>
    requires IsBinary(e) && Wf(e, vars)
  {
    var t := TypeOf(e.l, vars);
    if e.Bin? then OpCode(e.op, t) else if e.Shift? then ShiftCode(e.left, t) else CmpCode(e.cmp, t)
  }

  // ---------- statements ----------

  predicate WfOpt(e: Option<Expr>, vars: seq<Ty>) { e.Some? ==> Wf(e.value, vars) }

  /** Names are bound, and break and continue are inside a loop. */
  predicate WfS(s: Stmt, vars: seq<Ty>, inLoop: bool)
    decreases s, 0
  {
    match s
    case SExpr(e) => Wf(e, vars)
    case SBlock(b) => WfB(b, vars, inLoop)
    case SIf(c, t, f) => Wf(c, vars) && WfS(t, vars, inLoop) && (f.Some? ==> WfS(f.value, vars, inLoop))
    case SFor(i, t, u, b) =>
      (i.Some? ==> WfS(i.value, vars, false)) && WfOpt(t, vars) && WfOpt(u, vars) && WfS(b, vars, true)
    case SDo(b, c) => WfS(b, vars, true) && Wf(c, vars)
    case SBreak => inLoop
    case SContinue => inLoop
    case SReturn(e) => WfOpt(e, vars)
  }

  predicate WfB(b: seq<Stmt>, vars: seq<Ty>, inLoop: bool)
    decreases b, 0
  {
    b == [] || (WfS(b[0], vars, inLoop) && WfB(b[1..], vars, inLoop))
  }

  function LabelsOpt(e: Option<Expr>): nat { if e.Some? then Labels(e.value) else 0 }

  function LabelsS(s: Stmt): nat
    decreases s, 0
  {
    match s
    case SExpr(e) => Labels(e)
    case SBlock(b) => LabelsB(b)
    case SIf(c, t, f) => 1 + Labels(c) + LabelsS(t) + (if f.Some? then LabelsS(f.value) else 0)
    case SFor(i, t, u, b) => 1 + (if i.Some? then LabelsS(i.value) else 0) + LabelsOpt(t) + LabelsS(b) + LabelsOpt(u)
    case SDo(b, c) => 1 + LabelsS(b) + Labels(c)
    case SBreak => 0
    case SContinue => 0
    case SReturn(e) => LabelsOpt(e)
  }

  function LabelsB(b: seq<Stmt>): nat
    decreases b, 0
  {
    if b == [] then 0 else LabelsS(b[0]) + LabelsB(b[1..])
  }

  function GenOpt(e: Option<Expr>, vars: seq<Ty>, offs: Offsets, k: nat): seq<Insn>
    requires WfOpt(e, vars) && |offs| == |vars|
  {
    if e.Some? then Gen(e.value, vars, offs, k) else []
  }

  /** The exit test of a `for` loop. */
  function TestCode(e: Option<Expr>, vars: seq<Ty>, offs: Offsets, k: nat, brk: nat): seq<Insn>
    requires WfOpt(e, vars) && |offs| == |vars|
  {
    if e.Some? then Gen(e.value, vars, offs, k) + [CmpZero(Size(TypeOf(e.value, vars))), TestJump(false, Label(LBrk, brk))] else []
  }

  /** What follows the label that `continue` jumps to. */
  function AgainCode(u: Option<Expr>, vars: seq<Ty>, offs: Offsets, k: nat, begin: nat): seq<Insn>
    requires WfOpt(u, vars) && |offs| == |vars|
  {
    GenOpt(u, vars, offs, k) + [Jmp(Label(LBegin, begin))]
  }

  /** The test at the end of a `do` loop. */
  function UntilCode(c: Expr, vars: seq<Ty>, offs: Offsets, k: nat, begin: nat): seq<Insn>
    requires Wf(c, vars) && |offs| == |vars|
  {
    Gen(c, vars, offs, k) + [CmpZero(Size(TypeOf(c, vars))), TestJump(true, Label(LBegin, begin))]
  }

  function LoopCode(head: seq<Insn>, body: seq<Insn>, tail: seq<Insn>, k: nat): seq<Insn> {
    [Lbl(Label(LBegin, k))] + (head + (body + ([Lbl(Label(LCont, k))] + (tail + [Lbl(Label(LBrk, k))]))))
  }

  /** Code of s inside loop number lp; the function's return label has number zero. */
  function GenS(s: Stmt, vars: seq<Ty>, offs: Offsets, k: nat, lp: nat, inLoop: bool): seq<Insn>
    requires WfS(s, vars, inLoop) && |offs| == |vars|
    decreases s, 0
  {
    match s
    case SExpr(e) => Gen(e, vars, offs, k)
    case SBlock(b) => GenB(b, vars, offs, k, lp, inLoop)
    case SIf(c, t, f) =>
      var k1 := k + 1 + Labels(c);
      BranchCode(Gen(c, vars, offs, k + 1), TypeOf(c, vars), GenS(t, vars, offs, k1, lp, inLoop),
                 if f.Some? then GenS(f.value, vars, offs, k1 + LabelsS(t), lp, inLoop) else [], k)
    case SFor(i, t, u, b) =>
      var k1 := k + 1 + (if i.Some? then LabelsS(i.value) else 0);
      var k2 := k1 + LabelsOpt(t);
      (if i.Some? then GenS(i.value, vars, offs, k + 1, lp, false) else [])
        + LoopCode(TestCode(t, vars, offs, k1, k), GenS(b, vars, offs, k2, k, true), AgainCode(u, vars, offs, k2 + LabelsS(b), k), k)
    case SDo(b, c) =>
      LoopCode([], GenS(b, vars, offs, k + 1, k, true), UntilCode(c, vars, offs, k + 1 + LabelsS(b), k), k)
    case SBreak => [Jmp(Label(LBrk, lp))]
    case SContinue => [Jmp(Label(LCont, lp))]
    case SReturn(e) => GenOpt(e, vars, offs, k) + [Jmp(Label(LReturn, 0))]
  }

  function GenB(b: seq<Stmt>, vars: seq<Ty>, offs: Offsets, k: nat, lp: nat, inLoop: bool): seq<Insn>
    requires WfB(b, vars, inLoop) && |offs| == |vars|
    decreases b, 0
  {
    if b == [] then []
    else GenS(b[0], vars, offs, k, lp, inLoop) + GenB(b[1..], vars, offs, k + LabelsS(b[0]), lp, inLoop)
  }

  /** A function's body, with the label that `return` jumps to. */
  function GenBody(s: Stmt, vars: seq<Ty>, offs: Offsets): seq<Insn>
    requires WfS(s, vars, false) && |offs| == |vars|
  {
    GenS(s, vars, offs, 1, 0, false) + [Lbl(Label(LReturn, 0))]
  }
}
