/** Running the code of an expression leaves its value in rax and its effects in memory. */
module CcExpr {
  import opened CcInt
  import opened CcMachine
  import opened CcGen
  import opened CcValues
  import opened Numbers
  import opened Wrappers

  // ---------- the stack frame ----------

  /** Types and offsets of the local variables, and the size of the area below the frame pointer that holds them. */
  datatype Frame = Frame(vars: seq<Ty>, offs: seq<int>, size: nat)

  /** Variables lie inside the area and do not overlap. */
  ghost predicate Laid(fr: Frame) {
    && |fr.offs| == |fr.vars|
    && (forall x :: 0 <= x < |fr.vars| ==> -(fr.size as int) <= fr.offs[x] && fr.offs[x] + Size(fr.vars[x]) <= 0)
    && (forall x, y :: 0 <= x < |fr.vars| && 0 <= y < |fr.vars| && x != y ==>
          fr.offs[x] + Size(fr.vars[x]) <= fr.offs[y] || fr.offs[y] + Size(fr.vars[y]) <= fr.offs[x])
  }

  /** Address a belongs to a variable. */
  predicate Cell(fr: Frame, rbp: int, a: int)
    requires |fr.offs| == |fr.vars|
  {
    exists x :: 0 <= x < |fr.vars| && rbp + fr.offs[x] <= a < rbp + fr.offs[x] + Size(fr.vars[x])
  }

  ghost predicate InRegisters(st: State) {
    0 <= st.rax < W64 && 0 <= st.rdi < W64 && 0 <= st.rdx < W64 && 0 <= st.rcx < W64 && Bytes(st.mem)
  }

  /** Memory holds the values of env, and the stack is below the variables. */
  ghost predicate Holds(st: State, fr: Frame, env: Env)
    requires |fr.offs| == |fr.vars|
  {
    && InRegisters(st) && fr.size <= st.rbp < W64 && st.rsp <= st.rbp - fr.size && Fits(env, fr.vars)
    && forall x :: 0 <= x < |env| ==> LoadN(st.mem, st.rbp + fr.offs[x], Size(fr.vars[x])) == env[x] % Modulus(fr.vars[x])
  }

  /** Stack and frame pointer are the same, and so is all memory from the stack pointer up that is no variable. */
  ghost predicate Kept(st: State, st': State, fr: Frame)
    requires |fr.offs| == |fr.vars|
  {
    st'.rsp == st.rsp && st'.rbp == st.rbp && forall a :: a >= st.rsp && !Cell(fr, st.rbp, a) ==> st'.mem(a) == st.mem(a)
  }

  lemma KeptTwice(s0: State, s1: State, s2: State, fr: Frame)
    requires |fr.offs| == |fr.vars| && Kept(s0, s1, fr) && Kept(s1, s2, fr)
    ensures Kept(s0, s2, fr)
  {}

  /** n instructions from st run len cells of code and end with value v of type t in rax and the variables as in env. */
  ghost predicate Yields(p: seq<Insn>, st: State, n: nat, len: nat, fr: Frame, t: Ty, v: int, env: Env)
    requires |fr.offs| == |fr.vars|
  {
    Run(p, st, n).Some? &&
    var s := Run(p, st, n).value;
    s.pc == st.pc + len && Holds(s, fr, env) && Kept(st, s, fr) && Rep(t, v, s.rax)
  }

  /** The code of e is at pc, in a program in which every label is defined once. */
  ghost predicate Ready(p: seq<Insn>, fr: Frame, e: Expr, k: nat, pc: int) {
    UniqueLabels(p) && Laid(fr) && Wf(e, fr.vars) && Typed(e, fr.vars) && CodeAt(p, pc, Gen(e, fr.vars, fr.offs, k))
  }

  lemma Framed(st: State, fr: Frame, env: Env)
    requires Laid(fr) && Holds(st, fr, env)
    ensures |fr.offs| == |fr.vars| && Fits(env, fr.vars) && InRegisters(st)
  {}

  // ---------- tails that touch only registers ----------

  /** c changes nothing but rax, rdi, rdx, rcx and the flags. */
  ghost predicate RegistersOnly(st: State, s: State) { s.rsp == st.rsp && s.rbp == st.rbp && s.mem == st.mem }

  lemma Tail(p: seq<Insn>, s0: State, n: nat, s1: State, c: seq<Insn>, s2: State, len: nat, fr: Frame, env: Env, t: Ty, v: int)
    requires Run(p, s0, n) == Some(s1) && s1.pc == s0.pc + len && CodeAt(p, s1.pc, c)
    requires Straight(c, s1) == Some(s2) && RegistersOnly(s1, s2)
    requires |fr.offs| == |fr.vars| && Holds(s1, fr, env) && Kept(s0, s1, fr) && InRegisters(s2) && Rep(t, v, s2.rax)
    ensures Yields(p, s0, n + |c|, len + |c|, fr, t, v, env)
  {
    hide Run, Straight, CodeAt, Rep, Cell, Kept;
    StraightRun(p, c, s1);
    Chain(p, s0, n, s1, |c|, Some(s2));
    TailHolds(s1, s2, fr, env);
    TailKept(s0, s1, s2, fr);
  }

  lemma TailHolds(s1: State, s2: State, fr: Frame, env: Env)
    requires |fr.offs| == |fr.vars| && Holds(s1, fr, env) && RegistersOnly(s1, s2) && InRegisters(s2)
    ensures Holds(s2, fr, env)
  {
    hide LoadN, InRegisters;
  }

  lemma TailKept(s0: State, s1: State, s2: State, fr: Frame)
    requires |fr.offs| == |fr.vars| && Kept(s0, s1, fr) && RegistersOnly(s1, s2)
    ensures Kept(s0, s2, fr)
  {
    hide Cell;
  }

  lemma Straight1(a: Insn, st: State)
    requires !IsJump(a)
    ensures Straight([a], st) == Effect(a, st)
  {
    hide Effect;
    var r := Effect(a, st);
    if r.Some? { assert Straight([a][1..], r.value) == Some(r.value); }
  }

  lemma StraightCons(a: Insn, c: seq<Insn>, st: State)
    requires !IsJump(a) && Effect(a, st).Some?
    ensures Straight([a] + c, st) == Straight(c, Effect(a, st).value)
  {
    hide Effect;
    assert ([a] + c)[1..] == c;
  }

  // ---------- leaves ----------

  lemma SimNum(p: seq<Insn>, fr: Frame, e: Expr, k: nat, st: State, env: Env)
    requires Ready(p, fr, e, k, st.pc) && Holds(st, fr, env) && e.Num?
    ensures Yields(p, st, 1, 1, fr, e.ty, e.val, env)
  {
    hide Run, UniqueLabels, Cell, CodeAt, Laid, Holds;
    Framed(st, fr, env);
    var s := st.(pc := st.pc + 1, rax := e.val % W64);
    Straight1(MovImm(e.val), st);
    LowOfLow(e.ty, e.val);
    RunNone(p, st);
    Tail(p, st, 0, st, [MovImm(e.val)], s, 0, fr, env, e.ty, e.val);
  }

  lemma LoadRep(t: Ty, v: int)
    requires InRange(t, v)
    ensures var x := v % Modulus(t); Rep(t, v, if Size(t) == 4 then Signed(4, x) % W64 else x)
  {
    hide Wrap;
    var x := v % Modulus(t);
    ReduceMod(Modulus(t), v);
    if Size(t) == 4 {
      LowOfLow(t, Signed(4, x));
      CongDiff(W32, Signed(4, x), x, if x >= W32 / 2 then -1 else 0);
    }
  }

  lemma Address(fr: Frame, st: State, env: Env, x: nat)
    requires Laid(fr) && Holds(st, fr, env) && x < |fr.vars|
    ensures |fr.offs| == |fr.vars| && (st.rbp + fr.offs[x]) % W64 == st.rbp + fr.offs[x] && 0 <= st.rbp + fr.offs[x] < W64
  {
    LaidAt(fr, x);
    hide Cell, Laid, LoadN, InRegisters, Fits;
    QuotientIs(st.rbp + fr.offs[x], W64, 0, st.rbp + fr.offs[x]);
  }

  lemma VarEffect(fr: Frame, x: nat, st: State, env: Env) returns (s: State)
    requires Laid(fr) && Holds(st, fr, env) && x < |fr.vars|
    ensures Straight([Lea(fr.offs[x]), LoadMem(Size(fr.vars[x]))], st) == Some(s) && RegistersOnly(st, s) && InRegisters(s)
    ensures Rep(fr.vars[x], env[x], s.rax)
  {
    hide Cell, LoadN, Straight, Rep;
    var t, a := fr.vars[x], st.rbp + fr.offs[x];
    Address(fr, st, env, x);
    LoadRep(t, env[x]);
    var s1 := st.(pc := st.pc + 1, rax := a);
    s := Effect(LoadMem(Size(t)), s1).value;
    RepRange(t, env[x], s.rax);
    StraightCons(Lea(fr.offs[x]), [LoadMem(Size(t))], st);
    Straight1(LoadMem(Size(t)), s1);
    assert [Lea(fr.offs[x])] + [LoadMem(Size(t))] == [Lea(fr.offs[x]), LoadMem(Size(t))];
  }

  lemma SimVar(p: seq<Insn>, fr: Frame, e: Expr, k: nat, st: State, env: Env)
    requires Ready(p, fr, e, k, st.pc) && Holds(st, fr, env) && e.Var?
    ensures Yields(p, st, 2, 2, fr, fr.vars[e.x], env[e.x], env)
  {
    hide Run, UniqueLabels, Cell, CodeAt, Laid, Holds, Straight, Rep, LoadN;
    Framed(st, fr, env);
    var s := VarEffect(fr, e.x, st, env);
    RunNone(p, st);
    Tail(p, st, 0, st, [Lea(fr.offs[e.x]), LoadMem(Size(fr.vars[e.x]))], s, 0, fr, env, fr.vars[e.x], env[e.x]);
  }

  // ---------- unary operators ----------

  function UnaryValue(e: Expr, vars: seq<Ty>, v: int): int
    requires IsUnary(e) && Wf(e, vars)
  {
    match e
    case Neg(_) => Wrap(TypeOf(e, vars), -v)
    case BitNot(_) => Wrap(TypeOf(e, vars), -1 - v)
    case Not(_) => Truth(v == 0)
    case Cast(t, _) => Wrap(t, v)
  }

  lemma UnaryParts(e: Expr, fr: Frame, k: nat, env: Env)
    requires IsUnary(e) && |fr.offs| == |fr.vars| && Wf(e, fr.vars) && Typed(e, fr.vars) && Fits(env, fr.vars)
    ensures Gen(e, fr.vars, fr.offs, k) == Gen(e.e, fr.vars, fr.offs, k) + UnaryCode(e, fr.vars) && Typed(e.e, fr.vars)
    ensures var r := Eval(e.e, fr.vars, env);
      Eval(e, fr.vars, env) == if r.Undefined? then r else Ok(UnaryValue(e, fr.vars, r.v), r.env)
  {
    hide Wrap, CommonType, CastCode;
    var r := Eval(e.e, fr.vars, env);
    if e.Neg? && r.Ok? { assert Wrap(TypeOf(e, fr.vars), r.v) == r.v; }
  }

  /** The instructions of a unary operator compute its value. */
  lemma UnaryEffect(e: Expr, vars: seq<Ty>, st: State, v: int) returns (s: State)
    requires IsUnary(e) && Wf(e, vars) && Typed(e, vars) && InRegisters(st) && InRange(TypeOf(e.e, vars), v) && Rep(TypeOf(e.e, vars), v, st.rax)
    ensures Straight(UnaryCode(e, vars), st) == Some(s) && RegistersOnly(st, s) && InRegisters(s)
    ensures Rep(TypeOf(e, vars), UnaryValue(e, vars, v), s.rax)
  {
    hide Wrap, CommonType, Bytes, InRange, LoadN, StoreN, Straight;
    var t := TypeOf(e.e, vars);
    match e
    case Neg(_) =>
      s := st.(pc := st.pc + 1, rax := (-st.rax) % W64);
      NegRep(t, v, st.rax);
      Straight1(NegRax, st);
    case BitNot(_) =>
      s := st.(pc := st.pc + 1, rax := W64 - 1 - st.rax);
      NotRep(t, v, st.rax);
      Straight1(NotRax, st);
    case Not(_) => s := NotEffect(t, st, v);
    case Cast(to, _) => s := CastEffect(t, to, st, v);
  }

  lemma NotEffect(t: Ty, st: State, v: int) returns (s: State)
    requires InRegisters(st) && InRange(t, v) && Rep(t, v, st.rax)
    ensures Straight([CmpZero(Size(t)), SetAl(FE), ZxAl], st) == Some(s) && RegistersOnly(st, s) && InRegisters(s)
    ensures Rep(I32, Truth(v == 0), s.rax)
  {
    hide Bytes, InRange, LoadN, StoreN, Straight, Rep;
    Decoded(t, v, st.rax);
    var s1 := st.(pc := st.pc + 1, flags := Flags(Low(Size(t), st.rax), 0, Size(t)));
    s := SetEffect(FE, s1);
    StraightCons(CmpZero(Size(t)), [SetAl(FE), ZxAl], st);
    assert [CmpZero(Size(t))] + [SetAl(FE), ZxAl] == [CmpZero(Size(t)), SetAl(FE), ZxAl];
  }

  /** A condition as the number 0 or 1. */
  lemma SetEffect(f: Flag, st: State) returns (s: State)
    requires InRegisters(st)
    ensures Straight([SetAl(f), ZxAl], st) == Some(s) && RegistersOnly(st, s) && InRegisters(s)
    ensures s.rax == Truth(FlagHolds(f, st.flags)) && Rep(I32, s.rax, s.rax)
  {
    hide Bytes, LoadN, StoreN, Straight, FlagHolds;
    var b := Truth(FlagHolds(f, st.flags));
    var s1 := st.(pc := st.pc + 1, rax := st.rax - st.rax % 256 + b);
    SetByte(st.rax, b);
    s := s1.(pc := st.pc + 2, rax := b);
    StraightCons(SetAl(f), [ZxAl], st);
    Straight1(ZxAl, s1);
    assert [SetAl(f)] + [ZxAl] == [SetAl(f), ZxAl];
  }

  lemma CastEffect(from: Ty, to: Ty, st: State, v: int) returns (s: State)
    requires InRegisters(st) && InRange(from, v) && Rep(from, v, st.rax)
    ensures Straight(CastCode(from, to), st) == Some(s) && RegistersOnly(st, s) && InRegisters(s)
    ensures Rep(to, Wrap(to, v), s.rax)
  {
    hide Wrap, Bytes, InRange, LoadN, StoreN, Rep;
    CastRep(from, to, v, st.rax);
    var c := CastCode(from, to);
    if c == [MovEaxEax] {
      s := st.(pc := st.pc + 1, rax := Low(4, st.rax));
      Straight1(MovEaxEax, st);
    } else if c == [Movsxd] {
      s := st.(pc := st.pc + 1, rax := Signed(4, Low(4, st.rax)) % W64);
      Straight1(Movsxd, st);
    } else {
      s := st;
    }
  }

  lemma {:induction false} SimUnary(p: seq<Insn>, fr: Frame, e: Expr, k: nat, st: State, env: Env) returns (n: nat)
    requires Ready(p, fr, e, k, st.pc) && Holds(st, fr, env) && IsUnary(e) && Eval(e, fr.vars, env).Ok?
    ensures var r := Eval(e, fr.vars, env); Yields(p, st, n, |Gen(e, fr.vars, fr.offs, k)|, fr, TypeOf(e, fr.vars), r.v, r.env)
    decreases ESize(e), 0
  {
    hide Run, UniqueLabels, Cell, CodeAt, Laid, Gen, Eval, UnaryCode, UnaryValue, Rep, Straight, Holds;
    Framed(st, fr, env);
    UnaryParts(e, fr, k, env);
    CodeCat(p, st.pc, Gen(e.e, fr.vars, fr.offs, k), UnaryCode(e, fr.vars));
    n := SimE(p, fr, e.e, k, st, env);
    var r := Eval(e.e, fr.vars, env);
    var s1 := Run(p, st, n).value;
    HoldsRegisters(s1, fr, r.env);
    var s2 := UnaryEffect(e, fr.vars, s1, r.v);
    Tail(p, st, n, s1, UnaryCode(e, fr.vars), s2, |Gen(e.e, fr.vars, fr.offs, k)|, fr, r.env, TypeOf(e, fr.vars), UnaryValue(e, fr.vars, r.v));
    n := n + |UnaryCode(e, fr.vars)|;
  }

  lemma HoldsRegisters(st: State, fr: Frame, env: Env)
    requires |fr.offs| == |fr.vars| && Holds(st, fr, env)
    ensures InRegisters(st)
  {}

  // ---------- two operands ----------

  lemma LaidAt(fr: Frame, x: nat)
    requires Laid(fr) && x < |fr.vars|
    ensures |fr.offs| == |fr.vars| && -(fr.size as int) <= fr.offs[x] && fr.offs[x] + Size(fr.vars[x]) <= 0
  {}

  lemma VarSame(st: State, s: State, fr: Frame, env: Env, x: nat)
    requires Laid(fr) && Holds(st, fr, env) && s.rbp == st.rbp && x < |env| && |fr.vars| == |env|
    requires forall a :: a >= st.rbp - fr.size ==> s.mem(a) == st.mem(a)
    ensures |fr.offs| == |fr.vars| && LoadN(s.mem, s.rbp + fr.offs[x], Size(fr.vars[x])) == env[x] % Modulus(fr.vars[x])
  {
    LaidAt(fr, x);
    hide Cell, InRegisters, Laid, Fits, LoadN, Modulus, Size;
    LoadSame(st.mem, s.mem, st.rbp + fr.offs[x], Size(fr.vars[x]));
  }

  /** Variables keep their values if their cells do. */
  lemma VarsSame(st: State, s: State, fr: Frame, env: Env)
    requires Laid(fr) && Holds(st, fr, env) && s.rbp == st.rbp && InRegisters(s) && s.rsp <= s.rbp - fr.size
    requires forall a :: a >= st.rbp - fr.size ==> s.mem(a) == st.mem(a)
    ensures |fr.offs| == |fr.vars| && Holds(s, fr, env)
  {
    hide Cell, InRegisters, Laid, LoadN, Modulus, Size, InRange;
    Framed(st, fr, env);
    forall x | 0 <= x < |env| ensures LoadN(s.mem, s.rbp + fr.offs[x], Size(fr.vars[x])) == env[x] % Modulus(fr.vars[x]) {
      VarSame(st, s, fr, env, x);
    }
  }

  lemma PushMem(mem: Mem, rsp: int, v: int)
    requires Bytes(mem) && 0 <= v < W64
    ensures var mem' := StoreN(mem, rsp - 8, 8, v);
      Bytes(mem') && LoadN(mem', rsp - 8, 8) == v && forall a :: a >= rsp ==> mem'(a) == mem(a)
  {
    hide StoreN, LoadN, Power;
    StoreBytes(mem, rsp - 8, 8, v);
    LoadStored(mem, rsp - 8, 8, v);
    Powers();
    QuotientIs(v, W64, 0, v);
    forall a | a >= rsp ensures StoreN(mem, rsp - 8, 8, v)(a) == mem(a) { StoreElsewhere(mem, rsp - 8, 8, v, a); }
  }

  lemma PushHolds(st: State, fr: Frame, env: Env)
    requires Laid(fr) && Holds(st, fr, env)
    ensures var s := Effect(Push, st).value;
      && Effect(Push, st).Some? && Holds(s, fr, env) && s.rsp == st.rsp - 8 && s.rbp == st.rbp && s.rax == st.rax && s.pc == st.pc + 1
      && LoadN(s.mem, s.rsp, 8) == st.rax && forall a :: a >= st.rsp ==> s.mem(a) == st.mem(a)
  {
    hide Cell, Laid, StoreN, LoadN;
    PushMem(st.mem, st.rsp, st.rax);
    VarsSame(st, Effect(Push, st).value, fr, env);
  }

  /** What was pushed is still there, and comes back into rdi. */
  lemma PopBack(s0: State, s2: State, s3: State, fr: Frame, env: Env, v: int)
    requires Laid(fr) && Holds(s0, fr, env) && s2.rsp == s0.rsp - 8 && s2.rbp == s0.rbp && LoadN(s2.mem, s2.rsp, 8) == v && 0 <= v < W64
    requires (forall a :: a >= s0.rsp ==> s2.mem(a) == s0.mem(a)) && Kept(s2, s3, fr)
    ensures var s4 := s3.(pc := s3.pc + 1, rsp := s3.rsp + 8, rdi := v); Effect(PopRdi, s3) == Some(s4) && Kept(s0, s4, fr)
  {
    forall a | s2.rsp <= a < s0.rsp ensures s3.mem(a) == s2.mem(a) { assert !Cell(fr, s2.rbp, a); }
    LoadSame(s2.mem, s3.mem, s2.rsp, 8);
  }

  lemma StackMoved(s3: State, s4: State, fr: Frame, env: Env)
    requires |fr.offs| == |fr.vars| && Holds(s3, fr, env) && s4.mem == s3.mem && s4.rbp == s3.rbp && InRegisters(s4)
    requires s4.rsp <= s4.rbp - fr.size
    ensures Holds(s4, fr, env)
  {}

  /** Evaluates r, then l; leaves l's value in rax and r's in rdi. */
  ghost predicate Both(p: seq<Insn>, st: State, n: nat, len: nat, fr: Frame, tl: Ty, a: int, tr: Ty, b: int, env: Env)
    requires |fr.offs| == |fr.vars|
  {
    Yields(p, st, n, len, fr, tl, a, env) && Rep(tr, b, Run(p, st, n).value.rdi)
  }

  /** Size of an expression. */
  function ESize(e: Expr): (n: nat)
    ensures n > 0
  {
    match e
    case Num(_, _) => 1
    case Var(_) => 1
    case Neg(a) => 1 + ESize(a)
    case BitNot(a) => 1 + ESize(a)
    case Not(a) => 1 + ESize(a)
    case Bin(_, l, r) => 1 + ESize(l) + ESize(r)
    case Shift(_, l, r) => 1 + ESize(l) + ESize(r)
    case Compare(_, l, r) => 1 + ESize(l) + ESize(r)
    case LogAnd(l, r) => 1 + ESize(l) + ESize(r)
    case LogOr(l, r) => 1 + ESize(l) + ESize(r)
    case Cond(c, t, f) => 1 + ESize(c) + ESize(t) + ESize(f)
    case Assign(_, a) => 1 + ESize(a)
    case Cast(_, a) => 1 + ESize(a)
    case Comma(l, r) => 1 + ESize(l) + ESize(r)
  }

  lemma OperandsParts(p: seq<Insn>, pc: int, cr: seq<Insn>, cl: seq<Insn>)
    requires CodeAt(p, pc, Operands(cr, cl))
    ensures CodeAt(p, pc, cr) && CodeAt(p, pc + |cr|, [Push]) && CodeAt(p, pc + |cr| + 1, cl) && CodeAt(p, pc + |cr| + 1 + |cl|, [PopRdi])
    ensures |Operands(cr, cl)| == |cr| + |cl| + 2
  {
    CodeCat(p, pc, cr, [Push] + (cl + [PopRdi]));
    CodeCat(p, pc + |cr|, [Push], cl + [PopRdi]);
    CodeCat(p, pc + |cr| + 1, cl, [PopRdi]);
  }

  lemma OneInsn(p: seq<Insn>, st: State, i: Insn, s: State)
    requires CodeAt(p, st.pc, [i]) && !IsJump(i) && Effect(i, st) == Some(s)
    ensures Run(p, st, 1) == Some(s)
  {
    hide Effect, Run;
    Straight1(i, st);
    StraightRun(p, [i], st);
  }

  lemma {:induction false} SimOperands(p: seq<Insn>, fr: Frame, l: Expr, r: Expr, k: nat, st: State, env: Env) returns (n: nat)
    requires UniqueLabels(p) && Laid(fr) && Wf(l, fr.vars) && Wf(r, fr.vars) && Typed(l, fr.vars) && Typed(r, fr.vars) && Holds(st, fr, env)
    requires CodeAt(p, st.pc, Operands(Gen(r, fr.vars, fr.offs, k), Gen(l, fr.vars, fr.offs, k + Labels(r))))
    requires var b := Eval(r, fr.vars, env); b.Ok? && Eval(l, fr.vars, b.env).Ok?
    ensures var b := Eval(r, fr.vars, env); var a := Eval(l, fr.vars, b.env);
      Both(p, st, n, |Gen(r, fr.vars, fr.offs, k)| + |Gen(l, fr.vars, fr.offs, k + Labels(r))| + 2, fr,
           TypeOf(l, fr.vars), a.v, TypeOf(r, fr.vars), b.v, a.env)
    decreases ESize(l) + ESize(r), 2
  {
    hide Run, UniqueLabels, Cell, CodeAt, Laid, Gen, Eval, Rep, Holds, Kept, Effect, Operands, LoadN, StoreN, InRegisters, Fits, InRange, TypeOf, Typed, Wf, Labels;
    Framed(st, fr, env);
    var cr, cl := Gen(r, fr.vars, fr.offs, k), Gen(l, fr.vars, fr.offs, k + Labels(r));
    OperandsParts(p, st.pc, cr, cl);
    n := SimE(p, fr, r, k, st, env);
    var b := Eval(r, fr.vars, env);
    var s1 := Run(p, st, n).value;
    PushHolds(s1, fr, b.env);
    var s2 := Effect(Push, s1).value;
    OneInsn(p, s1, Push, s2);
    Chain(p, st, n, s1, 1, Some(s2));
    var n2 := SimE(p, fr, l, k + Labels(r), s2, b.env);
    var a := Eval(l, fr.vars, b.env);
    var s3 := Run(p, s2, n2).value;
    Chain(p, st, n + 1, s2, n2, Some(s3));
    RepRange(TypeOf(r, fr.vars), b.v, s1.rax);
    PopBack(s1, s2, s3, fr, b.env, s1.rax);
    var s4 := s3.(pc := s3.pc + 1, rsp := s3.rsp + 8, rdi := s1.rax);
    OneInsn(p, s3, PopRdi, s4);
    Chain(p, st, n + 1 + n2, s3, 1, Some(s4));
    PoppedHolds(s1, s2, s3, s4, fr, b.env, a.env);
    KeptTwice(st, s1, s4, fr);
    n := n + n2 + 2;
  }

  lemma RepRange(t: Ty, v: int, r: int)
    requires Rep(t, v, r)
    ensures 0 <= r < W64
  {}

  lemma PoppedHolds(s1: State, s2: State, s3: State, s4: State, fr: Frame, env1: Env, env: Env)
    requires |fr.offs| == |fr.vars| && Holds(s1, fr, env1) && Holds(s3, fr, env) && Kept(s2, s3, fr)
    requires s2.rsp == s1.rsp - 8 && s2.rbp == s1.rbp && s4 == s3.(pc := s3.pc + 1, rsp := s3.rsp + 8, rdi := s1.rax)
    ensures Holds(s4, fr, env)
  {
    hide Cell;
    StackMoved(s3, s4, fr, env);
  }

  // ---------- binary operators ----------

  /** The operation is defined for values a and b of the operands. */
  predicate BinaryDefined(e: Expr, vars: seq<Ty>, a: int, b: int)
    requires IsBinary(e) && Wf(e, vars)
  {
    var t := TypeOf(e.l, vars);
    (e.Bin? ==> !Traps(e.op, t, a, b)) && (e.Shift? ==> 0 <= b < 8 * Size(t))
  }

  function BinaryResult(e: Expr, vars: seq<Ty>, a: int, b: int): int
    requires IsBinary(e) && Wf(e, vars) && BinaryDefined(e, vars, a, b)
  {
    var t := TypeOf(e.l, vars);
    if e.Bin? then BinValue(e.op, t, a, b) else if e.Shift? then ShiftValue(e.left, t, a, b) else Truth(CmpValue(e.cmp, a, b))
  }

  lemma BinaryParts(e: Expr, fr: Frame, k: nat, env: Env)
    requires IsBinary(e) && |fr.offs| == |fr.vars| && Wf(e, fr.vars) && Typed(e, fr.vars) && Fits(env, fr.vars)
    ensures Gen(e, fr.vars, fr.offs, k)
         == Operands(Gen(e.r, fr.vars, fr.offs, k), Gen(e.l, fr.vars, fr.offs, k + Labels(e.r))) + BinaryCode(e, fr.vars)
    ensures Typed(e.l, fr.vars) && Typed(e.r, fr.vars) && (!e.Shift? ==> TypeOf(e.l, fr.vars) == TypeOf(e.r, fr.vars))
    ensures var b := Eval(e.r, fr.vars, env);
      && (b.Undefined? ==> Eval(e, fr.vars, env) == Undefined)
      && (b.Ok? ==> var a := Eval(e.l, fr.vars, b.env);
            Eval(e, fr.vars, env) == if a.Undefined? || !BinaryDefined(e, fr.vars, a.v, b.v) then Undefined
                                     else Ok(BinaryResult(e, fr.vars, a.v, b.v), a.env))
  {
    hide Wrap, CommonType, OpCode, ShiftCode, CmpCode, Operands, BinValue, ShiftValue, CmpValue, Traps;
    var b := Eval(e.r, fr.vars, env);
    if b.Ok? && !e.Shift? {
      var a := Eval(e.l, fr.vars, b.env);
      var t := CommonType(TypeOf(e.l, fr.vars), TypeOf(e.r, fr.vars));
      if a.Ok? { assert Wrap(t, a.v) == a.v && Wrap(t, b.v) == b.v; }
    }
  }

  /** The instructions of a binary operator compute its value from rax and rdi. */
  lemma BinaryEffect(e: Expr, vars: seq<Ty>, st: State, a: int, b: int) returns (s: State)
    requires IsBinary(e) && Wf(e, vars) && Typed(e, vars) && InRegisters(st) && BinaryDefined(e, vars, a, b)
    requires InRange(TypeOf(e.l, vars), a) && Rep(TypeOf(e.l, vars), a, st.rax)
    requires InRange(TypeOf(e.r, vars), b) && Rep(TypeOf(e.r, vars), b, st.rdi)
    ensures Straight(BinaryCode(e, vars), st) == Some(s) && RegistersOnly(st, s) && InRegisters(s)
    ensures Rep(TypeOf(e, vars), BinaryResult(e, vars, a, b), s.rax)
  {
    hide Wrap, Bytes, InRange, LoadN, StoreN, Straight, OpCode, ShiftCode, CmpCode, Rep, BinValue, ShiftValue, Traps, CmpValue;
    var t := TypeOf(e.l, vars);
    if e.Bin? {
      s := OpEffect(e.op, t, st, a, b);
    } else if e.Shift? {
      s := ShiftEffect(e.left, t, TypeOf(e.r, vars), st, a, b);
    } else {
      s := CompareEffect(e.cmp, t, st, a, b);
    }
  }

  lemma CompareEffect(op: CmpOp, t: Ty, st: State, a: int, b: int) returns (s: State)
    requires InRegisters(st) && InRange(t, a) && Rep(t, a, st.rax) && InRange(t, b) && Rep(t, b, st.rdi)
    ensures Straight(CmpCode(op, t), st) == Some(s) && RegistersOnly(st, s) && InRegisters(s)
    ensures Rep(I32, Truth(CmpValue(op, a, b)), s.rax)
  {
    hide Bytes, InRange, LoadN, StoreN, Straight, Rep, CmpFlag, CmpValue, FlagHolds;
    FlagRep(op, t, a, b, st.rax, st.rdi);
    var s1 := st.(pc := st.pc + 1, flags := Flags(Low(Size(t), st.rax), Low(Size(t), st.rdi), Size(t)));
    s := SetEffect(CmpFlag(op, t), s1);
    StraightCons(CmpRdi(Size(t)), [SetAl(CmpFlag(op, t)), ZxAl], st);
    assert [CmpRdi(Size(t))] + [SetAl(CmpFlag(op, t)), ZxAl] == CmpCode(op, t);
  }

  lemma ShiftEffect(left: bool, t: Ty, u: Ty, st: State, a: int, n: nat) returns (s: State)
    requires InRegisters(st) && InRange(t, a) && Rep(t, a, st.rax) && InRange(u, n) && Rep(u, n, st.rdi) && n < 8 * Size(t)
    ensures Straight(ShiftCode(left, t), st) == Some(s) && RegistersOnly(st, s) && InRegisters(s)
    ensures Rep(t, ShiftValue(left, t, a, n), s.rax)
  {
    hide Bytes, InRange, LoadN, StoreN, Straight, ShiftValue, Pow2;
    ShiftCount(t, u, n, st.rdi);
    ShiftRep(left, t, a, n, st.rax);
    var s1 := st.(pc := st.pc + 1, rcx := st.rdi);
    var i := if left then ShlCl(Size(t)) else if Unsigned(t) then ShrCl(Size(t)) else SarCl(Size(t));
    s := Effect(i, s1).value;
    StraightCons(MovRdiRcx, [i], st);
    Straight1(i, s1);
    assert [MovRdiRcx] + [i] == ShiftCode(left, t);
  }

  lemma OpEffect(op: BinOp, t: Ty, st: State, a: int, b: int) returns (s: State)
    requires InRegisters(st) && InRange(t, a) && Rep(t, a, st.rax) && InRange(t, b) && Rep(t, b, st.rdi) && !Traps(op, t, a, b)
    ensures Straight(OpCode(op, t), st) == Some(s) && RegistersOnly(st, s) && InRegisters(s)
    ensures Rep(t, BinValue(op, t, a, b), s.rax)
  {
    hide Bytes, InRange, LoadN, StoreN, Straight, Rep, BinValue, AluValue;
    if op == Div || op == Rem {
      s := DivEffect(op, t, st, a, b);
    } else {
      var w := Size(t);
      s := st.(pc := st.pc + 1, rax := AluValue(op, w, Low(w, st.rax), Low(w, st.rdi)));
      AluRep(op, t, a, b, st.rax, st.rdi);
      Straight1(Alu(op, w), st);
    }
  }

  /** The dividend is extended into rdx; quotient and remainder come out in rax and rdx. */
  lemma DivEffect(op: BinOp, t: Ty, st: State, a: int, b: int) returns (s: State)
    requires op == Div || op == Rem
    requires InRegisters(st) && InRange(t, a) && Rep(t, a, st.rax) && InRange(t, b) && Rep(t, b, st.rdi) && !Traps(op, t, a, b)
    ensures Straight(OpCode(op, t), st) == Some(s) && RegistersOnly(st, s) && InRegisters(s)
    ensures Rep(t, BinValue(op, t, a, b), s.rax)
  {
    hide Bytes, InRange, LoadN, StoreN, Straight, Rep, BinValue, TruncDiv, TruncMod;
    var w := Size(t);
    var s2 := DivRegisters(t, st, a, b);
    var c := DivCode(t);
    DivValues(t, a, b, s2.rax, s2.rdx);
    if op == Div {
      s := s2;
      assert OpCode(op, t) == c;
    } else {
      s := s2.(pc := s2.pc + 1, rax := s2.rdx);
      StraightThen(c, MovRdxRax, st, s2);
      assert OpCode(op, t) == c + [MovRdxRax];
    }
  }

  lemma StraightThen(c: seq<Insn>, i: Insn, st: State, s: State)
    requires |c| == 2 && !IsJump(c[0]) && !IsJump(c[1]) && !IsJump(i) && Straight(c, st) == Some(s)
    ensures Straight(c + [i], st) == Effect(i, s)
  {
    hide Effect;
    var s1 := Effect(c[0], st).value;
    assert c[1..] == [c[1]] && (c + [i])[1..] == [c[1], i];
    Straight1(c[1], s1);
    assert [c[1], i][1..] == [i];
    Straight1(i, s);
  }

  /** Quotient and remainder represent those of C. */
  lemma DivValues(t: Ty, a: int, b: int, q: int, r: int)
    requires !Traps(Div, t, a, b) && !Traps(Rem, t, a, b) && 0 <= q < W64 && 0 <= r < W64
    requires Cong(Modulus(t), q, TruncDiv(a, b)) && Cong(Modulus(t), r, TruncMod(a, b))
    ensures Rep(t, BinValue(Div, t, a, b), q) && Rep(t, BinValue(Rem, t, a, b), r)
  {
    hide TruncDiv, TruncMod, Wrap;
    RepWrap(t, TruncDiv(a, b), q);
    RepWrap(t, TruncMod(a, b), r);
  }

  function DivCode(t: Ty): seq<Insn> {
    var w := Size(t);
    if Unsigned(t) then [ZeroRdx(w), DivU(w)] else [SignRdx(w), DivS(w)]
  }

  /** The two states that division goes through. */
  lemma DivSteps(t: Ty, st: State, s1: State, s: State)
    requires Effect(DivCode(t)[0], st) == Some(s1) && Effect(DivCode(t)[1], s1) == Some(s)
    ensures Straight(DivCode(t), st) == Some(s)
  {
    hide Effect, Straight;
    var a, b := DivCode(t)[0], DivCode(t)[1];
    StraightCons(a, [b], st);
    Straight1(b, s1);
    assert DivCode(t) == [a] + [b];
  }

  lemma DivUnsigned(t: Ty, st: State, a: int, b: int) returns (s: State)
    requires InRegisters(st) && InRange(t, a) && Rep(t, a, st.rax) && InRange(t, b) && Rep(t, b, st.rdi) && !Traps(Div, t, a, b) && Unsigned(t)
    ensures Straight(DivCode(t), st) == Some(s) && s == st.(pc := s.pc, rax := TruncDiv(a, b), rdx := TruncMod(a, b))
    ensures InRegisters(s)
  {
    hide Bytes, LoadN, StoreN, Straight, Rep, TruncDiv, TruncMod;
    DivRep(t, a, b, st.rax, st.rdi);
    ModIs(t);
    var s1 := st.(pc := st.pc + 1, rdx := 0);
    QuotientIs(0, Modulus(t), 0, 0);
    UnsignedRemainder(a, b);
    s := s1.(pc := st.pc + 2, rax := a / b, rdx := a % b);
    DivSteps(t, st, s1, s);
  }

  lemma DivSigned(t: Ty, st: State, a: int, b: int) returns (s: State)
    requires InRegisters(st) && InRange(t, a) && Rep(t, a, st.rax) && InRange(t, b) && Rep(t, b, st.rdi) && !Traps(Div, t, a, b) && !Unsigned(t)
    ensures var m := Modulus(t);
      Straight(DivCode(t), st) == Some(s) && s == st.(pc := s.pc, rax := TruncDiv(a, b) % m, rdx := TruncMod(a, b) % m)
    ensures InRegisters(s)
  {
    hide Bytes, LoadN, StoreN, Straight, Rep, TruncDiv, TruncMod;
    DivRep(t, a, b, st.rax, st.rdi);
    ModIs(t);
    var w, m := Size(t), Modulus(t);
    var s1 := st.(pc := st.pc + 1, rdx := if Signed(w, Low(w, st.rax)) < 0 then m - 1 else 0);
    s := s1.(pc := st.pc + 2, rax := Low(w, TruncDiv(a, b)), rdx := Low(w, TruncMod(a, b)));
    DivSteps(t, st, s1, s);
  }

  lemma DivRegisters(t: Ty, st: State, a: int, b: int) returns (s: State)
    requires InRegisters(st) && InRange(t, a) && Rep(t, a, st.rax) && InRange(t, b) && Rep(t, b, st.rdi) && !Traps(Div, t, a, b)
    ensures Straight(DivCode(t), st) == Some(s) && RegistersOnly(st, s) && InRegisters(s) && 0 <= s.rax < W64 && 0 <= s.rdx < W64
    ensures Cong(Modulus(t), s.rax, TruncDiv(a, b)) && Cong(Modulus(t), s.rdx, TruncMod(a, b))
  {
    hide Bytes, LoadN, StoreN, Straight, Rep, TruncDiv, TruncMod, DivCode, InRange;
    if Unsigned(t) {
      s := DivUnsigned(t, st, a, b);
    } else {
      s := DivSigned(t, st, a, b);
      ReduceMod(Modulus(t), TruncDiv(a, b));
      ReduceMod(Modulus(t), TruncMod(a, b));
    }
  }

  lemma UnsignedRemainder(a: nat, b: nat)
    requires b > 0
    ensures 0 <= a % b < b
  {
    DivMod(a, b);
  }

  lemma {:induction false} SimBinary(p: seq<Insn>, fr: Frame, e: Expr, k: nat, st: State, env: Env) returns (n: nat)
    requires Ready(p, fr, e, k, st.pc) && Holds(st, fr, env) && IsBinary(e) && Eval(e, fr.vars, env).Ok?
    ensures var r := Eval(e, fr.vars, env); Yields(p, st, n, |Gen(e, fr.vars, fr.offs, k)|, fr, TypeOf(e, fr.vars), r.v, r.env)
    decreases ESize(e), 0
  {
    hide Run, UniqueLabels, Cell, CodeAt, Laid, Gen, Eval, BinaryCode, BinaryResult, BinaryDefined, Rep, Straight, Holds, Operands;
    Framed(st, fr, env);
    BinaryParts(e, fr, k, env);
    var cr, cl := Gen(e.r, fr.vars, fr.offs, k), Gen(e.l, fr.vars, fr.offs, k + Labels(e.r));
    CodeCat(p, st.pc, Operands(cr, cl), BinaryCode(e, fr.vars));
    OperandsLength(cr, cl);
    n := SimOperands(p, fr, e.l, e.r, k, st, env);
    var b := Eval(e.r, fr.vars, env);
    var a := Eval(e.l, fr.vars, b.env);
    var s1 := Run(p, st, n).value;
    HoldsRegisters(s1, fr, a.env);
    var s2 := BinaryEffect(e, fr.vars, s1, a.v, b.v);
    Tail(p, st, n, s1, BinaryCode(e, fr.vars), s2, |Operands(cr, cl)|, fr, a.env, TypeOf(e, fr.vars), BinaryResult(e, fr.vars, a.v, b.v));
    n := n + |BinaryCode(e, fr.vars)|;
  }

  lemma OperandsLength(cr: seq<Insn>, cl: seq<Insn>)
    ensures |Operands(cr, cl)| == |cr| + |cl| + 2
  {}

  // ---------- assignment ----------

  lemma PushAddress(p: seq<Insn>, fr: Frame, st: State, env: Env, x: nat) returns (s2: State)
    requires Laid(fr) && Holds(st, fr, env) && x < |fr.vars| == |fr.offs| && CodeAt(p, st.pc, [Lea(fr.offs[x]), Push])
    ensures var s1 := st.(pc := st.pc + 1, rax := st.rbp + fr.offs[x]);
      && Run(p, st, 2) == Some(s2) && Holds(s1, fr, env) && Holds(s2, fr, env) && 0 <= s1.rax < W64
      && s2.rsp == st.rsp - 8 && s2.rbp == st.rbp && s2.pc == st.pc + 2
      && LoadN(s2.mem, s2.rsp, 8) == s1.rax && forall a :: a >= st.rsp ==> s2.mem(a) == st.mem(a)
  {
    hide Run, CodeAt, Holds, Kept, Effect, LoadN, StoreN, InRegisters, Laid;
    CodeTwo(p, st.pc, Lea(fr.offs[x]), Push);
    Address(fr, st, env, x);
    var s1 := st.(pc := st.pc + 1, rax := st.rbp + fr.offs[x]);
    LeaEffect(fr, st, env, x);
    OneInsn(p, st, Lea(fr.offs[x]), s1);
    PushHolds(s1, fr, env);
    s2 := Effect(Push, s1).value;
    OneInsn(p, s1, Push, s2);
    Chain(p, st, 1, s1, 1, Some(s2));
  }

  lemma {:induction false} SimAssign(p: seq<Insn>, fr: Frame, e: Expr, k: nat, st: State, env: Env) returns (n: nat)
    requires Ready(p, fr, e, k, st.pc) && Holds(st, fr, env) && e.Assign? && Eval(e, fr.vars, env).Ok?
    ensures var r := Eval(e, fr.vars, env); Yields(p, st, n, |Gen(e, fr.vars, fr.offs, k)|, fr, TypeOf(e, fr.vars), r.v, r.env)
    decreases ESize(e), 0
  {
    hide Run, UniqueLabels, Cell, CodeAt, Gen, Eval, Rep, Holds, Kept, Effect, LoadN, StoreN, InRegisters, Laid, Straight;
    Framed(st, fr, env);
    AssignParts(e, fr, k, env);
    var t, off, c := fr.vars[e.x], fr.offs[e.x], Gen(e.e, fr.vars, fr.offs, k);
    CodeCat(p, st.pc, [Lea(off), Push], c + [PopRdi, StoreMem(Size(t))]);
    CodeCat(p, st.pc + 2, c, [PopRdi, StoreMem(Size(t))]);
    CodeTwo(p, st.pc + 2 + |c|, PopRdi, StoreMem(Size(t)));
    var a := st.rbp + off;
    var s1 := st.(pc := st.pc + 1, rax := a);
    var s2 := PushAddress(p, fr, st, env, e.x);
    var n2 := SimE(p, fr, e.e, k, s2, env);
    var r := Eval(e.e, fr.vars, env);
    var s3 := Run(p, s2, n2).value;
    Chain(p, st, 2, s2, n2, Some(s3));
    PopBack(s1, s2, s3, fr, env, a);
    var s4 := s3.(pc := s3.pc + 1, rsp := s3.rsp + 8, rdi := a);
    OneInsn(p, s3, PopRdi, s4);
    Chain(p, st, 2 + n2, s3, 1, Some(s4));
    PoppedHolds(s1, s2, s3, s4, fr, env, r.env);
    var s5 := s4.(pc := s4.pc + 1, mem := StoreN(s4.mem, a, Size(t), s4.rax));
    AssignStore(s4, s5, fr, r.env, e.x, r.v);
    StoreEffect(s4, Size(t));
    OneInsn(p, s4, StoreMem(Size(t)), s5);
    Chain(p, st, 3 + n2, s4, 1, Some(s5));
    n := n2 + 4;
    AssignKept(st, s1, s4, s5, fr);
  }

  lemma CodeTwo(p: seq<Insn>, pc: int, a: Insn, b: Insn)
    requires CodeAt(p, pc, [a, b])
    ensures CodeAt(p, pc, [a]) && CodeAt(p, pc + 1, [b])
  {
    assert [a, b] == [a] + [b];
    CodeCat(p, pc, [a], [b]);
  }

  lemma AssignParts(e: Expr, fr: Frame, k: nat, env: Env)
    requires e.Assign? && |fr.offs| == |fr.vars| && Wf(e, fr.vars) && Typed(e, fr.vars) && Fits(env, fr.vars)
    ensures var c := Gen(e.e, fr.vars, fr.offs, k);
      Gen(e, fr.vars, fr.offs, k) == [Lea(fr.offs[e.x]), Push] + (c + [PopRdi, StoreMem(Size(fr.vars[e.x]))])
    ensures Typed(e.e, fr.vars) && TypeOf(e.e, fr.vars) == fr.vars[e.x]
    ensures var r := Eval(e.e, fr.vars, env);
      Eval(e, fr.vars, env) == if r.Undefined? then r else Ok(r.v, r.env[e.x := r.v])
  {
    hide Wrap;
    var r := Eval(e.e, fr.vars, env);
    if r.Ok? { assert Wrap(fr.vars[e.x], r.v) == r.v; }
  }

  lemma LeaEffect(fr: Frame, st: State, env: Env, x: nat)
    requires Laid(fr) && Holds(st, fr, env) && x < |fr.vars|
    ensures |fr.offs| == |fr.vars|
    ensures var s := st.(pc := st.pc + 1, rax := st.rbp + fr.offs[x]); Effect(Lea(fr.offs[x]), st) == Some(s) && Holds(s, fr, env)
  {
    Address(fr, st, env, x);
    hide Laid, LoadN;
  }

  lemma StoreEffect(st: State, w: Width)
    ensures Effect(StoreMem(w), st) == Some(st.(pc := st.pc + 1, mem := StoreN(st.mem, st.rdi, w, st.rax)))
  {}

  /** Storing into a variable's cells gives it the new value and leaves the others alone. */
  lemma StoreVar(mem: Mem, fr: Frame, rbp: int, x: nat, y: nat, r: int)
    requires Laid(fr) && x < |fr.vars| && y < |fr.vars|
    ensures var n := Size(fr.vars[x]); var mem' := StoreN(mem, rbp + fr.offs[x], n, r);
      LoadN(mem', rbp + fr.offs[y], Size(fr.vars[y])) == if y == x then r % Modulus(fr.vars[x]) else LoadN(mem, rbp + fr.offs[y], Size(fr.vars[y]))
  {
    hide StoreN, LoadN, Power;
    var a, n := rbp + fr.offs[x], Size(fr.vars[x]);
    if y == x {
      LoadStored(mem, a, n, r);
      Powers();
    } else {
      var b, k := rbp + fr.offs[y], Size(fr.vars[y]);
      var mem' := StoreN(mem, a, n, r);
      forall c | b <= c < b + k ensures mem'(c) == mem(c) { StoreElsewhere(mem, a, n, r, c); }
      LoadSame(mem, mem', b, k);
    }
  }

  /** A state holds env if it does so variable by variable. */
  lemma HoldsIf(st: State, fr: Frame, env: Env)
    requires |fr.offs| == |fr.vars| && InRegisters(st) && fr.size <= st.rbp < W64 && st.rsp <= st.rbp - fr.size && Fits(env, fr.vars)
    requires forall x :: 0 <= x < |env| ==> LoadN(st.mem, st.rbp + fr.offs[x], Size(fr.vars[x])) == env[x] % Modulus(fr.vars[x])
    ensures Holds(st, fr, env)
  {
    hide InRegisters, LoadN, Modulus, Size, InRange;
  }

  lemma HoldsAt(st: State, fr: Frame, env: Env, x: nat)
    requires |fr.offs| == |fr.vars| && Holds(st, fr, env) && x < |env|
    ensures x < |fr.vars| && LoadN(st.mem, st.rbp + fr.offs[x], Size(fr.vars[x])) == env[x] % Modulus(fr.vars[x])
  {
    hide InRegisters, LoadN, Modulus, Size, InRange;
  }

  lemma HoldsStack(st: State, fr: Frame, env: Env)
    requires |fr.offs| == |fr.vars| && Holds(st, fr, env)
    ensures fr.size <= st.rbp < W64 && st.rsp <= st.rbp - fr.size && Fits(env, fr.vars) && |env| == |fr.vars| && InRegisters(st)
  {
    hide InRegisters, LoadN, Modulus, Size, InRange;
  }

  lemma FitsUpdate(env: Env, vars: seq<Ty>, x: nat, v: int)
    requires Fits(env, vars) && x < |vars| && InRange(vars[x], v)
    ensures |env| == |vars| && Fits(env[x := v], vars)
  {
    hide InRange;
  }

  /** Registers after a store of rax: all of them are as they were, and memory still holds bytes. */
  lemma StoreRegisters(s: State, s': State, a: int, n: nat)
    requires InRegisters(s) && 0 <= s'.rdi < W64 && s' == s.(pc := s'.pc, rsp := s'.rsp, rdi := s'.rdi, mem := StoreN(s.mem, a, n, s.rax))
    ensures InRegisters(s')
  {
    hide Bytes, StoreN;
    StoreBytes(s.mem, a, n, s.rax);
  }

  lemma StoredVars(st: State, s: State, fr: Frame, env: Env, x: nat, v: int, y: nat)
    requires Laid(fr) && x < |fr.vars| && y < |fr.vars| == |env| == |fr.offs| && Holds(st, fr, env)
    requires s.mem == StoreN(st.mem, st.rbp + fr.offs[x], Size(fr.vars[x]), st.rax) && s.rbp == st.rbp && Rep(fr.vars[x], v, st.rax)
    ensures LoadN(s.mem, s.rbp + fr.offs[y], Size(fr.vars[y])) == env[x := v][y] % Modulus(fr.vars[y])
  {
    hide Cell, Wrap, StoreN, LoadN, Laid, Holds, Size, Modulus;
    StoreVar(st.mem, fr, st.rbp, x, y, st.rax);
    HoldsAt(st, fr, env, y);
  }

  /** Storing rax at the address in rdi assigns the variable there. */
  lemma AssignStore(st: State, s: State, fr: Frame, env: Env, x: nat, v: int)
    requires Laid(fr) && x < |fr.vars| && Holds(st, fr, env) && st.rdi == st.rbp + fr.offs[x]
    requires s == st.(pc := s.pc, mem := StoreN(st.mem, st.rdi, Size(fr.vars[x]), st.rax)) && InRange(fr.vars[x], v) && Rep(fr.vars[x], v, st.rax)
    ensures |env| == |fr.vars| && Holds(s, fr, env[x := v])
  {
    Framed(st, fr, env);
    hide *;
    HoldsStack(st, fr, env);
    FitsUpdate(env, fr.vars, x, v);
    StoreRegisters(st, s, st.rdi, Size(fr.vars[x]));
    forall y | 0 <= y < |env| ensures LoadN(s.mem, s.rbp + fr.offs[y], Size(fr.vars[y])) == env[x := v][y] % Modulus(fr.vars[y]) {
      StoredVars(st, s, fr, env, x, v, y);
    }
    HoldsIf(s, fr, env[x := v]);
  }

  /** Only variable cells, and memory below the stack pointer, have changed. */
  lemma AssignKept(st: State, s1: State, s4: State, s5: State, fr: Frame)
    requires |fr.offs| == |fr.vars| && s1 == st.(pc := s1.pc, rax := s1.rax) && Kept(s1, s4, fr)
    requires exists x :: 0 <= x < |fr.vars| && s4.rdi == st.rbp + fr.offs[x] && s5 == s4.(pc := s5.pc, mem := StoreN(s4.mem, s4.rdi, Size(fr.vars[x]), s4.rax))
    ensures Kept(st, s5, fr)
  {
    var x :| 0 <= x < |fr.vars| && s4.rdi == st.rbp + fr.offs[x] && s5 == s4.(pc := s5.pc, mem := StoreN(s4.mem, s4.rdi, Size(fr.vars[x]), s4.rax));
    forall a | a >= st.rsp && !Cell(fr, st.rbp, a) ensures s5.mem(a) == st.mem(a) {
      StoreElsewhere(s4.mem, s4.rdi, Size(fr.vars[x]), s4.rax, a);
    }
  }

  // ---------- jumps ----------

  lemma JumpRun(p: seq<Insn>, st: State, l: Label, target: nat)
    requires CodeAt(p, st.pc, [Jmp(l)]) && UniqueLabels(p) && target < |p| && p[target] == Lbl(l)
    ensures Run(p, st, 1) == Some(st.(pc := target))
  {
    hide Run, UniqueLabels;
    assert p[st.pc..st.pc + 1][0] == Jmp(l);
    JumpTo(p, st, l, target);
  }

  lemma LabelRun(p: seq<Insn>, st: State, l: Label)
    requires CodeAt(p, st.pc, [Lbl(l)])
    ensures Run(p, st, 1) == Some(st.(pc := st.pc + 1)) && 0 <= st.pc < |p| && p[st.pc] == Lbl(l)
  {
    hide Run;
    assert p[st.pc..st.pc + 1][0] == Lbl(l);
    PassLabel(p, st, l);
  }

  /** A test of the value in rax, and a jump if it is zero, or if it is not. */
  lemma TestRun(p: seq<Insn>, st: State, t: Ty, v: int, jne: bool, l: Label, target: nat) returns (s: State)
    requires CodeAt(p, st.pc, [CmpZero(Size(t)), TestJump(jne, l)]) && UniqueLabels(p) && target < |p| && p[target] == Lbl(l)
    requires InRange(t, v) && Rep(t, v, st.rax)
    ensures Run(p, st, 2) == Some(s) && s == st.(pc := if (v == 0) != jne then target else st.pc + 2, flags := s.flags)
  {
    hide Run, UniqueLabels, InRange, Rep;
    CodeTwo(p, st.pc, CmpZero(Size(t)), TestJump(jne, l));
    Decoded(t, v, st.rax);
    var s1 := st.(pc := st.pc + 1, flags := Flags(Low(Size(t), st.rax), 0, Size(t)));
    OneInsn(p, st, CmpZero(Size(t)), s1);
    s := s1.(pc := if (v == 0) != jne then target else st.pc + 2);
    assert p[s1.pc..s1.pc + 1][0] == TestJump(jne, l);
    FoundAt(p, l, target);
    RunOne(p, s1, s);
    Chain(p, st, 1, s1, 1, Some(s));
  }

  /** Where the parts of a list of code pieces lie. */
  lemma Cat3(p: seq<Insn>, pc: int, a: seq<Insn>, b: seq<Insn>, c: seq<Insn>)
    requires CodeAt(p, pc, a + (b + c))
    ensures CodeAt(p, pc, a) && CodeAt(p, pc + |a|, b) && CodeAt(p, pc + |a| + |b|, c)
  {
    hide CodeAt;
    CodeCat(p, pc, a, b + c);
    CodeCat(p, pc + |a|, b, c);
  }

  /** A state that differs from s only in position and flags holds what s holds. */
  lemma SamePlace(s0: State, s: State, s': State, fr: Frame, env: Env)
    requires |fr.offs| == |fr.vars| && Holds(s, fr, env) && Kept(s0, s, fr) && s' == s.(pc := s'.pc, flags := s'.flags)
    ensures Holds(s', fr, env) && Kept(s0, s', fr) && InRegisters(s')
  {
    hide Cell, LoadN;
  }

  // ---------- logical operators ----------

  lemma LogicParts(e: Expr, fr: Frame, k: nat, env: Env)
    requires (e.LogAnd? || e.LogOr?) && |fr.offs| == |fr.vars| && Wf(e, fr.vars) && Typed(e, fr.vars) && Fits(env, fr.vars)
    ensures Gen(e, fr.vars, fr.offs, k)
         == LogCode(e.LogOr?, Gen(e.l, fr.vars, fr.offs, k + 1), TypeOf(e.l, fr.vars),
                    Gen(e.r, fr.vars, fr.offs, k + 1 + Labels(e.l)), TypeOf(e.r, fr.vars), k)
    ensures Typed(e.l, fr.vars) && Typed(e.r, fr.vars) && TypeOf(e, fr.vars) == I32
    ensures var a := Eval(e.l, fr.vars, env);
      && (a.Undefined? ==> Eval(e, fr.vars, env) == Undefined)
      && (a.Ok? && (a.v != 0) == e.LogOr? ==> Eval(e, fr.vars, env) == Ok(Truth(e.LogOr?), a.env))
      && (a.Ok? && (a.v != 0) != e.LogOr? ==> var b := Eval(e.r, fr.vars, a.env);
            Eval(e, fr.vars, env) == if b.Undefined? then b else Ok(Truth(b.v != 0), b.env))
  {
    hide Wrap, CommonType, LogCode;
  }

  lemma LogLayout(p: seq<Insn>, pc: int, or: bool, cl: seq<Insn>, tl: Ty, cr: seq<Insn>, tr: Ty, k: nat)
    requires CodeAt(p, pc, LogCode(or, cl, tl, cr, tr, k))
    ensures var j := TestJump(or, Label(LogKind(or), k)); var p1 := pc + |cl|; var p3 := p1 + 2 + |cr|;
      && CodeAt(p, pc, cl) && CodeAt(p, p1, [CmpZero(Size(tl)), j]) && CodeAt(p, p1 + 2, cr) && CodeAt(p, p3, [CmpZero(Size(tr)), j])
      && CodeAt(p, p3 + 2, LogTail(Truth(!or), LogKind(or), k)) && |LogCode(or, cl, tl, cr, tr, k)| == p3 + 7 - pc
  {
    hide CodeAt;
    var j := TestJump(or, Label(LogKind(or), k));
    var tail := LogTail(Truth(!or), LogKind(or), k);
    Cat3(p, pc, cl, [CmpZero(Size(tl)), j], cr + ([CmpZero(Size(tr)), j] + tail));
    Cat3(p, pc + |cl| + 2, cr, [CmpZero(Size(tr)), j], tail);
  }

  lemma CodeFive(p: seq<Insn>, pc: int, a: Insn, b: Insn, c: Insn, d: Insn, e: Insn)
    requires CodeAt(p, pc, [a, b, c, d, e])
    ensures 0 <= pc && pc + 5 <= |p| && p[pc] == a && p[pc + 1] == b && p[pc + 2] == c && p[pc + 3] == d && p[pc + 4] == e
  {
    var s := p[pc..pc + 5];
    assert s[0] == a && s[1] == b && s[2] == c && s[3] == d && s[4] == e;
  }

  lemma ImmRun(p: seq<Insn>, st: State, v: int)
    requires 0 <= st.pc < |p| && p[st.pc] == MovImm(v) && 0 <= v < 2
    ensures Run(p, st, 1) == Some(st.(pc := st.pc + 1, rax := v))
  {
    hide Run;
    QuotientIs(v, W64, 0, v);
    RunOne(p, st, st.(pc := st.pc + 1, rax := v));
  }

  lemma PassLabel(p: seq<Insn>, st: State, l: Label)
    requires 0 <= st.pc < |p| && p[st.pc] == Lbl(l)
    ensures Run(p, st, 1) == Some(st.(pc := st.pc + 1))
  {
    hide Run, Effect;
    RunOne(p, st, st.(pc := st.pc + 1));
  }

  lemma JumpTo(p: seq<Insn>, st: State, l: Label, target: nat)
    requires 0 <= st.pc < |p| && p[st.pc] == Jmp(l) && UniqueLabels(p) && target < |p| && p[target] == Lbl(l)
    ensures Run(p, st, 1) == Some(st.(pc := target))
  {
    hide Run, UniqueLabels, Effect;
    FoundAt(p, l, target);
    RunOne(p, st, st.(pc := target));
  }

  /** The end of a logical operator, entered at its beginning or at its label. */
  lemma LogTailRun(p: seq<Insn>, pc: int, v: int, kind: LabelKind, k: nat, st: State, jumped: bool) returns (s: State)
    requires CodeAt(p, pc, LogTail(v, kind, k)) && UniqueLabels(p) && 0 <= v < 2 && st.pc == if jumped then pc + 2 else pc
    ensures Run(p, st, 3) == Some(s) && s == st.(pc := pc + 5, rax := if jumped then 1 - v else v)
  {
    hide Run, UniqueLabels, CodeAt;
    CodeFive(p, pc, MovImm(v), Jmp(Label(LEnd, k)), Lbl(Label(kind, k)), MovImm(1 - v), Lbl(Label(LEnd, k)));
    s := st.(pc := pc + 5, rax := if jumped then 1 - v else v);
    var s1, s2;
    if jumped {
      s1, s2 := st.(pc := pc + 3), st.(pc := pc + 4, rax := 1 - v);
      PassLabel(p, st, Label(kind, k));
      ImmRun(p, s1, 1 - v);
    } else {
      s1, s2 := st.(pc := pc + 1, rax := v), st.(pc := pc + 4, rax := v);
      ImmRun(p, st, v);
      JumpTo(p, s1, Label(LEnd, k), pc + 4);
    }
    PassLabel(p, s2, Label(LEnd, k));
    Chain(p, st, 1, s1, 1, Some(s2));
    Chain(p, st, 2, s2, 1, Some(s));
  }

  lemma LogLabel(p: seq<Insn>, pc: int, v: int, kind: LabelKind, k: nat)
    requires CodeAt(p, pc, LogTail(v, kind, k))
    ensures 0 <= pc && pc + 2 < |p| && p[pc + 2] == Lbl(Label(kind, k))
  {
    assert p[pc..pc + 5][2] == p[pc + 2];
  }

  /** From the state s2 that the tests lead to, to the end of the operator. */
  lemma LogFinish(p: seq<Insn>, st: State, n: nat, s: State, s2: State, fr: Frame, env: Env, pc: int, or: bool, k: nat, jumped: bool, len: nat)
    requires Run(p, st, n) == Some(s2) && s2 == s.(pc := s2.pc, flags := s2.flags) && |fr.offs| == |fr.vars|
    requires Holds(s, fr, env) && Kept(st, s, fr) && CodeAt(p, pc, LogTail(Truth(!or), LogKind(or), k)) && UniqueLabels(p)
    requires s2.pc == (if jumped then pc + 2 else pc) && st.pc + len == pc + 5
    ensures Yields(p, st, n + 3, len, fr, I32, Truth(if jumped then or else !or), env)
  {
    hide Run, UniqueLabels, Cell, CodeAt, LoadN;
    var s3 := LogTailRun(p, pc, Truth(!or), LogKind(or), k, s2, jumped);
    Chain(p, st, n, s2, 3, Some(s3));
    SamePlace(st, s, s2, fr, env);
    SmallRep(I32, s3.rax);
    TailHolds(s2, s3, fr, env);
    TailKept(st, s2, s3, fr);
  }

  lemma {:induction false} SimLogic(p: seq<Insn>, fr: Frame, e: Expr, k: nat, st: State, env: Env) returns (n: nat)
    requires Ready(p, fr, e, k, st.pc) && Holds(st, fr, env) && (e.LogAnd? || e.LogOr?) && Eval(e, fr.vars, env).Ok?
    ensures var r := Eval(e, fr.vars, env); Yields(p, st, n, |Gen(e, fr.vars, fr.offs, k)|, fr, TypeOf(e, fr.vars), r.v, r.env)
    decreases ESize(e), 0
  {
    hide Run, UniqueLabels, Cell, CodeAt, Laid, Gen, Eval, Rep, Holds, LogCode, LogTail, LoadN, Kept;
    Framed(st, fr, env);
    LogicParts(e, fr, k, env);
    var or, kl := e.LogOr?, k + 1 + Labels(e.l);
    var cl, cr := Gen(e.l, fr.vars, fr.offs, k + 1), Gen(e.r, fr.vars, fr.offs, kl);
    var tl, tr, l := TypeOf(e.l, fr.vars), TypeOf(e.r, fr.vars), Label(LogKind(or), k);
    LogLayout(p, st.pc, or, cl, tl, cr, tr, k);
    var p1, p3 := st.pc + |cl|, st.pc + |cl| + 2 + |cr|;
    LogLabel(p, p3 + 2, Truth(!or), LogKind(or), k);
    var len := p3 + 7 - st.pc;
    n := SimE(p, fr, e.l, k + 1, st, env);
    var a := Eval(e.l, fr.vars, env);
    var s1 := Run(p, st, n).value;
    var s2 := TestRun(p, s1, tl, a.v, or, l, p3 + 4);
    Chain(p, st, n, s1, 2, Some(s2));
    n := n + 2;
    if (a.v != 0) == or {
      LogFinish(p, st, n, s1, s2, fr, a.env, p3 + 2, or, k, true, len);
    } else {
      SamePlace(st, s1, s2, fr, a.env);
      var n2 := SimE(p, fr, e.r, kl, s2, a.env);
      var b := Eval(e.r, fr.vars, a.env);
      var s3 := Run(p, s2, n2).value;
      Chain(p, st, n, s2, n2, Some(s3));
      KeptTwice(st, s2, s3, fr);
      var s4 := TestRun(p, s3, tr, b.v, or, l, p3 + 4);
      Chain(p, st, n + n2, s3, 2, Some(s4));
      n := n + n2 + 2;
      LogFinish(p, st, n, s3, s4, fr, b.env, p3 + 2, or, k, (b.v != 0) == or, len);
    }
    n := n + 3;
  }

  // ---------- conditional and comma ----------

  lemma CondParts(e: Expr, fr: Frame, k: nat, env: Env)
    requires e.Cond? && |fr.offs| == |fr.vars| && Wf(e, fr.vars) && Typed(e, fr.vars) && Fits(env, fr.vars)
    ensures var k1 := k + 1 + Labels(e.c);
      Gen(e, fr.vars, fr.offs, k)
        == BranchCode(Gen(e.c, fr.vars, fr.offs, k + 1), TypeOf(e.c, fr.vars), Gen(e.t, fr.vars, fr.offs, k1),
                    Gen(e.f, fr.vars, fr.offs, k1 + Labels(e.t)), k)
    ensures Typed(e.c, fr.vars) && Typed(e.t, fr.vars) && Typed(e.f, fr.vars)
    ensures TypeOf(e.t, fr.vars) == TypeOf(e.f, fr.vars) == TypeOf(e, fr.vars)
  {
    hide Eval, InRange, Fits, BranchCode;
  }

  lemma CondMeaning(e: Expr, vars: seq<Ty>, env: Env)
    requires e.Cond? && Wf(e, vars) && Typed(e, vars) && Fits(env, vars)
    ensures var a := Eval(e.c, vars, env);
      && (a.Undefined? ==> Eval(e, vars, env) == Undefined)
      && (a.Ok? ==> Eval(e, vars, env) == Eval(if a.v != 0 then e.t else e.f, vars, a.env))
  {
    hide Wrap, CommonType, InRange;
    var a := Eval(e.c, vars, env);
    if a.Ok? {
      var b := Eval(if a.v != 0 then e.t else e.f, vars, a.env);
      if b.Ok? { assert Wrap(TypeOf(e, vars), b.v) == b.v; }
    }
  }

  lemma BranchLayout(p: seq<Insn>, pc: int, cc: seq<Insn>, tc: Ty, ct: seq<Insn>, cf: seq<Insn>, k: nat)
    requires CodeAt(p, pc, BranchCode(cc, tc, ct, cf, k))
    ensures var p1 := pc + |cc|; var p3 := p1 + 2 + |ct|; var p5 := p3 + 2 + |cf|;
      && CodeAt(p, pc, cc) && CodeAt(p, p1, [CmpZero(Size(tc)), TestJump(false, Label(LElse, k))]) && CodeAt(p, p1 + 2, ct)
      && CodeAt(p, p3, [Jmp(Label(LEnd, k))]) && CodeAt(p, p3 + 1, [Lbl(Label(LElse, k))]) && CodeAt(p, p3 + 2, cf)
      && CodeAt(p, p5, [Lbl(Label(LEnd, k))]) && |BranchCode(cc, tc, ct, cf, k)| == p5 + 1 - pc
      && 0 <= p3 && p5 < |p| && p[p3 + 1] == Lbl(Label(LElse, k)) && p[p5] == Lbl(Label(LEnd, k))
  {
    var p3 := pc + |cc| + 2 + |ct|;
    Cat3(p, pc, cc, [CmpZero(Size(tc)), TestJump(false, Label(LElse, k))], ct + ([Jmp(Label(LEnd, k)), Lbl(Label(LElse, k))] + (cf + [Lbl(Label(LEnd, k))])));
    Cat3(p, pc + |cc| + 2, ct, [Jmp(Label(LEnd, k)), Lbl(Label(LElse, k))], cf + [Lbl(Label(LEnd, k))]);
    CodeTwo(p, p3, Jmp(Label(LEnd, k)), Lbl(Label(LElse, k)));
    CodeCat(p, p3 + 2, cf, [Lbl(Label(LEnd, k))]);
    assert p[p3 + 1..p3 + 2][0] == p[p3 + 1];
    assert p[p3 + 2 + |cf|..p3 + 3 + |cf|][0] == p[p3 + 2 + |cf|];
  }

  lemma {:induction false} SimCond(p: seq<Insn>, fr: Frame, e: Expr, k: nat, st: State, env: Env) returns (n: nat)
    requires Ready(p, fr, e, k, st.pc) && Holds(st, fr, env) && e.Cond? && Eval(e, fr.vars, env).Ok?
    ensures var r := Eval(e, fr.vars, env); Yields(p, st, n, |Gen(e, fr.vars, fr.offs, k)|, fr, TypeOf(e, fr.vars), r.v, r.env)
    decreases ESize(e), 0
  {
    hide Run, UniqueLabels, Cell, CodeAt, Laid, Gen, Eval, Rep, Holds, BranchCode, LoadN, Kept;
    Framed(st, fr, env);
    CondParts(e, fr, k, env);
    CondMeaning(e, fr.vars, env);
    var k1 := k + 1 + Labels(e.c);
    var cc, ct, cf := Gen(e.c, fr.vars, fr.offs, k + 1), Gen(e.t, fr.vars, fr.offs, k1), Gen(e.f, fr.vars, fr.offs, k1 + Labels(e.t));
    var tc := TypeOf(e.c, fr.vars);
    BranchLayout(p, st.pc, cc, tc, ct, cf, k);
    var p1 := st.pc + |cc|;
    var p3 := p1 + 2 + |ct|;
    var p5 := p3 + 2 + |cf|;
    n := SimE(p, fr, e.c, k + 1, st, env);
    var a := Eval(e.c, fr.vars, env);
    var s1 := Run(p, st, n).value;
    var s2 := TestRun(p, s1, tc, a.v, false, Label(LElse, k), p3 + 1);
    Chain(p, st, n, s1, 2, Some(s2));
    SamePlace(st, s1, s2, fr, a.env);
    n := n + 2;
    var r := Eval(e, fr.vars, env);
    var s3, s4;
    if a.v != 0 {
      var n2 := SimE(p, fr, e.t, k1, s2, a.env);
      s3 := Run(p, s2, n2).value;
      Chain(p, st, n, s2, n2, Some(s3));
      KeptTwice(st, s2, s3, fr);
      s4 := s3.(pc := p5);
      JumpRun(p, s3, Label(LEnd, k), p5);
      Chain(p, st, n + n2, s3, 1, Some(s4));
      n := n + n2 + 1;
    } else {
      var s2' := s2.(pc := p3 + 2);
      LabelRun(p, s2, Label(LElse, k));
      Chain(p, st, n, s2, 1, Some(s2'));
      SamePlace(st, s2, s2', fr, a.env);
      var n2 := SimE(p, fr, e.f, k1 + Labels(e.t), s2', a.env);
      s3 := Run(p, s2', n2).value;
      Chain(p, st, n + 1, s2', n2, Some(s3));
      KeptTwice(st, s2', s3, fr);
      s4 := s3;
      n := n + 1 + n2;
    }
    var s5 := s4.(pc := p5 + 1);
    LabelRun(p, s4, Label(LEnd, k));
    Chain(p, st, n, s4, 1, Some(s5));
    SamePlace(st, s3, s5, fr, r.env);
    n := n + 1;
  }

  lemma CommaParts(e: Expr, fr: Frame, k: nat, env: Env)
    requires e.Comma? && |fr.offs| == |fr.vars| && Wf(e, fr.vars) && Typed(e, fr.vars) && Fits(env, fr.vars)
    ensures Gen(e, fr.vars, fr.offs, k) == Gen(e.l, fr.vars, fr.offs, k) + Gen(e.r, fr.vars, fr.offs, k + Labels(e.l))
    ensures Typed(e.l, fr.vars) && Typed(e.r, fr.vars) && TypeOf(e.r, fr.vars) == TypeOf(e, fr.vars)
    ensures var a := Eval(e.l, fr.vars, env); Eval(e, fr.vars, env) == if a.Undefined? then a else Eval(e.r, fr.vars, a.env)
  {
    hide Wrap, CommonType;
  }

  lemma {:induction false} SimComma(p: seq<Insn>, fr: Frame, e: Expr, k: nat, st: State, env: Env) returns (n: nat)
    requires Ready(p, fr, e, k, st.pc) && Holds(st, fr, env) && e.Comma? && Eval(e, fr.vars, env).Ok?
    ensures var r := Eval(e, fr.vars, env); Yields(p, st, n, |Gen(e, fr.vars, fr.offs, k)|, fr, TypeOf(e, fr.vars), r.v, r.env)
    decreases ESize(e), 0
  {
    hide Run, UniqueLabels, Cell, CodeAt, Laid, Gen, Eval, Rep, Holds, LoadN, Kept;
    Framed(st, fr, env);
    CommaParts(e, fr, k, env);
    CodeCat(p, st.pc, Gen(e.l, fr.vars, fr.offs, k), Gen(e.r, fr.vars, fr.offs, k + Labels(e.l)));
    n := SimE(p, fr, e.l, k, st, env);
    var a := Eval(e.l, fr.vars, env);
    var s1 := Run(p, st, n).value;
    var n2 := SimE(p, fr, e.r, k + Labels(e.l), s1, a.env);
    var s2 := Run(p, s1, n2).value;
    Chain(p, st, n, s1, n2, Some(s2));
    KeptTwice(st, s1, s2, fr);
    n := n + n2;
  }

  /** Running the code of any expression whose meaning is defined yields its value, with stack pointer and all other memory as before. */
  lemma {:induction false} SimE(p: seq<Insn>, fr: Frame, e: Expr, k: nat, st: State, env: Env) returns (n: nat)
    requires Ready(p, fr, e, k, st.pc) && Holds(st, fr, env) && Eval(e, fr.vars, env).Ok?
    ensures var r := Eval(e, fr.vars, env); Yields(p, st, n, |Gen(e, fr.vars, fr.offs, k)|, fr, TypeOf(e, fr.vars), r.v, r.env)
    decreases ESize(e), 1
  {
    hide Run, UniqueLabels, Cell, CodeAt, Laid, Rep, Holds, Wrap, Kept;
    match e
    case Num(_, _) =>
      SimNum(p, fr, e, k, st, env);
      n := 1;
    case Var(_) =>
      SimVar(p, fr, e, k, st, env);
      n := 2;
    case Neg(_) => n := SimUnary(p, fr, e, k, st, env);
    case BitNot(_) => n := SimUnary(p, fr, e, k, st, env);
    case Not(_) => n := SimUnary(p, fr, e, k, st, env);
    case Cast(_, _) => n := SimUnary(p, fr, e, k, st, env);
    case Bin(_, _, _) => n := SimBinary(p, fr, e, k, st, env);
    case Shift(_, _, _) => n := SimBinary(p, fr, e, k, st, env);
    case Compare(_, _, _) => n := SimBinary(p, fr, e, k, st, env);
    case LogAnd(_, _) => n := SimLogic(p, fr, e, k, st, env);
    case LogOr(_, _) => n := SimLogic(p, fr, e, k, st, env);
    case Cond(_, _, _) => n := SimCond(p, fr, e, k, st, env);
    case Assign(_, _) => n := SimAssign(p, fr, e, k, st, env);
    case Comma(_, _) => n := SimComma(p, fr, e, k, st, env);
  }
}
