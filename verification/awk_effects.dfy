/** What single instructions do to the stack, and where the parts of a compiled tree lie in the code. */
module AwkEffects {
  import opened AwkSyntax
  import opened AwkValues
  import opened AwkCode
  import opened AwkSpine
  import opened AwkCompiler
  import opened AwkSemantics
  import opened AwkVm
  import opened Wrappers

  // ---------- where things are ----------

  function Numbers(ds: seq<Value>): (r: seq<Val>)
    ensures |r| == |ds| && forall i :: 0 <= i < |ds| ==> r[i] == Held(ds[i])
  {
    seq(|ds|, i requires 0 <= i < |ds| => Held(ds[i]))
  }

  /** The parts of the stack an expression does not touch: below the globals, and between them and the locals. */
  datatype Ctx = Ctx(pre: seq<Val>, mid: seq<Val>, pb: int)

  /** The stack as far as the variables of the running function reach. */
  function Base(cx: Ctx, env: Env): seq<Val> {
    cx.pre + Numbers(env.globals) + cx.mid + Numbers(env.locals)
  }

  predicate Framed(cx: Ctx, ng: nat, nl: nat) {
    && |cx.pre| == FIRST_GLOBAL
    && (nl > 0 ==> cx.pb == |cx.pre| + ng + |cx.mid| - 1)
  }

  function S(cx: Ctx, env: Env, top: seq<Val>, pc: int): State { State(pc, Base(cx, env) + top, cx.pb) }

  predicate CodeAt(m: Machine, pc: int, c: seq<int>) {
    0 <= pc && pc + |c| <= |m.code| && m.code[pc..pc + |c|] == c
  }

  predicate LitsAt(m: Machine, k: int, ls: seq<Value>) {
    0 <= k && k + |ls| <= |m.lits| && m.lits[k..k + |ls|] == ls
  }

  /** The cells at p and p + 1 hold an instruction and its operand. */
  predicate Cells(m: Machine, p: int, op: int, arg: int) {
    0 <= p && p + 1 < |m.code| && m.code[p] == op && m.code[p + 1] == arg
  }

  lemma CellsAt(m: Machine, p: int, op: int, arg: int)
    requires CodeAt(m, p, [op, arg])
    ensures Cells(m, p, op, arg)
  {
    assert m.code[p..p + 2][0] == op && m.code[p..p + 2][1] == arg;
  }

  lemma CodeCat(m: Machine, pc: int, a: seq<int>, b: seq<int>)
    requires CodeAt(m, pc, a + b)
    ensures CodeAt(m, pc, a) && CodeAt(m, pc + |a|, b)
    ensures forall i :: 0 <= i < |a| ==> m.code[pc + i] == a[i]
    ensures forall i :: 0 <= i < |b| ==> m.code[pc + |a| + i] == b[i]
    ensures pc + |a| + |b| <= |m.code|
  {
    var s := m.code[pc..pc + |a + b|];
    assert s[..|a|] == a && s[|a|..] == b;
    forall i | 0 <= i < |b| ensures m.code[pc + |a| + i] == b[i] { assert s[|a| + i] == b[i]; }
    forall i | 0 <= i < |a| ensures m.code[pc + i] == a[i] { assert s[i] == a[i]; }
  }

  lemma CodeTwo(m: Machine, pc: int, a: seq<int>, b: seq<int>)
    requires CodeAt(m, pc, a + b)
    ensures CodeAt(m, pc, a) && CodeAt(m, pc + |a|, b)
  {
    hide CodeAt;
    CodeCat(m, pc, a, b);
  }

  lemma LitsCat(m: Machine, k: int, a: seq<Value>, b: seq<Value>)
    requires LitsAt(m, k, a + b)
    ensures LitsAt(m, k, a) && LitsAt(m, k + |a|, b)
  {
    var s := m.lits[k..k + |a + b|];
    assert s[..|a|] == a && s[|a|..] == b;
  }

  /** A machine loaded with the functions fs; ks gives where each function's literals start. */
  datatype World = World(m: Machine, fs: Funcs, ks: map<int, int>)

  ghost predicate FuncLoaded(w: World, fn: int)
    requires fn in w.fs
  {
    && fn in w.ks && fn in w.m.funcs
    && w.m.funcs[fn].nparms == w.fs[fn].nparms && w.m.funcs[fn].scalars == LocalSlots(UsesB(w.fs[fn].body))
    && CodeAt(w.m, w.m.funcs[fn].addr, FuncCode(fn, w.fs[fn].nparms, w.fs[fn].body, w.ks[fn]))
    && LitsAt(w.m, w.ks[fn], FuncLits(w.fs[fn].body))
  }

  ghost predicate Loaded(w: World, ng: nat) {
    WfFuncs(w.fs, ng) && Sane(w.m.fp) && forall fn | fn in w.fs :: FuncLoaded(w, fn)
  }

  lemma SlotLookup(cx: Ctx, env: Env, slot: int, top: seq<Val>, pc: int, v: Value)
    requires Framed(cx, |env.globals|, |env.locals|) && ValidSlot(slot, |env.globals|, |env.locals|)
    ensures var st := S(cx, env, top, pc); var j := Slot(st, slot);
      && 0 <= j < |Base(cx, env)| && HeldAt(st.stack, j) && st.stack[j] == Held(Get(env, slot))
      && st.stack[j := Held(v)] == Base(cx, Set(env, slot, v)) + top
  {
    var b, j := Base(cx, env), Slot(S(cx, env, top, pc), slot);
    var b2 := Base(cx, Set(env, slot, v));
    assert b[j := Held(v)] == b2 by {
      assert |b2| == |b|;
      forall i | 0 <= i < |b| ensures b[j := Held(v)][i] == b2[i] {}
    }
    assert (b + top)[j := Held(v)] == b[j := Held(v)] + top;
  }

  // ---------- chaining runs ----------

  lemma Chain(m: Machine, st: State, n: nat, mid: State, k: nat, r: Option<State>)
    requires Run(m, st, n) == Some(mid) && Run(m, mid, k) == r
    ensures Run(m, st, n + k) == r
  {
    RunSplit(m, st, n, k);
  }

  lemma One(m: Machine, st: State, st': State)
    requires Step(m, st) == Next(st')
    ensures Run(m, st, 1) == Some(st')
  {
    assert Run(m, st', 0) == Some(st');
  }

  // ---------- expressions ----------

  /** n instructions from st realise the result r of an expression whose code is len cells long. */
  ghost predicate SimulatesE(m: Machine, st: State, n: nat, len: nat, cx: Ctx, top: seq<Val>, r: EResult, fuel: nat) {
    match r
    case EOk(v, env) => Run(m, st, n) == Some(S(cx, env, top + [Held(v)], st.ip + len))
    case ETimeout => n >= fuel && Run(m, st, n).Some?
  }

  /** The code of e is at pc and its names are bound, for ng globals and nl parameters. */
  ghost predicate ReadyE(w: World, cx: Ctx, e: Expr, k: int, ng: nat, nl: nat, pc: int) {
    && Loaded(w, ng) && WfFuncs(w.fs, ng) && Framed(cx, ng, nl) && WfE(e, w.fs, ng, nl)
    && CodeAt(w.m, pc, CodeE(e, k)) && LitsAt(w.m, k, LitsE(e))
  }

  /** The value at the top of the stack after e, and where the code goes on. */
  lemma PushTop(cx: Ctx, env: Env, top: seq<Val>, v: Val)
    ensures Base(cx, env) + top + [v] == Base(cx, env) + (top + [v])
    ensures |Base(cx, env) + (top + [v])| == |Base(cx, env)| + |top| + 1
    ensures (Base(cx, env) + (top + [v]))[..|Base(cx, env)| + |top|] == Base(cx, env) + top
    ensures Top(Base(cx, env) + (top + [v])) == v
  {}

  lemma RefStep(m: Machine, cx: Ctx, env: Env, top: seq<Val>, pc: int)
    requires 0 <= pc && pc + 1 < |m.code| && m.code[pc] == OP_VARREF
    ensures Run(m, S(cx, env, top, pc), 1) == Some(S(cx, env, top + [Reference(m.code[pc + 1])], pc + 2))
  {
    hide Base, Run;
    PushTop(cx, env, top, Reference(m.code[pc + 1]));
    One(m, S(cx, env, top, pc), S(cx, env, top + [Reference(m.code[pc + 1])], pc + 2));
  }

  lemma IncDecCode(e: Expr, k: int)
    requires e.IncDec?
    ensures CodeE(e, k) + [] == CodeE(e, k) == [OP_VARREF, e.slot, IncDecOp(e)]
  {}

  function IncDecOp(e: Expr): (op: int)
    requires e.IncDec?
    ensures IsStepOp(op) && StepDelta(op) == StepBy(e.sop) && (e.pre <==> !IsStep(op))
  {
    if !e.pre then e.sop else if e.sop == TK_INCR then OP_PREINCR else OP_PREDECR
  }

  lemma IncDecStep(m: Machine, cx: Ctx, e: Expr, env: Env, top: seq<Val>, pc: int)
    requires e.IncDec? && 0 <= pc < |m.code| && m.code[pc] == IncDecOp(e)
    requires Framed(cx, |env.globals|, |env.locals|) && ValidSlot(e.slot, |env.globals|, |env.locals|)
    ensures var v := Arith(m.fp, TK_PLUS, Get(env, e.slot), StepBy(e.sop));
      var r := if e.pre then v else Arith(m.fp, TK_MINUS, v, StepBy(e.sop));
      Run(m, S(cx, env, top + [Reference(e.slot)], pc), 1) == Some(S(cx, Set(env, e.slot, v), top + [Held(r)], pc + 1))
  {
    hide Base, Run, Framed, ValidSlot, StepBy, StepDelta, IncDecOp, StepUnary, StepBinary, StepAssign, StepOperand;
    var v := Arith(m.fp, TK_PLUS, Get(env, e.slot), StepBy(e.sop));
    var r := if e.pre then v else Arith(m.fp, TK_MINUS, v, StepBy(e.sop));
    PushTop(cx, env, top, Reference(e.slot));
    SlotLookup(cx, env, e.slot, top, pc, v);
    SlotLookup(cx, env, e.slot, top + [Reference(e.slot)], pc, v);
    PushTop(cx, Set(env, e.slot, v), top, Held(r));
    One(m, S(cx, env, top + [Reference(e.slot)], pc), S(cx, Set(env, e.slot, v), top + [Held(r)], pc + 1));
  }

  lemma UnParts(w: World, cx: Ctx, e: Expr, k: int, ng: nat, nl: nat, pc: int)
    requires ReadyE(w, cx, e, k, ng, nl, pc) && e.Un?
    ensures var c := CodeE(e.arg, k);
      && ReadyE(w, cx, e.arg, k, ng, nl, pc) && |CodeE(e, k)| == |c| + |CodeUn(e.uop)|
      && 0 <= pc && pc + |c| + |CodeUn(e.uop)| <= |w.m.code|
      && forall i :: 0 <= i < |CodeUn(e.uop)| ==> w.m.code[pc + |c| + i] == CodeUn(e.uop)[i]
  {
    hide Loaded, WfFuncs, Framed, CodeUn;
    CodeCat(w.m, pc, CodeE(e.arg, k), CodeUn(e.uop));
  }

  lemma UnTail(m: Machine, cx: Ctx, op: UnTok, env: Env, top: seq<Val>, pc: int, a: Value) returns (n: nat)
    requires 0 <= pc && pc + |CodeUn(op)| <= |m.code|
    requires forall i :: 0 <= i < |CodeUn(op)| ==> m.code[pc + i] == CodeUn(op)[i]
    ensures Run(m, S(cx, env, top + [Held(a)], pc), n)
         == Some(S(cx, env, top + [Held(UnValue(m.fp, op, a))], pc + |CodeUn(op)|))
  {
    hide Base;
    var v := if op == TK_NOT then Logical(!Truth(m.fp, a)) else Negate(m.fp, a);
    var s0, s1 := S(cx, env, top + [Held(a)], pc), S(cx, env, top + [Held(v)], pc + 1);
    PushTop(cx, env, top, Held(a));
    PushTop(cx, env, top, Held(v));
    assert m.code[pc + 0] == CodeUn(op)[0];
    One(m, s0, s1);
    n := 1;
    assert IsUnary(op);
    if op == TK_PLUS {
      assert m.code[pc + 1] == CodeUn(op)[1];
      var v2 := Negate(m.fp, v);
      PushTop(cx, env, top, Held(v2));
      One(m, s1, S(cx, env, top + [Held(v2)], pc + 2));
      Chain(m, s0, 1, s1, 1, Some(S(cx, env, top + [Held(v2)], pc + 2)));
      n := 2;
    }
  }

  lemma BinParts(w: World, cx: Ctx, e: Expr, k: int, ng: nat, nl: nat, pc: int)
    requires ReadyE(w, cx, e, k, ng, nl, pc) && e.Bin? && !IsLogic(e.op)
    ensures var cl, cr := CodeE(e.l, k), CodeE(e.r, k + |LitsE(e.l)|);
      && ReadyE(w, cx, e.l, k, ng, nl, pc) && ReadyE(w, cx, e.r, k + |LitsE(e.l)|, ng, nl, pc + |cl|)
      && |CodeE(e, k)| == |cl| + |cr| + 1
      && 0 <= pc + |cl| + |cr| < |w.m.code| && w.m.code[pc + |cl| + |cr|] == e.op
  {
    hide Loaded, WfFuncs, Framed, CodeAt, LitsAt;
    var cl, cr := CodeE(e.l, k), CodeE(e.r, k + |LitsE(e.l)|);
    CodeCat(w.m, pc, cl, cr + [e.op]);
    CodeCat(w.m, pc + |cl|, cr, [e.op]);
    LitsCat(w.m, k, LitsE(e.l), LitsE(e.r));
    assert w.m.code[pc + |cl| + |cr| + 0] == [e.op][0];
  }

  /** The two topmost slots of a stack, and what is below them. */
  lemma TwoOnTop(below: seq<Val>, s: seq<Val>, a: Val, b: Val)
    requires s == below + [a] + [b]
    ensures |s| == |below| + 2 && s[|s| - 2] == a && s[|s| - 1] == b && s[..|s| - 2] == below
  {}

  lemma BinaryEffect(m: Machine, below: seq<Val>, op: BinTok, pc: int, pb: int, a: Value, b: Value)
    requires 0 <= pc < |m.code| && m.code[pc] == op && !IsLogic(op)
    ensures Step(m, State(pc, below + [Held(a)] + [Held(b)], pb))
         == Next(State(pc + 1, below + [Held(BinValue(m.fp, op, a, b))], pb))
  {
    var s := below + [Held(a)] + [Held(b)];
    TwoOnTop(below, s, Held(a), Held(b));
    assert IsBin(op);
    assert Step(m, State(pc, s, pb)) == StepBinary(m, State(pc, s, pb), op);
  }

  lemma BinStep(m: Machine, cx: Ctx, op: BinTok, env: Env, top: seq<Val>, pc: int, a: Value, b: Value)
    requires 0 <= pc < |m.code| && m.code[pc] == op && !IsLogic(op)
    ensures Run(m, S(cx, env, top + [Held(a)] + [Held(b)], pc), 1)
         == Some(S(cx, env, top + [Held(BinValue(m.fp, op, a, b))], pc + 1))
  {
    hide Base, Run, Step, BinValue;
    var v := Held(BinValue(m.fp, op, a, b));
    PushTop(cx, env, top, Held(a));
    PushTop(cx, env, top + [Held(a)], Held(b));
    PushTop(cx, env, top, v);
    BinaryEffect(m, Base(cx, env) + top, op, pc, cx.pb, a, b);
    One(m, S(cx, env, top + [Held(a)] + [Held(b)], pc), S(cx, env, top + [v], pc + 1));
  }

  lemma LogicUnfold(e: Expr, k: int)
    requires e.Bin? && IsLogic(e.op)
    ensures var cr := CodeE(e.r, k + |LitsE(e.l)|);
      CodeE(e, k) == CodeE(e.l, k) + ([e.op, |cr| + 1] + (cr + [OP_NOTNOT]))
    ensures LitsE(e) == LitsE(e.l) + LitsE(e.r)
  {}

  lemma LogicParts(w: World, cx: Ctx, e: Expr, k: int, ng: nat, nl: nat, pc: int)
    requires ReadyE(w, cx, e, k, ng, nl, pc) && e.Bin? && IsLogic(e.op)
    ensures var cl, cr := CodeE(e.l, k), CodeE(e.r, k + |LitsE(e.l)|);
      && ReadyE(w, cx, e.l, k, ng, nl, pc) && ReadyE(w, cx, e.r, k + |LitsE(e.l)|, ng, nl, pc + |cl| + 2)
      && |CodeE(e, k)| == |cl| + |cr| + 3
      && 0 <= pc && pc + |cl| + |cr| + 2 < |w.m.code|
      && w.m.code[pc + |cl|] == e.op && w.m.code[pc + |cl| + 1] == |cr| + 1 && w.m.code[pc + |cl| + |cr| + 2] == OP_NOTNOT
  {
    hide Loaded, WfFuncs, Framed, CodeAt, LitsAt, CodeE, LitsE;
    LogicUnfold(e, k);
    var cl, cr := CodeE(e.l, k), CodeE(e.r, k + |LitsE(e.l)|);
    CodeCat(w.m, pc, cl, [e.op, |cr| + 1] + (cr + [OP_NOTNOT]));
    CodeCat(w.m, pc + |cl|, [e.op, |cr| + 1], cr + [OP_NOTNOT]);
    CodeCat(w.m, pc + |cl| + 2, cr, [OP_NOTNOT]);
    LitsCat(w.m, k, LitsE(e.l), LitsE(e.r));
    assert w.m.code[pc + |cl| + 0] == [e.op, |cr| + 1][0];
    assert w.m.code[pc + |cl| + 2 + |cr| + 0] == [OP_NOTNOT][0];
  }

  lemma TruthStep(m: Machine, cx: Ctx, env: Env, top: seq<Val>, pc: int, a: Value)
    requires 0 <= pc < |m.code| && m.code[pc] == OP_NOTNOT
    ensures Run(m, S(cx, env, top + [Held(a)], pc), 1) == Some(S(cx, env, top + [Held(Logical(Truth(m.fp, a)))], pc + 1))
  {
    hide Base, Run;
    PushTop(cx, env, top, Held(a));
    PushTop(cx, env, top, Held(Logical(Truth(m.fp, a))));
    One(m, S(cx, env, top + [Held(a)], pc), S(cx, env, top + [Held(Logical(Truth(m.fp, a)))], pc + 1));
  }

  lemma JumpStep(m: Machine, cx: Ctx, env: Env, top: seq<Val>, pc: int)
    requires 0 <= pc && pc + 1 < |m.code| && IsPlainJump(m.code[pc])
    ensures Run(m, S(cx, env, top, pc), 1) == Some(S(cx, env, top, pc + 2 + m.code[pc + 1]))
  {
    hide Base, Run;
    One(m, S(cx, env, top, pc), S(cx, env, top, pc + 2 + m.code[pc + 1]));
  }

  lemma TestEffect(m: Machine, below: seq<Val>, pc: int, pb: int, a: Value)
    requires 0 <= pc && pc + 1 < |m.code| && (IsLogic(m.code[pc]) || IsTestJump(m.code[pc]))
    ensures var op, t, target := m.code[pc], Truth(m.fp, a), pc + 2 + m.code[pc + 1];
      Step(m, State(pc, below + [Held(a)], pb)) == Next(
        if IsLogic(op) then
          if t == (op == TK_AND) then State(pc + 2, below, pb) else State(target, below + [Held(Logical(t))], pb)
        else State(if t == (op != TK_WHILE) then pc + 2 else target, below, pb))
  {
    var s := below + [Held(a)];
    assert s[..|s| - 1] == below && s[|s| - 1] == Held(a);
    var st := State(pc + 2, s, pb);
    assert Step(m, State(pc, s, pb)) == StepTest(m, st, m.code[pc], m.code[pc + 1]);
  }

  /** A conditional jump on the value on top of the stack; `&&` and `||` leave it there, as a truth value, when they jump. */
  lemma TestStep(m: Machine, cx: Ctx, env: Env, top: seq<Val>, pc: int, a: Value) returns (st: State)
    requires 0 <= pc && pc + 1 < |m.code| && (IsLogic(m.code[pc]) || IsTestJump(m.code[pc]))
    ensures Run(m, S(cx, env, top + [Held(a)], pc), 1) == Some(st)
    ensures var op, t, target := m.code[pc], Truth(m.fp, a), pc + 2 + m.code[pc + 1];
      st == if IsLogic(op) then
              if t == (op == TK_AND) then S(cx, env, top, pc + 2) else S(cx, env, top + [Held(Logical(t))], target)
            else if t == (op != TK_WHILE) then S(cx, env, top, pc + 2)
            else S(cx, env, top, target)
  {
    hide Base, Run, Step;
    var op, t, target := m.code[pc], Truth(m.fp, a), pc + 2 + m.code[pc + 1];
    PushTop(cx, env, top, Held(a));
    PushTop(cx, env, top, Held(Logical(t)));
    TestEffect(m, Base(cx, env) + top, pc, cx.pb, a);
    st := if IsLogic(op) then
              if t == (op == TK_AND) then S(cx, env, top, pc + 2) else S(cx, env, top + [Held(Logical(t))], target)
            else if t == (op != TK_WHILE) then S(cx, env, top, pc + 2)
            else S(cx, env, top, target);
    One(m, S(cx, env, top + [Held(a)], pc), st);
  }

  lemma CondUnfold(e: Expr, k: int)
    requires e.Cond?
    ensures var cc, ct := CodeE(e.c, k), CodeE(e.t, k + |LitsE(e.c)|);
      var cf := CodeE(e.f, k + |LitsE(e.c)| + |LitsE(e.t)|);
      CodeE(e, k) == cc + ([TK_TERNIF, |ct| + 2] + (ct + ([TK_TERNELSE, |cf|] + cf)))
    ensures LitsE(e) == LitsE(e.c) + (LitsE(e.t) + LitsE(e.f))
  {}

  lemma CondParts(w: World, cx: Ctx, e: Expr, k: int, ng: nat, nl: nat, pc: int)
    requires ReadyE(w, cx, e, k, ng, nl, pc) && e.Cond?
    ensures
      var kt, kf := k + |LitsE(e.c)|, k + |LitsE(e.c)| + |LitsE(e.t)|;
      var cc, ct, cf := CodeE(e.c, k), CodeE(e.t, kt), CodeE(e.f, kf);
      var p1, p2 := pc + |cc| + 2, pc + |cc| + |ct| + 4;
      && ReadyE(w, cx, e.c, k, ng, nl, pc) && ReadyE(w, cx, e.t, kt, ng, nl, p1) && ReadyE(w, cx, e.f, kf, ng, nl, p2)
      && pc + |CodeE(e, k)| == p2 + |cf| && 0 <= pc && p2 <= |w.m.code|
      && w.m.code[p1 - 2] == TK_TERNIF && w.m.code[p1 - 1] == |ct| + 2
      && w.m.code[p2 - 2] == TK_TERNELSE && w.m.code[p2 - 1] == |cf|
  {
    hide Loaded, WfFuncs, Framed, CodeAt, LitsAt, CodeE, LitsE;
    CondUnfold(e, k);
    var kt, kf := k + |LitsE(e.c)|, k + |LitsE(e.c)| + |LitsE(e.t)|;
    var cc, ct, cf := CodeE(e.c, k), CodeE(e.t, kt), CodeE(e.f, kf);
    var p1 := pc + |cc| + 2;
    CodeCat(w.m, pc, cc, [TK_TERNIF, |ct| + 2] + (ct + ([TK_TERNELSE, |cf|] + cf)));
    CodeCat(w.m, pc + |cc|, [TK_TERNIF, |ct| + 2], ct + ([TK_TERNELSE, |cf|] + cf));
    CodeCat(w.m, p1, ct, [TK_TERNELSE, |cf|] + cf);
    CodeCat(w.m, p1 + |ct|, [TK_TERNELSE, |cf|], cf);
    LitsCat(w.m, k, LitsE(e.c), LitsE(e.t) + LitsE(e.f));
    LitsCat(w.m, kt, LitsE(e.t), LitsE(e.f));
    assert w.m.code[pc + |cc| + 0] == TK_TERNIF && w.m.code[p1 + |ct| + 0] == TK_TERNELSE;
  }

  lemma AsgnParts(w: World, cx: Ctx, e: Expr, k: int, ng: nat, nl: nat, pc: int)
    requires ReadyE(w, cx, e, k, ng, nl, pc) && e.Asgn?
    ensures var c := CodeE(e.rhs, k);
      && ReadyE(w, cx, e.rhs, k, ng, nl, pc + 2) && |CodeE(e, k)| == |c| + 3 && ValidSlot(e.slot, ng, nl)
      && 0 <= pc && pc + 2 + |c| < |w.m.code|
      && w.m.code[pc] == OP_VARREF && w.m.code[pc + 1] == e.slot && w.m.code[pc + 2 + |c|] == e.aop
  {
    hide Loaded, WfFuncs, Framed, CodeAt, LitsAt;
    var c := CodeE(e.rhs, k);
    CodeCat(w.m, pc, [OP_VARREF, e.slot], c + [e.aop]);
    CodeCat(w.m, pc + 2, c, [e.aop]);
    assert w.m.code[pc + 0] == OP_VARREF && w.m.code[pc + 2 + |c| + 0] == e.aop;
  }

  lemma AsgnStep(m: Machine, cx: Ctx, op: AsgnTok, env: Env, top: seq<Val>, pc: int, slot: int, a: Value)
    requires 0 <= pc < |m.code| && m.code[pc] == op && Framed(cx, |env.globals|, |env.locals|) && ValidSlot(slot, |env.globals|, |env.locals|)
    ensures var v := AsgnValue(m.fp, op, Get(env, slot), a);
      Run(m, S(cx, env, top + [Reference(slot)] + [Held(a)], pc), 1) == Some(S(cx, Set(env, slot, v), top + [Held(v)], pc + 1))
  {
    hide Base, Run, Framed, ValidSlot, AsgnValue;
    var v := AsgnValue(m.fp, op, Get(env, slot), a);
    var env' := Set(env, slot, v);
    var s0 := S(cx, env, top + [Reference(slot)] + [Held(a)], pc);
    PushTop(cx, env, top, Reference(slot));
    PushTop(cx, env, top + [Reference(slot)], Held(a));
    TwoOnTop(Base(cx, env) + top, s0.stack, Reference(slot), Held(a));
    SlotLookup(cx, env, slot, top, pc, v);
    SlotLookup(cx, env, slot, top + [Reference(slot)] + [Held(a)], pc, v);
    PushTop(cx, env', top, Held(v));
    assert Step(m, s0) == StepAssign(m, s0, op);
    assert s0.stack[..|s0.stack| - 2] == Base(cx, env) + top;
    assert StepAssign(m, s0, op).Next?;
    assert StepAssign(m, s0, op).st.stack == (Base(cx, env) + top)[Slot(s0, slot) := Held(v)] + [Held(v)];
    One(m, s0, S(cx, env', top + [Held(v)], pc + 1));
  }
}
