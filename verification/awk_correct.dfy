/** Running the code of a tree computes the tree's meaning: same values, same store, one more stack slot
    for an expression and none for a statement; and when the meaning runs out of fuel, so many
    instructions have been executed without stopping. */
module AwkCorrect {
  import opened AwkSyntax
  import opened AwkValues
  import opened AwkCode
  import opened AwkSpine
  import opened AwkStmtText
  import opened AwkCompiler
  import opened AwkSemantics
  import opened AwkVm
  import opened AwkEffects
  import opened AwkFrames
  import opened AwkEscape
  import opened Wrappers

  // ---------- expressions ----------

  lemma SimE(w: World, cx: Ctx, e: Expr, k: int, env: Env, top: seq<Val>, pc: int, fuel: nat) returns (n: nat)
    requires ReadyE(w, cx, e, k, |env.globals|, |env.locals|, pc)
    ensures SimulatesE(w.m, S(cx, env, top, pc), n, |CodeE(e, k)|, cx, top, Eval(w.fs, w.m.fp, e, env, fuel), fuel)
    decreases fuel, ESize(e), 1
  {
    hide Base, CodeE, LitsE, Run, Step, Eval, Exec, ExecB, EvalArgs, Loaded, WfFuncs, WfE, CodeAt, LitsAt;
    match e
    case Num(_) => n := SimLeaf(w, cx, e, k, env, top, pc, fuel);
    case Var(_) => n := SimLeaf(w, cx, e, k, env, top, pc, fuel);
    case IncDec(_, _, _) => n := SimIncDec(w, cx, e, k, env, top, pc, fuel);
    case Un(_, _) => n := SimUn(w, cx, e, k, env, top, pc, fuel);
    case Bin(op, _, _) =>
      if IsLogic(op) {
        n := SimLogic(w, cx, e, k, env, top, pc, fuel);
      } else {
        n := SimBin(w, cx, e, k, env, top, pc, fuel);
      }
    case Cond(_, _, _) => n := SimCond(w, cx, e, k, env, top, pc, fuel);
    case Asgn(_, _, _) => n := SimAsgn(w, cx, e, k, env, top, pc, fuel);
    case Call(_, _) => n := SimCall(w, cx, e, k, env, top, pc, fuel);
  }

  lemma SimLeaf(w: World, cx: Ctx, e: Expr, k: int, env: Env, top: seq<Val>, pc: int, fuel: nat) returns (n: nat)
    requires ReadyE(w, cx, e, k, |env.globals|, |env.locals|, pc) && (e.Num? || e.Var?)
    ensures SimulatesE(w.m, S(cx, env, top, pc), n, |CodeE(e, k)|, cx, top, Eval(w.fs, w.m.fp, e, env, fuel), fuel)
  {
    hide Base, Exec, ExecB, EvalArgs, Loaded, WfFuncs;
    var v := if e.Num? then Numeric(e.d) else Get(env, e.slot);
    assert w.m.code[pc..pc + 2][0] == CodeE(e, k)[0] && w.m.code[pc..pc + 2][1] == CodeE(e, k)[1];
    if e.Num? {
      assert w.m.lits[k..k + 1][0] == Numeric(e.d);
    } else {
      SlotLookup(cx, env, e.slot, top, pc, NUMERIC_ZERO);
    }
    PushTop(cx, env, top, Held(v));
    One(w.m, S(cx, env, top, pc), S(cx, env, top + [Held(v)], pc + 2));
    n := 1;
  }

  lemma SimIncDec(w: World, cx: Ctx, e: Expr, k: int, env: Env, top: seq<Val>, pc: int, fuel: nat) returns (n: nat)
    requires ReadyE(w, cx, e, k, |env.globals|, |env.locals|, pc) && e.IncDec?
    ensures SimulatesE(w.m, S(cx, env, top, pc), n, |CodeE(e, k)|, cx, top, Eval(w.fs, w.m.fp, e, env, fuel), fuel)
  {
    hide Base, CodeE, Run, Step, Exec, ExecB, EvalArgs, Loaded, WfFuncs, LitsAt, Framed;
    IncDecCode(e, k);
    CodeCat(w.m, pc, CodeE(e, k), []);
    var v := Arith(w.m.fp, TK_PLUS, Get(env, e.slot), StepBy(e.sop));
    var r := if e.pre then v else Arith(w.m.fp, TK_MINUS, v, StepBy(e.sop));
    assert w.m.code[pc + 0] == OP_VARREF && w.m.code[pc + 1] == e.slot && w.m.code[pc + 2] == CodeE(e, k)[2];
    RefStep(w.m, cx, env, top, pc);
    IncDecStep(w.m, cx, e, env, top, pc + 2);
    Chain(w.m, S(cx, env, top, pc), 1, S(cx, env, top + [Reference(e.slot)], pc + 2), 1,
          Some(S(cx, Set(env, e.slot, v), top + [Held(r)], pc + 3)));
    n := 2;
  }

  lemma SimUn(w: World, cx: Ctx, e: Expr, k: int, env: Env, top: seq<Val>, pc: int, fuel: nat) returns (n: nat)
    requires ReadyE(w, cx, e, k, |env.globals|, |env.locals|, pc) && e.Un?
    ensures SimulatesE(w.m, S(cx, env, top, pc), n, |CodeE(e, k)|, cx, top, Eval(w.fs, w.m.fp, e, env, fuel), fuel)
    decreases fuel, ESize(e), 0
  {
    hide Base, CodeE, LitsE, Run, Step, Exec, ExecB, EvalArgs, Loaded, WfFuncs, WfE, CodeAt, LitsAt, Framed;
    var c := CodeE(e.arg, k);
    UnParts(w, cx, e, k, |env.globals|, |env.locals|, pc);
    n := SimE(w, cx, e.arg, k, env, top, pc, fuel);
    var a := Eval(w.fs, w.m.fp, e.arg, env, fuel);
    if a.EOk? {
      var n2 := UnTail(w.m, cx, e.uop, a.env, top, pc + |c|, a.v);
      Chain(w.m, S(cx, env, top, pc), n, S(cx, a.env, top + [Held(a.v)], pc + |c|), n2,
            Some(S(cx, a.env, top + [Held(UnValue(w.m.fp, e.uop, a.v))], pc + |c| + |CodeUn(e.uop)|)));
      n := n + n2;
    }
  }

  lemma SimBin(w: World, cx: Ctx, e: Expr, k: int, env: Env, top: seq<Val>, pc: int, fuel: nat) returns (n: nat)
    requires ReadyE(w, cx, e, k, |env.globals|, |env.locals|, pc) && e.Bin? && !IsLogic(e.op)
    ensures SimulatesE(w.m, S(cx, env, top, pc), n, |CodeE(e, k)|, cx, top, Eval(w.fs, w.m.fp, e, env, fuel), fuel)
    decreases fuel, ESize(e), 0
  {
    hide Base, CodeE, LitsE, Run, Step, Exec, ExecB, EvalArgs, Loaded, WfFuncs, WfE, CodeAt, LitsAt, Framed;
    BinParts(w, cx, e, k, |env.globals|, |env.locals|, pc);
    var cl, cr := CodeE(e.l, k), CodeE(e.r, k + |LitsE(e.l)|);
    n := SimE(w, cx, e.l, k, env, top, pc, fuel);
    var a := Eval(w.fs, w.m.fp, e.l, env, fuel);
    if a.EOk? {
      var s0, s1 := S(cx, env, top, pc), S(cx, a.env, top + [Held(a.v)], pc + |cl|);
      var n2 := SimE(w, cx, e.r, k + |LitsE(e.l)|, a.env, top + [Held(a.v)], pc + |cl|, fuel);
      Chain(w.m, s0, n, s1, n2, Run(w.m, s1, n2));
      n := n + n2;
      var b := Eval(w.fs, w.m.fp, e.r, a.env, fuel);
      if b.EOk? {
        var s2 := S(cx, b.env, top + [Held(a.v)] + [Held(b.v)], pc + |cl| + |cr|);
        var s3 := S(cx, b.env, top + [Held(BinValue(w.m.fp, e.op, a.v, b.v))], pc + |cl| + |cr| + 1);
        BinStep(w.m, cx, e.op, b.env, top, pc + |cl| + |cr|, a.v, b.v);
        Chain(w.m, s0, n, s2, 1, Some(s3));
        n := n + 1;
      }
    }
  }

  lemma SimLogic(w: World, cx: Ctx, e: Expr, k: int, env: Env, top: seq<Val>, pc: int, fuel: nat) returns (n: nat)
    requires ReadyE(w, cx, e, k, |env.globals|, |env.locals|, pc) && e.Bin? && IsLogic(e.op)
    ensures SimulatesE(w.m, S(cx, env, top, pc), n, |CodeE(e, k)|, cx, top, Eval(w.fs, w.m.fp, e, env, fuel), fuel)
    decreases fuel, ESize(e), 0
  {
    hide Base, CodeE, LitsE, Run, Step, Exec, ExecB, EvalArgs, Loaded, WfFuncs, WfE, CodeAt, LitsAt, Framed;
    LogicParts(w, cx, e, k, |env.globals|, |env.locals|, pc);
    var cl, cr := CodeE(e.l, k), CodeE(e.r, k + |LitsE(e.l)|);
    n := SimE(w, cx, e.l, k, env, top, pc, fuel);
    var a := Eval(w.fs, w.m.fp, e.l, env, fuel);
    if a.EOk? {
      var s0, s1 := S(cx, env, top, pc), S(cx, a.env, top + [Held(a.v)], pc + |cl|);
      var s2 := TestStep(w.m, cx, a.env, top, pc + |cl|, a.v);
      Chain(w.m, s0, n, s1, 1, Some(s2));
      n := n + 1;
      if Truth(w.m.fp, a.v) != (e.op == TK_OR) {
        var p2 := pc + |cl| + 2;
        var n2 := SimE(w, cx, e.r, k + |LitsE(e.l)|, a.env, top, p2, fuel);
        Chain(w.m, s0, n, s2, n2, Run(w.m, s2, n2));
        n := n + n2;
        var b := Eval(w.fs, w.m.fp, e.r, a.env, fuel);
        if b.EOk? {
          var s3 := S(cx, b.env, top + [Held(b.v)], p2 + |cr|);
          var s4 := S(cx, b.env, top + [Held(Logical(Truth(w.m.fp, b.v)))], p2 + |cr| + 1);
          TruthStep(w.m, cx, b.env, top, p2 + |cr|, b.v);
          Chain(w.m, s0, n, s3, 1, Some(s4));
          n := n + 1;
        }
      }
    }
  }

  lemma SimCond(w: World, cx: Ctx, e: Expr, k: int, env: Env, top: seq<Val>, pc: int, fuel: nat) returns (n: nat)
    requires ReadyE(w, cx, e, k, |env.globals|, |env.locals|, pc) && e.Cond?
    ensures SimulatesE(w.m, S(cx, env, top, pc), n, |CodeE(e, k)|, cx, top, Eval(w.fs, w.m.fp, e, env, fuel), fuel)
    decreases fuel, ESize(e), 0
  {
    hide Base, CodeE, LitsE, Run, Step, Exec, ExecB, EvalArgs, Loaded, WfFuncs, WfE, CodeAt, LitsAt, Framed;
    CondParts(w, cx, e, k, |env.globals|, |env.locals|, pc);
    var kt, kf := k + |LitsE(e.c)|, k + |LitsE(e.c)| + |LitsE(e.t)|;
    var cc, ct, cf := CodeE(e.c, k), CodeE(e.t, kt), CodeE(e.f, kf);
    var p1, p2 := pc + |cc| + 2, pc + |cc| + |ct| + 4;
    n := SimE(w, cx, e.c, k, env, top, pc, fuel);
    var a := Eval(w.fs, w.m.fp, e.c, env, fuel);
    if a.EOk? {
      var s0, s1 := S(cx, env, top, pc), S(cx, a.env, top + [Held(a.v)], pc + |cc|);
      var s2 := TestStep(w.m, cx, a.env, top, pc + |cc|, a.v);
      Chain(w.m, s0, n, s1, 1, Some(s2));
      n := n + 1;
      if Truth(w.m.fp, a.v) {
        var n2 := SimE(w, cx, e.t, kt, a.env, top, p1, fuel);
        Chain(w.m, s0, n, s2, n2, Run(w.m, s2, n2));
        n := n + n2;
        var b := Eval(w.fs, w.m.fp, e.t, a.env, fuel);
        if b.EOk? {
          var s3 := S(cx, b.env, top + [Held(b.v)], p1 + |ct|);
          var s4 := S(cx, b.env, top + [Held(b.v)], p2 + |cf|);
          JumpStep(w.m, cx, b.env, top + [Held(b.v)], p1 + |ct|);
          Chain(w.m, s0, n, s3, 1, Some(s4));
          n := n + 1;
        }
      } else {
        var n2 := SimE(w, cx, e.f, kf, a.env, top, p2, fuel);
        Chain(w.m, s0, n, s2, n2, Run(w.m, s2, n2));
        n := n + n2;
      }
    }
  }

  lemma SimAsgn(w: World, cx: Ctx, e: Expr, k: int, env: Env, top: seq<Val>, pc: int, fuel: nat) returns (n: nat)
    requires ReadyE(w, cx, e, k, |env.globals|, |env.locals|, pc) && e.Asgn?
    ensures SimulatesE(w.m, S(cx, env, top, pc), n, |CodeE(e, k)|, cx, top, Eval(w.fs, w.m.fp, e, env, fuel), fuel)
    decreases fuel, ESize(e), 0
  {
    hide Base, CodeE, LitsE, Run, Step, Exec, ExecB, EvalArgs, Loaded, WfFuncs, WfE, CodeAt, LitsAt, Framed;
    AsgnParts(w, cx, e, k, |env.globals|, |env.locals|, pc);
    var c, ref := CodeE(e.rhs, k), [Reference(e.slot)];
    var s0, s1 := S(cx, env, top, pc), S(cx, env, top + ref, pc + 2);
    RefStep(w.m, cx, env, top, pc);
    var n2 := SimE(w, cx, e.rhs, k, env, top + ref, pc + 2, fuel);
    Chain(w.m, s0, 1, s1, n2, Run(w.m, s1, n2));
    n := 1 + n2;
    var a := Eval(w.fs, w.m.fp, e.rhs, env, fuel);
    if a.EOk? {
      var v := AsgnValue(w.m.fp, e.aop, Get(a.env, e.slot), a.v);
      var s2 := S(cx, a.env, top + ref + [Held(a.v)], pc + 2 + |c|);
      var s3 := S(cx, Set(a.env, e.slot, v), top + [Held(v)], pc + 3 + |c|);
      AsgnStep(w.m, cx, e.aop, a.env, top, pc + 2 + |c|, e.slot, a.v);
      Chain(w.m, s0, n, s2, 1, Some(s3));
      n := n + 1;
    }
  }

  // ---------- calls ----------

  ghost predicate ReadyArgs(w: World, cx: Ctx, args: seq<Expr>, k: int, ng: nat, nl: nat, pc: int) {
    && Loaded(w, ng) && WfFuncs(w.fs, ng) && Framed(cx, ng, nl) && WfArgs(args, w.fs, ng, nl)
    && CodeAt(w.m, pc, CodeArgs(args, k)) && LitsAt(w.m, k, LitsArgs(args))
  }

  ghost predicate SimulatesArgs(m: Machine, st: State, n: nat, len: nat, cx: Ctx, top: seq<Val>, r: AResult, fuel: nat) {
    match r
    case AOk(vs, env) => Run(m, st, n) == Some(S(cx, env, top + Numbers(vs), st.ip + len))
    case ATimeout => n >= fuel && Run(m, st, n).Some?
  }

  lemma RunNone(m: Machine, st: State)
    ensures Run(m, st, 0) == Some(st)
  {}

  lemma ArgsParts(w: World, cx: Ctx, args: seq<Expr>, k: int, ng: nat, nl: nat, pc: int)
    requires ReadyArgs(w, cx, args, k, ng, nl, pc) && args != []
    ensures var c, k2 := CodeE(args[0], k), k + |LitsE(args[0])|;
      && ReadyE(w, cx, args[0], k, ng, nl, pc) && ReadyArgs(w, cx, args[1..], k2, ng, nl, pc + |c|)
      && |CodeArgs(args, k)| == |c| + |CodeArgs(args[1..], k2)|
  {
    hide Loaded, WfFuncs, Framed, CodeAt, LitsAt, CodeE, LitsE, WfE, CodeArgs, LitsArgs;
    var k2 := k + |LitsE(args[0])|;
    ArgsUnfold(args, k);
    CodeCat(w.m, pc, CodeE(args[0], k), CodeArgs(args[1..], k2));
    LitsCat(w.m, k, LitsE(args[0]), LitsArgs(args[1..]));
  }

  lemma SimArgs(w: World, cx: Ctx, args: seq<Expr>, k: int, env: Env, top: seq<Val>, pc: int, fuel: nat) returns (n: nat)
    requires ReadyArgs(w, cx, args, k, |env.globals|, |env.locals|, pc)
    ensures SimulatesArgs(w.m, S(cx, env, top, pc), n, |CodeArgs(args, k)|, cx, top, EvalArgs(w.fs, w.m.fp, args, env, fuel), fuel)
    decreases fuel, ASize(args), 2
  {
    hide Base, CodeE, LitsE, Run, Step, Eval, Exec, ExecB, Loaded, WfFuncs, WfE, CodeAt, LitsAt, Framed;
    if args == [] {
      n := 0;
      RunNone(w.m, S(cx, env, top, pc));
      assert top + Numbers([]) == top;
    } else {
      hide CodeArgs, LitsArgs, WfArgs;
      ArgsParts(w, cx, args, k, |env.globals|, |env.locals|, pc);
      ArgsUnfold(args, k);
      var c, k2 := CodeE(args[0], k), k + |LitsE(args[0])|;
      n := SimE(w, cx, args[0], k, env, top, pc, fuel);
      var a := Eval(w.fs, w.m.fp, args[0], env, fuel);
      if a.EOk? {
        var top2, s1 := top + [Held(a.v)], S(cx, a.env, top + [Held(a.v)], pc + |c|);
        var n2 := SimArgs(w, cx, args[1..], k2, a.env, top2, pc + |c|, fuel);
        Chain(w.m, S(cx, env, top, pc), n, s1, n2, Run(w.m, s1, n2));
        n := n + n2;
        var b := EvalArgs(w.fs, w.m.fp, args[1..], a.env, fuel);
        if b.AOk? { assert top2 + Numbers(b.vs) == top + Numbers([a.v] + b.vs); }
      }
    }
  }

  lemma CallParts(w: World, cx: Ctx, e: Expr, k: int, ng: nat, nl: nat, pc: int)
    requires ReadyE(w, cx, e, k, ng, nl, pc) && e.Call?
    ensures var c := CodeArgs(e.args, k);
      && ReadyArgs(w, cx, e.args, k, ng, nl, pc + 2) && |CodeE(e, k)| == |c| + 4 && e.fn in w.fs
      && 0 <= pc && pc + 3 + |c| < |w.m.code|
      && w.m.code[pc] == OP_PREPCALL && w.m.code[pc + 1] == e.fn
      && w.m.code[pc + 2 + |c|] == TK_FUNC && w.m.code[pc + 3 + |c|] == |e.args|
  {
    hide Loaded, WfFuncs, Framed, CodeAt, LitsAt, CodeArgs, LitsArgs, WfArgs;
    var c := CodeArgs(e.args, k);
    CodeCat(w.m, pc, [OP_PREPCALL, e.fn], c + [TK_FUNC, |e.args|]);
    CodeCat(w.m, pc + 2, c, [TK_FUNC, |e.args|]);
    assert w.m.code[pc + 0] == OP_PREPCALL && w.m.code[pc + 2 + |c| + 0] == TK_FUNC;
  }

  /** Where the parts of a loaded function are. */
  lemma FuncParts(w: World, fn: int, ng: nat)
    requires Loaded(w, ng) && fn in w.fs
    ensures var f, k := w.fs[fn], w.ks[fn]; var a := w.m.funcs[fn].addr; var c := CodeB(f.body, k, Dest(0, 0, f.nparms));
      && fn in w.ks && fn in w.m.funcs && w.m.funcs[fn].nparms == f.nparms && w.m.funcs[fn].scalars == LocalSlots(UsesB(f.body))
      && 0 <= a && a + 6 + |c| <= |w.m.code| && w.m.code[a] == TK_FUNCTION && w.m.code[a + 1] == fn
      && CodeAt(w.m, a + 2, c) && LitsAt(w.m, k, LitsB(f.body))
      && WfB(f.body, w.fs, ng, f.nparms) && PlacedB(f.body, false, true)
      && w.m.code[a + 2 + |c|] == TK_NUMBER && w.m.code[a + 4 + |c|] == TK_RETURN
      && 0 <= w.m.code[a + 3 + |c|] < |w.m.lits| && w.m.lits[w.m.code[a + 3 + |c|]] == Uninit
  {
    hide CodeB, LitsB, WfB, PlacedB, CodeAt, LitsAt;
    var f, k := w.fs[fn], w.ks[fn];
    var a, c, ls := w.m.funcs[fn].addr, CodeB(f.body, k, Dest(0, 0, f.nparms)), LitsB(f.body);
    assert FuncLoaded(w, fn);
    FuncText(w.m, a, fn, c, k + |ls|, f.nparms);
    LastLit(w.m, k, ls);
  }

  lemma FuncText(m: Machine, a: int, fn: int, c: seq<int>, lit: int, n: int)
    requires CodeAt(m, a, [TK_FUNCTION, fn] + (c + [TK_NUMBER, lit, TK_RETURN, n]))
    ensures 0 <= a && a + 6 + |c| <= |m.code| && m.code[a] == TK_FUNCTION && m.code[a + 1] == fn && CodeAt(m, a + 2, c)
    ensures m.code[a + 2 + |c|] == TK_NUMBER && m.code[a + 3 + |c|] == lit && m.code[a + 4 + |c|] == TK_RETURN
  {
    hide CodeAt;
    CodeStart(m, a, [TK_FUNCTION, fn] + (c + [TK_NUMBER, lit, TK_RETURN, n]));
    CodeCat(m, a, [TK_FUNCTION, fn], c + [TK_NUMBER, lit, TK_RETURN, n]);
    CodeCat(m, a + 2, c, [TK_NUMBER, lit, TK_RETURN, n]);
    assert m.code[a + 0] == TK_FUNCTION && m.code[a + 2 + |c| + 0] == TK_NUMBER;
    assert a + 2 + |c| + 1 == a + 3 + |c| && a + 2 + |c| + 2 == a + 4 + |c|;
  }

  lemma CodeStart(m: Machine, a: int, c: seq<int>)
    requires CodeAt(m, a, c)
    ensures 0 <= a && a + |c| <= |m.code|
  {}

  lemma LastLit(m: Machine, k: int, ls: seq<Value>)
    requires LitsAt(m, k, ls + [Uninit])
    ensures LitsAt(m, k, ls) && 0 <= k + |ls| < |m.lits| && m.lits[k + |ls|] == Uninit
  {
    LitsCat(m, k, ls, [Uninit]);
    assert m.lits[k + |ls|..k + |ls| + 1][0] == Uninit;
  }

  lemma SimCall(w: World, cx: Ctx, e: Expr, k: int, env: Env, top: seq<Val>, pc: int, fuel: nat) returns (n: nat)
    requires ReadyE(w, cx, e, k, |env.globals|, |env.locals|, pc) && e.Call?
    ensures SimulatesE(w.m, S(cx, env, top, pc), n, |CodeE(e, k)|, cx, top, Eval(w.fs, w.m.fp, e, env, fuel), fuel)
    decreases fuel, ESize(e), 0
  {
    hide Base, CodeE, LitsE, CodeArgs, LitsArgs, Run, Step, Exec, ExecB, EvalArgs, Loaded, WfFuncs, WfE, WfArgs, CodeAt, LitsAt, Framed, Header;
    CallParts(w, cx, e, k, |env.globals|, |env.locals|, pc);
    var c, top1 := CodeArgs(e.args, k), top + Header(0, 0, 0, e.fn);
    var s0, s1 := S(cx, env, top, pc), S(cx, env, top1, pc + 2);
    PrepareEffect(w.m, cx, env, top, pc);
    var n1 := SimArgs(w, cx, e.args, k, env, top1, pc + 2, fuel);
    Chain(w.m, s0, 1, s1, n1, Run(w.m, s1, n1));
    n := 1 + n1;
    var a := EvalArgs(w.fs, w.m.fp, e.args, env, fuel);
    if a.AOk? && fuel > 0 {
      var n2 := SimInvoke(w, cx, e.fn, a.env, top, a.vs, pc + 2 + |c|, fuel);
      var s2 := S(cx, a.env, top1 + Numbers(a.vs), pc + 2 + |c|);
      Chain(w.m, s0, n, s2, n2, Run(w.m, s2, n2));
      n := n + n2;
    }
  }

  /** The result of calling fn with values vs when env holds. */
  function Invoke(w: World, fn: int, env: Env, vs: seq<Value>, fuel: nat): EResult
    requires fuel > 0 && fn in w.fs && WfFuncs(w.fs, |env.globals|)
  {
    var b := ExecB(w.fs, w.m.fp, w.fs[fn].body, Env(env.globals, FrameOf(vs, w.fs[fn])), fuel - 1);
    if b.STimeout? then ETimeout
    else EOk(if b.out.Returned? then Scalar(b.out.v) else Uninit, Env(b.env.globals, env.locals))
  }

  lemma SimInvoke(w: World, cx: Ctx, fn: int, env: Env, top: seq<Val>, vs: seq<Value>, pc: int, fuel: nat) returns (n: nat)
    requires Loaded(w, |env.globals|) && WfFuncs(w.fs, |env.globals|) && Framed(cx, |env.globals|, |env.locals|)
    requires fn in w.fs && fuel > 0
    requires 0 <= pc && pc + 1 < |w.m.code| && w.m.code[pc] == TK_FUNC && w.m.code[pc + 1] == |vs|
    ensures SimulatesE(w.m, S(cx, env, top + Header(0, 0, 0, fn) + Numbers(vs), pc), n, 2, cx, top, Invoke(w, fn, env, vs, fuel), fuel)
    decreases fuel, 0, 0
  {
    hide Base, CodeE, LitsE, CodeArgs, LitsArgs, Run, Step, Exec, ExecB, EvalArgs, Loaded, WfFuncs, WfE, WfArgs, CodeAt, LitsAt, Framed, Header, Callee, CodeB, LitsB;
    FuncParts(w, fn, |env.globals|);
    var f, h := w.fs[fn], Header(pc + 2, cx.pb, |vs|, fn);
    var at, cx2, env2 := w.m.funcs[fn].addr + 2, Callee(cx, env, top, h), Env(env.globals, FrameOf(vs, f));
    var s0, s1 := S(cx, env, top + Header(0, 0, 0, fn) + Numbers(vs), pc), S(cx2, env2, [], at);
    EnterRun(w.m, cx, env, top, vs, pc, fn);
    CalleeFramed(cx, env, top, h, f.nparms);
    var d := Dest(0, 0, f.nparms);
    var n1, q := SimB(w, cx2, f.body, w.ks[fn], d, env2, at, fuel - 1);
    Chain(w.m, s0, 2, s1, n1, Run(w.m, s1, n1));
    n := 2 + n1;
    var r := ExecB(w.fs, w.m.fp, f.body, env2, fuel - 1);
    if r.SOk? {
      NoEscapeB(w.fs, w.m.fp, f.body, false, true, env2, fuel - 1);
      var v := if r.out.Returned? then r.out.v else Uninit;
      if r.out.Normal? {
        var s2, s3 := S(cx2, r.env, [], q), S(cx2, r.env, [Held(Uninit)], q + 2);
        NumberStep(w.m, cx2, r.env, q);
        Chain(w.m, s0, n, s2, 1, Some(s3));
        n, q := n + 1, q + 2;
      }
      ReturnRun(w.m, cx, env, top, pc + 2, |vs|, fn, r.env, v, q);
      var s4 := S(cx2, r.env, [Held(v)], q);
      Chain(w.m, s0, n, s4, 1, Some(S(cx, Env(r.env.globals, env.locals), top + [Held(Scalar(v))], pc + 2)));
      n := n + 1;
    }
  }

  lemma NumberStep(m: Machine, cx: Ctx, env: Env, pc: int)
    requires 0 <= pc && pc + 1 < |m.code| && m.code[pc] == TK_NUMBER && 0 <= m.code[pc + 1] < |m.lits|
    ensures Run(m, S(cx, env, [], pc), 1) == Some(S(cx, env, [Held(m.lits[m.code[pc + 1]])], pc + 2))
  {
    hide Base, Run;
    assert Base(cx, env) + [] == Base(cx, env);
    One(m, S(cx, env, [], pc), S(cx, env, [Held(m.lits[m.code[pc + 1]])], pc + 2));
  }

  // ---------- statements ----------

  ghost predicate ReadyS(w: World, cx: Ctx, s: Stmt, k: int, d: Dest, ng: nat, nl: nat, pc: int) {
    && Loaded(w, ng) && WfFuncs(w.fs, ng) && Framed(cx, ng, nl) && WfS(s, w.fs, ng, nl)
    && CodeAt(w.m, pc, CodeS(s, k, d)) && LitsAt(w.m, k, LitsS(s))
  }

  ghost predicate ReadyB(w: World, cx: Ctx, b: seq<Stmt>, k: int, d: Dest, ng: nat, nl: nat, pc: int) {
    && Loaded(w, ng) && WfFuncs(w.fs, ng) && Framed(cx, ng, nl) && WfB(b, w.fs, ng, nl)
    && CodeAt(w.m, pc, CodeB(b, k, d)) && LitsAt(w.m, k, LitsB(b))
  }

  /** A statement ends just after its code, or at a jump target, or at a return instruction with the result on the stack. */
  ghost predicate Lands(m: Machine, out: Outcome, q: int, pc: int, len: nat, d: Dest) {
    match out
    case Normal => q == pc + len
    case Broke => q == pc + d.brk
    case Continued => q == pc + d.cont
    case Returned(_) => 0 <= q && q + 1 < |m.code| && m.code[q] == TK_RETURN
  }

  function Result(out: Outcome): seq<Val> { if out.Returned? then [Held(out.v)] else [] }

  ghost predicate SimulatesS(m: Machine, st: State, n: nat, q: int, len: nat, d: Dest, cx: Ctx, r: SResult, fuel: nat) {
    match r
    case SOk(out, env) => Run(m, st, n) == Some(S(cx, env, Result(out), q)) && Lands(m, out, q, st.ip, len, d)
    case STimeout => n >= fuel && Run(m, st, n).Some?
  }

  lemma SimS(w: World, cx: Ctx, s: Stmt, k: int, d: Dest, env: Env, pc: int, fuel: nat) returns (n: nat, q: int)
    requires ReadyS(w, cx, s, k, d, |env.globals|, |env.locals|, pc)
    ensures SimulatesS(w.m, S(cx, env, [], pc), n, q, |CodeS(s, k, d)|, d, cx, Exec(w.fs, w.m.fp, s, env, fuel), fuel)
    decreases fuel, SSize(s), 3
  {
    hide Base, CodeE, LitsE, CodeS, LitsS, Run, Step, Eval, Exec, ExecB, Loaded, WfFuncs, WfS, CodeAt, LitsAt, Framed, SimulatesS;
    match s
    case SExpr(_) => n, q := SimExpr(w, cx, s, k, d, env, pc, fuel);
    case SEmpty => n, q := SimJump(w, cx, s, k, d, env, pc, fuel);
    case SBreak => n, q := SimJump(w, cx, s, k, d, env, pc, fuel);
    case SContinue => n, q := SimJump(w, cx, s, k, d, env, pc, fuel);
    case SReturn(_) => n, q := SimReturn(w, cx, s, k, d, env, pc, fuel);
    case SBlock(_) => n, q := SimBlock(w, cx, s, k, d, env, pc, fuel);
    case SIf(_, _) => n, q := SimIf(w, cx, s, k, d, env, pc, fuel);
    case SIfElse(_, _, _) => n, q := SimIfElse(w, cx, s, k, d, env, pc, fuel);
    case SWhile(_, _) => n, q := SimWhile(w, cx, s, k, d, env, pc, fuel);
    case SDo(_, _) => n, q := SimDo(w, cx, s, k, d, env, pc, fuel);
    case SFor(_, _, _, _) => n, q := SimFor(w, cx, s, k, d, env, pc, fuel);
  }

  lemma DropStep(m: Machine, cx: Ctx, env: Env, v: Val, pc: int)
    requires 0 <= pc < |m.code| && m.code[pc] == OP_DROP
    ensures Run(m, S(cx, env, [v], pc), 1) == Some(S(cx, env, [], pc + 1))
  {
    hide Base, Run;
    assert Drop(Base(cx, env) + [v]) == Base(cx, env) == Base(cx, env) + [];
    One(m, S(cx, env, [v], pc), S(cx, env, [], pc + 1));
  }

  lemma ExprParts(w: World, cx: Ctx, s: Stmt, k: int, d: Dest, ng: nat, nl: nat, pc: int)
    requires ReadyS(w, cx, s, k, d, ng, nl, pc) && s.SExpr?
    ensures
      var c := CodeE(s.e, k);
      && ReadyE(w, cx, s.e, k, ng, nl, pc) && |CodeS(s, k, d)| == |c| + 1
      && 0 <= pc + |c| < |w.m.code| && w.m.code[pc + |c|] == OP_DROP
  {
    hide Loaded, WfFuncs, Framed, CodeAt, LitsAt, CodeE, LitsE, CodeS, LitsS, WfE, CodeB, LitsB;
    ExprCode(s, k, d);
    CodeCat(w.m, pc, CodeE(s.e, k), [OP_DROP]);
    assert w.m.code[pc + |CodeE(s.e, k)| + 0] == OP_DROP;
  }

  lemma ExprCode(s: Stmt, k: int, d: Dest)
    requires s.SExpr?
    ensures CodeS(s, k, d) == CodeE(s.e, k) + [OP_DROP] && LitsS(s) == LitsE(s.e)
  {
    hide CodeE, LitsE;
  }

  lemma SimExpr(w: World, cx: Ctx, s: Stmt, k: int, d: Dest, env: Env, pc: int, fuel: nat) returns (n: nat, q: int)
    requires ReadyS(w, cx, s, k, d, |env.globals|, |env.locals|, pc) && s.SExpr?
    ensures SimulatesS(w.m, S(cx, env, [], pc), n, q, |CodeS(s, k, d)|, d, cx, Exec(w.fs, w.m.fp, s, env, fuel), fuel)
    decreases fuel, SSize(s), 2
  {
    hide Base, CodeE, LitsE, CodeS, LitsS, CodeB, LitsB, Run, Step, Eval, ExecB, ExecFor, Loaded, WfFuncs, WfE, WfS, WfB, CodeAt, LitsAt, Framed, ESize;
    ExprParts(w, cx, s, k, d, |env.globals|, |env.locals|, pc);
    n := SimE(w, cx, s.e, k, env, [], pc, fuel);
    q := pc + |CodeE(s.e, k)| + 1;
    var a := Eval(w.fs, w.m.fp, s.e, env, fuel);
    if a.EOk? {
      DropStep(w.m, cx, a.env, Held(a.v), q - 1);
      assert [] + [Held(a.v)] == [Held(a.v)];
      Chain(w.m, S(cx, env, [], pc), n, S(cx, a.env, [Held(a.v)], q - 1), 1, Some(S(cx, a.env, [], q)));
      n := n + 1;
    }
  }

  lemma SimJump(w: World, cx: Ctx, s: Stmt, k: int, d: Dest, env: Env, pc: int, fuel: nat) returns (n: nat, q: int)
    requires ReadyS(w, cx, s, k, d, |env.globals|, |env.locals|, pc) && (s.SEmpty? || s.SBreak? || s.SContinue?)
    ensures SimulatesS(w.m, S(cx, env, [], pc), n, q, |CodeS(s, k, d)|, d, cx, Exec(w.fs, w.m.fp, s, env, fuel), fuel)
    decreases fuel, SSize(s), 2
  {
    hide Base, CodeE, LitsE, LitsS, CodeB, LitsB, Step, Eval, ExecB, ExecFor, Loaded, WfFuncs, WfE, WfS, WfB, LitsAt, Framed, ESize;
    if s.SEmpty? {
      n, q := 0, pc;
    } else {
      CodeCat(w.m, pc, CodeS(s, k, d), []);
      assert CodeS(s, k, d) + [] == CodeS(s, k, d);
      assert w.m.code[pc + 0] == CodeS(s, k, d)[0] && w.m.code[pc + 1] == CodeS(s, k, d)[1];
      JumpStep(w.m, cx, env, [], pc);
      n, q := 1, pc + 2 + w.m.code[pc + 1];
    }
  }

  lemma ReturnParts(w: World, cx: Ctx, s: Stmt, k: int, d: Dest, ng: nat, nl: nat, pc: int)
    requires ReadyS(w, cx, s, k, d, ng, nl, pc) && s.SReturn?
    ensures
      var c := if s.ret.Some? then CodeE(s.ret.value, k) else [TK_NUMBER, k];
      && |CodeS(s, k, d)| == |c| + 2 && 0 <= pc && pc + |c| + 1 < |w.m.code| && w.m.code[pc + |c|] == TK_RETURN
      && (s.ret.Some? ==> ReadyE(w, cx, s.ret.value, k, ng, nl, pc))
      && (s.ret.None? ==> w.m.code[pc] == TK_NUMBER && w.m.code[pc + 1] == k && 0 <= k < |w.m.lits| && w.m.lits[k] == NUMERIC_ZERO)
  {
    hide Loaded, WfFuncs, Framed, CodeAt, LitsAt, CodeE, LitsE, CodeS, LitsS, WfE, CodeB, LitsB;
    ReturnCode(s, k, d);
    var c := if s.ret.Some? then CodeE(s.ret.value, k) else [TK_NUMBER, k];
    CodeCat(w.m, pc, c, [TK_RETURN, d.nparms]);
    assert w.m.code[pc + |c| + 0] == TK_RETURN;
    if s.ret.None? {
      LitsCat(w.m, k, [NUMERIC_ZERO], []);
      LitsOne(w.m, k, NUMERIC_ZERO);
      assert w.m.code[pc + 0] == TK_NUMBER;
    }
  }

  lemma LitsOne(m: Machine, k: int, v: Value)
    requires LitsAt(m, k, [v])
    ensures 0 <= k < |m.lits| && m.lits[k] == v
  {
    assert m.lits[k..k + 1][0] == v;
  }

  lemma ReturnCode(s: Stmt, k: int, d: Dest)
    requires s.SReturn?
    ensures CodeS(s, k, d) == (if s.ret.Some? then CodeE(s.ret.value, k) else [TK_NUMBER, k]) + [TK_RETURN, d.nparms]
    ensures LitsS(s) == (if s.ret.Some? then LitsE(s.ret.value) else [NUMERIC_ZERO]) && [NUMERIC_ZERO] + [] == [NUMERIC_ZERO]
  {
    hide CodeE, LitsE;
  }

  lemma SimReturn(w: World, cx: Ctx, s: Stmt, k: int, d: Dest, env: Env, pc: int, fuel: nat) returns (n: nat, q: int)
    requires ReadyS(w, cx, s, k, d, |env.globals|, |env.locals|, pc) && s.SReturn?
    ensures SimulatesS(w.m, S(cx, env, [], pc), n, q, |CodeS(s, k, d)|, d, cx, Exec(w.fs, w.m.fp, s, env, fuel), fuel)
    decreases fuel, SSize(s), 2
  {
    hide Base, CodeE, LitsE, CodeS, LitsS, CodeB, LitsB, Run, Step, Eval, ExecB, ExecFor, Loaded, WfFuncs, WfE, WfS, WfB, CodeAt, LitsAt, Framed, ESize;
    ReturnParts(w, cx, s, k, d, |env.globals|, |env.locals|, pc);
    if s.ret.Some? {
      n := SimE(w, cx, s.ret.value, k, env, [], pc, fuel);
      q := pc + |CodeE(s.ret.value, k)|;
      assert forall v: Val :: [] + [v] == [v];
    } else {
      NumberStep(w.m, cx, env, pc);
      n, q := 1, pc + 2;
    }
  }

  lemma ReadyBlock(w: World, cx: Ctx, s: Stmt, k: int, d: Dest, ng: nat, nl: nat, pc: int)
    requires ReadyS(w, cx, s, k, d, ng, nl, pc) && s.SBlock?
    ensures ReadyB(w, cx, s.body, k, d, ng, nl, pc) && CodeS(s, k, d) == CodeB(s.body, k, d)
  {
    hide CodeAt, LitsAt, CodeB, LitsB, Loaded, WfFuncs, Framed, WfB;
    BlockCode(s, k, d);
  }

  lemma SimBlock(w: World, cx: Ctx, s: Stmt, k: int, d: Dest, env: Env, pc: int, fuel: nat) returns (n: nat, q: int)
    requires ReadyS(w, cx, s, k, d, |env.globals|, |env.locals|, pc) && s.SBlock?
    ensures SimulatesS(w.m, S(cx, env, [], pc), n, q, |CodeS(s, k, d)|, d, cx, Exec(w.fs, w.m.fp, s, env, fuel), fuel)
    decreases fuel, SSize(s), 2
  {
    hide Base, CodeE, LitsE, CodeS, LitsS, CodeB, LitsB, Run, Step, Eval, ExecB, ExecFor, Loaded, WfFuncs, WfE, WfS, WfB, CodeAt, LitsAt, Framed, ESize;
    ReadyBlock(w, cx, s, k, d, |env.globals|, |env.locals|, pc);
    n, q := SimB(w, cx, s.body, k, d, env, pc, fuel);
  }

  lemma IfParts(w: World, cx: Ctx, s: Stmt, k: int, d: Dest, ng: nat, nl: nat, pc: int)
    requires ReadyS(w, cx, s, k, d, ng, nl, pc) && s.SIf?
    ensures
      var cc, kt := CodeE(s.cond, k), k + |LitsE(s.cond)|; var p := pc + |cc| + 2;
      var ct := CodeS(s.thn, kt, Shift(d, |cc| + 2));
      && ReadyE(w, cx, s.cond, k, ng, nl, pc) && ReadyS(w, cx, s.thn, kt, Shift(d, |cc| + 2), ng, nl, p)
      && pc + |CodeS(s, k, d)| == p + |ct| && Cells(w.m, p - 2, TK_IF, |ct|)
  {
    hide Cells, Loaded, WfFuncs, Framed, CodeAt, LitsAt, CodeE, LitsE, CodeS, LitsS, WfE, CodeB, LitsB;
    IfCode(s, k, d);
    var cc, kt := CodeE(s.cond, k), k + |LitsE(s.cond)|;
    var ct := CodeS(s.thn, kt, Shift(d, |cc| + 2));
    CodeTwo(w.m, pc, cc, [TK_IF, |ct|] + ct);
    CodeTwo(w.m, pc + |cc|, [TK_IF, |ct|], ct);
    LitsCat(w.m, k, LitsE(s.cond), LitsS(s.thn));
    CellsAt(w.m, pc + |cc|, TK_IF, |ct|);
  }

  lemma SimIf(w: World, cx: Ctx, s: Stmt, k: int, d: Dest, env: Env, pc: int, fuel: nat) returns (n: nat, q: int)
    requires ReadyS(w, cx, s, k, d, |env.globals|, |env.locals|, pc) && s.SIf?
    ensures SimulatesS(w.m, S(cx, env, [], pc), n, q, |CodeS(s, k, d)|, d, cx, Exec(w.fs, w.m.fp, s, env, fuel), fuel)
    decreases fuel, SSize(s), 2
  {
    hide Base, CodeE, LitsE, CodeS, LitsS, CodeB, LitsB, Run, Step, Eval, ExecB, ExecFor, Loaded, WfFuncs, WfE, WfS, WfB, CodeAt, LitsAt, Framed, ESize;
    IfParts(w, cx, s, k, d, |env.globals|, |env.locals|, pc);
    var cc, kt := CodeE(s.cond, k), k + |LitsE(s.cond)|;
    var p, d2 := pc + |cc| + 2, Shift(d, |cc| + 2);
    n := SimE(w, cx, s.cond, k, env, [], pc, fuel);
    q := pc;
    var a := Eval(w.fs, w.m.fp, s.cond, env, fuel);
    if a.EOk? {
      assert [] + [Held(a.v)] == [Held(a.v)];
      var s0, s1 := S(cx, env, [], pc), S(cx, a.env, [Held(a.v)], pc + |cc|);
      var s2 := TestStep(w.m, cx, a.env, [], pc + |cc|, a.v);
      Chain(w.m, s0, n, s1, 1, Some(s2));
      n := n + 1;
      if Truth(w.m.fp, a.v) {
        var n2;
        n2, q := SimS(w, cx, s.thn, kt, d2, a.env, p, fuel);
        Chain(w.m, s0, n, s2, n2, Run(w.m, s2, n2));
        n := n + n2;
      } else {
        q := s2.ip;
      }
    }
  }

  lemma IfElseParts(w: World, cx: Ctx, s: Stmt, k: int, d: Dest, ng: nat, nl: nat, pc: int)
    requires ReadyS(w, cx, s, k, d, ng, nl, pc) && s.SIfElse?
    ensures
      var cc, kt := CodeE(s.cond, k), k + |LitsE(s.cond)|; var p := pc + |cc| + 2;
      var ct, kf := CodeS(s.thn, kt, Shift(d, |cc| + 2)), kt + |LitsS(s.thn)|; var r := p + |ct| + 2;
      var cf := CodeS(s.els, kf, Shift(d, |cc| + |ct| + 4));
      && ReadyE(w, cx, s.cond, k, ng, nl, pc) && ReadyS(w, cx, s.thn, kt, Shift(d, |cc| + 2), ng, nl, p)
      && ReadyS(w, cx, s.els, kf, Shift(d, |cc| + |ct| + 4), ng, nl, r)
      && pc + |CodeS(s, k, d)| == r + |cf|
      && Cells(w.m, p - 2, TK_IF, |ct| + 2) && Cells(w.m, r - 2, TK_ELSE, |cf|)
  {
    hide Cells, Loaded, WfFuncs, Framed, CodeAt, LitsAt, CodeE, LitsE, CodeS, LitsS, WfE, CodeB, LitsB;
    IfCode(s, k, d);
    var cc, kt := CodeE(s.cond, k), k + |LitsE(s.cond)|;
    var ct, kf := CodeS(s.thn, kt, Shift(d, |cc| + 2)), kt + |LitsS(s.thn)|;
    var cf := CodeS(s.els, kf, Shift(d, |cc| + |ct| + 4));
    var p := pc + |cc| + 2;
    CodeTwo(w.m, pc, cc, [TK_IF, |ct| + 2] + (ct + ([TK_ELSE, |cf|] + cf)));
    CodeTwo(w.m, pc + |cc|, [TK_IF, |ct| + 2], ct + ([TK_ELSE, |cf|] + cf));
    CodeTwo(w.m, p, ct, [TK_ELSE, |cf|] + cf);
    CodeTwo(w.m, p + |ct|, [TK_ELSE, |cf|], cf);
    LitsCat(w.m, k, LitsE(s.cond), LitsS(s.thn) + LitsS(s.els));
    LitsCat(w.m, kt, LitsS(s.thn), LitsS(s.els));
    CellsAt(w.m, p - 2, TK_IF, |ct| + 2);
    CellsAt(w.m, p + |ct|, TK_ELSE, |cf|);
  }

  lemma SimIfElse(w: World, cx: Ctx, s: Stmt, k: int, d: Dest, env: Env, pc: int, fuel: nat) returns (n: nat, q: int)
    requires ReadyS(w, cx, s, k, d, |env.globals|, |env.locals|, pc) && s.SIfElse?
    ensures SimulatesS(w.m, S(cx, env, [], pc), n, q, |CodeS(s, k, d)|, d, cx, Exec(w.fs, w.m.fp, s, env, fuel), fuel)
    decreases fuel, SSize(s), 2
  {
    hide Base, CodeE, LitsE, CodeS, LitsS, CodeB, LitsB, Run, Step, Eval, ExecB, ExecFor, Loaded, WfFuncs, WfE, WfS, WfB, CodeAt, LitsAt, Framed, ESize;
    IfElseParts(w, cx, s, k, d, |env.globals|, |env.locals|, pc);
    var cc, kt := CodeE(s.cond, k), k + |LitsE(s.cond)|;
    var p, dt := pc + |cc| + 2, Shift(d, |cc| + 2);
    var ct, kf := CodeS(s.thn, kt, dt), kt + |LitsS(s.thn)|;
    var r, df := p + |ct| + 2, Shift(d, |cc| + |ct| + 4);
    n := SimE(w, cx, s.cond, k, env, [], pc, fuel);
    q := pc;
    var a := Eval(w.fs, w.m.fp, s.cond, env, fuel);
    if a.EOk? {
      assert [] + [Held(a.v)] == [Held(a.v)];
      var s0, s1 := S(cx, env, [], pc), S(cx, a.env, [Held(a.v)], pc + |cc|);
      var s2 := TestStep(w.m, cx, a.env, [], pc + |cc|, a.v);
      Chain(w.m, s0, n, s1, 1, Some(s2));
      n := n + 1;
      var n2;
      if Truth(w.m.fp, a.v) {
        n2, q := SimS(w, cx, s.thn, kt, dt, a.env, p, fuel);
        Chain(w.m, s0, n, s2, n2, Run(w.m, s2, n2));
        n := n + n2;
        var b := Exec(w.fs, w.m.fp, s.thn, a.env, fuel);
        if b.SOk? && b.out.Normal? {
          JumpStep(w.m, cx, b.env, [], q);
          Chain(w.m, s0, n, S(cx, b.env, [], q), 1, Some(S(cx, b.env, [], r + w.m.code[r - 1])));
          n, q := n + 1, r + w.m.code[r - 1];
        }
      } else {
        n2, q := SimS(w, cx, s.els, kf, df, a.env, r, fuel);
        Chain(w.m, s0, n, s2, n2, Run(w.m, s2, n2));
        n := n + n2;
      }
    }
  }

  lemma WhileParts(w: World, cx: Ctx, s: Stmt, k: int, d: Dest, ng: nat, nl: nat, pc: int)
    requires ReadyS(w, cx, s, k, d, ng, nl, pc) && s.SWhile?
    ensures
      var cc, kb := CodeE(s.cond, k), k + |LitsE(s.cond)|; var p := pc + |cc| + 4;
      var db := Dest(-2, -(|cc| + 4), d.nparms);
      var cb := CodeS(s.loop, kb, db); var r := p + |cb|;
      && ReadyE(w, cx, s.cond, k, ng, nl, pc) && ReadyS(w, cx, s.loop, kb, db, ng, nl, p)
      && pc + |CodeS(s, k, d)| == r + 2
      && Cells(w.m, p - 4, TK_WHILE, 2) && Cells(w.m, p - 2, OP_JUMP, |cb| + 2)
      && Cells(w.m, r, OP_JUMP, -(|cc| + |cb| + 6))
  {
    hide Cells, Loaded, WfFuncs, Framed, CodeAt, LitsAt, CodeE, LitsE, CodeS, LitsS, WfE, CodeB, LitsB;
    WhileCode(s, k, d);
    var cc, kb := CodeE(s.cond, k), k + |LitsE(s.cond)|;
    var cb := CodeS(s.loop, kb, Dest(-2, -(|cc| + 4), d.nparms));
    var h, x, t := [TK_WHILE, 2], [OP_JUMP, |cb| + 2], [OP_JUMP, -(|cc| + |cb| + 6)];
    assert [TK_WHILE, 2, OP_JUMP, |cb| + 2] + (cb + t) == h + (x + (cb + t));
    CodeTwo(w.m, pc, cc, h + (x + (cb + t)));
    CodeTwo(w.m, pc + |cc|, h, x + (cb + t));
    CodeTwo(w.m, pc + |cc| + 2, x, cb + t);
    CodeTwo(w.m, pc + |cc| + 4, cb, t);
    CellsAt(w.m, pc + |cc|, TK_WHILE, 2);
    CellsAt(w.m, pc + |cc| + 2, OP_JUMP, |cb| + 2);
    CellsAt(w.m, pc + |cc| + 4 + |cb|, OP_JUMP, -(|cc| + |cb| + 6));
    LitsCat(w.m, k, LitsE(s.cond), LitsS(s.loop));
  }

  lemma SimWhile(w: World, cx: Ctx, s: Stmt, k: int, d: Dest, env: Env, pc: int, fuel: nat) returns (n: nat, q: int)
    requires ReadyS(w, cx, s, k, d, |env.globals|, |env.locals|, pc) && s.SWhile?
    ensures SimulatesS(w.m, S(cx, env, [], pc), n, q, |CodeS(s, k, d)|, d, cx, Exec(w.fs, w.m.fp, s, env, fuel), fuel)
    decreases fuel, SSize(s), 2
  {
    hide Base, CodeE, LitsE, CodeS, LitsS, CodeB, LitsB, Run, Step, Eval, ExecB, ExecFor, Loaded, WfFuncs, WfE, WfS, WfB, CodeAt, LitsAt, Framed, ESize;
    WhileParts(w, cx, s, k, d, |env.globals|, |env.locals|, pc);
    var cc, kb := CodeE(s.cond, k), k + |LitsE(s.cond)|;
    var p, db := pc + |cc| + 4, Dest(-2, -(|cc| + 4), d.nparms);
    var end := pc + |CodeS(s, k, d)|;
    n := SimE(w, cx, s.cond, k, env, [], pc, fuel);
    q := pc;
    var a := Eval(w.fs, w.m.fp, s.cond, env, fuel);
    if a.EOk? {
      assert [] + [Held(a.v)] == [Held(a.v)];
      var s0, s1 := S(cx, env, [], pc), S(cx, a.env, [Held(a.v)], pc + |cc|);
      var s2 := TestStep(w.m, cx, a.env, [], pc + |cc|, a.v);
      Chain(w.m, s0, n, s1, 1, Some(s2));
      n := n + 1;
      if Truth(w.m.fp, a.v) {
        var n2;
        n2, q := SimS(w, cx, s.loop, kb, db, a.env, p, fuel);
        Chain(w.m, s0, n, s2, n2, Run(w.m, s2, n2));
        n := n + n2;
        var b := Exec(w.fs, w.m.fp, s.loop, a.env, fuel);
        if b.SOk? && !b.out.Returned? {
          if !b.out.Continued? {
            JumpStep(w.m, cx, b.env, [], q);
            var q2 := q + 2 + w.m.code[q + 1];
            Chain(w.m, s0, n, S(cx, b.env, [], q), 1, Some(S(cx, b.env, [], q2)));
            n, q := n + 1, q2;
          }
          if !b.out.Broke? && fuel > 0 {
            var n3, q3 := SimS(w, cx, s, k, d, b.env, pc, fuel - 1);
            Chain(w.m, s0, n, S(cx, b.env, [], pc), n3, Run(w.m, S(cx, b.env, [], pc), n3));
            n, q := n + n3, q3;
          }
        }
      } else {
        JumpStep(w.m, cx, a.env, [], p - 2);
        Chain(w.m, s0, n, s2, 1, Some(S(cx, a.env, [], end)));
        n, q := n + 1, end;
      }
    }
  }

  lemma DoParts(w: World, cx: Ctx, s: Stmt, k: int, d: Dest, ng: nat, nl: nat, pc: int)
    requires ReadyS(w, cx, s, k, d, ng, nl, pc) && s.SDo?
    ensures
      var db, p := Dest(-2, -4, d.nparms), pc + 6;
      var cb, kc := CodeS(s.loop, k, db), k + |LitsS(s.loop)|; var r := p + |cb|;
      var cc := CodeE(s.cond, kc); var t := r + |cc|;
      && ReadyS(w, cx, s.loop, k, db, ng, nl, p) && ReadyE(w, cx, s.cond, kc, ng, nl, r)
      && pc + |CodeS(s, k, d)| == t + 2
      && Cells(w.m, pc, OP_JUMP, 4) && Cells(w.m, pc + 2, OP_JUMP, |cb| + 2)
      && Cells(w.m, pc + 4, OP_JUMP, |cb| + |cc| + 2) && Cells(w.m, t, TK_WHILE, -(|cb| + |cc| + 2))
  {
    hide Cells, Loaded, WfFuncs, Framed, CodeAt, LitsAt, CodeE, LitsE, CodeS, LitsS, WfE, CodeB, LitsB;
    DoCode(s, k, d);
    var cb, kc := CodeS(s.loop, k, Dest(-2, -4, d.nparms)), k + |LitsS(s.loop)|;
    var cc := CodeE(s.cond, kc);
    var x, y, z, t := [OP_JUMP, 4], [OP_JUMP, |cb| + 2], [OP_JUMP, |cb| + |cc| + 2], [TK_WHILE, -(|cb| + |cc| + 2)];
    var rest := cb + (cc + t);
    assert [OP_JUMP, 4, OP_JUMP, |cb| + 2, OP_JUMP, |cb| + |cc| + 2] + rest == x + (y + (z + rest));
    CodeTwo(w.m, pc, x, y + (z + rest));
    CodeTwo(w.m, pc + 2, y, z + rest);
    CodeTwo(w.m, pc + 4, z, rest);
    CodeTwo(w.m, pc + 6, cb, cc + t);
    CodeTwo(w.m, pc + 6 + |cb|, cc, t);
    CellsAt(w.m, pc, OP_JUMP, 4);
    CellsAt(w.m, pc + 2, OP_JUMP, |cb| + 2);
    CellsAt(w.m, pc + 4, OP_JUMP, |cb| + |cc| + 2);
    CellsAt(w.m, pc + 6 + |cb| + |cc|, TK_WHILE, -(|cb| + |cc| + 2));
    LitsCat(w.m, k, LitsS(s.loop), LitsE(s.cond));
  }

  lemma SimDo(w: World, cx: Ctx, s: Stmt, k: int, d: Dest, env: Env, pc: int, fuel: nat) returns (n: nat, q: int)
    requires ReadyS(w, cx, s, k, d, |env.globals|, |env.locals|, pc) && s.SDo?
    ensures SimulatesS(w.m, S(cx, env, [], pc), n, q, |CodeS(s, k, d)|, d, cx, Exec(w.fs, w.m.fp, s, env, fuel), fuel)
    decreases fuel, SSize(s), 2
  {
    hide Base, CodeE, LitsE, CodeS, LitsS, CodeB, LitsB, Run, Step, Eval, ExecB, ExecFor, Loaded, WfFuncs, WfE, WfS, WfB, CodeAt, LitsAt, Framed, ESize;
    DoParts(w, cx, s, k, d, |env.globals|, |env.locals|, pc);
    var s0, s1 := S(cx, env, [], pc), S(cx, env, [], pc + 6);
    JumpStep(w.m, cx, env, [], pc);
    var n1;
    n1, q := SimDoBody(w, cx, s, k, d, env, pc, fuel);
    Chain(w.m, s0, 1, s1, n1, Run(w.m, s1, n1));
    n := 1 + n1;
  }

  /** A `do` loop from the first instruction of its body. */
  lemma SimDoBody(w: World, cx: Ctx, s: Stmt, k: int, d: Dest, env: Env, pc: int, fuel: nat) returns (n: nat, q: int)
    requires ReadyS(w, cx, s, k, d, |env.globals|, |env.locals|, pc) && s.SDo?
    ensures SimulatesS(w.m, S(cx, env, [], pc + 6), n, q, |CodeS(s, k, d)| - 6, Shift(d, 6), cx, Exec(w.fs, w.m.fp, s, env, fuel), fuel)
    decreases fuel, SSize(s), 1
  {
    hide Base, CodeE, LitsE, CodeS, LitsS, CodeB, LitsB, Run, Step, Eval, ExecB, ExecFor, Loaded, WfFuncs, WfE, WfS, WfB, CodeAt, LitsAt, Framed, ESize;
    DoParts(w, cx, s, k, d, |env.globals|, |env.locals|, pc);
    var db, p := Dest(-2, -4, d.nparms), pc + 6;
    var cb, kc := CodeS(s.loop, k, db), k + |LitsS(s.loop)|;
    var r, end := p + |cb|, pc + |CodeS(s, k, d)|;
    var s0 := S(cx, env, [], p);
    n, q := SimS(w, cx, s.loop, k, db, env, p, fuel);
    var b := Exec(w.fs, w.m.fp, s.loop, env, fuel);
    if b.SOk? && !b.out.Returned? {
      if !b.out.Normal? {
        JumpStep(w.m, cx, b.env, [], q);
        var q2 := q + 2 + w.m.code[q + 1];
        Chain(w.m, s0, n, S(cx, b.env, [], q), 1, Some(S(cx, b.env, [], q2)));
        n, q := n + 1, q2;
      }
      if !b.out.Broke? {
        var n2;
        n2, q := SimDoTest(w, cx, s, k, d, b.env, pc, fuel);
        Chain(w.m, s0, n, S(cx, b.env, [], r), n2, Run(w.m, S(cx, b.env, [], r), n2));
        n := n + n2;
      }
    }
  }

  /** What a `do` loop does from its condition on. */
  function DoRest(w: World, s: Stmt, env: Env, fuel: nat): SResult
    requires s.SDo? && WfFuncs(w.fs, |env.globals|) && WfS(s, w.fs, |env.globals|, |env.locals|)
  {
    var a := Eval(w.fs, w.m.fp, s.cond, env, fuel);
    if a.ETimeout? then STimeout
    else if !Truth(w.m.fp, a.v) then SOk(Normal, a.env)
    else if fuel == 0 then STimeout
    else Exec(w.fs, w.m.fp, s, a.env, fuel - 1)
  }

  lemma SimDoTest(w: World, cx: Ctx, s: Stmt, k: int, d: Dest, env: Env, pc: int, fuel: nat) returns (n: nat, q: int)
    requires ReadyS(w, cx, s, k, d, |env.globals|, |env.locals|, pc) && s.SDo?
    ensures var db := Dest(-2, -4, d.nparms); var r := pc + 6 + |CodeS(s.loop, k, db)|;
      SimulatesS(w.m, S(cx, env, [], r), n, q, pc + |CodeS(s, k, d)| - r, Shift(d, r - pc), cx, DoRest(w, s, env, fuel), fuel)
    decreases fuel, SSize(s), 0
  {
    hide Base, CodeE, LitsE, CodeS, LitsS, CodeB, LitsB, Run, Step, Eval, ExecB, ExecFor, Loaded, WfFuncs, WfE, WfS, WfB, CodeAt, LitsAt, Framed, ESize;
    DoParts(w, cx, s, k, d, |env.globals|, |env.locals|, pc);
    var db, p := Dest(-2, -4, d.nparms), pc + 6;
    var cb, kc := CodeS(s.loop, k, db), k + |LitsS(s.loop)|;
    var r := p + |cb|; var cc := CodeE(s.cond, kc); var t := r + |cc|;
    n := SimE(w, cx, s.cond, kc, env, [], r, fuel);
    q := r;
    var a := Eval(w.fs, w.m.fp, s.cond, env, fuel);
    if a.EOk? {
      assert [] + [Held(a.v)] == [Held(a.v)];
      var s0, s1 := S(cx, env, [], r), S(cx, a.env, [Held(a.v)], t);
      var s2 := TestStep(w.m, cx, a.env, [], t, a.v);
      Chain(w.m, s0, n, s1, 1, Some(s2));
      n, q := n + 1, s2.ip;
      if Truth(w.m.fp, a.v) && fuel > 0 {
        var n2;
        n2, q := SimDoBody(w, cx, s, k, d, a.env, pc, fuel - 1);
        Chain(w.m, s0, n, s2, n2, Run(w.m, s2, n2));
        n := n + n2;
      }
    }
  }

  lemma BlockParts(w: World, cx: Ctx, b: seq<Stmt>, k: int, d: Dest, ng: nat, nl: nat, pc: int)
    requires ReadyB(w, cx, b, k, d, ng, nl, pc) && b != []
    ensures var c, k2 := CodeS(b[0], k, d), k + |LitsS(b[0])|; var c2 := CodeB(b[1..], k2, Shift(d, |c|));
      && ReadyS(w, cx, b[0], k, d, ng, nl, pc) && ReadyB(w, cx, b[1..], k2, Shift(d, |c|), ng, nl, pc + |c|)
      && |CodeB(b, k, d)| == |c| + |c2|
  {
    hide Loaded, WfFuncs, Framed, CodeAt, LitsAt, CodeS, LitsS, CodeB, LitsB, WfS;
    BlockUnfold(b, k, d);
    var c, k2 := CodeS(b[0], k, d), k + |LitsS(b[0])|;
    CodeCat(w.m, pc, c, CodeB(b[1..], k2, Shift(d, |c|)));
    LitsCat(w.m, k, LitsS(b[0]), LitsB(b[1..]));
  }

  lemma SimB(w: World, cx: Ctx, b: seq<Stmt>, k: int, d: Dest, env: Env, pc: int, fuel: nat) returns (n: nat, q: int)
    requires ReadyB(w, cx, b, k, d, |env.globals|, |env.locals|, pc)
    ensures SimulatesS(w.m, S(cx, env, [], pc), n, q, |CodeB(b, k, d)|, d, cx, ExecB(w.fs, w.m.fp, b, env, fuel), fuel)
    decreases fuel, BSize(b), 0
  {
    hide Base, CodeS, LitsS, Step, Exec, Loaded, WfFuncs, WfS, CodeAt, LitsAt, Framed, SSize;
    if b == [] {
      n, q := 0, pc;
    } else {
      hide Run, CodeB, LitsB, WfB;
      BlockParts(w, cx, b, k, d, |env.globals|, |env.locals|, pc);
      var c, k2 := CodeS(b[0], k, d), k + |LitsS(b[0])|;
      n, q := SimS(w, cx, b[0], k, d, env, pc, fuel);
      var a := Exec(w.fs, w.m.fp, b[0], env, fuel);
      if a.SOk? && a.out.Normal? {
        var s1, n2 := S(cx, a.env, [], pc + |c|), 0;
        n2, q := SimB(w, cx, b[1..], k2, Shift(d, |c|), a.env, pc + |c|, fuel);
        Chain(w.m, S(cx, env, [], pc), n, s1, n2, Run(w.m, s1, n2));
        n := n + n2;
      }
    }
  }

  // ---------- for loops ----------

  /** The layout of a compiled `for` loop. */
  datatype ForLayout = ForLayout(k1: int, k2: int, k3: int, ci: seq<int>, ct: seq<int>, cu: seq<int>, cb: seq<int>)

  /** Positions in a `for` loop that starts at pc: condition, break jump, increment, body, jump back, end. */
  function CondPos(f: ForLayout, pc: int): int { pc + |f.ci| }
  function BreakPos(f: ForLayout, pc: int): int { CondPos(f, pc) + |f.ct| + 2 }
  function IncrPos(f: ForLayout, pc: int): int { BreakPos(f, pc) + 2 }
  function BodyPos(f: ForLayout, pc: int): int { IncrPos(f, pc) + |f.cu| + 2 }
  function EndPos(f: ForLayout, pc: int): int { BodyPos(f, pc) + |f.cb| + 2 }

  function BodyDest(f: ForLayout, d: Dest): Dest { Dest(-(4 + |f.cu|), -(2 + |f.cu|), d.nparms) }

  function Layout(s: Stmt, k: int, d: Dest): ForLayout
    requires s.SFor?
  {
    var ci, k1 := CodeSimple(s.init, k), k + |LitsOpt(s.init)|;
    var ct, k2 := CodeOpt(s.test, k1), k1 + |LitsOpt(s.test)|;
    var cu, k3 := CodeSimple(s.incr, k2), k2 + |LitsOpt(s.incr)|;
    ForLayout(k1, k2, k3, ci, ct, cu, CodeS(s.loop, k3, Dest(-(4 + |cu|), -(2 + |cu|), d.nparms)))
  }

  /** An optional clause compiled as a simple statement is at pc. */
  ghost predicate ReadyO(w: World, cx: Ctx, e: Option<Expr>, k: int, ng: nat, nl: nat, pc: int) {
    && Loaded(w, ng) && WfFuncs(w.fs, ng) && Framed(cx, ng, nl) && WfOpt(e, w.fs, ng, nl)
    && CodeAt(w.m, pc, CodeSimple(e, k)) && LitsAt(w.m, k, LitsOpt(e))
  }

  lemma ForParts(w: World, cx: Ctx, s: Stmt, k: int, d: Dest, ng: nat, nl: nat, pc: int)
    requires ReadyS(w, cx, s, k, d, ng, nl, pc) && s.SFor?
    ensures var f := Layout(s, k, d);
      && ReadyO(w, cx, s.init, k, ng, nl, pc)
      && WfOpt(s.test, w.fs, ng, nl)
      && (s.test.Some? ==> ReadyE(w, cx, s.test.value, f.k1, ng, nl, CondPos(f, pc)))
      && ReadyO(w, cx, s.incr, f.k2, ng, nl, IncrPos(f, pc))
      && ReadyS(w, cx, s.loop, f.k3, BodyDest(f, d), ng, nl, BodyPos(f, pc))
      && pc + |CodeS(s, k, d)| == EndPos(f, pc)
      && Cells(w.m, BreakPos(f, pc) - 2, ForOp(s), 4 + |f.cu|)
      && Cells(w.m, BreakPos(f, pc), OP_JUMP, 4 + |f.cu| + |f.cb|)
      && Cells(w.m, BodyPos(f, pc) - 2, OP_JUMP, -(|f.ct| + |f.cu| + 6))
      && Cells(w.m, EndPos(f, pc) - 2, OP_JUMP, -(|f.cu| + |f.cb| + 4))
  {
    hide Cells, Loaded, WfFuncs, Framed, CodeAt, LitsAt, CodeE, LitsE, CodeS, LitsS, WfE, CodeSimple, LitsOpt, ForOp;
    ForCode(s, k, d);
    ForWf(s, w.fs, ng, nl);
    var f := Layout(s, k, d);
    ForPieces(w.m, pc, f, ForOp(s));
    LitsCat(w.m, k, LitsOpt(s.init), LitsOpt(s.test) + (LitsOpt(s.incr) + LitsS(s.loop)));
    LitsCat(w.m, f.k1, LitsOpt(s.test), LitsOpt(s.incr) + LitsS(s.loop));
    LitsCat(w.m, f.k2, LitsOpt(s.incr), LitsS(s.loop));
    OptLits(s.test);
  }

  lemma OptLits(e: Option<Expr>)
    ensures e.Some? ==> LitsOpt(e) == LitsE(e.value)
  {}

  lemma ForWf(s: Stmt, fs: Funcs, ng: nat, nl: nat)
    requires s.SFor? && WfS(s, fs, ng, nl)
    ensures WfOpt(s.init, fs, ng, nl) && WfOpt(s.test, fs, ng, nl) && WfOpt(s.incr, fs, ng, nl) && WfS(s.loop, fs, ng, nl)
    ensures s.test.Some? ==> WfE(s.test.value, fs, ng, nl)
  {
    hide WfE;
  }

  lemma ForPieces(m: Machine, pc: int, f: ForLayout, op: int)
    requires CodeAt(m, pc, f.ci + (f.ct + ([op, 4 + |f.cu|, OP_JUMP, 4 + |f.cu| + |f.cb|] +
        (f.cu + ([OP_JUMP, -(|f.ct| + |f.cu| + 6)] + (f.cb + [OP_JUMP, -(|f.cu| + |f.cb| + 4)]))))))
    ensures CodeAt(m, pc, f.ci) && CodeAt(m, CondPos(f, pc), f.ct) && CodeAt(m, IncrPos(f, pc), f.cu)
    ensures CodeAt(m, BodyPos(f, pc), f.cb)
    ensures Cells(m, BreakPos(f, pc) - 2, op, 4 + |f.cu|)
    ensures Cells(m, BreakPos(f, pc), OP_JUMP, 4 + |f.cu| + |f.cb|)
    ensures Cells(m, BodyPos(f, pc) - 2, OP_JUMP, -(|f.ct| + |f.cu| + 6))
    ensures Cells(m, EndPos(f, pc) - 2, OP_JUMP, -(|f.cu| + |f.cb| + 4))
  {
    hide CodeAt, Cells;
    var j0, j1 := [op, 4 + |f.cu|], [OP_JUMP, 4 + |f.cu| + |f.cb|];
    var j2, j3 := [OP_JUMP, -(|f.ct| + |f.cu| + 6)], [OP_JUMP, -(|f.cu| + |f.cb| + 4)];
    var tail := f.cu + (j2 + (f.cb + j3));
    assert [op, 4 + |f.cu|, OP_JUMP, 4 + |f.cu| + |f.cb|] + tail == j0 + (j1 + tail);
    CodeTwo(m, pc, f.ci, f.ct + (j0 + (j1 + tail)));
    CodeTwo(m, CondPos(f, pc), f.ct, j0 + (j1 + tail));
    CodeTwo(m, BreakPos(f, pc) - 2, j0, j1 + tail);
    CodeTwo(m, BreakPos(f, pc), j1, tail);
    CodeTwo(m, IncrPos(f, pc), f.cu, j2 + (f.cb + j3));
    CodeTwo(m, BodyPos(f, pc) - 2, j2, f.cb + j3);
    CodeTwo(m, BodyPos(f, pc), f.cb, j3);
    CellsAt(m, BreakPos(f, pc) - 2, op, 4 + |f.cu|);
    CellsAt(m, BreakPos(f, pc), OP_JUMP, 4 + |f.cu| + |f.cb|);
    CellsAt(m, BodyPos(f, pc) - 2, OP_JUMP, -(|f.ct| + |f.cu| + 6));
    CellsAt(m, EndPos(f, pc) - 2, OP_JUMP, -(|f.cu| + |f.cb| + 4));
  }

  /** n instructions from st realise the result r of a clause, leaving the stack as it was. */
  ghost predicate SimulatesO(m: Machine, st: State, n: nat, len: nat, cx: Ctx, r: EResult, fuel: nat) {
    match r
    case EOk(_, env) => Run(m, st, n) == Some(S(cx, env, [], st.ip + len))
    case ETimeout => n >= fuel && Run(m, st, n).Some?
  }

  lemma SimOpt(w: World, cx: Ctx, e: Option<Expr>, k: int, env: Env, pc: int, fuel: nat) returns (n: nat)
    requires ReadyO(w, cx, e, k, |env.globals|, |env.locals|, pc)
    ensures SimulatesO(w.m, S(cx, env, [], pc), n, |CodeSimple(e, k)|, cx, EvalOpt(w.fs, w.m.fp, e, env, fuel), fuel)
    decreases fuel, if e.Some? then ESize(e.value) else 0, 2
  {
    hide Base, CodeE, LitsE, Run, Step, Eval, Loaded, WfFuncs, WfE, CodeAt, LitsAt, Framed, ESize;
    if e.None? {
      n := 0;
      RunNone(w.m, S(cx, env, [], pc));
    } else {
      OptParts(w, cx, e, k, |env.globals|, |env.locals|, pc);
      n := SimE(w, cx, e.value, k, env, [], pc, fuel);
      n := DropAfter(w.m, cx, S(cx, env, [], pc), n, |CodeE(e.value, k)|, Eval(w.fs, w.m.fp, e.value, env, fuel), fuel);
    }
  }

  lemma OptParts(w: World, cx: Ctx, e: Option<Expr>, k: int, ng: nat, nl: nat, pc: int)
    requires ReadyO(w, cx, e, k, ng, nl, pc) && e.Some?
    ensures ReadyE(w, cx, e.value, k, ng, nl, pc) && |CodeSimple(e, k)| == |CodeE(e.value, k)| + 1
    ensures var p := pc + |CodeE(e.value, k)|; 0 <= p < |w.m.code| && w.m.code[p] == OP_DROP
  {
    hide CodeE, LitsE, Loaded, WfFuncs, WfE, CodeAt, LitsAt, Framed;
    var c := CodeE(e.value, k);
    CodeCat(w.m, pc, c, [OP_DROP]);
    CodeStart(w.m, pc, c);
    assert w.m.code[pc + |c| + 0] == OP_DROP;
  }

  /** A value is computed and dropped. */
  lemma DropAfter(m: Machine, cx: Ctx, st: State, n: nat, len: nat, r: EResult, fuel: nat) returns (n': nat)
    requires SimulatesE(m, st, n, len, cx, [], r, fuel) && 0 <= st.ip + len < |m.code| && m.code[st.ip + len] == OP_DROP
    ensures SimulatesO(m, st, n', len + 1, cx, r, fuel)
  {
    hide Base, Run, Step;
    n' := n;
    if r.EOk? {
      var pc := st.ip + len;
      DropStep(m, cx, r.env, Held(r.v), pc);
      assert [] + [Held(r.v)] == [Held(r.v)];
      Chain(m, st, n, S(cx, r.env, [Held(r.v)], pc), 1, Some(S(cx, r.env, [], pc + 1)));
      n' := n + 1;
    }
  }

  lemma SimFor(w: World, cx: Ctx, s: Stmt, k: int, d: Dest, env: Env, pc: int, fuel: nat) returns (n: nat, q: int)
    requires ReadyS(w, cx, s, k, d, |env.globals|, |env.locals|, pc) && s.SFor?
    ensures SimulatesS(w.m, S(cx, env, [], pc), n, q, |CodeS(s, k, d)|, d, cx, Exec(w.fs, w.m.fp, s, env, fuel), fuel)
    decreases fuel, SSize(s), 2
  {
    hide Base, CodeE, LitsE, CodeS, LitsS, CodeB, LitsB, Run, Step, Eval, EvalOpt, ExecB, Loaded, WfFuncs, WfE, WfS, WfB, WfOpt, CodeAt, LitsAt, Framed, ExecFor, Cells, CodeSimple, CodeOpt, LitsOpt;
    ForParts(w, cx, s, k, d, |env.globals|, |env.locals|, pc);
    var f := Layout(s, k, d);
    var p := CondPos(f, pc);
    n := SimOpt(w, cx, s.init, k, env, pc, fuel);
    q := p;
    var a := EvalOpt(w.fs, w.m.fp, s.init, env, fuel);
    if a.EOk? {
      var n2;
      n2, q := SimForLoop(w, cx, s, k, d, a.env, pc, fuel);
      Chain(w.m, S(cx, env, [], pc), n, S(cx, a.env, [], p), n2, Run(w.m, S(cx, a.env, [], p), n2));
      n := n + n2;
    }
  }

  /** A `for` loop from its condition on. */
  lemma SimForLoop(w: World, cx: Ctx, s: Stmt, k: int, d: Dest, env: Env, pc: int, fuel: nat) returns (n: nat, q: int)
    requires ReadyS(w, cx, s, k, d, |env.globals|, |env.locals|, pc) && s.SFor?
    ensures var f := Layout(s, k, d);
      SimulatesS(w.m, S(cx, env, [], CondPos(f, pc)), n, q, EndPos(f, pc) - CondPos(f, pc), Shift(d, |f.ci|), cx,
                 ExecFor(w.fs, w.m.fp, s, env, fuel), fuel)
    decreases fuel, SSize(s) - 1, 5
  {
    hide Base, CodeE, LitsE, CodeS, LitsS, CodeB, LitsB, Run, Step, Eval, EvalOpt, Exec, ExecB, Loaded, WfFuncs, WfE, WfS, WfB, WfOpt, CodeAt, LitsAt, Framed, ESize, Cells, CodeSimple, CodeOpt, LitsOpt;
    ForParts(w, cx, s, k, d, |env.globals|, |env.locals|, pc);
    var f := Layout(s, k, d);
    var p, b0, end := CondPos(f, pc), BodyPos(f, pc), EndPos(f, pc);
    var go;
    n, go := SimForTest(w, cx, s, k, d, env, pc, fuel);
    q := end;
    var a := EvalOpt(w.fs, w.m.fp, s.test, env, fuel);
    if a.EOk? && go {
      var s0, s1 := S(cx, env, [], p), S(cx, a.env, [], b0);
      var n2;
      n2, q := SimS(w, cx, s.loop, f.k3, BodyDest(f, d), a.env, b0, fuel);
      Chain(w.m, s0, n, s1, n2, Run(w.m, s1, n2));
      n := n + n2;
      var b := Exec(w.fs, w.m.fp, s.loop, a.env, fuel);
      if b.SOk? && !b.out.Returned? {
        var s2, n3 := S(cx, b.env, [], q), 0;
        n3, q := SimForNext(w, cx, s, k, d, b.env, pc, q, b.out, fuel);
        Chain(w.m, s0, n, s2, n3, Run(w.m, s2, n3));
        n := n + n3;
      }
    }
  }

  /** The condition and the jumps after it: on to the body, or out of the loop. */
  lemma SimForTest(w: World, cx: Ctx, s: Stmt, k: int, d: Dest, env: Env, pc: int, fuel: nat) returns (n: nat, go: bool)
    requires ReadyS(w, cx, s, k, d, |env.globals|, |env.locals|, pc) && s.SFor?
    ensures var f, a := Layout(s, k, d), EvalOpt(w.fs, w.m.fp, s.test, env, fuel);
      match a
      case EOk(v, env') =>
        && go == (s.test.None? || Truth(w.m.fp, v))
        && Run(w.m, S(cx, env, [], CondPos(f, pc)), n) == Some(S(cx, env', [], if go then BodyPos(f, pc) else EndPos(f, pc)))
        && n > 0
      case ETimeout => n >= fuel && Run(w.m, S(cx, env, [], CondPos(f, pc)), n).Some?
    decreases fuel, SSize(s) - 1, 4
  {
    hide Base, CodeE, LitsE, CodeS, LitsS, CodeB, LitsB, Run, Step, Eval, Exec, ExecFor, ExecB, Loaded, WfFuncs, WfE, WfS, WfB, WfOpt, CodeAt, LitsAt, Framed, CodeSimple, LitsOpt;
    ForParts(w, cx, s, k, d, |env.globals|, |env.locals|, pc);
    var f := Layout(s, k, d);
    var p, x := CondPos(f, pc), BreakPos(f, pc);
    var s0 := S(cx, env, [], p);
    if s.test.None? {
      JumpStep(w.m, cx, env, [], p);
      n, go := 1, true;
    } else {
      go := false;
      n := SimE(w, cx, s.test.value, f.k1, env, [], p, fuel);
      var a := Eval(w.fs, w.m.fp, s.test.value, env, fuel);
      if a.EOk? {
        go := Truth(w.m.fp, a.v);
        assert [] + [Held(a.v)] == [Held(a.v)];
        var s2 := TestStep(w.m, cx, a.env, [], x - 2, a.v);
        Chain(w.m, s0, n, S(cx, a.env, [Held(a.v)], x - 2), 1, Some(s2));
        n := n + 1;
        if !go {
          JumpStep(w.m, cx, a.env, [], x);
          Chain(w.m, s0, n, s2, 1, Some(S(cx, a.env, [], EndPos(f, pc))));
          n := n + 1;
        }
      }
    }
  }

  /** What a `for` loop does after its body. */
  function ForRestOf(w: World, s: Stmt, env: Env, out: Outcome, fuel: nat): SResult
    requires s.SFor? && WfFuncs(w.fs, |env.globals|) && WfS(s, w.fs, |env.globals|, |env.locals|)
  {
    if out.Broke? then SOk(Normal, env)
    else
      var b := EvalOpt(w.fs, w.m.fp, s.incr, env, fuel);
      if b.ETimeout? || fuel == 0 then STimeout else ExecFor(w.fs, w.m.fp, s, b.env, fuel - 1)
  }

  lemma SimForNext(w: World, cx: Ctx, s: Stmt, k: int, d: Dest, env: Env, pc: int, at: int, out: Outcome, fuel: nat)
    returns (n: nat, q: int)
    requires ReadyS(w, cx, s, k, d, |env.globals|, |env.locals|, pc) && s.SFor? && !out.Returned?
    requires var f := Layout(s, k, d); Lands(w.m, out, at, BodyPos(f, pc), |f.cb|, BodyDest(f, d))
    ensures var f := Layout(s, k, d);
      SimulatesS(w.m, S(cx, env, [], at), n, q, EndPos(f, pc) - at, Shift(d, at - pc), cx, ForRestOf(w, s, env, out, fuel), fuel)
    decreases fuel, SSize(s) - 1, 3
  {
    hide Base, CodeE, LitsE, CodeS, LitsS, CodeB, LitsB, Run, Step, Eval, EvalOpt, ExecB, Loaded, WfFuncs, WfE, WfS, WfB, WfOpt, CodeAt, LitsAt, Framed, Exec, ExecFor, CodeSimple, CodeOpt, LitsOpt;
    ForParts(w, cx, s, k, d, |env.globals|, |env.locals|, pc);
    var f := Layout(s, k, d);
    var s0 := S(cx, env, [], at);
    n, q := 0, at;
    assert Run(w.m, s0, 0) == Some(s0) by { RunNone(w.m, s0); }
    if !out.Continued? {
      JumpStep(w.m, cx, env, [], at);
      n, q := 1, if out.Broke? then EndPos(f, pc) else IncrPos(f, pc);
    }
    if !out.Broke? {
      var s1 := S(cx, env, [], q);
      var n2 := SimOpt(w, cx, s.incr, f.k2, env, q, fuel);
      Chain(w.m, s0, n, s1, n2, Run(w.m, s1, n2));
      n := n + n2;
      var b := EvalOpt(w.fs, w.m.fp, s.incr, env, fuel);
      if b.EOk? && fuel > 0 {
        var s2, s3 := S(cx, b.env, [], BodyPos(f, pc) - 2), S(cx, b.env, [], CondPos(f, pc));
        JumpStep(w.m, cx, b.env, [], BodyPos(f, pc) - 2);
        Chain(w.m, s0, n, s2, 1, Some(s3));
        var n3;
        n3, q := SimForLoop(w, cx, s, k, d, b.env, pc, fuel - 1);
        Chain(w.m, s0, n + 1, s3, n3, Run(w.m, s3, n3));
        n := n + 1 + n3;
      }
    }
  }
}
