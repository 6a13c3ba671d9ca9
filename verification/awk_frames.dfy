/** Call frames: what the call, function prologue and return instructions do to the stack. */
module AwkFrames {
  import opened AwkSyntax
  import opened AwkValues
  import opened AwkCode
  import opened AwkSpine
  import opened AwkCompiler
  import opened AwkSemantics
  import opened AwkVm
  import opened AwkEffects
  import opened Wrappers

  /** The five slots below the arguments: result, return address, saved parmbase, argument count, function. */
  function Header(ra: int, pb: int, nargs: int, fn: int): seq<Val> {
    [Held(NUMERIC_ZERO), Word(ra), Word(pb), Word(nargs), Word(fn)]
  }

  /** The callee's view of a stack whose caller part is below. */
  function Callee(cx: Ctx, env: Env, top: seq<Val>, h: seq<Val>): Ctx {
    Ctx(cx.pre, cx.mid + Numbers(env.locals) + top + h, |Base(cx, env)| + |top| + |h| - 1)
  }

  lemma PrepareEffect(m: Machine, cx: Ctx, env: Env, top: seq<Val>, pc: int)
    requires 0 <= pc && pc + 1 < |m.code| && m.code[pc] == OP_PREPCALL
    ensures Run(m, S(cx, env, top, pc), 1) == Some(S(cx, env, top + Header(0, 0, 0, m.code[pc + 1]), pc + 2))
  {
    hide Base, Run;
    Assoc(Base(cx, env), top, Header(0, 0, 0, m.code[pc + 1]));
    One(m, S(cx, env, top, pc), S(cx, env, top + Header(0, 0, 0, m.code[pc + 1]), pc + 2));
  }

  lemma CallEffect(m: Machine, below: seq<Val>, args: seq<Val>, pc: int, pb: int, fn: int)
    requires 0 <= pc && pc + 1 < |m.code| && m.code[pc] == TK_FUNC && m.code[pc + 1] == |args| && fn in m.funcs
    ensures Step(m, State(pc, below + Header(0, 0, 0, fn) + args, pb))
         == Next(State(m.funcs[fn].addr, below + Header(pc + 2, 0, |args|, fn) + args + [Word(|args|)], pb))
  {
    var s := below + Header(0, 0, 0, fn) + args;
    var k := |below| + 4;
    assert s[k] == Word(fn) && k == |s| - 1 - |args|;
    assert s[k + RETURN_ADDR := Word(pc + 2)][k + ARG_CNT := Word(|args|)] == below + Header(pc + 2, 0, |args|, fn) + args;
    assert Step(m, State(pc, s, pb)) == StepCall(m, State(pc + 2, s, pb), |args|);
  }

  /** The prologue's stack: parmbase saved in the header, arguments cut or padded to the parameters. */
  lemma EnterStack(below: seq<Val>, vs: seq<Value>, pb: int, ra: int, fn: int, np: nat, scalars: set<int>)
    ensures var k, h := |below| + 4, below + Header(ra, pb, |vs|, fn);
      var saved := (below + Header(ra, 0, |vs|, fn) + Numbers(vs))[k + PREV_PARMBASE := Word(pb)];
      && saved == h + Numbers(vs)
      && (|vs| > np ==> saved[..k + 1 + np] == h + Numbers(Frame(vs, np, scalars)))
      && (|vs| <= np ==> saved + Unpassed(|vs|, np, scalars) == h + Numbers(Frame(vs, np, scalars)))
  {
    hide Fresh;
    var k, h, args, l := |below| + 4, below + Header(ra, pb, |vs|, fn), Numbers(vs), Numbers(Frame(vs, np, scalars));
    var saved := (below + Header(ra, 0, |vs|, fn) + args)[k + PREV_PARMBASE := Word(pb)];
    assert saved == h + args;
    if |vs| > np {
      assert saved[..k + 1 + np] == h + l;
    } else {
      var pad := Unpassed(|vs|, np, scalars);
      assert args + pad == l;
      Assoc(h, args, pad);
    }
  }

  lemma EnterStep(m: Machine, st: State, fn: int)
    requires 0 <= st.ip && st.ip + 1 < |m.code| && m.code[st.ip] == TK_FUNCTION && m.code[st.ip + 1] == fn
    ensures Step(m, st) == StepEnter(m, State(st.ip + 2, st.stack, st.parmbase), fn)
  {
    hide StepUnary, StepBinary, StepAssign, StepIncr, StepTest, StepCall, StepReturn, StepEnter;
  }

  lemma EnterEffect(m: Machine, below: seq<Val>, vs: seq<Value>, pc: int, pb: int, ra: int, fn: int)
    requires 0 <= pc && pc + 1 < |m.code| && m.code[pc] == TK_FUNCTION && m.code[pc + 1] == fn
    requires fn in m.funcs && m.funcs[fn].nparms >= 0
    ensures Step(m, State(pc, below + Header(ra, 0, |vs|, fn) + Numbers(vs) + [Word(|vs|)], pb))
         == Next(State(pc + 2, below + Header(ra, pb, |vs|, fn) + Numbers(Frame(vs, m.funcs[fn].nparms, m.funcs[fn].scalars)), |below| + 4))
  {
    hide Step, Frame, Unpassed, Numbers;
    var s := below + Header(ra, 0, |vs|, fn) + Numbers(vs);
    var full := s + [Word(|vs|)];
    assert full[..|full| - 1] == s && full[|full| - 1] == Word(|vs|);
    EnterStack(below, vs, pb, ra, fn, m.funcs[fn].nparms, m.funcs[fn].scalars);
    EnterStep(m, State(pc, full, pb), fn);
  }

  /** The stack a function starts with is the callee's view of the caller's stack. */
  lemma CalleeBase(cx: Ctx, env: Env, top: seq<Val>, h: seq<Val>, l: seq<Value>)
    ensures Base(Callee(cx, env, top, h), Env(env.globals, l)) == Base(cx, env) + top + h + Numbers(l)
  {
    var a, g, ml := cx.pre, Numbers(env.globals), cx.mid + Numbers(env.locals);
    assert a + g + (ml + top + h) + Numbers(l) == a + g + ml + top + h + Numbers(l);
    assert a + g + ml == Base(cx, env);
  }

  lemma CalleeFramed(cx: Ctx, env: Env, top: seq<Val>, h: seq<Val>, nl: nat)
    requires Framed(cx, |env.globals|, |env.locals|)
    ensures Framed(Callee(cx, env, top, h), |env.globals|, nl)
  {}

  lemma ReturnEffect(m: Machine, below: seq<Val>, rest: seq<Val>, v: Value, pc: int, ra: int, pb: int, nargs: int, fn: int)
    requires 0 <= pc && pc + 1 < |m.code| && m.code[pc] == TK_RETURN
    ensures Step(m, State(pc, below + Header(ra, pb, nargs, fn) + rest + [Held(v)], |below| + 4))
         == Next(State(ra, below + [Held(Scalar(v))], pb))
  {
    var s := below + Header(ra, pb, nargs, fn) + rest + [Held(v)];
    var k := |below| + 4;
    assert s[k + RETURN_ADDR] == Word(ra) && s[k + PREV_PARMBASE] == Word(pb) && s[|s| - 1] == Held(v);
    assert s[..k + RETURN_VALUE] == below;
    assert Step(m, State(pc, s, k)) == StepReturn(State(pc + 2, s, k));
  }

  /** From the call instruction to the first instruction of the body. */
  lemma EnterRun(m: Machine, cx: Ctx, env: Env, top: seq<Val>, vs: seq<Value>, pc: int, fn: int)
    requires 0 <= pc && pc + 1 < |m.code| && m.code[pc] == TK_FUNC && m.code[pc + 1] == |vs| && fn in m.funcs
    requires var a := m.funcs[fn].addr; 0 <= a && a + 1 < |m.code| && m.code[a] == TK_FUNCTION && m.code[a + 1] == fn
    requires m.funcs[fn].nparms >= 0
    ensures Run(m, S(cx, env, top + Header(0, 0, 0, fn) + Numbers(vs), pc), 2)
         == Some(S(Callee(cx, env, top, Header(pc + 2, cx.pb, |vs|, fn)), Env(env.globals, Frame(vs, m.funcs[fn].nparms, m.funcs[fn].scalars)), [],
                   m.funcs[fn].addr + 2))
  {
    hide Base, Run, Step, Header, Callee;
    var below, a := Base(cx, env) + top, m.funcs[fn].addr;
    var h0, h1, h2 := Header(0, 0, 0, fn), Header(pc + 2, 0, |vs|, fn), Header(pc + 2, cx.pb, |vs|, fn);
    var l := Frame(vs, m.funcs[fn].nparms, m.funcs[fn].scalars);
    Assoc(Base(cx, env), top + h0, Numbers(vs));
    Assoc(Base(cx, env), top, h0);
    CallEffect(m, below, Numbers(vs), pc, cx.pb, fn);
    EnterEffect(m, below, vs, a, cx.pb, pc + 2, fn);
    var s0 := S(cx, env, top + h0 + Numbers(vs), pc);
    var s1 := State(a, below + h1 + Numbers(vs) + [Word(|vs|)], cx.pb);
    var s2 := S(Callee(cx, env, top, h2), Env(env.globals, l), [], a + 2);
    assert s2.stack == below + h2 + Numbers(l) by {
      CalleeBase(cx, env, top, h2, l);
      assert s2.stack == Base(Callee(cx, env, top, h2), Env(env.globals, l));
    }
    assert s2.parmbase == |below| + 4 by { CalleePb(cx, env, top, pc + 2, cx.pb, |vs|, fn); }
    One(m, s0, s1);
    One(m, s1, s2);
    Chain(m, s0, 1, s1, 1, Some(s2));
  }

  lemma CalleePb(cx: Ctx, env: Env, top: seq<Val>, ra: int, pb: int, nargs: int, fn: int)
    ensures Callee(cx, env, top, Header(ra, pb, nargs, fn)).pb == |Base(cx, env) + top| + 4
  {}

  /** Return from any state of the callee: the caller's ip, parmbase and stack come back, with one more value. */
  lemma ReturnRun(m: Machine, cx: Ctx, env: Env, top: seq<Val>, ra: int, nargs: int, fn: int, env': Env, v: Value, pc: int)
    requires 0 <= pc && pc + 1 < |m.code| && m.code[pc] == TK_RETURN
    requires |env'.globals| == |env.globals|
    ensures Run(m, S(Callee(cx, env, top, Header(ra, cx.pb, nargs, fn)), env', [Held(v)], pc), 1)
         == Some(S(cx, Env(env'.globals, env.locals), top + [Held(Scalar(v))], ra))
  {
    hide Base, Run, Step, Header, Callee;
    var h, caller := Header(ra, cx.pb, nargs, fn), Env(env'.globals, env.locals);
    var below := Base(cx, caller) + top;
    SameCallee(cx, env, caller, top, h);
    CalleeBase(cx, caller, top, h, env'.locals);
    CalleePb(cx, caller, top, ra, cx.pb, nargs, fn);
    ReturnEffect(m, below, Numbers(env'.locals), v, pc, ra, cx.pb, nargs, fn);
    PushTop(cx, caller, top, Held(Scalar(v)));
    assert Env(caller.globals, env'.locals) == env';
    One(m, S(Callee(cx, env, top, h), env', [Held(v)], pc), S(cx, caller, top + [Held(Scalar(v))], ra));
  }

  lemma SameCallee(cx: Ctx, env: Env, env': Env, top: seq<Val>, h: seq<Val>)
    requires |env'.globals| == |env.globals| && env'.locals == env.locals
    ensures Callee(cx, env, top, h) == Callee(cx, env', top, h)
  {}
}
