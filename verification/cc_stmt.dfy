/** Running the code of a statement does what the statement means, and runs on for as long as it does. */
module CcStmt {
  import opened CcInt
  import opened CcMachine
  import opened CcGen
  import opened CcValues
  import opened CcExpr
  import opened CcFlow
  import opened Wrappers

  /** The program, the frame its variables are in, and the type its function returns. */
  datatype Place = Place(p: seq<Insn>, fr: Frame, ret: Ty)

  /** Where break, continue and return lead. */
  datatype Exits = Exits(brk: int, cont: int, ret: int)

  predicate LabelAt(p: seq<Insn>, i: int, l: Label) { 0 <= i < |p| && p[i] == Lbl(l) }

  predicate ExitsAt(p: seq<Insn>, x: Exits, lp: nat, inLoop: bool) {
    LabelAt(p, x.ret, Label(LReturn, 0)) && (inLoop ==> LabelAt(p, x.brk, Label(LBrk, lp)) && LabelAt(p, x.cont, Label(LCont, lp)))
  }

  ghost predicate Sound(g: Place) { UniqueLabels(g.p) && Laid(g.fr) }

  /** After n instructions the machine is at pc with the variables as in env, the stack and all other memory unharmed. */
  ghost predicate Arrives(g: Place, st: State, n: nat, pc: int, env: Env) {
    |g.fr.offs| == |g.fr.vars| && Run(g.p, st, n).Some? && var s := Run(g.p, st, n).value; s.pc == pc && Holds(s, g.fr, env) && Kept(st, s, g.fr)
  }

  /** The machine's variables are as in env. */
  ghost predicate Good(g: Place, st: State, env: Env) { |g.fr.offs| == |g.fr.vars| && Holds(st, g.fr, env) && Fits(env, g.fr.vars) }

  /** After n instructions the machine is where outcome r says: pc is the end of the code. */
  ghost predicate Ends(g: Place, st: State, n: nat, pc: int, x: Exits, r: Outcome, fuel: nat) {
    match r
    case Normal(env) => Arrives(g, st, n, pc, env)
    case Broke(env) => Arrives(g, st, n, x.brk, env)
    case Continued(env) => Arrives(g, st, n, x.cont, env)
    case Returned(v, env) => Arrives(g, st, n, x.ret, env) && (v.Some? ==> Rep(g.ret, v.value, Run(g.p, st, n).value.rax))
    case Stuck => true
    case Timeout => n >= fuel && Run(g.p, st, n).Some?
  }

  ghost predicate ReadyS(g: Place, s: Stmt, k: nat, lp: nat, inLoop: bool, pc: int, x: Exits) {
    && Sound(g) && WfS(s, g.fr.vars, inLoop) && TypedS(s, g.fr.vars, g.ret, inLoop) && |g.fr.offs| == |g.fr.vars|
    && CodeAt(g.p, pc, GenS(s, g.fr.vars, g.fr.offs, k, lp, inLoop)) && ExitsAt(g.p, x, lp, inLoop)
  }

  /** Running the code of s, at st.pc, does what s means. */
  ghost predicate Done(g: Place, s: Stmt, k: nat, lp: nat, inLoop: bool, x: Exits, st: State, env: Env, fuel: nat, n: nat) {
    && WfS(s, g.fr.vars, inLoop) && |g.fr.offs| == |g.fr.vars| && Fits(env, g.fr.vars)
    && Ends(g, st, n, st.pc + |GenS(s, g.fr.vars, g.fr.offs, k, lp, inLoop)|, x, Exec(s, g.fr.vars, g.ret, env, fuel, inLoop), fuel)
  }

  // ---------- putting runs together ----------

  lemma ArrivesAfter(g: Place, st: State, n: nat, env1: Env, pc1: int, k: nat, pc: int, env: Env)
    requires Arrives(g, st, n, pc1, env1) && Arrives(g, Run(g.p, st, n).value, k, pc, env)
    ensures Arrives(g, st, n + k, pc, env) && Run(g.p, st, n + k) == Run(g.p, Run(g.p, st, n).value, k)
  {
    hide Run, Holds, Kept;
    var mid := Run(g.p, st, n).value;
    Chain(g.p, st, n, mid, k, Run(g.p, mid, k));
    KeptTwice(st, mid, Run(g.p, mid, k).value, g.fr);
  }

  /** What happens from a state reached after n instructions happens from the first state; n at least d more fuel is accounted for. */
  lemma EndsAfter(g: Place, st: State, n: nat, pc1: int, env1: Env, k: nat, pc: int, x: Exits, r: Outcome, fuel: nat, d: nat)
    requires Arrives(g, st, n, pc1, env1) && d <= n
    requires Ends(g, Run(g.p, st, n).value, k, pc, x, r, fuel)
    ensures Ends(g, st, n + k, pc, x, r, fuel + d)
  {
    hide Run, Holds, Kept, Rep;
    var mid := Run(g.p, st, n).value;
    match r
    case Normal(env) => ArrivesAfter(g, st, n, env1, pc1, k, pc, env);
    case Broke(env) => ArrivesAfter(g, st, n, env1, pc1, k, x.brk, env);
    case Continued(env) => ArrivesAfter(g, st, n, env1, pc1, k, x.cont, env);
    case Returned(_, env) => ArrivesAfter(g, st, n, env1, pc1, k, x.ret, env);
    case Stuck =>
    case Timeout => Chain(g.p, st, n, mid, k, Run(g.p, mid, k));
  }

  /** One more instruction that only moves on: a label or a jump. */
  lemma StepTo(g: Place, st: State, n: nat, pc1: int, pc: int, env: Env)
    requires Arrives(g, st, n, pc1, env)
    requires var s := Run(g.p, st, n).value; Run(g.p, s, 1) == Some(s.(pc := pc))
    ensures Arrives(g, st, n + 1, pc, env)
  {
    hide Run, Holds, Kept;
    var s := Run(g.p, st, n).value;
    Chain(g.p, st, n, s, 1, Some(s.(pc := pc)));
    SamePlace(st, s, s.(pc := pc), g.fr, env);
  }

  lemma PassTo(g: Place, st: State, n: nat, pc: int, l: Label, env: Env)
    requires Arrives(g, st, n, pc, env) && LabelAt(g.p, pc, l)
    ensures Arrives(g, st, n + 1, pc + 1, env)
  {
    hide Run, Holds, Kept;
    PassLabel(g.p, Run(g.p, st, n).value, l);
    StepTo(g, st, n, pc, pc + 1, env);
  }

  lemma GoesTo(g: Place, st: State, n: nat, pc: int, l: Label, target: int, env: Env)
    requires UniqueLabels(g.p) && Arrives(g, st, n, pc, env)
    requires CodeAt(g.p, pc, [Jmp(l)]) && LabelAt(g.p, target, l)
    ensures Arrives(g, st, n + 1, target, env)
  {
    hide Run, Holds, Kept, UniqueLabels, CodeAt;
    JumpRun(g.p, Run(g.p, st, n).value, l, target);
    StepTo(g, st, n, pc, target, env);
  }

  lemma Here(g: Place, st: State, env: Env)
    requires Good(g, st, env)
    ensures Arrives(g, st, 0, st.pc, env)
  {
    hide Run, Holds;
    RunNone(g.p, st);
  }

  /** The state that has been reached. */
  lemma At(g: Place, st: State, n: nat, pc: int, env: Env) returns (s: State)
    requires Arrives(g, st, n, pc, env)
    ensures Run(g.p, st, n) == Some(s) && s.pc == pc && Good(g, s, env)
  {
    hide Run;
    s := Run(g.p, st, n).value;
  }

  // ---------- expressions and tests ----------

  /** An expression at position st.pc. */
  lemma SimExpr(g: Place, e: Expr, k: nat, st: State, env: Env) returns (n: nat)
    requires Ready(g.p, g.fr, e, k, st.pc) && Good(g, st, env) && Eval(e, g.fr.vars, env).Ok?
    ensures var r := Eval(e, g.fr.vars, env);
      && Arrives(g, st, n, st.pc + |Gen(e, g.fr.vars, g.fr.offs, k)|, r.env)
      && Rep(TypeOf(e, g.fr.vars), r.v, Run(g.p, st, n).value.rax)
  {
    n := SimE(g.p, g.fr, e, k, st, env);
  }

  /** A condition and the jump that depends on it. */
  lemma SimTest(g: Place, c: Expr, k: nat, st: State, env: Env, jne: bool, l: Label, target: int) returns (n: nat)
    requires Sound(g) && Good(g, st, env) && Wf(c, g.fr.vars) && Typed(c, g.fr.vars) && Eval(c, g.fr.vars, env).Ok?
    requires CodeAt(g.p, st.pc, Gen(c, g.fr.vars, g.fr.offs, k) + [CmpZero(Size(TypeOf(c, g.fr.vars))), TestJump(jne, l)])
    requires LabelAt(g.p, target, l)
    ensures var a := Eval(c, g.fr.vars, env);
      Arrives(g, st, n, if (a.v == 0) != jne then target else st.pc + |Gen(c, g.fr.vars, g.fr.offs, k)| + 2, a.env)
  {
    hide Run, Holds, Kept, UniqueLabels, CodeAt, Laid, Gen, Eval, Rep, Wf, Typed, TypeOf;
    Framed(st, g.fr, env);
    var code, t := Gen(c, g.fr.vars, g.fr.offs, k), TypeOf(c, g.fr.vars);
    CodeCat(g.p, st.pc, code, [CmpZero(Size(t)), TestJump(jne, l)]);
    n := SimExpr(g, c, k, st, env);
    var a := Eval(c, g.fr.vars, env);
    var s1 := Run(g.p, st, n).value;
    var s2 := TestRun(g.p, s1, t, a.v, jne, l, target);
    Chain(g.p, st, n, s1, 2, Some(s2));
    SamePlace(st, s1, s2, g.fr, a.env);
    n := n + 2;
  }

  // ---------- loops ----------

  /** A loop in the program: its parts, its number, the first labels of its head, body and tail, and where it begins. */
  datatype LoopAt = LoopAt(l: LoopParts, k: nat, kh: nat, kb: nat, kt: nat, pc: int)

  function Head(g: Place, a: LoopAt): seq<Insn>
    requires WfL(a.l, g.fr.vars) && |g.fr.offs| == |g.fr.vars|
  {
    if a.l.Before? then TestCode(a.l.test, g.fr.vars, g.fr.offs, a.kh, a.k) else []
  }

  function Body(g: Place, a: LoopAt): seq<Insn>
    requires WfL(a.l, g.fr.vars) && |g.fr.offs| == |g.fr.vars|
  {
    GenS(a.l.body, g.fr.vars, g.fr.offs, a.kb, a.k, true)
  }

  function Tail(g: Place, a: LoopAt): seq<Insn>
    requires WfL(a.l, g.fr.vars) && |g.fr.offs| == |g.fr.vars|
  {
    if a.l.Before? then AgainCode(a.l.inc, g.fr.vars, g.fr.offs, a.kt, a.k) else UntilCode(a.l.c, g.fr.vars, g.fr.offs, a.kt, a.k)
  }

  predicate TypedL(l: LoopParts, vars: seq<Ty>, ret: Ty)
    requires WfL(l, vars)
  {
    TypedS(l.body, vars, ret, true) && if l.Before? then TypedOpt(l.test, vars) && TypedOpt(l.inc, vars) else Typed(l.c, vars)
  }

  ghost predicate ReadyL(g: Place, a: LoopAt, x: Exits) {
    && Sound(g) && WfL(a.l, g.fr.vars) && TypedL(a.l, g.fr.vars, g.ret) && |g.fr.offs| == |g.fr.vars|
    && CodeAt(g.p, a.pc, LoopCode(Head(g, a), Body(g, a), Tail(g, a), a.k)) && LabelAt(g.p, x.ret, Label(LReturn, 0))
  }

  function BodyPos(g: Place, a: LoopAt): int
    requires WfL(a.l, g.fr.vars) && |g.fr.offs| == |g.fr.vars|
  {
    a.pc + 1 + |Head(g, a)|
  }

  function ContPos(g: Place, a: LoopAt): int
    requires WfL(a.l, g.fr.vars) && |g.fr.offs| == |g.fr.vars|
  {
    BodyPos(g, a) + |Body(g, a)|
  }

  function BrkPos(g: Place, a: LoopAt): int
    requires WfL(a.l, g.fr.vars) && |g.fr.offs| == |g.fr.vars|
  {
    ContPos(g, a) + 1 + |Tail(g, a)|
  }

  lemma OneLabel(p: seq<Insn>, pc: int, l: Label)
    requires CodeAt(p, pc, [Lbl(l)])
    ensures LabelAt(p, pc, l)
  {
    assert p[pc..pc + 1][0] == Lbl(l);
  }

  lemma LoopLayout(p: seq<Insn>, pc: int, head: seq<Insn>, body: seq<Insn>, tail: seq<Insn>, k: nat)
    requires CodeAt(p, pc, LoopCode(head, body, tail, k))
    ensures var b := pc + 1 + |head|; var c := b + |body|; var e := c + 1 + |tail|;
      && LabelAt(p, pc, Label(LBegin, k)) && CodeAt(p, pc + 1, head) && CodeAt(p, b, body) && LabelAt(p, c, Label(LCont, k))
      && CodeAt(p, c + 1, tail) && LabelAt(p, e, Label(LBrk, k)) && |LoopCode(head, body, tail, k)| == e + 1 - pc
  {
    hide CodeAt, LabelAt;
    var cont, brk := [Lbl(Label(LCont, k))], [Lbl(Label(LBrk, k))];
    Cat3(p, pc, [Lbl(Label(LBegin, k))], head, body + (cont + (tail + brk)));
    Cat3(p, pc + 1 + |head|, body, cont, tail + brk);
    CodeCat(p, pc + 1 + |head| + |body| + 1, tail, brk);
    OneLabel(p, pc, Label(LBegin, k));
    OneLabel(p, pc + 1 + |head| + |body|, Label(LCont, k));
    OneLabel(p, pc + 1 + |head| + |body| + 1 + |tail|, Label(LBrk, k));
  }

  /** Where the parts of a loop are. */
  lemma LoopPlaces(g: Place, a: LoopAt, x: Exits)
    requires ReadyL(g, a, x)
    ensures WfL(a.l, g.fr.vars) && |g.fr.offs| == |g.fr.vars| && LabelAt(g.p, a.pc, Label(LBegin, a.k))
    ensures LabelAt(g.p, ContPos(g, a), Label(LCont, a.k)) && LabelAt(g.p, BrkPos(g, a), Label(LBrk, a.k))
    ensures CodeAt(g.p, a.pc + 1, Head(g, a)) && CodeAt(g.p, BodyPos(g, a), Body(g, a)) && CodeAt(g.p, ContPos(g, a) + 1, Tail(g, a))
    ensures |LoopCode(Head(g, a), Body(g, a), Tail(g, a), a.k)| == BrkPos(g, a) + 1 - a.pc
  {
    hide LoopCode, CodeAt, LabelAt, Head, Body, Tail;
    LoopLayout(g.p, a.pc, Head(g, a), Body(g, a), Tail(g, a), a.k);
  }

  lemma BodyReady(g: Place, a: LoopAt, x: Exits)
    requires ReadyL(g, a, x)
    ensures ReadyS(g, a.l.body, a.kb, a.k, true, BodyPos(g, a), Exits(BrkPos(g, a), ContPos(g, a), x.ret))
  {
    LoopPlaces(g, a, x);
    hide CodeAt, LabelAt, Head, Tail, GenS, WfS, TypedS, UniqueLabels, Laid, LoopCode;
  }

  /** The test before the body leads to the body or behind the loop. */
  ghost predicate Heads(g: Place, a: LoopAt, st: State, env: Env, n: nat) {
    && WfL(a.l, g.fr.vars) && |g.fr.offs| == |g.fr.vars| && Fits(env, g.fr.vars)
    && var r := Enter(a.l, g.fr.vars, env); r.Ok? && Arrives(g, st, n, if r.v == 0 then BrkPos(g, a) else BodyPos(g, a), r.env)
  }

  /** What follows the body leads back to the beginning or behind the loop. */
  ghost predicate Tails(g: Place, a: LoopAt, st: State, env: Env, n: nat) {
    && WfL(a.l, g.fr.vars) && |g.fr.offs| == |g.fr.vars| && Fits(env, g.fr.vars)
    && var r := Again(a.l, g.fr.vars, env); r.Ok? && Arrives(g, st, n, if r.v == 0 then BrkPos(g, a) else a.pc, r.env)
  }

  lemma HeadReady(g: Place, a: LoopAt, x: Exits)
    requires ReadyL(g, a, x) && a.l.Before? && a.l.test.Some?
    ensures Sound(g) && WfL(a.l, g.fr.vars) && |g.fr.offs| == |g.fr.vars|
    ensures var c := a.l.test.value; var l := Label(LBrk, a.k);
      && Wf(c, g.fr.vars) && Typed(c, g.fr.vars) && LabelAt(g.p, BrkPos(g, a), l)
      && CodeAt(g.p, a.pc + 1, Gen(c, g.fr.vars, g.fr.offs, a.kh) + [CmpZero(Size(TypeOf(c, g.fr.vars))), TestJump(false, l)])
      && BodyPos(g, a) == a.pc + 1 + |Gen(c, g.fr.vars, g.fr.offs, a.kh)| + 2
  {
    LoopPlaces(g, a, x);
    hide UniqueLabels, CodeAt, LabelAt, Laid, Gen, LoopCode, GenS, BrkPos, Wf, Typed, WfS, TypedS, TypeOf;
  }

  lemma SimHead(g: Place, a: LoopAt, x: Exits, st: State, env: Env) returns (n: nat)
    requires ReadyL(g, a, x) && Good(g, st, env) && st.pc == a.pc + 1 && WfL(a.l, g.fr.vars) && |g.fr.offs| == |g.fr.vars| && Fits(env, g.fr.vars)
    requires Enter(a.l, g.fr.vars, env).Ok?
    ensures Heads(g, a, st, env, n)
  {
    hide Arrives, CodeAt, LabelAt, Gen, Eval, BrkPos, Wf, Typed, ReadyL, Good, WfS, TypeOf, Sound, Fits;
    if a.l.Before? && a.l.test.Some? {
      HeadReady(g, a, x);
      n := SimTest(g, a.l.test.value, a.kh, st, env, false, Label(LBrk, a.k), BrkPos(g, a));
    } else {
      n := 0;
      Here(g, st, env);
    }
  }

  lemma UntilReady(g: Place, a: LoopAt, x: Exits)
    requires ReadyL(g, a, x) && a.l.After?
    ensures Sound(g) && WfL(a.l, g.fr.vars) && |g.fr.offs| == |g.fr.vars|
    ensures var c := a.l.c; var l := Label(LBegin, a.k);
      && Wf(c, g.fr.vars) && Typed(c, g.fr.vars) && LabelAt(g.p, a.pc, l)
      && CodeAt(g.p, ContPos(g, a) + 1, Gen(c, g.fr.vars, g.fr.offs, a.kt) + [CmpZero(Size(TypeOf(c, g.fr.vars))), TestJump(true, l)])
      && BrkPos(g, a) == ContPos(g, a) + 1 + |Gen(c, g.fr.vars, g.fr.offs, a.kt)| + 2
  {
    LoopPlaces(g, a, x);
    hide UniqueLabels, CodeAt, LabelAt, Laid, Gen, LoopCode, GenS, ContPos, Wf, Typed, WfS, TypedS, TypeOf;
  }

  lemma SimTail(g: Place, a: LoopAt, x: Exits, st: State, env: Env) returns (n: nat)
    requires ReadyL(g, a, x) && Good(g, st, env) && WfL(a.l, g.fr.vars) && |g.fr.offs| == |g.fr.vars| && Fits(env, g.fr.vars)
    requires st.pc == ContPos(g, a) + 1 && Again(a.l, g.fr.vars, env).Ok?
    ensures Tails(g, a, st, env, n)
  {
    hide Arrives, CodeAt, LabelAt, Gen, Eval, BrkPos, ContPos, Wf, Typed, ReadyL, Good, WfS, TypeOf, Sound, Fits;
    if a.l.After? {
      UntilReady(g, a, x);
      n := SimTest(g, a.l.c, a.kt, st, env, true, Label(LBegin, a.k), a.pc);
    } else {
      n := SimAgain(g, a, x, st, env);
    }
  }

  lemma AgainReady(g: Place, a: LoopAt, x: Exits, pc: int)
    requires ReadyL(g, a, x) && a.l.Before? && pc == ContPos(g, a) + 1
    ensures WfOpt(a.l.inc, g.fr.vars) && |g.fr.offs| == |g.fr.vars| && UniqueLabels(g.p) && LabelAt(g.p, a.pc, Label(LBegin, a.k))
    ensures var c := GenOpt(a.l.inc, g.fr.vars, g.fr.offs, a.kt);
      CodeAt(g.p, pc + |c|, [Jmp(Label(LBegin, a.k))]) && (a.l.inc.Some? ==> Ready(g.p, g.fr, a.l.inc.value, a.kt, pc))
  {
    LoopPlaces(g, a, x);
    hide UniqueLabels, CodeAt, LabelAt, Laid, Gen, LoopCode, GenS, ContPos, Head, Body, Wf, Typed, WfS, TypedS;
    CodeCat(g.p, pc, GenOpt(a.l.inc, g.fr.vars, g.fr.offs, a.kt), [Jmp(Label(LBegin, a.k))]);
  }

  lemma AgainIs(g: Place, a: LoopAt, st: State, env: Env)
    requires WfL(a.l, g.fr.vars) && Good(g, st, env) && a.l.Before?
    ensures WfOpt(a.l.inc, g.fr.vars) && Fits(env, g.fr.vars)
    ensures var r := EvalOpt(a.l.inc, g.fr.vars, env);
      && Again(a.l, g.fr.vars, env) == (if r.Ok? then Ok(1, r.env) else Undefined)
      && (a.l.inc.Some? ==> Wf(a.l.inc.value, g.fr.vars) && r == Eval(a.l.inc.value, g.fr.vars, env)) && (a.l.inc.None? ==> r == Ok(1, env))
  {
    hide Eval, Wf, WfS, Fits, Holds;
  }

  lemma SimAgain(g: Place, a: LoopAt, x: Exits, st: State, env: Env) returns (n: nat)
    requires ReadyL(g, a, x) && Good(g, st, env) && a.l.Before? && WfL(a.l, g.fr.vars) && |g.fr.offs| == |g.fr.vars|
    requires st.pc == ContPos(g, a) + 1 && Fits(env, g.fr.vars) && Again(a.l, g.fr.vars, env).Ok?
    ensures Arrives(g, st, n, a.pc, Again(a.l, g.fr.vars, env).env)
  {
    hide *;
    AgainReady(g, a, x, st.pc);
    AgainIs(g, a, st, env);
    var c := GenOpt(a.l.inc, g.fr.vars, g.fr.offs, a.kt);
    n := AgainValue(g, a, st, env);
    GoesTo(g, st, n, st.pc + |c|, Label(LBegin, a.k), a.pc, Again(a.l, g.fr.vars, env).env);
    n := n + 1;
  }

  lemma AgainValue(g: Place, a: LoopAt, st: State, env: Env) returns (n: nat)
    requires a.l.Before? && WfOpt(a.l.inc, g.fr.vars) && |g.fr.offs| == |g.fr.vars| && Good(g, st, env)
    requires a.l.inc.Some? ==> Ready(g.p, g.fr, a.l.inc.value, a.kt, st.pc)
    requires EvalOpt(a.l.inc, g.fr.vars, env).Ok?
    ensures Arrives(g, st, n, st.pc + |GenOpt(a.l.inc, g.fr.vars, g.fr.offs, a.kt)|, EvalOpt(a.l.inc, g.fr.vars, env).env)
  {
    hide Ready, Arrives, Gen, Eval, Wf, Fits, Holds, Rep, TypeOf;
    if a.l.inc.Some? {
      n := SimExpr(g, a.l.inc.value, a.kt, st, env);
    } else {
      n := 0;
      Here(g, st, env);
    }
  }

  /** Running the loop does what it means. */
  ghost predicate DoneL(g: Place, a: LoopAt, x: Exits, st: State, env: Env, fuel: nat, n: nat) {
    && WfL(a.l, g.fr.vars) && |g.fr.offs| == |g.fr.vars| && Fits(env, g.fr.vars)
    && Ends(g, st, n, BrkPos(g, a) + 1, x, Loop(a.l, g.fr.vars, g.ret, env, fuel), fuel)
  }

  /** The body, begun in st, has ended as r says after n instructions. */
  ghost predicate BodyDone(g: Place, a: LoopAt, x: Exits, st: State, r: Outcome, fuel: nat, n: nat) {
    && WfL(a.l, g.fr.vars) && |g.fr.offs| == |g.fr.vars| && Fitting(r, g.fr.vars, true)
    && Ends(g, st, n, ContPos(g, a), Exits(BrkPos(g, a), ContPos(g, a), x.ret), r, fuel)
  }

  /** ... and the loop goes on as it should. */
  ghost predicate TailDone(g: Place, a: LoopAt, x: Exits, st: State, r: Outcome, fuel: nat, n: nat) {
    && WfL(a.l, g.fr.vars) && |g.fr.offs| == |g.fr.vars| && Fitting(r, g.fr.vars, true)
    && Ends(g, st, n, BrkPos(g, a) + 1, x, LoopTail(a.l, g.fr.vars, g.ret, r, fuel), fuel)
  }

  lemma LoopWf(g: Place, a: LoopAt, x: Exits, st: State, env: Env)
    requires ReadyL(g, a, x) && Good(g, st, env)
    ensures WfL(a.l, g.fr.vars) && WfS(a.l.body, g.fr.vars, true) && |g.fr.offs| == |g.fr.vars| && Fits(env, g.fr.vars)
  {
    hide CodeAt, LabelAt, WfS, TypedL, Laid, UniqueLabels, Fits, Holds;
  }

  /** Outcomes of the beginning of an iteration. */
  lemma IterationOver(g: Place, a: LoopAt, x: Exits, st: State, env: Env, fuel: nat, n: nat)
    requires WfL(a.l, g.fr.vars) && WfS(a.l.body, g.fr.vars, true) && |g.fr.offs| == |g.fr.vars| && Fits(env, g.fr.vars)
    requires fuel == 0 || (var r := Enter(a.l, g.fr.vars, env); r.Undefined? || (r.v == 0 && Arrives(g, st, n, BrkPos(g, a) + 1, r.env)))
    requires Run(g.p, st, n).Some?
    ensures DoneL(g, a, x, st, env, fuel, n)
  {
    hide Run, WfL, WfS, Fits, Enter, BrkPos, Arrives, LoopTail, Exec;
  }

  /** A loop whose test succeeds goes on with its body. */
  lemma IterationBegun(g: Place, a: LoopAt, x: Exits, st: State, env: Env, fuel: nat, n: nat, pc1: int, m: nat)
    requires WfL(a.l, g.fr.vars) && WfS(a.l.body, g.fr.vars, true) && |g.fr.offs| == |g.fr.vars| && Fits(env, g.fr.vars) && fuel > 0 && n > 0
    requires var r := Enter(a.l, g.fr.vars, env);
      && r.Ok? && r.v != 0 && Arrives(g, st, n, pc1, r.env)
      && TailDone(g, a, x, Run(g.p, st, n).value, Exec(a.l.body, g.fr.vars, g.ret, r.env, fuel - 1, true), fuel - 1, m)
    ensures DoneL(g, a, x, st, env, fuel, n + m)
  {
    hide Run, WfL, WfS, Fits, Enter, BrkPos, Arrives, LoopTail, Exec, Ends, Loop, Fitting;
    LoopStep(a.l, g.fr.vars, g.ret, env, fuel);
    EndsAfter(g, st, n, pc1, Enter(a.l, g.fr.vars, env).env, m, BrkPos(g, a) + 1, x, Loop(a.l, g.fr.vars, g.ret, env, fuel), fuel - 1, 1);
  }

  lemma BodyEnds(g: Place, a: LoopAt, x: Exits, st: State, env: Env, fuel: nat, n: nat)
    requires WfL(a.l, g.fr.vars) && |g.fr.offs| == |g.fr.vars| && WfS(a.l.body, g.fr.vars, true) && Fits(env, g.fr.vars) && st.pc == BodyPos(g, a)
    requires Done(g, a.l.body, a.kb, a.k, true, Exits(BrkPos(g, a), ContPos(g, a), x.ret), st, env, fuel, n)
    ensures BodyDone(g, a, x, st, Exec(a.l.body, g.fr.vars, g.ret, env, fuel, true), fuel, n)
  {
    hide Run, WfL, WfS, Fits, BrkPos, BodyPos, GenS, Arrives, Exec, Ends, Fitting;
  }

  lemma HeadPlace(g: Place, a: LoopAt, st: State, env: Env, n: nat)
    requires Heads(g, a, st, env, n) && WfL(a.l, g.fr.vars) && |g.fr.offs| == |g.fr.vars| && Fits(env, g.fr.vars)
    ensures var r := Enter(a.l, g.fr.vars, env); r.Ok? && Arrives(g, st, n, if r.v == 0 then BrkPos(g, a) else BodyPos(g, a), r.env)
  {
    hide WfL, Fits, BrkPos, BodyPos, Arrives, Enter;
  }

  lemma TailPlace(g: Place, a: LoopAt, st: State, env: Env, n: nat)
    requires Tails(g, a, st, env, n) && WfL(a.l, g.fr.vars) && |g.fr.offs| == |g.fr.vars| && Fits(env, g.fr.vars)
    ensures var r := Again(a.l, g.fr.vars, env); r.Ok? && Arrives(g, st, n, if r.v == 0 then BrkPos(g, a) else a.pc, r.env)
  {
    hide WfL, Fits, BrkPos, Arrives, Again;
  }

  /** A loop, from its beginning. */
  lemma {:induction false} SimLoop(g: Place, a: LoopAt, x: Exits, st: State, env: Env, fuel: nat) returns (n: nat)
    requires ReadyL(g, a, x) && Good(g, st, env) && st.pc == a.pc
    ensures DoneL(g, a, x, st, env, fuel, n)
    decreases fuel, a.l.body, 1
  {
    hide *;
    LoopWf(g, a, x, st, env);
    LoopPlaces(g, a, x);
    n := 0;
    RunNone(g.p, st);
    if fuel == 0 || Enter(a.l, g.fr.vars, env).Undefined? {
      IterationOver(g, a, x, st, env, fuel, 0);
    } else {
      var r := Enter(a.l, g.fr.vars, env);
      Here(g, st, env);
      PassTo(g, st, 0, a.pc, Label(LBegin, a.k), env);
      var s1 := At(g, st, 1, a.pc + 1, env);
      var n1 := SimHead(g, a, x, s1, env);
      HeadPlace(g, a, s1, env, n1);
      var pc1 := if r.v == 0 then BrkPos(g, a) else BodyPos(g, a);
      ArrivesAfter(g, st, 1, env, a.pc + 1, n1, pc1, r.env);
      n := 1 + n1;
      if r.v == 0 {
        PassTo(g, st, n, pc1, Label(LBrk, a.k), r.env);
        n := n + 1;
        var s2 := At(g, st, n, pc1 + 1, r.env);
        IterationOver(g, a, x, st, env, fuel, n);
      } else {
        var s2 := At(g, st, n, pc1, r.env);
        BodyReady(g, a, x);
        var n2 := SimS(g, a.l.body, a.kb, a.k, true, Exits(BrkPos(g, a), ContPos(g, a), x.ret), s2, r.env, fuel - 1);
        BodyEnds(g, a, x, s2, r.env, fuel - 1, n2);
        var n3 := SimLoopTail(g, a, x, s2, n2, Exec(a.l.body, g.fr.vars, g.ret, r.env, fuel - 1, true), fuel - 1);
        IterationBegun(g, a, x, st, env, fuel, n, pc1, n3);
        n := n + n3;
      }
    }
  }

  lemma BodyPlace(g: Place, a: LoopAt, x: Exits, st: State, r: Outcome, fuel: nat, n: nat)
    requires BodyDone(g, a, x, st, r, fuel, n)
    ensures WfL(a.l, g.fr.vars) && |g.fr.offs| == |g.fr.vars| && Fitting(r, g.fr.vars, true)
    ensures r.Normal? || r.Continued? ==> Arrives(g, st, n, ContPos(g, a), r.env) && Fits(r.env, g.fr.vars)
    ensures r.Broke? ==> Arrives(g, st, n, BrkPos(g, a), r.env)
  {
    hide WfL, BrkPos, ContPos, Arrives, Fits;
  }

  /** No iteration follows. */
  lemma TailOver(g: Place, a: LoopAt, x: Exits, st: State, r: Outcome, fuel: nat, n: nat, m: nat)
    requires BodyDone(g, a, x, st, r, fuel, n)
    requires r.Broke? ==> WfL(a.l, g.fr.vars) && |g.fr.offs| == |g.fr.vars| && Arrives(g, st, m, BrkPos(g, a) + 1, r.env)
    requires r.Normal? || r.Continued? ==>
      && WfL(a.l, g.fr.vars) && |g.fr.offs| == |g.fr.vars| && Fits(r.env, g.fr.vars)
      && var v := Again(a.l, g.fr.vars, r.env); v.Undefined? || (v.v == 0 && Arrives(g, st, m, BrkPos(g, a) + 1, v.env))
    requires r.Returned? || r.Timeout? ==> m == n
    ensures TailDone(g, a, x, st, r, fuel, m)
  {
    hide WfL, BrkPos, ContPos, Arrives, Fits, Again, Loop, Rep, Run;
  }

  /** Another iteration follows. */
  lemma TailRepeats(g: Place, a: LoopAt, x: Exits, st: State, r: Outcome, fuel: nat, n: nat, m: nat, k: nat)
    requires BodyDone(g, a, x, st, r, fuel, n) && (r.Normal? || r.Continued?)
    requires WfL(a.l, g.fr.vars) && |g.fr.offs| == |g.fr.vars| && Fits(r.env, g.fr.vars)
    requires var v := Again(a.l, g.fr.vars, r.env);
      v.Ok? && v.v != 0 && Arrives(g, st, m, a.pc, v.env) && DoneL(g, a, x, Run(g.p, st, m).value, v.env, fuel, k)
    ensures TailDone(g, a, x, st, r, fuel, m + k)
  {
    hide WfL, BrkPos, ContPos, Arrives, Fits, Again, Loop, Rep, Run, Ends, Fitting;
    var v := Again(a.l, g.fr.vars, r.env);
    EndsAfter(g, st, m, a.pc, v.env, k, BrkPos(g, a) + 1, x, Loop(a.l, g.fr.vars, g.ret, v.env, fuel), fuel, 0);
  }

  /** A loop whose body, begun in st, has ended as r says. */
  lemma {:induction false} SimLoopTail(g: Place, a: LoopAt, x: Exits, st: State, n: nat, r: Outcome, fuel: nat) returns (m: nat)
    requires ReadyL(g, a, x) && BodyDone(g, a, x, st, r, fuel, n)
    ensures TailDone(g, a, x, st, r, fuel, m)
    decreases fuel, a.l.body, 2
  {
    hide *;
    LoopPlaces(g, a, x);
    BodyPlace(g, a, x, st, r, fuel, n);
    m := n;
    if r.Normal? || r.Continued? {
      PassTo(g, st, n, ContPos(g, a), Label(LCont, a.k), r.env);
      var s1 := At(g, st, n + 1, ContPos(g, a) + 1, r.env);
      var v := Again(a.l, g.fr.vars, r.env);
      if v.Ok? {
        var n1 := SimTail(g, a, x, s1, r.env);
        TailPlace(g, a, s1, r.env, n1);
        var pc1 := if v.v == 0 then BrkPos(g, a) else a.pc;
        m := n + 1 + n1;
        ArrivesAfter(g, st, n + 1, r.env, ContPos(g, a) + 1, n1, pc1, v.env);
        if v.v == 0 {
          PassTo(g, st, m, pc1, Label(LBrk, a.k), v.env);
          m := m + 1;
          TailOver(g, a, x, st, r, fuel, n, m);
        } else {
          var s2 := At(g, st, m, pc1, v.env);
          var n2 := SimLoop(g, a, x, s2, v.env, fuel);
          TailRepeats(g, a, x, st, r, fuel, n, m, n2);
          m := m + n2;
        }
      } else {
        TailOver(g, a, x, st, r, fuel, n, m);
      }
    } else {
      if r.Broke? {
        PassTo(g, st, n, BrkPos(g, a), Label(LBrk, a.k), r.env);
        m := n + 1;
      }
      TailOver(g, a, x, st, r, fuel, n, m);
    }
  }

  // ---------- statements ----------

  lemma ReadyParts(g: Place, s: Stmt, k: nat, lp: nat, inLoop: bool, pc: int, x: Exits, st: State, env: Env)
    requires ReadyS(g, s, k, lp, inLoop, pc, x) && Good(g, st, env)
    ensures Sound(g) && UniqueLabels(g.p) && WfS(s, g.fr.vars, inLoop) && |g.fr.offs| == |g.fr.vars| && Fits(env, g.fr.vars)
  {
    hide WfS, TypedS, CodeAt, GenS, Fits, Holds, Laid;
  }

  /** Running the code of any statement, nested loops and jumps included, ends as the statement's meaning says. */
  lemma {:induction false} SimS(g: Place, s: Stmt, k: nat, lp: nat, inLoop: bool, x: Exits, st: State, env: Env, fuel: nat) returns (n: nat)
    requires ReadyS(g, s, k, lp, inLoop, st.pc, x) && Good(g, st, env)
    ensures Done(g, s, k, lp, inLoop, x, st, env, fuel, n)
    decreases fuel, s, 3
  {
    hide *;
    match s
    case SExpr(_) => n := SimExprStmt(g, s, k, lp, inLoop, x, st, env, fuel);
    case SBlock(b) =>
      BlockReady(g, s, k, lp, inLoop, x, st.pc);
      n := SimB(g, b, k, lp, inLoop, x, st, env, fuel);
      BlockDone(g, s, k, lp, inLoop, x, st, env, fuel, n);
    case SIf(_, _, _) => n := SimIf(g, s, k, lp, inLoop, x, st, env, fuel);
    case SFor(_, _, _, _) => n := SimFor(g, s, k, lp, inLoop, x, st, env, fuel);
    case SDo(_, _) => n := SimDo(g, s, k, lp, inLoop, x, st, env, fuel);
    case SBreak => n := SimJump(g, s, k, lp, inLoop, x, st, env, fuel);
    case SContinue => n := SimJump(g, s, k, lp, inLoop, x, st, env, fuel);
    case SReturn(_) => n := SimReturn(g, s, k, lp, inLoop, x, st, env, fuel);
  }

  lemma SimExprStmt(g: Place, s: Stmt, k: nat, lp: nat, inLoop: bool, x: Exits, st: State, env: Env, fuel: nat) returns (n: nat)
    requires ReadyS(g, s, k, lp, inLoop, st.pc, x) && Good(g, st, env) && s.SExpr?
    ensures Done(g, s, k, lp, inLoop, x, st, env, fuel, n)
  {
    hide Run, Holds, Kept, CodeAt, UniqueLabels, Laid, Gen, Eval, Wf, Typed, Arrives, Fits, Rep;
    n := 0;
    if Eval(s.e, g.fr.vars, env).Ok? { n := SimExpr(g, s.e, k, st, env); }
  }

  lemma SimJump(g: Place, s: Stmt, k: nat, lp: nat, inLoop: bool, x: Exits, st: State, env: Env, fuel: nat) returns (n: nat)
    requires ReadyS(g, s, k, lp, inLoop, st.pc, x) && Good(g, st, env) && (s.SBreak? || s.SContinue?)
    ensures Done(g, s, k, lp, inLoop, x, st, env, fuel, n)
  {
    hide Run, Holds, Kept, CodeAt, UniqueLabels, Laid, Arrives, Fits;
    Here(g, st, env);
    if s.SBreak? {
      GoesTo(g, st, 0, st.pc, Label(LBrk, lp), x.brk, env);
    } else {
      GoesTo(g, st, 0, st.pc, Label(LCont, lp), x.cont, env);
    }
    n := 1;
  }

  lemma SimReturn(g: Place, s: Stmt, k: nat, lp: nat, inLoop: bool, x: Exits, st: State, env: Env, fuel: nat) returns (n: nat)
    requires ReadyS(g, s, k, lp, inLoop, st.pc, x) && Good(g, st, env) && s.SReturn?
    ensures Done(g, s, k, lp, inLoop, x, st, env, fuel, n)
  {
    hide Run, Holds, Kept, CodeAt, UniqueLabels, Laid, Gen, Eval, Wf, Typed, Arrives, Fits, Rep, Wrap, InRange, TypeOf;
    n := 0;
    var c := GenOpt(s.ret, g.fr.vars, g.fr.offs, k);
    CodeCat(g.p, st.pc, c, [Jmp(Label(LReturn, 0))]);
    if s.ret.None? {
      Here(g, st, env);
      GoesTo(g, st, 0, st.pc, Label(LReturn, 0), x.ret, env);
      n := 1;
    } else if Eval(s.ret.value, g.fr.vars, env).Ok? {
      n := SimExpr(g, s.ret.value, k, st, env);
      ReturnStep(g, st, n, st.pc + |c|, x.ret, s.ret.value, env);
      n := n + 1;
    }
  }

  /** The jump to the end of the function leaves the value in rax. */
  lemma ReturnStep(g: Place, st: State, n: nat, pc: int, target: int, e: Expr, env: Env)
    requires UniqueLabels(g.p) && Wf(e, g.fr.vars) && Fits(env, g.fr.vars) && Eval(e, g.fr.vars, env).Ok?
    requires var r := Eval(e, g.fr.vars, env);
      && Arrives(g, st, n, pc, r.env) && TypeOf(e, g.fr.vars) == g.ret
      && Run(g.p, st, n).Some? && Rep(TypeOf(e, g.fr.vars), r.v, Run(g.p, st, n).value.rax)
    requires CodeAt(g.p, pc, [Jmp(Label(LReturn, 0))]) && LabelAt(g.p, target, Label(LReturn, 0))
    ensures var r := Eval(e, g.fr.vars, env);
      && Arrives(g, st, n + 1, target, r.env)
      && Run(g.p, st, n + 1).Some? && Rep(g.ret, Wrap(g.ret, r.v), Run(g.p, st, n + 1).value.rax)
  {
    hide Run, Holds, Kept, CodeAt, UniqueLabels, Laid, Eval, Wf, Fits, Rep, TypeOf;
    var s := Run(g.p, st, n).value;
    JumpRun(g.p, s, Label(LReturn, 0), target);
    StepTo(g, st, n, pc, target, Eval(e, g.fr.vars, env).env);
    Chain(g.p, st, n, s, 1, Some(s.(pc := target)));
  }

  // ---------- blocks ----------

  ghost predicate ReadyB(g: Place, b: seq<Stmt>, k: nat, lp: nat, inLoop: bool, pc: int, x: Exits) {
    && Sound(g) && WfB(b, g.fr.vars, inLoop) && TypedB(b, g.fr.vars, g.ret, inLoop) && |g.fr.offs| == |g.fr.vars|
    && CodeAt(g.p, pc, GenB(b, g.fr.vars, g.fr.offs, k, lp, inLoop)) && ExitsAt(g.p, x, lp, inLoop)
  }

  ghost predicate DoneB(g: Place, b: seq<Stmt>, k: nat, lp: nat, inLoop: bool, x: Exits, st: State, env: Env, fuel: nat, n: nat) {
    && WfB(b, g.fr.vars, inLoop) && |g.fr.offs| == |g.fr.vars| && Fits(env, g.fr.vars)
    && Ends(g, st, n, st.pc + |GenB(b, g.fr.vars, g.fr.offs, k, lp, inLoop)|, x, ExecB(b, g.fr.vars, g.ret, env, fuel, inLoop), fuel)
  }

  lemma BlockReady(g: Place, s: Stmt, k: nat, lp: nat, inLoop: bool, x: Exits, pc: int)
    requires ReadyS(g, s, k, lp, inLoop, pc, x) && s.SBlock?
    ensures ReadyB(g, s.stmts, k, lp, inLoop, pc, x)
  {
    hide CodeAt, UniqueLabels, Laid, GenB, WfB, TypedB, LabelAt;
  }

  lemma BlockDone(g: Place, s: Stmt, k: nat, lp: nat, inLoop: bool, x: Exits, st: State, env: Env, fuel: nat, n: nat)
    requires s.SBlock? && DoneB(g, s.stmts, k, lp, inLoop, x, st, env, fuel, n)
    ensures Done(g, s, k, lp, inLoop, x, st, env, fuel, n)
  {
    hide Ends, GenB, WfB, ExecB, Fits;
  }

  lemma ReadyCons(g: Place, b: seq<Stmt>, k: nat, lp: nat, inLoop: bool, pc: int, x: Exits)
    requires ReadyB(g, b, k, lp, inLoop, pc, x) && b != []
    ensures |g.fr.offs| == |g.fr.vars| && ReadyS(g, b[0], k, lp, inLoop, pc, x) && WfS(b[0], g.fr.vars, inLoop) && WfB(b[1..], g.fr.vars, inLoop)
    ensures ReadyB(g, b[1..], k + LabelsS(b[0]), lp, inLoop, pc + |GenS(b[0], g.fr.vars, g.fr.offs, k, lp, inLoop)|, x)
  {
    hide CodeAt, UniqueLabels, Laid, GenS, WfS, TypedS, LabelAt, LabelsS;
    CodeCat(g.p, pc, GenS(b[0], g.fr.vars, g.fr.offs, k, lp, inLoop), GenB(b[1..], g.fr.vars, g.fr.offs, k + LabelsS(b[0]), lp, inLoop));
  }

  lemma DoneNil(g: Place, k: nat, lp: nat, inLoop: bool, x: Exits, st: State, env: Env, fuel: nat)
    requires Good(g, st, env)
    ensures DoneB(g, [], k, lp, inLoop, x, st, env, fuel, 0)
  {
    hide Holds, Fits, Arrives;
    Here(g, st, env);
  }

  /** The first statement ends the block, or the rest goes on from where it ends. */
  lemma DoneCons(g: Place, b: seq<Stmt>, k: nat, lp: nat, inLoop: bool, x: Exits, st: State, env: Env, fuel: nat, n: nat, m: nat)
    requires b != [] && WfB(b[1..], g.fr.vars, inLoop) && WfS(b[0], g.fr.vars, inLoop) && |g.fr.offs| == |g.fr.vars| && Fits(env, g.fr.vars)
    requires Done(g, b[0], k, lp, inLoop, x, st, env, fuel, n)
    requires var r := Exec(b[0], g.fr.vars, g.ret, env, fuel, inLoop);
      if r.Normal? then Run(g.p, st, n).Some? && DoneB(g, b[1..], k + LabelsS(b[0]), lp, inLoop, x, Run(g.p, st, n).value, r.env, fuel, m) else m == 0
    ensures DoneB(g, b, k, lp, inLoop, x, st, env, fuel, n + m)
  {
    hide Run, Holds, Kept, GenS, WfS, Exec, Arrives, Fits, Rep, LabelsS;
    var c1, c2 := GenS(b[0], g.fr.vars, g.fr.offs, k, lp, inLoop), GenB(b[1..], g.fr.vars, g.fr.offs, k + LabelsS(b[0]), lp, inLoop);
    var r := Exec(b[0], g.fr.vars, g.ret, env, fuel, inLoop);
    if r.Normal? {
      var s1 := At(g, st, n, st.pc + |c1|, r.env);
      EndsAfter(g, st, n, st.pc + |c1|, r.env, m, st.pc + |c1| + |c2|, x, ExecB(b[1..], g.fr.vars, g.ret, r.env, fuel, inLoop), fuel, 0);
    }
  }

  /** Where a statement that runs off its end is. */
  lemma DonePlace(g: Place, s: Stmt, k: nat, lp: nat, inLoop: bool, x: Exits, st: State, env: Env, fuel: nat, n: nat)
    requires Done(g, s, k, lp, inLoop, x, st, env, fuel, n) && WfS(s, g.fr.vars, inLoop) && |g.fr.offs| == |g.fr.vars| && Fits(env, g.fr.vars)
    ensures var r := Exec(s, g.fr.vars, g.ret, env, fuel, inLoop);
      r.Normal? ==> Arrives(g, st, n, st.pc + |GenS(s, g.fr.vars, g.fr.offs, k, lp, inLoop)|, r.env)
  {
    hide Arrives, WfS, Exec, GenS, Fits, Rep, Run;
  }

  lemma {:induction false} SimB(g: Place, b: seq<Stmt>, k: nat, lp: nat, inLoop: bool, x: Exits, st: State, env: Env, fuel: nat) returns (n: nat)
    requires ReadyB(g, b, k, lp, inLoop, st.pc, x) && Good(g, st, env)
    ensures DoneB(g, b, k, lp, inLoop, x, st, env, fuel, n)
    decreases fuel, b, 0
  {
    hide *;
    if b == [] {
      n := 0;
      DoneNil(g, k, lp, inLoop, x, st, env, fuel);
    } else {
      ReadyCons(g, b, k, lp, inLoop, st.pc, x);
      ReadyParts(g, b[0], k, lp, inLoop, st.pc, x, st, env);
      n := SimS(g, b[0], k, lp, inLoop, x, st, env, fuel);
      DonePlace(g, b[0], k, lp, inLoop, x, st, env, fuel, n);
      var r := Exec(b[0], g.fr.vars, g.ret, env, fuel, inLoop);
      var m := 0;
      if r.Normal? {
        var s1 := At(g, st, n, st.pc + |GenS(b[0], g.fr.vars, g.fr.offs, k, lp, inLoop)|, r.env);
        m := SimB(g, b[1..], k + LabelsS(b[0]), lp, inLoop, x, s1, r.env, fuel);
      }
      DoneCons(g, b, k, lp, inLoop, x, st, env, fuel, n, m);
      n := n + m;
    }
  }

  // ---------- if ----------

  /** Positions in the code of an `if`: its first branch, the jump over the second, the second, and the end. */
  datatype IfAt = IfAt(k1: nat, k2: nat, thn: int, jmp: int, els: int, end: int)

  function ElseCode(g: Place, s: Stmt, k: nat, lp: nat, inLoop: bool): seq<Insn>
    requires WfS(s, g.fr.vars, inLoop) && s.SIf? && |g.fr.offs| == |g.fr.vars|
  {
    if s.els.Some? then GenS(s.els.value, g.fr.vars, g.fr.offs, k, lp, inLoop) else []
  }

  function Positions(g: Place, s: Stmt, k: nat, lp: nat, inLoop: bool, pc: int): IfAt
    requires WfS(s, g.fr.vars, inLoop) && s.SIf? && |g.fr.offs| == |g.fr.vars|
  {
    var k1 := k + 1 + Labels(s.c);
    var k2 := k1 + LabelsS(s.thn);
    var t := pc + |Gen(s.c, g.fr.vars, g.fr.offs, k + 1)| + 2;
    var j := t + |GenS(s.thn, g.fr.vars, g.fr.offs, k1, lp, inLoop)|;
    IfAt(k1, k2, t, j, j + 2, j + 2 + |ElseCode(g, s, k2, lp, inLoop)|)
  }

  lemma IfReady(g: Place, s: Stmt, k: nat, lp: nat, inLoop: bool, x: Exits, pc: int)
    requires ReadyS(g, s, k, lp, inLoop, pc, x) && s.SIf?
    ensures |g.fr.offs| == |g.fr.vars| && WfS(s, g.fr.vars, inLoop) && Wf(s.c, g.fr.vars) && Typed(s.c, g.fr.vars)
    ensures var q := Positions(g, s, k, lp, inLoop, pc);
      && CodeAt(g.p, pc, Gen(s.c, g.fr.vars, g.fr.offs, k + 1) + [CmpZero(Size(TypeOf(s.c, g.fr.vars))), TestJump(false, Label(LElse, k))])
      && CodeAt(g.p, q.jmp, [Jmp(Label(LEnd, k))]) && LabelAt(g.p, q.els - 1, Label(LElse, k)) && LabelAt(g.p, q.end, Label(LEnd, k))
      && q.thn == pc + |Gen(s.c, g.fr.vars, g.fr.offs, k + 1)| + 2 && |GenS(s, g.fr.vars, g.fr.offs, k, lp, inLoop)| == q.end + 1 - pc
  {
    hide CodeAt, LabelAt, UniqueLabels, Laid, Gen, Wf, Typed, TypeOf, BranchCode;
    var q := Positions(g, s, k, lp, inLoop, pc);
    var cc, ct, cf, tc := Gen(s.c, g.fr.vars, g.fr.offs, k + 1), GenS(s.thn, g.fr.vars, g.fr.offs, q.k1, lp, inLoop), ElseCode(g, s, q.k2, lp, inLoop), TypeOf(s.c, g.fr.vars);
    BranchLayout(g.p, pc, cc, tc, ct, cf, k);
    Together(g.p, pc, cc, [CmpZero(Size(tc)), TestJump(false, Label(LElse, k))]);
    OneLabel(g.p, pc + |cc| + 2 + |ct| + 1, Label(LElse, k));
    OneLabel(g.p, pc + |cc| + 2 + |ct| + 2 + |cf|, Label(LEnd, k));
  }

  lemma BranchesReady(g: Place, s: Stmt, k: nat, lp: nat, inLoop: bool, x: Exits, pc: int)
    requires ReadyS(g, s, k, lp, inLoop, pc, x) && s.SIf?
    ensures |g.fr.offs| == |g.fr.vars| && WfS(s, g.fr.vars, inLoop) && WfS(s.thn, g.fr.vars, inLoop)
    ensures var q := Positions(g, s, k, lp, inLoop, pc);
      && ReadyS(g, s.thn, q.k1, lp, inLoop, q.thn, x) && q.jmp == q.thn + |GenS(s.thn, g.fr.vars, g.fr.offs, q.k1, lp, inLoop)|
      && if s.els.None? then q.end == q.els
         else && WfS(s.els.value, g.fr.vars, inLoop) && ReadyS(g, s.els.value, q.k2, lp, inLoop, q.els, x)
              && q.end == q.els + |GenS(s.els.value, g.fr.vars, g.fr.offs, q.k2, lp, inLoop)|
  {
    hide CodeAt, LabelAt, UniqueLabels, Laid, Gen, Wf, Typed, TypeOf, BranchCode;
    var q := Positions(g, s, k, lp, inLoop, pc);
    var cc, ct, cf, tc := Gen(s.c, g.fr.vars, g.fr.offs, k + 1), GenS(s.thn, g.fr.vars, g.fr.offs, q.k1, lp, inLoop), ElseCode(g, s, q.k2, lp, inLoop), TypeOf(s.c, g.fr.vars);
    BranchLayout(g.p, pc, cc, tc, ct, cf, k);
  }

  lemma Together(p: seq<Insn>, pc: int, a: seq<Insn>, b: seq<Insn>)
    requires CodeAt(p, pc, a) && CodeAt(p, pc + |a|, b)
    ensures CodeAt(p, pc, a + b)
  {
    assert p[pc..pc + |a + b|] == p[pc..pc + |a|] + p[pc + |a|..pc + |a| + |b|];
  }

  /** A branch has been run up to its own end; afterwards control goes on to the end of the `if`. */
  ghost predicate BranchDone(g: Place, s: Stmt, inLoop: bool, x: Exits, st: State, end: int, env: Env, fuel: nat, n: nat) {
    WfS(s, g.fr.vars, inLoop) && Fits(env, g.fr.vars) && Ends(g, st, n, end, x, Exec(s, g.fr.vars, g.ret, env, fuel, inLoop), fuel)
  }

  /** The condition has been computed in n instructions and a branch was run from there. */
  lemma IfDone(g: Place, s: Stmt, k: nat, lp: nat, inLoop: bool, x: Exits, st: State, end: int, env: Env, fuel: nat, n: nat)
    requires s.SIf? && WfS(s, g.fr.vars, inLoop) && |g.fr.offs| == |g.fr.vars| && Fits(env, g.fr.vars) && Wf(s.c, g.fr.vars)
    requires end == st.pc + |GenS(s, g.fr.vars, g.fr.offs, k, lp, inLoop)|
    requires var a := Eval(s.c, g.fr.vars, env);
      || a.Undefined?
      || (a.v != 0 && BranchDone(g, s.thn, inLoop, x, st, end, a.env, fuel, n))
      || (a.v == 0 && s.els.Some? && BranchDone(g, s.els.value, inLoop, x, st, end, a.env, fuel, n))
      || (a.v == 0 && s.els.None? && Arrives(g, st, n, end, a.env))
    ensures Done(g, s, k, lp, inLoop, x, st, env, fuel, n)
  {
    hide Eval, Wf, GenS, Arrives, Fits, Rep, Run;
  }

  /** From the beginning of a branch to the end of the code. */
  lemma RunBranch(g: Place, s: Stmt, k: nat, lp: nat, inLoop: bool, x: Exits, st: State, n: nat, pc: int, env: Env, fuel: nat, m: nat)
    requires |g.fr.offs| == |g.fr.vars| && WfS(s, g.fr.vars, inLoop) && Arrives(g, st, n, pc, env) && Run(g.p, st, n).Some? && Run(g.p, st, n).value.pc == pc
    requires Done(g, s, k, lp, inLoop, x, Run(g.p, st, n).value, env, fuel, m)
    ensures BranchDone(g, s, inLoop, x, st, pc + |GenS(s, g.fr.vars, g.fr.offs, k, lp, inLoop)|, env, fuel, n + m)
  {
    hide Run, Arrives, Fits, WfS, Exec, GenS, Ends;
    EndsAfter(g, st, n, pc, env, m, pc + |GenS(s, g.fr.vars, g.fr.offs, k, lp, inLoop)|, x, Exec(s, g.fr.vars, g.ret, env, fuel, inLoop), fuel, 0);
  }

  /** Only a branch that runs off its end still has to get to the end of the `if`. */
  lemma BranchOn(g: Place, s: Stmt, inLoop: bool, x: Exits, st: State, pc: int, end: int, env: Env, fuel: nat, n: nat, m: nat)
    requires BranchDone(g, s, inLoop, x, st, pc, env, fuel, n) && WfS(s, g.fr.vars, inLoop) && Fits(env, g.fr.vars)
    requires var r := Exec(s, g.fr.vars, g.ret, env, fuel, inLoop); if r.Normal? then Arrives(g, st, m, end, r.env) else m == n
    ensures BranchDone(g, s, inLoop, x, st, end, env, fuel, m)
  {
    hide Arrives, WfS, Exec, Fits, Rep, Run;
  }

  lemma BranchPlace(g: Place, s: Stmt, inLoop: bool, x: Exits, st: State, pc: int, env: Env, fuel: nat, n: nat)
    requires BranchDone(g, s, inLoop, x, st, pc, env, fuel, n) && WfS(s, g.fr.vars, inLoop) && Fits(env, g.fr.vars)
    ensures var r := Exec(s, g.fr.vars, g.ret, env, fuel, inLoop); r.Normal? ==> Arrives(g, st, n, pc, r.env)
  {
    hide Arrives, WfS, Exec, Fits, Rep, Run;
  }

  lemma {:induction false} SimIf(g: Place, s: Stmt, k: nat, lp: nat, inLoop: bool, x: Exits, st: State, env: Env, fuel: nat) returns (n: nat)
    requires ReadyS(g, s, k, lp, inLoop, st.pc, x) && Good(g, st, env) && s.SIf?
    ensures Done(g, s, k, lp, inLoop, x, st, env, fuel, n)
    decreases fuel, s, 2
  {
    hide *;
    ReadyParts(g, s, k, lp, inLoop, st.pc, x, st, env);
    IfReady(g, s, k, lp, inLoop, x, st.pc);
    BranchesReady(g, s, k, lp, inLoop, x, st.pc);
    var q := Positions(g, s, k, lp, inLoop, st.pc);
    n := 0;
    var a := Eval(s.c, g.fr.vars, env);
    if a.Ok? {
      n := SimTest(g, s.c, k + 1, st, env, false, Label(LElse, k), q.els - 1);
      if a.v != 0 {
        n := SimThen(g, s.thn, k, q.k1, lp, inLoop, x, st, n, q.thn, q.end, a.env, fuel);
      } else {
        PassTo(g, st, n, q.els - 1, Label(LElse, k), a.env);
        n := n + 1;
        if s.els.Some? {
          n := SimElse(g, s.els.value, k, q.k2, lp, inLoop, x, st, n, q.els, q.end, a.env, fuel);
        } else {
          PassTo(g, st, n, q.end, Label(LEnd, k), a.env);
          n := n + 1;
        }
      }
    }
    IfDone(g, s, k, lp, inLoop, x, st, q.end + 1, env, fuel, n);
  }

  /** The first branch, and the jump over the other one. */
  lemma {:induction false} SimThen(g: Place, s: Stmt, k: nat, k1: nat, lp: nat, inLoop: bool, x: Exits, st: State, n: nat, pc: int, end: int, env: Env, fuel: nat) returns (m: nat)
    requires ReadyS(g, s, k1, lp, inLoop, pc, x) && Arrives(g, st, n, pc, env) && |g.fr.offs| == |g.fr.vars| && WfS(s, g.fr.vars, inLoop)
    requires CodeAt(g.p, pc + |GenS(s, g.fr.vars, g.fr.offs, k1, lp, inLoop)|, [Jmp(Label(LEnd, k))]) && LabelAt(g.p, end, Label(LEnd, k))
    ensures BranchDone(g, s, inLoop, x, st, end + 1, env, fuel, m)
    decreases fuel, s, 4
  {
    hide *;
    var s1 := At(g, st, n, pc, env);
    ReadyParts(g, s, k1, lp, inLoop, pc, x, s1, env);
    var n2 := SimS(g, s, k1, lp, inLoop, x, s1, env, fuel);
    RunBranch(g, s, k1, lp, inLoop, x, st, n, pc, env, fuel, n2);
    var pc2 := pc + |GenS(s, g.fr.vars, g.fr.offs, k1, lp, inLoop)|;
    BranchPlace(g, s, inLoop, x, st, pc2, env, fuel, n + n2);
    var r := Exec(s, g.fr.vars, g.ret, env, fuel, inLoop);
    m := n + n2;
    if r.Normal? {
      GoesTo(g, st, m, pc2, Label(LEnd, k), end, r.env);
      PassTo(g, st, m + 1, end, Label(LEnd, k), r.env);
      m := m + 2;
    }
    BranchOn(g, s, inLoop, x, st, pc2, end + 1, env, fuel, n + n2, m);
  }

  lemma {:induction false} SimElse(g: Place, s: Stmt, k: nat, k2: nat, lp: nat, inLoop: bool, x: Exits, st: State, n: nat, pc: int, end: int, env: Env, fuel: nat) returns (m: nat)
    requires ReadyS(g, s, k2, lp, inLoop, pc, x) && Arrives(g, st, n, pc, env) && |g.fr.offs| == |g.fr.vars| && WfS(s, g.fr.vars, inLoop)
    requires end == pc + |GenS(s, g.fr.vars, g.fr.offs, k2, lp, inLoop)| && LabelAt(g.p, end, Label(LEnd, k))
    ensures BranchDone(g, s, inLoop, x, st, end + 1, env, fuel, m)
    decreases fuel, s, 4
  {
    hide *;
    var s1 := At(g, st, n, pc, env);
    ReadyParts(g, s, k2, lp, inLoop, pc, x, s1, env);
    var n2 := SimS(g, s, k2, lp, inLoop, x, s1, env, fuel);
    RunBranch(g, s, k2, lp, inLoop, x, st, n, pc, env, fuel, n2);
    BranchPlace(g, s, inLoop, x, st, end, env, fuel, n + n2);
    var r := Exec(s, g.fr.vars, g.ret, env, fuel, inLoop);
    m := n + n2;
    if r.Normal? {
      PassTo(g, st, m, end, Label(LEnd, k), r.env);
      m := m + 1;
    }
    BranchOn(g, s, inLoop, x, st, end, end + 1, env, fuel, n + n2, m);
  }

  // ---------- loops as statements ----------

  function DoLoopAt(s: Stmt, k: nat, pc: int): LoopAt
    requires s.SDo?
  {
    LoopAt(After(s.body, s.c), k, 0, k + 1, k + 1 + LabelsS(s.body), pc)
  }

  /** A `do` statement is nothing but its loop. */
  ghost predicate ReadyDo(g: Place, s: Stmt, k: nat, lp: nat, inLoop: bool, x: Exits, pc: int) {
    && s.SDo? && WfS(s, g.fr.vars, inLoop) && |g.fr.offs| == |g.fr.vars|
    && var a := DoLoopAt(s, k, pc);
       ReadyL(g, a, x) && WfL(a.l, g.fr.vars) && a.pc == pc && pc + |GenS(s, g.fr.vars, g.fr.offs, k, lp, inLoop)| == BrkPos(g, a) + 1
  }

  lemma DoReady(g: Place, s: Stmt, k: nat, lp: nat, inLoop: bool, x: Exits, pc: int)
    requires ReadyS(g, s, k, lp, inLoop, pc, x) && s.SDo?
    ensures ReadyDo(g, s, k, lp, inLoop, x, pc) && ReadyL(g, DoLoopAt(s, k, pc), x) && DoLoopAt(s, k, pc).pc == pc
  {
    hide CodeAt, LabelAt, UniqueLabels, Laid, Gen, Wf, Typed, LoopCode, UntilCode;
    LoopPlaces(g, DoLoopAt(s, k, pc), x);
  }

  lemma DoDone(g: Place, s: Stmt, k: nat, lp: nat, inLoop: bool, x: Exits, st: State, env: Env, fuel: nat, n: nat)
    requires ReadyDo(g, s, k, lp, inLoop, x, st.pc) && s.SDo? && DoneL(g, DoLoopAt(s, k, st.pc), x, st, env, fuel, n)
    ensures Done(g, s, k, lp, inLoop, x, st, env, fuel, n)
  {
    hide GenS, Loop, Fits, BrkPos, WfL, ReadyL, Wf, Ends;
  }

  lemma DoBody(s: Stmt, k: nat, pc: int)
    requires s.SDo?
    ensures DoLoopAt(s, k, pc).l.body == s.body
  {}

  lemma {:induction false} SimDo(g: Place, s: Stmt, k: nat, lp: nat, inLoop: bool, x: Exits, st: State, env: Env, fuel: nat) returns (n: nat)
    requires ReadyS(g, s, k, lp, inLoop, st.pc, x) && Good(g, st, env) && s.SDo?
    ensures Done(g, s, k, lp, inLoop, x, st, env, fuel, n)
    decreases fuel, s, 2
  {
    hide *;
    DoReady(g, s, k, lp, inLoop, x, st.pc);
    var a := DoLoopAt(s, k, st.pc);
    DoBody(s, k, st.pc);
    n := SimLoop(g, a, x, st, env, fuel);
    DoDone(g, s, k, lp, inLoop, x, st, env, fuel, n);
  }

  function ForLoopAt(s: Stmt, k: nat, pc: int): LoopAt
    requires s.SFor?
  {
    var k1 := k + 1 + (if s.init.Some? then LabelsS(s.init.value) else 0);
    var k2 := k1 + LabelsOpt(s.test);
    LoopAt(Before(s.test, s.inc, s.body), k, k1, k2, k2 + LabelsS(s.body), pc)
  }

  /** The code of a `for` statement at pc: len instructions of initialization, and then the loop. */
  ghost predicate ReadyFor(g: Place, s: Stmt, k: nat, lp: nat, inLoop: bool, x: Exits, pc: int, len: nat) {
    && s.SFor? && WfS(s, g.fr.vars, inLoop) && |g.fr.offs| == |g.fr.vars| && (s.init.Some? ==> WfS(s.init.value, g.fr.vars, false))
    && (if s.init.Some? then ReadyS(g, s.init.value, k + 1, lp, false, pc, x) && len == |GenS(s.init.value, g.fr.vars, g.fr.offs, k + 1, lp, false)| else len == 0)
    && var a := ForLoopAt(s, k, pc + len);
       ReadyL(g, a, x) && WfL(a.l, g.fr.vars) && pc + |GenS(s, g.fr.vars, g.fr.offs, k, lp, inLoop)| == BrkPos(g, a) + 1
  }

  lemma ForReady(g: Place, s: Stmt, k: nat, lp: nat, inLoop: bool, x: Exits, pc: int) returns (len: nat)
    requires ReadyS(g, s, k, lp, inLoop, pc, x) && s.SFor?
    ensures ReadyFor(g, s, k, lp, inLoop, x, pc, len)
  {
    hide CodeAt, LabelAt, UniqueLabels, Laid, Gen, Wf, Typed, LoopCode, TestCode, AgainCode;
    var ci := if s.init.Some? then GenS(s.init.value, g.fr.vars, g.fr.offs, k + 1, lp, false) else [];
    len := |ci|;
    var a := ForLoopAt(s, k, pc + len);
    var cl := LoopCode(Head(g, a), Body(g, a), Tail(g, a), k);
    assert GenS(s, g.fr.vars, g.fr.offs, k, lp, inLoop) == ci + cl;
    CodeCat(g.p, pc, ci, cl);
    LoopPlaces(g, a, x);
  }

  lemma ForFacts(g: Place, s: Stmt, k: nat, lp: nat, inLoop: bool, x: Exits, pc: int, len: nat)
    requires ReadyFor(g, s, k, lp, inLoop, x, pc, len)
    ensures |g.fr.offs| == |g.fr.vars| && s.SFor? && WfL(Before(s.test, s.inc, s.body), g.fr.vars)
    ensures var a := ForLoopAt(s, k, pc + len); a.l == Before(s.test, s.inc, s.body) && a.pc == pc + len && ReadyL(g, a, x)
    ensures if s.init.Some? then WfS(s.init.value, g.fr.vars, false) && ReadyS(g, s.init.value, k + 1, lp, false, pc, x)
              && len == |GenS(s.init.value, g.fr.vars, g.fr.offs, k + 1, lp, false)|
            else len == 0
  {
    hide ReadyS, ReadyL, WfS, GenS, BrkPos, WfL;
  }

  /** The first part has ended the statement, or the loop was run after it. */
  lemma ForDone(g: Place, s: Stmt, k: nat, lp: nat, inLoop: bool, x: Exits, st: State, env: Env, fuel: nat, len: nat, n: nat, m: nat)
    requires ReadyFor(g, s, k, lp, inLoop, x, st.pc, len) && s.SFor? && s.init.Some? && Fits(env, g.fr.vars) && WfS(s.init.value, g.fr.vars, false)
    requires Done(g, s.init.value, k + 1, lp, false, x, st, env, fuel, n)
    requires var r := Exec(s.init.value, g.fr.vars, g.ret, env, fuel, false);
      if r.Normal? then Arrives(g, st, n, st.pc + len, r.env) && DoneL(g, ForLoopAt(s, k, st.pc + len), x, Run(g.p, st, n).value, r.env, fuel, m)
      else m == 0
    ensures Done(g, s, k, lp, inLoop, x, st, env, fuel, n + m)
  {
    hide GenS, Loop, Fits, BrkPos, Arrives, WfL, Run, Rep, ReadyS, ReadyL, Wf, WfOpt;
    var r := Exec(s.init.value, g.fr.vars, g.ret, env, fuel, false);
    var a := ForLoopAt(s, k, st.pc + len);
    if r.Normal? {
      EndsAfter(g, st, n, st.pc + len, r.env, m, BrkPos(g, a) + 1, x, Loop(a.l, g.fr.vars, g.ret, r.env, fuel), fuel, 0);
    }
  }

  lemma ForDoneBare(g: Place, s: Stmt, k: nat, lp: nat, inLoop: bool, x: Exits, st: State, env: Env, fuel: nat, m: nat)
    requires ReadyFor(g, s, k, lp, inLoop, x, st.pc, 0) && s.SFor? && s.init.None? && DoneL(g, ForLoopAt(s, k, st.pc), x, st, env, fuel, m)
    ensures Done(g, s, k, lp, inLoop, x, st, env, fuel, m)
  {
    hide GenS, Loop, Fits, BrkPos, Arrives, WfL, Run, Rep, ReadyS, ReadyL, Wf, WfOpt, Ends;
  }

  lemma {:induction false} SimFor(g: Place, s: Stmt, k: nat, lp: nat, inLoop: bool, x: Exits, st: State, env: Env, fuel: nat) returns (n: nat)
    requires ReadyS(g, s, k, lp, inLoop, st.pc, x) && Good(g, st, env) && s.SFor?
    ensures Done(g, s, k, lp, inLoop, x, st, env, fuel, n)
    decreases fuel, s, 2
  {
    hide *;
    ReadyParts(g, s, k, lp, inLoop, st.pc, x, st, env);
    var len := ForReady(g, s, k, lp, inLoop, x, st.pc);
    ForFacts(g, s, k, lp, inLoop, x, st.pc, len);
    var a := ForLoopAt(s, k, st.pc + len);
    if s.init.Some? {
      n := SimS(g, s.init.value, k + 1, lp, false, x, st, env, fuel);
      DonePlace(g, s.init.value, k + 1, lp, false, x, st, env, fuel, n);
      var r := Exec(s.init.value, g.fr.vars, g.ret, env, fuel, false);
      var m := 0;
      if r.Normal? {
        var s1 := At(g, st, n, st.pc + len, r.env);
        m := SimLoop(g, a, x, s1, r.env, fuel);
      }
      ForDone(g, s, k, lp, inLoop, x, st, env, fuel, len, n, m);
      n := n + m;
    } else {
      n := SimLoop(g, a, x, st, env, fuel);
      ForDoneBare(g, s, k, lp, inLoop, x, st, env, fuel, n);
    }
  }
}
