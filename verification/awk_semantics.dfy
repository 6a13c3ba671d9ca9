/** Big-step meaning of the trees: what a program does, with no reference to code, stacks or jumps. */
module AwkSemantics {
  import opened AwkSyntax
  import opened AwkSpine
  import opened AwkValues
  import opened Wrappers

  const NEG_ONE := Double(0xBFF0_0000_0000_0000)

  /** Slots 1 to 16 are the special variables; ordinary globals follow. */
  const FIRST_GLOBAL := 17

  /** Values of the ordinary globals and of the parameters of the running function. */
  datatype Env = Env(globals: seq<Value>, locals: seq<Value>)

  predicate ValidSlot(slot: int, ng: nat, nl: nat) {
    FIRST_GLOBAL <= slot < FIRST_GLOBAL + ng || -(nl as int) <= slot < 0
  }

  function Get(env: Env, slot: int): Value
    requires ValidSlot(slot, |env.globals|, |env.locals|)
  {
    if slot < 0 then env.locals[-slot - 1] else env.globals[slot - FIRST_GLOBAL]
  }

  function Set(env: Env, slot: int, v: Value): (r: Env)
    requires ValidSlot(slot, |env.globals|, |env.locals|)
    ensures |r.globals| == |env.globals| && |r.locals| == |env.locals|
  {
    if slot < 0 then env.(locals := env.locals[-slot - 1 := v])
    else env.(globals := env.globals[slot - FIRST_GLOBAL := v])
  }

  datatype FuncDef = FuncDef(nparms: nat, body: seq<Stmt>)

  type Funcs = map<int, FuncDef>

  // ---------- well-formedness: every name is bound ----------

  predicate WfE(e: Expr, fs: Funcs, ng: nat, nl: nat)
    decreases e, 0
  {
    match e
    case Num(_) => true
    case Var(slot) => ValidSlot(slot, ng, nl)
    case IncDec(_, _, slot) => ValidSlot(slot, ng, nl)
    case Un(_, x) => WfE(x, fs, ng, nl)
    case Bin(_, l, r) => WfE(l, fs, ng, nl) && WfE(r, fs, ng, nl)
    case Cond(c, t, f) => WfE(c, fs, ng, nl) && WfE(t, fs, ng, nl) && WfE(f, fs, ng, nl)
    case Asgn(_, slot, x) => ValidSlot(slot, ng, nl) && WfE(x, fs, ng, nl)
    case Call(fn, args) => fn in fs && WfArgs(args, fs, ng, nl)
  }

  predicate WfArgs(args: seq<Expr>, fs: Funcs, ng: nat, nl: nat)
    decreases args, 0
  {
    args == [] || (WfE(args[0], fs, ng, nl) && WfArgs(args[1..], fs, ng, nl))
  }

  predicate WfOpt(e: Option<Expr>, fs: Funcs, ng: nat, nl: nat) {
    e.Some? ==> WfE(e.value, fs, ng, nl)
  }

  predicate WfS(s: Stmt, fs: Funcs, ng: nat, nl: nat)
    decreases s, 0
  {
    match s
    case SExpr(e) => WfE(e, fs, ng, nl)
    case SEmpty => true
    case SBreak => true
    case SContinue => true
    case SReturn(e) => WfOpt(e, fs, ng, nl)
    case SBlock(b) => WfB(b, fs, ng, nl)
    case SIf(c, t) => WfE(c, fs, ng, nl) && WfS(t, fs, ng, nl)
    case SIfElse(c, t, f) => WfE(c, fs, ng, nl) && WfS(t, fs, ng, nl) && WfS(f, fs, ng, nl)
    case SWhile(c, b) => WfE(c, fs, ng, nl) && WfS(b, fs, ng, nl)
    case SDo(b, c) => WfS(b, fs, ng, nl) && WfE(c, fs, ng, nl)
    case SFor(i, t, u, b) => WfOpt(i, fs, ng, nl) && WfOpt(t, fs, ng, nl) && WfOpt(u, fs, ng, nl) && WfS(b, fs, ng, nl)
  }

  predicate WfB(b: seq<Stmt>, fs: Funcs, ng: nat, nl: nat)
    decreases b, 0
  {
    b == [] || (WfS(b[0], fs, ng, nl) && WfB(b[1..], fs, ng, nl))
  }

  /** Function bodies are well-formed for their own parameters and place their jumps legally. */
  ghost predicate WfFuncs(fs: Funcs, ng: nat) {
    forall fn | fn in fs :: WfB(fs[fn].body, fs, ng, fs[fn].nparms) && PlacedB(fs[fn].body, false, true)
  }

  // ---------- evaluation ----------

  /** A value and the state after it, or the fuel ran out: fuel bounds loop iterations and call depth. */
  datatype EResult = EOk(v: Value, env: Env) | ETimeout

  datatype AResult = AOk(vs: seq<Value>, env: Env) | ATimeout

  datatype Outcome = Normal | Broke | Continued | Returned(v: Value)

  datatype SResult = SOk(out: Outcome, env: Env) | STimeout

  function SSize(s: Stmt): (n: nat)
    ensures n > 0
    decreases s, 0
  {
    match s
    case SExpr(e) => 1 + ESize(e)
    case SReturn(e) => if e.Some? then 1 + ESize(e.value) else 1
    case SBlock(b) => 1 + BSize(b)
    case SIf(c, t) => 1 + ESize(c) + SSize(t)
    case SIfElse(c, t, f) => 1 + ESize(c) + SSize(t) + SSize(f)
    case SWhile(c, b) => 1 + ESize(c) + SSize(b)
    case SDo(b, c) => 1 + SSize(b) + ESize(c)
    case SFor(i, t, u, b) =>
      2 + (if i.Some? then ESize(i.value) else 0) + (if t.Some? then ESize(t.value) else 0)
        + (if u.Some? then ESize(u.value) else 0) + SSize(b)
    case _ => 1
  }

  function BSize(b: seq<Stmt>): nat
    decreases b, 0
  {
    if b == [] then 0 else 1 + SSize(b[0]) + BSize(b[1..])
  }

  /** The arithmetic operator of a compound assignment. */
  function AsgnArith(aop: AsgnTok): int {
    if aop == TK_POWASGN then TK_POW else if aop == TK_MODASGN then TK_MOD else if aop == TK_MULASGN then TK_MUL
    else if aop == TK_DIVASGN then TK_DIV else if aop == TK_ADDASGN then TK_PLUS else TK_MINUS
  }

  function AsgnValue(fp: Fpu, aop: AsgnTok, was: Value, v: Value): Value {
    if aop == TK_ASGN then Scalar(v) else Arith(fp, AsgnArith(aop), was, v)
  }

  function StepBy(sop: StepTok): Value { Numeric(if sop == TK_INCR then ONE else NEG_ONE) }

  function BinValue(fp: Fpu, op: BinTok, a: Value, b: Value): Value {
    if IsCompare(op) then Logical(Compare(fp, op, a, b)) else Arith(fp, op, a, b)
  }

  function UnValue(fp: Fpu, op: UnTok, a: Value): Value {
    if op == TK_NOT then Logical(!Truth(fp, a))
    else if op == TK_MINUS then Negate(fp, a)
    else Negate(fp, Negate(fp, a))
  }

  /** Arguments as the callee sees them: surplus ones dropped, missing ones as its scalars or as something yet unknown. */
  function Frame(vs: seq<Value>, nparms: nat, scalars: set<int>): (l: seq<Value>)
    ensures |l| == nparms
    ensures forall i :: 0 <= i < nparms ==> l[i] == if i < |vs| then vs[i] else Fresh(scalars, -(i + 1))
  {
    seq(nparms, i requires 0 <= i < nparms => if i < |vs| then vs[i] else Fresh(scalars, -(i + 1)))
  }

  /** The values of f's parameters when it is called with values vs. */
  function FrameOf(vs: seq<Value>, f: FuncDef): (l: seq<Value>)
    ensures |l| == f.nparms
  {
    Frame(vs, f.nparms, LocalSlots(UsesB(f.body)))
  }

  function Eval(fs: Funcs, fp: Fpu, e: Expr, env: Env, fuel: nat): (r: EResult)
    requires WfFuncs(fs, |env.globals|) && WfE(e, fs, |env.globals|, |env.locals|)
    ensures r.EOk? ==> |r.env.globals| == |env.globals| && |r.env.locals| == |env.locals|
    decreases fuel, ESize(e), 0
  {
    match e
    case Num(d) => EOk(Numeric(d), env)
    case Var(slot) => EOk(Get(env, slot), env)
    case IncDec(pre, sop, slot) =>
      var v := Arith(fp, TK_PLUS, Get(env, slot), StepBy(sop));
      EOk(if pre then v else Arith(fp, TK_MINUS, v, StepBy(sop)), Set(env, slot, v))
    case Un(op, x) =>
      var r := Eval(fs, fp, x, env, fuel);
      if r.ETimeout? then r else EOk(UnValue(fp, op, r.v), r.env)
    case Bin(op, l, r) =>
      var a := Eval(fs, fp, l, env, fuel);
      if a.ETimeout? then a
      else if IsLogic(op) && Truth(fp, a.v) == (op == TK_OR) then EOk(Logical(op == TK_OR), a.env)
      else
        var b := Eval(fs, fp, r, a.env, fuel);
        if b.ETimeout? then b
        else if IsLogic(op) then EOk(Logical(Truth(fp, b.v)), b.env)
        else EOk(BinValue(fp, op, a.v, b.v), b.env)
    case Cond(c, t, f) =>
      var a := Eval(fs, fp, c, env, fuel);
      if a.ETimeout? then a else Eval(fs, fp, if Truth(fp, a.v) then t else f, a.env, fuel)
    case Asgn(aop, slot, x) =>
      var a := Eval(fs, fp, x, env, fuel);
      if a.ETimeout? then a
      else
        var v := AsgnValue(fp, aop, Get(a.env, slot), a.v);
        EOk(v, Set(a.env, slot, v))
    case Call(fn, args) =>
      var a := EvalArgs(fs, fp, args, env, fuel);
      if a.ATimeout? || fuel == 0 then ETimeout
      else
        var b := ExecB(fs, fp, fs[fn].body, Env(a.env.globals, FrameOf(a.vs, fs[fn])), fuel - 1);
        if b.STimeout? then ETimeout
        else EOk(if b.out.Returned? then Scalar(b.out.v) else Uninit, Env(b.env.globals, a.env.locals))
  }

  function EvalArgs(fs: Funcs, fp: Fpu, args: seq<Expr>, env: Env, fuel: nat): (r: AResult)
    requires WfFuncs(fs, |env.globals|) && WfArgs(args, fs, |env.globals|, |env.locals|)
    ensures r.AOk? ==> |r.env.globals| == |env.globals| && |r.env.locals| == |env.locals| && |r.vs| == |args|
    decreases fuel, ASize(args), 1
  {
    if args == [] then AOk([], env)
    else
      var a := Eval(fs, fp, args[0], env, fuel);
      if a.ETimeout? then ATimeout
      else
        var b := EvalArgs(fs, fp, args[1..], a.env, fuel);
        if b.ATimeout? then b else AOk([a.v] + b.vs, b.env)
  }

  /** An optional `for` clause, run for its effects. */
  function EvalOpt(fs: Funcs, fp: Fpu, e: Option<Expr>, env: Env, fuel: nat): (r: EResult)
    requires WfFuncs(fs, |env.globals|) && WfOpt(e, fs, |env.globals|, |env.locals|)
    ensures r.EOk? ==> |r.env.globals| == |env.globals| && |r.env.locals| == |env.locals|
    decreases fuel, if e.Some? then ESize(e.value) + 1 else 0
  {
    if e.Some? then Eval(fs, fp, e.value, env, fuel) else EOk(Logical(true), env)
  }

  function Exec(fs: Funcs, fp: Fpu, s: Stmt, env: Env, fuel: nat): (r: SResult)
    requires WfFuncs(fs, |env.globals|) && WfS(s, fs, |env.globals|, |env.locals|)
    ensures r.SOk? ==> |r.env.globals| == |env.globals| && |r.env.locals| == |env.locals|
    decreases fuel, SSize(s)
  {
    hide WfE, WfFuncs, WfB, ESize, BSize, ExecB;
    match s
    case SExpr(e) =>
      var a := Eval(fs, fp, e, env, fuel);
      if a.ETimeout? then STimeout else SOk(Normal, a.env)
    case SEmpty => SOk(Normal, env)
    case SBreak => SOk(Broke, env)
    case SContinue => SOk(Continued, env)
    case SReturn(e) =>
      if e.None? then SOk(Returned(NUMERIC_ZERO), env)
      else
        var a := Eval(fs, fp, e.value, env, fuel);
        if a.ETimeout? then STimeout else SOk(Returned(a.v), a.env)
    case SBlock(b) => ExecB(fs, fp, b, env, fuel)
    case SIf(c, t) =>
      var a := Eval(fs, fp, c, env, fuel);
      if a.ETimeout? then STimeout
      else if Truth(fp, a.v) then Exec(fs, fp, t, a.env, fuel) else SOk(Normal, a.env)
    case SIfElse(c, t, f) =>
      var a := Eval(fs, fp, c, env, fuel);
      if a.ETimeout? then STimeout else Exec(fs, fp, if Truth(fp, a.v) then t else f, a.env, fuel)
    case SWhile(c, b) =>
      var a := Eval(fs, fp, c, env, fuel);
      if a.ETimeout? then STimeout
      else if !Truth(fp, a.v) then SOk(Normal, a.env)
      else
        var r := Exec(fs, fp, b, a.env, fuel);
        if r.STimeout? || r.out.Returned? then r
        else if r.out.Broke? then SOk(Normal, r.env)
        else if fuel == 0 then STimeout
        else Exec(fs, fp, s, r.env, fuel - 1)
    case SDo(b, c) =>
      var r := Exec(fs, fp, b, env, fuel);
      if r.STimeout? || r.out.Returned? then r
      else if r.out.Broke? then SOk(Normal, r.env)
      else
        var a := Eval(fs, fp, c, r.env, fuel);
        if a.ETimeout? then STimeout
        else if !Truth(fp, a.v) then SOk(Normal, a.env)
        else if fuel == 0 then STimeout
        else Exec(fs, fp, s, a.env, fuel - 1)
    case SFor(i, t, u, b) =>
      var a := EvalOpt(fs, fp, i, env, fuel);
      if a.ETimeout? then STimeout else ExecFor(fs, fp, s, a.env, fuel)
  }

  /** The iterations of a `for` loop after its initialisation. */
  function ExecFor(fs: Funcs, fp: Fpu, s: Stmt, env: Env, fuel: nat): (r: SResult)
    requires s.SFor? && WfFuncs(fs, |env.globals|) && WfS(s, fs, |env.globals|, |env.locals|)
    ensures r.SOk? ==> |r.env.globals| == |env.globals| && |r.env.locals| == |env.locals|
    decreases fuel, SSize(s) - 1
  {
    var a := EvalOpt(fs, fp, s.test, env, fuel);
    if a.ETimeout? then STimeout
    else if s.test.Some? && !Truth(fp, a.v) then SOk(Normal, a.env)
    else
      var r := Exec(fs, fp, s.loop, a.env, fuel);
      if r.STimeout? || r.out.Returned? then r
      else if r.out.Broke? then SOk(Normal, r.env)
      else
        var b := EvalOpt(fs, fp, s.incr, r.env, fuel);
        if b.ETimeout? || fuel == 0 then STimeout
        else ExecFor(fs, fp, s, b.env, fuel - 1)
  }

  function ExecB(fs: Funcs, fp: Fpu, b: seq<Stmt>, env: Env, fuel: nat): (r: SResult)
    requires WfFuncs(fs, |env.globals|) && WfB(b, fs, |env.globals|, |env.locals|)
    ensures r.SOk? ==> |r.env.globals| == |env.globals| && |r.env.locals| == |env.locals|
    decreases fuel, BSize(b)
  {
    if b == [] then SOk(Normal, env)
    else
      var r := Exec(fs, fp, b[0], env, fuel);
      if r.STimeout? || !r.out.Normal? then r else ExecB(fs, fp, b[1..], r.env, fuel)
  }
}
