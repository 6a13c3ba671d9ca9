/** Variables that may yet turn out to be arrays: where they make a difference, and when there are none. */
module AwkTyped {
  import opened AwkSyntax
  import opened AwkValues
  import opened AwkSpine
  import opened AwkSemantics
  import opened AwkEscape
  import opened AwkLayout
  import opened AwkCompile
  import opened AwkRun
  import opened Wrappers

  // ---------- programs in which every variable is known to be a scalar ----------

  predicate AllScalars(vs: seq<Value>) { forall i :: 0 <= i < |vs| ==> !vs[i].Untyped? }

  predicate TypedEnv(env: Env) { AllScalars(env.globals) && AllScalars(env.locals) }

  /** Every parameter is used as a scalar by its function, other than by passing it on. */
  predicate TypedFuncs(fs: Funcs) { forall fn | fn in fs :: TypedParameters(fs[fn]) }

  predicate TypedParameters(f: FuncDef) { forall x :: -(f.nparms as int) <= x < 0 ==> x in UsesB(f.body) }

  lemma {:induction false} EvalTyped(fs: Funcs, fp: Fpu, e: Expr, env: Env, fuel: nat)
    requires WfFuncs(fs, |env.globals|) && WfE(e, fs, |env.globals|, |env.locals|) && TypedFuncs(fs) && TypedEnv(env)
    ensures var r := Eval(fs, fp, e, env, fuel); r.EOk? ==> TypedEnv(r.env) && !r.v.Untyped?
    decreases fuel, ESize(e), 0
  {
    hide WfFuncs, TypedFuncs, UsesB, ExecB, Compare, Truth;
    match e
    case Un(_, x) => EvalTyped(fs, fp, x, env, fuel);
    case Bin(op, l, r) =>
      EvalTyped(fs, fp, l, env, fuel);
      var a := Eval(fs, fp, l, env, fuel);
      if a.EOk? { EvalTyped(fs, fp, r, a.env, fuel); }
    case Cond(c, t, f) =>
      EvalTyped(fs, fp, c, env, fuel);
      var a := Eval(fs, fp, c, env, fuel);
      if a.EOk? { EvalTyped(fs, fp, if Truth(fp, a.v) then t else f, a.env, fuel); }
    case Asgn(_, _, x) => EvalTyped(fs, fp, x, env, fuel);
    case Call(fn, args) =>
      ArgsTyped(fs, fp, args, env, fuel);
      var a := EvalArgs(fs, fp, args, env, fuel);
      if a.AOk? && fuel > 0 {
        var env2 := Env(a.env.globals, FrameOf(a.vs, fs[fn]));
        FrameTyped(fs, fn, a.vs);
        assert WfB(fs[fn].body, fs, |env.globals|, fs[fn].nparms) by { FuncWf(fs, fn, |env.globals|); }
        BlockTyped(fs, fp, fs[fn].body, env2, fuel - 1);
      }
    case _ =>
  }

  lemma FuncWf(fs: Funcs, fn: int, ng: nat)
    requires WfFuncs(fs, ng) && fn in fs
    ensures WfB(fs[fn].body, fs, ng, fs[fn].nparms)
  {}

  lemma FrameTyped(fs: Funcs, fn: int, vs: seq<Value>)
    requires TypedFuncs(fs) && fn in fs && AllScalars(vs)
    ensures AllScalars(FrameOf(vs, fs[fn]))
  {
    hide UsesB;
    assert TypedParameters(fs[fn]);
    forall i | 0 <= i < fs[fn].nparms ensures !FrameOf(vs, fs[fn])[i].Untyped? { assert -(i + 1) in UsesB(fs[fn].body); }
  }

  lemma {:induction false} ArgsTyped(fs: Funcs, fp: Fpu, args: seq<Expr>, env: Env, fuel: nat)
    requires WfFuncs(fs, |env.globals|) && WfArgs(args, fs, |env.globals|, |env.locals|) && TypedFuncs(fs) && TypedEnv(env)
    ensures var r := EvalArgs(fs, fp, args, env, fuel); r.AOk? ==> TypedEnv(r.env) && AllScalars(r.vs)
    decreases fuel, ASize(args), 1
  {
    hide WfFuncs, TypedFuncs, Eval;
    if args != [] {
      EvalTyped(fs, fp, args[0], env, fuel);
      var a := Eval(fs, fp, args[0], env, fuel);
      if a.EOk? { ArgsTyped(fs, fp, args[1..], a.env, fuel); }
    }
  }

  lemma {:induction false} OptTyped(fs: Funcs, fp: Fpu, e: Option<Expr>, env: Env, fuel: nat)
    requires WfFuncs(fs, |env.globals|) && WfOpt(e, fs, |env.globals|, |env.locals|) && TypedFuncs(fs) && TypedEnv(env)
    ensures var r := EvalOpt(fs, fp, e, env, fuel); r.EOk? ==> TypedEnv(r.env)
    decreases fuel, if e.Some? then ESize(e.value) + 1 else 0
  {
    hide WfFuncs, TypedFuncs, Eval;
    if e.Some? { EvalTyped(fs, fp, e.value, env, fuel); }
  }

  /** What a statement leaves behind. */
  predicate TypedResult(r: SResult) { r.SOk? ==> TypedEnv(r.env) && (r.out.Returned? ==> !r.out.v.Untyped?) }

  /** In such a program no value is ever without a type, so that comparisons are those of numbers. */
  lemma {:induction false} ExecTyped(fs: Funcs, fp: Fpu, s: Stmt, env: Env, fuel: nat)
    requires WfFuncs(fs, |env.globals|) && WfS(s, fs, |env.globals|, |env.locals|) && TypedFuncs(fs) && TypedEnv(env)
    ensures TypedResult(Exec(fs, fp, s, env, fuel))
    decreases fuel, SSize(s), 1
  {
    hide WfFuncs, TypedFuncs, TypedEnv, Eval, EvalOpt, ExecB, ExecFor, Truth;
    match s
    case SExpr(e) => EvalTyped(fs, fp, e, env, fuel);
    case SReturn(e) => if e.Some? { EvalTyped(fs, fp, e.value, env, fuel); }
    case SBlock(b) => BlockTyped(fs, fp, b, env, fuel);
    case SIf(c, t) =>
      EvalTyped(fs, fp, c, env, fuel);
      var a := Eval(fs, fp, c, env, fuel);
      if a.EOk? { ExecTyped(fs, fp, t, a.env, fuel); }
    case SIfElse(c, t, f) =>
      EvalTyped(fs, fp, c, env, fuel);
      var a := Eval(fs, fp, c, env, fuel);
      if a.EOk? { ExecTyped(fs, fp, if Truth(fp, a.v) then t else f, a.env, fuel); }
    case SWhile(_, _) => LoopTyped(fs, fp, s, env, fuel);
    case SDo(_, _) => LoopTyped(fs, fp, s, env, fuel);
    case SFor(i, _, _, _) =>
      OptTyped(fs, fp, i, env, fuel);
      var a := EvalOpt(fs, fp, i, env, fuel);
      if a.EOk? { ForTyped(fs, fp, s, a.env, fuel); }
    case _ =>
  }

  lemma {:induction false} LoopTyped(fs: Funcs, fp: Fpu, s: Stmt, env: Env, fuel: nat)
    requires WfFuncs(fs, |env.globals|) && WfS(s, fs, |env.globals|, |env.locals|) && TypedFuncs(fs) && TypedEnv(env)
    requires s.SWhile? || s.SDo?
    ensures TypedResult(Exec(fs, fp, s, env, fuel))
    decreases fuel, SSize(s), 0
  {
    hide WfFuncs, TypedFuncs, TypedEnv, Eval, EvalOpt, ExecB, ExecFor, Truth;
    if s.SWhile? {
      EvalTyped(fs, fp, s.cond, env, fuel);
      var a := Eval(fs, fp, s.cond, env, fuel);
      if a.EOk? && Truth(fp, a.v) {
        ExecTyped(fs, fp, s.loop, a.env, fuel);
        var r := Exec(fs, fp, s.loop, a.env, fuel);
        if r.SOk? && fuel > 0 { ExecTyped(fs, fp, s, r.env, fuel - 1); }
      }
    } else {
      ExecTyped(fs, fp, s.loop, env, fuel);
      var r := Exec(fs, fp, s.loop, env, fuel);
      if r.SOk? {
        EvalTyped(fs, fp, s.cond, r.env, fuel);
        var a := Eval(fs, fp, s.cond, r.env, fuel);
        if a.EOk? && fuel > 0 { ExecTyped(fs, fp, s, a.env, fuel - 1); }
      }
    }
  }

  lemma {:induction false} ForTyped(fs: Funcs, fp: Fpu, s: Stmt, env: Env, fuel: nat)
    requires WfFuncs(fs, |env.globals|) && WfS(s, fs, |env.globals|, |env.locals|) && TypedFuncs(fs) && TypedEnv(env) && s.SFor?
    ensures TypedResult(ExecFor(fs, fp, s, env, fuel))
    decreases fuel, SSize(s), 0
  {
    hide WfFuncs, TypedFuncs, TypedEnv, Eval, EvalOpt, Exec, ExecB, Truth;
    OptTyped(fs, fp, s.test, env, fuel);
    var a := EvalOpt(fs, fp, s.test, env, fuel);
    if a.EOk? {
      ExecTyped(fs, fp, s.loop, a.env, fuel);
      var r := Exec(fs, fp, s.loop, a.env, fuel);
      if r.SOk? {
        OptTyped(fs, fp, s.incr, r.env, fuel);
        var b := EvalOpt(fs, fp, s.incr, r.env, fuel);
        if b.EOk? && fuel > 0 { ForTyped(fs, fp, s, b.env, fuel - 1); }
      }
    }
  }

  lemma {:induction false} BlockTyped(fs: Funcs, fp: Fpu, b: seq<Stmt>, env: Env, fuel: nat)
    requires WfFuncs(fs, |env.globals|) && WfB(b, fs, |env.globals|, |env.locals|) && TypedFuncs(fs) && TypedEnv(env)
    ensures TypedResult(ExecB(fs, fp, b, env, fuel))
    decreases fuel, BSize(b), 2
  {
    hide WfFuncs, TypedFuncs, TypedEnv, Eval, EvalOpt, Exec, Truth;
    if b != [] {
      ExecTyped(fs, fp, b[0], env, fuel);
      var r := Exec(fs, fp, b[0], env, fuel);
      if r.SOk? && r.out.Normal? { BlockTyped(fs, fp, b[1..], r.env, fuel); }
    }
  }

  // ---------- whole programs ----------

  /** Every variable and every parameter is used as a scalar somewhere in its scope. */
  ghost predicate TypedProgram(items: seq<Item>, ng: nat) {
    TypedFuncs(FuncsOf(items)) && forall x :: FIRST_GLOBAL <= x < FIRST_GLOBAL + ng ==> x in ScalarsOf(items)
  }

  lemma {:induction false} BeginsTyped(fs: Funcs, fp: Fpu, bs: seq<seq<Stmt>>, env: Env, fuel: nat)
    requires WfFuncs(fs, |env.globals|) && (forall b :: b in bs ==> WfB(b, fs, |env.globals|, |env.locals|)) && TypedFuncs(fs) && TypedEnv(env)
    ensures var r := ExecBegins(fs, fp, bs, env, fuel); r.SOk? ==> TypedEnv(r.env)
  {
    hide WfFuncs, WfB, TypedFuncs, TypedEnv, ExecB;
    if bs != [] {
      assert bs[0] in bs && forall b :: b in bs[1..] ==> b in bs;
      BlockTyped(fs, fp, bs[0], env, fuel);
      var r := ExecB(fs, fp, bs[0], env, fuel);
      if r.SOk? { BeginsTyped(fs, fp, bs[1..], r.env, fuel); }
    }
  }

  /** Then all variables are scalars from beginning to end. */
  lemma MeaningTyped(items: seq<Item>, fp: Fpu, ng: nat, fuel: nat)
    requires WellFormed(items, ng) && TypedProgram(items, ng)
    ensures TypedEnv(Start(items, ng))
    ensures var r := Meaning(items, fp, ng, fuel); r.SOk? ==> TypedEnv(r.env)
  {
    hide WellFormed, FuncsOf, BeginsOf, ScalarsOf, ExecBegins, TypedFuncs, WfB, PlacedB, WfFuncs;
    WellFormedParts(items, ng);
    forall i | 0 <= i < ng ensures !Start(items, ng).globals[i].Untyped? {
      assert FIRST_GLOBAL + i in ScalarsOf(items);
      StartAt(items, ng, i);
    }
    BeginsTyped(FuncsOf(items), fp, BeginsOf(items), Start(items, ng), fuel);
  }

  // ---------- a program in which it shows ----------

  const Y := FIRST_GLOBAL
  const X := FIRST_GLOBAL + 1

  /** function g(b) { return b == 0 } */
  const IS_ZERO := FuncDef(1, [SReturn(Some(Bin(TK_EQ, Var(-1), Num(ZERO))))])

  /** y = g(x) */
  const CALL := SExpr(Asgn(TK_ASGN, Y, Call(1, [Var(X)])))

  /** The same program, with the given statements in front of the call. */
  function Comparing(first: seq<Stmt>): seq<Item> { [Function(1, IS_ZERO.nparms, IS_ZERO.body), Begin(first + [CALL])] }

  lemma ItemsAre(first: seq<Stmt>)
    ensures FuncsOf(Comparing(first)) == map[1 := IS_ZERO] && BeginsOf(Comparing(first)) == [first + [CALL]]
    ensures ScalarsOf(Comparing(first)) == GlobalSlots(UsesB(first + [CALL]))
  {
    var items := Comparing(first);
    assert items[..1] == [items[0]] && [items[0]][..0] == [];
    assert FuncsOf([]) == map[] && BeginsOf([]) == [] && ScalarsOf([]) == {};
    assert UsesB(IS_ZERO.body) == {-1} by { assert IS_ZERO.body[1..] == []; }
    assert GlobalSlots({-1}) == {};
  }

  lemma IsZero(fp: Fpu, fs: Funcs, env: Env, fuel: nat)
    requires fs == map[1 := IS_ZERO] && WfFuncs(fs, |env.globals|) && |env.locals| == 1
    ensures ExecB(fs, fp, IS_ZERO.body, env, fuel) == SOk(Returned(Logical(Compare(fp, TK_EQ, env.locals[0], NUMERIC_ZERO))), env)
  {
    hide WfFuncs, Compare;
    var l, r := Var(-1), Num(ZERO);
    var e := Bin(TK_EQ, l, r);
    assert Eval(fs, fp, l, env, fuel) == EOk(env.locals[0], env);
    assert Eval(fs, fp, r, env, fuel) == EOk(NUMERIC_ZERO, env);
    assert Eval(fs, fp, e, env, fuel) == EOk(Logical(Compare(fp, TK_EQ, env.locals[0], NUMERIC_ZERO)), env);
    assert IS_ZERO.body == [SReturn(Some(e))];
    assert Exec(fs, fp, SReturn(Some(e)), env, fuel) == SOk(Returned(Logical(Compare(fp, TK_EQ, env.locals[0], NUMERIC_ZERO))), env);
  }

  lemma CallFacts(fs: Funcs)
    requires 1 in fs
    ensures WfE(Call(1, [Var(X)]), fs, 2, 0) && WfE(CALL.e, fs, 2, 0) && WfS(CALL, fs, 2, 0) && UsesS(CALL) == {Y}
  {
    var args := [Var(X)];
    assert args[1..] == [] && WfArgs([], fs, 2, 0) && UsesArgs([]) == {};
    assert WfE(args[0], fs, 2, 0) && WfArgs(args, fs, 2, 0) && UsesArgs(args) == {};
    assert UsesE(Call(1, args)) == {} && UsesE(CALL.e) == {Y};
  }

  lemma CallResult(fp: Fpu, fs: Funcs, env: Env, fuel: nat)
    requires fs == map[1 := IS_ZERO] && WfFuncs(fs, 2) && |env.globals| == 2 && env.locals == [] && fuel > 0
    ensures WfS(CALL, fs, 2, 0)
    ensures Exec(fs, fp, CALL, env, fuel) == SOk(Normal, Env([Logical(Compare(fp, TK_EQ, env.globals[1], NUMERIC_ZERO)), env.globals[1]], []))
  {
    CallFacts(fs);
    hide WfFuncs, Compare, UsesB, ExecB;
    var args := [Var(X)];
    var x, v := env.globals[1], Logical(Compare(fp, TK_EQ, env.globals[1], NUMERIC_ZERO));
    assert Eval(fs, fp, Var(X), env, fuel) == EOk(x, env);
    assert args[1..] == [] && EvalArgs(fs, fp, [], env, fuel) == AOk([], env);
    assert EvalArgs(fs, fp, args, env, fuel) == AOk([x], env);
    assert FrameOf([x], IS_ZERO) == [x];
    IsZero(fp, fs, Env(env.globals, [x]), fuel - 1);
    assert Eval(fs, fp, Call(1, args), env, fuel) == EOk(v, Env(env.globals, []));
    assert Eval(fs, fp, Asgn(TK_ASGN, Y, Call(1, args)), env, fuel) == EOk(v, Env([v, x], []));
  }

  lemma OneRule(items: seq<Item>, fp: Fpu, ng: nat, b: seq<Stmt>, fuel: nat)
    requires WellFormed(items, ng) && BeginsOf(items) == [b]
    ensures WfFuncs(FuncsOf(items), ng) && WfB(b, FuncsOf(items), ng, 0)
    ensures var r := ExecB(FuncsOf(items), fp, b, Start(items, ng), fuel);
      Meaning(items, fp, ng, fuel) == if r.STimeout? then r else SOk(Normal, r.env)
  {
    hide WellFormed, FuncsOf, BeginsOf, Start, ExecB, WfB, WfFuncs, PlacedB;
    WellFormedParts(items, ng);
    assert b in BeginsOf(items) && [b][1..] == [];
    var r := ExecB(FuncsOf(items), fp, b, Start(items, ng), fuel);
    if r.SOk? { assert ExecBegins(FuncsOf(items), fp, [], r.env, fuel) == SOk(Normal, r.env); }
  }

  lemma StartAt(items: seq<Item>, ng: nat, i: nat)
    requires i < ng
    ensures Start(items, ng).globals[i] == Fresh(ScalarsOf(items), FIRST_GLOBAL + i)
  {}

  lemma RuleFacts(first: seq<Stmt>, fs: Funcs)
    requires (first == [] || first == [SExpr(Var(X))]) && 1 in fs
    ensures var b := first + [CALL];
      WfB(b, fs, 2, 0) && PlacedB(b, false, false) && UsesB(b) == (if first == [] then {Y} else {X, Y}) && LocalSlots(UsesB(b)) == {} && GlobalSlots(UsesB(b)) == UsesB(b)
  {
    CallFacts(fs);
    assert [CALL][1..] == [] && WfB([], fs, 2, 0) && WfB([CALL], fs, 2, 0) && UsesB([]) == {} && UsesB([CALL]) == {Y};
    assert PlacedB([], false, false) && PlacedB([CALL], false, false);
    if first != [] { assert (first + [CALL])[1..] == [CALL]; } else { assert first + [CALL] == [CALL]; }
  }

  lemma ComparingWell(first: seq<Stmt>)
    requires first == [] || first == [SExpr(Var(X))]
    ensures WellFormed(Comparing(first), 2)
  {
    ItemsAre(first);
    var items, fs := Comparing(first), map[1 := IS_ZERO];
    assert items[..1] == [items[0]] && [items[0]][..0] == [];
    assert WfE(Call(1, [Var(X)]), fs, 2, 0) by { assert [Var(X)][1..] == []; }
    RuleFacts(first, fs);
    assert IS_ZERO.body[1..] == [] && WfB(IS_ZERO.body, fs, 2, 1) && PlacedB(IS_ZERO.body, false, true);
    assert Distinct([items[0]]) && Distinct(items);
  }

  /** A variable that occurs only as an argument is compared as text, whatever comparison of numbers is: y becomes 0. */
  lemma BareArgument(fp: Fpu, fuel: nat)
    requires fuel > 0
    ensures WellFormed(Comparing([]), 2) && Meaning(Comparing([]), fp, 2, fuel) == SOk(Normal, Env([NUMERIC_ZERO, Untyped], []))
  {
    ComparingWell([]);
    ItemsAre([]);
    WellFormedParts(Comparing([]), 2);
    hide WellFormed, FuncsOf, BeginsOf, ScalarsOf, Comparing, WfFuncs;
    var env := Start(Comparing([]), 2);
    assert [] + [CALL] == [CALL] && [CALL][1..] == [];
    RuleFacts([], map[1 := IS_ZERO]);
    StartAt(Comparing([]), 2, 0);
    StartAt(Comparing([]), 2, 1);
    assert env == Env([Uninit, Untyped], []);
    CallResult(fp, map[1 := IS_ZERO], env, fuel);
    OneRule(Comparing([]), fp, 2, [CALL], fuel);
  }

  /** If it is also used as a scalar, anywhere, then it is compared as the number zero. */
  lemma AlsoScalar(fp: Fpu, fuel: nat)
    requires fuel > 0
    ensures WellFormed(Comparing([SExpr(Var(X))]), 2)
    ensures Meaning(Comparing([SExpr(Var(X))]), fp, 2, fuel) == SOk(Normal, Env([Logical(fp.compare(TK_EQ, ZERO, ZERO)), Uninit], []))
  {
    var first := [SExpr(Var(X))];
    ComparingWell(first);
    ItemsAre(first);
    WellFormedParts(Comparing(first), 2);
    hide WellFormed, FuncsOf, BeginsOf, ScalarsOf, Comparing, WfFuncs;
    var fs, env := map[1 := IS_ZERO], Start(Comparing(first), 2);
    assert (first + [CALL])[1..] == [CALL] && [CALL][1..] == [];
    RuleFacts(first, fs);
    StartAt(Comparing(first), 2, 0);
    StartAt(Comparing(first), 2, 1);
    assert env == Env([Uninit, Uninit], []);
    assert Eval(fs, fp, Var(X), env, fuel) == EOk(Uninit, env);
    assert Exec(fs, fp, first[0], env, fuel) == SOk(Normal, env);
    CallResult(fp, fs, env, fuel);
    var r := Exec(fs, fp, CALL, env, fuel);
    assert ExecB(fs, fp, [], r.env, fuel) == SOk(Normal, r.env);
    assert ExecB(fs, fp, [CALL], env, fuel) == r;
    assert ExecB(fs, fp, first + [CALL], env, fuel) == r;
    OneRule(Comparing(first), fp, 2, first + [CALL], fuel);
  }
}
