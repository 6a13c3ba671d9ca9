/** What C statements mean, and the conversions the compiler inserts into them. */
module CcFlow {
  import opened CcInt
  import opened CcGen
  import opened Wrappers

  /** How a statement ends: it runs off its end, leaves through a jump, does something undefined, or is not done within the fuel. */
  datatype Outcome =
    | Normal(env: Env)
    | Broke(env: Env)
    | Continued(env: Env)
    | Returned(val: Option<int>, env: Env)
    | Stuck
    | Timeout

  /** Variables have their types, and only loops are left by break and continue. */
  ghost predicate Fitting(r: Outcome, vars: seq<Ty>, inLoop: bool) {
    match r
    case Normal(env) => Fits(env, vars)
    case Broke(env) => Fits(env, vars) && inLoop
    case Continued(env) => Fits(env, vars) && inLoop
    case Returned(_, env) => Fits(env, vars)
    case Stuck => true
    case Timeout => true
  }

  /** A statement in a function that returns type ret; every iteration of a loop uses up fuel. */
  function Exec(s: Stmt, vars: seq<Ty>, ret: Ty, env: Env, fuel: nat, inLoop: bool): (r: Outcome)
    requires WfS(s, vars, inLoop) && Fits(env, vars)
    ensures Fitting(r, vars, inLoop)
    decreases fuel, s, 0
  {
    hide Eval, Wf, Fits;
    match s
    case SExpr(e) =>
      var r := Eval(e, vars, env);
      if r.Ok? then Normal(r.env) else Stuck
    case SBlock(b) => ExecB(b, vars, ret, env, fuel, inLoop)
    case SIf(c, t, f) =>
      var a := Eval(c, vars, env);
      if a.Undefined? then Stuck
      else if a.v != 0 then Exec(t, vars, ret, a.env, fuel, inLoop)
      else if f.Some? then Exec(f.value, vars, ret, a.env, fuel, inLoop)
      else Normal(a.env)
    case SFor(i, t, u, b) =>
      if i.Some? then
        var r := Exec(i.value, vars, ret, env, fuel, false);
        if r.Normal? then Loop(Before(t, u, b), vars, ret, r.env, fuel) else r
      else
        Loop(Before(t, u, b), vars, ret, env, fuel)
    case SDo(b, c) => Loop(After(b, c), vars, ret, env, fuel)
    case SBreak => Broke(env)
    case SContinue => Continued(env)
    case SReturn(e) =>
      if e.None? then Returned(None, env)
      else
        var r := Eval(e.value, vars, env);
        if r.Ok? then Returned(Some(Wrap(ret, r.v)), r.env) else Stuck
  }

  function ExecB(b: seq<Stmt>, vars: seq<Ty>, ret: Ty, env: Env, fuel: nat, inLoop: bool): (r: Outcome)
    requires WfB(b, vars, inLoop) && Fits(env, vars)
    ensures Fitting(r, vars, inLoop)
    decreases fuel, b, 0
  {
    hide Eval, Wf, Fits;
    if b == [] then Normal(env)
    else
      var r := Exec(b[0], vars, ret, env, fuel, inLoop);
      if r.Normal? then ExecB(b[1..], vars, ret, r.env, fuel, inLoop) else r
  }

  // ---------- loops ----------

  /** `for` and `while` test before the body, `do` after it. */
  datatype LoopParts = Before(test: Option<Expr>, inc: Option<Expr>, body: Stmt) | After(body: Stmt, c: Expr)

  predicate WfL(l: LoopParts, vars: seq<Ty>) {
    WfS(l.body, vars, true) && if l.Before? then WfOpt(l.test, vars) && WfOpt(l.inc, vars) else Wf(l.c, vars)
  }

  /** An expression that may be missing, and then has value 1. */
  function EvalOpt(e: Option<Expr>, vars: seq<Ty>, env: Env): (r: Result)
    requires WfOpt(e, vars) && Fits(env, vars)
    ensures r.Ok? ==> Fits(r.env, vars)
  {
    if e.Some? then Eval(e.value, vars, env) else Ok(1, env)
  }

  /** Whether the body is entered. */
  function Enter(l: LoopParts, vars: seq<Ty>, env: Env): (r: Result)
    requires WfL(l, vars) && Fits(env, vars)
    ensures r.Ok? ==> Fits(r.env, vars)
  {
    if l.Before? then EvalOpt(l.test, vars, env) else Ok(1, env)
  }

  /** Whether another iteration follows the body; for a `for` loop, what the test finds then decides. */
  function Again(l: LoopParts, vars: seq<Ty>, env: Env): (r: Result)
    requires WfL(l, vars) && Fits(env, vars)
    ensures r.Ok? ==> Fits(r.env, vars)
  {
    if l.After? then Eval(l.c, vars, env)
    else
      var r := EvalOpt(l.inc, vars, env);
      if r.Ok? then Ok(1, r.env) else r
  }

  /** A loop that ends by a break is over; otherwise what ended it goes on. */
  function Left(r: Outcome): Outcome { if r.Broke? then Normal(r.env) else r }

  function Loop(l: LoopParts, vars: seq<Ty>, ret: Ty, env: Env, fuel: nat): (r: Outcome)
    requires WfL(l, vars) && Fits(env, vars)
    ensures Fitting(r, vars, false)
    decreases fuel, l.body, 1
  {
    hide Enter, Again, Fits, WfS, Wf, WfOpt;
    if fuel == 0 then Timeout
    else
      var a := Enter(l, vars, env);
      if a.Undefined? then Stuck
      else if a.v == 0 then Normal(a.env)
      else LoopTail(l, vars, ret, Exec(l.body, vars, ret, a.env, fuel - 1, true), fuel - 1)
  }

  /** The rest of a loop whose body has ended as r says. */
  function LoopTail(l: LoopParts, vars: seq<Ty>, ret: Ty, r: Outcome, fuel: nat): (r': Outcome)
    requires WfL(l, vars) && Fitting(r, vars, true)
    ensures Fitting(r', vars, false)
    decreases fuel, l.body, 2
  {
    hide Enter, Again, Fits, WfL;
    if r.Normal? || r.Continued? then
      var a := Again(l, vars, r.env);
      if a.Undefined? then Stuck else if a.v == 0 then Normal(a.env) else Loop(l, vars, ret, a.env, fuel)
    else
      Left(r)
  }

  // ---------- the typed tree ----------

  function TypeOpt(e: Option<Expr>, vars: seq<Ty>): Option<Expr>
    requires WfOpt(e, vars)
  {
    if e.Some? then Some(AddType(e.value, vars)) else None
  }

  /** The statement with conversions inserted; what a function returns is converted to its type. */
  function TypeS(s: Stmt, vars: seq<Ty>, ret: Ty, inLoop: bool): (r: Stmt)
    requires WfS(s, vars, inLoop)
    ensures WfS(r, vars, inLoop)
    decreases s, 0
  {
    hide Wf, AddType;
    match s
    case SExpr(e) => SExpr(AddType(e, vars))
    case SBlock(b) => SBlock(TypeB(b, vars, ret, inLoop))
    case SIf(c, t, f) =>
      SIf(AddType(c, vars), TypeS(t, vars, ret, inLoop), if f.Some? then Some(TypeS(f.value, vars, ret, inLoop)) else None)
    case SFor(i, t, u, b) =>
      SFor(if i.Some? then Some(TypeS(i.value, vars, ret, false)) else None, TypeOpt(t, vars), TypeOpt(u, vars), TypeS(b, vars, ret, true))
    case SDo(b, c) => SDo(TypeS(b, vars, ret, true), AddType(c, vars))
    case SBreak => s
    case SContinue => s
    case SReturn(e) => if e.None? then s else TypedReturn(e.value, vars, ret)
  }

  function TypedReturn(e: Expr, vars: seq<Ty>, ret: Ty): (r: Stmt)
    requires Wf(e, vars)
    ensures r.SReturn? && r.ret.Some? && WfOpt(r.ret, vars)
  {
    SReturn(Some(NewCast(AddType(e, vars), ret)))
  }

  function TypeB(b: seq<Stmt>, vars: seq<Ty>, ret: Ty, inLoop: bool): (r: seq<Stmt>)
    requires WfB(b, vars, inLoop)
    ensures WfB(r, vars, inLoop) && |r| == |b|
    decreases b, 0
  {
    hide WfS, TypeS;
    if b == [] then [] else [TypeS(b[0], vars, ret, inLoop)] + TypeB(b[1..], vars, ret, inLoop)
  }

  /** Every expression is typed, and what is returned has the function's type. */
  predicate TypedS(s: Stmt, vars: seq<Ty>, ret: Ty, inLoop: bool)
    requires WfS(s, vars, inLoop)
    decreases s, 0
  {
    match s
    case SExpr(e) => Typed(e, vars)
    case SBlock(b) => TypedB(b, vars, ret, inLoop)
    case SIf(c, t, f) => Typed(c, vars) && TypedS(t, vars, ret, inLoop) && (f.Some? ==> TypedS(f.value, vars, ret, inLoop))
    case SFor(i, t, u, b) => (i.Some? ==> TypedS(i.value, vars, ret, false)) && TypedOpt(t, vars) && TypedOpt(u, vars) && TypedS(b, vars, ret, true)
    case SDo(b, c) => TypedS(b, vars, ret, true) && Typed(c, vars)
    case SBreak => true
    case SContinue => true
    case SReturn(e) => TypedOpt(e, vars) && (e.Some? ==> TypeOf(e.value, vars) == ret)
  }

  predicate TypedOpt(e: Option<Expr>, vars: seq<Ty>)
    requires WfOpt(e, vars)
  {
    e.Some? ==> Typed(e.value, vars)
  }

  predicate TypedB(b: seq<Stmt>, vars: seq<Ty>, ret: Ty, inLoop: bool)
    requires WfB(b, vars, inLoop)
    decreases b, 0
  {
    b == [] || (TypedS(b[0], vars, ret, inLoop) && TypedB(b[1..], vars, ret, inLoop))
  }

  lemma OptTyped(e: Option<Expr>, vars: seq<Ty>)
    requires WfOpt(e, vars)
    ensures TypedOpt(TypeOpt(e, vars), vars)
  {
    hide Typed, AddType;
    if e.Some? { AddTypeTyped(e.value, vars); }
  }

  lemma ReturnTyped(e: Expr, vars: seq<Ty>, ret: Ty)
    requires Wf(e, vars)
    ensures TypedS(TypedReturn(e, vars, ret), vars, ret, false) && TypedS(TypedReturn(e, vars, ret), vars, ret, true)
  {
    hide AddType;
    AddTypeTyped(e, vars);
  }

  lemma {:induction false} TypeSTyped(s: Stmt, vars: seq<Ty>, ret: Ty, inLoop: bool)
    requires WfS(s, vars, inLoop)
    ensures TypedS(TypeS(s, vars, ret, inLoop), vars, ret, inLoop)
    decreases s, 0
  {
    hide Wf, AddType, Typed, TypeOpt, TypedOpt, TypedReturn;
    match s
    case SExpr(e) => AddTypeTyped(e, vars);
    case SBlock(b) => TypeBTyped(b, vars, ret, inLoop);
    case SIf(c, t, f) =>
      AddTypeTyped(c, vars);
      TypeSTyped(t, vars, ret, inLoop);
      if f.Some? { TypeSTyped(f.value, vars, ret, inLoop); }
    case SFor(i, t, u, b) =>
      if i.Some? { TypeSTyped(i.value, vars, ret, false); }
      OptTyped(t, vars);
      OptTyped(u, vars);
      TypeSTyped(b, vars, ret, true);
    case SDo(b, c) =>
      TypeSTyped(b, vars, ret, true);
      AddTypeTyped(c, vars);
    case SBreak => TypedJump(SBreak, vars, ret);
    case SContinue => TypedJump(SContinue, vars, ret);
    case SReturn(e) =>
      if e.Some? { ReturnTyped(e.value, vars, ret); } else { TypedJump(s, vars, ret); }
  }

  lemma TypedJump(s: Stmt, vars: seq<Ty>, ret: Ty)
    requires s.SBreak? || s.SContinue? || s == SReturn(None)
    ensures TypedS(s, vars, ret, true) && (s.SReturn? ==> TypedS(s, vars, ret, false))
  {}

  lemma {:induction false} TypeBTyped(b: seq<Stmt>, vars: seq<Ty>, ret: Ty, inLoop: bool)
    requires WfB(b, vars, inLoop)
    ensures TypedB(TypeB(b, vars, ret, inLoop), vars, ret, inLoop)
    decreases b, 0
  {
    if b != [] {
      hide WfS, TypeS, TypedS;
      TypeSTyped(b[0], vars, ret, inLoop);
      TypeBTyped(b[1..], vars, ret, inLoop);
      var r := TypeB(b, vars, ret, inLoop);
      assert r[1..] == TypeB(b[1..], vars, ret, inLoop);
    }
  }

  // ---------- inserting conversions keeps the meaning ----------

  lemma OptKeeps(e: Option<Expr>, vars: seq<Ty>, env: Env)
    requires WfOpt(e, vars) && Fits(env, vars)
    ensures WfOpt(TypeOpt(e, vars), vars) && EvalOpt(TypeOpt(e, vars), vars, env) == EvalOpt(e, vars, env)
  {
    hide AddType, Eval, Fits, Wf;
    if e.Some? { AddTypeKeeps(e.value, vars, env); }
  }

  function TypeL(l: LoopParts, vars: seq<Ty>, ret: Ty): (r: LoopParts)
    requires WfL(l, vars)
    ensures WfL(r, vars) && r.body == TypeS(l.body, vars, ret, true)
  {
    hide AddType, Wf, WfS, TypeS;
    match l
    case Before(t, u, b) => Before(TypeOpt(t, vars), TypeOpt(u, vars), TypeS(b, vars, ret, true))
    case After(b, c) => After(TypeS(b, vars, ret, true), AddType(c, vars))
  }

  lemma EnterKeeps(l: LoopParts, vars: seq<Ty>, ret: Ty, env: Env)
    requires WfL(l, vars) && Fits(env, vars)
    ensures Enter(TypeL(l, vars, ret), vars, env) == Enter(l, vars, env) && Again(TypeL(l, vars, ret), vars, env) == Again(l, vars, env)
  {
    hide AddType, Eval, Fits, Wf, WfS, WfOpt, TypeS, TypeOpt, EvalOpt;
    match l
    case Before(t, u, _) =>
      OptKeeps(t, vars, env);
      OptKeeps(u, vars, env);
    case After(_, c) => AddTypeKeeps(c, vars, env);
  }

  lemma ReturnKeeps(e: Expr, vars: seq<Ty>, ret: Ty, env: Env)
    requires Wf(e, vars) && Fits(env, vars)
    ensures var r := Eval(e, vars, env); var c := TypedReturn(e, vars, ret).ret.value;
      Wf(c, vars) && Eval(c, vars, env) == if r.Ok? then Ok(Wrap(ret, r.v), r.env) else Undefined
  {
    hide AddType, Fits, Wrap;
    AddTypeKeeps(e, vars, env);
  }

  lemma {:induction false} TypeSKeeps(s: Stmt, vars: seq<Ty>, ret: Ty, env: Env, fuel: nat, inLoop: bool)
    requires WfS(s, vars, inLoop) && Fits(env, vars)
    ensures Exec(TypeS(s, vars, ret, inLoop), vars, ret, env, fuel, inLoop) == Exec(s, vars, ret, env, fuel, inLoop)
    decreases fuel, s, 0
  {
    hide Wf, AddType, Eval, Fits, TypeOpt, TypedReturn, Loop;
    match s
    case SExpr(e) => AddTypeKeeps(e, vars, env);
    case SBlock(b) => TypeBKeeps(b, vars, ret, env, fuel, inLoop);
    case SIf(c, t, f) =>
      AddTypeKeeps(c, vars, env);
      var a := Eval(c, vars, env);
      if a.Ok? {
        if a.v != 0 { TypeSKeeps(t, vars, ret, a.env, fuel, inLoop); }
        else if f.Some? { TypeSKeeps(f.value, vars, ret, a.env, fuel, inLoop); }
      }
    case SFor(i, t, u, b) =>
      if i.Some? {
        TypeSKeeps(i.value, vars, ret, env, fuel, false);
        var r := Exec(i.value, vars, ret, env, fuel, false);
        if r.Normal? { LoopKeeps(Before(t, u, b), vars, ret, r.env, fuel); }
      } else {
        LoopKeeps(Before(t, u, b), vars, ret, env, fuel);
      }
    case SDo(b, c) => LoopKeeps(After(b, c), vars, ret, env, fuel);
    case SBreak =>
    case SContinue =>
    case SReturn(e) =>
      if e.Some? {
        ReturnKeeps(e.value, vars, ret, env);
      }
  }

  lemma {:induction false} TypeBKeeps(b: seq<Stmt>, vars: seq<Ty>, ret: Ty, env: Env, fuel: nat, inLoop: bool)
    requires WfB(b, vars, inLoop) && Fits(env, vars)
    ensures ExecB(TypeB(b, vars, ret, inLoop), vars, ret, env, fuel, inLoop) == ExecB(b, vars, ret, env, fuel, inLoop)
    decreases fuel, b, 0
  {
    if b != [] {
      hide WfS, TypeS, Exec, Fits;
      TypeSKeeps(b[0], vars, ret, env, fuel, inLoop);
      var x := Exec(b[0], vars, ret, env, fuel, inLoop);
      if x.Normal? { TypeBKeeps(b[1..], vars, ret, x.env, fuel, inLoop); }
      var r := TypeB(b, vars, ret, inLoop);
      assert r[1..] == TypeB(b[1..], vars, ret, inLoop);
    }
  }

  lemma LoopStep(l: LoopParts, vars: seq<Ty>, ret: Ty, env: Env, fuel: nat)
    requires WfL(l, vars) && WfS(l.body, vars, true) && Fits(env, vars) && fuel > 0
    ensures var a := Enter(l, vars, env);
      Loop(l, vars, ret, env, fuel) == if a.Undefined? then Stuck else if a.v == 0 then Normal(a.env)
                                       else LoopTail(l, vars, ret, Exec(l.body, vars, ret, a.env, fuel - 1, true), fuel - 1)
  {
    hide Enter, Again, Fits, WfL, LoopTail, Exec, WfS;
  }

  lemma {:induction false} LoopKeeps(l: LoopParts, vars: seq<Ty>, ret: Ty, env: Env, fuel: nat)
    requires WfL(l, vars) && Fits(env, vars)
    ensures Loop(TypeL(l, vars, ret), vars, ret, env, fuel) == Loop(l, vars, ret, env, fuel)
    decreases fuel, l.body, 1
  {
    if fuel > 0 {
      LoopBodyWf(l, vars);
      LoopBodyWf(TypeL(l, vars, ret), vars);
      hide Loop, Enter, Again, Fits, WfL, TypeS, TypeL, LoopTail, Exec, WfS;
      LoopStep(l, vars, ret, env, fuel);
      LoopStep(TypeL(l, vars, ret), vars, ret, env, fuel);
      EnterKeeps(l, vars, ret, env);
      var a := Enter(l, vars, env);
      if a.Ok? && a.v != 0 {
        TypeSKeeps(l.body, vars, ret, a.env, fuel - 1, true);
        TailKeeps(l, vars, ret, Exec(l.body, vars, ret, a.env, fuel - 1, true), fuel - 1);
      }
    }
  }

  lemma LoopBodyWf(l: LoopParts, vars: seq<Ty>)
    requires WfL(l, vars)
    ensures WfS(l.body, vars, true)
  {}

  lemma {:induction false} TailKeeps(l: LoopParts, vars: seq<Ty>, ret: Ty, r: Outcome, fuel: nat)
    requires WfL(l, vars) && Fitting(r, vars, true)
    ensures LoopTail(TypeL(l, vars, ret), vars, ret, r, fuel) == LoopTail(l, vars, ret, r, fuel)
    decreases fuel, l.body, 2
  {
    hide Enter, Again, Fits, WfL, TypeS, TypeL, Loop, Exec;
    if r.Normal? || r.Continued? {
      EnterKeeps(l, vars, ret, r.env);
      var a := Again(l, vars, r.env);
      if a.Ok? && a.v != 0 { LoopKeeps(l, vars, ret, a.env, fuel); }
    }
  }
}
