/** Legally placed statements never break or continue out of the code they belong to, nor return outside a function. */
module AwkEscape {
  import opened AwkSyntax
  import opened AwkValues
  import opened AwkSpine
  import opened AwkSemantics
  import opened Wrappers

  predicate Contained(r: SResult, inLoop: bool, inFunc: bool) {
    r.SOk? ==> (inLoop || r.out.Normal? || r.out.Returned?) && (inFunc || !r.out.Returned?)
  }

  lemma {:induction false} NoEscape(fs: Funcs, fp: Fpu, s: Stmt, inLoop: bool, inFunc: bool, env: Env, fuel: nat)
    requires WfFuncs(fs, |env.globals|) && WfS(s, fs, |env.globals|, |env.locals|) && Placed(s, inLoop, inFunc)
    ensures Contained(Exec(fs, fp, s, env, fuel), inLoop, inFunc)
    decreases fuel, SSize(s), 1
  {
    hide Eval, WfFuncs, ExecB, ExecFor;
    match s
    case SBlock(b) => NoEscapeB(fs, fp, b, inLoop, inFunc, env, fuel);
    case SIf(c, t) =>
      var a := Eval(fs, fp, c, env, fuel);
      if a.EOk? { NoEscape(fs, fp, t, inLoop, inFunc, a.env, fuel); }
    case SIfElse(c, t, f) =>
      var a := Eval(fs, fp, c, env, fuel);
      if a.EOk? { NoEscape(fs, fp, if Truth(fp, a.v) then t else f, inLoop, inFunc, a.env, fuel); }
    case SWhile(_, _) => NoEscapeLoop(fs, fp, s, inFunc, env, fuel);
    case SDo(_, _) => NoEscapeLoop(fs, fp, s, inFunc, env, fuel);
    case SFor(i, _, _, _) =>
      var a := EvalOpt(fs, fp, i, env, fuel);
      if a.EOk? { NoEscapeFor(fs, fp, s, inFunc, a.env, fuel); }
    case _ =>
  }

  lemma {:induction false} NoEscapeLoop(fs: Funcs, fp: Fpu, s: Stmt, inFunc: bool, env: Env, fuel: nat)
    requires WfFuncs(fs, |env.globals|) && WfS(s, fs, |env.globals|, |env.locals|) && Placed(s, false, inFunc)
    requires s.SWhile? || s.SDo?
    ensures Contained(Exec(fs, fp, s, env, fuel), false, inFunc)
    decreases fuel, SSize(s), 0
  {
    hide Eval, WfFuncs, ExecB, ExecFor;
    if s.SWhile? {
      var a := Eval(fs, fp, s.cond, env, fuel);
      if a.EOk? && Truth(fp, a.v) {
        NoEscape(fs, fp, s.loop, true, inFunc, a.env, fuel);
        var r := Exec(fs, fp, s.loop, a.env, fuel);
        if r.SOk? && fuel > 0 { NoEscape(fs, fp, s, false, inFunc, r.env, fuel - 1); }
      }
    } else {
      NoEscape(fs, fp, s.loop, true, inFunc, env, fuel);
      var r := Exec(fs, fp, s.loop, env, fuel);
      if r.SOk? && fuel > 0 {
        var a := Eval(fs, fp, s.cond, r.env, fuel);
        if a.EOk? { NoEscape(fs, fp, s, false, inFunc, a.env, fuel - 1); }
      }
    }
  }

  lemma {:induction false} NoEscapeFor(fs: Funcs, fp: Fpu, s: Stmt, inFunc: bool, env: Env, fuel: nat)
    requires WfFuncs(fs, |env.globals|) && WfS(s, fs, |env.globals|, |env.locals|) && s.SFor? && Placed(s, false, inFunc)
    ensures Contained(ExecFor(fs, fp, s, env, fuel), false, inFunc)
    decreases fuel, SSize(s), 0
  {
    hide Eval, WfFuncs, ExecB, Exec;
    var a := EvalOpt(fs, fp, s.test, env, fuel);
    if a.EOk? {
      NoEscape(fs, fp, s.loop, true, inFunc, a.env, fuel);
      var r := Exec(fs, fp, s.loop, a.env, fuel);
      if r.SOk? && fuel > 0 {
        var b := EvalOpt(fs, fp, s.incr, r.env, fuel);
        if b.EOk? { NoEscapeFor(fs, fp, s, inFunc, b.env, fuel - 1); }
      }
    }
  }

  lemma {:induction false} NoEscapeB(fs: Funcs, fp: Fpu, b: seq<Stmt>, inLoop: bool, inFunc: bool, env: Env, fuel: nat)
    requires WfFuncs(fs, |env.globals|) && WfB(b, fs, |env.globals|, |env.locals|) && PlacedB(b, inLoop, inFunc)
    ensures Contained(ExecB(fs, fp, b, env, fuel), inLoop, inFunc)
    decreases fuel, BSize(b), 2
  {
    hide Eval, WfFuncs, Exec;
    if b != [] {
      NoEscape(fs, fp, b[0], inLoop, inFunc, env, fuel);
      var r := Exec(fs, fp, b[0], env, fuel);
      if r.SOk? && r.out.Normal? { NoEscapeB(fs, fp, b[1..], inLoop, inFunc, r.env, fuel); }
    }
  }
}
