/** Whole function bodies: the generated code stops exactly if the function does, with the right value and variables. */
module CcBody {
  import opened CcInt
  import opened CcMachine
  import opened CcGen
  import opened CcValues
  import opened CcExpr
  import opened CcLabels
  import opened CcFlow
  import opened CcStmt
  import opened Wrappers

  /** A function as it is written: its body, the types of its variables and of its value. */
  datatype Function = Function(body: Stmt, vars: seq<Ty>, ret: Ty)

  predicate WfF(f: Function) { WfS(f.body, f.vars, false) }

  /** What the function does, given the values its variables start with. */
  function Meaning(f: Function, env: Env, fuel: nat): Outcome
    requires WfF(f) && Fits(env, f.vars)
  {
    Exec(f.body, f.vars, f.ret, env, fuel, false)
  }

  /** The code that is generated for it, after conversions have been inserted. */
  function Compile(f: Function, offs: Offsets): seq<Insn>
    requires WfF(f) && |offs| == |f.vars|
  {
    GenBody(TypeS(f.body, f.vars, f.ret, false), f.vars, offs)
  }

  /** A state at the beginning of the code at pc, with the variables in their places. */
  ghost predicate Starts(f: Function, fr: Frame, st: State, env: Env) {
    fr.vars == f.vars && WfF(f) && Laid(fr) && |fr.offs| == |fr.vars| && Holds(st, fr, env) && Fits(env, f.vars)
  }

  /** n instructions lead to the end of the code, with the value in rax that outcome r calls for and the variables in memory. */
  ghost predicate Returns(p: seq<Insn>, f: Function, fr: Frame, st: State, n: nat, end: int, r: Outcome) {
    && (r.Normal? || r.Returned?) && |fr.offs| == |fr.vars| && Run(p, st, n).Some?
    && var s := Run(p, st, n).value;
       && s.pc == end && Holds(s, fr, r.env) && Kept(st, s, fr)
       && (r.Returned? && r.val.Some? ==> Rep(f.ret, r.val.value, s.rax))
  }

  // ---------- the code inside a larger program ----------

  lemma BodyCode(p: seq<Insn>, f: Function, fr: Frame, st: State, env: Env)
    requires Starts(f, fr, st, env) && UniqueLabels(p) && CodeAt(p, st.pc, Compile(f, fr.offs))
    ensures var t := TypeS(f.body, f.vars, f.ret, false); var c := GenS(t, f.vars, fr.offs, 1, 0, false); var end := st.pc + |c|;
      && Compile(f, fr.offs) == c + [Lbl(Label(LReturn, 0))] && LabelAt(p, end, Label(LReturn, 0))
      && ReadyS(Place(p, fr, f.ret), t, 1, 0, false, st.pc, Exits(0, 0, end)) && Good(Place(p, fr, f.ret), st, env)
  {
    hide UniqueLabels, Laid, CodeAt, GenS, TypeS, TypedS, WfS, Holds, Fits;
    TypeSTyped(f.body, f.vars, f.ret, false);
    var c := GenS(TypeS(f.body, f.vars, f.ret, false), f.vars, fr.offs, 1, 0, false);
    CodeCat(p, st.pc, c, [Lbl(Label(LReturn, 0))]);
    OneLabel(p, st.pc + |c|, Label(LReturn, 0));
  }

  /** The label at the end is all that is left. */
  lemma BodyEnd(p: seq<Insn>, f: Function, fr: Frame, st: State, n: nat, end: int, r: Outcome, fuel: nat) returns (m: nat)
    requires Ends(Place(p, fr, f.ret), st, n, end, Exits(0, 0, end), r, fuel) && !r.Broke? && !r.Continued? && !r.Stuck?
    requires LabelAt(p, end, Label(LReturn, 0))
    ensures r.Timeout? ==> m >= fuel && Run(p, st, m).Some?
    ensures !r.Timeout? ==> Returns(p, f, fr, st, m, end + 1, r)
  {
    m := n;
    if !r.Timeout? {
      hide Run, Holds, Kept, Rep;
      var g := Place(p, fr, f.ret);
      PassTo(g, st, n, end, Label(LReturn, 0), r.env);
      var s := Run(p, st, n).value;
      PassLabel(p, s, Label(LReturn, 0));
      Chain(p, st, n, s, 1, Some(s.(pc := s.pc + 1)));
      m := n + 1;
    }
  }

  lemma MeaningKinds(f: Function, env: Env, fuel: nat)
    requires WfF(f) && Fits(env, f.vars)
    ensures !Meaning(f, env, fuel).Broke? && !Meaning(f, env, fuel).Continued?
  {
    hide Exec, WfS, Fits;
    assert Fitting(Meaning(f, env, fuel), f.vars, false);
  }

  /** Running the compiled body: it returns what the function returns, and if the function needs more fuel it runs on. */
  lemma BodyRuns(p: seq<Insn>, f: Function, fr: Frame, st: State, env: Env, fuel: nat) returns (n: nat)
    requires Starts(f, fr, st, env) && UniqueLabels(p) && CodeAt(p, st.pc, Compile(f, fr.offs)) && !Meaning(f, env, fuel).Stuck?
    ensures var r := Meaning(f, env, fuel);
      if r.Timeout? then n >= fuel && Run(p, st, n).Some? else Returns(p, f, fr, st, n, st.pc + |Compile(f, fr.offs)|, r)
  {
    hide UniqueLabels, Laid, CodeAt, GenS, TypeS, WfS, Holds, Fits, Exec, Run, Returns, Ends, LabelAt, ReadyS, Good;
    BodyCode(p, f, fr, st, env);
    var g := Place(p, fr, f.ret);
    var t := TypeS(f.body, f.vars, f.ret, false);
    var end := st.pc + |GenS(t, f.vars, fr.offs, 1, 0, false)|;
    n := SimS(g, t, 1, 0, false, Exits(0, 0, end), st, env, fuel);
    TypeSKeeps(f.body, f.vars, f.ret, env, fuel, false);
    MeaningKinds(f, env, fuel);
    n := BodyEnd(p, f, fr, st, n, end, Meaning(f, env, fuel), fuel);
  }

  // ---------- the code on its own ----------

  lemma {:induction false} RunPrefix(p: seq<Insn>, st: State, n: nat, k: nat)
    requires Run(p, st, n + k).Some?
    ensures Run(p, st, n).Some?
  {
    RunSplit(p, st, n, k);
  }

  lemma NoMore(p: seq<Insn>, st: State, n: nat)
    requires Run(p, st, n).Some? && Run(p, st, n).value.pc == |p|
    ensures Run(p, st, n + 1).None?
  {
    RunSplit(p, st, n, 1);
    assert Step(p, Run(p, st, n).value).None?;
  }

  /** Nothing can run beyond the end of the program. */
  lemma RunsOut(p: seq<Insn>, st: State, n: nat, m: nat)
    requires Run(p, st, n).Some? && Run(p, st, n).value.pc == |p| && Run(p, st, m).Some?
    ensures m <= n
  {
    NoMore(p, st, n);
    if m > n { RunPrefix(p, st, n + 1, m - n - 1); }
  }

  /** The machine reaches the end of the program after n instructions. */
  ghost predicate Stops(p: seq<Insn>, st: State, n: nat) { Run(p, st, n).Some? && Run(p, st, n).value.pc == |p| }

  /** The function is done within the fuel. */
  ghost predicate Finishes(f: Function, env: Env, fuel: nat)
    requires WfF(f) && Fits(env, f.vars)
  {
    !Meaning(f, env, fuel).Timeout?
  }

  lemma Alone(f: Function, offs: Offsets)
    requires WfF(f) && |offs| == |f.vars|
    ensures UniqueLabels(Compile(f, offs)) && CodeAt(Compile(f, offs), 0, Compile(f, offs))
  {
    hide UniqueLabels, GenBody, TypeS, WfS;
    BodyUnique(TypeS(f.body, f.vars, f.ret, false), f.vars, offs);
  }

  /** If the code stops, then the function is done, and the code has computed what the function returns. */
  lemma StopsRight(f: Function, fr: Frame, st: State, env: Env, n: nat)
    requires Starts(f, fr, st, env) && st.pc == 0 && Stops(Compile(f, fr.offs), st, n) && !Meaning(f, env, n + 1).Stuck?
    ensures Finishes(f, env, n + 1)
    ensures Returns(Compile(f, fr.offs), f, fr, st, n, |Compile(f, fr.offs)|, Meaning(f, env, n + 1))
  {
    hide UniqueLabels, Laid, CodeAt, Compile, WfF, Holds, Fits, Meaning, Run, Step, Kept, Rep;
    var p := Compile(f, fr.offs);
    Alone(f, fr.offs);
    var m := BodyRuns(p, f, fr, st, env, n + 1);
    RunsOut(p, st, n, m);
    RunsOut(p, st, m, n);
  }

  /** A function that never does anything undefined: its code stops if and only if it does. */
  lemma StopsIffFinishes(f: Function, fr: Frame, st: State, env: Env)
    requires Starts(f, fr, st, env) && st.pc == 0 && forall fuel: nat :: !Meaning(f, env, fuel).Stuck?
    ensures (exists n: nat :: Stops(Compile(f, fr.offs), st, n)) <==> (exists fuel: nat :: Finishes(f, env, fuel))
  {
    hide UniqueLabels, Laid, CodeAt, Compile, WfF, Holds, Fits, Meaning, Run, Step, Kept, Rep;
    var p := Compile(f, fr.offs);
    if n: nat :| Stops(p, st, n) {
      StopsRight(f, fr, st, env, n);
    }
    if fuel: nat :| Finishes(f, env, fuel) {
      Alone(f, fr.offs);
      var n := BodyRuns(p, f, fr, st, env, fuel);
      assert Stops(p, st, n);
    }
  }
}
