/** Whole programs: a compiled program stops exactly when its meaning is defined, with the globals that the meaning gives. */
module AwkRun {
  import opened AwkSyntax
  import opened AwkValues
  import opened AwkCode
  import opened AwkSemantics
  import opened AwkVm
  import opened AwkEffects
  import opened AwkEscape
  import opened AwkCorrect
  import opened AwkLayout
  import opened AwkCompile
  import opened AwkCompiler
  import opened AwkProgram
  import opened AwkInterp
  import opened Wrappers

  // ---------- meaning of a program ----------

  function ParmsOf(it: Item): nat { if it.Function? then it.nparms else 0 }

  /** Jumps are placed legally and every name is bound, given ng ordinary globals. */
  ghost predicate WellFormed(items: seq<Item>, ng: nat) {
    PlacedItems(items) && forall it | it in items :: WfB(it.body, FuncsOf(items), ng, ParmsOf(it))
  }

  /** BEGIN rules run in order, outside any function. */
  function ExecBegins(fs: Funcs, fp: Fpu, bs: seq<seq<Stmt>>, env: Env, fuel: nat): (r: SResult)
    requires WfFuncs(fs, |env.globals|) && forall b :: b in bs ==> WfB(b, fs, |env.globals|, |env.locals|)
    ensures r.SOk? ==> |r.env.globals| == |env.globals| && |r.env.locals| == |env.locals|
  {
    if bs == [] then SOk(Normal, env)
    else
      var r := ExecB(fs, fp, bs[0], env, fuel);
      if r.STimeout? then r else ExecBegins(fs, fp, bs[1..], r.env, fuel)
  }

  lemma {:induction false} FromItems(items: seq<Item>)
    ensures forall b :: b in BeginsOf(items) ==> Begin(b) in items
    ensures var fs := FuncsOf(items); forall fn :: fn in fs ==> Function(fn, fs[fn].nparms, fs[fn].body) in items
    decreases |items|
  {
    if items != [] {
      var it := items[|items| - 1];
      FromItems(items[..|items| - 1]);
      var fs := FuncsOf(items);
      forall fn | fn in fs ensures Function(fn, fs[fn].nparms, fs[fn].body) in items {
        if it.Function? && fn == it.fn {
          assert Function(fn, fs[fn].nparms, fs[fn].body) == it;
        } else {
          assert fn in FuncsOf(items[..|items| - 1]) && FuncsOf(items[..|items| - 1])[fn] == fs[fn];
        }
      }
    }
  }

  lemma WellFormedParts(items: seq<Item>, ng: nat)
    requires WellFormed(items, ng)
    ensures WfFuncs(FuncsOf(items), ng)
    ensures forall b :: b in BeginsOf(items) ==> WfB(b, FuncsOf(items), ng, 0) && PlacedB(b, false, false)
  {
    hide WfB, PlacedB, Distinct, FuncsOf, BeginsOf;
    FromItems(items);
    var fs := FuncsOf(items);
    forall fn | fn in fs ensures WfB(fs[fn].body, fs, ng, fs[fn].nparms) && PlacedB(fs[fn].body, false, true) {
      assert PlacedItem(Function(fn, fs[fn].nparms, fs[fn].body));
    }
    forall b | b in BeginsOf(items) ensures WfB(b, fs, ng, 0) && PlacedB(b, false, false) {
      assert PlacedItem(Begin(b));
    }
  }

  /** Globals start without a value; those that are nowhere used as scalars may yet turn out to be arrays. */
  function Start(items: seq<Item>, ng: nat): (env: Env)
    ensures |env.globals| == ng && env.locals == []
  {
    Env(seq(ng, (i: nat) => Fresh(ScalarsOf(items), FIRST_GLOBAL + i)), [])
  }

  function Meaning(items: seq<Item>, fp: Fpu, ng: nat, fuel: nat): SResult
    requires WellFormed(items, ng)
  {
    WellFormedParts(items, ng);
    ExecBegins(FuncsOf(items), fp, BeginsOf(items), Start(items, ng), fuel)
  }

  // ---------- running the finished code ----------

  /** A finished program on a machine whose truth values are sane. */
  ghost predicate Ready(m: Machine, items: seq<Item>, lk: Link, firstBegin: int, ng: nat) {
    WellFormed(items, ng) && Complete(m, items, lk, firstBegin) && Sane(m.fp)
  }

  lemma ReadyLoaded(m: Machine, items: seq<Item>, lk: Link, firstBegin: int, ng: nat)
    requires Ready(m, items, lk, firstBegin, ng)
    ensures Loaded(World(m, FuncsOf(items), lk.fk), ng)
  {
    hide WfFuncs, FuncCode, FuncLits, CodeAt, LitsAt, WellFormed, FuncsOf, BeginsOf, BeginAt, LinkedTo;
    WellFormedParts(items, ng);
  }

  /** n instructions from rule i on realise the result r of the rules from i on. */
  ghost predicate Simulates(m: Machine, st: State, n: nat, q: int, cx: Ctx, r: SResult, fuel: nat) {
    match r
    case SOk(_, env) => StopsIn(m, st, n, S(cx, env, [], q))
    case STimeout => n >= fuel && Run(m, st, n).Some?
  }

  lemma {:induction false} SimBegins(m: Machine, items: seq<Item>, lk: Link, firstBegin: int, cx: Ctx, env: Env, i: nat, fuel: nat)
    returns (n: nat, q: int)
    requires Ready(m, items, lk, firstBegin, |env.globals|) && i < |BeginsOf(items)|
    requires |cx.pre| == FIRST_GLOBAL && env.locals == []
    requires WfFuncs(FuncsOf(items), |env.globals|)
    requires forall b :: b in BeginsOf(items) ==> WfB(b, FuncsOf(items), |env.globals|, 0) && PlacedB(b, false, false)
    ensures Simulates(m, S(cx, env, [], lk.starts[i]), n, q, cx, ExecBegins(FuncsOf(items), m.fp, BeginsOf(items)[i..], env, fuel), fuel)
    decreases |BeginsOf(items)| - i
  {
    hide WfFuncs, FuncsOf, BeginsOf, Base, CodeAt, LitsAt, CodeB, LitsB, WfB, PlacedB, WellFormed, Run, Step, ExecB, Loaded, FuncAt;
    var bs, fs, start, k := BeginsOf(items), FuncsOf(items), lk.starts[i], lk.ks[i];
    var w, s0 := World(m, fs, lk.fk), S(cx, env, [], start);
    assert bs[i] in bs && bs[i..][0] == bs[i] && bs[i..][1..] == bs[i + 1..];
    ReadyLoaded(m, items, lk, firstBegin, |env.globals|);
    assert BeginAt(m, bs[i], start, k);
    n, q := SimB(w, cx, bs[i], k, NOWHERE, env, start, fuel);
    NoEscapeB(fs, m.fp, bs[i], false, false, env, fuel);
    var a := ExecB(fs, m.fp, bs[i], env, fuel);
    if a.SOk? {
      var s1 := S(cx, a.env, [], BeginEnd(bs[i], start, k));
      assert Run(m, s0, n) == Some(s1);
      if i + 1 < |bs| {
        assert LinkedTo(m, bs[i], start, k, lk.starts[i + 1]);
        JumpStep(m, cx, a.env, [], BeginEnd(bs[i], start, k));
        var s2 := S(cx, a.env, [], lk.starts[i + 1]);
        Chain(m, s0, n, s1, 1, Some(s2));
        var n2;
        n2, q := SimBegins(m, items, lk, firstBegin, cx, a.env, i + 1, fuel);
        Chain(m, s0, n + 1, s2, n2, Run(m, s2, n2));
        n := n + 1 + n2;
      } else {
        q := BeginEnd(bs[i], start, k);
        LastRule(m, items, lk, firstBegin);
        AtQuit(m, s1);
      }
    }
  }

  lemma LastRule(m: Machine, items: seq<Item>, lk: Link, firstBegin: int)
    requires Complete(m, items, lk, firstBegin) && BeginsOf(items) != []
    ensures var bs := BeginsOf(items); var i := |bs| - 1; var q := BeginEnd(bs[i], lk.starts[i], lk.ks[i]);
      0 <= q < |m.code| && m.code[q] == OP_QUIT
  {
    hide FuncsOf, BeginsOf, LinkedTo, FuncAt, BeginCode, LitsAt;
    var bs := BeginsOf(items);
    assert BeginAt(m, bs[|bs| - 1], lk.starts[|bs| - 1], lk.ks[|bs| - 1]);
  }

  lemma AtQuit(m: Machine, st: State)
    requires 0 <= st.ip < |m.code| && m.code[st.ip] == OP_QUIT
    ensures Step(m, st) == Quit(st)
  {}

  // ---------- stopping ----------

  lemma StopsOnce(m: Machine, st: State, n: nat, last: State, k: nat)
    requires StopsIn(m, st, n, last) && Run(m, st, k).Some?
    ensures k <= n
  {
    if k > n {
      var d := k - n;
      RunSplit(m, st, n, d);
      assert false;
    }
  }

  lemma StopsSame(m: Machine, st: State, n: nat, last: State, n': nat, last': State)
    requires StopsIn(m, st, n, last) && StopsIn(m, st, n', last')
    ensures n == n' && last == last'
  {
    StopsOnce(m, st, n, last, n');
    StopsOnce(m, st, n', last', n);
  }

  lemma ShorterRun(m: Machine, st: State, n: nat, k: nat)
    requires Run(m, st, n).Some? && k <= n
    ensures Run(m, st, k).Some?
  {
    RunSplit(m, st, k, n - k);
    assert k + (n - k) == n;
  }

  /** The machine as `interp` starts it: the special variables, then the globals without values, on the stack. */
  function Initial(cx: Ctx, items: seq<Item>, ng: nat, firstBegin: int): State { S(cx, Start(items, ng), [], firstBegin) }

  /** What stopping means for the stack: the globals have their final values and nothing else has changed, depth included. */
  ghost predicate Ends(m: Machine, items: seq<Item>, cx: Ctx, ng: nat, firstBegin: int, globals: seq<Value>) {
    exists n: nat, last: State :: StopsIn(m, Initial(cx, items, ng, firstBegin), n, last) && last.stack == Base(cx, Env(globals, [])) && last.parmbase == cx.pb
  }

  /** If the meaning is defined, the machine stops and the globals are as the meaning says. */
  lemma MeaningRuns(m: Machine, items: seq<Item>, lk: Link, firstBegin: int, cx: Ctx, ng: nat, fuel: nat)
    returns (n: nat, last: State)
    requires Ready(m, items, lk, firstBegin, ng) && |cx.pre| == FIRST_GLOBAL && BeginsOf(items) != []
    ensures var r := Meaning(items, m.fp, ng, fuel);
      if r.SOk? then StopsIn(m, Initial(cx, items, ng, firstBegin), n, last) && last.stack == Base(cx, r.env) && last.parmbase == cx.pb
      else n >= fuel && Run(m, Initial(cx, items, ng, firstBegin), n).Some?
  {
    hide WfFuncs, FuncsOf, BeginsOf, Base, WfB, PlacedB, WellFormed, Run, Step, ExecBegins, Complete;
    WellFormedParts(items, ng);
    var bs, q := BeginsOf(items), 0;
    assert bs[0..] == bs;
    assert firstBegin == lk.starts[0] by { FirstStart(m, items, lk, firstBegin); }
    n, q := SimBegins(m, items, lk, firstBegin, cx, Start(items, ng), 0, fuel);
    var r := Meaning(items, m.fp, ng, fuel);
    last := if r.SOk? then S(cx, r.env, [], q) else Initial(cx, items, ng, firstBegin);
  }

  lemma FirstStart(m: Machine, items: seq<Item>, lk: Link, firstBegin: int)
    requires Complete(m, items, lk, firstBegin) && BeginsOf(items) != []
    ensures |lk.starts| > 0 && firstBegin == lk.starts[0]
  {
    hide FuncsOf, BeginsOf, BeginAt, LinkedTo, FuncAt;
  }

  /** The compiled program stops with given globals exactly when, for some bound on iterations and calls, its meaning is
      defined and gives those globals. */
  lemma StopsIffDefined(m: Machine, items: seq<Item>, lk: Link, firstBegin: int, cx: Ctx, ng: nat, globals: seq<Value>)
    requires Ready(m, items, lk, firstBegin, ng) && |cx.pre| == FIRST_GLOBAL && BeginsOf(items) != []
    ensures Ends(m, items, cx, ng, firstBegin, globals)
        <==> exists fuel: nat :: Meaning(items, m.fp, ng, fuel).SOk? && Meaning(items, m.fp, ng, fuel).env.globals == globals
  {
    hide FuncsOf, BeginsOf, Base, Run, Step, ExecBegins, Complete, WellFormed, Meaning;
    var st := Initial(cx, items, ng, firstBegin);
    if fuel: nat :| Meaning(items, m.fp, ng, fuel).SOk? && Meaning(items, m.fp, ng, fuel).env.globals == globals {
      var n, last := MeaningRuns(m, items, lk, firstBegin, cx, ng, fuel);
      MeaningLocals(items, m.fp, ng, fuel);
      assert StopsIn(m, st, n, last);
    }
    if Ends(m, items, cx, ng, firstBegin, globals) {
      var n: nat, last: State :| StopsIn(m, st, n, last) && last.stack == Base(cx, Env(globals, [])) && last.parmbase == cx.pb;
      var n', last' := MeaningRuns(m, items, lk, firstBegin, cx, ng, n + 1);
      var r := Meaning(items, m.fp, ng, n + 1);
      if r.STimeout? {
        StopsOnce(m, st, n, last, n');
        assert false;
      }
      StopsSame(m, st, n, last, n', last');
      MeaningLocals(items, m.fp, ng, n + 1);
      BaseGlobals(cx, globals, r.env.globals);
    }
  }

  lemma MeaningLocals(items: seq<Item>, fp: Fpu, ng: nat, fuel: nat)
    requires WellFormed(items, ng) && Meaning(items, fp, ng, fuel).SOk?
    ensures var env := Meaning(items, fp, ng, fuel).env; |env.globals| == ng && env == Env(env.globals, [])
  {
    hide FuncsOf, BeginsOf, ExecBegins, WellFormed;
    WellFormedParts(items, ng);
  }

  lemma BaseGlobals(cx: Ctx, g: seq<Value>, g': seq<Value>)
    requires Base(cx, Env(g, [])) == Base(cx, Env(g', []))
    ensures g == g'
  {
    var a, b := Base(cx, Env(g, [])), Base(cx, Env(g', []));
    assert |g| == |g'|;
    forall i | 0 <= i < |g| ensures g[i] == g'[i] {
      assert a[|cx.pre| + i] == Held(g[i]) && b[|cx.pre| + i] == Held(g'[i]);
    }
  }

  /** No run of a compiled program ever misbehaves: it either goes on or stops at a quit. */
  lemma NeverFaults(m: Machine, items: seq<Item>, lk: Link, firstBegin: int, cx: Ctx, ng: nat, n: nat)
    requires Ready(m, items, lk, firstBegin, ng) && |cx.pre| == FIRST_GLOBAL && BeginsOf(items) != []
    requires Run(m, Initial(cx, items, ng, firstBegin), n).Some?
    ensures !Step(m, Run(m, Initial(cx, items, ng, firstBegin), n).value).Fault?
  {
    hide FuncsOf, BeginsOf, Base, Step, ExecBegins, Complete, WellFormed, Meaning;
    var st := Initial(cx, items, ng, firstBegin);
    var n', last := MeaningRuns(m, items, lk, firstBegin, cx, ng, n + 1);
    if Meaning(items, m.fp, ng, n + 1).SOk? {
      StopsOnce(m, st, n', last, n);
      if n < n' { ShorterRun(m, st, n', n + 1); }
    } else {
      ShorterRun(m, st, n', n + 1);
    }
    if Run(m, st, n + 1).Some? { RunSplit(m, st, n, 1); }
  }

  /** Compiles a program text and runs it: the stack ends as it began, but for the globals, which are as the meaning of the
      program's trees says. */
  method CompileAndRun(raw: seq<Lexeme>, fp: Fpu, specials: seq<Val>, ng: nat,
                       ghost items: seq<Item>, ghost gaps: seq<seq<Token>>, ghost starts: seq<nat>, ghost fuel: nat) returns (stack: seq<Val>)
    requires |gaps| == |items| + 1 && (forall g :: g in gaps ==> Blank(g))
    requires Spaced(raw, PrintItems(items, gaps) + [Op(TK_EOF)], starts) && WellFormed(items, ng) && Sane(fp)
    requires |specials| == FIRST_GLOBAL && Meaning(items, fp, ng, fuel).SOk?
    ensures stack == specials + Numbers(Meaning(items, fp, ng, fuel).env.globals)
  {
    hide FuncsOf, BeginsOf, Run, Step, ExecBegins, Complete, WellFormed, Meaning, PrintItems, Blank, Spaced, Distinct, PlacedItem;
    ghost var cx := Ctx(specials, [], 0);
    assert PlacedItems(items) by { WellFormedPlaced(items, ng); }
    var tt, lk := Compile(raw, items, gaps, starts, fp);
    var scalars := tt.scalars;
    var vm := new Vm(Machine(tt.code, tt.lits, tt.funcs, fp), specials + seq(ng, (i: nat) => Held(Fresh(scalars, FIRST_GLOBAL + i))));
    assert vm.stack == Initial(cx, items, ng, tt.firstBegin).stack;
    MeaningLocals(items, fp, ng, fuel);
    BaseSimple(cx, Meaning(items, fp, ng, fuel).env);
    if tt.firstBegin != 0 {
      HasRule(vm.m, items, lk, tt.firstBegin);
      ghost var n, last := MeaningRuns(vm.m, items, lk, tt.firstBegin, cx, ng, fuel);
      vm.Interpx(tt.firstBegin, n, last);
    } else {
      NoRule(vm.m, items, lk, ng, fuel);
    }
    stack := vm.stack;
  }

  lemma WellFormedPlaced(items: seq<Item>, ng: nat)
    requires WellFormed(items, ng)
    ensures PlacedItems(items)
  {}

  lemma BaseSimple(cx: Ctx, env: Env)
    requires cx.mid == [] && env.locals == []
    ensures Base(cx, env) == cx.pre + Numbers(env.globals)
  {}

  lemma HasRule(m: Machine, items: seq<Item>, lk: Link, firstBegin: int)
    requires Complete(m, items, lk, firstBegin)
    ensures firstBegin != 0 <==> BeginsOf(items) != []
  {
    hide FuncsOf, BeginsOf, BeginAt, LinkedTo, FuncAt;
  }

  lemma NoRule(m: Machine, items: seq<Item>, lk: Link, ng: nat, fuel: nat)
    requires Ready(m, items, lk, 0, ng)
    ensures Meaning(items, m.fp, ng, fuel) == SOk(Normal, Start(items, ng))
  {
    hide FuncsOf, BeginsOf, Complete, WellFormed;
    HasRule(m, items, lk, 0);
    WellFormedParts(items, ng);
  }
}
