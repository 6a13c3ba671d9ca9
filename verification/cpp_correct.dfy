/** The loop with its stack of conditionals computes the recursive meaning exactly if it keeps every directive. */
module CppCorrect {
  import opened CppExpand
  import opened CppStep
  import opened CppTree
  import opened Wrappers

  // ---------- what runs may lead to ----------

  /** n iterations from st consume the text of something that means r, leaving follow with the given mark. */
  ghost predicate Arrives(ev: Evaluator, st: State, n: nat, out: seq<Tok>, r: Outcome, follow: seq<Tok>, mark: Option<Mark>, conds: seq<Cond>) {
    match r
    case Ok(words, ms) =>
      && Run(ev, st, n) == Some(State(Marked(follow, mark), out, conds, ms)) && Words(out) == Words(st.out) + words
    case Failed => Run(ev, st, n).Some? && Step(ev, Run(ev, st, n).value) == Error
  }

  ghost predicate HasHash(l: seq<Tok>) { exists t :: t in l && t.text == "#" }

  /** n iterations from st output the `#` of a directive, or take a definition for function-like. */
  ghost predicate Strays(ev: Evaluator, st: State, n: nat) {
    Run(ev, st, n).Some? && (HasHash(Run(ev, st, n).value.out) || Step(ev, Run(ev, st, n).value) == Unmodelled)
  }

  ghost predicate Leads(ev: Evaluator, st: State, n: nat, out: seq<Tok>, kept: bool, r: Outcome, follow: seq<Tok>,
                        mark: Option<Mark>, conds: seq<Cond>) {
    if kept then Arrives(ev, st, n, out, r, follow, mark, conds) else Strays(ev, st, n)
  }

  /** What follows from a state that is reached follows from the state before. */
  lemma LeadsFrom(ev: Evaluator, st: State, n: nat, mid: State, k: nat, out: seq<Tok>, kept: bool, r: Outcome, follow: seq<Tok>,
                  mark: Option<Mark>, conds: seq<Cond>)
    requires Run(ev, st, n) == Some(mid) && mid.out == st.out && Leads(ev, mid, k, out, kept, r, follow, mark, conds)
    ensures Leads(ev, st, n + k, out, kept, r, follow, mark, conds)
  {
    hide Run, Step, Marked, HasHash;
    RunSplit(ev, st, n, k);
  }

  /** Two parts in a row, the first of which was kept and means Ok. */
  lemma LeadsThen(ev: Evaluator, st: State, n: nat, mid: State, words: seq<Word>, k: nat, out: seq<Tok>, kept: bool, r: Outcome, follow: seq<Tok>,
                  mark: Option<Mark>, conds: seq<Cond>)
    requires Run(ev, st, n) == Some(mid) && Words(mid.out) == Words(st.out) + words && Leads(ev, mid, k, out, kept, r, follow, mark, conds)
    ensures Leads(ev, st, n + k, out, kept, if r.Ok? then Ok(words + r.words, r.macros) else Failed, follow, mark, conds)
  {
    hide Run, Step, Marked, HasHash;
    RunSplit(ev, st, n, k);
    if r.Ok? { Assoc(Words(st.out), words, r.words); }
  }

  // ---------- single directives ----------

  lemma HeadKept(ev: Evaluator, word: string, x: seq<Tok>, c: Option<Mark>, out: seq<Tok>, conds: seq<Cond>, ms: Macros)
    requires KeepsLine(c)
    ensures var st := State(Marked([Hash(), Id(word)] + x, c), out, conds, ms);
      Step(ev, st) == Directive(ev, st, Id(word), x)
  {
    hide Directive;
    var l := [Hash(), Id(word)] + x;
    assert l[1..] == [Id(word)] + x && l[1..][1..] == x;
    var st := State(Marked(l, c), out, conds, ms);
    assert st.toks[1..] == l[1..];
  }

  /** A `#` that is no longer at the start of a line is output. */
  lemma HeadLost(ev: Evaluator, word: string, x: seq<Tok>, c: Option<Mark>, out: seq<Tok>, conds: seq<Cond>, ms: Macros)
    requires !KeepsLine(c)
    ensures Strays(ev, State(Marked([Hash(), Id(word)] + x, c), out, conds, ms), 1)
  {
    hide Directive;
    var st := State(Marked([Hash(), Id(word)] + x, c), out, conds, ms);
    var t := st.toks[0];
    assert Step(ev, st) == Next(st.(toks := st.toks[1..], out := out + [t]));
    One(ev, st, st.(toks := st.toks[1..], out := out + [t]));
    assert t in out + [t] && t.text == "#";
  }

  lemma {:induction false} LineEndAt(l: seq<Tok>, x: seq<Tok>)
    requires Inline(l) && StartsLine(x)
    ensures LineEnd(l + x) == |l| && (l + x)[..|l|] == l && (l + x)[|l|..] == x
    decreases |l|
  {
    if l == [] {
      assert l + x == x;
    } else {
      assert l[0] in l && (l + x)[1..] == l[1..] + x;
      LineEndAt(l[1..], x);
    }
  }

  ghost predicate StartsLine(l: seq<Tok>) { l == [] || l[0].bol }

  lemma RestStarts(r: Rest, x: seq<Tok>)
    ensures StartsLine(FlatRest(r) + x) && |FlatRest(r)| >= 2 && FlatRest(r)[0] == Hash()
  {
    hide Flat;
  }

  lemma FlatStarts(items: seq<Item>, x: seq<Tok>)
    requires Wf(items) && StartsLine(x)
    ensures StartsLine(Flat(items) + x)
  {
    hide FlatRest;
    if items != [] {
      assert FlatItem(items[0]) != [] && FlatItem(items[0])[0].bol by {
        if items[0].Conditional? { assert FlatItem(items[0])[0] == FlatTest(items[0].test)[0]; }
      }
    } else {
      assert Flat(items) + x == x;
    }
  }

  lemma RunDefine(ev: Evaluator, it: Item, c: Option<Mark>, follow: seq<Tok>, out: seq<Tok>, conds: seq<Cond>, ms: Macros)
    requires it.Define? && WfItem(it) && StartsLine(follow)
    ensures Leads(ev, State(Marked(FlatItem(it) + follow, c), out, conds, ms),
                  if KeptItem(it, ev, ms, c, follow) || !KeepsLine(c) then 1 else 0, out,
                  KeptItem(it, ev, ms, c, follow), MeaningItem(it, ev, ms), follow, None, conds)
  {
    hide SkipCond, SkipNested, LineEnd, ExpandFrom, Marked;
    var x := [Id(it.name)] + it.body + follow;
    assert FlatItem(it) + follow == [Hash(), Id("define")] + x;
    var st := State(Marked(FlatItem(it) + follow, c), out, conds, ms);
    if KeepsLine(c) {
      HeadKept(ev, "define", x, c, out, conds, ms);
      assert x[1..] == it.body + follow;
      LineEndAt(it.body, follow);
      if KeptItem(it, ev, ms, c, follow) {
        One(ev, st, State(follow, out, conds, ms[it.name := it.body]));
        MarkedNone(follow);
      } else {
        assert x[1] == follow[0];
        RunZero(ev, st);
      }
    } else {
      HeadLost(ev, "define", x, c, out, conds, ms);
    }
  }

  lemma RunUndef(ev: Evaluator, it: Item, c: Option<Mark>, follow: seq<Tok>, out: seq<Tok>, conds: seq<Cond>, ms: Macros)
    requires it.Undef?
    ensures Leads(ev, State(Marked(FlatItem(it) + follow, c), out, conds, ms), 1, out,
                  KeptItem(it, ev, ms, c, follow), MeaningItem(it, ev, ms), follow, None, conds)
  {
    hide SkipCond, SkipNested, LineEnd, ExpandFrom, Marked;
    var x := [Id(it.name)] + follow;
    assert FlatItem(it) + follow == [Hash(), Id("undef")] + x;
    var st := State(Marked(FlatItem(it) + follow, c), out, conds, ms);
    if KeepsLine(c) {
      HeadKept(ev, "undef", x, c, out, conds, ms);
      assert x[1..] == follow;
      One(ev, st, State(follow, out, conds, ms - {it.name}));
      MarkedNone(follow);
    } else {
      HeadLost(ev, "undef", x, c, out, conds, ms);
    }
  }

  lemma RunTextItem(ev: Evaluator, it: Item, c: Option<Mark>, follow: seq<Tok>, out: seq<Tok>, conds: seq<Cond>, ms: Macros)
    returns (n: nat, out': seq<Tok>)
    requires it.Text? && WfItem(it) && WfMacros(ms)
    ensures Leads(ev, State(Marked(FlatItem(it) + follow, c), out, conds, ms), n, out', true, MeaningItem(it, ev, ms), follow,
                  MarkAfterItem(it, ms, c), conds)
  {
    hide ExpandFrom, Marked, Run, Step, ReplacedAll;
    n := RunText(ev, it.toks, follow, c, out, conds, ms);
    var e := ExpandFrom(it.toks, ms, c);
    FromReplaced(it.toks, ms, c, {});
    out' := out + e.out;
    WordsCat(out, e.out);
  }

  function TestWord(t: Test): string { if t.If? then "if" else if t.Ifdef? then "ifdef" else "ifndef" }

  function TestTail(t: Test): seq<Tok> { if t.If? then t.expr else [Id(t.name)] }

  lemma ConditionalText(it: Item, follow: seq<Tok>)
    requires it.Conditional?
    ensures FlatItem(it) + follow
         == [Hash(), Id(TestWord(it.test))] + (TestTail(it.test) + (Flat(it.group) + (FlatRest(it.rest) + follow)))
  {
    hide Flat, FlatRest;
    assert FlatTest(it.test) == [Hash(), Id(TestWord(it.test))] + TestTail(it.test);
  }

  lemma OpenGroup(it: Item, out: seq<Tok>, conds: seq<Cond>, ms: Macros, toks: seq<Tok>, v: bool, follow: seq<Tok>)
    requires it.Conditional? && WfItem(it)
    ensures var x := FlatRest(it.rest) + follow;
      Open(State(toks, out, conds, ms), v, Flat(it.group) + x)
        == Next(State(if v then Flat(it.group) + x else x, out, [Cond(InThen, v)] + conds, ms))
  {
    hide SkipCond, SkipNested, Flat, FlatRest, Wf, WfRest;
    SkipFlat(it.group, FlatRest(it.rest) + follow);
    SkipRest(it.rest, follow);
  }

  /** The test of a conditional: it fails, or opens the first group, or leads to what follows that group. */
  lemma RunTest(ev: Evaluator, it: Item, c: Option<Mark>, follow: seq<Tok>, out: seq<Tok>, conds: seq<Cond>, ms: Macros)
    requires it.Conditional? && WfItem(it) && KeepsLine(c)
    ensures var st := State(Marked(FlatItem(it) + follow, c), out, conds, ms);
      match Holds(it.test, ev, ms)
      case None => Step(ev, st) == Error
      case Some(v) =>
        var x := FlatRest(it.rest) + follow;
        Step(ev, st) == Next(State(if v then Flat(it.group) + x else x, out, [Cond(InThen, v)] + conds, ms))
  {
    hide LineEnd, Flat, FlatRest, FlatItem, Wf, WfRest, Step, Marked, Open, DoDefine, DoElif;
    var t, x := it.test, Flat(it.group) + (FlatRest(it.rest) + follow);
    var st := State(Marked(FlatItem(it) + follow, c), out, conds, ms);
    ConditionalText(it, follow);
    HeadKept(ev, TestWord(t), TestTail(t) + x, c, out, conds, ms);
    var v := Holds(t, ev, ms);
    if v.Some? { OpenGroup(it, out, conds, ms, st.toks, v.value, follow); }
    if t.If? {
      RestStarts(it.rest, follow);
      FlatStarts(it.group, FlatRest(it.rest) + follow);
      LineEndAt(t.expr, x);
    } else {
      assert (TestTail(t) + x)[1..] == x;
    }
  }

  // ---------- conditionals ----------

  /** After an included group, the rest of the conditional is passed over and the stack is popped. */
  lemma {:induction false} LeaveRest(ev: Evaluator, r: Rest, c: Option<Mark>, follow: seq<Tok>, out: seq<Tok>, d: Cond, conds: seq<Cond>, ms: Macros)
    returns (n: nat)
    requires WfRest(r) && KeepsLine(c) && (r.End? || (d.included && !d.ctx.InElse?))
    ensures Run(ev, State(Marked(FlatRest(r) + follow, c), out, [d] + conds, ms), n) == Some(State(follow, out, conds, ms))
    decreases r
  {
    hide SkipCond, SkipNested, LineEnd, Flat, Step, Run, Marked, Wf;
    var st := State(Marked(FlatRest(r) + follow, c), out, [d] + conds, ms);
    assert ([d] + conds)[1..] == conds;
    match r
    case End =>
      HeadKept(ev, "endif", follow, c, out, [d] + conds, ms);
      One(ev, st, State(follow, out, conds, ms));
      n := 1;
    case Else(g) =>
      var x := [Hash(), Id("endif")] + follow;
      assert FlatRest(r) + follow == [Hash(), Id("else")] + (Flat(g) + x);
      HeadKept(ev, "else", Flat(g) + x, c, out, [d] + conds, ms);
      SkipFlat(g, x);
      SkipEnd(follow);
      var d1 := Cond(InElse, true);
      var st1 := State(x, out, [d1] + conds, ms);
      One(ev, st, st1);
      MarkedNone(x);
      HeadKept(ev, "endif", follow, None, out, [d1] + conds, ms);
      assert ([d1] + conds)[1..] == conds;
      One(ev, st1, State(follow, out, conds, ms));
      Chain(ev, st, 1, st1, 1, Some(State(follow, out, conds, ms)));
      n := 2;
    case Elif(e, g, more) =>
      var x := FlatRest(more) + follow;
      assert FlatRest(r) + follow == [Hash(), Id("elif")] + (e + (Flat(g) + x));
      HeadKept(ev, "elif", e + (Flat(g) + x), c, out, [d] + conds, ms);
      assert [Id("elif")] + (e + (Flat(g) + x)) == ([Id("elif")] + e) + (Flat(g) + x);
      SkipPlain([Id("elif")] + e, Flat(g) + x);
      SkipFlat(g, x);
      SkipRest(more, follow);
      var d1 := Cond(InElif, true);
      var st1 := State(x, out, [d1] + conds, ms);
      One(ev, st, st1);
      MarkedNone(x);
      n := LeaveRest(ev, more, None, follow, out, d1, conds, ms);
      Chain(ev, st, 1, st1, n, Some(State(follow, out, conds, ms)));
      n := 1 + n;
  }

  /** An included group, and the rest of its conditional. */
  lemma {:induction false} RunGroup(ev: Evaluator, g: seq<Item>, r: Rest, follow: seq<Tok>, out: seq<Tok>, d: Cond, conds: seq<Cond>, ms: Macros)
    returns (n: nat, out': seq<Tok>)
    requires Wf(g) && WfRest(r) && WfMacros(ms) && StartsLine(follow) && (r.End? || (d.included && !d.ctx.InElse?))
    ensures Leads(ev, State(Flat(g) + (FlatRest(r) + follow), out, [d] + conds, ms), n, out',
                  KeptGroup(g, ev, ms, FlatRest(r) + follow), Meaning(g, ev, ms), follow, None, conds)
    decreases g, 1
  {
    hide SkipCond, SkipNested, LineEnd, Flat, Step, Run, Marked, Wf, WfRest, WfMacros, Kept, Meaning, MarkAfter, HasHash;
    var x := FlatRest(r) + follow;
    var st := State(Flat(g) + x, out, [d] + conds, ms);
    RestStarts(r, follow);
    MarkedNone(Flat(g) + x);
    n, out' := RunItems(ev, g, None, x, out, [d] + conds, ms);
    if Kept(g, ev, ms, None, x) && Meaning(g, ev, ms).Ok? {
      var c, m := MarkAfter(g, ev, ms, None), Meaning(g, ev, ms);
      var mid := State(Marked(x, c), out', [d] + conds, m.macros);
      var k;
      if KeepsLine(c) {
        k := LeaveRest(ev, r, c, follow, out', d, conds, m.macros);
        Chain(ev, st, n, mid, k, Some(State(follow, out', conds, m.macros)));
        MarkedNone(follow);
      } else {
        k := 1;
        RestHead(r, follow);
        HeadLost(ev, RestWord(r), x[2..], c, out', [d] + conds, m.macros);
        StraysFrom(ev, st, n, mid, k);
      }
      n := n + k;
    }
  }

  function RestWord(r: Rest): string { if r.End? then "endif" else if r.Else? then "else" else "elif" }

  lemma RestHead(r: Rest, follow: seq<Tok>)
    ensures var x := FlatRest(r) + follow; |x| >= 2 && x == [Hash(), Id(RestWord(r))] + x[2..]
  {
    hide Flat;
  }

  lemma StraysFrom(ev: Evaluator, st: State, n: nat, mid: State, k: nat)
    requires Run(ev, st, n) == Some(mid) && Strays(ev, mid, k)
    ensures Strays(ev, st, n + k)
  {
    hide Run, Step, HasHash;
    RunSplit(ev, st, n, k);
  }

  /** The continuation of a conditional none of whose groups was included so far. */
  lemma {:induction false} RunRest(ev: Evaluator, r: Rest, follow: seq<Tok>, out: seq<Tok>, d: Cond, conds: seq<Cond>, ms: Macros)
    returns (n: nat, out': seq<Tok>)
    requires WfRest(r) && WfMacros(ms) && StartsLine(follow) && !d.included && !d.ctx.InElse?
    ensures Leads(ev, State(FlatRest(r) + follow, out, [d] + conds, ms), n, out',
                  KeptRest(r, ev, ms, follow), MeaningRest(r, ev, ms), follow, None, conds)
    decreases r, 2
  {
    hide SkipCond, SkipNested, LineEnd, Flat, Step, Run, Marked, Wf, WfMacros, Kept, KeptGroup, Meaning, HasHash, DoDefine, DoIf;
    var st := State(FlatRest(r) + follow, out, [d] + conds, ms);
    assert ([d] + conds)[1..] == conds;
    MarkedNone(FlatRest(r) + follow);
    match r
    case End =>
      n := LeaveRest(ev, r, None, follow, out, d, conds, ms);
      out' := out;
      MarkedNone(follow);
    case Else(g) =>
      var x, d1 := FlatRest(End) + follow, Cond(InElse, false);
      assert FlatRest(r) + follow == [Hash(), Id("else")] + (Flat(g) + x);
      HeadKept(ev, "else", Flat(g) + x, None, out, [d] + conds, ms);
      var st1 := State(Flat(g) + x, out, [d1] + conds, ms);
      One(ev, st, st1);
      n, out' := RunGroup(ev, g, End, follow, out, d1, conds, ms);
      LeadsFrom(ev, st, 1, st1, n, out', KeptGroup(g, ev, ms, x), Meaning(g, ev, ms), follow, None, conds);
      n := 1 + n;
    case Elif(e, g, more) =>
      n, out' := RunElif(ev, r, follow, out, d, conds, ms);
  }

  /** The `#elif` itself: its expression fails, or selects its group, or leads to what follows that group. */
  lemma ElifStep(ev: Evaluator, r: Rest, follow: seq<Tok>, out: seq<Tok>, d: Cond, conds: seq<Cond>, ms: Macros)
    requires r.Elif? && WfRest(r) && StartsLine(follow) && !d.included && !d.ctx.InElse?
    ensures var st := State(FlatRest(r) + follow, out, [d] + conds, ms);
      match ev(r.expr, ms)
      case None => Step(ev, st) == Error
      case Some(v) =>
        var x := FlatRest(r.more) + follow;
        Step(ev, st) == Next(State(if v then Flat(r.group) + x else x, out, [Cond(InElif, v)] + conds, ms))
  {
    hide SkipCond, SkipNested, LineEnd, Flat, Step, Marked, Wf, DoDefine, DoIf;
    var x := FlatRest(r.more) + follow;
    var l := r.expr + (Flat(r.group) + x);
    assert ([d] + conds)[1..] == conds;
    assert FlatRest(r) + follow == [Hash(), Id("elif")] + l;
    MarkedNone(FlatRest(r) + follow);
    HeadKept(ev, "elif", l, None, out, [d] + conds, ms);
    RestStarts(r.more, follow);
    FlatStarts(r.group, x);
    LineEndAt(r.expr, Flat(r.group) + x);
    assert ([Id("elif")] + l)[1..] == l;
    SkipFlat(r.group, x);
    SkipRest(r.more, follow);
  }

  lemma {:induction false} RunElif(ev: Evaluator, r: Rest, follow: seq<Tok>, out: seq<Tok>, d: Cond, conds: seq<Cond>, ms: Macros)
    returns (n: nat, out': seq<Tok>)
    requires r.Elif? && WfRest(r) && WfMacros(ms) && StartsLine(follow) && !d.included && !d.ctx.InElse?
    ensures Leads(ev, State(FlatRest(r) + follow, out, [d] + conds, ms), n, out',
                  KeptRest(r, ev, ms, follow), MeaningRest(r, ev, ms), follow, None, conds)
    decreases r, 1
  {
    hide Flat, FlatRest, Step, Run, Wf, WfMacros, Kept, KeptGroup, Meaning, HasHash;
    var st := State(FlatRest(r) + follow, out, [d] + conds, ms);
    var g, more, x := r.group, r.more, FlatRest(r.more) + follow;
    ElifStep(ev, r, follow, out, d, conds, ms);
    out' := out;
    match ev(r.expr, ms)
    case None =>
      n := 0;
      RunZero(ev, st);
    case Some(v) =>
      var d1 := Cond(InElif, v);
      var st1 := State(if v then Flat(g) + x else x, out, [d1] + conds, ms);
      One(ev, st, st1);
      if v {
        n, out' := RunGroup(ev, g, more, follow, out, d1, conds, ms);
        LeadsFrom(ev, st, 1, st1, n, out', KeptGroup(g, ev, ms, x), Meaning(g, ev, ms), follow, None, conds);
      } else {
        n, out' := RunRest(ev, more, follow, out, d1, conds, ms);
        LeadsFrom(ev, st, 1, st1, n, out', KeptRest(more, ev, ms, follow), MeaningRest(more, ev, ms), follow, None, conds);
      }
      n := 1 + n;
  }

  lemma {:induction false} RunConditional(ev: Evaluator, it: Item, c: Option<Mark>, follow: seq<Tok>, out: seq<Tok>, conds: seq<Cond>, ms: Macros)
    returns (n: nat, out': seq<Tok>)
    requires it.Conditional? && WfItem(it) && WfMacros(ms) && StartsLine(follow)
    ensures Leads(ev, State(Marked(FlatItem(it) + follow, c), out, conds, ms), n, out', KeptItem(it, ev, ms, c, follow),
                  MeaningItem(it, ev, ms), follow, None, conds)
    decreases it, 0
  {
    hide SkipCond, SkipNested, LineEnd, Flat, FlatRest, FlatItem, Step, Run, Marked, Wf, WfRest, WfMacros, Kept, KeptGroup, KeptRest, Meaning, MeaningRest, HasHash;
    var st := State(Marked(FlatItem(it) + follow, c), out, conds, ms);
    var x := FlatRest(it.rest) + follow;
    out' := out;
    if !KeepsLine(c) {
      n := 1;
      ConditionalText(it, follow);
      HeadLost(ev, TestWord(it.test), TestTail(it.test) + (Flat(it.group) + x), c, out, conds, ms);
    } else {
      RunTest(ev, it, c, follow, out, conds, ms);
      var v := Holds(it.test, ev, ms);
      if v.None? {
        n := 0;
        RunZero(ev, st);
      } else {
        var d1 := Cond(InThen, v.value);
        var st1 := State(if v.value then Flat(it.group) + x else x, out, [d1] + conds, ms);
        One(ev, st, st1);
        if v.value {
          n, out' := RunGroup(ev, it.group, it.rest, follow, out, d1, conds, ms);
          LeadsFrom(ev, st, 1, st1, n, out', KeptGroup(it.group, ev, ms, x), Meaning(it.group, ev, ms), follow, None, conds);
        } else {
          n, out' := RunRest(ev, it.rest, follow, out, d1, conds, ms);
          LeadsFrom(ev, st, 1, st1, n, out', KeptRest(it.rest, ev, ms, follow), MeaningRest(it.rest, ev, ms), follow, None, conds);
        }
        n := 1 + n;
      }
    }
  }

  lemma {:induction false} RunItem(ev: Evaluator, it: Item, c: Option<Mark>, follow: seq<Tok>, out: seq<Tok>, conds: seq<Cond>, ms: Macros)
    returns (n: nat, out': seq<Tok>)
    requires WfItem(it) && WfMacros(ms) && StartsLine(follow)
    ensures Leads(ev, State(Marked(FlatItem(it) + follow, c), out, conds, ms), n, out', KeptItem(it, ev, ms, c, follow),
                  MeaningItem(it, ev, ms), follow, MarkAfterItem(it, ms, c), conds)
    decreases it, 1
  {
    hide FlatItem, Step, Run, Marked, WfItem, WfMacros, MeaningItem, Leads, Flat, FlatRest;
    match it
    case Text(_) => n, out' := RunTextItem(ev, it, c, follow, out, conds, ms);
    case Define(_, _) =>
      RunDefine(ev, it, c, follow, out, conds, ms);
      n, out' := if KeptItem(it, ev, ms, c, follow) || !KeepsLine(c) then 1 else 0, out;
    case Undef(_) =>
      RunUndef(ev, it, c, follow, out, conds, ms);
      n, out' := 1, out;
    case Conditional(_, _, _) => n, out' := RunConditional(ev, it, c, follow, out, conds, ms);
  }

  /** Items in a row. */
  lemma {:induction false} RunItems(ev: Evaluator, items: seq<Item>, c: Option<Mark>, follow: seq<Tok>, out: seq<Tok>, conds: seq<Cond>, ms: Macros)
    returns (n: nat, out': seq<Tok>)
    requires Wf(items) && WfMacros(ms) && StartsLine(follow)
    ensures Leads(ev, State(Marked(Flat(items) + follow, c), out, conds, ms), n, out', Kept(items, ev, ms, c, follow),
                  Meaning(items, ev, ms), follow, MarkAfter(items, ev, ms, c), conds)
    decreases items, 0
  {
    hide FlatItem, Step, Run, Marked, WfItem, WfMacros, MeaningItem, KeptItem, MarkAfterItem, HasHash;
    var st := State(Marked(Flat(items) + follow, c), out, conds, ms);
    if items == [] {
      assert Flat(items) + follow == follow && Words(out) + [] == Words(out);
      n, out' := 0, out;
      RunZero(ev, st);
    } else {
      hide Flat, Wf, Kept, Meaning, MarkAfter;
      var x := Flat(items[1..]) + follow;
      var a := MeaningItem(items[0], ev, ms);
      assert Flat(items) + follow == FlatItem(items[0]) + x by { FlatCons(items, follow); }
      WfCons(items);
      FlatStarts(items[1..], follow);
      KeptCons(items, ev, ms, c, follow);
      n, out' := RunItem(ev, items[0], c, x, out, conds, ms);
      if KeptItem(items[0], ev, ms, c, x) && a.Ok? {
        var c1 := MarkAfterItem(items[0], ms, c);
        var mid := State(Marked(x, c1), out', conds, a.macros);
        MacrosKept(items[0], ev, ms);
        var k, out2 := RunItems(ev, items[1..], c1, follow, out', conds, a.macros);
        LeadsThen(ev, st, n, mid, a.words, k, out2, Kept(items[1..], ev, a.macros, c1, follow), Meaning(items[1..], ev, a.macros), follow,
                  MarkAfter(items[1..], ev, a.macros, c1), conds);
        n, out' := n + k, out2;
      }
    }
  }

  lemma FlatCons(items: seq<Item>, follow: seq<Tok>)
    requires items != []
    ensures Flat(items) + follow == FlatItem(items[0]) + (Flat(items[1..]) + follow)
  {
    hide FlatItem;
  }

  lemma WfCons(items: seq<Item>)
    requires Wf(items) && items != []
    ensures WfItem(items[0]) && Wf(items[1..])
  {
    hide WfItem;
  }

  lemma KeptCons(items: seq<Item>, ev: Evaluator, ms: Macros, c: Option<Mark>, follow: seq<Tok>)
    requires items != []
    ensures var a, c1 := MeaningItem(items[0], ev, ms), MarkAfterItem(items[0], ms, c);
      && (Kept(items, ev, ms, c, follow) <==>
            KeptItem(items[0], ev, ms, c, Flat(items[1..]) + follow) && (a.Ok? ==> Kept(items[1..], ev, a.macros, c1, follow)))
      && (a.Failed? ==> Meaning(items, ev, ms) == Failed && MarkAfter(items, ev, ms, c) == None)
      && (a.Ok? ==> MarkAfter(items, ev, ms, c) == MarkAfter(items[1..], ev, a.macros, c1))
      && (a.Ok? ==> var b := Meaning(items[1..], ev, a.macros);
            Meaning(items, ev, ms) == if b.Failed? then Failed else Ok(a.words + b.words, b.macros))
  {
    hide MeaningItem, KeptItem, MarkAfterItem, FlatItem;
  }

  lemma {:induction false} MacrosKept(it: Item, ev: Evaluator, ms: Macros)
    requires WfItem(it) && WfMacros(ms) && MeaningItem(it, ev, ms).Ok?
    ensures WfMacros(MeaningItem(it, ev, ms).macros)
    decreases it, 0
  {
    hide Meaning, MeaningRest, Wf, WfRest, ReplacedAll, Inline;
    if it.Conditional? {
      if Holds(it.test, ev, ms).value { MacrosKeptAll(it.group, ev, ms); } else { MacrosKeptRest(it.rest, ev, ms); }
    }
  }

  lemma {:induction false} MacrosKeptAll(items: seq<Item>, ev: Evaluator, ms: Macros)
    requires Wf(items) && WfMacros(ms) && Meaning(items, ev, ms).Ok?
    ensures WfMacros(Meaning(items, ev, ms).macros)
    decreases items, 0
  {
    hide MeaningItem, WfItem, WfMacros;
    if items != [] {
      MacrosKept(items[0], ev, ms);
      MacrosKeptAll(items[1..], ev, MeaningItem(items[0], ev, ms).macros);
    }
  }

  lemma {:induction false} MacrosKeptRest(r: Rest, ev: Evaluator, ms: Macros)
    requires WfRest(r) && WfMacros(ms) && MeaningRest(r, ev, ms).Ok?
    ensures WfMacros(MeaningRest(r, ev, ms).macros)
    decreases r, 0
  {
    hide Meaning, Wf, WfMacros;
    match r
    case End =>
    case Else(g) => MacrosKeptAll(g, ev, ms);
    case Elif(e, g, more) => if ev(e, ms).value { MacrosKeptAll(g, ev, ms); } else { MacrosKeptRest(more, ev, ms); }
  }
}
