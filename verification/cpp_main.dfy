/** Whole translation units, and the conditions under which directives are lost. */
module CppMain {
  import opened CppExpand
  import opened CppStep
  import opened CppTree
  import opened CppCorrect
  import opened Wrappers

  /** The loop ends, all conditionals closed, with the given words and macros. */
  ghost predicate Computes(ev: Evaluator, toks: seq<Tok>, ms: Macros, words: seq<Word>, ms': Macros) {
    exists n: nat, out: seq<Tok> :: Run(ev, State(toks, [], [], ms), n) == Some(State([], out, [], ms')) && Words(out) == words
  }

  lemma ComputesBy(ev: Evaluator, toks: seq<Tok>, ms: Macros, words: seq<Word>, ms': Macros, n: nat, out: seq<Tok>)
    requires Run(ev, State(toks, [], [], ms), n) == Some(State([], out, [], ms')) && Words(out) == words
    ensures Computes(ev, toks, ms, words, ms')
  {
    hide Run;
  }

  // ---------- meanings contain no directives ----------

  ghost predicate NoHashWords(ws: seq<Word>) { forall w :: w in ws ==> w.text != "#" }

  lemma {:induction false} ReplacedNoHash(w: Word, ms: Macros, active: set<string>)
    requires NoHashMacros(ms) && w.text != "#"
    ensures NoHashWords(Replaced(w, ms, active))
    decreases |ms.Keys - active|, 0, 0
  {
    if w.kind.Ident? && w.text in ms && w.text !in active {
      SmallerSet(ms.Keys - (active + {w.text}), ms.Keys - active, w.text);
      WordsNoHash(ms[w.text]);
      AllNoHash(Words(ms[w.text]), ms, active + {w.text});
    }
  }

  lemma WordsNoHash(l: seq<Tok>)
    requires NoHash(l)
    ensures NoHashWords(Words(l))
  {
    forall i | 0 <= i < |l| ensures Words(l)[i].text != "#" { assert l[i] in l; }
  }

  lemma {:induction false} AllNoHash(ws: seq<Word>, ms: Macros, active: set<string>)
    requires NoHashMacros(ms) && NoHashWords(ws)
    ensures NoHashWords(ReplacedAll(ws, ms, active))
    decreases |ms.Keys - active|, |ws|, 1
  {
    hide NoHashMacros, Replaced;
    if ws != [] {
      assert ws[0] in ws;
      ReplacedNoHash(ws[0], ms, active);
      AllNoHash(ws[1..], ms, active);
    }
  }

  lemma {:induction false} ItemNoHash(it: Item, ev: Evaluator, ms: Macros)
    requires WfItem(it) && WfMacros(ms) && MeaningItem(it, ev, ms).Ok?
    ensures NoHashWords(MeaningItem(it, ev, ms).words)
    decreases it, 0
  {
    hide Meaning, MeaningRest, Wf, WfRest, ReplacedAll;
    match it
    case Text(l) =>
      WordsNoHash(l);
      AllNoHash(Words(l), ms, {});
    case Conditional(t, g, r) => if Holds(t, ev, ms).value { ItemsNoHash(g, ev, ms); } else { RestNoHash(r, ev, ms); }
    case _ =>
  }

  lemma {:induction false} ItemsNoHash(items: seq<Item>, ev: Evaluator, ms: Macros)
    requires Wf(items) && WfMacros(ms) && Meaning(items, ev, ms).Ok?
    ensures NoHashWords(Meaning(items, ev, ms).words)
    decreases items, 0
  {
    hide MeaningItem, WfItem, WfMacros;
    if items != [] {
      ItemNoHash(items[0], ev, ms);
      MacrosKept(items[0], ev, ms);
      ItemsNoHash(items[1..], ev, MeaningItem(items[0], ev, ms).macros);
    }
  }

  lemma {:induction false} RestNoHash(r: Rest, ev: Evaluator, ms: Macros)
    requires WfRest(r) && WfMacros(ms) && MeaningRest(r, ev, ms).Ok?
    ensures NoHashWords(MeaningRest(r, ev, ms).words)
    decreases r, 0
  {
    hide Meaning, Wf, WfMacros;
    match r
    case End =>
    case Else(g) => ItemsNoHash(g, ev, ms);
    case Elif(e, g, more) => if ev(e, ms).value { ItemsNoHash(g, ev, ms); } else { RestNoHash(more, ev, ms); }
  }

  // ---------- the theorem ----------

  /** The preprocessor yields the meaning of a translation unit exactly if it keeps every directive. */
  lemma PreprocessIff(ev: Evaluator, items: seq<Item>, ms: Macros)
    requires Wf(items) && WfMacros(ms) && Meaning(items, ev, ms).Ok?
    ensures var r := Meaning(items, ev, ms);
      Computes(ev, Flat(items), ms, r.words, r.macros) <==> Kept(items, ev, ms, None, [])
  {
    hide Run, Step, Flat, Wf, WfMacros, Meaning, Kept, MarkAfter, HasHash;
    var r, st := Meaning(items, ev, ms), State(Flat(items), [], [], ms);
    var n, out := RunItems(ev, items, None, [], [], [], ms);
    MarkedNone(Flat(items) + []);
    assert Flat(items) + [] == Flat(items) && Words([]) + r.words == r.words;
    if Kept(items, ev, ms, None, []) {
      ComputesBy(ev, Flat(items), ms, r.words, r.macros, n, out);
    } else {
      ItemsNoHash(items, ev, ms);
      if Computes(ev, Flat(items), ms, r.words, r.macros) {
        var n', out': seq<Tok> :| Run(ev, st, n') == Some(State([], out', [], r.macros)) && Words(out') == r.words;
        StrayNotDone(ev, st, n, n', State([], out', [], r.macros));
        HashWord(out');
      }
    }
  }

  lemma HashWord(out: seq<Tok>)
    requires HasHash(out)
    ensures !NoHashWords(Words(out))
  {
    var i :| 0 <= i < |out| && out[i].text == "#";
    assert Words(out)[i] in Words(out);
  }

  lemma StrayNotDone(ev: Evaluator, st: State, n: nat, n': nat, last: State)
    requires Strays(ev, st, n) && Run(ev, st, n') == Some(last) && last.toks == []
    ensures HasHash(last.out)
  {
    hide HasHash, Step;
    assert Step(ev, last) == Done by { EmptyDone(ev, last); }
    if n < n' {
      RunSplit(ev, st, n, n' - n);
      assert n + (n' - n) == n';
      var mid := Run(ev, st, n).value;
      RunExtends(ev, mid, n' - n);
      PrefixHash(mid.out, last.out);
    } else {
      RunSplit(ev, st, n', n - n');
    }
  }

  lemma EmptyDone(ev: Evaluator, st: State)
    requires st.toks == []
    ensures Step(ev, st) == Done
  {}

  lemma PrefixHash(a: seq<Tok>, b: seq<Tok>)
    requires a <= b
    ensures HasHash(a) ==> HasHash(b)
  {
    if HasHash(a) {
      var t :| t in a && t.text == "#";
      assert t in b;
    }
  }

  /** If an expression that has to be evaluated is in error, and directives are kept, the compilation ends with that error. */
  lemma FailureReported(ev: Evaluator, items: seq<Item>, ms: Macros) returns (n: nat)
    requires Wf(items) && WfMacros(ms) && Meaning(items, ev, ms).Failed? && Kept(items, ev, ms, None, [])
    ensures Run(ev, State(Flat(items), [], [], ms), n).Some? && Step(ev, Run(ev, State(Flat(items), [], [], ms), n).value) == Error
  {
    hide Run, Step, Flat, Wf, WfMacros, Meaning, Kept, MarkAfter, HasHash;
    var out;
    n, out := RunItems(ev, items, None, [], [], [], ms);
    MarkedNone(Flat(items) + []);
    assert Flat(items) + [] == Flat(items);
  }

  // ---------- when a line of text keeps the directive after it ----------

  /** The expansion of t ends in a macro that expands to nothing. */
  function EndsEmpty(t: Tok, ms: Macros): bool
    decreases Rank(t, ms)
  {
    Expandable(t, ms) &&
    (BodyRank(t, ms); var b := Body(t, ms); b == [] || (LastRank(b, ms); EndsEmpty(b[|b| - 1], ms)))
  }

  lemma {:induction false} LastRank(l: seq<Tok>, ms: Macros)
    requires l != []
    ensures Rank(l[|l| - 1], ms) <= MaxRank(l, ms)
  {
    if |l| > 1 {
      LastRank(l[1..], ms);
      assert l[1..][|l| - 2] == l[|l| - 1];
    }
  }

  lemma {:induction false} TokLeavesMark(t: Tok, ms: Macros)
    ensures ExpandTok(t, ms).mark.Some? <==> EndsEmpty(t, ms)
    decreases Rank(t, ms), 0, 0
  {
    hide ExpandFrom;
    if Expandable(t, ms) {
      BodyRank(t, ms);
      var b := Body(t, ms);
      FromLeavesMark(b, ms, Some(MarkOf(t)));
      if b != [] { LastRank(b, ms); }
    }
  }

  lemma {:induction false} FromLeavesMark(l: seq<Tok>, ms: Macros, c: Option<Mark>)
    ensures ExpandFrom(l, ms, c).mark.Some? <==> if l == [] then c.Some? else EndsEmpty(l[|l| - 1], ms)
    decreases MaxRank(l, ms), |l|, 1
  {
    hide ExpandTok, EndsEmpty, Marked, Rank;
    if l != [] {
      SameEnd(l, ms, c);
      var t := Marked(l, c)[0];
      TokLeavesMark(t, ms);
      FromLeavesMark(l[1..], ms, ExpandTok(t, ms).mark);
    }
  }

  /** The position of a token does not matter to what it expands to. */
  lemma SameEnd(l: seq<Tok>, ms: Macros, c: Option<Mark>)
    requires l != []
    ensures |Marked(l, c)| == |l| && EndsEmpty(Marked(l, c)[0], ms) == EndsEmpty(l[0], ms)
    ensures Rank(Marked(l, c)[0], ms) == Rank(l[0], ms)
  {
    hide MaxRank;
    if Expandable(l[0], ms) { assert Body(Marked(l, c)[0], ms) == Body(l[0], ms); }
  }

  /** A line of text keeps the directive on the next line exactly if it expands to nothing at all, or its expansion does not end
      in a macro that expands to nothing. */
  lemma LineKeepsNext(l: seq<Tok>, ms: Macros)
    requires l != [] && l[0].bol && Inline(l[1..]) && InlineMacros(ms)
    ensures var e := ExpandFrom(l, ms, None); KeepsLine(e.mark) <==> e.out == [] || !EndsEmpty(l[|l| - 1], ms)
  {
    hide ExpandTok, InlineMacros, EndsEmpty;
    var a := ExpandTok(l[0], ms);
    TokMark(l[0], ms);
    FromMark(l[1..], ms, a.mark);
    FromLeavesMark(l, ms, None);
  }

  // ---------- two inputs that go wrong ----------

  /** A token, then a macro E that is defined as nothing: only the token is left, and E's mark. */
  lemma EndsInNothing(t: Tok, e: Tok, ms: Macros)
    requires ms == map["E" := []] && t.text != "E" && e == Id("E")
    ensures ExpandFrom([t, e], ms, None) == Expansion([t], Some(MarkOf(e)))
    ensures ReplacedAll(Words([t, e]), ms, {}) == [WordOf(t)]
  {
    var l, ws := [t, e], [WordOf(t), WordOf(e)];
    assert l[1..] == [e] && l[1..][1..] == [];
    assert Body(e, ms) == [];
    assert ExpandTok(e, ms) == Expansion([], Some(MarkOf(e)));
    assert ExpandFrom([e], ms, None) == Expansion([], Some(MarkOf(e))) by { assert [e][1..] == []; }
    assert Words(l) == ws && ws[1..] == [WordOf(e)] && ws[1..][1..] == [];
    assert Words(ms["E"]) == [];
    assert Replaced(WordOf(e), ms, {}) == [];
    assert ReplacedAll(ws[1..], ms, {}) == [];
    assert Replaced(WordOf(t), ms, {}) == [WordOf(t)];
    assert ReplacedAll(ws, ms, {}) == [WordOf(t)] + [];
  }

  /** The macro E, defined as nothing; the line `x E`; and the directive `#undef E` after it. */
  function Nothing(): Macros { map["E" := []] }

  function Line(): seq<Tok> { [Tok("x", Ident, true, false, {}), Id("E")] }

  function Unit(): seq<Item> { [Text(Line()), Undef("E")] }

  lemma UnitMeaning(ev: Evaluator)
    ensures Wf(Unit()) && WfMacros(Nothing()) && Meaning(Unit(), ev, Nothing()) == Ok([Word("x", Ident)], map[])
    ensures Flat(Unit()) == Line() + [Hash(), Id("undef"), Id("E")]
  {
    hide ExpandFrom, ReplacedAll;
    var items, ms := Unit(), Nothing();
    EndsInNothing(Line()[0], Id("E"), ms);
    assert items[1..] == [Undef("E")] && items[1..][1..] == [];
    assert NoHash(Line()) && Plain(Line());
    assert WfItem(items[0]) && WfItem(items[1]);
    assert Flat(items[1..]) == FlatItem(items[1]) + [];
    assert ms - {"E"} == map[];
    assert Meaning(items[1..], ev, ms) == Ok([] + [], ms - {"E"});
    assert MeaningItem(items[0], ev, ms) == Ok([Word("x", Ident)], ms);
    assert [Word("x", Ident)] + [] == [Word("x", Ident)];
  }

  /** The line swallows the directive: `# undef E` is output as text, and E stays defined. */
  lemma DirectiveLost(ev: Evaluator) returns (n: nat)
    ensures Run(ev, State(Flat(Unit()), [], [], Nothing()), n)
         == Some(State([], [Line()[0], Tok("#", Other, false, true, {}), Id("undef")], [], Nothing()))
  {
    hide Run, Directive, ExpandFrom, ReplacedAll, Flat, Meaning;
    var x, e, u, ms := Line()[0], Id("E"), Id("undef"), Nothing();
    var lost := Tok("#", Other, false, true, {});
    UnitMeaning(ev);
    EndsInNothing(x, e, ms);
    EndsInNothing(u, e, ms);
    var s0 := State(Flat(Unit()), [], [], ms);
    var s1, s2, s3 := State([lost, u, e], [x], [], ms), State([u, e], [x, lost], [], ms), State([], [x, lost, u], [], ms);
    n := RunText(ev, Line(), [Hash(), u, e], None, [], [], ms);
    MarkedNone(Line() + [Hash(), u, e]);
    assert Marked([Hash(), u, e], Some(MarkOf(e))) == [lost, u, e] && [] + [x] == [x];
    assert Step(ev, s1) == Next(s2) by { assert s1.toks[1..] == [u, e] && [x] + [lost] == [x, lost]; }
    One(ev, s1, s2);
    var k := RunText(ev, [u, e], [], None, [x, lost], [], ms);
    assert [u, e] + [] == [u, e] && [x, lost] + [u] == [x, lost, u];
    MarkedNone([u, e]);
    Chain(ev, s0, n, s1, 1, Some(s2));
    Chain(ev, s0, n + 1, s2, k, Some(s3));
    n := n + 1 + k;
  }

  /** An empty definition followed by a line that starts with an unspaced parenthesis is taken for a function-like one. */
  lemma DefinitionMisread(ev: Evaluator, name: string, follow: seq<Tok>, out: seq<Tok>, conds: seq<Cond>, ms: Macros)
    requires LooksLikeParams(follow)
    ensures Step(ev, State(FlatItem(Define(name, [])) + follow, out, conds, ms)) == Unmodelled
  {
    var x := [Id(name)] + follow;
    assert FlatItem(Define(name, [])) + follow == [Hash(), Id("define")] + x;
    MarkedNone([Hash(), Id("define")] + x);
    HeadKept(ev, "define", x, None, out, conds, ms);
    assert x[1] == follow[0];
  }
}
