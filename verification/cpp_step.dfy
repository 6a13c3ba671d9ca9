/** The main loop of chibicc's preprocessor, one iteration at a time. */
module CppStep {
  import opened CppExpand
  import opened Wrappers

  datatype Context = InThen | InElif | InElse

  /** An open conditional. */
  datatype Cond = Cond(ctx: Context, included: bool)

  /** Remaining input, output so far, open conditionals with the innermost first, macros. */
  datatype State = State(toks: seq<Tok>, out: seq<Tok>, conds: seq<Cond>, macros: Macros)

  /** Error is a diagnostic that ends the compilation; Unmodelled is a directive outside this model. */
  datatype Effect = Next(st: State) | Done | Error | Unmodelled

  /** Evaluation of the expression of an `#if` or `#elif`; None is a diagnostic. */
  type Evaluator = (seq<Tok>, Macros) -> Option<bool>

  predicate IsHash(t: Tok) { t.bol && t.text == "#" }

  predicate Opens(w: string) { w == "if" || w == "ifdef" || w == "ifndef" }

  predicate Continues(w: string) { w == "elif" || w == "else" || w == "endif" }

  /** Spelling of the token after the first; the end of input has none. */
  function Second(l: seq<Tok>): string { if |l| > 1 then l[1].text else "" }

  // ---------- skipping ----------

  /** Input after the `#endif` that closes a nested conditional. */
  function SkipNested(l: seq<Tok>): (r: seq<Tok>)
    ensures |r| <= |l|
    decreases |l|
  {
    if l == [] then []
    else if IsHash(l[0]) && Opens(Second(l)) then SkipNested(SkipNested(l[2..]))
    else if IsHash(l[0]) && Second(l) == "endif" then l[2..]
    else SkipNested(l[1..])
  }

  /** Input from the next `#elif`, `#else` or `#endif` of this level on. */
  function SkipCond(l: seq<Tok>): (r: seq<Tok>)
    ensures |r| <= |l|
    decreases |l|
  {
    if l == [] then []
    else if IsHash(l[0]) && Opens(Second(l)) then SkipCond(SkipNested(l[2..]))
    else if IsHash(l[0]) && Continues(Second(l)) then l
    else SkipCond(l[1..])
  }

  /** Length of the rest of the line. */
  function LineEnd(l: seq<Tok>): (n: nat)
    ensures n <= |l|
  {
    if l == [] || l[0].bol then 0 else 1 + LineEnd(l[1..])
  }

  // ---------- one iteration ----------

  function Step(ev: Evaluator, st: State): Effect {
    if st.toks == [] then Done
    else
      var t, rest := st.toks[0], st.toks[1..];
      if Expandable(t, st.macros) then Next(st.(toks := Marked(Body(t, st.macros) + rest, Some(MarkOf(t)))))
      else if !IsHash(t) then Next(st.(toks := rest, out := st.out + [t]))
      else if rest == [] then Next(st.(toks := []))
      else Directive(ev, st, rest[0], rest[1..])
  }

  /** A directive: word is the token after the `#`, and rest is what follows it. */
  function Directive(ev: Evaluator, st: State, word: Tok, rest: seq<Tok>): Effect {
    if word.text == "include" || word.text == "include_next" then Unmodelled
    else if word.text == "define" then DoDefine(st, rest)
    else if word.text == "undef" then
      if rest == [] || !rest[0].kind.Ident? then Error else Next(st.(toks := rest[1..], macros := st.macros - {rest[0].text}))
    else if word.text == "if" then DoIf(ev, st, rest)
    else if word.text == "ifdef" || word.text == "ifndef" then
      if rest == [] then Error
      else
        var defined := rest[0].kind.Ident? && rest[0].text in st.macros;
        Open(st, defined == (word.text == "ifdef"), rest[1..])
    else if word.text == "elif" then DoElif(ev, st, [word] + rest)
    else if word.text == "else" then
      if st.conds == [] || st.conds[0].ctx.InElse? then Error
      else
        var c := st.conds[0];
        Next(st.(toks := if c.included then SkipCond(rest) else rest, conds := [Cond(InElse, c.included)] + st.conds[1..]))
    else if word.text == "endif" then
      if st.conds == [] then Error else Next(st.(toks := rest, conds := st.conds[1..]))
    else if word.text == "line" || word.kind.Number? || word.text == "pragma" then Unmodelled
    else if word.text == "error" then Error
    else if word.bol then Next(st.(toks := [word] + rest))
    else Error
  }

  /** A definition; an unspaced parenthesis after the name, even on the next line, makes it function-like. */
  function DoDefine(st: State, l: seq<Tok>): Effect {
    if l == [] || !l[0].kind.Ident? then Error
    else if |l| > 1 && !l[1].space && l[1].text == "(" then Unmodelled
    else
      var n := LineEnd(l[1..]);
      Next(st.(toks := l[1..][n..], macros := st.macros[l[0].text := l[1..][..n]]))
  }

  /** Opens a conditional; its first group is skipped if not included. */
  function Open(st: State, included: bool, rest: seq<Tok>): Effect {
    Next(st.(toks := if included then rest else SkipCond(rest), conds := [Cond(InThen, included)] + st.conds))
  }

  function DoIf(ev: Evaluator, st: State, l: seq<Tok>): Effect {
    var n := LineEnd(l);
    match ev(l[..n], st.macros)
    case None => Error
    case Some(v) => Open(st, v, l[n..])
  }

  /** l starts at the word `elif`; its expression is evaluated only if no group was included before. */
  function DoElif(ev: Evaluator, st: State, l: seq<Tok>): Effect
    requires l != []
  {
    if st.conds == [] || st.conds[0].ctx.InElse? then Error
    else
      var c := st.conds[0];
      if c.included then Next(st.(toks := SkipCond(l), conds := [Cond(InElif, true)] + st.conds[1..]))
      else
        var n := LineEnd(l[1..]);
        match ev(l[1..][..n], st.macros)
        case None => Error
        case Some(v) =>
          Next(st.(toks := if v then l[1..][n..] else SkipCond(l[1..][n..]), conds := [Cond(InElif, v)] + st.conds[1..]))
  }

  // ---------- runs ----------

  /** The state after n iterations, none of which ended the loop or the compilation. */
  function Run(ev: Evaluator, st: State, n: nat): Option<State>
    decreases n
  {
    if n == 0 then Some(st)
    else
      var r := Step(ev, st);
      if r.Next? then Run(ev, r.st, n - 1) else None
  }

  lemma {:induction false} RunSplit(ev: Evaluator, st: State, n: nat, k: nat)
    ensures Run(ev, st, n + k) == (if Run(ev, st, n).Some? then Run(ev, Run(ev, st, n).value, k) else None)
    decreases n
  {
    hide Step;
    if n > 0 && Step(ev, st).Next? {
      RunSplit(ev, Step(ev, st).st, n - 1, k);
      assert n + k - 1 == n - 1 + k;
    }
  }

  lemma Chain(ev: Evaluator, st: State, n: nat, mid: State, k: nat, r: Option<State>)
    requires Run(ev, st, n) == Some(mid) && Run(ev, mid, k) == r
    ensures Run(ev, st, n + k) == r
  {
    RunSplit(ev, st, n, k);
  }

  lemma One(ev: Evaluator, st: State, st': State)
    requires Step(ev, st) == Next(st')
    ensures Run(ev, st, 1) == Some(st')
  {
    hide Step;
    assert Run(ev, st', 0) == Some(st');
  }

  /** Output is only ever appended to. */
  lemma StepExtends(ev: Evaluator, st: State)
    requires Step(ev, st).Next?
    ensures st.out <= Step(ev, st).st.out
  {
    hide SkipCond, SkipNested, LineEnd, Marked, Body;
  }

  lemma {:induction false} RunExtends(ev: Evaluator, st: State, n: nat)
    requires Run(ev, st, n).Some?
    ensures st.out <= Run(ev, st, n).value.out
    decreases n
  {
    hide Step;
    if n > 0 {
      StepExtends(ev, st);
      RunExtends(ev, Step(ev, st).st, n - 1);
    }
  }

  // ---------- text ----------

  /** No token of l could be taken for the start of a directive, wherever it ends up. */
  ghost predicate NoHash(l: seq<Tok>) { forall t :: t in l ==> t.text != "#" }

  ghost predicate NoHashMacros(ms: Macros) { forall x :: x in ms ==> NoHash(ms[x]) }

  /** The loop replaces text by its expansion, whatever follows it; this is also why it ends. */
  lemma {:induction false} RunTok(ev: Evaluator, t: Tok, rest: seq<Tok>, out: seq<Tok>, conds: seq<Cond>, ms: Macros) returns (n: nat)
    requires NoHashMacros(ms) && t.text != "#"
    ensures var e := ExpandTok(t, ms);
      Run(ev, State([t] + rest, out, conds, ms), n) == Some(State(Marked(rest, e.mark), out + e.out, conds, ms))
    decreases Rank(t, ms), 0, 0
  {
    hide Directive, Marked, ExpandFrom, Run;
    var s0 := State([t] + rest, out, conds, ms);
    assert s0.toks[0] == t && s0.toks[1..] == rest;
    if Expandable(t, ms) {
      BodyRank(t, ms);
      var b, c := Body(t, ms), Some(MarkOf(t));
      assert NoHash(b) by { BodyNoHash(t, ms); }
      var s1 := State(Marked(b + rest, c), out, conds, ms);
      One(ev, s0, s1);
      n := RunText(ev, b, rest, c, out, conds, ms);
      var e := ExpandTok(t, ms);
      Chain(ev, s0, 1, s1, n, Some(State(Marked(rest, e.mark), out + e.out, conds, ms)));
      n := 1 + n;
    } else {
      MarkedNone(rest);
      One(ev, s0, State(rest, out + [t], conds, ms));
      n := 1;
    }
  }

  lemma MarkedNone(l: seq<Tok>)
    ensures Marked(l, None) == l
  {}

  lemma BodyNoHash(t: Tok, ms: Macros)
    requires NoHashMacros(ms) && Expandable(t, ms)
    ensures NoHash(Body(t, ms))
  {
    var b := Body(t, ms);
    forall i | 0 <= i < |b| ensures b[i].text != "#" { assert ms[t.text][i] in ms[t.text]; }
  }

  lemma {:induction false} RunText(ev: Evaluator, l: seq<Tok>, rest: seq<Tok>, c: Option<Mark>, out: seq<Tok>, conds: seq<Cond>, ms: Macros)
    returns (n: nat)
    requires NoHashMacros(ms) && NoHash(l)
    ensures var e := ExpandFrom(l, ms, c);
      Run(ev, State(Marked(l + rest, c), out, conds, ms), n) == Some(State(Marked(rest, e.mark), out + e.out, conds, ms))
    decreases MaxRank(l, ms), |l|, 1
  {
    hide Step, ExpandTok, Run, NoHashMacros, ExpandFrom, Marked;
    var s0 := State(Marked(l + rest, c), out, conds, ms);
    if l == [] {
      n := 0;
      RunZero(ev, s0);
      FromEmpty(rest, out, ms, c);
    } else {
      MarkedSplit(l, rest, c);
      FromUnfold(l, ms, c);
      var t, l' := Marked(l, c)[0], l[1..];
      assert l[0] in l && NoHash(l');
      var a := ExpandTok(t, ms);
      var r := ExpandFrom(l', ms, a.mark);
      var s1, s2 := State(Marked(l' + rest, a.mark), out + a.out, conds, ms), State(Marked(rest, r.mark), out + a.out + r.out, conds, ms);
      n := RunTok(ev, t, l' + rest, out, conds, ms);
      var n2 := RunText(ev, l', rest, a.mark, out + a.out, conds, ms);
      Chain(ev, s0, n, s1, n2, Some(s2));
      Assoc(out, a.out, r.out);
      n := n + n2;
    }
  }

  lemma FromEmpty(rest: seq<Tok>, out: seq<Tok>, ms: Macros, c: Option<Mark>)
    ensures ExpandFrom([], ms, c) == Expansion([], c) && [] + rest == rest && out + [] == out
  {}

  lemma RunZero(ev: Evaluator, st: State)
    ensures Run(ev, st, 0) == Some(st)
  {}

  lemma FromUnfold(l: seq<Tok>, ms: Macros, c: Option<Mark>)
    requires l != [] && |Marked(l, c)| == |l|
    ensures var a := ExpandTok(Marked(l, c)[0], ms); var r := ExpandFrom(l[1..], ms, a.mark);
      ExpandFrom(l, ms, c) == Expansion(a.out + r.out, r.mark)
  {
    hide ExpandTok, Marked;
  }

  lemma MarkedSplit(l: seq<Tok>, rest: seq<Tok>, c: Option<Mark>)
    requires l != []
    ensures |Marked(l, c)| == |l| && Marked(l, c)[0].text == l[0].text && Marked(l, c)[0].hide == l[0].hide
    ensures Marked(l + rest, c) == [Marked(l, c)[0]] + (l[1..] + rest)
  {
    assert (l + rest)[1..] == l[1..] + rest;
    assert l + rest == [l[0]] + (l[1..] + rest);
  }

  /** Expansion of text ends for every macro table, and the loop computes it. */
  lemma TextExpands(ev: Evaluator, l: seq<Tok>, ms: Macros) returns (n: nat)
    requires NoHashMacros(ms) && NoHash(l)
    ensures Run(ev, State(l, [], [], ms), n) == Some(State([], ExpandFrom(l, ms, None).out, [], ms))
  {
    hide Run, Step, ExpandFrom;
    n := RunText(ev, l, [], None, [], [], ms);
    assert l + [] == l && [] + ExpandFrom(l, ms, None).out == ExpandFrom(l, ms, None).out;
  }
}
