/** The preprocessor as it runs: token lists rewritten in place, a stack of conditionals, a macro table. */
module CppMachine {
  import opened CppExpand
  import opened CppStep
  import opened CppTree
  import opened CppMain
  import opened Wrappers

  // ---------- list operations ----------

  /** Adds hs to the hideset of every token. */
  method AddHideset(l: seq<Tok>, hs: set<string>) returns (r: seq<Tok>)
    ensures r == Hide(l, hs)
  {
    r := [];
    for i := 0 to |l|
      invariant |r| == i && forall j :: 0 <= j < i ==> r[j] == l[j].(hide := l[j].hide + hs)
    {
      r := r + [l[i].(hide := l[i].hide + hs)];
    }
  }

  /** Skips to the end of a nested conditional. */
  method SkipCondIncl2(l: seq<Tok>) returns (r: seq<Tok>)
    ensures r == SkipNested(l)
    decreases |l|
  {
    r := l;
    while r != []
      invariant |r| <= |l| && SkipNested(l) == SkipNested(r)
      decreases |r|
    {
      if IsHash(r[0]) && Opens(Second(r)) {
        r := SkipCondIncl2(r[2..]);
      } else if IsHash(r[0]) && Second(r) == "endif" {
        return r[2..];
      } else {
        r := r[1..];
      }
    }
  }

  /** Skips to the next continuation of this level. */
  method SkipCondIncl(l: seq<Tok>) returns (r: seq<Tok>)
    ensures r == SkipCond(l)
  {
    r := l;
    while r != []
      invariant |r| <= |l| && SkipCond(l) == SkipCond(r)
      decreases |r|
    {
      if IsHash(r[0]) && Opens(Second(r)) {
        r := SkipCondIncl2(r[2..]);
      } else if IsHash(r[0]) && Continues(Second(r)) {
        return;
      } else {
        r := r[1..];
      }
    }
  }

  /** The tokens up to the end of the line, and what follows. */
  method CopyLine(l: seq<Tok>) returns (line: seq<Tok>, rest: seq<Tok>)
    ensures line == l[..LineEnd(l)] && rest == l[LineEnd(l)..]
  {
    line, rest := [], l;
    while rest != [] && !rest[0].bol
      invariant |line| + |rest| == |l| && line == l[..|line|] && rest == l[|line|..]
      invariant LineEnd(l) == |line| + LineEnd(rest)
      decreases |rest|
    {
      line, rest := line + [rest[0]], rest[1..];
    }
  }

  class Preprocessor {
    const ev: Evaluator
    var toks: seq<Tok>
    var out: seq<Tok>
    var conds: seq<Cond>
    var macros: Macros

    constructor (ev: Evaluator, toks: seq<Tok>, macros: Macros)
      ensures this.ev == ev && St() == State(toks, [], [], macros)
    {
      this.ev, this.toks, this.macros := ev, toks, macros;
      out, conds := [], [];
    }

    function St(): State
      reads this
    {
      State(toks, out, conds, macros)
    }

    /** Replaces the first token by the body of the macro it names, if it may be expanded. */
    method ExpandMacro() returns (expanded: bool)
      requires toks != []
      modifies this`toks
      ensures expanded == old(Expandable(toks[0], macros))
      ensures toks == if expanded then old(Marked(Body(toks[0], macros) + toks[1..], Some(MarkOf(toks[0])))) else old(toks)
    {
      var t := toks[0];
      if t.text in t.hide { return false; }
      if !t.kind.Ident? || t.text !in macros { return false; }
      var body := AddHideset(macros[t.text], t.hide + {t.text});
      toks := body + toks[1..];
      if toks != [] { toks := toks[0 := toks[0].(bol := t.bol, space := t.space)]; }
      expanded := true;
    }

    method PushCondIncl(included: bool)
      modifies this`conds
      ensures conds == [Cond(InThen, included)] + old(conds)
    {
      conds := [Cond(InThen, included)] + conds;
    }

    /** Carries out the directive whose first word is the current token. */
    method RunDirective() returns (r: Effect)
      requires toks != []
      modifies this
      ensures var e := old(Directive(ev, St(), toks[0], toks[1..])); if e.Next? then r.Done? && St() == e.st else r == e && (r.Error? || r.Unmodelled?)
    {
      hide SkipCond, SkipNested, LineEnd;
      var word, rest := toks[0], toks[1..];
      assert [word] + rest == toks;
      r := Done;
      if word.text == "include" || word.text == "include_next" { return Unmodelled; }
      if word.text == "define" { r := ReadMacroDefinition(rest); return; }
      if word.text == "undef" {
        if rest == [] || !rest[0].kind.Ident? { return Error; }
        macros := macros - {rest[0].text};
        toks := rest[1..];
        return;
      }
      if word.text == "if" {
        var line, after := CopyLine(rest);
        var v := ev(line, macros);
        if v.None? { return Error; }
        PushCondIncl(v.value);
        toks := after;
        if !v.value { toks := SkipCondIncl(toks); }
        return;
      }
      if word.text == "ifdef" || word.text == "ifndef" {
        if rest == [] { return Error; }
        var defined := rest[0].kind.Ident? && rest[0].text in macros;
        var included := defined == (word.text == "ifdef");
        PushCondIncl(included);
        toks := rest[1..];
        if !included { toks := SkipCondIncl(toks); }
        return;
      }
      if word.text == "elif" { r := RunElif(); return; }
      if word.text == "else" {
        if conds == [] || conds[0].ctx.InElse? { return Error; }
        conds := [conds[0].(ctx := InElse)] + conds[1..];
        toks := rest;
        if conds[0].included { toks := SkipCondIncl(toks); }
        return;
      }
      if word.text == "endif" {
        if conds == [] { return Error; }
        conds := conds[1..];
        toks := rest;
        return;
      }
      if word.text == "line" || word.kind.Number? || word.text == "pragma" { return Unmodelled; }
      if word.text == "error" || !word.bol { return Error; }
    }

    method ReadMacroDefinition(l: seq<Tok>) returns (r: Effect)
      modifies this`toks, this`macros
      ensures var e := DoDefine(old(St()), l); if e.Next? then r.Done? && St() == e.st else r == e && (r.Error? || r.Unmodelled?)
    {
      if l == [] || !l[0].kind.Ident? { return Error; }
      if |l| > 1 && !l[1].space && l[1].text == "(" { return Unmodelled; }
      var line, after := CopyLine(l[1..]);
      macros := macros[l[0].text := line];
      toks := after;
      r := Done;
    }

    method RunElif() returns (r: Effect)
      requires toks != []
      modifies this`toks, this`conds
      ensures var e := old(DoElif(ev, St(), toks)); if e.Next? then r.Done? && St() == e.st else r == e && r.Error?
    {
      if conds == [] || conds[0].ctx.InElse? { return Error; }
      conds := [conds[0].(ctx := InElif)] + conds[1..];
      r := Done;
      if !conds[0].included {
        var line, after := CopyLine(toks[1..]);
        var v := ev(line, macros);
        if v.None? { return Error; }
        toks := after;
        if v.value {
          conds := [conds[0].(included := true)] + conds[1..];
          return;
        }
      }
      toks := SkipCondIncl(toks);
    }

    /** Visits all tokens. The loop is known to end after n iterations, in the state last. */
    method Preprocess2(ghost n: nat, ghost last: State) returns (r: Effect)
      requires Run(ev, St(), n) == Some(last) && !Step(ev, last).Next?
      modifies this
      ensures r == Step(ev, last) && (r.Done? ==> St() == last)
    {
      hide Directive, Marked, Body;
      ghost var left: nat := n;
      while toks != []
        invariant Run(ev, St(), left) == Some(last)
        decreases left
      {
        ghost var was := St();
        LastOrNext(ev, was, left, last);
        var t := toks[0];
        var expanded := ExpandMacro();
        if !expanded {
          if !IsHash(t) {
            out := out + [t];
            toks := toks[1..];
          } else {
            toks := toks[1..];
            if toks != [] {
              DirectiveAt(ev, was);
              r := RunDirective();
              if !r.Done? { return; }
            }
          }
        }
        left := left - 1;
      }
      LastOrNext(ev, St(), left, last);
      r := Done;
    }
  }

  /** Only the tokens that a directive leaves matter, not those it found. */
  lemma DirectiveAt(ev: Evaluator, st: State)
    requires |st.toks| > 1 && !Expandable(st.toks[0], st.macros) && IsHash(st.toks[0])
    ensures Step(ev, st) == Directive(ev, st.(toks := st.toks[1..]), st.toks[1], st.toks[1..][1..])
  {
    hide SkipCond, SkipNested, LineEnd;
  }

  lemma LastOrNext(ev: Evaluator, st: State, n: nat, last: State)
    requires Run(ev, st, n) == Some(last) && !Step(ev, last).Next?
    ensures if Step(ev, st).Next? then n > 0 && Run(ev, Step(ev, st).st, n - 1) == Some(last) else n == 0 && st == last
  {
    hide Step;
  }

  /** Preprocessing a translation unit all of whose directives are kept. */
  method Preprocess(ev: Evaluator, toks: seq<Tok>, macros: Macros, ghost items: seq<Item>)
    returns (out: seq<Tok>, macros': Macros)
    requires toks == Flat(items) && Wf(items) && WfMacros(macros) && Meaning(items, ev, macros).Ok? && Kept(items, ev, macros, None, [])
    ensures var r := Meaning(items, ev, macros); Words(out) == r.words && macros' == r.macros
  {
    hide Run, Step, Flat, Wf, WfMacros, Meaning, Kept;
    var pp := new Preprocessor(ev, toks, macros);
    PreprocessIff(ev, items, macros);
    ghost var n: nat, o: seq<Tok> :| Run(ev, pp.St(), n) == Some(State([], o, [], Meaning(items, ev, macros).macros))
                                     && Words(o) == Meaning(items, ev, macros).words;
    ghost var last := State([], o, [], Meaning(items, ev, macros).macros);
    EmptyDone(ev, last);
    var _ := pp.Preprocess2(n, last);
    out, macros' := pp.out, pp.macros;
  }
}
