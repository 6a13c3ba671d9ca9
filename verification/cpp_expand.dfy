/** chibicc's object-like macro expansion: what a token list expands to, and why expansion ends. */
module CppExpand {
  import opened Wrappers

  datatype Kind = Ident | Number | Other

  /** A preprocessing token: its spelling and kind, whether it is first on its line, whether white space precedes it,
      and the macros it comes from. */
  datatype Tok = Tok(text: string, kind: Kind, bol: bool, space: bool, hide: set<string>)

  /** The object-like macros and their bodies. */
  type Macros = map<string, seq<Tok>>

  predicate Expandable(t: Tok, ms: Macros) { t.text !in t.hide && t.kind.Ident? && t.text in ms }

  /** The position attributes, which an expansion passes on to whatever token comes first after it. */
  datatype Mark = Mark(bol: bool, space: bool)

  function MarkOf(t: Tok): Mark { Mark(t.bol, t.space) }

  function Marked(l: seq<Tok>, c: Option<Mark>): seq<Tok> {
    if c.Some? && l != [] then [l[0].(bol := c.value.bol, space := c.value.space)] + l[1..] else l
  }

  function Hide(l: seq<Tok>, hs: set<string>): (r: seq<Tok>)
    ensures |r| == |l| && forall i :: 0 <= i < |l| ==> r[i] == l[i].(hide := l[i].hide + hs)
  {
    seq(|l|, i requires 0 <= i < |l| => l[i].(hide := l[i].hide + hs))
  }

  function Body(t: Tok, ms: Macros): seq<Tok>
    requires Expandable(t, ms)
  {
    Hide(ms[t.text], t.hide + {t.text})
  }

  // ---------- the measure ----------

  /** How many macros may still be expanded within the expansion of t. */
  function Rank(t: Tok, ms: Macros): nat { |ms.Keys - t.hide| }

  function MaxRank(l: seq<Tok>, ms: Macros): nat {
    if l == [] then 0
    else
      var n := MaxRank(l[1..], ms);
      if Rank(l[0], ms) > n then Rank(l[0], ms) else n
  }

  lemma {:induction false} MaxBelow(l: seq<Tok>, ms: Macros, n: nat)
    requires n > 0 && forall i :: 0 <= i < |l| ==> Rank(l[i], ms) < n
    ensures MaxRank(l, ms) < n
  {
    if l != [] { MaxBelow(l[1..], ms, n); }
  }

  lemma SmallerSet<T>(a: set<T>, b: set<T>, x: T)
    requires a <= b && x in b && x !in a
    ensures |a| < |b|
  {
    assert b == (b - a) + a;
    assert x in b - a;
  }

  lemma BodyRank(t: Tok, ms: Macros)
    requires Expandable(t, ms)
    ensures MaxRank(Body(t, ms), ms) < Rank(t, ms)
  {
    var b := Body(t, ms);
    SmallerSet({}, ms.Keys - t.hide, t.text);
    forall i | 0 <= i < |b| ensures Rank(b[i], ms) < Rank(t, ms) {
      SmallerSet(ms.Keys - b[i].hide, ms.Keys - t.hide, t.text);
    }
    MaxBelow(b, ms, Rank(t, ms));
  }

  // ---------- expansion ----------

  /** The tokens that result, and the mark that the next token will be given. */
  datatype Expansion = Expansion(out: seq<Tok>, mark: Option<Mark>)

  function ExpandTok(t: Tok, ms: Macros): Expansion
    decreases Rank(t, ms), 0, 0
  {
    if !Expandable(t, ms) then Expansion([t], None)
    else
      BodyRank(t, ms);
      ExpandFrom(Body(t, ms), ms, Some(MarkOf(t)))
  }

  /** Expansion of a list whose first token is given the mark c. */
  function ExpandFrom(l: seq<Tok>, ms: Macros, c: Option<Mark>): Expansion
    decreases MaxRank(l, ms), |l|, 1
  {
    if l == [] then Expansion([], c)
    else
      var a := ExpandTok(Marked(l, c)[0], ms);
      var r := ExpandFrom(l[1..], ms, a.mark);
      Expansion(a.out + r.out, r.mark)
  }

  lemma MarkedHead(a: seq<Tok>, b: seq<Tok>, c: Option<Mark>)
    requires a != []
    ensures |Marked(a, c)| == |a| && Marked(a + b, c)[0] == Marked(a, c)[0] && Marked(a + b, c) == Marked(a, c) + b
  {
    assert (a + b)[1..] == a[1..] + b;
    if c.Some? {
      var h := [a[0].(bol := c.value.bol, space := c.value.space)];
      assert h + (a[1..] + b) == (h + a[1..]) + b;
    }
  }

  lemma {:induction false} ExpandCat(a: seq<Tok>, b: seq<Tok>, ms: Macros, c: Option<Mark>)
    ensures var e := ExpandFrom(a, ms, c); var f := ExpandFrom(b, ms, e.mark);
      ExpandFrom(a + b, ms, c) == Expansion(e.out + f.out, f.mark)
    decreases |a|
  {
    hide ExpandTok, Marked;
    if a == [] {
      assert a + b == b;
    } else {
      assert (a + b)[1..] == a[1..] + b;
      assert Marked(a + b, c)[0] == Marked(a, c)[0] by { MarkedHead(a, b, c); }
      ExpandCat(a[1..], b, ms, ExpandTok(Marked(a, c)[0], ms).mark);
    }
  }

  /** A result contains nothing that could be expanded any further. */
  ghost predicate Spent(l: seq<Tok>, ms: Macros) { forall t :: t in l ==> !Expandable(t, ms) }

  lemma {:induction false} TokSpent(t: Tok, ms: Macros)
    ensures Spent(ExpandTok(t, ms).out, ms)
    decreases Rank(t, ms), 0, 0
  {
    if Expandable(t, ms) {
      BodyRank(t, ms);
      FromSpent(Body(t, ms), ms, Some(MarkOf(t)));
    }
  }

  lemma {:induction false} FromSpent(l: seq<Tok>, ms: Macros, c: Option<Mark>)
    ensures Spent(ExpandFrom(l, ms, c).out, ms)
    decreases MaxRank(l, ms), |l|, 1
  {
    if l != [] {
      var t := Marked(l, c)[0];
      TokSpent(t, ms);
      FromSpent(l[1..], ms, ExpandTok(t, ms).mark);
    }
  }

  lemma {:induction false} SpentStays(l: seq<Tok>, ms: Macros)
    requires Spent(l, ms)
    ensures ExpandFrom(l, ms, None) == Expansion(l, None)
    decreases |l|
  {
    if l != [] {
      assert l[0] in l;
      SpentStays(l[1..], ms);
      assert [l[0]] + l[1..] == l;
    }
  }

  /** Expanding a result again changes nothing. */
  lemma Idempotent(l: seq<Tok>, ms: Macros, c: Option<Mark>)
    ensures ExpandFrom(ExpandFrom(l, ms, c).out, ms, None) == Expansion(ExpandFrom(l, ms, c).out, None)
  {
    FromSpent(l, ms, c);
    SpentStays(ExpandFrom(l, ms, c).out, ms);
  }

  // ---------- an independent reading: replacement of words ----------

  datatype Word = Word(text: string, kind: Kind)

  function WordOf(t: Tok): Word { Word(t.text, t.kind) }

  function Words(l: seq<Tok>): (r: seq<Word>)
    ensures |r| == |l| && forall i :: 0 <= i < |l| ==> r[i] == WordOf(l[i])
  {
    seq(|l|, i requires 0 <= i < |l| => WordOf(l[i]))
  }

  /** A macro name is replaced by its body, in which it is itself not replaced again; section 6.10.3.4 of ISO/IEC 9899:2011. */
  function Replaced(w: Word, ms: Macros, active: set<string>): seq<Word>
    decreases |ms.Keys - active|, 0, 0
  {
    if w.kind.Ident? && w.text in ms && w.text !in active then
      SmallerSet(ms.Keys - (active + {w.text}), ms.Keys - active, w.text);
      ReplacedAll(Words(ms[w.text]), ms, active + {w.text})
    else [w]
  }

  function ReplacedAll(ws: seq<Word>, ms: Macros, active: set<string>): seq<Word>
    decreases |ms.Keys - active|, |ws|, 1
  {
    if ws == [] then [] else Replaced(ws[0], ms, active) + ReplacedAll(ws[1..], ms, active)
  }

  /** Bodies come straight from source text. */
  ghost predicate Plain(l: seq<Tok>) { forall t :: t in l ==> t.hide == {} }

  ghost predicate PlainMacros(ms: Macros) { forall x :: x in ms ==> Plain(ms[x]) }

  lemma WordsCat(a: seq<Tok>, b: seq<Tok>)
    ensures Words(a + b) == Words(a) + Words(b)
  {}

  lemma {:induction false} TokReplaced(t: Tok, ms: Macros)
    requires PlainMacros(ms)
    ensures Words(ExpandTok(t, ms).out) == Replaced(WordOf(t), ms, t.hide)
    decreases Rank(t, ms), 0, 0
  {
    hide ExpandFrom, ReplacedAll, Marked;
    if Expandable(t, ms) {
      BodyRank(t, ms);
      BodyWords(t, ms);
      FromReplaced(Body(t, ms), ms, Some(MarkOf(t)), t.hide + {t.text});
    }
  }

  lemma BodyWords(t: Tok, ms: Macros)
    requires PlainMacros(ms) && Expandable(t, ms)
    ensures forall i :: 0 <= i < |Body(t, ms)| ==> Body(t, ms)[i].hide == t.hide + {t.text}
    ensures Words(Body(t, ms)) == Words(ms[t.text])
  {
    forall i | 0 <= i < |Body(t, ms)| ensures Body(t, ms)[i].hide == t.hide + {t.text} { assert ms[t.text][i] in ms[t.text]; }
  }

  /** Hidesets realise the rule: the words of the expansion are those of the replacement. */
  lemma {:induction false} FromReplaced(l: seq<Tok>, ms: Macros, c: Option<Mark>, active: set<string>)
    requires PlainMacros(ms) && forall i :: 0 <= i < |l| ==> l[i].hide == active
    ensures Words(ExpandFrom(l, ms, c).out) == ReplacedAll(Words(l), ms, active)
    decreases MaxRank(l, ms), |l|, 1
  {
    if l != [] {
      var t := Marked(l, c)[0];
      var a := ExpandTok(t, ms);
      TokReplaced(t, ms);
      FromReplaced(l[1..], ms, a.mark, active);
      WordsCat(a.out, ExpandFrom(l[1..], ms, a.mark).out);
      assert Words(l)[1..] == Words(l[1..]);
    }
  }

  // ---------- the mark that is left over ----------

  /** t expands to nothing. */
  predicate Vanishes(t: Tok, ms: Macros) { ExpandTok(t, ms).out == [] }

  ghost predicate Inline(l: seq<Tok>) { forall t :: t in l ==> !t.bol }

  ghost predicate InlineMacros(ms: Macros) { forall x :: x in ms ==> Inline(ms[x]) }

  /** A token that vanishes passes on its mark; any other leaves none, or one that is not at the start of a line. */
  lemma {:induction false} TokMark(t: Tok, ms: Macros)
    requires InlineMacros(ms)
    ensures var e := ExpandTok(t, ms);
      if Vanishes(t, ms) then e.mark == Some(MarkOf(t)) else e.mark == None || !e.mark.value.bol
    decreases Rank(t, ms), 0, 0
  {
    hide ExpandFrom, Marked;
    if Expandable(t, ms) {
      BodyRank(t, ms);
      var b := Body(t, ms);
      forall i | 0 <= i < |b| ensures !b[i].bol { assert ms[t.text][i] in ms[t.text]; }
      FromMark(b, ms, Some(MarkOf(t)));
      if b != [] { MarkedMark(b, Some(MarkOf(t))); }
    }
  }

  lemma MarkedMark(l: seq<Tok>, c: Option<Mark>)
    requires l != []
    ensures |Marked(l, c)| == |l| && Marked(l, c)[0].hide == l[0].hide
    ensures MarkOf(Marked(l, c)[0]) == if c.Some? then c.value else MarkOf(l[0])
  {}

  lemma {:induction false} FromMark(l: seq<Tok>, ms: Macros, c: Option<Mark>)
    requires InlineMacros(ms) && Inline(l)
    ensures var e := ExpandFrom(l, ms, c);
      if e.out == [] then e.mark == if l == [] then c else Some(if c.Some? then c.value else MarkOf(l[0]))
      else e.mark == None || !e.mark.value.bol
    decreases MaxRank(l, ms), |l|, 1
  {
    hide ExpandTok, Marked, InlineMacros;
    if l != [] {
      MarkedMark(l, c);
      var t := Marked(l, c)[0];
      var a := ExpandTok(t, ms);
      TokMark(t, ms);
      FromMark(l[1..], ms, a.mark);
      assert l[1..] != [] ==> l[1..][0] == l[1] && l[1] in l;
    }
  }

  /** What is output first stands where the text began: it takes over the line start and white space of the first token. */
  lemma {:induction false} FirstPosition(l: seq<Tok>, ms: Macros, c: Option<Mark>)
    requires l != [] && ExpandFrom(l, ms, c).out != []
    ensures MarkOf(ExpandFrom(l, ms, c).out[0]) == if c.Some? then c.value else MarkOf(l[0])
    decreases MaxRank(l, ms), |l|, 1
  {
    hide ExpandTok, Marked;
    MarkedMark(l, c);
    var t := Marked(l, c)[0];
    TokPosition(t, ms);
    if ExpandTok(t, ms).out == [] {
      VanishedMark(t, ms);
      if l[1..] != [] { FirstPosition(l[1..], ms, ExpandTok(t, ms).mark); }
    }
  }

  lemma {:induction false} TokPosition(t: Tok, ms: Macros)
    ensures ExpandTok(t, ms).out != [] ==> MarkOf(ExpandTok(t, ms).out[0]) == MarkOf(t)
    decreases Rank(t, ms), 0, 0
  {
    hide ExpandFrom;
    if Expandable(t, ms) {
      BodyRank(t, ms);
      if Body(t, ms) == [] { FromNothing(ms, Some(MarkOf(t))); }
      else if ExpandTok(t, ms).out != [] { FirstPosition(Body(t, ms), ms, Some(MarkOf(t))); }
    }
  }

  lemma FromNothing(ms: Macros, c: Option<Mark>)
    ensures ExpandFrom([], ms, c) == Expansion([], c)
  {}

  /** A token that vanishes passes its position on. */
  lemma {:induction false} VanishedMark(t: Tok, ms: Macros)
    requires Vanishes(t, ms)
    ensures ExpandTok(t, ms).mark == Some(MarkOf(t))
    decreases Rank(t, ms), 0, 0
  {
    hide ExpandFrom;
    if Expandable(t, ms) {
      BodyRank(t, ms);
      AllVanish(Body(t, ms), ms, Some(MarkOf(t)));
    }
  }

  lemma {:induction false} AllVanish(l: seq<Tok>, ms: Macros, c: Option<Mark>)
    requires ExpandFrom(l, ms, c).out == []
    ensures ExpandFrom(l, ms, c).mark == if l == [] then c else Some(if c.Some? then c.value else MarkOf(l[0]))
    decreases MaxRank(l, ms), |l|, 1
  {
    hide ExpandTok, Marked;
    if l != [] {
      MarkedMark(l, c);
      var t := Marked(l, c)[0];
      VanishedMark(t, ms);
      AllVanish(l[1..], ms, ExpandTok(t, ms).mark);
    }
  }
}
