/** Nested conditional groups, macro definitions and text: what a translation unit means, and when the loop computes it. */
module CppTree {
  import opened CppExpand
  import opened CppStep
  import opened Wrappers

  datatype Test = If(expr: seq<Tok>) | Ifdef(name: string) | Ifndef(name: string)

  datatype Item =
    | Text(toks: seq<Tok>)
    | Define(name: string, body: seq<Tok>)
    | Undef(name: string)
    | Conditional(test: Test, group: seq<Item>, rest: Rest)

  datatype Rest = End | Else(group: seq<Item>) | Elif(expr: seq<Tok>, group: seq<Item>, more: Rest)

  // ---------- concrete syntax ----------

  function Hash(): Tok { Tok("#", Other, true, false, {}) }

  function Id(text: string): Tok { Tok(text, Ident, false, true, {}) }

  function FlatTest(t: Test): seq<Tok> {
    match t
    case If(e) => [Hash(), Id("if")] + e
    case Ifdef(x) => [Hash(), Id("ifdef"), Id(x)]
    case Ifndef(x) => [Hash(), Id("ifndef"), Id(x)]
  }

  function FlatItem(it: Item): seq<Tok>
    decreases it, 0
  {
    match it
    case Text(l) => l
    case Define(x, b) => [Hash(), Id("define"), Id(x)] + b
    case Undef(x) => [Hash(), Id("undef"), Id(x)]
    case Conditional(t, g, r) => FlatTest(t) + (Flat(g) + FlatRest(r))
  }

  function Flat(items: seq<Item>): seq<Tok>
    decreases items, 0
  {
    if items == [] then [] else FlatItem(items[0]) + Flat(items[1..])
  }

  function FlatRest(r: Rest): seq<Tok>
    decreases r, 0
  {
    match r
    case End => [Hash(), Id("endif")]
    case Else(g) => [Hash(), Id("else")] + (Flat(g) + [Hash(), Id("endif")])
    case Elif(e, g, more) => [Hash(), Id("elif")] + (e + (Flat(g) + FlatRest(more)))
  }

  /** Text starts a line, and is followed by a line start; expressions and bodies stay on their line. */
  ghost predicate WfItem(it: Item)
    decreases it, 0
  {
    match it
    case Text(l) => l != [] && l[0].bol && NoHash(l) && Plain(l)
    case Define(_, b) => Inline(b) && NoHash(b) && Plain(b) && (b != [] ==> b[0].space || b[0].text != "(")
    case Undef(_) => true
    case Conditional(t, g, r) => (t.If? ==> Inline(t.expr)) && Wf(g) && WfRest(r)
  }

  ghost predicate Wf(items: seq<Item>)
    decreases items, 0
  {
    items == [] || (WfItem(items[0]) && Wf(items[1..]))
  }

  ghost predicate WfRest(r: Rest)
    decreases r, 0
  {
    match r
    case End => true
    case Else(g) => Wf(g)
    case Elif(e, g, more) => Inline(e) && Wf(g) && WfRest(more)
  }

  ghost predicate WfMacros(ms: Macros) { NoHashMacros(ms) && PlainMacros(ms) }

  // ---------- meaning: recursive selection of the first true group ----------

  datatype Outcome = Ok(words: seq<Word>, macros: Macros) | Failed

  function Holds(t: Test, ev: Evaluator, ms: Macros): Option<bool> {
    match t
    case If(e) => ev(e, ms)
    case Ifdef(x) => Some(x in ms)
    case Ifndef(x) => Some(x !in ms)
  }

  function MeaningItem(it: Item, ev: Evaluator, ms: Macros): Outcome
    decreases it, 0
  {
    match it
    case Text(l) => Ok(ReplacedAll(Words(l), ms, {}), ms)
    case Define(x, b) => Ok([], ms[x := b])
    case Undef(x) => Ok([], ms - {x})
    case Conditional(t, g, r) =>
      var v := Holds(t, ev, ms);
      if v.None? then Failed else if v.value then Meaning(g, ev, ms) else MeaningRest(r, ev, ms)
  }

  function Meaning(items: seq<Item>, ev: Evaluator, ms: Macros): Outcome
    decreases items, 0
  {
    if items == [] then Ok([], ms)
    else
      var a := MeaningItem(items[0], ev, ms);
      if a.Failed? then Failed
      else
        var b := Meaning(items[1..], ev, a.macros);
        if b.Failed? then Failed else Ok(a.words + b.words, b.macros)
  }

  /** What follows a group that was not included. */
  function MeaningRest(r: Rest, ev: Evaluator, ms: Macros): Outcome
    decreases r, 0
  {
    match r
    case End => Ok([], ms)
    case Else(g) => Meaning(g, ev, ms)
    case Elif(e, g, more) =>
      var v := ev(e, ms);
      if v.None? then Failed else if v.value then Meaning(g, ev, ms) else MeaningRest(more, ev, ms)
  }

  // ---------- when the loop keeps every directive ----------

  /** The next token is still where it was: no mark is pending, or one that keeps it at the start of its line. */
  predicate KeepsLine(c: Option<Mark>) { c.Some? ==> c.value.bol }

  /** The mark pending after an item. */
  function MarkAfterItem(it: Item, ms: Macros, c: Option<Mark>): Option<Mark> {
    if it.Text? then ExpandFrom(it.toks, ms, c).mark else None
  }

  function MarkAfter(items: seq<Item>, ev: Evaluator, ms: Macros, c: Option<Mark>): Option<Mark>
    decreases items, 0
  {
    if items == [] then c
    else
      var a := MeaningItem(items[0], ev, ms);
      if a.Failed? then None else MarkAfter(items[1..], ev, a.macros, MarkAfterItem(items[0], ms, c))
  }

  /** Would make an empty definition on the line before function-like. */
  predicate LooksLikeParams(follow: seq<Tok>) { follow != [] && !follow[0].space && follow[0].text == "(" }

  /** Every directive that is reached is recognised, and every object-like definition is taken as one: included text before
      a directive does not end, within a line, in a macro that expands to nothing, and an empty definition is not followed by
      a line that starts with an unspaced parenthesis. c is the mark pending before, follow the input after. */
  predicate KeptItem(it: Item, ev: Evaluator, ms: Macros, c: Option<Mark>, follow: seq<Tok>)
    decreases it, 0
  {
    match it
    case Text(_) => true
    case Define(_, b) => KeepsLine(c) && (b == [] ==> !LooksLikeParams(follow))
    case Undef(_) => KeepsLine(c)
    case Conditional(t, g, r) =>
      KeepsLine(c) &&
      var v := Holds(t, ev, ms);
      v.None? || (if v.value then KeptGroup(g, ev, ms, FlatRest(r) + follow) else KeptRest(r, ev, ms, follow))
  }

  /** A group is followed by a directive. */
  predicate KeptGroup(g: seq<Item>, ev: Evaluator, ms: Macros, follow: seq<Tok>)
    decreases g, 1
  {
    Kept(g, ev, ms, None, follow) && (Meaning(g, ev, ms).Ok? ==> KeepsLine(MarkAfter(g, ev, ms, None)))
  }

  predicate Kept(items: seq<Item>, ev: Evaluator, ms: Macros, c: Option<Mark>, follow: seq<Tok>)
    decreases items, 0
  {
    items == [] ||
    (KeptItem(items[0], ev, ms, c, Flat(items[1..]) + follow) &&
     var a := MeaningItem(items[0], ev, ms);
     a.Ok? ==> Kept(items[1..], ev, a.macros, MarkAfterItem(items[0], ms, c), follow))
  }

  predicate KeptRest(r: Rest, ev: Evaluator, ms: Macros, follow: seq<Tok>)
    decreases r, 0
  {
    match r
    case End => true
    case Else(g) => KeptGroup(g, ev, ms, FlatRest(End) + follow)
    case Elif(e, g, more) =>
      var v := ev(e, ms);
      v.None? || (if v.value then KeptGroup(g, ev, ms, FlatRest(more) + follow) else KeptRest(more, ev, ms, follow))
  }

  // ---------- skipping ----------

  /** Tokens that neither open nor continue a conditional are passed over one by one. */
  lemma {:induction false} SkipPlain(l: seq<Tok>, x: seq<Tok>)
    requires forall t :: t in l ==> !IsHash(t)
    ensures SkipCond(l + x) == SkipCond(x) && SkipNested(l + x) == SkipNested(x)
    decreases |l|
  {
    if l == [] {
      assert l + x == x;
    } else {
      assert l[0] in l && (l + x)[1..] == l[1..] + x;
      SkipPlain(l[1..], x);
    }
  }

  /** A `#` before any other word is passed over too. */
  lemma SkipDirective(word: string, x: seq<Tok>)
    requires !Opens(word) && !Continues(word)
    ensures SkipCond([Hash(), Id(word)] + x) == SkipCond(x) && SkipNested([Hash(), Id(word)] + x) == SkipNested(x)
  {
    var l := [Hash(), Id(word)] + x;
    assert l[1..] == [Id(word)] + x && l[1].text == word;
    SkipPlain([Id(word)], x);
  }

  lemma SkipOpening(word: string, x: seq<Tok>)
    requires Opens(word)
    ensures SkipCond([Hash(), Id(word)] + x) == SkipCond(SkipNested(x)) && SkipNested([Hash(), Id(word)] + x) == SkipNested(SkipNested(x))
  {
    var l := [Hash(), Id(word)] + x;
    assert l[2..] == x && l[1].text == word;
  }

  /** A skipped nested conditional opens with its test and is otherwise plain. */
  lemma SkipTest(t: Test, x: seq<Tok>)
    requires t.If? ==> Inline(t.expr)
    ensures SkipCond(FlatTest(t) + x) == SkipCond(SkipNested(x)) && SkipNested(FlatTest(t) + x) == SkipNested(SkipNested(x))
  {
    var word := if t.If? then "if" else if t.Ifdef? then "ifdef" else "ifndef";
    var l := if t.If? then t.expr else [Id(t.name)];
    assert FlatTest(t) + x == [Hash(), Id(word)] + (l + x);
    SkipOpening(word, l + x);
    SkipPlain(l, x);
  }

  lemma {:induction false} SkipItem(it: Item, x: seq<Tok>)
    requires WfItem(it)
    ensures SkipCond(FlatItem(it) + x) == SkipCond(x) && SkipNested(FlatItem(it) + x) == SkipNested(x)
    decreases it, 0
  {
    hide SkipCond, SkipNested, FlatTest;
    match it
    case Text(l) => SkipPlain(l, x);
    case Define(name, b) =>
      assert FlatItem(it) + x == [Hash(), Id("define")] + (([Id(name)] + b) + x);
      SkipDirective("define", ([Id(name)] + b) + x);
      SkipPlain([Id(name)] + b, x);
    case Undef(name) =>
      assert FlatItem(it) + x == [Hash(), Id("undef")] + ([Id(name)] + x);
      SkipDirective("undef", [Id(name)] + x);
      SkipPlain([Id(name)], x);
    case Conditional(t, g, r) =>
      assert FlatItem(it) + x == FlatTest(t) + (Flat(g) + (FlatRest(r) + x));
      SkipTest(t, Flat(g) + (FlatRest(r) + x));
      SkipFlat(g, FlatRest(r) + x);
      SkipRest(r, x);
  }

  /** Whole groups are passed over. */
  lemma {:induction false} SkipFlat(items: seq<Item>, x: seq<Tok>)
    requires Wf(items)
    ensures SkipCond(Flat(items) + x) == SkipCond(x) && SkipNested(Flat(items) + x) == SkipNested(x)
    decreases items, 1
  {
    hide SkipCond, SkipNested, FlatItem;
    if items == [] {
      assert Flat(items) + x == x;
    } else {
      assert Flat(items) + x == FlatItem(items[0]) + (Flat(items[1..]) + x);
      SkipItem(items[0], Flat(items[1..]) + x);
      SkipFlat(items[1..], x);
    }
  }

  /** Skipping stops at the continuation of its own level, and a nested conditional is skipped to its end. */
  lemma {:induction false} SkipRest(r: Rest, x: seq<Tok>)
    requires WfRest(r)
    ensures SkipCond(FlatRest(r) + x) == FlatRest(r) + x && SkipNested(FlatRest(r) + x) == x
    decreases r, 1
  {
    hide Flat;
    match r
    case End => SkipEnd(x);
    case Else(g) =>
      var y := Flat(g) + ([Hash(), Id("endif")] + x);
      assert FlatRest(r) + x == [Hash(), Id("else")] + y;
      SkipWord("else", y);
      SkipFlat(g, [Hash(), Id("endif")] + x);
      SkipEnd(x);
    case Elif(e, g, more) =>
      var y := e + (Flat(g) + (FlatRest(more) + x));
      assert FlatRest(r) + x == [Hash(), Id("elif")] + y;
      SkipWord("elif", y);
      SkipPlain(e, Flat(g) + (FlatRest(more) + x));
      SkipFlat(g, FlatRest(more) + x);
      SkipRest(more, x);
  }

  lemma SkipEnd(x: seq<Tok>)
    ensures var l := [Hash(), Id("endif")] + x; SkipCond(l) == l && SkipNested(l) == x
  {
    var l := [Hash(), Id("endif")] + x;
    assert l[2..] == x && l[1].text == "endif";
  }

  lemma SkipWord(word: string, x: seq<Tok>)
    requires word == "else" || word == "elif"
    ensures SkipCond([Hash(), Id(word)] + x) == [Hash(), Id(word)] + x && SkipNested([Hash(), Id(word)] + x) == SkipNested(x)
  {
    var l := [Hash(), Id(word)] + x;
    assert l[1].text == word && l[1..] == [Id(word)] + x;
    SkipPlain([Id(word)], x);
  }
}
