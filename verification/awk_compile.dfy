/** The compiler's main loop, and what the finished code looks like to the machine. */
module AwkCompile {
  import opened AwkSyntax
  import opened AwkValues
  import opened AwkCode
  import opened AwkStmtText
  import opened AwkCompiler
  import opened AwkStatements
  import opened AwkSemantics
  import opened AwkVm
  import opened AwkEffects
  import opened AwkLayout
  import opened AwkProgram
  import opened Wrappers

  predicate PlacedItems(items: seq<Item>) { Distinct(items) && forall it :: it in items ==> PlacedItem(it) }

  /** The finished program: every function and BEGIN rule is in place, the rules are chained, and the last one quits. */
  ghost predicate Complete(m: Machine, items: seq<Item>, lk: Link, firstBegin: int) {
    var bs, fs := BeginsOf(items), FuncsOf(items);
    && (forall fn | fn in fs :: fn in lk.fk && FuncAt(m, fn, fs[fn], lk.fk[fn]))
    && |lk.starts| == |bs| && |lk.ks| == |bs|
    && (forall i | 0 <= i < |bs| :: BeginAt(m, bs[i], lk.starts[i], lk.ks[i]))
    && (forall i | 0 <= i < |bs| - 1 :: LinkedTo(m, bs[i], lk.starts[i], lk.ks[i], lk.starts[i + 1]))
    && (if bs == [] then firstBegin == 0
        else firstBegin == lk.starts[0] > 0 && m.code[BeginEnd(bs[|bs| - 1], lk.starts[|bs| - 1], lk.ks[|bs| - 1])] == OP_QUIT)
  }

  lemma {:induction false} PrefixDistinct(items: seq<Item>, i: nat)
    requires Distinct(items) && i < |items|
    ensures items[i].Function? ==> items[i].fn !in FuncsOf(items[..i])
    decreases |items|
  {
    var n := |items| - 1;
    if i < n {
      PrefixDistinct(items[..n], i);
      assert items[..n][..i] == items[..i];
    }
  }

  /** After the last item: the open jump becomes a quit, and an exit sequence is appended. */
  lemma Finish(m: Machine, m': Machine, items: seq<Item>, lk: Link, firstBegin: int, lastBegin: int, c: seq<int>)
    requires LaidOut(m, items, lk, firstBegin, lastBegin)
    requires m'.code == (if lastBegin != 0 then m.code[lastBegin - 1 := OP_QUIT] else m.code) + c
    requires m'.funcs == m.funcs && m.lits <= m'.lits
    ensures Complete(m', items, lk, firstBegin)
  {
    hide CodeB, LitsB, FuncCode, FuncLits, CodeAt, LitsAt, FuncsOf, BeginsOf, BeginAt, LinkedTo, FuncAt;
    FuncsKept(m, m', FuncsOf(items), lk.fk, lastBegin);
    BeginsKept(m, m', BeginsOf(items), lk, firstBegin, lastBegin);
    FirstOrLater(m, BeginsOf(items), lk, firstBegin, lastBegin);
  }

  lemma NoItems()
    ensures ScalarsOf([]) == {}
  {}

  lemma EmptyProgram(m: Machine)
    requires m.code == [TK_EOF]
    ensures LaidOut(m, [], Link([], [], map[]), 0, 0)
  {}

  /** The text from item i on, without the gap before it. */
  ghost function TextFrom(items: seq<Item>, gaps: seq<seq<Token>>, i: nat): seq<Token>
    requires |gaps| == |items| + 1 && i <= |items|
  {
    if i == |items| then [] else PrintItem(items[i]) + PrintItems(items[i + 1..], gaps[i + 1..])
  }

  /** The parser is at the start of item i, or at the end of the program. */
  ghost predicate AtItem(tt: Compiler, items: seq<Item>, gaps: seq<seq<Token>>, i: nat)
    requires |gaps| == |items| + 1 && i <= |items|
    reads tt
  {
    tt.At(tt.cur, TextFrom(items, gaps, i)) && tt.cur + |TextFrom(items, gaps, i)| == |tt.toks| - 1
  }

  /** The parser is at the gap before item i. */
  ghost predicate AtGap(tt: Compiler, items: seq<Item>, gaps: seq<seq<Token>>, i: nat)
    requires |gaps| == |items| + 1 && i <= |items|
    reads tt
  {
    var text := PrintItems(items[i..], gaps[i..]);
    tt.At(tt.cur, text) && tt.cur + |text| == |tt.toks| - 1 && Blank(gaps[i])
  }

  /** What follows a gap is neither a newline nor a semicolon. */
  lemma GapThenText(tt: Compiler, items: seq<Item>, gaps: seq<seq<Token>>, i: nat)
    requires tt.Loose() && |gaps| == |items| + 1 && i <= |items| && AtGap(tt, items, gaps, i)
    ensures var q := tt.cur + |gaps[i]|;
      && tt.At(q, TextFrom(items, gaps, i)) && q + |TextFrom(items, gaps, i)| == |tt.toks| - 1
      && (forall j :: tt.cur <= j < q ==> Separated(tt, j))
      && tt.Kind(q) == if i == |items| then TK_EOF else if items[i].Begin? then TK_BEGIN else TK_FUNCTION
  {
    hide Compiler.Layout, Compiler.Ignored, Compiler.At, PrintItem, PrintItems, TextFrom, AtGap;
    var g, text := gaps[i], TextFrom(items, gaps, i);
    GapSplit(items, gaps, i);
    assert tt.At(tt.cur, g + text) && Blank(g) && tt.cur + |g + text| == |tt.toks| - 1 by { AtGapUnfold(tt, items, gaps, i); }
    tt.AtCat(tt.cur, g, text);
    AtItems(tt, tt.cur, g);
    if i < |items| { TextHead(items, gaps, i); } else { tt.LastIs(); }
    forall j | tt.cur <= j < tt.cur + |g| ensures Separated(tt, j) {
      assert tt.toks[tt.cur + (j - tt.cur)] == g[j - tt.cur] && g[j - tt.cur] in g;
    }
  }

  lemma AtGapUnfold(tt: Compiler, items: seq<Item>, gaps: seq<seq<Token>>, i: nat)
    requires |gaps| == |items| + 1 && i <= |items| && AtGap(tt, items, gaps, i)
    ensures var text := PrintItems(items[i..], gaps[i..]);
      tt.At(tt.cur, text) && tt.cur + |text| == |tt.toks| - 1 && Blank(gaps[i])
  {
    hide PrintItems, Compiler.At;
  }

  lemma GapSplit(items: seq<Item>, gaps: seq<seq<Token>>, i: nat)
    requires |gaps| == |items| + 1 && i <= |items|
    ensures PrintItems(items[i..], gaps[i..]) == gaps[i] + TextFrom(items, gaps, i)
    ensures i == |items| ==> TextFrom(items, gaps, i) == []
  {
    hide PrintItem;
    if i < |items| { assert items[i..][1..] == items[i + 1..] && gaps[i..][1..] == gaps[i + 1..]; }
  }

  lemma TextHead(items: seq<Item>, gaps: seq<seq<Token>>, i: nat)
    requires |gaps| == |items| + 1 && i < |items|
    ensures var text := TextFrom(items, gaps, i); |text| > 0 && text[0].gap == Tight && text[0].kind == if items[i].Begin? then TK_BEGIN else TK_FUNCTION
  {
    hide PrintItem, PrintItems;
    ItemFirst(items[i]);
  }

  method SkipGap(tt: Compiler, ghost items: seq<Item>, ghost gaps: seq<seq<Token>>, ghost i: nat)
    requires tt.Loose() && |gaps| == |items| + 1 && i <= |items| && AtGap(tt, items, gaps, i)
    modifies tt`pos, tt`cur, tt`prevtok
    ensures tt.cur >= old(tt.cur) && tt.Moves(tt.cur - old(tt.cur)) && AtItem(tt, items, gaps, i)
    ensures tt.Curtok() == TK_EOF <==> i == |items|
  {
    hide Compiler.Layout, Compiler.Ignored, Compiler.At, PrintItem, PrintItems, TextFrom, AtGap, Blank;
    GapThenText(tt, items, gaps, i);
    assert !Separated(tt, tt.cur + |gaps[i]|);
    OptionalNlOrSemi(tt);
    assert !Separated(tt, tt.cur);
  }

  /** Compiles a whole program, however it is laid out. */
  method Compile(raw: seq<Lexeme>, ghost items: seq<Item>, ghost gaps: seq<seq<Token>>, ghost starts: seq<nat>, ghost fp: Fpu)
    returns (tt: Compiler, ghost lk: Link)
    requires |gaps| == |items| + 1 && (forall g :: g in gaps ==> Blank(g))
    requires Spaced(raw, PrintItems(items, gaps) + [Op(TK_EOF)], starts) && PlacedItems(items)
    ensures fresh(tt) && Complete(Output(tt, fp), items, lk, tt.firstBegin) && tt.scalars == ScalarsOf(items)
  {
    hide LaidOut, ScalarsOf, Compiler.At, PlacedItem, FuncsOf, BeginsOf, PrintItem, PrintItems, Complete, Distinct, Blank, AtItem;
    ghost var toks := PrintItems(items, gaps) + [Op(TK_EOF)];
    tt := new Compiler(raw, toks, starts);
    lk := Link([], [], map[]);
    EmptyProgram(Output(tt, fp));
    NoItems();
    ghost var i := 0;
    Whole(tt, items, gaps);
    SkipGap(tt, items, gaps, 0);
    while tt.Curtok() != TK_EOF
      invariant tt.Valid() && 0 <= i <= |items| && Between(tt, fp, items[..i], lk) && tt.toks == toks && fresh(tt)
      invariant AtItem(tt, items, gaps, i) && (tt.Curtok() == TK_EOF <==> i == |items|)
      decreases |items| - i
    {
      lk := OneItem(tt, items, gaps, i, fp, lk);
      i := i + 1;
      SkipGap(tt, items, gaps, i);
    }
    assert items[..i] == items;
    Ending(tt, items, fp, lk);
  }

  /** The end of the program: the open jump becomes a quit, and an exit sequence follows. */
  method Ending(tt: Compiler, ghost items: seq<Item>, ghost fp: Fpu, ghost lk: Link)
    requires Between(tt, fp, items, lk)
    modifies tt
    ensures tt.scalars == old(tt.scalars)
    ensures Complete(Output(tt, fp), items, lk, tt.firstBegin)
  {
    hide LaidOut, FuncsOf, BeginsOf, Complete;
    ghost var was := Output(tt, fp);
    LastBound(was, items, lk, tt.firstBegin, tt.lastBegin);
    if tt.lastBegin != 0 { tt.code := tt.code[tt.lastBegin - 1 := OP_QUIT]; }
    var slot := tt.MakeLiteral(NUMERIC_ZERO);
    tt.Gen2cd(TK_NUMBER, slot);
    tt.Gencd(TK_EXIT);
    tt.Gencd(OP_QUIT);
    tt.Gencd(OP_QUIT);
    Finish(was, Output(tt, fp), items, lk, tt.firstBegin, tt.lastBegin, [TK_NUMBER, slot, TK_EXIT, OP_QUIT, OP_QUIT]);
  }

  lemma Whole(tt: Compiler, items: seq<Item>, gaps: seq<seq<Token>>)
    requires |gaps| == |items| + 1 && Blank(gaps[0]) && tt.cur == 0 && tt.Layout()
    requires tt.toks == PrintItems(items, gaps) + [Op(TK_EOF)]
    ensures AtGap(tt, items, gaps, 0)
  {
    hide PrintItems;
    assert items[0..] == items && gaps[0..] == gaps;
  }

  method OneItem(tt: Compiler, ghost items: seq<Item>, ghost gaps: seq<seq<Token>>, ghost i: nat, ghost fp: Fpu, ghost lk: Link)
    returns (ghost lk': Link)
    requires |gaps| == |items| + 1 && i < |items| && Blank(gaps[i + 1]) && PlacedItems(items)
    requires tt.Valid() && Between(tt, fp, items[..i], lk) && AtItem(tt, items, gaps, i)
    modifies tt
    ensures Between(tt, fp, items[..i + 1], lk') && AtGap(tt, items, gaps, i + 1)
  {
    hide LaidOut, ScalarsOf, Compiler.At, PlacedItem, FuncsOf, BeginsOf, PrintItem, PrintItems, Distinct, Blank;
    tt.AtCat(tt.cur, PrintItem(items[i]), PrintItems(items[i + 1..], gaps[i + 1..]));
    PrefixDistinct(items, i);
    lk' := Rule(tt, items[i], fp, items[..i], lk);
    assert items[..i] + [items[i]] == items[..i + 1];
  }

  // ---------- layouts ----------

  /** The tokens themselves are a layout of their text. */
  lemma TokenByToken(toks: seq<Token>)
    requires |toks| > 0 && toks[|toks| - 1] == Op(TK_EOF)
    requires forall i :: 0 <= i < |toks| && toks[i].gap == Separator ==> toks[i] == SEPARATOR
    ensures Spaced(seq(|toks|, i requires 0 <= i < |toks| => Plain(toks[i])), toks, seq(|toks|, i => i))
  {
    var raw, starts := seq(|toks|, i requires 0 <= i < |toks| => Plain(toks[i])), seq(|toks|, (i: nat) => i as nat);
    forall i | 0 <= i < |toks| - 1 ensures Laid(raw, toks, starts, i) {
      assert raw[starts[i]..starts[i + 1]] == [Plain(toks[i])];
    }
  }

  /** A further newline may stand behind every token at which newlines are ignored, and behind every separator that is not left out. */
  lemma ExtraNewline(raw: seq<Lexeme>, toks: seq<Token>, starts: seq<nat>, i: nat, nl: Lexeme)
    requires Spaced(raw, toks, starts) && i + 1 < |toks| && toks[i].gap != Tight && starts[i] < starts[i + 1] < |raw| && nl.kind == TK_NL
    ensures Spaced(raw[..starts[i + 1]] + [nl] + raw[starts[i + 1]..], toks,
                   seq(|starts|, j requires 0 <= j < |starts| => if j <= i then starts[j] else starts[j] + 1))
  {
    var cut := starts[i + 1];
    var raw', starts' := raw[..cut] + [nl] + raw[cut..], seq(|starts|, j requires 0 <= j < |starts| => if j <= i then starts[j] else starts[j] + 1);
    assert Laid(raw, toks, starts, i);
    assert raw'[|raw'| - 1] == raw[|raw| - 1];
    forall j | 0 <= j < |toks| - 1 ensures Laid(raw', toks, starts', j) {
      assert Laid(raw, toks, starts, j);
      StartsUpTo(raw, toks, starts, j + 1, i + 1);
      StartsUpTo(raw, toks, starts, i + 1, j);
      var piece, piece' := raw[starts[j]..starts[j + 1]], raw'[starts'[j]..starts'[j + 1]];
      if j == i {
        assert piece' == piece + [nl] && piece'[1..] == piece[1..] + [nl];
      } else {
        assert piece' == piece;
      }
    }
  }

  /** Tokens behind which a newline never matters. */
  predicate Continues(kind: int) {
    kind == TK_COMMA || kind == TK_LBRACE || kind == TK_RBRACE || kind == TK_AND || kind == TK_OR || kind == TK_DO || kind == TK_ELSE
  }

  /** A newline may be put behind any of them, behind the parenthesis of an `if` or `while`, and behind a semicolon between statements. */
  lemma NewlineBehind(raw: seq<Lexeme>, toks: seq<Token>, starts: seq<nat>, i: nat, nl: Lexeme)
    requires Spaced(raw, toks, starts) && i + 1 < |toks| && starts[i] < starts[i + 1] < |raw| && nl.kind == TK_NL
    requires (Continues(toks[i].kind) && toks[i] == Op(toks[i].kind)) || AfterTest(toks, i) || toks[i] == SEPARATOR
    ensures Spaced(raw[..starts[i + 1]] + [nl] + raw[starts[i + 1]..], toks,
                   seq(|starts|, j requires 0 <= j < |starts| => if j <= i then starts[j] else starts[j] + 1))
  {
    hide Spaced, PrintStmt, Print;
    if AfterTest(toks, i) {
      var s, p: nat :| HeadAt(toks, s, p) && i == p + |Print(s.cond, 0)| + 2;
      TestThen(s);
      assert toks[i] == toks[p..p + |PrintStmt(s)|][i - p];
    }
    ExtraNewline(raw, toks, starts, i, nl);
  }

  /** The text of s is at p. */
  ghost predicate HeadAt(toks: seq<Token>, s: Stmt, p: nat) {
    (s.SIf? || s.SIfElse? || s.SWhile?) && p + |PrintStmt(s)| <= |toks| && toks[p..p + |PrintStmt(s)|] == PrintStmt(s)
  }

  /** Token i closes the condition of an `if` or `while` statement. */
  ghost predicate AfterTest(toks: seq<Token>, i: nat) { exists s, p: nat :: HeadAt(toks, s, p) && i == p + |Print(s.cond, 0)| + 2 }

  lemma TestThen(s: Stmt)
    requires s.SIf? || s.SIfElse? || s.SWhile?
    ensures var t, n := PrintStmt(s), |Print(s.cond, 0)|; |t| > n + 2 && t[n + 2] == Soft(TK_RPAREN)
  {
    hide Print, PrintSep;
    var c := Cond0(s.cond, Newlines);
    assert c[|c| - 1] == Soft(TK_RPAREN) && |c| == |Print(s.cond, 0)| + 2;
    assert PrintStmt(s)[1..][..|c|] == c;
  }

  lemma {:induction false} StartsUpTo(raw: seq<Lexeme>, toks: seq<Token>, starts: seq<nat>, i: nat, j: nat)
    requires Spaced(raw, toks, starts)
    ensures i <= j < |toks| ==> starts[i] <= starts[j] < |raw|
    decreases j
  {
    if j < |toks| - 1 { assert Laid(raw, toks, starts, j); }
    if i < j < |toks| {
      assert Laid(raw, toks, starts, j - 1);
      StartsUpTo(raw, toks, starts, i, j - 1);
    }
  }
}
