/** Statements: the jumps of conditionals and loops, emitted first and back-patched once their targets are known.
    tt is the compiler's global state. */
module AwkStatements {
  import opened AwkSyntax
  import opened AwkValues
  import opened AwkCode
  import opened AwkSpine
  import opened AwkStmtText
  import opened AwkCompiler
  import opened Wrappers

  // ---------- statements ----------

  /** What must follow the text of s when it ends just before position p. */
  ghost predicate Ends(tt: Compiler, s: Stmt, p: nat) {
    && p < |tt.toks|
    && (!Terminated(s) ==> p + 1 < |tt.toks| && tt.toks[p] == SEPARATOR && tt.Kind(p + 1) != TK_NL)
    && (Dangling(s) ==> var q := p + |Sep(s)|; q < |tt.toks| && tt.Kind(q) != TK_ELSE && tt.Kind(q) != TK_NL)
  }

  ghost predicate StmtReady(tt: Compiler, s: Stmt)
    reads tt
  {
    && tt.Valid() && tt.At(tt.cur, PrintStmt(s)) && Ends(tt, s, tt.cur + |PrintStmt(s)|)
    && (tt.breakDest != 0 <==> tt.continueDest != 0) && Placed(s, tt.breakDest != 0, tt.inFunctionBody)
  }

  /** A separator stands at p and has not been left out. */
  ghost predicate Separated(tt: Compiler, p: nat) { tt.Kind(p) == TK_NL || tt.Kind(p) == TK_SEMI }

  /** Whether s, whose text ends at p, takes its separator along: an open `if` does, looking for `else`, and a `do` loop takes newlines. */
  ghost predicate Takes(tt: Compiler, s: Stmt, p: nat) {
    !Terminated(s) && ((Dangling(s) && Separated(tt, p)) || (DoEdge(s) && tt.Kind(p) == TK_NL))
  }

  /** Tokens consumed for s, which starts at p. */
  ghost function Taken(tt: Compiler, s: Stmt, p: nat): nat {
    |PrintStmt(s)| + if Takes(tt, s, p + |PrintStmt(s)|) then 1 else 0
  }

  /** Statement s has been compiled. */
  twostate predicate Compiled(tt: Compiler, s: Stmt)
    reads tt
  {
    && tt.Leaves(Taken(tt, s, old(tt.cur)), CodeS(s, |old(tt.lits)|, old(Here(tt))), LitsS(s), UsesS(s))
    && (Takes(tt, s, old(tt.cur) + |PrintStmt(s)|) ==> tt.Valid())
  }

  /** Jump targets relative to the next cell to be emitted. */
  ghost function Here(tt: Compiler): Dest
    reads tt
  {
    Dest(tt.breakDest - |tt.code|, tt.continueDest - |tt.code|, tt.nparms)
  }

  function PrevWasTerminated(tt: Compiler): bool
    reads tt
  {
    StmtEnd(tt.prevtok)
  }

  function IsNlSemi(tt: Compiler): bool
    reads tt
    requires tt.pos < |tt.raw|
  {
    tt.Curtok() == TK_NL || tt.Curtok() == TK_SEMI
  }

  /** Newlines at p, if any, are a separator. */
  ghost predicate OnlySeparator(tt: Compiler, p: nat) {
    tt.Kind(p) == TK_NL ==> p < |tt.toks| && tt.toks[p].gap == Separator && tt.Kind(p + 1) != TK_NL
  }

  /** A right parenthesis, and all newlines behind it. */
  method Rparen(tt: Compiler)
    requires tt.Valid() && tt.Curtok() == TK_RPAREN && OnlySeparator(tt, tt.cur + 1)
    modifies tt`pos, tt`cur, tt`prevtok
    ensures tt.Moves(if tt.Kind(old(tt.cur) + 1) == TK_NL then 2 else 1)
  {
    tt.Expect(TK_RPAREN);
    tt.OptionalNl();
  }

  /** What may stand behind a simple statement. */
  predicate Closer(tok: int) { tok == TK_SEMI || tok == TK_NL || tok == TK_RBRACE || tok == TK_RPAREN }

  method SimpleStmt(tt: Compiler, ghost e: Expr)
    requires tt.Valid() && tt.At(tt.cur, Print(e, 0))
    requires Closer(tt.Kind(tt.cur + |Print(e, 0)|))
    modifies tt
    ensures tt.Emits(|Print(e, 0)|, CodeE(e, |old(tt.lits)|) + [OP_DROP], LitsE(e), UsesE(e))
  {
    hide Compiler.Layout, Compiler.Ignored, Compiler.At, Print, CodeE, LitsE, UsesE, ClosesIn, Getlbp, CatStart;
    PrintFirst(e, 0);
    tt.AtHead(tt.cur, Print(e, 0));
    tt.CloserFollows(ClosesIn(e, 0));
    if ExprStart(tt.Curtok()) {
      tt.Expr(0, e);
      tt.Gencd(OP_DROP);
    }
  }

  /** A parenthesised condition, with both parentheses and the newlines behind it. */
  method Condition(tt: Compiler, ghost c: Expr, ghost gap: Gap)
    requires tt.Valid() && gap != Separator && tt.At(tt.cur, Cond0(c, gap)) && OnlySeparator(tt, tt.cur + |Cond0(c, gap)|)
    modifies tt
    ensures var n := |Cond0(c, gap)|;
      tt.Emits(if tt.Kind(old(tt.cur) + n) == TK_NL then n + 1 else n, CodeE(c, |old(tt.lits)|), LitsE(c), UsesE(c))
  {
    hide Compiler.Layout, Compiler.Ignored, Compiler.At, Print, CodeE, LitsE, UsesE, ClosesIn, Getlbp, CatStart;
    ghost var close := Token(TK_RPAREN, 0, ZERO, gap);
    tt.AtCat(tt.cur, [Op(TK_LPAREN)], Print(c, 0) + [close]);
    tt.AtCat(tt.cur + 1, Print(c, 0), [close]);
    tt.CloserFollows(ClosesIn(c, 0));
    tt.Expect(TK_LPAREN);
    tt.Expr(0, c);
    Rparen(tt);
  }

  /** Compiles one statement from its text. */
  method Stmt(tt: Compiler, ghost s: Stmt)
    requires StmtReady(tt, s)
    modifies tt
    ensures Compiled(tt, s)
    decreases s, 3
  {
    hide Compiler.Layout, Compiler.Ignored, Compiler.At, CodeS, LitsS, UsesS, Ends, ExprStart;
    StmtFirst(s);
    tt.AtHead(tt.cur, PrintStmt(s));
    StmtKind(s);
    var tok := tt.Curtok();
    if tok == TK_BREAK {
      BreakStmt(tt, s);
    } else if tok == TK_CONTINUE {
      ContinueStmt(tt, s);
    } else if tok == TK_RETURN {
      ReturnStmt(tt, s);
    } else if tok == TK_LBRACE {
      Action(tt, s);
    } else if tok == TK_IF {
      IfStmt(tt, s);
    } else if tok == TK_WHILE {
      WhileStmt(tt, s);
    } else if tok == TK_DO {
      DoStmt(tt, s);
    } else if tok == TK_FOR {
      ForStmt(tt, s);
    } else if tok == TK_SEMI {
      EmptyStmt(tt, s);
    } else {
      ExprStmt(tt, s);
    }
  }

  method BreakStmt(tt: Compiler, ghost s: Stmt)
    requires StmtReady(tt, s) && s.SBreak?
    modifies tt
    ensures Compiled(tt, s)
  {
    tt.AtHead(tt.cur, PrintStmt(s));
    tt.Scan();
    if tt.breakDest != 0 { tt.Gen2cd(TK_BREAK, tt.breakDest - tt.zcodeLast - 3); }
  }

  method ContinueStmt(tt: Compiler, ghost s: Stmt)
    requires StmtReady(tt, s) && s.SContinue?
    modifies tt
    ensures Compiled(tt, s)
  {
    tt.AtHead(tt.cur, PrintStmt(s));
    tt.Scan();
    if tt.continueDest != 0 { tt.Gen2cd(TK_CONTINUE, tt.continueDest - tt.zcodeLast - 3); }
  }

  method EmptyStmt(tt: Compiler, ghost s: Stmt)
    requires StmtReady(tt, s) && s.SEmpty?
    modifies tt
    ensures Compiled(tt, s)
  {
    tt.AtHead(tt.cur, PrintStmt(s));
    tt.Scan();
  }

  method ExprStmt(tt: Compiler, ghost s: Stmt)
    requires StmtReady(tt, s) && s.SExpr?
    modifies tt
    ensures Compiled(tt, s)
  {
    hide Compiler.Layout, Compiler.Ignored, Compiler.At, Print, CodeE, LitsE, UsesE;
    tt.LexIs(tt.cur + |PrintStmt(s)|);
    SimpleStmt(tt, s.e);
  }

  method ReturnStmt(tt: Compiler, ghost s: Stmt)
    requires StmtReady(tt, s) && s.SReturn?
    modifies tt
    ensures Compiled(tt, s)
  {
    hide Compiler.Layout, Compiler.Ignored, Compiler.At, PrintOpt, CodeE, LitsE, UsesE;
    tt.LexIs(tt.cur + |PrintStmt(s)|);
    tt.AtCat(tt.cur, [Op(TK_RETURN)], PrintOpt(s.ret));
    tt.Scan();
    ReturnValue(tt, s.ret);
    tt.Gen2cd(TK_RETURN, tt.nparms);
  }

  method ReturnValue(tt: Compiler, ghost e: Option<Expr>)
    requires tt.Valid() && tt.At(tt.cur, PrintOpt(e)) && Closer(tt.Kind(tt.cur + |PrintOpt(e)|))
    modifies tt
    ensures tt.Emits(|PrintOpt(e)|, if e.Some? then CodeE(e.value, |old(tt.lits)|) else [TK_NUMBER, |old(tt.lits)|],
                     if e.Some? then LitsE(e.value) else [NUMERIC_ZERO], UsesOpt(e))
  {
    hide Compiler.Layout, Compiler.Ignored, Compiler.At, Print, CodeE, LitsE, UsesE, ClosesIn, Getlbp, CatStart;
    if e.Some? {
      PrintFirst(e.value, 0);
      tt.AtHead(tt.cur, PrintOpt(e));
      tt.CloserFollows(ClosesIn(e.value, 0));
    }
    if ExprStart(tt.Curtok()) {
      tt.Expr(0, e.value);
    } else {
      var slot := tt.MakeLiteral(NUMERIC_ZERO);
      tt.Gen2cd(TK_NUMBER, slot);
    }
  }

  // ---------- blocks ----------

  /** Skips exactly the newlines and semicolons at the cursor. */
  method OptionalNlOrSemi(tt: Compiler)
    requires tt.Loose()
    modifies tt`pos, tt`cur, tt`prevtok
    ensures old(tt.pos) <= tt.pos < |tt.raw| && !IsNlSemi(tt)
    ensures forall j :: old(tt.pos) <= j < tt.pos ==> tt.raw[j].kind == TK_NL || tt.raw[j].kind == TK_SEMI
    ensures tt.cur >= old(tt.cur) && tt.Moves(tt.cur - old(tt.cur))
    ensures forall i :: old(tt.cur) <= i < tt.cur ==> Separated(tt, i)
  {
    var more := true;
    while more
      invariant old(tt.pos) <= tt.pos < |tt.raw| && (!more ==> !IsNlSemi(tt))
      invariant forall j :: old(tt.pos) <= j < tt.pos ==> tt.raw[j].kind == TK_NL || tt.raw[j].kind == TK_SEMI
      invariant tt.cur >= old(tt.cur) && tt.Shifts(tt.cur - old(tt.cur))
      invariant forall i :: old(tt.cur) <= i < tt.cur ==> Separated(tt, i)
      decreases |tt.raw| - tt.pos, more
    {
      more := tt.Havetok(TK_NL);
      if !more { more := tt.Havetok(TK_SEMI); }
    }
  }

  ghost function BlockText(b: seq<Stmt>): seq<Token> { PrintStmts(b) + [Op(TK_RBRACE)] }

  /** Skipping newlines and semicolons in front of the rest of a block skips exactly its empty statements. */
  lemma LeadingSemis(tt: Compiler, b: seq<Stmt>, start: nat, stop: nat)
    requires tt.At(start, BlockText(b)) && start <= stop < |tt.toks|
    requires forall i :: start <= i < stop ==> Separated(tt, i)
    requires !Separated(tt, stop)
    ensures stop == start + Empties(b) && tt.At(stop, BlockText(b[Empties(b)..]))
    ensures tt.toks[stop].gap != Separator && (tt.Kind(stop) == TK_RBRACE <==> b[Empties(b)..] == [])
  {
    hide Compiler.Layout, Compiler.Ignored, PrintStmts, Compiler.At, CodeB, LitsB, UsesB, Empties;
    var n := Empties(b);
    EmptiesText(b, 0, Dest(0, 0, 0));
    assert PrintStmts(b) == PrintStmts(b)[..n] + PrintStmts(b)[n..];
    Assoc(PrintStmts(b)[..n], PrintStmts(b[n..]), [Op(TK_RBRACE)]);
    tt.AtCat(start, PrintStmts(b)[..n], BlockText(b[n..]));
    AtItems(tt, start, PrintStmts(b)[..n]);
    BlockFirst(b[n..]);
    assert n < |b| ==> b[n..][0] == b[n];
    tt.AtHead(start + n, BlockText(b[n..]));
    assert !Separated(tt, start + n);
    forall j | start <= j < start + n ensures Separated(tt, j) { assert tt.toks[start + (j - start)] == PrintStmts(b)[..n][j - start]; }
  }

  lemma AtItems(tt: Compiler, p: nat, s: seq<Token>)
    requires tt.At(p, s)
    ensures forall i :: 0 <= i < |s| ==> tt.toks[p + i] == s[i] && (s[i].gap != Separator ==> tt.Lex(p + i) == Plain(s[i]))
  {
    forall i | 0 <= i < |s| ensures tt.toks[p + i] == s[i] && (s[i].gap != Separator ==> tt.Lex(p + i) == Plain(s[i])) {
      assert tt.toks[p..p + |s|][i] == s[i];
      tt.LexIs(p + i);
    }
  }

  lemma BlockFirst(b: seq<Stmt>)
    ensures |BlockText(b)| > 0 && BlockText(b)[0].gap != Separator && (b == [] ==> BlockText(b)[0] == Op(TK_RBRACE))
    ensures var k := BlockText(b)[0].kind;
      && k != TK_NL && k != TK_ELSE && (k == TK_RBRACE <==> b == []) && (k == TK_SEMI <==> b != [] && b[0].SEmpty?)
  {
    hide PrintStmt;
    if b != [] {
      StmtFirst(b[0]);
      StmtKind(b[0]);
      NotRbrace(b[0]);
      assert PrintStmts(b)[0] == PrintSep(b[0])[0] == PrintStmt(b[0])[0];
    }
  }

  lemma NotRbrace(s: Stmt)
    ensures |PrintStmt(s)| > 0 && PrintStmt(s)[0].kind != TK_RBRACE
  {
    if s.SExpr? { PrintFirst(s.e, 0); }
  }

  /** The first statement of the rest of a block, and where its text ends. */
  lemma BlockSplit(tt: Compiler, b: seq<Stmt>, pos: nat)
    requires b != [] && tt.At(pos, BlockText(b))
    ensures tt.At(pos, PrintStmt(b[0])) && Ends(tt, b[0], pos + |PrintStmt(b[0])|)
    ensures !Terminated(b[0]) ==> tt.toks[pos + |PrintSep(b[0])|] == BlockText(b[1..])[0]
    ensures tt.At(pos + |PrintSep(b[0])|, BlockText(b[1..]))
    ensures |PrintStmts(b)| == |PrintSep(b[0])| + |PrintStmts(b[1..])|
  {
    hide Compiler.Layout, Compiler.Ignored, Compiler.At, PrintStmt, PrintSep, PrintStmts, Terminated, Dangling, Sep, Ends;
    var first, rest := PrintStmt(b[0]), BlockText(b[1..]);
    StmtsSplit(b, [Op(TK_RBRACE)]);
    tt.AtCat(pos, first, Sep(b[0]) + rest);
    tt.AtCat(pos + |first|, Sep(b[0]), rest);
    BlockFirst(b[1..]);
    tt.AtHead(pos + |first| + |Sep(b[0])|, rest);
    EndsInner(tt, b[0], pos + |first|);
  }

  /** Whether the parser, after s, sees the statement as already terminated. */
  lemma AfterStmt(tt: Compiler, s: Stmt, p: nat)
    requires tt.At(p, PrintStmt(s)) && Ends(tt, s, p + |PrintStmt(s)|)
    requires tt.Loose() && tt.cur == p + Taken(tt, s, p) && (Takes(tt, s, p + |PrintStmt(s)|) ==> tt.Valid())
    ensures PrevWasTerminated(tt) <==> Terminated(s) || Takes(tt, s, p + |PrintStmt(s)|)
    ensures !Terminated(s) ==> tt.Valid()
  {
    hide PrintStmt, Terminated, Dangling, DoEdge, Compiler.Layout, Compiler.Ignored;
    StmtLast(s);
    var text := PrintStmt(s);
    if Takes(tt, s, p + |text|) {
      tt.PrevSeparator();
    } else {
      AtItems(tt, p, text);
      assert tt.toks[p + (|text| - 1)] == text[|text| - 1];
      tt.PrevIs();
    }
  }

  /** rest is what remains of body, whose whole code, literals and last position are as given. */
  ghost predicate BlockInv(tt: Compiler, rest: seq<Stmt>, body: seq<Stmt>, whole: seq<int>, ls: seq<Value>, us: set<int>, stop: nat)
    reads tt
  {
    && BlockRest(tt, rest, body) && tt.cur + |PrintStmts(rest)| == stop
    && tt.code + CodeB(rest, |tt.lits|, Here(tt)) == whole && tt.lits + LitsB(rest) == ls && tt.scalars + UsesB(rest) == us
  }

  /** Separators between statements, which also absorb empty statements, and the brace that may follow them. */
  method Separators(tt: Compiler, ghost rest: seq<Stmt>, ghost body: seq<Stmt>,
                    ghost whole: seq<int>, ghost ls: seq<Value>, ghost us: set<int>, ghost stop: nat)
    returns (done: bool)
    requires BlockInv(tt, rest, body, whole, ls, us, stop)
    modifies tt`pos, tt`cur, tt`prevtok
    ensures tt.Loose() && tt.SameContext()
    ensures var b := rest[Empties(rest)..];
      if done then tt.code == whole && tt.lits == ls && tt.scalars == us && tt.cur == stop + 1
      else b != [] && tt.Valid() && BlockInv(tt, b, body, whole, ls, us, stop)
  {
    hide Compiler.Layout, Compiler.Ignored, Compiler.At, PrintStmts, CodeB, LitsB, UsesB, PlacedB, Empties;
    SkipSeparators(tt, rest, body, whole, ls, us, stop);
    ghost var b := rest[Empties(rest)..];
    if b == [] { EmptyInv(tt, b, body, whole, ls, us, stop); }
    done := tt.Havetok(TK_RBRACE);
  }

  method SkipSeparators(tt: Compiler, ghost rest: seq<Stmt>, ghost body: seq<Stmt>,
                        ghost whole: seq<int>, ghost ls: seq<Value>, ghost us: set<int>, ghost stop: nat)
    requires BlockInv(tt, rest, body, whole, ls, us, stop)
    modifies tt`pos, tt`cur, tt`prevtok
    ensures tt.Valid() && tt.SameContext()
    ensures tt.toks[tt.cur].gap != Separator
    ensures var b := rest[Empties(rest)..]; BlockInv(tt, b, body, whole, ls, us, stop) && (tt.Curtok() == TK_RBRACE <==> b == [])
  {
    hide Compiler.Layout, Compiler.Ignored, Compiler.At, PrintStmts, CodeB, LitsB, UsesB, PlacedB, Empties;
    OptionalNlOrSemi(tt);
    LeadingSemis(tt, rest, old(tt.cur), tt.cur);
    EmptiesText(rest, |tt.lits|, Here(tt));
    EmptiesUses(rest);
    SuffixOfSuffix(rest, body, Empties(rest));
    PlacedTail(rest, Empties(rest), tt.breakDest != 0, tt.inFunctionBody);
  }

  /** A compound statement, or the body of a rule or function. */
  method Action(tt: Compiler, ghost s: Stmt)
    requires StmtReady(tt, s) && s.SBlock?
    modifies tt
    ensures Compiled(tt, s)
    decreases s, 2
  {
    hide Compiler.Layout, Compiler.Ignored, Compiler.At, PrintStmts, CodeB, LitsB, UsesB, CodeS, LitsS, UsesS, Placed, PlacedB, Empties, BlockInv;
    ghost var rest := s.body;
    ghost var whole, ls, us, stop := tt.code + CodeB(s.body, |tt.lits|, Here(tt)), tt.lits + LitsB(s.body), tt.scalars + UsesB(s.body), tt.cur + 1 + |PrintStmts(s.body)|;
    EnterBlock(tt, s, whole, ls, us, stop);
    while true
      invariant tt.Loose() && tt.SameContext() && BlockInv(tt, rest, s.body, whole, ls, us, stop)
      decreases |rest|
    {
      var done := Separators(tt, rest, s.body, whole, ls, us, stop);
      rest := rest[Empties(rest)..];
      if done { break; }
      done := BlockElement(tt, rest, s, whole, ls, us, stop);
      rest := rest[1..];
      if done { break; }
    }
    BlockCode(s, |old(tt.lits)|, old(Here(tt)));
  }

  lemma EmptyInv(tt: Compiler, rest: seq<Stmt>, body: seq<Stmt>, whole: seq<int>, ls: seq<Value>, us: set<int>, stop: nat)
    requires rest == [] && BlockInv(tt, rest, body, whole, ls, us, stop)
    ensures tt.code == whole && tt.lits == ls && tt.scalars == us && tt.cur == stop
  {
    EmptyBlock(rest, tt.code, tt.lits, Here(tt));
  }

  method EnterBlock(tt: Compiler, ghost s: Stmt, ghost whole: seq<int>, ghost ls: seq<Value>, ghost us: set<int>, ghost stop: nat)
    requires StmtReady(tt, s) && s.SBlock?
    requires whole == tt.code + CodeB(s.body, |tt.lits|, Here(tt)) && ls == tt.lits + LitsB(s.body) && us == tt.scalars + UsesB(s.body)
    requires stop == tt.cur + 1 + |PrintStmts(s.body)|
    modifies tt`pos, tt`cur, tt`prevtok
    ensures tt.Loose() && tt.SameContext() && BlockInv(tt, s.body, s.body, whole, ls, us, stop) && stop + 1 == old(tt.cur) + |PrintStmt(s)|
    ensures tt.code == old(tt.code) && tt.lits == old(tt.lits) && tt.scalars == old(tt.scalars)
  {
    hide Compiler.Layout, Compiler.Ignored, Compiler.At, PrintStmts, CodeB, LitsB, UsesB, Placed, PlacedB;
    BlockEntry(tt, s, tt.cur);
    PlacedBlock(s, tt.breakDest != 0, tt.inFunctionBody);
    tt.Expect(TK_LBRACE);
  }

  /** One statement of a block and the separator after it; true if the block closed instead, which ends the last statement. */
  method BlockElement(tt: Compiler, ghost rest: seq<Stmt>, ghost s: Stmt, ghost whole: seq<int>, ghost ls: seq<Value>, ghost us: set<int>, ghost stop: nat)
    returns (done: bool)
    requires tt.Valid() && s.SBlock? && BlockInv(tt, rest, s.body, whole, ls, us, stop) && rest != []
    modifies tt
    ensures tt.Loose() && tt.SameContext()
    ensures if done then tt.code == whole && tt.lits == ls && tt.scalars == us && tt.cur == stop + 1 else BlockInv(tt, rest[1..], s.body, whole, ls, us, stop)
    decreases s, 1
  {
    hide Compiler.Layout, Compiler.Ignored, Compiler.At, PrintStmt, PrintSep, CodeS, LitsS, UsesS, PrintStmts, Placed, PlacedB, CodeB, LitsB, UsesB;
    RestFacts(rest, s.body, tt.breakDest != 0, tt.inFunctionBody);
    StmtOfBlock(tt, rest, s);
    if PrevWasTerminated(tt) { return false; }
    done := EndOfStmt(tt, rest[1..]);
    if done { EmptyBlock(rest[1..], tt.code, tt.lits, Here(tt)); }
  }

  /** The separator behind a statement, or, where it is left out, the brace that closes the block. */
  method EndOfStmt(tt: Compiler, ghost rest: seq<Stmt>) returns (done: bool)
    requires tt.Valid() && tt.toks[tt.cur] == SEPARATOR && tt.At(tt.cur + 1, BlockText(rest))
    modifies tt`pos, tt`cur, tt`prevtok
    ensures tt.Loose() && tt.SameContext() && tt.code == old(tt.code) && tt.lits == old(tt.lits) && tt.scalars == old(tt.scalars)
    ensures tt.cur == old(tt.cur) + (if done then 2 else 1) && (done ==> rest == [])
  {
    hide Compiler.Layout, Compiler.Ignored, Compiler.At, BlockText;
    tt.LexIs(tt.cur);
    if tt.Absent(tt.cur) {
      LastOfBlock(tt, rest, tt.cur);
      tt.cur := tt.cur + 1;
    }
    done := tt.Havetok(TK_RBRACE);
    if done { return; }
    tt.Scan();
  }

  /** A separator that is left out ends the last statement of a block. */
  lemma LastOfBlock(tt: Compiler, rest: seq<Stmt>, p: nat)
    requires tt.At(p + 1, BlockText(rest)) && tt.Absent(p)
    ensures rest == [] && p + 1 < |tt.toks| && tt.toks[p + 1].gap != Separator
  {
    BlockFirst(rest);
    tt.AtHead(p + 1, BlockText(rest));
  }

  /** The cursor is at the remaining statements of a block and its closing brace. */
  ghost predicate BlockRest(tt: Compiler, rest: seq<Stmt>, body: seq<Stmt>)
    reads tt
  {
    && tt.Loose() && tt.At(tt.cur, BlockText(rest))
    && |rest| <= |body| && rest == body[|body| - |rest|..]
    && (tt.breakDest != 0 <==> tt.continueDest != 0) && PlacedB(rest, tt.breakDest != 0, tt.inFunctionBody)
  }

  lemma BlockEntry(tt: Compiler, s: Stmt, pos: nat)
    requires s.SBlock? && tt.At(pos, PrintStmt(s))
    ensures tt.Kind(pos) == TK_LBRACE && tt.At(pos + 1, BlockText(s.body)) && |PrintStmt(s)| == |PrintStmts(s.body)| + 2
    ensures s.body[0..] == s.body
  {
    hide PrintStmts;
    tt.AtCat(pos, [Op(TK_LBRACE)], BlockText(s.body));
  }

  lemma SuffixOfSuffix(rest: seq<Stmt>, body: seq<Stmt>, n: nat)
    requires |rest| <= |body| && rest == body[|body| - |rest|..] && n <= |rest|
    ensures rest[n..] == body[|body| - |rest[n..]|..]
  {}

  lemma RestFacts(rest: seq<Stmt>, body: seq<Stmt>, inLoop: bool, inFunc: bool)
    requires |rest| <= |body| && rest == body[|body| - |rest|..] && rest != [] && PlacedB(rest, inLoop, inFunc)
    ensures |PrintStmts(rest)| == |PrintSep(rest[0])| + |PrintStmts(rest[1..])|
    ensures |rest[1..]| <= |body| && rest[1..] == body[|body| - |rest[1..]|..] && PlacedB(rest[1..], inLoop, inFunc)
  {
    hide PrintStmt, Sep, PlacedB;
    StmtsSplit(rest, []);
    SuffixOfSuffix(rest, body, 1);
    PlacedTail(rest, 1, inLoop, inFunc);
  }

  /** Compiles the first remaining statement of a block. */
  method StmtOfBlock(tt: Compiler, ghost rest: seq<Stmt>, ghost s: Stmt)
    requires tt.Valid() && s.SBlock? && BlockRest(tt, rest, s.body) && rest != []
    modifies tt
    ensures tt.Loose() && tt.SameContext() && tt.lits + LitsB(rest[1..]) == old(tt.lits) + LitsB(rest)
    ensures tt.scalars + UsesB(rest[1..]) == old(tt.scalars) + UsesB(rest)
    ensures tt.code + CodeB(rest[1..], |tt.lits|, Here(tt)) == old(tt.code) + CodeB(rest, |old(tt.lits)|, old(Here(tt)))
    ensures if PrevWasTerminated(tt) then tt.At(tt.cur, BlockText(rest[1..]))
            else tt.Valid() && tt.toks[tt.cur] == SEPARATOR && tt.At(tt.cur + 1, BlockText(rest[1..]))
    ensures tt.cur + (if PrevWasTerminated(tt) then 0 else 1) == old(tt.cur) + |PrintSep(rest[0])|
    decreases s, 0
  {
    hide Compiler.Layout, Compiler.Ignored, Compiler.At, PrintStmt, CodeS, LitsS, UsesS, PrintStmts, Placed, CodeB, LitsB, UsesB, Terminated, Dangling, DoEdge;
    ghost var c0 := CodeS(rest[0], |tt.lits|, Here(tt));
    ghost var d := Here(tt);
    RestOfBlock(rest, tt.code, tt.lits, tt.scalars, d);
    BlockSplit(tt, rest, tt.cur);
    assert rest[0] == s.body[|s.body| - |rest|];
    Stmt(tt, rest[0]);
    AfterStmt(tt, rest[0], old(tt.cur));
    SepFirst(rest[0]);
    assert Here(tt) == Shift(d, |c0|);
  }

  // ---------- conditionals and loops ----------

  /** What follows a compound statement follows its last sub-statement. */
  lemma EndsLast(tt: Compiler, s: Stmt, last: Stmt, p: nat)
    requires s.SIf? || s.SIfElse? || s.SWhile? || s.SFor?
    requires last == match s { case SIf(_, t) => t case SIfElse(_, _, f) => f case SWhile(_, b) => b case SFor(_, _, _, b) => b }
    requires Ends(tt, s, p)
    ensures Ends(tt, last, p) && Sep(s) == Sep(last) && Dangling(s) == (s.SIf? || Dangling(last))
    ensures !s.SIf? ==> Takes(tt, s, p) == Takes(tt, last, p)
    ensures s.SIf? ==> p + |Sep(s)| < |tt.toks|
    ensures s.SIf? ==> tt.Kind(p + |Sep(s)|) != TK_ELSE && tt.Kind(p + |Sep(s)|) != TK_NL
  {
    hide Terminated, Dangling, DoEdge, Sep;
    Edges(s, last);
  }

  /** What must follow t when its separator, if any, stands at p and some other keyword or statement after it. */
  lemma EndsInner(tt: Compiler, t: Stmt, p: nat)
    requires tt.At(p, Sep(t)) && p + |Sep(t)| < |tt.toks|
    requires tt.Kind(p + |Sep(t)|) != TK_NL && (Dangling(t) ==> tt.Kind(p + |Sep(t)|) != TK_ELSE)
    ensures Ends(tt, t, p)
  {
    hide Compiler.Layout, Compiler.Ignored, Compiler.At, Terminated, Dangling, Sep;
    SepFirst(t);
    if !Terminated(t) { tt.AtHead(p, Sep(t)); }
  }

  /** Where the parts of an `if` stand, and what follows its branches. */
  lemma IfTokens(tt: Compiler, s: Stmt, pos: nat)
    requires s.SIf? && tt.At(pos, PrintStmt(s)) && Ends(tt, s, pos + |PrintStmt(s)|)
    ensures tt.Kind(pos) == TK_IF && tt.toks[pos] == Op(TK_IF) && tt.At(pos + 1, Cond0(s.cond, Newlines))
    ensures var p := pos + 1 + |Cond0(s.cond, Newlines)|; var q := p + |PrintSep(s.thn)|;
      BranchAt(tt, s.thn, p, q) && tt.Kind(q) != TK_ELSE && pos + |PrintStmt(s)| == p + |PrintStmt(s.thn)|
  {
    hide Compiler.Layout, Compiler.Ignored, Compiler.At, PrintStmt, PrintSep, Cond0, Terminated, Dangling, DoEdge, Sep, Ends, Takes;
    var c, t := Cond0(s.cond, Newlines), PrintStmt(s.thn);
    IfText(s);
    EndsLast(tt, s, s.thn, pos + |PrintStmt(s)|);
    StmtFirst(s.thn);
    tt.AtCat(pos, [Op(TK_IF)], c + t);
    tt.AtCat(pos + 1, c, t);
    SepFirst(s.thn);
  }

  /** The branch t starts at p, and q is the position after its separator. */
  ghost predicate BranchAt(tt: Compiler, t: Stmt, p: nat, q: nat) {
    && tt.At(p, PrintStmt(t)) && tt.Kind(p) != TK_NL && Ends(tt, t, p + |PrintStmt(t)|)
    && q == p + |PrintSep(t)| < |tt.toks| && tt.Kind(q) != TK_NL && (Dangling(t) ==> tt.Kind(q) != TK_ELSE)
  }

  lemma IfElseTokens(tt: Compiler, s: Stmt, pos: nat)
    requires s.SIfElse? && tt.At(pos, PrintStmt(s)) && Ends(tt, s, pos + |PrintStmt(s)|) && !Dangling(s.thn)
    ensures tt.Kind(pos) == TK_IF && tt.toks[pos] == Op(TK_IF) && tt.At(pos + 1, Cond0(s.cond, Newlines))
    ensures var p := pos + 1 + |Cond0(s.cond, Newlines)|; var q := p + |PrintSep(s.thn)|;
      BranchAt(tt, s.thn, p, q) && tt.Kind(q) == TK_ELSE && tt.toks[q] == Op(TK_ELSE) && ElseAt(tt, s.els, q) && SameEnd(tt, s, pos, s.els, q + 1)
  {
    hide *;
    var c, p := Cond0(s.cond, Newlines), pos + 1 + |Cond0(s.cond, Newlines)|;
    var rest := PrintStmt(s.thn) + (Sep(s.thn) + ([Op(TK_ELSE)] + PrintStmt(s.els)));
    IfText(s);
    IfElseLength(s);
    Keyword(TK_IF);
    tt.AtCat(pos, [Op(TK_IF)], c + rest);
    tt.KindIs(pos, Op(TK_IF));
    tt.AtCat(pos + 1, c, rest);
    EndsLast(tt, s, s.els, pos + |PrintStmt(s)|);
    SepFirst(s.thn);
    ElseTokens(tt, s.thn, s.els, p);
    SameEndIf(tt, s, pos, s.els, p + |PrintSep(s.thn)| + 1);
  }

  lemma IfElseLength(s: Stmt)
    requires s.SIfElse?
    ensures |PrintStmt(s)| == 1 + |Cond0(s.cond, Newlines)| + |PrintSep(s.thn)| + 1 + |PrintStmt(s.els)|
  {
    hide Print, Cond0, PrintOpt, PrintStmts, PrintSep;
  }

  lemma Keyword(kind: int)
    ensures Op(kind).kind == kind && Op(kind).gap != Separator && TK_ELSE != TK_NL && TK_NL != TK_WHILE && TK_WHILE != TK_ELSE
  {}

  lemma SameEndIf(tt: Compiler, s: Stmt, pos: nat, last: Stmt, p: nat)
    requires pos + |PrintStmt(s)| == p + |PrintStmt(last)| && Takes(tt, s, pos + |PrintStmt(s)|) == Takes(tt, last, pos + |PrintStmt(s)|)
    ensures SameEnd(tt, s, pos, last, p)
  {
    hide PrintStmt, Takes;
  }

  /** Statement last, which starts at p, ends where s does, and takes the separator along if s does. */
  ghost predicate SameEnd(tt: Compiler, s: Stmt, pos: nat, last: Stmt, p: nat) {
    pos + |PrintStmt(s)| == p + |PrintStmt(last)| && Takes(tt, s, pos + |PrintStmt(s)|) == Takes(tt, last, pos + |PrintStmt(s)|)
  }

  ghost predicate ElseAt(tt: Compiler, f: Stmt, q: nat) {
    && tt.At(q + 1, PrintStmt(f)) && tt.Kind(q + 1) != TK_NL && Ends(tt, f, q + 1 + |PrintStmt(f)|)
  }

  lemma ElseTokens(tt: Compiler, t: Stmt, f: Stmt, p: nat)
    requires !Dangling(t) && tt.At(p, PrintStmt(t) + (Sep(t) + ([Op(TK_ELSE)] + PrintStmt(f))))
    requires Ends(tt, f, p + |PrintStmt(t)| + |Sep(t)| + 1 + |PrintStmt(f)|)
    ensures var q := p + |PrintSep(t)|; BranchAt(tt, t, p, q) && tt.Kind(q) == TK_ELSE && tt.toks[q] == Op(TK_ELSE) && ElseAt(tt, f, q)
  {
    hide *;
    var te := [Op(TK_ELSE)] + PrintStmt(f);
    var q := p + |PrintSep(t)|;
    StmtFirst(f);
    SepFirst(t);
    Keyword(TK_ELSE);
    tt.AtCat(p, PrintStmt(t), Sep(t) + te);
    tt.AtCat(p + |PrintStmt(t)|, Sep(t), te);
    tt.AtCat(q, [Op(TK_ELSE)], PrintStmt(f));
    tt.KindIs(q, Op(TK_ELSE));
    tt.KindIs(q + 1, PrintStmt(f)[0]);
    BranchIf(tt, t, p);
    ElseIf(tt, f, q);
  }

  lemma ElseIf(tt: Compiler, f: Stmt, q: nat)
    requires tt.At(q + 1, PrintStmt(f)) && tt.Kind(q + 1) != TK_NL && Ends(tt, f, q + 1 + |PrintStmt(f)|)
    ensures ElseAt(tt, f, q)
  {
    hide Compiler.At, PrintStmt, Ends;
  }

  lemma BranchIf(tt: Compiler, t: Stmt, p: nat)
    requires tt.At(p, PrintStmt(t)) && tt.At(p + |PrintStmt(t)|, Sep(t))
    requires var q := p + |PrintSep(t)|; q < |tt.toks| && tt.Kind(q) != TK_NL && (Dangling(t) ==> tt.Kind(q) != TK_ELSE)
    ensures BranchAt(tt, t, p, p + |PrintSep(t)|)
  {
    hide Compiler.Layout, Compiler.At, PrintStmt, PrintSep, Terminated, Dangling, Sep, Ends;
    StmtFirst(t);
    SepFirst(t);
    tt.AtHead(p, PrintStmt(t));
    EndsInner(tt, t, p + |PrintStmt(t)|);
  }

  /** Tokens up to where the parser looks for `else`: the branch t at p and its separator, unless that is left out. */
  ghost function Past(tt: Compiler, t: Stmt, p: nat): nat {
    |PrintStmt(t)| + if !Terminated(t) && Separated(tt, p + |PrintStmt(t)|) then 1 else 0
  }

  /** After a statement, takes the separator that a further `else` or `while` may stand behind. */
  method SkipSeparator(tt: Compiler, ghost t: Stmt, ghost p: nat)
    requires tt.Loose() && tt.cur == p + Taken(tt, t, p) && BranchAt(tt, t, p, p + |PrintSep(t)|)
    requires Takes(tt, t, p + |PrintStmt(t)|) ==> tt.Valid()
    modifies tt`pos, tt`cur, tt`prevtok
    ensures tt.Loose() && tt.cur == p + Past(tt, t, p) && (!Terminated(t) ==> tt.Valid())
    ensures PrevWasTerminated(tt) <==> Terminated(t) || Separated(tt, p + |PrintStmt(t)|)
    ensures tt.code == old(tt.code) && tt.lits == old(tt.lits) && tt.scalars == old(tt.scalars) && tt.SameContext()
  {
    hide Compiler.Layout, Compiler.Ignored, Compiler.At, PrintStmt, Terminated, Dangling, DoEdge;
    AfterStmt(tt, t, p);
    if !PrevWasTerminated(tt) && IsNlSemi(tt) {
      tt.Scan();
      tt.OptionalNl();
      tt.PrevSeparator();
    }
  }

  /** A separator is there unless a closing brace follows. */
  lemma SeparatorStands(tt: Compiler, q: nat)
    requires tt.Layout() && q + 1 < |tt.toks| && tt.toks[q] == SEPARATOR && tt.toks[q + 1] != Op(TK_RBRACE)
    ensures Separated(tt, q)
  {
    hide Compiler.Layout;
    tt.LexIs(q);
  }

  /** In front of `else` and `while` no separator is left out. */
  lemma PastAll(tt: Compiler, t: Stmt, p: nat)
    requires BranchAt(tt, t, p, p + |PrintSep(t)|) && tt.toks[p + |PrintSep(t)|] != Op(TK_RBRACE)
    ensures Past(tt, t, p) == |PrintSep(t)| && (Terminated(t) || Separated(tt, p + |PrintStmt(t)|))
  {
    hide Compiler.Layout, Compiler.Ignored, Compiler.At, PrintStmt, PrintSep, Sep, Terminated, Dangling, DoEdge, Takes;
    tt.HasLayout(p, PrintStmt(t));
    SepFirst(t);
    if !Terminated(t) { SeparatorStands(tt, p + |PrintStmt(t)|); }
  }

  method IfStmt(tt: Compiler, ghost s: Stmt)
    requires StmtReady(tt, s) && (s.SIf? || s.SIfElse?)
    modifies tt
    ensures Compiled(tt, s)
    decreases s, 2
  {
    hide Compiler.Layout, Compiler.Ignored, Compiler.At, PrintStmt, Cond0, PrintSep, CodeS, LitsS, UsesS, CodeE, LitsE, UsesE, Ends, IfAt, Past, Takes, Placed, Dangling, Terminated, Separated;
    ghost var base, k, d := tt.code, |tt.lits|, Here(tt);
    ghost var cc := CodeE(s.cond, k);
    ghost var ct := CodeS(s.thn, k + |LitsE(s.cond)|, Shift(d, |cc| + 2));
    PlacedIf(s, tt.breakDest != 0, tt.inFunctionBody);
    IfEntry(tt, s, tt.cur);
    IfCode(s, k, d);
    UsesUnfold(s);
    var cdx := ThenBranch(tt, s);
    cdx := ElsePart(tt, s, cdx, old(tt.cur));
    CloseIf(tt, s, cdx, base, k, d);
  }

  /** The parts of the `if` that starts at pos. */
  ghost predicate IfAt(tt: Compiler, s: Stmt, pos: nat)
    requires s.SIf? || s.SIfElse?
  {
    var p := pos + 1 + |Cond0(s.cond, Newlines)|;
    var q := p + |PrintSep(s.thn)|;
    && BranchAt(tt, s.thn, p, q)
    && if s.SIf? then tt.Kind(q) != TK_ELSE && pos + |PrintStmt(s)| == p + |PrintStmt(s.thn)|
       else tt.Kind(q) == TK_ELSE && tt.toks[q] == Op(TK_ELSE) && ElseAt(tt, s.els, q) && SameEnd(tt, s, pos, s.els, q + 1)
  }

  lemma IfEntry(tt: Compiler, s: Stmt, pos: nat)
    requires (s.SIf? || s.SIfElse?) && tt.At(pos, PrintStmt(s)) && Ends(tt, s, pos + |PrintStmt(s)|) && (s.SIfElse? ==> !Dangling(s.thn))
    ensures tt.Kind(pos) == TK_IF && tt.toks[pos] == Op(TK_IF) && tt.At(pos + 1, Cond0(s.cond, Newlines)) && IfAt(tt, s, pos)
    ensures var p := pos + 1 + |Cond0(s.cond, Newlines)|; BranchAt(tt, s.thn, p, p + |PrintSep(s.thn)|)
  {
    hide Compiler.Layout, Compiler.Ignored, Compiler.At, PrintStmt, PrintSep, Cond0, Ends, BranchAt, ElseAt, SameEnd, Dangling;
    if s.SIf? { IfTokens(tt, s, pos); } else { IfElseTokens(tt, s, pos); }
  }

  /** Looks for `else` behind the first branch. */
  method ElsePart(tt: Compiler, ghost s: Stmt, cdx: int, ghost pos: nat) returns (cdx': int)
    requires tt.Loose() && (s.SIf? || s.SIfElse?) && IfAt(tt, s, pos) && 0 <= cdx <= tt.zcodeLast && (!Terminated(s.thn) ==> tt.Valid())
    requires var p := pos + 1 + |Cond0(s.cond, Newlines)|;
      && tt.cur == p + Past(tt, s.thn, p)
      && (PrevWasTerminated(tt) <==> Terminated(s.thn) || Separated(tt, p + |PrintStmt(s.thn)|))
    requires (tt.breakDest != 0 <==> tt.continueDest != 0) && (s.SIfElse? ==> Placed(s.els, tt.breakDest != 0, tt.inFunctionBody))
    modifies tt
    ensures tt.Loose() && tt.SameContext() && tt.cur == pos + Taken(tt, s, pos) && (Takes(tt, s, pos + |PrintStmt(s)|) ==> tt.Valid())
    ensures if s.SIf? then cdx' == cdx && tt.code == old(tt.code) && tt.lits == old(tt.lits) && tt.scalars == old(tt.scalars)
      else var c := (old(tt.code) + [TK_ELSE, -1])[cdx := |old(tt.code)| + 1 - cdx];
        && cdx' == |c| - 1 && tt.code == c + CodeS(s.els, |old(tt.lits)|, Shift(old(Here(tt)), 2))
        && tt.lits == old(tt.lits) + LitsS(s.els) && tt.scalars == old(tt.scalars) + UsesS(s.els)
    decreases s, 1
  {
    hide Compiler.Layout, Compiler.Ignored, Compiler.At, PrintStmt, Cond0, PrintSep, CodeS, LitsS, UsesS, Ends, Takes, Placed, Dangling, DoEdge, Terminated, Separated;
    cdx' := cdx;
    ghost var p := pos + 1 + |Cond0(s.cond, Newlines)|;
    SepFirst(s.thn);
    IfTakes(tt, s, pos + |PrintStmt(s)|);
    if s.SIfElse? { PastAll(tt, s.thn, p); }
    if PrevWasTerminated(tt) {
      tt.OptionalNl();
      var hasElse := tt.Havetok(TK_ELSE);
      if hasElse { cdx' := ElseBranch(tt, s, cdx); }
    }
  }

  /** An open `if` takes along what its branch does and the separator. */
  lemma IfTakes(tt: Compiler, s: Stmt, p: nat)
    requires s.SIf? || s.SIfElse?
    ensures s.SIf? ==> (Takes(tt, s, p) <==> !Terminated(s.thn) && Separated(tt, p))
  {
    if s.SIf? { Edges(s, s.thn); }
  }

  /** The last open jump of an `if` gets its target. */
  method CloseIf(tt: Compiler, ghost s: Stmt, cdx: int, ghost base: seq<int>, ghost k: nat, ghost d: Dest)
    requires tt.Loose() && (s.SIf? || s.SIfElse?)
    requires var cc := CodeE(s.cond, k);
      var ct := CodeS(s.thn, k + |LitsE(s.cond)|, Shift(d, |cc| + 2));
      var c := base + cc + [TK_IF, -1] + ct;
      if s.SIf? then tt.code == c && cdx == |base| + |cc| + 1
      else
        var c2 := (c + [TK_ELSE, -1])[|base| + |cc| + 1 := |ct| + 2];
        && cdx == |c2| - 1
        && tt.code == c2 + CodeS(s.els, k + |LitsE(s.cond)| + |LitsS(s.thn)|, Shift(d, |cc| + |ct| + 4))
    modifies tt`code
    ensures tt.Loose() && tt.code == base + CodeS(s, k, d)
  {
    hide CodeS, LitsS, UsesS, CodeE, LitsE, UsesE;
    ghost var cc := CodeE(s.cond, k);
    ghost var ct := CodeS(s.thn, k + |LitsE(s.cond)|, Shift(d, |cc| + 2));
    IfCode(s, k, d);
    tt.code := tt.code[cdx := tt.zcodeLast - cdx];
    if s.SIf? {
      PatchJump(base + cc, TK_IF, ct, |ct|);
      Assoc(base, cc, [TK_IF, |ct|] + ct);
    } else {
      ghost var cf := CodeS(s.els, k + |LitsE(s.cond)| + |LitsS(s.thn)|, Shift(d, |cc| + |ct| + 4));
      PatchTwo(base + cc, TK_IF, ct, TK_ELSE, cf);
      Assoc(base, cc, [TK_IF, |ct| + 2] + (ct + ([TK_ELSE, |cf|] + cf)));
    }
  }

  /** `if`, its condition and its first branch, behind a jump whose operand cell is returned. */
  method ThenBranch(tt: Compiler, ghost s: Stmt) returns (cdx: int)
    requires tt.Valid() && (s.SIf? || s.SIfElse?) && tt.Curtok() == TK_IF && tt.toks[tt.cur] == Op(TK_IF)
    requires tt.At(tt.cur + 1, Cond0(s.cond, Newlines))
    requires var p := tt.cur + 1 + |Cond0(s.cond, Newlines)|; BranchAt(tt, s.thn, p, p + |PrintSep(s.thn)|)
    requires (tt.breakDest != 0 <==> tt.continueDest != 0) && Placed(s.thn, tt.breakDest != 0, tt.inFunctionBody)
    modifies tt
    ensures tt.Loose() && tt.SameContext() && (!Terminated(s.thn) ==> tt.Valid())
    ensures var p := old(tt.cur) + 1 + |Cond0(s.cond, Newlines)|;
      && tt.cur == p + Past(tt, s.thn, p)
      && (PrevWasTerminated(tt) <==> Terminated(s.thn) || Separated(tt, p + |PrintStmt(s.thn)|))
    ensures var cc := CodeE(s.cond, |old(tt.lits)|);
      var ct := CodeS(s.thn, |old(tt.lits)| + |LitsE(s.cond)|, Shift(old(Here(tt)), |cc| + 2));
      && cdx == |old(tt.code)| + |cc| + 1
      && tt.code == old(tt.code) + cc + [TK_IF, -1] + ct
      && tt.lits == old(tt.lits) + (LitsE(s.cond) + LitsS(s.thn)) && tt.scalars == old(tt.scalars) + (UsesE(s.cond) + UsesS(s.thn))
    decreases s, 1
  {
    hide Compiler.Layout, Compiler.Ignored, Compiler.At, PrintStmt, Cond0, PrintSep, CodeS, LitsS, UsesS, CodeE, LitsE, UsesE, Ends, Taken, Takes, Past, Placed, Dangling;
    tt.Expect(TK_IF);
    Condition(tt, s.cond, Newlines);
    tt.Gen2cd(TK_IF, -1);
    cdx := tt.zcodeLast;
    ghost var p := tt.cur;
    Stmt(tt, s.thn);
    SkipSeparator(tt, s.thn, p);
  }

  /** `else`: closes the jump over the then-branch and opens the one over the else-branch. */
  method ElseBranch(tt: Compiler, ghost s: Stmt, cdx: int) returns (cdx': int)
    requires tt.Loose() && s.SIfElse? && 0 <= cdx <= tt.zcodeLast
    requires tt.At(tt.cur, PrintStmt(s.els)) && tt.Kind(tt.cur) != TK_NL && Ends(tt, s.els, tt.cur + |PrintStmt(s.els)|)
    requires (tt.breakDest != 0 <==> tt.continueDest != 0) && Placed(s.els, tt.breakDest != 0, tt.inFunctionBody)
    modifies tt
    ensures tt.Loose() && tt.SameContext() && tt.cur == old(tt.cur) + Taken(tt, s.els, old(tt.cur)) && tt.lits == old(tt.lits) + LitsS(s.els)
    ensures tt.scalars == old(tt.scalars) + UsesS(s.els)
    ensures Takes(tt, s.els, old(tt.cur) + |PrintStmt(s.els)|) ==> tt.Valid()
    ensures var c := (old(tt.code) + [TK_ELSE, -1])[cdx := |old(tt.code)| + 1 - cdx];
      cdx' == |c| - 1 && tt.code == c + CodeS(s.els, |old(tt.lits)|, Shift(old(Here(tt)), 2))
    decreases s, 0
  {
    hide Compiler.Layout, Compiler.Ignored, Compiler.At, PrintStmt, CodeS, LitsS, UsesS, Ends, Taken, Takes;
    tt.Gen2cd(TK_ELSE, -1);
    tt.code := tt.code[cdx := tt.zcodeLast - cdx];
    cdx' := tt.zcodeLast;
    tt.OptionalNl();
    Stmt(tt, s.els);
  }

  lemma WhileTokens(tt: Compiler, s: Stmt, pos: nat)
    requires s.SWhile? && tt.At(pos, PrintStmt(s)) && Ends(tt, s, pos + |PrintStmt(s)|)
    ensures tt.Kind(pos) == TK_WHILE && tt.toks[pos] == Op(TK_WHILE) && tt.At(pos + 1, Cond0(s.cond, Newlines))
    ensures var p := pos + 1 + |Cond0(s.cond, Newlines)|;
      && tt.At(p, PrintStmt(s.loop)) && tt.Kind(p) != TK_NL && Ends(tt, s.loop, p + |PrintStmt(s.loop)|)
      && SameEnd(tt, s, pos, s.loop, p)
  {
    hide Compiler.Layout, Compiler.Ignored, Compiler.At, PrintStmt, Cond0, Terminated, Dangling, DoEdge, Sep, Ends, Takes;
    EndsLast(tt, s, s.loop, pos + |PrintStmt(s)|);
    WhileText(s);
    StmtFirst(s.loop);
    tt.AtCat(pos, [Op(TK_WHILE)], Cond0(s.cond, Newlines) + PrintStmt(s.loop));
    tt.AtCat(pos + 1, Cond0(s.cond, Newlines), PrintStmt(s.loop));
  }

  /** Everything but the loop's own jump targets, the cursor and the output is as it was. */
  twostate predicate SameButLoop(tt: Compiler)
    reads tt
  {
    && tt.nparms == old(tt.nparms) && tt.inFunctionBody == old(tt.inFunctionBody)
    && tt.funcs == old(tt.funcs) && tt.firstBegin == old(tt.firstBegin) && tt.lastBegin == old(tt.lastBegin)
  }

  method WhileStmt(tt: Compiler, ghost s: Stmt)
    requires StmtReady(tt, s) && s.SWhile?
    modifies tt
    ensures Compiled(tt, s)
    decreases s, 2
  {
    hide StmtReady, Taken, Takes, CodeS, LitsS, UsesS, Here;
    var brk, cont := tt.breakDest, tt.continueDest;
    WhileLoop(tt, s);
    tt.breakDest, tt.continueDest := brk, cont;
  }

  /** The loop itself; it leaves its own jump targets behind. */
  method WhileLoop(tt: Compiler, ghost s: Stmt)
    requires StmtReady(tt, s) && s.SWhile?
    modifies tt
    ensures tt.Loose() && SameButLoop(tt) && tt.cur == old(tt.cur) + Taken(tt, s, old(tt.cur))
    ensures Takes(tt, s, old(tt.cur) + |PrintStmt(s)|) ==> tt.Valid()
    ensures tt.code == old(tt.code) + CodeS(s, |old(tt.lits)|, old(Here(tt)))
    ensures tt.lits == old(tt.lits) + LitsS(s) && tt.scalars == old(tt.scalars) + UsesS(s)
    decreases s, 1
  {
    hide Compiler.Layout, Compiler.Ignored, Compiler.At, PrintStmt, Cond0, CodeS, LitsS, UsesS, CodeE, LitsE, UsesE, Ends, Takes, Placed;
    ghost var base, k := tt.code, |tt.lits|;
    ghost var cc := CodeE(s.cond, k);
    ghost var cb := CodeS(s.loop, k + |LitsE(s.cond)|, Dest(-2, -(|cc| + 4), tt.nparms));
    WhileTokens(tt, s, tt.cur);
    WhileCode(s, k, Here(tt));
    UsesUnfold(s);
    PlacedLoop(s, tt.breakDest != 0, tt.inFunctionBody);
    WhileHead(tt, s.cond);
    Stmt(tt, s.loop);
    WhileTail(tt);
    Join(old(tt.scalars), UsesE(s.cond), UsesS(s.loop));
    PatchWhile(base, cc, cb);
  }

  /** `while` and its condition, followed by the exit jump whose target is still unknown. */
  method WhileHead(tt: Compiler, ghost c: Expr)
    requires tt.Valid() && tt.Curtok() == TK_WHILE && tt.toks[tt.cur] == Op(TK_WHILE)
    requires tt.At(tt.cur + 1, Cond0(c, Newlines)) && tt.Kind(tt.cur + 1 + |Cond0(c, Newlines)|) != TK_NL
    modifies tt
    ensures tt.Valid() && SameButLoop(tt) && tt.cur == old(tt.cur) + 1 + |Cond0(c, Newlines)| && tt.lits == old(tt.lits) + LitsE(c)
    ensures tt.scalars == old(tt.scalars) + UsesE(c)
    ensures tt.continueDest == |old(tt.code)| && tt.breakDest == |tt.code| - 2
    ensures tt.code == old(tt.code) + (CodeE(c, |old(tt.lits)|) + [TK_WHILE, 2, OP_JUMP, -1])
  {
    hide Compiler.Layout, Compiler.Ignored, Compiler.At, Cond0, CodeE, LitsE, UsesE;
    tt.Expect(TK_WHILE);
    tt.continueDest := tt.zcodeLast + 1;
    Condition(tt, c, Newlines);
    tt.Gen2cd(TK_WHILE, 2);
    tt.breakDest := tt.zcodeLast + 1;
    tt.Gen2cd(OP_JUMP, -1);
  }

  /** The jump back to the condition; the exit jump gets its target. */
  method WhileTail(tt: Compiler)
    requires tt.Loose() && 0 <= tt.breakDest < |tt.code| - 1
    modifies tt
    ensures tt.Loose() && tt.SameContext() && tt.pos == old(tt.pos) && tt.cur == old(tt.cur) && tt.lits == old(tt.lits) && tt.scalars == old(tt.scalars)
    ensures tt.code == (old(tt.code) + [OP_JUMP, tt.continueDest - |old(tt.code)| - 2])[tt.breakDest + 1 := |old(tt.code)| - tt.breakDest]
  {
    tt.Gen2cd(OP_JUMP, -1);
    tt.code := tt.code[tt.zcodeLast := tt.continueDest - tt.zcodeLast - 1];
    tt.code := tt.code[tt.breakDest + 1 := tt.zcodeLast - tt.breakDest - 1];
  }

  lemma DoTokens(tt: Compiler, s: Stmt, pos: nat)
    requires s.SDo? && tt.At(pos, PrintStmt(s)) && Ends(tt, s, pos + |PrintStmt(s)|)
    ensures tt.Kind(pos) == TK_DO && tt.toks[pos] == Op(TK_DO)
    ensures var q := pos + 1 + |PrintSep(s.loop)|;
      && BranchAt(tt, s.loop, pos + 1, q) && tt.Kind(q) == TK_WHILE && tt.toks[q] == Op(TK_WHILE) && tt.At(q + 1, Cond0(s.cond, Tight))
      && pos + |PrintStmt(s)| == q + 1 + |Cond0(s.cond, Tight)| && OnlySeparator(tt, pos + |PrintStmt(s)|)
    ensures Takes(tt, s, pos + |PrintStmt(s)|) <==> tt.Kind(pos + |PrintStmt(s)|) == TK_NL
  {
    hide *;
    var b, c := PrintStmt(s.loop), [Op(TK_WHILE)] + Cond0(s.cond, Tight);
    var q := pos + 1 + |PrintSep(s.loop)|;
    DoEnd(tt, s, pos + |PrintStmt(s)|);
    DoText(s);
    DoLength(s);
    SepFirst(s.loop);
    Keyword(TK_DO);
    Keyword(TK_WHILE);
    tt.AtCat(pos, [Op(TK_DO)], b + (Sep(s.loop) + c));
    tt.AtCat(pos + 1, b, Sep(s.loop) + c);
    tt.AtCat(pos + 1 + |b|, Sep(s.loop), c);
    tt.AtCat(q, [Op(TK_WHILE)], Cond0(s.cond, Tight));
    tt.KindIs(pos, Op(TK_DO));
    tt.KindIs(q, Op(TK_WHILE));
    BranchIf(tt, s.loop, pos + 1);
  }

  lemma DoLength(s: Stmt)
    requires s.SDo?
    ensures |PrintStmt(s)| == 1 + |PrintSep(s.loop)| + 1 + |Cond0(s.cond, Tight)|
  {
    hide Print, Cond0, PrintOpt, PrintStmts, PrintSep;
  }

  lemma DoEnd(tt: Compiler, s: Stmt, p: nat)
    requires s.SDo? && Ends(tt, s, p)
    ensures OnlySeparator(tt, p) && !Dangling(s) && (Takes(tt, s, p) <==> tt.Kind(p) == TK_NL)
  {}

  lemma BranchStart(tt: Compiler, t: Stmt, p: nat)
    requires BranchAt(tt, t, p, p + |PrintSep(t)|)
    ensures tt.Kind(p) != TK_NL
  {}

  method DoStmt(tt: Compiler, ghost s: Stmt)
    requires StmtReady(tt, s) && s.SDo?
    modifies tt
    ensures Compiled(tt, s)
    decreases s, 2
  {
    hide StmtReady, Taken, Takes, CodeS, LitsS, UsesS, Here;
    var brk, cont := tt.breakDest, tt.continueDest;
    DoLoop(tt, s);
    tt.breakDest, tt.continueDest := brk, cont;
  }

  /** The loop itself; it leaves its own jump targets behind. */
  method DoLoop(tt: Compiler, ghost s: Stmt)
    requires StmtReady(tt, s) && s.SDo?
    modifies tt
    ensures tt.Loose() && SameButLoop(tt) && tt.cur == old(tt.cur) + Taken(tt, s, old(tt.cur))
    ensures Takes(tt, s, old(tt.cur) + |PrintStmt(s)|) ==> tt.Valid()
    ensures tt.code == old(tt.code) + CodeS(s, |old(tt.lits)|, old(Here(tt)))
    ensures tt.lits == old(tt.lits) + LitsS(s) && tt.scalars == old(tt.scalars) + UsesS(s)
    decreases s, 1
  {
    hide Compiler.Layout, Compiler.Ignored, Compiler.At, PrintStmt, PrintSep, Cond0, CodeS, LitsS, UsesS, CodeE, LitsE, UsesE, Ends, BranchAt, OnlySeparator, Takes, Placed, DoEdge, Terminated;
    ghost var base, k := tt.code, |tt.lits|;
    ghost var cb := CodeS(s.loop, k, Dest(-2, -4, tt.nparms));
    ghost var cc := CodeE(s.cond, k + |LitsS(s.loop)|);
    DoTokens(tt, s, tt.cur);
    BranchStart(tt, s.loop, tt.cur + 1);
    DoCode(s, k, Here(tt));
    UsesUnfold(s);
    PlacedLoop(s, tt.breakDest != 0, tt.inFunctionBody);
    DoHead(tt);
    DoBody(tt, s.loop);
    DoTail(tt, s.cond);
    Join(old(tt.scalars), UsesS(s.loop), UsesE(s.cond));
    PatchDo(base, cb, cc);
  }

  /** The body of a `do` loop and the separator behind it. */
  method DoBody(tt: Compiler, ghost b: Stmt)
    requires tt.Valid() && BranchAt(tt, b, tt.cur, tt.cur + |PrintSep(b)|) && tt.toks[tt.cur + |PrintSep(b)|] == Op(TK_WHILE)
    requires (tt.breakDest != 0 <==> tt.continueDest != 0) && Placed(b, tt.breakDest != 0, tt.inFunctionBody)
    modifies tt
    ensures tt.Leaves(|PrintSep(b)|, CodeS(b, |old(tt.lits)|, old(Here(tt))), LitsS(b), UsesS(b))
    decreases b, 4
  {
    hide Compiler.Layout, Compiler.Ignored, Compiler.At, PrintStmt, PrintSep, CodeS, LitsS, UsesS, Ends, Takes, Past, Placed;
    PastAll(tt, b, tt.cur);
    Stmt(tt, b);
    SkipSeparator(tt, b, old(tt.cur));
  }

  /** `do`, and the three jumps before its body: over the other two, to continue, to break. */
  method DoHead(tt: Compiler)
    requires tt.Valid() && tt.Curtok() == TK_DO && tt.Kind(tt.cur + 1) != TK_NL
    modifies tt
    ensures tt.Valid() && SameButLoop(tt) && tt.cur == old(tt.cur) + 1 && tt.lits == old(tt.lits) && tt.scalars == old(tt.scalars)
    ensures tt.continueDest == |old(tt.code)| + 2 && tt.breakDest == |old(tt.code)| + 4
    ensures tt.code == old(tt.code) + [OP_JUMP, 4, OP_JUMP, -1, OP_JUMP, -1]
  {
    tt.Expect(TK_DO);
    tt.OptionalNl();
    tt.Gen2cd(OP_JUMP, 4);
    tt.continueDest := tt.zcodeLast + 1;
    tt.Gen2cd(OP_JUMP, -1);
    tt.breakDest := tt.zcodeLast + 1;
    tt.Gen2cd(OP_JUMP, -1);
  }

  /** The condition of a `do` loop; the continue and break jumps get their targets. */
  method DoTail(tt: Compiler, ghost c: Expr)
    requires tt.Loose() && tt.Kind(tt.cur) == TK_WHILE && tt.toks[tt.cur] == Op(TK_WHILE)
    requires tt.At(tt.cur + 1, Cond0(c, Tight)) && OnlySeparator(tt, tt.cur + 1 + |Cond0(c, Tight)|)
    requires 0 <= tt.continueDest < |tt.code| - 1 && 0 <= tt.breakDest < |tt.code| - 1
    modifies tt
    ensures var n := 1 + |Cond0(c, Tight)|;
      tt.Valid() && tt.SameContext() && tt.cur == old(tt.cur) + (if tt.Kind(old(tt.cur) + n) == TK_NL then n + 1 else n) && tt.lits == old(tt.lits) + LitsE(c)
    ensures tt.scalars == old(tt.scalars) + UsesE(c)
    ensures var cc, n := CodeE(c, |old(tt.lits)|), |old(tt.code)|;
      tt.code == (old(tt.code)[tt.continueDest + 1 := n - 2 - tt.continueDest]
               + (cc + [TK_WHILE, tt.breakDest - (n + |cc|)]))[tt.breakDest + 1 := n + |cc| - tt.breakDest]
  {
    hide Compiler.Layout, Compiler.Ignored, Compiler.At, Cond0, CodeE, LitsE, UsesE, OnlySeparator;
    tt.code := tt.code[tt.continueDest + 1 := tt.zcodeLast - tt.continueDest - 1];
    tt.OptionalNl();
    tt.Expect(TK_WHILE);
    Condition(tt, c, Tight);
    tt.Gen2cd(TK_WHILE, tt.breakDest - tt.zcodeLast - 1);
    tt.code := tt.code[tt.breakDest + 1 := tt.zcodeLast - tt.breakDest - 1];
  }

  /** Where the parts of a `for` header after its first semicolon stand; p is just after that semicolon. */
  ghost predicate ForAt(tt: Compiler, s: Stmt, p: nat)
    requires s.SFor?
  {
    var q := p + |PrintOpt(s.test)| + 1;
    var r := q + |PrintOpt(s.incr)| + 1;
    && tt.At(p, PrintOpt(s.test)) && q < |tt.toks| && tt.Kind(q - 1) == TK_SEMI && tt.toks[q - 1] == Soft(TK_SEMI)
    && tt.At(q, PrintOpt(s.incr)) && r < |tt.toks| && tt.Kind(r - 1) == TK_RPAREN && tt.toks[r - 1] == Soft(TK_RPAREN)
    && tt.At(r, PrintStmt(s.loop)) && tt.Kind(r) != TK_NL && Ends(tt, s.loop, r + |PrintStmt(s.loop)|)
    && (s.test.Some? ==> ExprStart(tt.Kind(p)))
    && tt.Kind(q) != TK_NL && (s.incr.Some? ==> ExprStart(tt.Kind(q)))
  }

  lemma ForRestTokens(tt: Compiler, s: Stmt, p: nat)
    requires s.SFor? && tt.At(p, ForRest(s)) && Ends(tt, s, p + |ForRest(s)|)
    ensures ForAt(tt, s, p)
    ensures p + |PrintOpt(s.test)| + |PrintOpt(s.incr)| + 2 + |PrintStmt(s.loop)| == p + |ForRest(s)|
    ensures Takes(tt, s, p + |ForRest(s)|) == Takes(tt, s.loop, p + |ForRest(s)|)
  {
    hide *;
    EndsLast(tt, s, s.loop, p + |ForRest(s)|);
    ForLength(s);
    ForParts(tt, s, p);
    ForBody(tt, s, p);
  }

  lemma ForLength(s: Stmt)
    requires s.SFor?
    ensures |ForRest(s)| == |PrintOpt(s.test)| + |PrintOpt(s.incr)| + 2 + |PrintStmt(s.loop)|
  {
    hide PrintOpt, PrintStmt;
  }

  /** Where the parts stand in the text. */
  ghost predicate ForLaid(tt: Compiler, s: Stmt, p: nat)
    requires s.SFor?
  {
    var q := p + |PrintOpt(s.test)| + 1;
    var r := q + |PrintOpt(s.incr)| + 1;
    && tt.At(p, PrintOpt(s.test)) && q < |tt.toks| && tt.Lex(q - 1) == Plain(Soft(TK_SEMI)) && tt.toks[q - 1] == Soft(TK_SEMI)
    && tt.At(q, PrintOpt(s.incr)) && r < |tt.toks| && tt.Lex(r - 1) == Plain(Soft(TK_RPAREN)) && tt.toks[r - 1] == Soft(TK_RPAREN)
    && tt.At(r, PrintStmt(s.loop))
  }

  lemma ForParts(tt: Compiler, s: Stmt, p: nat)
    requires s.SFor? && tt.At(p, ForRest(s))
    ensures ForLaid(tt, s, p)
  {
    hide Compiler.Layout, Compiler.Lex, Compiler.At, PrintOpt, PrintStmt;
    var b := [Soft(TK_RPAREN)] + PrintStmt(s.loop);
    var t, u := PrintOpt(s.test), PrintOpt(s.incr);
    tt.AtCat(p, t, [Soft(TK_SEMI)] + (u + b));
    tt.AtCat(p + |t|, [Soft(TK_SEMI)], u + b);
    tt.AtCat(p + |t| + 1, u, b);
    tt.AtCat(p + |t| + 1 + |u|, [Soft(TK_RPAREN)], PrintStmt(s.loop));
  }

  lemma ForBody(tt: Compiler, s: Stmt, p: nat)
    requires s.SFor? && ForLaid(tt, s, p)
    requires Ends(tt, s.loop, p + |PrintOpt(s.test)| + |PrintOpt(s.incr)| + 2 + |PrintStmt(s.loop)|)
    ensures ForAt(tt, s, p)
  {
    hide Compiler.Layout, Compiler.Lex, Compiler.At, PrintOpt, PrintStmt, Ends;
    var q := p + |PrintOpt(s.test)| + 1;
    var r := q + |PrintOpt(s.incr)| + 1;
    StmtFirst(s.loop);
    OptFirst(s.test);
    OptFirst(s.incr);
    if s.test.Some? { tt.AtHead(p, PrintOpt(s.test)); }
    if s.incr.Some? { tt.AtHead(q, PrintOpt(s.incr)); }
    tt.AtHead(r, PrintStmt(s.loop));
  }

  lemma ForTokens(tt: Compiler, s: Stmt, pos: nat)
    requires s.SFor? && tt.At(pos, PrintStmt(s)) && Ends(tt, s, pos + |PrintStmt(s)|)
    ensures tt.Kind(pos) == TK_FOR && tt.toks[pos] == Op(TK_FOR) && tt.Kind(pos + 1) == TK_LPAREN && tt.toks[pos + 1] == Op(TK_LPAREN)
    ensures tt.At(pos + 2, PrintOpt(s.init)) && (s.init.Some? ==> ExprStart(tt.Kind(pos + 2)))
    ensures var p := pos + 3 + |PrintOpt(s.init)|;
      && p < |tt.toks| && tt.Kind(p - 1) == TK_SEMI && tt.toks[p - 1] == FirstSemi(s.test) && ForAt(tt, s, p)
      && SameEnd(tt, s, pos, s.loop, p + |PrintOpt(s.test)| + |PrintOpt(s.incr)| + 2)
  {
    hide *;
    var i, rest := PrintOpt(s.init), ForRest(s);
    var p := pos + 3 + |i|;
    ForText(s);
    ForHeadLength(s);
    OptFirst(s.init);
    ForWords(s);
    tt.AtCat(pos, [Op(TK_FOR), Op(TK_LPAREN)], i + ([FirstSemi(s.test)] + rest));
    tt.AtCat(pos, [Op(TK_FOR)], [Op(TK_LPAREN)]);
    tt.AtCat(pos + 2, i, [FirstSemi(s.test)] + rest);
    tt.AtCat(pos + 2 + |i|, [FirstSemi(s.test)], rest);
    tt.KindIs(pos, Op(TK_FOR));
    tt.KindIs(pos + 1, Op(TK_LPAREN));
    tt.KindIs(p - 1, FirstSemi(s.test));
    if s.init.Some? {
      tt.AtHead(pos + 2, i);
      tt.KindIs(pos + 2, i[0]);
    }
    ForRestTokens(tt, s, p);
    SameEndIf(tt, s, pos, s.loop, p + |PrintOpt(s.test)| + |PrintOpt(s.incr)| + 2);
  }

  lemma ForHeadLength(s: Stmt)
    requires s.SFor?
    ensures |PrintStmt(s)| == 3 + |PrintOpt(s.init)| + |ForRest(s)|
  {
    hide PrintOpt, Print;
  }

  lemma ForWords(s: Stmt)
    requires s.SFor?
    ensures [Op(TK_FOR), Op(TK_LPAREN)] == [Op(TK_FOR)] + [Op(TK_LPAREN)] && Op(TK_FOR).kind == TK_FOR && Op(TK_LPAREN).kind == TK_LPAREN
    ensures Op(TK_FOR).gap != Separator && Op(TK_LPAREN).gap != Separator && FirstSemi(s.test).gap != Separator && FirstSemi(s.test).kind == TK_SEMI
  {}

  method ForStmt(tt: Compiler, ghost s: Stmt)
    requires StmtReady(tt, s) && s.SFor?
    modifies tt
    ensures Compiled(tt, s)
    decreases s, 2
  {
    hide StmtReady, Taken, Takes, CodeS, LitsS, UsesS, Here;
    var brk, cont := tt.breakDest, tt.continueDest;
    ForLoop(tt, s);
    tt.breakDest, tt.continueDest := brk, cont;
  }

  /** The loop itself; it leaves its own jump targets behind. */
  method ForLoop(tt: Compiler, ghost s: Stmt)
    requires StmtReady(tt, s) && s.SFor?
    modifies tt
    ensures tt.Loose() && SameButLoop(tt) && tt.cur == old(tt.cur) + Taken(tt, s, old(tt.cur))
    ensures Takes(tt, s, old(tt.cur) + |PrintStmt(s)|) ==> tt.Valid()
    ensures tt.code == old(tt.code) + CodeS(s, |old(tt.lits)|, old(Here(tt)))
    ensures tt.lits == old(tt.lits) + LitsS(s) && tt.scalars == old(tt.scalars) + UsesS(s)
    decreases s, 1
  {
    hide Compiler.Layout, Compiler.Ignored, Compiler.At, PrintStmt, PrintOpt, CodeS, LitsS, UsesS, CodeE, CodeSimple, CodeOpt, LitsOpt, UsesOpt, LitsE, UsesE, Ends, Takes, Placed, ForAt;
    ghost var base, k := tt.code, |tt.lits|;
    ghost var ci, k1 := CodeSimple(s.init, k), k + |LitsOpt(s.init)|;
    ghost var ct, k2 := CodeOpt(s.test, k1), k1 + |LitsOpt(s.test)|;
    ghost var cu := CodeSimple(s.incr, k2);
    ghost var cb := CodeS(s.loop, k2 + |LitsOpt(s.incr)|, Dest(-(4 + |cu|), -(2 + |cu|), tt.nparms));
    ForTokens(tt, s, tt.cur);
    ForCode(s, k, Here(tt));
    UsesUnfold(s);
    PlacedLoop(s, tt.breakDest != 0, tt.inFunctionBody);
    ForInit(tt, s);
    ForNotMapIter(tt, s);
    Join(old(tt.scalars), UsesOpt(s.init), UsesOpt(s.test) + (UsesOpt(s.incr) + UsesS(s.loop)));
    PatchFor(base, ci, ct, ForOp(s), cu, cb);
  }

  /** The header up to its first semicolon; what precedes the semicolon is an ordinary simple statement. */
  method ForInit(tt: Compiler, ghost s: Stmt)
    requires tt.Valid() && s.SFor? && tt.Curtok() == TK_FOR && tt.toks[tt.cur] == Op(TK_FOR)
    requires tt.Kind(tt.cur + 1) == TK_LPAREN && tt.toks[tt.cur + 1] == Op(TK_LPAREN) && tt.At(tt.cur + 2, PrintOpt(s.init))
    requires var p := tt.cur + 2 + |PrintOpt(s.init)|; tt.Kind(p) == TK_SEMI && p < |tt.toks| && tt.toks[p] == FirstSemi(s.test)
    requires s.init.Some? ==> ExprStart(tt.Kind(tt.cur + 2))
    modifies tt
    ensures tt.Leaves(3 + |PrintOpt(s.init)|, CodeSimple(s.init, |old(tt.lits)|), LitsOpt(s.init), UsesOpt(s.init)) && (s.test.None? ==> tt.Valid())
  {
    hide Compiler.Layout, Compiler.Ignored, Compiler.At, CodeE, LitsE, UsesE, Print;
    tt.Expect(TK_FOR);
    tt.Expect(TK_LPAREN);
    var bare := tt.Havetok(TK_SEMI);
    if !bare {
      SimpleStmt(tt, s.init.value);
      var isMapIteration := tt.Havetok(TK_RPAREN);
      if !isMapIteration { tt.Expect(TK_SEMI); }
    }
  }

  /** The rest of a `for` loop that is not an iteration over an array. */
  method ForNotMapIter(tt: Compiler, ghost s: Stmt)
    requires tt.Loose() && s.SFor? && (s.test.None? ==> tt.Valid()) && ForAt(tt, s, tt.cur) && Placed(s.loop, true, tt.inFunctionBody)
    modifies tt
    ensures tt.Loose() && SameButLoop(tt)
    ensures var p := old(tt.cur) + |PrintOpt(s.test)| + |PrintOpt(s.incr)| + 2;
      tt.cur == p + Taken(tt, s.loop, p) && (Takes(tt, s.loop, p + |PrintStmt(s.loop)|) ==> tt.Valid())
    ensures
      var start, k1 := old(tt.code), |old(tt.lits)|;
      var ct, k2 := CodeOpt(s.test, k1), k1 + |LitsOpt(s.test)|;
      var cu := CodeSimple(s.incr, k2);
      var cb := CodeS(s.loop, k2 + |LitsOpt(s.incr)|, Dest(-(4 + |cu|), -(2 + |cu|), tt.nparms));
      var h := start + (ct + [ForOp(s), -1, OP_JUMP, -1]);
      var brk := |h| - 2;
      var u := (h + (cu + [OP_JUMP, |start| - (|h| + |cu|) - 2]))[brk - 1 := |h| + |cu| + 2 - brk];
      var c := u + cb;
      && tt.code == (c + [OP_JUMP, |h| - |c| - 2])[brk + 1 := |c| - brk]
      && tt.lits == old(tt.lits) + (LitsOpt(s.test) + (LitsOpt(s.incr) + LitsS(s.loop)))
      && tt.scalars == old(tt.scalars) + (UsesOpt(s.test) + (UsesOpt(s.incr) + UsesS(s.loop)))
    decreases s, 0
  {
    hide Compiler.Layout, Compiler.Ignored, Compiler.At, PrintStmt, PrintOpt, CodeS, LitsS, UsesS, CodeE, CodeSimple, CodeOpt, LitsOpt, UsesOpt, LitsE, UsesE, Ends, Takes, Placed;
    var conditionLoc := tt.zcodeLast + 1;
    ForHead(tt, s);
    ForIncr(tt, s, conditionLoc);
    Stmt(tt, s.loop);
    ForTail(tt);
  }

  /** The condition and the jump to the body, which still has no target. */
  method ForCondition(tt: Compiler, ghost s: Stmt)
    requires tt.Loose() && s.SFor? && tt.At(tt.cur, PrintOpt(s.test)) && (s.test.None? ==> tt.Valid())
    requires var p := tt.cur + |PrintOpt(s.test)|; tt.Kind(p) == TK_SEMI && tt.toks[p] == Soft(TK_SEMI)
    requires s.test.Some? ==> ExprStart(tt.Kind(tt.cur))
    modifies tt
    ensures tt.Leaves(|PrintOpt(s.test)| + 1, CodeOpt(s.test, |old(tt.lits)|) + [ForOp(s), -1], LitsOpt(s.test), UsesOpt(s.test))
  {
    hide Compiler.Layout, Compiler.Ignored, Compiler.At, Print, CodeE, LitsE, UsesE, ClosesIn, Getlbp, CatStart;
    if s.test.Some? { tt.CloserFollows(ClosesIn(s.test.value, 0)); }
    tt.Pending();
    var bare := tt.Havetok(TK_SEMI);
    if bare {
      tt.Gen2cd(OP_JUMP, -1);
    } else {
      tt.OptionalNl();
      tt.Expr(0, s.test.value);
      tt.Expect(TK_SEMI);
      tt.Gen2cd(TK_WHILE, -1);
    }
  }

  /** The condition, the jump to the body and the break jump, both still without targets. */
  method ForHead(tt: Compiler, ghost s: Stmt)
    requires tt.Loose() && s.SFor? && (s.test.None? ==> tt.Valid()) && ForAt(tt, s, tt.cur)
    modifies tt
    ensures tt.Valid() && SameButLoop(tt) && tt.cur == old(tt.cur) + |PrintOpt(s.test)| + 1
    ensures tt.code == old(tt.code) + (CodeOpt(s.test, |old(tt.lits)|) + [ForOp(s), -1, OP_JUMP, -1])
    ensures tt.lits == old(tt.lits) + LitsOpt(s.test) && tt.scalars == old(tt.scalars) + UsesOpt(s.test)
    ensures tt.breakDest == |tt.code| - 2 && tt.continueDest == |tt.code|
  {
    hide Compiler.Layout, Compiler.Ignored, Compiler.At, PrintStmt, PrintOpt, CodeOpt, LitsOpt, UsesOpt, Ends;
    ForCondition(tt, s);
    tt.OptionalNl();
    tt.breakDest := tt.zcodeLast + 1;
    tt.Gen2cd(OP_JUMP, -1);
    tt.continueDest := tt.zcodeLast + 1;
  }

  /** The increment and the jump back to the condition; the jump to the body gets its target. */
  method ForIncr(tt: Compiler, ghost s: Stmt, conditionLoc: int)
    requires tt.Valid() && s.SFor? && tt.At(tt.cur, PrintOpt(s.incr))
    requires var r := tt.cur + |PrintOpt(s.incr)|; tt.Kind(r) == TK_RPAREN && tt.Kind(r + 1) != TK_NL
    requires s.incr.Some? ==> ExprStart(tt.Curtok())
    requires 1 <= tt.breakDest <= |tt.code|
    modifies tt
    ensures tt.Valid() && tt.SameContext() && tt.cur == old(tt.cur) + |PrintOpt(s.incr)| + 1
    ensures tt.lits == old(tt.lits) + LitsOpt(s.incr) && tt.scalars == old(tt.scalars) + UsesOpt(s.incr)
    ensures var cu, n := CodeSimple(s.incr, |old(tt.lits)|), |old(tt.code)|;
      tt.code == (old(tt.code) + (cu + [OP_JUMP, conditionLoc - (n + |cu|) - 2]))[tt.breakDest - 1 := n + |cu| + 2 - tt.breakDest]
  {
    hide Compiler.Layout, Compiler.Ignored, Compiler.At, Print, CodeE, LitsE, UsesE;
    if tt.Curtok() != TK_RPAREN { SimpleStmt(tt, s.incr.value); }
    tt.Gen2cd(OP_JUMP, conditionLoc - tt.zcodeLast - 3);
    Rparen(tt);
    tt.code := tt.code[tt.breakDest - 1 := tt.zcodeLast - tt.breakDest + 1];
  }

  /** The jump back to the increment; the break jump gets its target. */
  method ForTail(tt: Compiler)
    requires tt.Loose() && 0 <= tt.breakDest < |tt.code| - 1
    modifies tt
    ensures tt.Loose() && tt.SameContext() && tt.pos == old(tt.pos) && tt.cur == old(tt.cur) && tt.lits == old(tt.lits) && tt.scalars == old(tt.scalars)
    ensures var c := old(tt.code);
      tt.code == (c + [OP_JUMP, tt.continueDest - |c| - 2])[tt.breakDest + 1 := |c| - tt.breakDest]
  {
    tt.Gen2cd(OP_JUMP, tt.continueDest - tt.zcodeLast - 3);
    tt.code := tt.code[tt.breakDest + 1 := tt.zcodeLast - tt.breakDest - 1];
  }
}
