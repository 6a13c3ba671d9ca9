/** Text and code of statements: how each kind unfolds, what ends it, and what back-patching makes of its jumps. */
module AwkStmtText {
  import opened AwkSyntax
  import opened AwkCode
  import opened AwkValues
  import opened AwkSpine
  import opened Wrappers

  // ---------- statements ----------

  lemma {:induction false} BareLast(e: Expr)
    ensures |Bare(e)| > 0 && !StmtEnd(Bare(e)[|Bare(e)| - 1].kind) && Bare(e)[|Bare(e)| - 1].gap == Tight && Bare(e)[|Bare(e)| - 1].kind != TK_EOF
    decreases e, 0
  {
    hide Print, Getlbp, Getrbp, PrintLeft, Closes, LeftFits;
    match e
    case Un(_, x) => PrintLast(x, Getlbp(TK_NOT));
    case Bin(op, _, r) => PrintLast(r, Getrbp(op));
    case Cond(_, _, f) => PrintLast(f, Getrbp(TK_TERNIF));
    case Asgn(op, _, x) => PrintLast(x, Getrbp(op));
    case _ =>
  }

  lemma {:induction false} PrintLast(e: Expr, rbp: int)
    ensures |Print(e, rbp)| > 0 && !StmtEnd(Print(e, rbp)[|Print(e, rbp)| - 1].kind) && Print(e, rbp)[|Print(e, rbp)| - 1].gap == Tight
      && Print(e, rbp)[|Print(e, rbp)| - 1].kind != TK_EOF
    decreases e, 1
  {
    BareLast(e);
  }

  /** A printed statement never starts with a separator, a newline, `else` or the end of file. */
  lemma StmtFirst(s: Stmt)
    ensures |PrintStmt(s)| > 0 && PrintStmt(s)[0].gap != Separator
    ensures var k := PrintStmt(s)[0].kind; k != TK_NL && k != TK_ELSE && k != TK_EOF && (k == TK_SEMI <==> s.SEmpty?)
  {
    hide Print, PrintStmts, Cond0;
    if s.SExpr? { PrintFirst(s.e, 0); }
  }

  /** The last token of a printed statement ends a statement exactly if the statement counts as terminated. */
  lemma {:induction false} StmtLast(s: Stmt)
    ensures |PrintStmt(s)| > 0
    ensures var last := PrintStmt(s)[|PrintStmt(s)| - 1];
      && last.gap != Separator && last.kind != TK_NL && last.kind != TK_EOF
      && (StmtEnd(last.kind) <==> Terminated(s)) && (last.gap == Tight <==> !Terminated(s))
  {
    hide Print, PrintStmts;
    match s
    case SExpr(e) => PrintLast(e, 0);
    case SReturn(e) => if e.Some? { PrintLast(e.value, 0); }
    case SIf(_, t) => StmtLast(t);
    case SIfElse(_, _, f) => StmtLast(f);
    case SWhile(_, b) => StmtLast(b);
    case SFor(_, _, _, b) => StmtLast(b);
    case _ =>
  }

  /** Number of leading empty statements of a block. */
  function Empties(b: seq<Stmt>): (n: nat)
    ensures n <= |b| && (n < |b| ==> !b[n].SEmpty?)
  {
    if b == [] || !b[0].SEmpty? then 0 else 1 + Empties(b[1..])
  }

  lemma {:induction false} EmptiesText(b: seq<Stmt>, k: int, d: Dest)
    ensures var n := Empties(b);
      && n <= |PrintStmts(b)| && PrintStmts(b)[n..] == PrintStmts(b[n..])
      && (forall i :: 0 <= i < n ==> PrintStmts(b)[i] == Soft(TK_SEMI))
      && CodeB(b, k, d) == CodeB(b[n..], k, d) && LitsB(b) == LitsB(b[n..])
  {
    hide Print, Cond0, PrintOpt, CodeE, LitsE;
    if b != [] && b[0].SEmpty? {
      EmptiesText(b[1..], k, d);
      assert b[1..][Empties(b[1..])..] == b[Empties(b)..];
      assert PrintStmts(b) == [Soft(TK_SEMI)] + PrintStmts(b[1..]);
      assert Shift(d, 0) == d;
    }
  }

  lemma {:induction false} EmptiesUses(b: seq<Stmt>)
    ensures UsesB(b) == UsesB(b[Empties(b)..])
  {
    hide UsesE, UsesOpt;
    if b != [] && b[0].SEmpty? {
      EmptiesUses(b[1..]);
      assert b[1..][Empties(b[1..])..] == b[Empties(b)..];
    } else {
      assert b[0..] == b;
    }
  }

  lemma {:induction false} PlacedTail(b: seq<Stmt>, n: nat, inLoop: bool, inFunc: bool)
    requires n <= |b| && PlacedB(b, inLoop, inFunc)
    ensures PlacedB(b[n..], inLoop, inFunc)
  {
    if n > 0 {
      PlacedTail(b[1..], n - 1, inLoop, inFunc);
      assert b[1..][n - 1..] == b[n..];
    } else {
      assert b[0..] == b;
    }
  }

  /** Back-patching of a `while` loop: its exit jump and the jump back to the condition. */
  lemma PatchWhile(base: seq<int>, cc: seq<int>, cb: seq<int>)
    ensures
      var brk := |base| + |cc| + 2;
      var c := base + (cc + [TK_WHILE, 2, OP_JUMP, -1]) + cb;
      (c + [OP_JUMP, |base| - |c| - 2])[brk + 1 := |c| - brk]
      == base + (cc + ([TK_WHILE, 2, OP_JUMP, |cb| + 2] + (cb + [OP_JUMP, -(|cc| + |cb| + 6)])))
  {}

  /** Back-patching of a `do` loop: its continue jump, then its break jump. */
  lemma PatchDo(base: seq<int>, cb: seq<int>, cc: seq<int>)
    ensures
      var cont, brk := |base| + 2, |base| + 4;
      var c := base + [OP_JUMP, 4, OP_JUMP, -1, OP_JUMP, -1] + cb;
      (c[cont + 1 := |c| - 2 - cont] + (cc + [TK_WHILE, brk - (|c| + |cc|)]))[brk + 1 := |c| + |cc| - brk]
      == base + ([OP_JUMP, 4, OP_JUMP, |cb| + 2, OP_JUMP, |cb| + |cc| + 2] + (cb + (cc + [TK_WHILE, -(|cb| + |cc| + 2)])))
  {}

  /** Back-patching of a `for` loop: op is the conditional or plain jump to the body. */
  lemma PatchFor(base: seq<int>, ci: seq<int>, ct: seq<int>, op: int, cu: seq<int>, cb: seq<int>)
    ensures
      var start := base + ci;
      var h := start + (ct + [op, -1, OP_JUMP, -1]);
      var brk := |h| - 2;
      var u := (h + (cu + [OP_JUMP, |start| - (|h| + |cu|) - 2]))[brk - 1 := |h| + |cu| + 2 - brk];
      var c := u + cb;
      (c + [OP_JUMP, |h| - |c| - 2])[brk + 1 := |c| - brk]
      == base + (ci + (ct + ([op, 4 + |cu|, OP_JUMP, 4 + |cu| + |cb|] +
          (cu + ([OP_JUMP, -(|ct| + |cu| + 6)] + (cb + [OP_JUMP, -(|cu| + |cb| + 4)]))))))
  {}

  /** The first token of a statement decides its kind. */
  lemma StmtKind(s: Stmt)
    ensures |PrintStmt(s)| > 0
    ensures var k := PrintStmt(s)[0].kind;
      && (k == TK_BREAK <==> s.SBreak?) && (k == TK_CONTINUE <==> s.SContinue?) && (k == TK_RETURN <==> s.SReturn?)
      && (k == TK_LBRACE <==> s.SBlock?) && (k == TK_IF <==> s.SIf? || s.SIfElse?) && (k == TK_WHILE <==> s.SWhile?)
      && (k == TK_DO <==> s.SDo?) && (k == TK_FOR <==> s.SFor?) && (k == TK_SEMI <==> s.SEmpty?)
  {
    hide Print, PrintStmts, Cond0;
    if s.SExpr? { PrintFirst(s.e, 0); }
  }

  lemma BlockUnfold(b: seq<Stmt>, k: int, d: Dest)
    requires b != []
    ensures var c0 := CodeS(b[0], k, d); CodeB(b, k, d) == c0 + CodeB(b[1..], k + |LitsS(b[0])|, Shift(d, |c0|))
    ensures LitsB(b) == LitsS(b[0]) + LitsB(b[1..]) && UsesB(b) == UsesS(b[0]) + UsesB(b[1..])
  {}

  lemma PlacedBlock(s: Stmt, inLoop: bool, inFunc: bool)
    requires s.SBlock? && Placed(s, inLoop, inFunc)
    ensures PlacedB(s.body, inLoop, inFunc)
  {}

  lemma StmtsSplit(b: seq<Stmt>, close: seq<Token>)
    requires b != []
    ensures PrintStmts(b) + close == PrintStmt(b[0]) + (Sep(b[0]) + (PrintStmts(b[1..]) + close))
    ensures |PrintStmts(b)| == |PrintSep(b[0])| + |PrintStmts(b[1..])|
    ensures |PrintSep(b[0])| == |PrintStmt(b[0])| + |Sep(b[0])|
  {
    hide PrintStmt;
    var first, sep, rest := PrintStmt(b[0]), Sep(b[0]), PrintStmts(b[1..]);
    assert PrintStmts(b) == (first + sep) + rest;
    Assoc(first + sep, rest, close);
    Assoc(first, sep, rest + close);
  }

  lemma EmptyBlock(rest: seq<Stmt>, code: seq<int>, lits: seq<Value>, d: Dest)
    requires rest == []
    ensures code + CodeB(rest, |lits|, d) == code && lits + LitsB(rest) == lits && |PrintStmts(rest)| == 0 && UsesB(rest) == {}
  {}

  lemma BlockCode(s: Stmt, k: int, d: Dest)
    requires s.SBlock?
    ensures CodeS(s, k, d) == CodeB(s.body, k, d) && LitsS(s) == LitsB(s.body) && UsesS(s) == UsesB(s.body)
  {
    hide CodeE, LitsE, CodeSimple, LitsOpt, CodeB, LitsB;
  }

  /** Slots that a statement uses, one kind after the other. */
  lemma UsesUnfold(s: Stmt)
    ensures s.SIf? ==> UsesS(s) == UsesE(s.cond) + UsesS(s.thn)
    ensures s.SIfElse? ==> UsesS(s) == UsesE(s.cond) + (UsesS(s.thn) + UsesS(s.els))
    ensures s.SWhile? ==> UsesS(s) == UsesE(s.cond) + UsesS(s.loop)
    ensures s.SDo? ==> UsesS(s) == UsesS(s.loop) + UsesE(s.cond)
    ensures s.SFor? ==> UsesS(s) == UsesOpt(s.init) + (UsesOpt(s.test) + (UsesOpt(s.incr) + UsesS(s.loop)))
  {
    hide UsesE, UsesOpt, UsesB;
  }

  lemma Join(a: set<int>, b: set<int>, c: set<int>)
    ensures (a + b) + c == a + (b + c)
  {}

  /** What the first statement of a block and the other ones contribute. */
  lemma RestOfBlock(b: seq<Stmt>, code: seq<int>, lits: seq<Value>, us: set<int>, d: Dest)
    requires b != []
    ensures var c0, ls0 := CodeS(b[0], |lits|, d), LitsS(b[0]);
      && (code + c0) + CodeB(b[1..], |lits + ls0|, Shift(d, |c0|)) == code + CodeB(b, |lits|, d)
      && (lits + ls0) + LitsB(b[1..]) == lits + LitsB(b) && (us + UsesS(b[0])) + UsesB(b[1..]) == us + UsesB(b)
  {
    BlockUnfold(b, |lits|, d);
    hide CodeS, CodeB, LitsS, LitsB, UsesS, UsesB, Shift;
    var c0, ls0 := CodeS(b[0], |lits|, d), LitsS(b[0]);
    Assoc(code, c0, CodeB(b[1..], |lits + ls0|, Shift(d, |c0|)));
    Assoc(lits, ls0, LitsB(b[1..]));
    Join(us, UsesS(b[0]), UsesB(b[1..]));
  }

  // ---------- unfoldings of statement text and code, one per kind ----------

  lemma IfText(s: Stmt)
    requires s.SIf? || s.SIfElse?
    ensures PrintStmt(s) == [Op(TK_IF)] + (Cond0(s.cond, Newlines) +
      if s.SIf? then PrintStmt(s.thn)
      else PrintStmt(s.thn) + (Sep(s.thn) + ([Op(TK_ELSE)] + PrintStmt(s.els))))
  {
    hide Print, Cond0, PrintOpt, PrintStmts;
    if s.SIfElse? { Assoc(PrintStmt(s.thn), Sep(s.thn), [Op(TK_ELSE)] + PrintStmt(s.els)); }
  }

  lemma IfCode(s: Stmt, k: int, d: Dest)
    requires s.SIf? || s.SIfElse?
    ensures var cc := CodeE(s.cond, k);
      var ct := CodeS(s.thn, k + |LitsE(s.cond)|, Shift(d, |cc| + 2));
      && (s.SIf? ==> CodeS(s, k, d) == cc + ([TK_IF, |ct|] + ct) && LitsS(s) == LitsE(s.cond) + LitsS(s.thn))
      && (s.SIfElse? ==>
            var cf := CodeS(s.els, k + |LitsE(s.cond)| + |LitsS(s.thn)|, Shift(d, |cc| + |ct| + 4));
            && CodeS(s, k, d) == cc + ([TK_IF, |ct| + 2] + (ct + ([TK_ELSE, |cf|] + cf)))
            && LitsS(s) == LitsE(s.cond) + (LitsS(s.thn) + LitsS(s.els)))
  {
    hide CodeE, LitsE, CodeSimple, LitsOpt, CodeB, LitsB;
  }

  lemma WhileText(s: Stmt)
    requires s.SWhile?
    ensures PrintStmt(s) == [Op(TK_WHILE)] + (Cond0(s.cond, Newlines) + PrintStmt(s.loop))
  {
    hide Print, Cond0, PrintOpt, PrintStmts;
  }

  lemma WhileCode(s: Stmt, k: int, d: Dest)
    requires s.SWhile?
    ensures var cc := CodeE(s.cond, k);
      var cb := CodeS(s.loop, k + |LitsE(s.cond)|, Dest(-2, -(|cc| + 4), d.nparms));
      CodeS(s, k, d) == cc + ([TK_WHILE, 2, OP_JUMP, |cb| + 2] + (cb + [OP_JUMP, -(|cc| + |cb| + 6)]))
    ensures LitsS(s) == LitsE(s.cond) + LitsS(s.loop)
  {
    hide CodeE, LitsE, CodeSimple, LitsOpt, CodeB, LitsB;
  }

  lemma DoText(s: Stmt)
    requires s.SDo?
    ensures PrintStmt(s) == [Op(TK_DO)] + (PrintStmt(s.loop) + (Sep(s.loop) + ([Op(TK_WHILE)] + Cond0(s.cond, Tight))))
  {
    hide Print, Cond0, PrintOpt, PrintStmts;
    Assoc(PrintStmt(s.loop), Sep(s.loop), [Op(TK_WHILE)] + Cond0(s.cond, Tight));
  }

  lemma DoCode(s: Stmt, k: int, d: Dest)
    requires s.SDo?
    ensures var cb := CodeS(s.loop, k, Dest(-2, -4, d.nparms));
      var cc := CodeE(s.cond, k + |LitsS(s.loop)|);
      CodeS(s, k, d) ==
        [OP_JUMP, 4, OP_JUMP, |cb| + 2, OP_JUMP, |cb| + |cc| + 2] + (cb + (cc + [TK_WHILE, -(|cb| + |cc| + 2)]))
    ensures LitsS(s) == LitsS(s.loop) + LitsE(s.cond)
  {
    hide CodeE, LitsE, CodeSimple, LitsOpt, CodeB, LitsB, Shift;
  }

  /** A compound statement ends the way its last sub-statement does. */
  lemma Edges(s: Stmt, last: Stmt)
    requires s.SIf? || s.SIfElse? || s.SWhile? || s.SFor?
    requires last == match s { case SIf(_, t) => t case SIfElse(_, _, f) => f case SWhile(_, b) => b case SFor(_, _, _, b) => b }
    ensures Terminated(s) == Terminated(last) && Sep(s) == Sep(last)
    ensures Dangling(s) == (s.SIf? || Dangling(last)) && (!s.SIf? ==> DoEdge(s) == DoEdge(last))
  {}

  lemma SepFirst(s: Stmt)
    ensures |PrintSep(s)| == |PrintStmt(s)| + |Sep(s)|
    ensures Sep(s) == if Terminated(s) then [] else [SEPARATOR]
  {
    hide PrintStmt;
  }

  lemma PlacedLoop(s: Stmt, inLoop: bool, inFunc: bool)
    requires Placed(s, inLoop, inFunc) && (s.SWhile? || s.SDo? || s.SFor?)
    ensures Placed(s.loop, true, inFunc)
  {}

  lemma PlacedIf(s: Stmt, inLoop: bool, inFunc: bool)
    requires Placed(s, inLoop, inFunc) && (s.SIf? || s.SIfElse?)
    ensures Placed(s.thn, inLoop, inFunc)
    ensures s.SIfElse? ==> !Dangling(s.thn) && Placed(s.els, inLoop, inFunc)
  {}

  lemma ForText(s: Stmt)
    requires s.SFor?
    ensures PrintStmt(s) ==
      [Op(TK_FOR), Op(TK_LPAREN)] + (PrintOpt(s.init) + ([FirstSemi(s.test)] + ForRest(s)))
  {
    hide PrintOpt, Print;
  }

  /** Text of a `for` statement after its first semicolon. */
  function ForRest(s: Stmt): seq<Token>
    requires s.SFor?
  {
    PrintOpt(s.test) + ([Soft(TK_SEMI)] + (PrintOpt(s.incr) + ([Soft(TK_RPAREN)] + PrintStmt(s.loop))))
  }

  lemma ForCode(s: Stmt, k: int, d: Dest)
    requires s.SFor?
    ensures
      var ci, k1 := CodeSimple(s.init, k), k + |LitsOpt(s.init)|;
      var ct, k2 := CodeOpt(s.test, k1), k1 + |LitsOpt(s.test)|;
      var cu := CodeSimple(s.incr, k2);
      var cb := CodeS(s.loop, k2 + |LitsOpt(s.incr)|, Dest(-(4 + |cu|), -(2 + |cu|), d.nparms));
      CodeS(s, k, d) == ci + (ct + ([ForOp(s), 4 + |cu|, OP_JUMP, 4 + |cu| + |cb|] +
        (cu + ([OP_JUMP, -(|ct| + |cu| + 6)] + (cb + [OP_JUMP, -(|cu| + |cb| + 4)])))))
    ensures LitsS(s) == LitsOpt(s.init) + (LitsOpt(s.test) + (LitsOpt(s.incr) + LitsS(s.loop)))
  {
    hide CodeE, LitsE, CodeSimple, LitsOpt, CodeB, LitsB;
  }

  function CodeOpt(e: Option<Expr>, k: int): seq<int> {
    if e.Some? then CodeE(e.value, k) else []
  }

  /** The jump from a `for` condition to its body: plain when there is no condition. */
  function ForOp(s: Stmt): int
    requires s.SFor?
  {
    if s.test.Some? then TK_WHILE else OP_JUMP
  }

  lemma OptFirst(e: Option<Expr>)
    ensures if e.Some? then |PrintOpt(e)| > 0 && ExprStart(PrintOpt(e)[0].kind) && PrintOpt(e)[0].gap == Tight else PrintOpt(e) == []
  {
    if e.Some? { PrintFirst(e.value, 0); }
  }
}
