/** The one-pass compiler: recursive descent over the token list, emitting and back-patching zcode. */
module AwkCompiler {
  import opened AwkSyntax
  import opened AwkValues
  import opened AwkCode
  import opened AwkSpine
  import opened Wrappers

  /** Where a compiled function starts, how many parameters it declares, and which of them it uses as scalars. */
  datatype Func = Func(addr: int, nparms: int, scalars: set<int>)

  class Compiler {
    const raw: seq<Lexeme>
    ghost const toks: seq<Token>
    ghost const starts: seq<nat>
    var pos: nat
    ghost var cur: nat
    var prevtok: int
    var code: seq<int>
    var lits: seq<Value>
    var scalars: set<int>
    var zcodeLast: int
    var breakDest: int
    var continueDest: int
    var nparms: int
    var inFunctionBody: bool
    var funcs: map<int, Func>
    var firstBegin: int
    var lastBegin: int

    /** An empty program but for one dummy cell and literal, so that no offset is zero; the first token is current. */
    constructor (raw: seq<Lexeme>, ghost toks: seq<Token>, ghost starts: seq<nat>)
      requires Spaced(raw, toks, starts)
      ensures this.raw == raw && this.toks == toks && this.starts == starts && pos == 0
      ensures Valid() && cur == 0 && code == [TK_EOF] && lits == [Uninit] && scalars == {} && funcs == map[]
      ensures breakDest == 0 && continueDest == 0 && !inFunctionBody && firstBegin == 0 && lastBegin == 0
    {
      this.raw, this.toks, this.starts := raw, toks, starts;
      pos, cur, prevtok := 0, 0, TK_EOF;
      code, lits, scalars, zcodeLast := [TK_EOF], [Uninit], {}, 0;
      breakDest, continueDest, nparms, inFunctionBody := 0, 0, 0, false;
      funcs, firstBegin, lastBegin := map[], 0, 0;
    }

    /** What is scanned is the text toks, laid out in one of the possible ways. */
    ghost predicate Layout() { Spaced(raw, toks, starts) }

    /** Newlines that are to be ignored may stand between the cursor and token cur of the text. */
    ghost predicate Loose()
      reads this
    {
      && Layout() && cur < |toks| == |starts| && pos <= starts[cur] < |raw| && (cur > 0 ==> starts[cur - 1] <= pos)
      && Ignored(pos, starts[cur])
      && |code| > 0 && zcodeLast == |code| - 1
      && (pos > 0 ==> prevtok == raw[pos - 1].kind)
    }

    /** Nothing but newlines is scanned from position a to position b. */
    ghost predicate Ignored(a: nat, b: nat) { b <= |raw| && forall j :: a <= j < b ==> raw[j].kind == TK_NL }

    /** The cursor is at token cur of the text. */
    ghost predicate Valid()
      reads this
    {
      Loose() && pos == starts[cur]
    }

    /** What is scanned at token i of the text. */
    ghost function Lex(i: nat): Lexeme {
      if i < |starts| && starts[i] < |raw| then raw[starts[i]] else Lexeme(TK_EOF, 0, ZERO)
    }

    ghost function Kind(i: nat): int { Lex(i).kind }

    /** A token is scanned as printed, unless it is a separator: that may be a newline, or left out before `}`. */
    lemma LexIs(i: nat)
      requires Layout() && i < |toks|
      ensures starts[i] < |raw|
      ensures toks[i].gap != Separator ==> Lex(i) == Plain(toks[i])
      ensures toks[i].gap == Separator ==> i + 1 < |toks| && (Kind(i) == TK_SEMI || Kind(i) == TK_NL || Absent(i))
      decreases |toks| - i
    {
      if i < |toks| - 1 {
        assert Laid(raw, toks, starts, i);
        var piece := raw[starts[i]..starts[i + 1]];
        if piece == [] { LexIs(i + 1); } else { assert raw[starts[i]] == piece[0]; }
      }
    }

    /** A separator that is left out. */
    ghost predicate Absent(i: nat) {
      && i + 1 < |toks| && i + 1 < |starts| && toks[i].gap == Separator && toks[i + 1] == Op(TK_RBRACE) && starts[i] == starts[i + 1]
      && Kind(i) == Kind(i + 1) == TK_RBRACE
    }

    /** The token text s stands at p, with at least one token after it. */
    ghost predicate At(p: nat, s: seq<Token>) {
      Layout() && p + |s| < |toks| && toks[p..p + |s|] == s
    }

    lemma AtCat(p: nat, a: seq<Token>, b: seq<Token>)
      requires At(p, a + b)
      ensures At(p, a) && At(p + |a|, b)
      ensures |a| > 0 ==> toks[p] == a[0] && (a[0].gap != Separator ==> Lex(p) == Plain(a[0]))
      ensures |b| > 0 ==> toks[p + |a|] == b[0] && (b[0].gap != Separator ==> Lex(p + |a|) == Plain(b[0]))
      ensures p + |a| + |b| < |toks|
    {
      var s := toks[p..p + |a + b|];
      assert s[..|a|] == a && s[|a|..] == b;
      LexIs(p);
      LexIs(p + |a|);
    }

    lemma HasLayout(p: nat, s: seq<Token>)
      requires At(p, s)
      ensures Layout() && p + |s| < |toks|
    {}

    lemma AtHead(p: nat, s: seq<Token>)
      requires At(p, s) && |s| > 0
      ensures p + |s| < |toks| && toks[p] == s[0] && (s[0].gap != Separator ==> Lex(p) == Plain(s[0]))
    {
      assert toks[p..p + |s|][0] == s[0];
      LexIs(p);
    }

    /** Everything but the cursor, the two output lists and the marks on variables is as it was. */
    twostate predicate SameContext()
      reads this
    {
      && breakDest == old(breakDest) && continueDest == old(continueDest) && nparms == old(nparms)
      && inFunctionBody == old(inFunctionBody)
      && funcs == old(funcs) && firstBegin == old(firstBegin) && lastBegin == old(lastBegin)
    }

    /** n tokens were consumed, c was appended to the code and ls to the literals, and us were marked as scalars; nothing else changed. */
    twostate predicate Emits(n: nat, c: seq<int>, ls: seq<Value>, us: set<int>)
      reads this
    {
      Valid() && Leaves(n, c, ls, us)
    }

    /** The same, but newlines may be left to be ignored. */
    twostate predicate Leaves(n: nat, c: seq<int>, ls: seq<Value>, us: set<int>)
      reads this
    {
      Loose() && cur == old(cur) + n && code == old(code) + c && lits == old(lits) + ls && scalars == old(scalars) + us && SameContext()
    }

    /** Nothing was consumed or marked. */
    twostate predicate Adds(c: seq<int>, ls: seq<Value>)
      reads this
    {
      Loose() && cur == old(cur) && code == old(code) + c && lits == old(lits) + ls && scalars == old(scalars) && SameContext()
    }

    /** n tokens were consumed; nothing else changed. */
    twostate predicate Moves(n: nat)
      reads this
    {
      Valid() && Shifts(n)
    }

    twostate predicate Shifts(n: nat)
      reads this
    {
      Loose() && cur == old(cur) + n && code == old(code) && lits == old(lits) && scalars == old(scalars) && SameContext()
    }

    function Curtok(): int
      reads this
      requires pos < |raw|
    {
      raw[pos].kind
    }

    // ---------- scanner and emitters ----------

    method Scan()
      requires Loose() && Curtok() != TK_EOF && (toks[cur].gap == Separator ==> Curtok() != TK_RBRACE)
      modifies this`pos, this`cur, this`prevtok
      ensures pos == old(pos) + 1 && Shifts(if old(Valid()) then 1 else 0)
      ensures old(Valid()) && toks[old(cur)].gap == Tight ==> Valid()
    {
      prevtok := raw[pos].kind;
      if pos == starts[cur] {
        PieceAt(cur);
        cur := cur + 1;
      }
      pos := pos + 1;
    }

    /** What belongs to token i: itself and newlines. */
    lemma PieceAt(i: nat)
      requires Layout() && i < |toks| && Kind(i) != TK_EOF && (toks[i].gap == Separator ==> Kind(i) != TK_RBRACE)
      ensures i + 1 < |toks| && starts[i] < starts[i + 1] < |raw|
      ensures Ignored(starts[i] + 1, starts[i + 1])
      ensures toks[i].gap == Tight ==> starts[i + 1] == starts[i] + 1
    {
      LexIs(i);
      assert Laid(raw, toks, starts, i);
      var piece := raw[starts[i]..starts[i + 1]];
      if piece == [] { LexIs(i + 1); }
      forall j | starts[i] < j < starts[i + 1] ensures raw[j].kind == TK_NL { assert raw[j] == piece[1..][j - starts[i] - 1]; }
    }

    /** The last token that was scanned: the one before the cursor in the text, or a newline that was ignored behind it. */
    lemma PrevIs()
      requires Loose() && cur > 0 && toks[cur - 1].gap != Separator && toks[cur - 1].kind != TK_NL && toks[cur - 1].kind != TK_EOF
      ensures prevtok == toks[cur - 1].kind || (prevtok == TK_NL && toks[cur - 1].gap == Newlines)
      ensures toks[cur - 1].gap == Tight ==> Valid()
    {
      LexIs(cur - 1);
      PieceAt(cur - 1);
      assert raw[starts[cur - 1]].kind != TK_NL;
    }

    /** The same for a separator that is not left out. */
    lemma PrevSeparator()
      requires Valid() && cur > 0 && toks[cur - 1].gap == Separator && (Kind(cur - 1) == TK_NL || Kind(cur - 1) == TK_SEMI)
      ensures prevtok == TK_NL || prevtok == TK_SEMI
    {
      PieceAt(cur - 1);
    }

    lemma LastIs()
      requires Layout()
      ensures |toks| > 0 && Kind(|toks| - 1) == TK_EOF
    {}

    lemma KindIs(i: nat, t: Token)
      requires Lex(i) == Plain(t)
      ensures Kind(i) == t.kind
    {}

    lemma Pending()
      requires Loose()
      ensures Curtok() == Kind(cur) || Curtok() == TK_NL
    {}

    method Havetok(tk: int) returns (b: bool)
      requires Loose() && tk != TK_EOF && (toks[cur].gap == Separator && Curtok() == tk ==> tk != TK_RBRACE)
      modifies this`pos, this`cur, this`prevtok
      ensures b == (old(Curtok()) == tk) && pos == old(pos) + if b then 1 else 0
      ensures Shifts(if b && old(Valid()) then 1 else 0)
      ensures old(Valid()) && (!b || toks[old(cur)].gap == Tight) ==> Valid()
    {
      if Curtok() != tk { return false; }
      Scan();
      return true;
    }

    method Expect(tk: int)
      requires Valid() && Curtok() == tk != TK_EOF && (toks[cur].gap == Separator ==> tk != TK_RBRACE)
      modifies this`pos, this`cur, this`prevtok
      ensures Shifts(1) && (toks[old(cur)].gap == Tight ==> Valid())
    {
      var _ := Havetok(tk);
    }

    method Gencd(op: int)
      requires Loose()
      modifies this`code, this`zcodeLast
      ensures Adds([op], [])
    {
      code := code + [op];
      zcodeLast := |code| - 1;
    }

    method Gen2cd(op: int, n: int)
      requires Loose()
      modifies this`code, this`zcodeLast
      ensures Adds([op, n], [])
    {
      code := code + [op];
      code := code + [n];
      zcodeLast := |code| - 1;
    }

    method MakeLiteral(v: Value) returns (slot: int)
      requires Loose()
      modifies this`lits
      ensures Adds([], [v]) && slot == |old(lits)|
    {
      slot := |lits|;
      lits := lits + [v];
    }

    /** Skips exactly the newlines at the cursor; if a newline was the separator of two statements, it is consumed like the ignored ones. */
    method OptionalNl()
      requires Loose() && (Kind(cur) == TK_NL ==> toks[cur].gap == Separator && Kind(cur + 1) != TK_NL)
      modifies this`pos, this`cur, this`prevtok
      ensures old(pos) <= pos < |raw| && Ignored(old(pos), pos) && Curtok() != TK_NL
      ensures Moves(if Kind(old(cur)) == TK_NL then 1 else 0)
    {
      var more := Havetok(TK_NL);
      while more
        invariant old(pos) <= pos < |raw| && Ignored(old(pos), pos)
        invariant cur >= old(cur) && Shifts(cur - old(cur)) && (!more ==> Curtok() != TK_NL)
        invariant cur > old(cur) ==> cur == old(cur) + 1 && Kind(old(cur)) == TK_NL
        decreases |raw| - pos, more
      {
        more := Havetok(TK_NL);
      }
    }

    method HaveComma() returns (b: bool)
      requires Valid() && (Curtok() == TK_COMMA ==> Kind(cur + 1) != TK_NL)
      modifies this`pos, this`cur, this`prevtok
      ensures b == (old(Curtok()) == TK_COMMA)
      ensures Moves(if b then 1 else 0)
    {
      b := Havetok(TK_COMMA);
      if b { OptionalNl(); }
    }

    // ---------- expressions ----------

    /** tok can follow an expression parsed down to binding power c. */
    ghost predicate Follows(tok: int, c: int) {
      !CatStart(tok) && !IsAsgn(tok) && Getlbp(tok) <= c
    }

    /** Rewrites the last emitted push of a variable into a push of a reference to it. */
    method ConvertPushToReference(ghost base: seq<int>, ghost slot: int)
      requires Valid() && code == base + [TK_VAR, slot] && |base| > 0
      modifies this`code
      ensures Valid() && code == base + [OP_VARREF, slot]
    {
      code := code[zcodeLast - 1 := OP_VARREF];
    }

    method VarRef()
      requires Valid() && Curtok() == TK_VAR && toks[cur].gap == Tight
      modifies this
      ensures Emits(1, [TK_VAR, Lex(old(cur)).id], [], {Lex(old(cur)).id})
    {
      var slot := raw[pos].id;
      Scan();
      CheckSetScalar(slot);
      Gen2cd(TK_VAR, slot);
    }

    /** Marks a variable as a scalar. */
    method CheckSetScalar(slot: int)
      modifies this`scalars
      ensures scalars == old(scalars) + {slot}
    {
      scalars := scalars + {slot};
    }

    /** A lone variable as an argument, which may yet turn out to be an array: it is pushed, but not marked. */
    method LoneArgument()
      requires Valid() && Curtok() == TK_VAR && toks[cur].gap == Tight
      modifies this
      ensures Emits(1, [TK_VAR, Lex(old(cur)).id], [], {})
    {
      Gen2cd(TK_VAR, raw[pos].id);
      Scan();
    }

    ghost predicate OperandReady(x: Expr, paren: bool)
      reads this
    {
      && At(cur, OperandText(x, paren))
      && (!paren ==> !Infix(x) && !x.Asgn?)
      && (!paren ==>
            var next := Kind(cur + |Bare(x)|);
            if x.Var? then !IsStep(next) else Follows(next, Closes(x)))
    }

    /** Parses one operand; -1 tells the caller it was a variable, a possible assignment target. */
    method Primary(ghost x: Expr, ghost paren: bool) returns (st: int)
      requires Valid() && OperandReady(x, paren)
      modifies this
      ensures Emits(|OperandText(x, paren)|, CodeE(x, |old(lits)|), LitsE(x), UsesE(x))
      ensures st == if x.Var? && !paren then -1 else 0
      decreases ESize(x), if paren then 1 else 0, 2
    {
      hide Layout, Ignored, At, Print, ClosesIn, ESize, Getlbp, CatStart, PrintArgs, Getrbp, CodeArgs, LitsArgs, UsesArgs;
      OperandFirst(x, paren);
      AtHead(cur, OperandText(x, paren));
      var tok := Curtok();
      st := 0;
      if tok == TK_VAR {
        st := VariableOperand(x);
      } else if tok == TK_NUMBER {
        var slot := MakeLiteral(Numeric(raw[pos].num));
        Gen2cd(TK_NUMBER, slot);
        Scan();
      } else if tok == TK_FUNC {
        FunctionCall(x);
      } else if IsUnary(tok) {
        UnaryPrefix(tok, x);
      } else if IsStep(tok) {
        AtSecond(cur, Bare(x));
        Scan();
        VarRef();
        ConvertPushToReference(old(code), x.slot);
        Gencd(if tok == TK_INCR then OP_PREINCR else OP_PREDECR);
      } else {
        st := Grouping(x);
      }
    }

    /** A variable, with the postfix operator that may follow it. */
    method VariableOperand(ghost x: Expr) returns (st: int)
      requires Valid() && OperandReady(x, false) && Curtok() == TK_VAR && (x.Var? || (x.IncDec? && !x.pre))
      modifies this
      ensures Emits(|Bare(x)|, CodeE(x, |old(lits)|), LitsE(x), UsesE(x))
      ensures st == if x.Var? then -1 else 0
    {
      AtHead(cur, Bare(x));
      if x.IncDec? { AtSecond(cur, Bare(x)); }
      VarRef();
      if IsStep(Curtok()) {
        ConvertPushToReference(old(code), x.slot);
        Gencd(Curtok());
        Scan();
      } else {
        return -1;
      }
      st := 0;
    }

    /** Prefix `!`, `-`, `+`; the last is compiled as two negations. */
    method UnaryPrefix(tok: int, ghost x: Expr)
      requires Valid() && x.Un? && x.uop == tok && OperandReady(x, false)
      modifies this
      ensures Emits(|Bare(x)|, CodeE(x, |old(lits)|), LitsE(x), UsesE(x))
      decreases ESize(x), 0, 1
    {
      hide Layout, Ignored, At, Print, ClosesIn;
      ghost var k := |lits|;
      AtHead(cur, Bare(x));
      AtCat(cur, [Op(tok)], Print(x.arg, Getlbp(TK_NOT)));
      Scan();
      Expr(Getlbp(TK_NOT), x.arg);
      if tok == TK_NOT {
        Gencd(TK_NOT);
      } else {
        Gencd(OP_NEGATE);
      }
      if tok == TK_PLUS {
        Gencd(OP_NEGATE);
      }
      assert code == old(code) + (CodeE(x.arg, k) + CodeUn(tok));
    }

    /** A parenthesised expression. */
    method Grouping(ghost x: Expr) returns (st: int)
      requires Valid() && At(cur, Paren(Bare(x)))
      modifies this
      ensures Emits(|Paren(Bare(x))|, CodeE(x, |old(lits)|), LitsE(x), UsesE(x)) && st == 0
      decreases ESize(x), 1, 1
    {
      hide Layout, Ignored, At, Bare, CodeE, LitsE, UsesE, Print, ClosesIn, ESize;
      PrintZero(x);
      AtCat(cur, [Op(TK_LPAREN)] + Bare(x), [Op(TK_RPAREN)]);
      AtCat(cur, [Op(TK_LPAREN)], Bare(x));
      Scan();
      var numExprs := 0;
      var more := true;
      while more
        invariant Valid() && SameContext()
        invariant if more then Moves(1) && numExprs == 0
                  else Emits(1 + |Bare(x)|, CodeE(x, |old(lits)|), LitsE(x), UsesE(x)) && numExprs == 1
        decreases more
      {
        Expr(0, x);
        numExprs := numExprs + 1;
        more := HaveComma();
      }
      Expect(TK_RPAREN);
      return if numExprs > 1 then numExprs else 0;
    }

    /** Call of a user function: frame placeholders, arguments, then the call itself. */
    method FunctionCall(ghost x: Expr)
      requires Valid() && x.Call? && At(cur, Bare(x))
      modifies this
      ensures Emits(|Bare(x)|, CodeE(x, |old(lits)|), LitsE(x), UsesE(x))
      decreases ESize(x), 0, 1
    {
      hide Layout, Ignored, At, PrintArgs, Print, CodeArgs, LitsArgs, UsesArgs;
      ghost var k := |lits|;
      CallTokens(x, cur);
      Gen2cd(OP_PREPCALL, raw[pos].id);
      Scan();
      Expect(TK_LPAREN);
      var numArgs := 0;
      ArgsFirst(x.args);
      if Curtok() == TK_RPAREN {
        Scan();
      } else {
        numArgs := CallArgs(x.args, x);
      }
      Gen2cd(TK_FUNC, numArgs);
      Assoc(old(code) + [OP_PREPCALL, x.fn], CodeArgs(x.args, k), [TK_FUNC, |x.args|]);
      Assoc(old(code), [OP_PREPCALL, x.fn], CodeArgs(x.args, k) + [TK_FUNC, |x.args|]);
    }

    /** Where the parts of a call stand, up to its first argument. */
    lemma CallTokens(x: Expr, p: nat)
      requires x.Call? && At(p, Bare(x))
      ensures var rest := PrintArgs(x.args) + [Op(TK_RPAREN)]; |Bare(x)| == 2 + |rest| && At(p + 2, rest) && |rest| > 0
      ensures Lex(p) == Lexeme(TK_FUNC, x.fn, ZERO) && Kind(p + 1) == TK_LPAREN && p + 2 < |toks| && toks[p].gap == Tight && toks[p + 1].gap == Tight
      ensures var k := Kind(p + 2); toks[p + 2].gap == Tight && (k == TK_RPAREN <==> x.args == [])
    {
      hide Layout, Ignored, At, PrintArgs, Print;
      var rest := PrintArgs(x.args) + [Op(TK_RPAREN)];
      ArgsFirst(x.args);
      AtHead(p, Bare(x));
      AtCat(p, [Token(TK_FUNC, x.fn, ZERO, Tight), Op(TK_LPAREN)], rest);
      AtCat(p, [Token(TK_FUNC, x.fn, ZERO, Tight)], [Op(TK_LPAREN)]);
      AtHead(p + 2, rest);
    }

    /** The arguments of a call, up to and including the closing parenthesis. */
    method CallArgs(ghost args: seq<Expr>, ghost x: Expr) returns (numArgs: int)
      requires Valid() && args != [] && ASize(args) < ESize(x) && At(cur, PrintArgs(args) + [Op(TK_RPAREN)])
      modifies this
      ensures numArgs == |args|
      ensures Emits(|PrintArgs(args)| + 1, CodeArgs(args, |old(lits)|), LitsArgs(args), UsesArgs(args))
      decreases ASize(args), 0, 5
    {
      hide Layout, Ignored, Print, PrintArgs, CodeE, LitsE, UsesE, CodeArgs, LitsArgs, UsesArgs, ASize, ESize;
      numArgs := 0;
      ghost var rest := args;
      var more := true;
      while more
        invariant Valid() && SameContext() && numArgs == |args| - |rest|
        invariant more <==> rest != []
        invariant ASize(rest) <= ASize(args)
        invariant At(cur, PrintArgs(rest) + [Op(TK_RPAREN)])
        invariant cur + |PrintArgs(rest)| == old(cur) + |PrintArgs(args)|
        invariant lits + LitsArgs(rest) == old(lits) + LitsArgs(args) && scalars + UsesArgs(rest) == old(scalars) + UsesArgs(args)
        invariant code + CodeArgs(rest, |lits|) == old(code) + CodeArgs(args, |old(lits)|)
        decreases |rest|
      {
        ArgsUnfold(rest, |lits|);
        more := FunctionArg(rest, x);
        numArgs := numArgs + 1;
        rest := rest[1..];
      }
      ArgsFirst(rest);
      AtHead(cur, [Op(TK_RPAREN)]);
      Expect(TK_RPAREN);
    }

    /** One argument and the comma after it; a lone variable is pushed without going through Expr. */
    method FunctionArg(ghost args: seq<Expr>, ghost x: Expr) returns (more: bool)
      requires Valid() && args != [] && At(cur, PrintArgs(args) + [Op(TK_RPAREN)])
      requires ASize(args) < ESize(x)
      modifies this
      ensures more == (|args| > 1)
      ensures Emits(|PrintArgs(args)| - |PrintArgs(args[1..])|, CodeE(args[0], |old(lits)|), LitsE(args[0]), UsesArg(args[0]))
      ensures At(cur, PrintArgs(args[1..]) + [Op(TK_RPAREN)])
      decreases ASize(args), 0, 4
    {
      hide Layout, Ignored, Print, Bare, PrintArgs, ClosesIn, CodeE, LitsE, UsesE, ESize, ASize, Getlbp, CatStart;
      ArgsUnfold(args, 0);
      ArgTokens(args, cur);
      CloserFollows(ClosesIn(args[0], 0));
      PrintZero(args[0]);
      if args[0].Var? { VariableArgument(args[0], cur); }
      if Curtok() == TK_VAR && (raw[pos + 1].kind == TK_COMMA || raw[pos + 1].kind == TK_RPAREN) {
        LoneVariable(args[0], cur);
        LoneArgument();
      } else {
        Expr(0, args[0]);
      }
      more := HaveComma();
    }

    lemma CloserFollows(c: int)
      requires c >= 0
      ensures Follows(TK_COMMA, c) && Follows(TK_RPAREN, c) && Follows(TK_TERNELSE, c)
      ensures Follows(TK_SEMI, c) && Follows(TK_NL, c) && Follows(TK_RBRACE, c)
    {}

    /** An argument that is a variable is told by its one token. */
    lemma VariableArgument(e: Expr, p: nat)
      requires e.Var? && At(p, Print(e, 0))
      ensures |Print(e, 0)| == 1 && Kind(p) == TK_VAR
    {
      AtHead(p, Print(e, 0));
    }

    /** The text of a first argument, and what stands after it. */
    lemma ArgTokens(args: seq<Expr>, p: nat)
      requires args != [] && At(p, PrintArgs(args) + [Op(TK_RPAREN)])
      ensures |Print(args[0], 0)| > 0 && At(p, Print(args[0], 0)) && ClosesIn(args[0], 0) >= 0
      ensures toks[p].gap == Tight && starts[p + 1] == starts[p] + 1 < |raw|
      ensures ArgEnd(args, p + |Print(args[0], 0)|)
      ensures |PrintArgs(args)| == |Print(args[0], 0)| + |PrintArgs(args[1..])| + if |args| > 1 then 1 else 0
    {
      hide Layout, Ignored, Lex, At, ArgEnd, Print, Bare, ClosesIn, Closes, PrintArgs, Getlbp, CatStart;
      var first, close := Print(args[0], 0), [Op(TK_RPAREN)];
      PrintFirst(args[0], 0);
      ArgsText(args, close);
      if |args| > 1 {
        var rest := PrintArgs(args[1..]) + close;
        AtCat(p, first, [Op(TK_COMMA)] + rest);
        MoreArgs(args, p + |first|);
      } else {
        ArgsFirst(args[1..]);
        assert PrintArgs(args[1..]) + close == close;
        AtCat(p, first, close);
        LastArg(args, p + |first|);
      }
      NextAfter(p, first);
    }

    lemma NextAfter(p: nat, s: seq<Token>)
      requires At(p, s) && |s| > 0 && s[0].gap == Tight && ExprStart(s[0].kind)
      ensures toks[p].gap == Tight && starts[p + 1] == starts[p] + 1 < |raw|
    {
      hide Ignored;
      AtHead(p, s);
      PieceAt(p);
    }

    lemma MoreArgs(args: seq<Expr>, p: nat)
      requires |args| > 1 && At(p, [Op(TK_COMMA)] + (PrintArgs(args[1..]) + [Op(TK_RPAREN)]))
      ensures ArgEnd(args, p)
    {
      hide Layout, Ignored, At, PrintArgs;
      var rest := PrintArgs(args[1..]) + [Op(TK_RPAREN)];
      ArgsFirst(args[1..]);
      AtCat(p, [Op(TK_COMMA)], rest);
      AtHead(p + 1, rest);
    }

    lemma LastArg(args: seq<Expr>, p: nat)
      requires |args| == 1 && At(p, [Op(TK_RPAREN)]) && PrintArgs(args[1..]) + [Op(TK_RPAREN)] == [Op(TK_RPAREN)]
      ensures ArgEnd(args, p)
    {
      hide PrintArgs;
      AtHead(p, [Op(TK_RPAREN)]);
    }

    /** The first argument ends at p: a comma and the other arguments follow, or the closing parenthesis. */
    ghost predicate ArgEnd(args: seq<Expr>, p: nat)
      requires args != []
    {
      && p + 1 < |toks|
      && Kind(p) == (if |args| > 1 then TK_COMMA else TK_RPAREN)
      && (|args| > 1 ==> Kind(p + 1) != TK_NL)
      && At(p + (if |args| > 1 then 1 else 0), PrintArgs(args[1..]) + [Op(TK_RPAREN)])
    }

    lemma AtSecond(p: nat, s: seq<Token>)
      requires At(p, s) && |s| > 1
      ensures toks[p + 1] == s[1] && (s[1].gap != Separator ==> Lex(p + 1) == Plain(s[1]))
    {
      assert toks[p..p + |s|][1] == s[1];
      LexIs(p + 1);
    }

    /** A printed expression that is a variable token followed by `,` or `)` is just that variable. */
    lemma LoneVariable(e: Expr, p: nat)
      requires At(p, Print(e, 0)) && |Print(e, 0)| > 0 && Kind(p) == TK_VAR
      requires Kind(p + 1) == TK_COMMA || Kind(p + 1) == TK_RPAREN
      ensures e == Var(Lex(p).id) && |Print(e, 0)| == 1 && LitsE(e) == []
      ensures forall k :: CodeE(e, k) == [TK_VAR, Lex(p).id]
    {
      BareFirst(e);
      AtHead(p, Bare(e));
      if !e.Var? {
        VarThenOp(e);
        AtSecond(p, Bare(e));
      }
    }

    method BinaryOp(optor: int, ghost e: Expr)
      requires Valid() && Infix(e) && optor == OpOf(e) && At(cur, Tail(e))
      requires Follows(Kind(cur + |Tail(e)|), Closes(e))
      modifies this
      ensures Emits(|Tail(e)|, CodeTail(e, |old(lits)|), LitsTail(e), UsesTail(e))
      decreases ESize(e), 0, 1
    {
      hide Layout, Ignored, Tail, CodeTail, LitsTail, UsesTail, ESize, Closes, Getlbp, CatStart;
      var rbp := Getrbp(optor);
      TailFirst(e);
      AtHead(cur, Tail(e));
      if optor != TK_CAT { Scan(); }
      if IsLogic(optor) {
        BinaryLogic(optor, rbp, e, old(cur));
      } else if optor == TK_TERNIF {
        BinaryTernary(optor, rbp, e, old(cur));
      } else {
        BinaryPlain(optor, rbp, e, old(cur));
      }
    }

    /** The cursor stands just after the operator of e, whose tail begins at start. */
    ghost predicate AfterOperator(optor: int, rbp: int, e: Expr, start: nat)
      reads this
    {
      && Loose() && (!IsLogic(optor) ==> Valid()) && Infix(e) && optor == OpOf(e) && rbp == Getrbp(optor)
      && cur == start + 1 && At(start, Tail(e))
      && Follows(Kind(start + |Tail(e)|), Closes(e))
    }

    /** Arithmetic and comparison: right operand, then the operator itself. */
    method BinaryPlain(optor: int, rbp: int, ghost e: Expr, ghost start: nat)
      requires AfterOperator(optor, rbp, e, start) && !IsLogic(optor) && optor != TK_TERNIF
      modifies this
      ensures Emits(|Tail(e)| - 1, CodeTail(e, |old(lits)|), LitsTail(e), UsesTail(e))
      decreases ESize(e), 0, 0
    {
      hide Layout, Ignored, At, Print, Bare, CodeE, LitsE, UsesE, Closes, ClosesIn, Tail, CodeTail, LitsTail, UsesTail, Getlbp, Getrbp, CatStart, ESize;
      RightParts(e, |lits|);
      AtCat(start, [Op(optor)], Print(e.r, rbp));
      Expr(rbp, e.r);
      Gencd(optor);
    }

    /** `&&` and `||`: jump over the right operand, its length patched in once it is known. */
    method BinaryLogic(optor: int, rbp: int, ghost e: Expr, ghost start: nat)
      requires AfterOperator(optor, rbp, e, start) && IsLogic(optor)
      modifies this
      ensures Emits(|Tail(e)| - 1, CodeTail(e, |old(lits)|), LitsTail(e), UsesTail(e))
      decreases ESize(e), 0, 0
    {
      hide Layout, Ignored, At, Print, Bare, CodeE, LitsE, UsesE, Closes, ClosesIn, Tail, CodeTail, LitsTail, UsesTail, Getlbp, Getrbp, CatStart, ESize;
      RightParts(e, |lits|);
      ghost var cr := CodeE(e.r, |lits|);
      RightTokens(e, rbp, start);
      OptionalNl();
      Gen2cd(optor, -1);
      LogicOperand(rbp, e);
      PatchJump(old(code), optor, cr + [OP_NOTNOT], |cr| + 1);
    }

    /** The right operand, the truth value it leaves, and the jump over both. */
    method LogicOperand(rbp: int, ghost e: Expr)
      requires Valid() && e.Bin? && rbp >= 0 && At(cur, Print(e.r, rbp))
      requires Follows(Kind(cur + |Print(e.r, rbp)|), ClosesIn(e.r, rbp))
      modifies this
      ensures Valid() && SameContext() && cur == old(cur) + |Print(e.r, rbp)| && lits == old(lits) + LitsE(e.r)
      ensures scalars == old(scalars) + UsesE(e.r)
      ensures var cr := CodeE(e.r, |old(lits)|) + [OP_NOTNOT]; code == (old(code) + cr)[|old(code)| - 1 := |cr|]
      decreases ESize(e.r), 2, 0
    {
      hide Layout, Ignored, At, Print, Bare, CodeE, LitsE, UsesE, Closes, ClosesIn, Getlbp, Getrbp, CatStart, ESize;
      var cdx := zcodeLast;
      ghost var cr := CodeE(e.r, |lits|);
      Expr(rbp, e.r);
      Gencd(OP_NOTNOT);
      Assoc(old(code), cr, [OP_NOTNOT]);
      code := code[cdx := zcodeLast - cdx];
    }

    lemma RightTokens(e: Expr, rbp: int, start: nat)
      requires e.Bin? && At(start, Tail(e)) && rbp == Getrbp(e.op)
      ensures At(start + 1, Print(e.r, rbp)) && Kind(start + 1) != TK_NL && |Tail(e)| == 1 + |Print(e.r, rbp)|
    {
      hide Layout, At, Print, Getrbp;
      PrintFirst(e.r, rbp);
      AtCat(start, [Op(e.op)], Print(e.r, rbp));
      AtHead(start + 1, Print(e.r, rbp));
    }

    /** `?:`: both jump lengths are patched in after the branches they skip. */
    method BinaryTernary(optor: int, rbp: int, ghost e: Expr, ghost start: nat)
      requires AfterOperator(optor, rbp, e, start) && optor == TK_TERNIF
      modifies this
      ensures Emits(|Tail(e)| - 1, CodeTail(e, |old(lits)|), LitsTail(e), UsesTail(e))
      decreases ESize(e), 0, 0
    {
      hide Layout, Ignored, At, Print, Bare, CodeE, LitsE, UsesE, Closes, ClosesIn, Tail, CodeTail, LitsTail, UsesTail, Getlbp, Getrbp, CatStart, ESize;
      TernaryParts(e, |lits|);
      ghost var ct, cf := CodeE(e.t, |lits|), CodeE(e.f, |lits| + |LitsE(e.t)|);
      TernaryTokens(e, start);
      CloserFollows(ClosesIn(e.t, 0));
      Gen2cd(optor, -1);
      var cdx := zcodeLast;
      Expr(0, e.t);
      Expect(TK_TERNELSE);
      Gen2cd(TK_TERNELSE, -1);
      code := code[cdx := zcodeLast - cdx];
      ElseOperand(rbp, e);
      PatchTwo(old(code), optor, ct, TK_TERNELSE, cf);
    }

    /** The operand behind `:`, and the jump over it. */
    method ElseOperand(rbp: int, ghost e: Expr)
      requires Valid() && e.Cond? && rbp >= 0 && At(cur, Print(e.f, rbp))
      requires Follows(Kind(cur + |Print(e.f, rbp)|), ClosesIn(e.f, rbp))
      modifies this
      ensures Valid() && SameContext() && cur == old(cur) + |Print(e.f, rbp)| && lits == old(lits) + LitsE(e.f)
      ensures scalars == old(scalars) + UsesE(e.f)
      ensures var cf := CodeE(e.f, |old(lits)|); code == (old(code) + cf)[|old(code)| - 1 := |cf|]
      decreases ESize(e.f), 2, 0
    {
      hide Layout, Ignored, At, Print, Bare, CodeE, LitsE, UsesE, Closes, ClosesIn, Getlbp, Getrbp, CatStart, ESize;
      var cdx := zcodeLast;
      Expr(rbp, e.f);
      code := code[cdx := zcodeLast - cdx];
    }

    lemma TernaryTokens(e: Expr, start: nat)
      requires e.Cond? && At(start, Tail(e))
      ensures At(start + 1, Print(e.t, 0))
      ensures At(start + 1 + |Print(e.t, 0)|, [Op(TK_TERNELSE)])
      ensures toks[start + 1 + |Print(e.t, 0)|] == Op(TK_TERNELSE) && Kind(start + 1 + |Print(e.t, 0)|) == TK_TERNELSE
      ensures At(start + 2 + |Print(e.t, 0)|, Print(e.f, Getrbp(TK_TERNIF)))
    {
      hide Layout, At, Print, Getrbp;
      var tt, tf := Print(e.t, 0), Print(e.f, Getrbp(TK_TERNIF));
      AtCat(start, [Op(TK_TERNIF)], tt + ([Op(TK_TERNELSE)] + tf));
      AtCat(start + 1, tt, [Op(TK_TERNELSE)] + tf);
      AtCat(start + 1 + |tt|, [Op(TK_TERNELSE)], tf);
    }

    /** The target has been compiled as a push; makes it a reference and compiles the assigned value. */
    method Assignment(optor: int, ghost e: Expr, ghost start: nat, ghost base: seq<int>)
      requires Valid() && e.Asgn? && optor == e.aop && cur == start + 1
      requires Curtok() == optor != TK_EOF && toks[cur].gap == Tight && Getrbp(e.aop) >= 0 && |base| > 0
      requires code == base + [TK_VAR, e.slot] && At(start + 2, Print(e.rhs, Getrbp(e.aop)))
      requires Follows(Kind(start + 2 + |Print(e.rhs, Getrbp(e.aop))|), ClosesIn(e.rhs, Getrbp(e.aop)))
      modifies this
      ensures Valid() && SameContext() && cur == start + 2 + |Print(e.rhs, Getrbp(e.aop))|
      ensures code == base + CodeE(e, |old(lits)|) && lits == old(lits) + LitsE(e) && scalars == old(scalars) + UsesE(e.rhs)
      decreases ESize(e), 0, 1
    {
      hide Layout, Ignored, Print, CodeE, LitsE, UsesE, ClosesIn, Getrbp, CatStart, Getlbp;
      AssignCode(e, |lits|);
      ConvertPushToReference(base, e.slot);
      Scan();
      Expr(Getrbp(optor), e.rhs);
      Gencd(optor);
    }

    /** Precedence climbing: consumes exactly the printed text of e and emits its code. */
    method Expr(rbp: int, ghost e: Expr)
      requires Valid() && rbp >= 0 && At(cur, Print(e, rbp))
      requires Follows(Kind(cur + |Print(e, rbp)|), ClosesIn(e, rbp))
      modifies this
      ensures Emits(|Print(e, rbp)|, CodeE(e, |old(lits)|), LitsE(e), UsesE(e))
      decreases ESize(e), if Fits(e, rbp) then 0 else 1, 3
    {
      hide Print, Bare, CodeE, LitsE, UsesE, ESize, Closes, ClosesIn, Spine, SpineToks, Tail, CodeTail, LitsTail, UsesTail, HeadParen, CatStart, Fits, Getlbp, Getrbp, OddAsgnRbp, At, Layout, Ignored;
      PrintCases(e, rbp);
      ClosesInBound(e, rbp);
      ghost var climbs := Fits(e, rbp) && !e.Asgn?;
      ghost var sp, head := [e], !Fits(e, rbp);
      if climbs {
        sp, head := Spine(e), HeadParen(e);
        SpineHead(e);
        SpineEnds(e);
        SpineEntry(e, cur, 0, rbp);
      } else if e.Asgn? && !head {
        AsgnEntry(e, rbp, cur);
        sp := [Var(e.slot)];
      }
      var primSt := Primary(sp[0], head);
      var optor := Curtok();
      if IsAsgn(optor) {
        if primSt < 0 && (rbp <= Getrbp(optor) || OddAsgnRbp(rbp)) {
          AssignCode(e, |lits|);
          Assignment(optor, e, old(cur), old(code));
          return;
        }
      }
      Climb(rbp, optor, climbs, e, old(cur), old(code), |old(lits)|, old(scalars));
    }

    /** Applies operators as long as they bind tighter than rbp; none does when the operand was the whole of e. */
    method Climb(rbp: int, tok: int, ghost climbs: bool, ghost e: Expr, ghost start: nat, ghost base: seq<int>, ghost k: nat, ghost us: set<int>)
      requires Valid() && tok == Curtok() && !CatStart(tok)
      requires if climbs then ClimbReady(rbp, e, start) && k <= |lits| && Climbed(e, 0, start, base, lits[..k], us)
               else Getlbp(tok) <= rbp
      modifies this
      ensures Valid() && SameContext()
      ensures if climbs then
          && cur == start + |Bare(e)| && code == base + CodeE(e, k) && lits == old(lits)[..k] + LitsE(e) && scalars == us + UsesE(e)
        else
          Moves(0)
      decreases ESize(e), 0, 2
    {
      hide Layout, Ignored, At, Print, Bare, CodeE, LitsE, UsesE, ESize, Closes, ClosesIn, Spine, SpineToks, Tail, CodeTail, LitsTail, UsesTail, HeadParen,
           CatStart, Fits, Getlbp, Getrbp, LeftFits;
      ghost var ls := if climbs then lits[..k] else [];
      ghost var i := 0;
      SpineEnds(e);
      if climbs { SpineEntry(e, start, 0, rbp); }
      var optor := tok;
      if CatStart(optor) { optor := TK_CAT; }
      while rbp < Getlbp(optor)
        invariant Valid() && SameContext() && optor == Curtok()
        invariant if climbs then SpineAt(e, i, rbp, start, optor) && Climbed(e, i, start, base, ls, us)
                  else Getlbp(optor) <= rbp && Moves(0)
        decreases |Spine(e)| - i
      {
        SpineStep(e, i);
        SpineEntry(e, start, i + 1, rbp);
        ClimbStep(e, i, |ls|);
        BinaryOp(optor, Spine(e)[i + 1]);
        optor := Curtok();
        if CatStart(optor) { optor := TK_CAT; }
        i := i + 1;
      }
    }

    ghost predicate ClimbReady(rbp: int, e: Expr, start: nat) {
      && Fits(e, rbp) && !e.Asgn? && At(start, Bare(e))
      && Follows(Kind(start + |Bare(e)|), ClosesIn(e, rbp))
    }

    /** The first i + 1 elements of the spine of e have been consumed and compiled. */
    ghost predicate Climbed(e: Expr, i: nat, start: nat, base: seq<int>, ls: seq<Value>, us: set<int>)
      reads this
    {
      && i < |Spine(e)|
      && cur == start + |SpineToks(e, i)|
      && code == base + CodeE(Spine(e)[i], |ls|)
      && lits == ls + LitsE(Spine(e)[i]) && scalars == us + UsesE(Spine(e)[i])
    }

    lemma ClimbStep(e: Expr, i: nat, k: nat)
      requires i + 1 < |Spine(e)|
      ensures var node := Spine(e)[i + 1];
        && Infix(node) && LeftOf(node) == Spine(e)[i]
        && CodeE(node, k) == CodeE(Spine(e)[i], k) + CodeTail(node, k + |LitsE(Spine(e)[i])|)
        && LitsE(node) == LitsE(Spine(e)[i]) + LitsTail(node) && UsesE(node) == UsesE(Spine(e)[i]) + UsesTail(node)
        && |SpineToks(e, i + 1)| == |SpineToks(e, i)| + |Tail(node)|
        && ESize(node) <= ESize(e)
    {
      hide CodeE, CodeTail, LitsE, LitsTail, UsesE, UsesTail, Tail, SpineToks;
      SpineStep(e, i);
      CodeSplit(Spine(e)[i + 1], k);
      UsesSplit(Spine(e)[i + 1]);
    }

    lemma AsgnEntry(e: Expr, rbp: int, p: nat)
      requires e.Asgn? && At(p, Bare(e)) && Fits(e, rbp)
      requires Follows(Kind(p + |Bare(e)|), ClosesIn(e, rbp))
      ensures toks[p] == Token(TK_VAR, e.slot, ZERO, Tight) && toks[p + 1] == Op(e.aop) && |Bare(Var(e.slot))| == 1
      ensures Kind(p) == TK_VAR && Kind(p + 1) == e.aop
      ensures At(p, OperandText(Var(e.slot), false)) && At(p + 2, Print(e.rhs, Getrbp(e.aop)))
      ensures |Bare(e)| == 2 + |Print(e.rhs, Getrbp(e.aop))| && ESize(e.rhs) < ESize(e) && ESize(Var(e.slot)) < ESize(e)
      ensures Follows(Kind(p + |Bare(e)|), ClosesIn(e.rhs, Getrbp(e.aop)))
      ensures Getrbp(e.aop) >= 0 && (rbp <= Getrbp(e.aop) || OddAsgnRbp(rbp))
    {
      hide Print;
      AtCat(p, [Token(TK_VAR, e.slot, ZERO, Tight), Op(e.aop)], Print(e.rhs, Getrbp(e.aop)));
      AtCat(p, [Token(TK_VAR, e.slot, ZERO, Tight)], [Op(e.aop)]);
    }

    /** tok, the token after the first i + 1 spine elements, continues the climb exactly if any remain. */
    ghost predicate SpineAt(e: Expr, i: nat, rbp: int, start: nat, tok: int)
    {
      var sp := Spine(e);
      && i < |sp|
      && start + |SpineToks(e, i)| < |toks|
      && (i + 1 < |sp| ==>
            && Infix(sp[i + 1]) && tok == OpOf(sp[i + 1]) && rbp < Getlbp(tok)
            && At(start + |SpineToks(e, i)|, Tail(sp[i + 1])))
      && (i + 1 == |sp| ==> Getlbp(tok) <= rbp)
    }

    lemma AtPrefix(p: nat, a: seq<Token>, s: seq<Token>)
      requires At(p, s) && |a| <= |s| && s[..|a|] == a
      ensures At(p, a)
    {
      assert s == a + s[|a|..];
      AtCat(p, a, s[|a|..]);
    }

    lemma SpineEntry(e: Expr, start: nat, i: nat, rbp: int)
      requires Fits(e, rbp) && !e.Asgn? && i < |Spine(e)|
      requires At(start, Bare(e)) && Follows(Kind(start + |Bare(e)|), ClosesIn(e, rbp))
      ensures At(start, SpineToks(e, i))
      ensures var tok := Kind(start + |SpineToks(e, i)|);
        && SpineAt(e, i, rbp, start, tok) && !CatStart(tok) && !IsAsgn(tok)
        && (i > 0 || !HeadParen(e) ==> Follows(tok, Closes(Spine(e)[i]))) && !IsStep(tok)
    {
      hide Bare, Tail, Closes, ClosesIn, Spine, SpineToks, HeadParen, Fits, Print, Getlbp, CatStart, ESize;
      SpinePrefix(e, i);
      AtPrefix(start, SpineToks(e, i), Bare(e));
      LowBinding(e, rbp);
      if i + 1 < |Spine(e)| {
        var node := Spine(e)[i + 1];
        SpineStep(e, i);
        SpinePrefix(e, i + 1);
        AtPrefix(start, SpineToks(e, i + 1), Bare(e));
        AtCat(start, SpineToks(e, i), Tail(node));
        TailFirst(node);
      } else {
        SpineEnds(e);
      }
      StepsAreCatStart(Kind(start + |SpineToks(e, i)|));
    }
  }
}
