/** Tokens, binding powers, trees and concrete syntax of the modelled awk subset. */
module AwkSyntax {
  import opened Wrappers

  /** An IEEE double, known only by its bit pattern; arithmetic on it is a parameter of the model. */
  datatype Double = Double(bits: bv64)

  const ZERO := Double(0)
  const ONE := Double(0x3FF0_0000_0000_0000)

  // Token and opcode numbers share one enumeration in the source.
  const TK_EOF := 1
  const TK_NL := 3
  const TK_VAR := 4
  const TK_NUMBER := 5
  const TK_FUNC := 8
  const TK_SEMI := 10
  const TK_COMMA := 11
  const TK_LPAREN := 14
  const TK_RPAREN := 15
  const TK_LBRACE := 16
  const TK_RBRACE := 17
  const TK_INCR := 19
  const TK_DECR := 20
  const TK_POW := 21
  const TK_NOT := 22
  const TK_MUL := 23
  const TK_DIV := 24
  const TK_MOD := 25
  const TK_PLUS := 26
  const TK_MINUS := 27
  const TK_CAT := 28
  const TK_LT := 29
  const TK_LE := 30
  const TK_NE := 31
  const TK_EQ := 32
  const TK_GT := 33
  const TK_GE := 34
  const TK_AND := 37
  const TK_OR := 38
  const TK_TERNIF := 39
  const TK_TERNELSE := 40
  const TK_POWASGN := 41
  const TK_MODASGN := 42
  const TK_MULASGN := 43
  const TK_DIVASGN := 44
  const TK_ADDASGN := 45
  const TK_SUBASGN := 46
  const TK_ASGN := 47
  const TK_BEGIN := 51
  const TK_IF := 53
  const TK_ELSE := 54
  const TK_WHILE := 55
  const TK_FOR := 56
  const TK_DO := 57
  const TK_BREAK := 58
  const TK_CONTINUE := 59
  const TK_FUNCTION := 61
  const TK_RETURN := 62
  const TK_GETLINE := 68
  const TK_SUBSTR := 95

  /** A scanned token: its number, the variable slot or function number it names, its numeric value. */
  datatype Lexeme = Lexeme(kind: int, id: int, num: Double)

  // ---------- layout ----------

  /** What may stand behind a token of a printed text: the next token, or newlines. A separator is itself a semicolon or a newline. */
  datatype Gap = Tight | Newlines | Separator

  /** A token of a printed text. */
  datatype Token = Token(kind: int, id: int, num: Double, gap: Gap)

  /** Tokens behind which newlines are ignored wherever they stand. */
  predicate SkipsNewlines(kind: int) {
    kind == TK_COMMA || kind == TK_AND || kind == TK_OR || kind == TK_LBRACE || kind == TK_RBRACE || kind == TK_DO || kind == TK_ELSE
  }

  function Plain(t: Token): Lexeme { Lexeme(t.kind, t.id, t.num) }

  function Op(kind: int): Token { Token(kind, 0, ZERO, if SkipsNewlines(kind) then Newlines else Tight) }

  /** A right parenthesis or semicolon behind which newlines are ignored. */
  function Soft(kind: int): Token { Token(kind, 0, ZERO, Newlines) }

  /** What ends a statement. */
  const SEPARATOR := Token(TK_SEMI, 0, ZERO, Separator)

  predicate AllNewlines(ls: seq<Lexeme>) { forall j :: 0 <= j < |ls| ==> ls[j].kind == TK_NL }

  /** What can be scanned for t when `next` follows: a separator may be left out in front of `}`. */
  predicate Stands(t: Token, piece: seq<Lexeme>, next: Token) {
    if piece == [] then t.gap == Separator && next == Op(TK_RBRACE)
    else
      && (if t.gap == Separator then piece[0].kind == TK_SEMI || piece[0].kind == TK_NL else piece[0] == Plain(t))
      && (if t.gap == Tight then |piece| == 1 else AllNewlines(piece[1..]))
  }

  /** raw is one of the ways to lay out the text toks, whose tokens begin at the given positions. */
  ghost predicate Spaced(raw: seq<Lexeme>, toks: seq<Token>, starts: seq<nat>) {
    && |toks| == |starts| > 0 && toks[|toks| - 1] == Op(TK_EOF)
    && starts[0] == 0 && |raw| == starts[|toks| - 1] + 1 && raw[|raw| - 1] == Plain(Op(TK_EOF))
    && forall i :: 0 <= i < |toks| - 1 ==> Laid(raw, toks, starts, i)
  }

  predicate Laid(raw: seq<Lexeme>, toks: seq<Token>, starts: seq<nat>, i: nat)
    requires i + 1 < |toks| == |starts|
  {
    starts[i] <= starts[i + 1] < |raw| && Stands(toks[i], raw[starts[i]..starts[i + 1]], toks[i + 1])
  }

  // ---------- binding powers ----------

  function Getlbp(tok: int): int {
    if tok < 0 then 0
    else if TK_VAR <= tok <= 9 then 250
    else if tok == 12 then 210
    else if tok == TK_LPAREN then 200
    else if tok == 18 then 190
    else if tok == TK_INCR || tok == TK_DECR then 180
    else if tok == TK_POW then 170
    else if tok == TK_NOT then 160
    else if TK_MUL <= tok <= TK_MOD then 150
    else if TK_PLUS <= tok <= TK_MINUS then 140
    else if tok == TK_CAT then 130
    else if TK_LT <= tok <= TK_GE then 110
    else if 35 <= tok <= 36 then 100
    else if tok == TK_AND then 80
    else if tok == TK_OR then 70
    else if tok == TK_TERNIF then 60
    else if TK_POWASGN <= tok <= TK_ASGN then 50
    else if tok == 49 then 120
    else if tok == 50 then 90
    else if TK_GETLINE <= tok <= TK_SUBSTR then 240
    else 0
  }

  /** Assignment, ternary and power operators are right associative. */
  function Getrbp(tok: int): int {
    var lbp := Getlbp(tok);
    if lbp <= 60 || lbp == 170 then lbp - 1 else lbp
  }

  predicate IsAsgn(tok: int) { TK_POWASGN <= tok <= TK_ASGN }

  predicate IsLogic(tok: int) { tok == TK_AND || tok == TK_OR }

  predicate IsCompare(tok: int) { TK_LT <= tok <= TK_GE }

  predicate IsArith(tok: int) {
    tok == TK_POW || TK_MUL <= tok <= TK_MINUS
  }

  predicate IsBin(tok: int) { IsArith(tok) || IsCompare(tok) || IsLogic(tok) }

  predicate IsUnary(tok: int) { tok == TK_NOT || tok == TK_PLUS || tok == TK_MINUS }

  predicate IsStep(tok: int) { tok == TK_INCR || tok == TK_DECR }

  /** Tokens that make an adjacent expression a concatenation operand. */
  predicate CatStart(tok: int) {
    tok == 0 || TK_VAR <= tok <= 9 || tok == 18 || tok == TK_NOT || IsStep(tok) || tok == TK_LPAREN || tok >= TK_GETLINE
  }

  /** Tokens that can start an expression statement. */
  predicate ExprStart(tok: int) {
    tok == 0 || TK_VAR <= tok <= 9 || tok == 18 || IsUnary(tok) || IsStep(tok) || tok == TK_LPAREN
    || tok == TK_GETLINE || 83 <= tok <= TK_SUBSTR
  }

  /** Right binding powers at which a bare assignment is accepted as an operand. */
  predicate OddAsgnRbp(rbp: int) {
    rbp == 59 || rbp == 60 || rbp == 70 || rbp == 80 || rbp == 100 || rbp == 110 || rbp == 0
  }

  predicate StmtEnd(tok: int) { tok == TK_NL || tok == TK_SEMI || tok == TK_RBRACE || tok == 0 }

  type BinTok = t: int | IsBin(t) witness TK_PLUS
  type UnTok = t: int | IsUnary(t) witness TK_NOT
  type AsgnTok = t: int | IsAsgn(t) witness TK_ASGN
  type StepTok = t: int | IsStep(t) witness TK_INCR

  // ---------- trees ----------

  datatype Expr =
    | Num(d: Double)
    | Var(slot: int)
    | IncDec(pre: bool, sop: StepTok, slot: int)
    | Un(uop: UnTok, arg: Expr)
    | Bin(op: BinTok, l: Expr, r: Expr)
    | Cond(c: Expr, t: Expr, f: Expr)
    | Asgn(aop: AsgnTok, slot: int, rhs: Expr)
    | Call(fn: int, args: seq<Expr>)

  datatype Stmt =
    | SExpr(e: Expr)
    | SEmpty
    | SBreak
    | SContinue
    | SReturn(ret: Option<Expr>)
    | SBlock(body: seq<Stmt>)
    | SIf(cond: Expr, thn: Stmt)
    | SIfElse(cond: Expr, thn: Stmt, els: Stmt)
    | SWhile(cond: Expr, loop: Stmt)
    | SDo(loop: Stmt, cond: Expr)
    | SFor(init: Option<Expr>, test: Option<Expr>, incr: Option<Expr>, loop: Stmt)

  /** A top-level item; only BEGIN rules and function definitions are modelled. */
  datatype Item = Begin(body: seq<Stmt>) | Function(fn: int, nparms: nat, body: seq<Stmt>)

  // ---------- concrete syntax, parenthesised only where binding powers demand it ----------

  const OPEN_ENDED := 1000

  /** Whether e can stand bare where the parser runs expr(rbp). */
  predicate Fits(e: Expr, rbp: int) {
    match e
    case Bin(op, _, _) => rbp < Getlbp(op)
    case Cond(_, _, _) => rbp < Getlbp(TK_TERNIF)
    case Asgn(op, _, _) => rbp <= Getrbp(op) || OddAsgnRbp(rbp)
    case _ => true
  }

  /** The least right binding power still pending at the right edge of the bare text of e. */
  function Closes(e: Expr): (c: int)
    ensures c >= 0
    decreases e, 0
  {
    match e
    case Un(_, x) => ClosesIn(x, Getlbp(TK_NOT))
    case Bin(op, _, r) => ClosesIn(r, Getrbp(op))
    case Cond(_, _, f) => ClosesIn(f, Getrbp(TK_TERNIF))
    case Asgn(op, _, x) => ClosesIn(x, Getrbp(op))
    case _ => OPEN_ENDED
  }

  function ClosesIn(e: Expr, rbp: int): (c: int)
    ensures rbp >= 0 ==> c >= 0
    decreases e, 1
  {
    if Fits(e, rbp) && Closes(e) < rbp then Closes(e) else rbp
  }

  /** Whether l can stand bare to the left of operator op. */
  predicate LeftFits(l: Expr, op: int) { Closes(l) >= Getlbp(op) }

  function Paren(s: seq<Token>): seq<Token> { [Op(TK_LPAREN)] + s + [Op(TK_RPAREN)] }

  function Bare(e: Expr): seq<Token>
    decreases e, 0
  {
    match e
    case Num(d) => [Token(TK_NUMBER, 0, d, Tight)]
    case Var(slot) => [Token(TK_VAR, slot, ZERO, Tight)]
    case IncDec(pre, sop, slot) =>
      if pre then [Op(sop), Token(TK_VAR, slot, ZERO, Tight)] else [Token(TK_VAR, slot, ZERO, Tight), Op(sop)]
    case Un(op, x) => [Op(op)] + Print(x, Getlbp(TK_NOT))
    case Bin(op, l, r) => PrintLeft(l, op) + ([Op(op)] + Print(r, Getrbp(op)))
    case Cond(c, t, f) =>
      PrintLeft(c, TK_TERNIF) + ([Op(TK_TERNIF)] + (Print(t, 0) + ([Op(TK_TERNELSE)] + Print(f, Getrbp(TK_TERNIF)))))
    case Asgn(op, slot, x) => [Token(TK_VAR, slot, ZERO, Tight), Op(op)] + Print(x, Getrbp(op))
    case Call(fn, args) =>
      [Token(TK_FUNC, fn, ZERO, Tight), Op(TK_LPAREN)] + (PrintArgs(args) + [Op(TK_RPAREN)])
  }

  function Print(e: Expr, rbp: int): seq<Token>
    decreases e, 1
  {
    if Fits(e, rbp) then Bare(e) else Paren(Bare(e))
  }

  function PrintLeft(l: Expr, op: int): seq<Token>
    decreases l, 1
  {
    if LeftFits(l, op) then Bare(l) else Paren(Bare(l))
  }

  function PrintArgs(args: seq<Expr>): seq<Token>
    decreases args, 0
  {
    if args == [] then []
    else if |args| == 1 then Print(args[0], 0)
    else Print(args[0], 0) + ([Op(TK_COMMA)] + PrintArgs(args[1..]))
  }

  /** The bare text of s ends in `}` or `;`. */
  predicate Terminated(s: Stmt) {
    match s
    case SBlock(_) | SEmpty => true
    case SIf(_, t) => Terminated(t)
    case SIfElse(_, _, f) => Terminated(f)
    case SWhile(_, b) => Terminated(b)
    case SFor(_, _, _, b) => Terminated(b)
    case _ => false
  }

  /** The right edge of s is a `do` loop, behind which a newline is taken for part of it. */
  predicate DoEdge(s: Stmt) {
    match s
    case SDo(_, _) => true
    case SIfElse(_, _, f) => DoEdge(f)
    case SWhile(_, b) => DoEdge(b)
    case SFor(_, _, _, b) => DoEdge(b)
    case _ => false
  }

  /** The right edge of s is an `if` that a following `else` would attach to. */
  predicate Dangling(s: Stmt) {
    match s
    case SIf(_, _) => true
    case SIfElse(_, _, f) => Dangling(f)
    case SWhile(_, b) => Dangling(b)
    case SFor(_, _, _, b) => Dangling(b)
    case _ => false
  }

  function PrintOpt(e: Option<Expr>): seq<Token> {
    if e.Some? then Print(e.value, 0) else []
  }

  /** A condition in parentheses; newlines are ignored behind it, unless it ends a statement. */
  function Cond0(c: Expr, gap: Gap): seq<Token> {
    [Op(TK_LPAREN)] + (Print(c, 0) + [Token(TK_RPAREN, 0, ZERO, gap)])
  }

  /** Text of a statement, without the separator that follows an unterminated one. */
  function PrintStmt(s: Stmt): seq<Token>
    decreases s, 0
  {
    match s
    case SExpr(e) => Print(e, 0)
    case SEmpty => [Soft(TK_SEMI)]
    case SBreak => [Op(TK_BREAK)]
    case SContinue => [Op(TK_CONTINUE)]
    case SReturn(e) => [Op(TK_RETURN)] + PrintOpt(e)
    case SBlock(b) => [Op(TK_LBRACE)] + (PrintStmts(b) + [Op(TK_RBRACE)])
    case SIf(c, t) => [Op(TK_IF)] + (Cond0(c, Newlines) + PrintStmt(t))
    case SIfElse(c, t, f) => [Op(TK_IF)] + (Cond0(c, Newlines) + (PrintSep(t) + ([Op(TK_ELSE)] + PrintStmt(f))))
    case SWhile(c, b) => [Op(TK_WHILE)] + (Cond0(c, Newlines) + PrintStmt(b))
    case SDo(b, c) => [Op(TK_DO)] + (PrintSep(b) + ([Op(TK_WHILE)] + Cond0(c, Tight)))
    case SFor(i, t, u, b) =>
      [Op(TK_FOR), Op(TK_LPAREN)] + (PrintOpt(i) + ([FirstSemi(t)] + (PrintOpt(t) + ([Soft(TK_SEMI)] +
        (PrintOpt(u) + ([Soft(TK_RPAREN)] + PrintStmt(b)))))))
  }

  /** The semicolon before a `for` condition: newlines are ignored behind it if there is one. */
  function FirstSemi(test: Option<Expr>): Token { if test.Some? then Soft(TK_SEMI) else Op(TK_SEMI) }

  function Sep(s: Stmt): seq<Token> { if Terminated(s) then [] else [SEPARATOR] }

  function PrintSep(s: Stmt): seq<Token>
    decreases s, 1
  {
    PrintStmt(s) + Sep(s)
  }

  function PrintStmts(b: seq<Stmt>): seq<Token>
    decreases b, 0
  {
    if b == [] then [] else PrintSep(b[0]) + PrintStmts(b[1..])
  }

  function PrintParms(n: nat): seq<Token> {
    if n == 0 then []
    else if n == 1 then [Token(TK_VAR, -1, ZERO, Tight)]
    else PrintParms(n - 1) + [Op(TK_COMMA), Token(TK_VAR, -(n as int), ZERO, Tight)]
  }

  function PrintItem(it: Item): seq<Token> {
    match it
    case Begin(b) => [Op(TK_BEGIN)] + PrintStmt(SBlock(b))
    case Function(fn, n, b) =>
      [Op(TK_FUNCTION), Token(TK_FUNC, fn, ZERO, Tight), Op(TK_LPAREN)] + (PrintParms(n) + ([Soft(TK_RPAREN)] + PrintStmt(SBlock(b))))
  }

  /** Newlines and semicolons, which may stand between items. */
  predicate Blank(gap: seq<Token>) { forall t :: t in gap ==> t == Op(TK_NL) || t == Op(TK_SEMI) }

  /** Text of a program whose items are separated, preceded and followed by the given gaps. */
  function PrintItems(items: seq<Item>, gaps: seq<seq<Token>>): seq<Token>
    requires |gaps| == |items| + 1
  {
    if items == [] then gaps[0] else gaps[0] + (PrintItem(items[0]) + PrintItems(items[1..], gaps[1..]))
  }

  // ---------- placement of jumps ----------

  /** break and continue only inside a loop, return only inside a function; otherwise the source reports an error.
      The then-branch before an `else` may not end in an else-less `if`: that needs a block, which is a node. */
  predicate Placed(s: Stmt, inLoop: bool, inFunc: bool)
    decreases s, 0
  {
    match s
    case SBreak => inLoop
    case SContinue => inLoop
    case SReturn(_) => inFunc
    case SBlock(b) => PlacedB(b, inLoop, inFunc)
    case SIf(_, t) => Placed(t, inLoop, inFunc)
    case SIfElse(_, t, f) => !Dangling(t) && Placed(t, inLoop, inFunc) && Placed(f, inLoop, inFunc)
    case SWhile(_, b) => Placed(b, true, inFunc)
    case SDo(b, _) => Placed(b, true, inFunc)
    case SFor(_, _, _, b) => Placed(b, true, inFunc)
    case _ => true
  }

  predicate PlacedB(b: seq<Stmt>, inLoop: bool, inFunc: bool)
    decreases b, 0
  {
    b == [] || (Placed(b[0], inLoop, inFunc) && PlacedB(b[1..], inLoop, inFunc))
  }
}
