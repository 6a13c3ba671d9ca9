/** The zcode each construct of the subset is translated to, as a function of its tree. */
module AwkCode {
  import opened AwkSyntax
  import opened AwkValues
  import opened Wrappers

  const OP_VARREF := 97
  const OP_DROP := 101
  const OP_NOTNOT := 103
  const OP_PREINCR := 104
  const OP_PREDECR := 105
  const OP_NEGATE := 108
  const OP_JUMP := 109
  const OP_PREPCALL := 112
  const OP_QUIT := 117
  const TK_EXIT := 60

  // ---------- literal table contributions, in emission order ----------

  function LitsE(e: Expr): seq<Value>
    decreases e, 0
  {
    match e
    case Num(d) => [Numeric(d)]
    case Var(_) => []
    case IncDec(_, _, _) => []
    case Un(_, x) => LitsE(x)
    case Bin(_, l, r) => LitsE(l) + LitsE(r)
    case Cond(c, t, f) => LitsE(c) + (LitsE(t) + LitsE(f))
    case Asgn(_, _, x) => LitsE(x)
    case Call(_, args) => LitsArgs(args)
  }

  function LitsArgs(args: seq<Expr>): seq<Value>
    decreases args, 0
  {
    if args == [] then [] else LitsE(args[0]) + LitsArgs(args[1..])
  }

  function LitsOpt(e: Option<Expr>): seq<Value> {
    if e.Some? then LitsE(e.value) else []
  }

  function LitsS(s: Stmt): seq<Value>
    decreases s, 0
  {
    match s
    case SExpr(e) => LitsE(e)
    case SEmpty => []
    case SBreak => []
    case SContinue => []
    case SReturn(e) => if e.Some? then LitsE(e.value) else [NUMERIC_ZERO]
    case SBlock(b) => LitsB(b)
    case SIf(c, t) => LitsE(c) + LitsS(t)
    case SIfElse(c, t, f) => LitsE(c) + (LitsS(t) + LitsS(f))
    case SWhile(c, b) => LitsE(c) + LitsS(b)
    case SDo(b, c) => LitsS(b) + LitsE(c)
    case SFor(i, t, u, b) => LitsOpt(i) + (LitsOpt(t) + (LitsOpt(u) + LitsS(b)))
  }

  function LitsB(b: seq<Stmt>): seq<Value>
    decreases b, 0
  {
    if b == [] then [] else LitsS(b[0]) + LitsB(b[1..])
  }

  // ---------- expressions: k is the literal-table length when emission starts ----------

  function CodeE(e: Expr, k: int): seq<int>
    decreases e, 0
  {
    match e
    case Num(_) => [TK_NUMBER, k]
    case Var(slot) => [TK_VAR, slot]
    case IncDec(pre, sop, slot) =>
      [OP_VARREF, slot, if !pre then sop else if sop == TK_INCR then OP_PREINCR else OP_PREDECR]
    case Un(op, x) => CodeE(x, k) + CodeUn(op)
    case Bin(op, l, r) =>
      var cl, cr := CodeE(l, k), CodeE(r, k + |LitsE(l)|);
      if IsLogic(op) then cl + ([op, |cr| + 1] + (cr + [OP_NOTNOT])) else cl + (cr + [op])
    case Cond(c, t, f) =>
      var cc, ct := CodeE(c, k), CodeE(t, k + |LitsE(c)|);
      var cf := CodeE(f, k + |LitsE(c)| + |LitsE(t)|);
      cc + ([TK_TERNIF, |ct| + 2] + (ct + ([TK_TERNELSE, |cf|] + cf)))
    case Asgn(op, slot, x) => [OP_VARREF, slot] + (CodeE(x, k) + [op])
    case Call(fn, args) => [OP_PREPCALL, fn] + (CodeArgs(args, k) + [TK_FUNC, |args|])
  }

  function CodeUn(op: UnTok): seq<int> {
    if op == TK_NOT then [TK_NOT] else if op == TK_MINUS then [OP_NEGATE] else [OP_NEGATE, OP_NEGATE]
  }

  function CodeArgs(args: seq<Expr>, k: int): seq<int>
    decreases args, 0
  {
    if args == [] then [] else CodeE(args[0], k) + CodeArgs(args[1..], k + |LitsE(args[0])|)
  }

  /** An optional `for` clause, compiled as a simple statement. */
  function CodeSimple(e: Option<Expr>, k: int): seq<int> {
    if e.Some? then CodeE(e.value, k) + [OP_DROP] else []
  }

  // ---------- statements ----------

  /** Jump targets of break and continue relative to the fragment's first cell, and the operand of return. */
  datatype Dest = Dest(brk: int, cont: int, nparms: int)

  function Shift(d: Dest, n: int): Dest { Dest(d.brk - n, d.cont - n, d.nparms) }

  function CodeS(s: Stmt, k: int, d: Dest): seq<int>
    decreases s, 0
  {
    match s
    case SExpr(e) => CodeE(e, k) + [OP_DROP]
    case SEmpty => []
    case SBreak => [TK_BREAK, d.brk - 2]
    case SContinue => [TK_CONTINUE, d.cont - 2]
    case SReturn(e) => (if e.Some? then CodeE(e.value, k) else [TK_NUMBER, k]) + [TK_RETURN, d.nparms]
    case SBlock(b) => CodeB(b, k, d)
    case SIf(c, t) =>
      var cc := CodeE(c, k);
      var ct := CodeS(t, k + |LitsE(c)|, Shift(d, |cc| + 2));
      cc + ([TK_IF, |ct|] + ct)
    case SIfElse(c, t, f) =>
      var cc := CodeE(c, k);
      var ct := CodeS(t, k + |LitsE(c)|, Shift(d, |cc| + 2));
      var cf := CodeS(f, k + |LitsE(c)| + |LitsS(t)|, Shift(d, |cc| + |ct| + 4));
      cc + ([TK_IF, |ct| + 2] + (ct + ([TK_ELSE, |cf|] + cf)))
    case SWhile(c, b) =>
      var cc := CodeE(c, k);
      var cb := CodeS(b, k + |LitsE(c)|, Dest(-2, -(|cc| + 4), d.nparms));
      cc + ([TK_WHILE, 2, OP_JUMP, |cb| + 2] + (cb + [OP_JUMP, -(|cc| + |cb| + 6)]))
    case SDo(b, c) =>
      var cb := CodeS(b, k, Dest(-2, -4, d.nparms));
      var cc := CodeE(c, k + |LitsS(b)|);
      [OP_JUMP, 4, OP_JUMP, |cb| + 2, OP_JUMP, |cb| + |cc| + 2] + (cb + (cc + [TK_WHILE, -(|cb| + |cc| + 2)]))
    case SFor(i, t, u, b) =>
      var ci := CodeSimple(i, k);
      var k1 := k + |LitsOpt(i)|;
      var ct := if t.Some? then CodeE(t.value, k1) else [];
      var k2 := k1 + |LitsOpt(t)|;
      var cu := CodeSimple(u, k2);
      var cb := CodeS(b, k2 + |LitsOpt(u)|, Dest(-(4 + |cu|), -(2 + |cu|), d.nparms));
      ci + (ct + ([if t.Some? then TK_WHILE else OP_JUMP, 4 + |cu|, OP_JUMP, 4 + |cu| + |cb|] +
        (cu + ([OP_JUMP, -(|ct| + |cu| + 6)] + (cb + [OP_JUMP, -(|cu| + |cb| + 4)])))))
  }

  function CodeB(b: seq<Stmt>, k: int, d: Dest): seq<int>
    decreases b, 0
  {
    if b == [] then []
    else
      var c0 := CodeS(b[0], k, d);
      c0 + CodeB(b[1..], k + |LitsS(b[0])|, Shift(d, |c0|))
  }

  // ---------- functions ----------

  function FuncLits(body: seq<Stmt>): seq<Value> { LitsB(body) + [Uninit] }

  function FuncCode(fn: int, nparms: int, body: seq<Stmt>, k: int): seq<int> {
    [TK_FUNCTION, fn] + (CodeB(body, k, Dest(0, 0, nparms)) + [TK_NUMBER, k + |LitsB(body)|, TK_RETURN, nparms])
  }
}
