/** How a printed expression splits into the operand and operator tails that precedence climbing meets. */
module AwkSpine {
  import opened AwkSyntax
  import opened AwkCode
  import opened AwkValues
  import opened Wrappers

  function ESize(e: Expr): (n: nat)
    ensures n > 0
    decreases e, 0
  {
    match e
    case Un(_, x) => 1 + ESize(x)
    case Bin(_, l, r) => 1 + ESize(l) + ESize(r)
    case Cond(c, t, f) => 1 + ESize(c) + ESize(t) + ESize(f)
    case Asgn(_, _, x) => 2 + ESize(x)
    case Call(_, args) => 1 + ASize(args)
    case _ => 1
  }

  function ASize(args: seq<Expr>): nat
    decreases args, 0
  {
    if args == [] then 0 else ESize(args[0]) + ASize(args[1..])
  }

  predicate Infix(e: Expr) { e.Bin? || e.Cond? }

  function OpOf(e: Expr): int
    requires Infix(e)
  {
    if e.Bin? then e.op else TK_TERNIF
  }

  function LeftOf(e: Expr): Expr
    requires Infix(e)
  {
    if e.Bin? then e.l else e.c
  }

  /** Text of an infix tree after its left operand. */
  function Tail(e: Expr): seq<Token>
    requires Infix(e)
  {
    match e
    case Bin(op, _, r) => [Op(op)] + Print(r, Getrbp(op))
    case Cond(_, t, f) =>
      [Op(TK_TERNIF)] + (Print(t, 0) + ([Op(TK_TERNELSE)] + Print(f, Getrbp(TK_TERNIF))))
  }

  /** Code of an infix tree after its left operand; k is the literal count at that point. */
  function CodeTail(e: Expr, k: int): seq<int>
    requires Infix(e)
  {
    match e
    case Bin(op, _, r) =>
      var cr := CodeE(r, k);
      if IsLogic(op) then [op, |cr| + 1] + (cr + [OP_NOTNOT]) else cr + [op]
    case Cond(_, t, f) =>
      var ct, cf := CodeE(t, k), CodeE(f, k + |LitsE(t)|);
      [TK_TERNIF, |ct| + 2] + (ct + ([TK_TERNELSE, |cf|] + cf))
  }

  function LitsTail(e: Expr): seq<Value>
    requires Infix(e)
  {
    if e.Bin? then LitsE(e.r) else LitsE(e.t) + LitsE(e.f)
  }

  /** Slots that an infix tree uses after its left operand. */
  function UsesTail(e: Expr): set<int>
    requires Infix(e)
  {
    if e.Bin? then UsesE(e.r) else UsesE(e.t) + UsesE(e.f)
  }

  lemma UsesSplit(e: Expr)
    requires Infix(e)
    ensures UsesE(e) == UsesE(LeftOf(e)) + UsesTail(e)
  {}

  lemma CodeSplit(e: Expr, k: int)
    requires Infix(e)
    ensures CodeE(e, k) == CodeE(LeftOf(e), k) + CodeTail(e, k + |LitsE(LeftOf(e))|)
    ensures LitsE(e) == LitsE(LeftOf(e)) + LitsTail(e)
  {}

  /** The left spine of e as far as it is printed without parentheses, innermost first. */
  function Spine(e: Expr): (sp: seq<Expr>)
    ensures |sp| > 0 && sp[|sp| - 1] == e
    ensures |sp| > 1 <==> Infix(e)
  {
    if !Infix(e) then [e]
    else (if LeftFits(LeftOf(e), OpOf(e)) then Spine(LeftOf(e)) else [LeftOf(e)]) + [e]
  }

  predicate HeadParen(e: Expr) {
    Infix(e) && (LeftFits(LeftOf(e), OpOf(e)) ==> HeadParen(LeftOf(e)))
  }

  /** Text of the first i + 1 elements of the spine. */
  function SpineToks(e: Expr, i: nat): seq<Token>
    requires i < |Spine(e)|
  {
    if i == 0 && HeadParen(e) then Paren(Bare(Spine(e)[0])) else Bare(Spine(e)[i])
  }

  lemma {:induction false} ClosesBelow(e: Expr)
    requires Infix(e)
    ensures Closes(e) <= Getlbp(OpOf(e))
  {}

  lemma BareSplit(e: Expr)
    requires Infix(e)
    ensures Bare(e) == PrintLeft(LeftOf(e), OpOf(e)) + Tail(e)
  {}

  lemma {:induction false} SpineStep(e: Expr, i: nat)
    requires i + 1 < |Spine(e)|
    ensures var sp := Spine(e);
      && Infix(sp[i + 1]) && LeftOf(sp[i + 1]) == sp[i]
      && SpineToks(e, i + 1) == SpineToks(e, i) + Tail(sp[i + 1])
      && (i > 0 || !HeadParen(e) ==> LeftFits(sp[i], OpOf(sp[i + 1])))
      && Infix(e) && Getlbp(OpOf(sp[i + 1])) >= Getlbp(OpOf(e))
      && ESize(sp[i]) < ESize(sp[i + 1]) <= ESize(e)
  {
    hide Tail;
    var l := LeftOf(e);
    BareSplit(e);
    if LeftFits(l, OpOf(e)) {
      assert Spine(e) == Spine(l) + [e];
      if i + 1 < |Spine(l)| {
        SpineStep(l, i);
        ClosesBelow(l);
        assert Spine(e)[0] == Spine(l)[0] && Spine(e)[i] == Spine(l)[i] && Spine(e)[i + 1] == Spine(l)[i + 1];
        assert SpineToks(e, i) == SpineToks(l, i) && SpineToks(e, i + 1) == SpineToks(l, i + 1);
      } else {
        assert Spine(e)[i] == Spine(l)[|Spine(l)| - 1] == l;
        assert i == 0 ==> !HeadParen(l);
        assert SpineToks(e, i) == PrintLeft(l, OpOf(e));
      }
    }
  }

  lemma {:induction false} SpineHead(e: Expr)
    ensures var x := Spine(e)[0]; ESize(x) <= ESize(e) && (HeadParen(e) ==> ESize(x) < ESize(e))
    ensures !HeadParen(e) ==> !Infix(Spine(e)[0])
    ensures !HeadParen(e) && Infix(e) ==> !Spine(e)[0].Asgn?
  {
    if Infix(e) {
      var l := LeftOf(e);
      if LeftFits(l, OpOf(e)) {
        SpineHead(l);
        assert l.Asgn? ==> Closes(l) < 50;
      }
    }
  }

  lemma {:induction false} SpinePrefix(e: Expr, i: nat)
    requires i < |Spine(e)|
    ensures |SpineToks(e, i)| <= |Bare(e)| && Bare(e)[..|SpineToks(e, i)|] == SpineToks(e, i)
    decreases |Spine(e)| - i
  {
    hide Bare, Spine, HeadParen, Tail;
    SpineEnds(e);
    if i + 1 < |Spine(e)| {
      SpineStep(e, i);
      SpinePrefix(e, i + 1);
      var a, b := SpineToks(e, i), SpineToks(e, i + 1);
      assert b[..|a|] == a;
      assert Bare(e)[..|a|] == Bare(e)[..|b|][..|a|];
    } else {
      assert Bare(e)[..|Bare(e)|] == Bare(e);
    }
  }

  /** Every printed expression starts with a token that can start an expression. */
  lemma {:induction false} BareFirst(e: Expr)
    ensures |Bare(e)| > 0 && ExprStart(Bare(e)[0].kind) && Bare(e)[0].gap == Tight
  {
    if Infix(e) { BareFirst(LeftOf(e)); }
  }

  lemma PrintFirst(e: Expr, rbp: int)
    ensures |Print(e, rbp)| > 0 && ExprStart(Print(e, rbp)[0].kind) && Print(e, rbp)[0].gap == Tight
  {
    BareFirst(e);
  }

  /** A printed expression that begins with a variable token and is more than that variable goes on with
      something other than `,` or `)`. */
  lemma {:induction false} VarThenOp(e: Expr)
    requires Bare(e)[0].kind == TK_VAR && !e.Var?
    ensures |Bare(e)| > 1 && Bare(e)[1].kind != TK_COMMA && Bare(e)[1].kind != TK_RPAREN && Bare(e)[1].gap != Separator
  {
    if Infix(e) && LeftFits(LeftOf(e), OpOf(e)) {
      BareFirst(LeftOf(e));
      if !LeftOf(e).Var? { VarThenOp(LeftOf(e)); }
    }
  }

  /** Text of one operand of the climb: a tree that is not infix, or any tree in parentheses. */
  function OperandText(x: Expr, paren: bool): seq<Token> {
    if paren then Paren(Bare(x)) else Bare(x)
  }

  /** The first token of an operand decides which kind it is. */
  lemma OperandFirst(x: Expr, paren: bool)
    requires !paren ==> !Infix(x) && !x.Asgn?
    ensures var s := OperandText(x, paren);
      && |s| > 0 && s[0].gap == Tight
      && (paren <==> s[0].kind == TK_LPAREN)
      && (!paren ==>
        && (s[0].kind == TK_VAR <==> x.Var? || (x.IncDec? && !x.pre))
        && (s[0].kind == TK_NUMBER <==> x.Num?)
        && (s[0].kind == TK_FUNC <==> x.Call?)
        && (IsUnary(s[0].kind) <==> x.Un?) && (x.Un? ==> s[0].kind == x.uop)
        && (IsStep(s[0].kind) <==> x.IncDec? && x.pre))
  {}

  lemma PrintZero(e: Expr)
    ensures Fits(e, 0) && Print(e, 0) == Bare(e)
  {}

  /** An argument list is told from an empty one by its first token. */
  lemma ArgsFirst(args: seq<Expr>)
    ensures args == [] ==> PrintArgs(args) == [] && LitsArgs(args) == [] && UsesArgs(args) == {}
    ensures args == [] ==> forall k :: CodeArgs(args, k) == []
    ensures args != [] ==> |PrintArgs(args)| > 0 && ExprStart(PrintArgs(args)[0].kind) && PrintArgs(args)[0].gap == Tight
  {
    if args != [] {
      PrintFirst(args[0], 0);
      assert PrintArgs(args)[0] == Print(args[0], 0)[0];
    }
  }

  lemma TailFirst(e: Expr)
    requires Infix(e)
    ensures |Tail(e)| > 0 && Tail(e)[0] == Op(OpOf(e))
    ensures !CatStart(OpOf(e)) && !IsAsgn(OpOf(e)) && OpOf(e) != TK_EOF
  {}

  lemma PrintCases(e: Expr, rbp: int)
    ensures Print(e, rbp) == OperandText(e, !Fits(e, rbp))
  {}

  lemma SpineEnds(e: Expr)
    ensures SpineToks(e, 0) == OperandText(Spine(e)[0], HeadParen(e))
    ensures SpineToks(e, |Spine(e)| - 1) == Bare(e)
  {}

  lemma AssignCode(e: Expr, k: int)
    requires e.Asgn?
    ensures CodeE(Var(e.slot), k) == [TK_VAR, e.slot] && LitsE(Var(e.slot)) == []
    ensures UsesE(Var(e.slot)) == {e.slot} && UsesE(e) == {e.slot} + UsesE(e.rhs)
    ensures CodeE(e, k) == [OP_VARREF, e.slot] + (CodeE(e.rhs, k) + [e.aop]) && LitsE(e) == LitsE(e.rhs)
  {}

  lemma ArgsUnfold(args: seq<Expr>, k: int)
    requires args != []
    ensures CodeArgs(args, k) == CodeE(args[0], k) + CodeArgs(args[1..], k + |LitsE(args[0])|)
    ensures LitsArgs(args) == LitsE(args[0]) + LitsArgs(args[1..]) && UsesArgs(args) == UsesArg(args[0]) + UsesArgs(args[1..])
    ensures ASize(args) == ESize(args[0]) + ASize(args[1..])
  {}

  /** Back-patching the operand of the jump that precedes body. */
  lemma PatchJump(base: seq<int>, op: int, body: seq<int>, v: int)
    ensures (base + [op, -1] + body)[|base| + 1 := v] == base + ([op, v] + body)
  {}

  lemma RightParts(e: Expr, k: int)
    requires e.Bin?
    ensures Tail(e) == [Op(e.op)] + Print(e.r, Getrbp(e.op)) && LitsTail(e) == LitsE(e.r) && UsesTail(e) == UsesE(e.r)
    ensures var cr := CodeE(e.r, k);
      CodeTail(e, k) == if IsLogic(e.op) then [e.op, |cr| + 1] + (cr + [OP_NOTNOT]) else cr + [e.op]
    ensures Closes(e) == ClosesIn(e.r, Getrbp(e.op)) && Getrbp(e.op) >= 0 && ESize(e.r) < ESize(e)
  {
    hide Print, CodeE, LitsE;
  }

  lemma TernaryParts(e: Expr, k: int)
    requires e.Cond?
    ensures Tail(e) == [Op(TK_TERNIF)] + (Print(e.t, 0) + ([Op(TK_TERNELSE)] + Print(e.f, Getrbp(TK_TERNIF))))
    ensures LitsTail(e) == LitsE(e.t) + LitsE(e.f) && UsesTail(e) == UsesE(e.t) + UsesE(e.f)
    ensures var ct, cf := CodeE(e.t, k), CodeE(e.f, k + |LitsE(e.t)|);
      CodeTail(e, k) == [TK_TERNIF, |ct| + 2] + (ct + ([TK_TERNELSE, |cf|] + cf))
    ensures Closes(e) == ClosesIn(e.f, Getrbp(TK_TERNIF)) && Getrbp(TK_TERNIF) >= 0 && Fits(e.t, 0)
    ensures ESize(e.t) < ESize(e) && ESize(e.f) < ESize(e)
    ensures Getlbp(TK_TERNELSE) == 0 && !CatStart(TK_TERNELSE)
  {
    hide Print, CodeE, LitsE;
  }

  /** Every operator of the spine binds tighter than any rbp at which e fits bare. */
  lemma LowBinding(e: Expr, rbp: int)
    requires Fits(e, rbp) && !e.Asgn?
    ensures Infix(e) ==> rbp < Getlbp(OpOf(e))
    ensures ClosesIn(e, rbp) <= rbp && ClosesIn(e, rbp) <= Closes(e)
  {}

  lemma ClosesInBound(e: Expr, rbp: int)
    ensures ClosesIn(e, rbp) <= rbp
  {}

  lemma StepsAreCatStart(tok: int)
    requires !CatStart(tok)
    ensures !IsStep(tok)
  {}

  /** Back-patching the two jumps of a two-way branch: first over a to the code of b, then over b. */
  lemma PatchTwo(base: seq<int>, op0: int, a: seq<int>, op1: int, b: seq<int>)
    ensures var c := (base + [op0, -1] + a + [op1, -1])[|base| + 1 := |a| + 2];
      (c + b)[|c| - 1 := |b|] == base + ([op0, |a| + 2] + (a + ([op1, |b|] + b)))
  {}

  lemma ArgsText(args: seq<Expr>, close: seq<Token>)
    requires args != []
    ensures PrintArgs(args) + close ==
      if |args| == 1 then Print(args[0], 0) + close
      else Print(args[0], 0) + ([Op(TK_COMMA)] + (PrintArgs(args[1..]) + close))
    ensures |PrintArgs(args)| ==
      if |args| == 1 then |Print(args[0], 0)| else |Print(args[0], 0)| + 1 + |PrintArgs(args[1..])|
  {
    hide Print;
    var first := Print(args[0], 0);
    if |args| > 1 {
      var rest := PrintArgs(args[1..]);
      assert PrintArgs(args) == first + ([Op(TK_COMMA)] + rest);
      hide PrintArgs;
      Assoc(first, [Op(TK_COMMA)] + rest, close);
      Assoc([Op(TK_COMMA)], rest, close);
    }
  }
}
