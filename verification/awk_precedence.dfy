/** Grouping of operators, told from the groups in which the language lists them and not from the parser's binding powers. */
module AwkPrecedence {
  import opened AwkSyntax

  /** The groups of operators with two or three operands, from the loosest to the tightest. Prefix operators come just below `^`. */
  function Group(op: int): int {
    if op == TK_TERNIF then 1
    else if op == TK_OR then 2
    else if op == TK_AND then 3
    else if op == TK_LT || op == TK_LE || op == TK_NE || op == TK_EQ || op == TK_GT || op == TK_GE then 4
    else if op == TK_PLUS || op == TK_MINUS then 5
    else if op == TK_MUL || op == TK_DIV || op == TK_MOD then 6
    else if op == TK_POW then 8
    else 0
  }

  /** Nothing can come between the parts of such an expression. */
  predicate IsPrimary(e: Expr) { e.Num? || e.Var? || e.IncDec? || e.Call? }

  /** The text of e ends in an assignment, whose right side would take in any operator that follows. */
  predicate EndsOpen(e: Expr) {
    match e
    case Asgn(_, _, _) => true
    case Bin(op, _, r) => StandsRight(r, op) && EndsOpen(r)
    case Cond(_, _, f) => EndsOpen(f)
    case _ => false
  }

  /** e needs no parentheses to the left of op: all operators but `^` group to the left. */
  predicate StandsLeft(e: Expr, op: int) {
    IsPrimary(e) || (op != TK_POW && (e.Un? || (e.Bin? && Group(e.op) >= Group(op) && !EndsOpen(e))))
  }

  /** e needs no parentheses to the right of op. An assignment may stand behind a logical or comparison operator. */
  predicate StandsRight(e: Expr, op: int) {
    || IsPrimary(e) || e.Un?
    || (e.Bin? && (Group(e.op) > Group(op) || e.op == op == TK_POW))
    || (e.Asgn? && 2 <= Group(op) <= 4)
  }

  /** e needs no parentheses behind a prefix operator: only `^` is tighter. */
  predicate StandsPrefixed(e: Expr) { IsPrimary(e) || e.Un? || (e.Bin? && e.op == TK_POW) }

  function Wrapped(s: seq<Token>, bare: bool): seq<Token> { if bare then s else [Op(TK_LPAREN)] + s + [Op(TK_RPAREN)] }

  function Name(slot: int): Token { Token(TK_VAR, slot, ZERO, Tight) }

  /** The text of e with parentheses only where the groups call for them. */
  function Text(e: Expr): seq<Token> {
    match e
    case Num(d) => [Token(TK_NUMBER, 0, d, Tight)]
    case Var(slot) => [Name(slot)]
    case IncDec(pre, sop, slot) => if pre then [Op(sop), Name(slot)] else [Name(slot), Op(sop)]
    case Un(op, x) => [Op(op)] + Wrapped(Text(x), StandsPrefixed(x))
    case Bin(op, l, r) => Wrapped(Text(l), StandsLeft(l, op)) + ([Op(op)] + Wrapped(Text(r), StandsRight(r, op)))
    case Cond(c, t, f) =>
      Wrapped(Text(c), StandsLeft(c, TK_TERNIF)) + ([Op(TK_TERNIF)] + (Text(t) + ([Op(TK_TERNELSE)] + Text(f))))
    case Asgn(op, slot, x) => [Name(slot), Op(op)] + Text(x)
    case Call(fn, args) => [Token(TK_FUNC, fn, ZERO, Tight), Op(TK_LPAREN)] + (TextArgs(args) + [Op(TK_RPAREN)])
  }

  function TextArgs(args: seq<Expr>): seq<Token> {
    if args == [] then []
    else if |args| == 1 then Text(args[0])
    else Text(args[0]) + ([Op(TK_COMMA)] + TextArgs(args[1..]))
  }

  // ---------- the parser's tables give the same text ----------

  /** The binding powers of operators, by groups. */
  lemma Powers(op: int)
    requires IsBin(op)
    ensures Getlbp(op) == match Group(op) case 2 => 70 case 3 => 80 case 4 => 110 case 5 => 140 case 6 => 150 case _ => 170
    ensures Group(op) == 8 <==> op == TK_POW
    ensures Getrbp(op) == if op == TK_POW then 169 else Getlbp(op)
    ensures 2 <= Group(op) <= 6 || Group(op) == 8
  {}

  lemma AsgnPower(op: int)
    requires IsAsgn(op)
    ensures Getrbp(op) == 49
  {}

  /** What an expression leaves open at its right edge, told from its groups. */
  predicate EdgeIs(e: Expr) {
    if EndsOpen(e) then Closes(e) == 49
    else if IsPrimary(e) then Closes(e) == OPEN_ENDED
    else if e.Un? then Closes(e) == 160
    else if e.Cond? then Closes(e) == 59
    else if e.op == TK_POW then 160 <= Closes(e) <= 169
    else Closes(e) == Getlbp(e.op)
  }

  lemma FitsRight(e: Expr, op: BinTok)
    ensures Fits(e, Getrbp(op)) <==> StandsRight(e, op)
  {
    Powers(op);
    if e.Bin? { Powers(e.op); } else if e.Asgn? { AsgnPower(e.aop); }
    hide EndsOpen, Closes, Getlbp, Getrbp;
  }

  lemma EdgeBin(e: Expr)
    requires e.Bin? && EdgeIs(e.r)
    ensures EdgeIs(e)
  {
    FitsRight(e.r, e.op);
    Powers(e.op);
    if StandsRight(e.r, e.op) { EdgeCases(e.r, e.op); }
    hide Fits, Getlbp, Getrbp, StandsRight;
    assert Closes(e) == ClosesIn(e.r, Getrbp(e.op));
    assert EndsOpen(e) == (StandsRight(e.r, e.op) && EndsOpen(e.r));
    assert Getrbp(e.op) > 49;
  }

  /** A right operand never closes earlier than its operator, unless it ends in an assignment. */
  lemma EdgeCases(e: Expr, op: BinTok)
    requires EdgeIs(e) && StandsRight(e, op)
    ensures EndsOpen(e) ==> Closes(e) == 49
    ensures !EndsOpen(e) ==> if op == TK_POW then Closes(e) >= 160 else Closes(e) >= Getrbp(op)
    ensures EndsOpen(e) ==> op != TK_POW && !IsArith(op)
  {
    Powers(op);
    if e.Bin? { Powers(e.op); }
    OpenIsLoose(e);
    hide Closes, Getlbp, Getrbp, Group;
  }

  /** What ends in an assignment is loose itself. */
  lemma {:induction false} OpenIsLoose(e: Expr)
    ensures EndsOpen(e) ==> e.Asgn? || e.Cond? || (e.Bin? && !IsArith(e.op))
  {
    if e.Bin? { OpenIsLoose(e.r); }
  }

  lemma EdgeUn(e: Expr)
    requires e.Un? && EdgeIs(e.arg)
    ensures EdgeIs(e)
  {
    OpenIsLoose(e.arg);
    if e.arg.Bin? { Powers(e.arg.op); }
  }

  lemma EdgeTail(e: Expr)
    requires (e.Cond? && EdgeIs(e.f)) || (e.Asgn? && EdgeIs(e.rhs))
    ensures EdgeIs(e)
  {
    FitsElse(e, if e.Cond? then e.f else e.rhs);
    var x := if e.Cond? then e.f else e.rhs;
    FitsAssigned(x, TK_ASGN);
    if e.Asgn? { AsgnPower(e.aop); }
    if x.Bin? { Powers(x.op); }
    hide Fits;
    assert Closes(e) == ClosesIn(x, if e.Cond? then 59 else 49);
  }

  lemma {:induction false} Edge(e: Expr)
    ensures EdgeIs(e)
  {
    match e
    case Un(_, x) => Edge(x); EdgeUn(e);
    case Bin(_, _, r) => Edge(r); EdgeBin(e);
    case Cond(_, _, f) => Edge(f); EdgeTail(e);
    case Asgn(_, _, x) => Edge(x); EdgeTail(e);
    case _ =>
  }

  lemma FitsLeft(e: Expr, op: int)
    requires IsBin(op) || op == TK_TERNIF
    ensures LeftFits(e, op) <==> StandsLeft(e, op)
  {
    Edge(e);
    OpenIsLoose(e);
    if e.Bin? { Powers(e.op); }
    if IsBin(op) { Powers(op); }
    hide Closes, Fits;
  }

  /** The text that the parser takes for a tree is the one that the groups call for. */
  lemma {:induction false} Grouping(e: Expr)
    ensures Print(e, 0) == Text(e)
    decreases e, 1
  {
    SameText(e);
    FitsElse(e, e);
    hide Bare, Text, Fits;
  }

  lemma {:induction false} SameText(e: Expr)
    ensures Bare(e) == Text(e)
    decreases e, 0
  {
    hide Fits, Closes, ClosesIn, Getlbp, Getrbp, EndsOpen, StandsLeft, StandsRight;
    match e
    case Un(_, x) => SameText(x); FitsPrefixed(x);
    case Bin(op, l, r) => SameText(l); SameText(r); FitsLeft(l, op); FitsRight(r, op);
    case Cond(c, t, f) => SameText(c); SameText(t); SameText(f); FitsLeft(c, TK_TERNIF); FitsElse(t, f);
    case Asgn(op, _, x) => SameText(x); FitsAssigned(x, op);
    case Call(_, args) => SameArgs(args);
    case _ =>
  }

  lemma FitsPrefixed(e: Expr)
    ensures Fits(e, Getlbp(TK_NOT)) <==> StandsPrefixed(e)
  {
    if e.Bin? { Powers(e.op); } else if e.Asgn? { AsgnPower(e.aop); }
  }

  lemma FitsElse(t: Expr, f: Expr)
    ensures Fits(t, 0) && Fits(f, Getrbp(TK_TERNIF))
  {
    if t.Bin? { Powers(t.op); }
    if f.Bin? { Powers(f.op); }
  }

  lemma FitsAssigned(e: Expr, op: AsgnTok)
    ensures Fits(e, Getrbp(op))
  {
    AsgnPower(op);
    if e.Bin? { Powers(e.op); } else if e.Asgn? { AsgnPower(e.aop); }
  }

  lemma {:induction false} SameArgs(args: seq<Expr>)
    ensures PrintArgs(args) == TextArgs(args)
    decreases args, 0
  {
    hide Fits, Closes, ClosesIn, Getlbp, Getrbp;
    if args != [] {
      SameText(args[0]);
      FitsElse(args[0], args[0]);
      SameArgs(args[1..]);
    }
  }

  // ---------- what that means for bare operands ----------

  lemma TextOfBin(op: BinTok, l: Expr, r: Expr)
    ensures Text(Bin(op, l, r)) == Wrapped(Text(l), StandsLeft(l, op)) + ([Op(op)] + Wrapped(Text(r), StandsRight(r, op)))
  {}

  /** `a op1 b op2 c` is grouped by the tighter operator, and to the left in a group, except for `^`. */
  lemma Chain(a: Expr, op1: BinTok, b: Expr, op2: BinTok, c: Expr)
    requires IsPrimary(a) && IsPrimary(b) && IsPrimary(c)
    ensures Print(if Group(op1) < Group(op2) || op1 == op2 == TK_POW then Bin(op1, a, Bin(op2, b, c)) else Bin(op2, Bin(op1, a, b), c), 0)
         == Bare(a) + [Op(op1)] + Bare(b) + [Op(op2)] + Bare(c)
  {
    SameText(a); SameText(b); SameText(c);
    Powers(op1); Powers(op2);
    hide Bare, Print, Text, Group;
    Regroup(Text(a), [Op(op1)], Text(b), [Op(op2)], Text(c));
    if Group(op1) < Group(op2) || op1 == op2 == TK_POW {
      Grouping(Bin(op1, a, Bin(op2, b, c)));
      TextOfBin(op1, a, Bin(op2, b, c));
      TextOfBin(op2, b, c);
    } else {
      Grouping(Bin(op2, Bin(op1, a, b), c));
      TextOfBin(op2, Bin(op1, a, b), c);
      TextOfBin(op1, a, b);
      assert !EndsOpen(b) && StandsLeft(Bin(op1, a, b), op2);
    }
  }

  lemma Regroup(x: seq<Token>, o: seq<Token>, y: seq<Token>, p: seq<Token>, z: seq<Token>)
    ensures x + (o + (y + (p + z))) == x + o + y + p + z == (x + (o + y)) + (p + z)
  {}

  lemma TextOfUn(op: UnTok, x: Expr)
    ensures Text(Un(op, x)) == [Op(op)] + Wrapped(Text(x), StandsPrefixed(x))
  {}

  /** A prefix operator takes in `^` and nothing else, and may stand to the right of any operator. */
  lemma PrefixChain(uop: UnTok, a: Expr, op: BinTok, b: Expr)
    requires IsPrimary(a) && IsPrimary(b)
    ensures Print(if op == TK_POW then Un(uop, Bin(op, a, b)) else Bin(op, Un(uop, a), b), 0)
         == [Op(uop)] + Bare(a) + [Op(op)] + Bare(b)
    ensures Print(Bin(op, a, Un(uop, b)), 0) == Bare(a) + [Op(op)] + [Op(uop)] + Bare(b)
  {
    SameText(a); SameText(b);
    hide Bare, Print, Text;
    var x, y, u, o := Text(a), Text(b), [Op(uop)], [Op(op)];
    Grouping(Bin(op, a, Un(uop, b)));
    TextOfBin(op, a, Un(uop, b));
    TextOfUn(uop, b);
    assert x + (o + (u + y)) == x + o + u + y;
    TextOfUn(uop, a);
    TextOfUn(uop, Bin(op, a, b));
    TextOfBin(op, a, b);
    TextOfBin(op, Un(uop, a), b);
    if op == TK_POW {
      Grouping(Un(uop, Bin(op, a, b)));
      assert u + (x + (o + y)) == u + x + o + y;
    } else {
      Grouping(Bin(op, Un(uop, a), b));
      assert (u + x) + (o + y) == u + x + o + y;
    }
  }

  lemma TextOfCond(c: Expr, t: Expr, f: Expr)
    ensures Text(Cond(c, t, f))
         == Wrapped(Text(c), StandsLeft(c, TK_TERNIF)) + ([Op(TK_TERNIF)] + (Text(t) + ([Op(TK_TERNELSE)] + Text(f))))
  {}

  /** `?:` is looser than these operators and groups to the right. */
  lemma CondChain(a: Expr, op: BinTok, b: Expr, c: Expr, d: Expr)
    requires IsPrimary(a) && IsPrimary(b)
    ensures Print(Cond(Bin(op, a, b), c, Cond(a, d, Bin(op, a, b))), 0)
         == Bare(a) + [Op(op)] + Bare(b) + [Op(TK_TERNIF)] + Bare(c) + [Op(TK_TERNELSE)]
            + Bare(a) + [Op(TK_TERNIF)] + Bare(d) + [Op(TK_TERNELSE)] + Bare(a) + [Op(op)] + Bare(b)
  {
    SameText(a); SameText(b); SameText(c); SameText(d);
    hide Bare, Print, Text;
    var l := Bin(op, a, b);
    Grouping(Cond(l, c, Cond(a, d, l)));
    TextOfCond(l, c, Cond(a, d, l));
    TextOfCond(a, d, l);
    TextOfBin(op, a, b);
    Powers(op);
    assert !EndsOpen(b) && StandsLeft(l, TK_TERNIF);
    hide Group;
    RegroupCond(Text(a), [Op(op)], Text(b), [Op(TK_TERNIF)], Text(c), [Op(TK_TERNELSE)], Text(d));
  }

  lemma RegroupCond(u: seq<Token>, o: seq<Token>, v: seq<Token>, q: seq<Token>, w: seq<Token>, k: seq<Token>, x: seq<Token>)
    ensures u + (o + v) + (q + (w + (k + (u + (q + (x + (k + (u + (o + v)))))))))
         == u + o + v + q + w + k + u + q + x + k + u + o + v
  {
    var tail := u + (q + (x + (k + (u + (o + v)))));
    assert tail == u + q + x + k + u + o + v;
    Regroup(u + (o + v), q, w, k, tail);
    assert u + o + v + q + w + k + (u + q + x + k + u + o + v) == u + o + v + q + w + k + u + q + x + k + u + o + v;
  }

  lemma TextOfAsgn(aop: AsgnTok, x: int, e: Expr)
    ensures Text(Asgn(aop, x, e)) == [Name(x)] + [Op(aop)] + Text(e)
  {}

  /** Assignment is the loosest and groups to the right: its right side, whatever that is, needs no parentheses. */
  lemma AsgnChain(aop: AsgnTok, x: int, e: Expr)
    ensures Print(Asgn(aop, x, e), 0) == [Token(TK_VAR, x, ZERO, Tight)] + [Op(aop)] + Bare(e)
  {
    SameText(e);
    Grouping(Asgn(aop, x, e));
    TextOfAsgn(aop, x, e);
    hide Bare, Print, Text;
  }

  /** Behind `&&`, the or operator and comparisons an assignment needs no parentheses; behind arithmetic it does. */
  lemma AsgnInside(a: Expr, op: BinTok, aop: AsgnTok, x: int, e: Expr)
    requires IsPrimary(a)
    ensures var inner := [Token(TK_VAR, x, ZERO, Tight)] + [Op(aop)] + Bare(e);
      Print(Bin(op, a, Asgn(aop, x, e)), 0)
      == Bare(a) + [Op(op)] + if IsArith(op) then [Op(TK_LPAREN)] + inner + [Op(TK_RPAREN)] else inner
  {
    SameText(a); SameText(e);
    Grouping(Bin(op, a, Asgn(aop, x, e)));
    TextOfBin(op, a, Asgn(aop, x, e));
    TextOfAsgn(aop, x, e);
    Powers(op);
    hide Bare, Print, Text;
    assert StandsRight(Asgn(aop, x, e), op) == !IsArith(op);
  }
}
