/** Values of variables, and which variables a program uses as scalars. */
module AwkValues {
  import opened AwkSyntax
  import opened Wrappers

  /** A number, an uninitialised scalar, or a variable of which only its use will tell whether it is an array. */
  datatype Value = Numeric(d: Double) | Uninit | Untyped

  const NUMERIC_ZERO := Numeric(ZERO)

  /** Floating-point operations; any total functions will do. The tokens name the operators. */
  datatype Fpu = Fpu(
    arith: (int, Double, Double) -> Double,
    compare: (int, Double, Double) -> bool,
    negate: Double -> Double,
    truth: Double -> bool)

  /** Zero is false and one is true. */
  predicate Sane(fp: Fpu) { fp.truth(ONE) && !fp.truth(ZERO) }

  /** What becomes of a value that is used as a scalar. */
  function Scalar(v: Value): Value { if v.Untyped? then Uninit else v }

  function AsNumber(v: Value): Double { if v.Numeric? then v.d else ZERO }

  function Logical(b: bool): Value { Numeric(if b then ONE else ZERO) }

  function Truth(fp: Fpu, v: Value): bool { v.Numeric? && fp.truth(v.d) }

  function Arith(fp: Fpu, op: int, a: Value, b: Value): Value { Numeric(fp.arith(op, AsNumber(a), AsNumber(b))) }

  function Negate(fp: Fpu, a: Value): Value { Numeric(fp.negate(AsNumber(a))) }

  /** Two operands are compared as numbers if one is a number and the other is a number or an uninitialised scalar.
      Otherwise they are compared as strings; what is not a number is then empty, and the text of a number is not. */
  function Compare(fp: Fpu, op: int, a: Value, b: Value): bool {
    if AsNumbers(a, b) then fp.compare(op, AsNumber(a), AsNumber(b)) else Holds(op, TextLength(a) - TextLength(b))
  }

  predicate AsNumbers(a: Value, b: Value) { (a.Numeric? && !b.Untyped?) || (b.Numeric? && !a.Untyped?) }

  /** Whether an operator accepts two strings of which the first is less, equal or greater, as the sign of c says. */
  predicate Holds(op: int, c: int) {
    if op == TK_LT then c < 0
    else if op == TK_LE then c <= 0
    else if op == TK_NE then c != 0
    else if op == TK_EQ then c == 0
    else if op == TK_GT then c > 0
    else c >= 0
  }

  /** 0 for the empty string, 1 for the text of a number; texts are only compared with the empty string. */
  function TextLength(v: Value): int { if v.Numeric? then 1 else 0 }

  // ---------- variables used as scalars ----------

  /** Slots that e uses other than by passing them on as a whole argument. */
  function UsesE(e: Expr): set<int>
    decreases e, 0
  {
    match e
    case Num(_) => {}
    case Var(slot) => {slot}
    case IncDec(_, _, slot) => {slot}
    case Un(_, x) => UsesE(x)
    case Bin(_, l, r) => UsesE(l) + UsesE(r)
    case Cond(c, t, f) => UsesE(c) + (UsesE(t) + UsesE(f))
    case Asgn(_, slot, x) => {slot} + UsesE(x)
    case Call(_, args) => UsesArgs(args)
  }

  function UsesArg(e: Expr): set<int>
    decreases e, 1
  {
    if e.Var? then {} else UsesE(e)
  }

  function UsesArgs(args: seq<Expr>): set<int>
    decreases args, 0
  {
    if args == [] then {} else UsesArg(args[0]) + UsesArgs(args[1..])
  }

  function UsesOpt(e: Option<Expr>): set<int> { if e.Some? then UsesE(e.value) else {} }

  function UsesS(s: Stmt): set<int>
    decreases s, 0
  {
    match s
    case SExpr(e) => UsesE(e)
    case SEmpty => {}
    case SBreak => {}
    case SContinue => {}
    case SReturn(e) => UsesOpt(e)
    case SBlock(b) => UsesB(b)
    case SIf(c, t) => UsesE(c) + UsesS(t)
    case SIfElse(c, t, f) => UsesE(c) + (UsesS(t) + UsesS(f))
    case SWhile(c, b) => UsesE(c) + UsesS(b)
    case SDo(b, c) => UsesS(b) + UsesE(c)
    case SFor(i, t, u, b) => UsesOpt(i) + (UsesOpt(t) + (UsesOpt(u) + UsesS(b)))
  }

  function UsesB(b: seq<Stmt>): set<int>
    decreases b, 0
  {
    if b == [] then {} else UsesS(b[0]) + UsesB(b[1..])
  }

  /** Parameters have negative slots, and all other variables positive ones. */
  function LocalSlots(slots: set<int>): set<int> { set x | x in slots && x < 0 }

  function GlobalSlots(slots: set<int>): set<int> { set x | x in slots && x >= 0 }

  /** What a variable holds before anything is assigned to it. */
  function Fresh(scalars: set<int>, slot: int): Value { if slot in scalars then Uninit else Untyped }

  // ---------- when the difference does not show ----------

  /** Zeros compare as equal strings do. */
  ghost predicate ZerosEqual(fp: Fpu) { forall op :: IsCompare(op) ==> fp.compare(op, ZERO, ZERO) == Holds(op, 0) }

  /** Scalars compare as numbers do, whether anything has been assigned to them or not. */
  lemma ScalarsCompare(fp: Fpu, op: int, a: Value, b: Value)
    requires IsCompare(op) && ZerosEqual(fp) && !a.Untyped? && !b.Untyped?
    ensures Compare(fp, op, a, b) == fp.compare(op, AsNumber(a), AsNumber(b))
  {}
}
