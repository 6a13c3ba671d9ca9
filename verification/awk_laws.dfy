/** Laws of the language: what operators mean, told without the tables that the meaning and the machine share. */
module AwkLaws {
  import opened AwkSyntax
  import opened AwkSpine
  import opened AwkValues
  import opened AwkSemantics
  import opened Wrappers

  // ---------- assignment ----------

  /** A compound assignment and the operator that it applies. */
  predicate Applies(aop: int, op: int) {
    || (aop == TK_POWASGN && op == TK_POW) || (aop == TK_MODASGN && op == TK_MOD) || (aop == TK_MULASGN && op == TK_MUL)
    || (aop == TK_DIVASGN && op == TK_DIV) || (aop == TK_ADDASGN && op == TK_PLUS) || (aop == TK_SUBASGN && op == TK_MINUS)
  }

  /** `x op= e` is `x = x op e` whenever e leaves x unchanged, whatever else it does. */
  lemma CompoundAssignment(fs: Funcs, fp: Fpu, aop: AsgnTok, op: BinTok, slot: int, e: Expr, env: Env, fuel: nat)
    requires Applies(aop, op) && WfFuncs(fs, |env.globals|)
    requires WfE(e, fs, |env.globals|, |env.locals|) && ValidSlot(slot, |env.globals|, |env.locals|)
    requires var r := Eval(fs, fp, e, env, fuel); r.EOk? ==> Get(r.env, slot) == Get(env, slot)
    ensures WfE(Bin(op, Var(slot), e), fs, |env.globals|, |env.locals|)
    ensures Eval(fs, fp, Asgn(aop, slot, e), env, fuel) == Eval(fs, fp, Asgn(TK_ASGN, slot, Bin(op, Var(slot), e)), env, fuel)
  {
    hide WfFuncs;
    assert Eval(fs, fp, Var(slot), env, fuel) == EOk(Get(env, slot), env);
    var r := Eval(fs, fp, e, env, fuel);
    var b := Eval(fs, fp, Bin(op, Var(slot), e), env, fuel);
    assert b == if r.ETimeout? then r else EOk(Arith(fp, op, Get(env, slot), r.v), r.env);
  }

  /** One and minus one have the same bits but for the sign. */
  lemma MinusOne()
    ensures NEG_ONE.bits == ONE.bits ^ 0x8000_0000_0000_0000
    ensures ONE.bits >> 63 == 0 && (ONE.bits >> 52) & 0x7FF == 1023 && ONE.bits & 0xF_FFFF_FFFF_FFFF == 0
  {}

  /** What `++` and `--` add. */
  function Delta(sop: StepTok): Expr { Num(if sop == TK_INCR then ONE else Double(ONE.bits ^ 0x8000_0000_0000_0000)) }

  /** `++x` is `x = x + 1`, and `--x` is `x = x + -1`. */
  lemma StepFirst(fs: Funcs, fp: Fpu, sop: StepTok, slot: int, env: Env, fuel: nat)
    requires WfFuncs(fs, |env.globals|) && ValidSlot(slot, |env.globals|, |env.locals|)
    ensures WfE(Bin(TK_PLUS, Var(slot), Delta(sop)), fs, |env.globals|, |env.locals|)
    ensures Eval(fs, fp, IncDec(true, sop, slot), env, fuel)
         == Eval(fs, fp, Asgn(TK_ASGN, slot, Bin(TK_PLUS, Var(slot), Delta(sop))), env, fuel)
  {
    hide WfFuncs;
    assert Eval(fs, fp, Var(slot), env, fuel) == EOk(Get(env, slot), env);
    assert Eval(fs, fp, Delta(sop), env, fuel) == EOk(Numeric(Delta(sop).d), env);
    assert Eval(fs, fp, Bin(TK_PLUS, Var(slot), Delta(sop)), env, fuel) == EOk(Arith(fp, TK_PLUS, Get(env, slot), Numeric(Delta(sop).d)), env);
  }

  /** `x++` is `++x - 1`: it leaves what `++x` leaves, and yields what the step takes away again. */
  lemma StepAfter(fs: Funcs, fp: Fpu, sop: StepTok, slot: int, env: Env, fuel: nat)
    requires WfFuncs(fs, |env.globals|) && ValidSlot(slot, |env.globals|, |env.locals|)
    ensures Eval(fs, fp, IncDec(false, sop, slot), env, fuel)
         == Eval(fs, fp, Bin(TK_MINUS, IncDec(true, sop, slot), Delta(sop)), env, fuel)
  {
    hide WfFuncs;
    var r := Eval(fs, fp, IncDec(true, sop, slot), env, fuel);
    assert Eval(fs, fp, Delta(sop), r.env, fuel) == EOk(Numeric(Delta(sop).d), r.env);
  }

  // ---------- operators on numbers ----------

  /** The number that a value counts as: variables that have not been assigned to count as zero. */
  predicate CountsAs(v: Value, d: Double) { v == Numeric(d) || (!v.Numeric? && d == ZERO) }

  /** Arithmetic applies its own operator to the numbers, the left one first. */
  lemma ArithmeticOf(fs: Funcs, fp: Fpu, op: BinTok, l: Expr, r: Expr, env: Env, fuel: nat, x: Double, y: Double)
    requires IsArith(op) && WfFuncs(fs, |env.globals|) && WfE(Bin(op, l, r), fs, |env.globals|, |env.locals|)
    requires var a := Eval(fs, fp, l, env, fuel);
      a.EOk? && CountsAs(a.v, x) && (var b := Eval(fs, fp, r, a.env, fuel); b.EOk? && CountsAs(b.v, y))
    ensures var b := Eval(fs, fp, r, Eval(fs, fp, l, env, fuel).env, fuel);
      Eval(fs, fp, Bin(op, l, r), env, fuel) == EOk(Numeric(fp.arith(op, x, y)), b.env)
  {
    hide WfFuncs;
  }

  /** A minus sign negates, and a plus sign does so twice. */
  lemma SignOf(fs: Funcs, fp: Fpu, op: UnTok, e: Expr, env: Env, fuel: nat, x: Double)
    requires op != TK_NOT && WfFuncs(fs, |env.globals|) && WfE(e, fs, |env.globals|, |env.locals|)
    requires var a := Eval(fs, fp, e, env, fuel); a.EOk? && CountsAs(a.v, x)
    ensures Eval(fs, fp, Un(op, e), env, fuel)
         == EOk(Numeric(if op == TK_MINUS then fp.negate(x) else fp.negate(fp.negate(x))), Eval(fs, fp, e, env, fuel).env)
  {
    hide WfFuncs;
  }

  // ---------- comparison ----------

  /** Numbers are compared as numbers, the left one first; an uninitialised scalar on one side counts as zero. */
  lemma NumbersCompare(fp: Fpu, op: int, x: Double, y: Double)
    ensures Compare(fp, op, Numeric(x), Numeric(y)) == fp.compare(op, x, y)
    ensures Compare(fp, op, Numeric(x), Uninit) == fp.compare(op, x, ZERO)
    ensures Compare(fp, op, Uninit, Numeric(y)) == fp.compare(op, ZERO, y)
  {}

  /** Without a number all texts are empty and so equal; and the text of a number is greater than that of what may yet be an array. */
  lemma TextsCompare(fp: Fpu, op: int, a: Value, b: Value, x: Double)
    requires IsCompare(op) && !a.Numeric? && !b.Numeric?
    ensures Compare(fp, op, a, b) <==> op == TK_LE || op == TK_EQ || op == TK_GE
    ensures Compare(fp, op, Numeric(x), Untyped) <==> op == TK_GT || op == TK_GE || op == TK_NE
    ensures Compare(fp, op, Untyped, Numeric(x)) <==> op == TK_LT || op == TK_LE || op == TK_NE
  {}

  /** A comparison yields one where it holds and zero elsewhere. */
  lemma ComparisonOf(fs: Funcs, fp: Fpu, op: BinTok, l: Expr, r: Expr, env: Env, fuel: nat)
    requires IsCompare(op) && WfFuncs(fs, |env.globals|) && WfE(Bin(op, l, r), fs, |env.globals|, |env.locals|)
    requires var a := Eval(fs, fp, l, env, fuel); a.EOk? && Eval(fs, fp, r, a.env, fuel).EOk?
    ensures var a := Eval(fs, fp, l, env, fuel); var b := Eval(fs, fp, r, a.env, fuel);
      Eval(fs, fp, Bin(op, l, r), env, fuel) == EOk(Numeric(if Compare(fp, op, a.v, b.v) then ONE else ZERO), b.env)
  {
    hide WfFuncs, Compare;
  }

  // ---------- truth ----------

  /** A condition chooses by its value: a number by its own truth, and what has not been assigned to is false. */
  lemma ChoiceOf(fs: Funcs, fp: Fpu, c: Expr, t: Expr, f: Expr, env: Env, fuel: nat)
    requires WfFuncs(fs, |env.globals|) && WfE(Cond(c, t, f), fs, |env.globals|, |env.locals|)
    requires Eval(fs, fp, c, env, fuel).EOk?
    ensures var a := Eval(fs, fp, c, env, fuel);
      Eval(fs, fp, Cond(c, t, f), env, fuel)
      == match a.v
         case Numeric(d) => if fp.truth(d) then Eval(fs, fp, t, a.env, fuel) else Eval(fs, fp, f, a.env, fuel)
         case _ => Eval(fs, fp, f, a.env, fuel)
  {
    hide WfFuncs;
  }

  /** `!e` is `e ? 0 : 1`. */
  lemma NotIsChoice(fs: Funcs, fp: Fpu, e: Expr, env: Env, fuel: nat)
    requires WfFuncs(fs, |env.globals|) && WfE(e, fs, |env.globals|, |env.locals|)
    ensures Eval(fs, fp, Un(TK_NOT, e), env, fuel) == Eval(fs, fp, Cond(e, Num(ZERO), Num(ONE)), env, fuel)
  {
    hide WfFuncs;
  }

  /** `l && r` is `l ? (r ? 1 : 0) : 0`, and `l || r` is `l ? 1 : (r ? 1 : 0)`. */
  lemma LogicIsChoice(fs: Funcs, fp: Fpu, l: Expr, r: Expr, env: Env, fuel: nat)
    requires WfFuncs(fs, |env.globals|) && WfE(Bin(TK_AND, l, r), fs, |env.globals|, |env.locals|)
    ensures WfE(Cond(r, Num(ONE), Num(ZERO)), fs, |env.globals|, |env.locals|)
    ensures var rest := Cond(r, Num(ONE), Num(ZERO));
      && Eval(fs, fp, Bin(TK_AND, l, r), env, fuel) == Eval(fs, fp, Cond(l, rest, Num(ZERO)), env, fuel)
      && Eval(fs, fp, Bin(TK_OR, l, r), env, fuel) == Eval(fs, fp, Cond(l, Num(ONE), rest), env, fuel)
  {
    hide WfFuncs;
    var a := Eval(fs, fp, l, env, fuel);
    if a.EOk? {
      var b := Eval(fs, fp, r, a.env, fuel);
      if b.EOk? {
        assert Eval(fs, fp, Cond(r, Num(ONE), Num(ZERO)), a.env, fuel) == EOk(Logical(Truth(fp, b.v)), b.env);
      }
    }
  }

  /** Assigning to a variable makes it a scalar, even if the value may yet have been an array. */
  lemma AssignedIsScalar(fs: Funcs, fp: Fpu, aop: AsgnTok, slot: int, e: Expr, env: Env, fuel: nat)
    requires WfFuncs(fs, |env.globals|) && WfE(e, fs, |env.globals|, |env.locals|) && ValidSlot(slot, |env.globals|, |env.locals|)
    requires Eval(fs, fp, e, env, fuel).EOk?
    ensures var a, r := Eval(fs, fp, e, env, fuel), Eval(fs, fp, Asgn(aop, slot, e), env, fuel);
      && r.EOk? && r.v == Get(r.env, slot)
      && (aop == TK_ASGN ==> r.v == match a.v case Numeric(d) => Numeric(d) case _ => Uninit)
      && (forall other | other != slot && ValidSlot(other, |env.globals|, |env.locals|) :: Get(r.env, other) == Get(a.env, other))
  {
    hide WfFuncs;
  }
}
