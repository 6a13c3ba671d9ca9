/** C integer expressions and statements, and what they mean: the types `int` and `long`, signed and unsigned. */
module CcInt {
  import opened Numbers
  import opened Wrappers

  datatype Ty = I32 | U32 | I64 | U64

  const W32 := 0x1_0000_0000
  const W64 := 0x1_0000_0000_0000_0000

  predicate Unsigned(t: Ty) { t.U32? || t.U64? }

  function Size(t: Ty): (n: nat)
    ensures n == 4 || n == 8
  {
    if t.I32? || t.U32? then 4 else 8
  }

  function Modulus(t: Ty): (m: nat)
    ensures m > 0
  {
    if Size(t) == 4 then W32 else W64
  }

  predicate InRange(t: Ty, v: int) {
    if Unsigned(t) then 0 <= v < Modulus(t) else -(Modulus(t) / 2) <= v < Modulus(t) / 2
  }

  /** The value of type t congruent to x. */
  function Wrap(t: Ty, x: int): (v: int)
    ensures InRange(t, v) && v % Modulus(t) == x % Modulus(t)
    ensures InRange(t, x) ==> v == x
  {
    WrapFacts(t, x);
    var u := x % Modulus(t);
    if !Unsigned(t) && u >= Modulus(t) / 2 then u - Modulus(t) else u
  }

  lemma WrapFacts(t: Ty, x: int)
    ensures var m := Modulus(t); var u := x % m;
      && 0 <= u < m && (u - m) % m == u && u % m == u
      && (0 <= x < m ==> u == x) && (0 - m <= x < 0 ==> u == x + m)
  {
    var m := Modulus(t);
    DivMod(x, m);
    var u := x % m;
    QuotientIs(u, m, 0, u);
    QuotientIs(u - m, m, -1, u);
    if 0 <= x < m { QuotientIs(x, m, 0, x); }
    if 0 - m <= x < 0 { QuotientIs(x, m, -1, x + m); }
  }

  // ---------- conversions ----------

  /** The common type as the compiler chooses it. */
  function CommonType(t1: Ty, t2: Ty): (t: Ty)
    ensures t1 == t2 || t1.I32? ==> t == t2
  {
    if Size(t1) != Size(t2) then (if Size(t1) < Size(t2) then t2 else t1)
    else if Unsigned(t2) then t2 else t1
  }

  /** t can represent every value of u. */
  ghost predicate Represents(t: Ty, u: Ty) { forall v :: InRange(u, v) ==> InRange(t, v) }

  function ToUnsigned(t: Ty): Ty { if Size(t) == 4 then U32 else U64 }

  /** The usual arithmetic conversions of section 6.3.1.8 of ISO/IEC 9899:2011, for types of at least the rank of int. */
  ghost function StandardCommonType(t1: Ty, t2: Ty): Ty {
    if t1 == t2 then t1
    else if Unsigned(t1) == Unsigned(t2) then (if Size(t1) >= Size(t2) then t1 else t2)
    else
      var u, s := if Unsigned(t1) then t1 else t2, if Unsigned(t1) then t2 else t1;
      if Size(u) >= Size(s) then u else if Represents(s, u) then s else ToUnsigned(s)
  }

  lemma CommonTypeIsStandard(t1: Ty, t2: Ty)
    ensures CommonType(t1, t2) == StandardCommonType(t1, t2)
  {
    assert Represents(I64, U32);
  }

  // ---------- trees ----------

  datatype BinOp = Add | Sub | Mul | Div | Rem | BitAnd | BitOr | BitXor

  datatype CmpOp = Eq | Ne | Lt | Le

  datatype Expr =
    | Num(val: int, ty: Ty)
    | Var(x: nat)
    | Neg(e: Expr)
    | BitNot(e: Expr)
    | Not(e: Expr)
    | Bin(op: BinOp, l: Expr, r: Expr)
    | Shift(left: bool, l: Expr, r: Expr)
    | Compare(cmp: CmpOp, l: Expr, r: Expr)
    | LogAnd(l: Expr, r: Expr)
    | LogOr(l: Expr, r: Expr)
    | Cond(c: Expr, t: Expr, f: Expr)
    | Assign(x: nat, e: Expr)
    | Cast(to: Ty, e: Expr)
    | Comma(l: Expr, r: Expr)

  datatype Stmt =
    | SExpr(e: Expr)
    | SBlock(stmts: seq<Stmt>)
    | SIf(c: Expr, thn: Stmt, els: Option<Stmt>)
    | SFor(init: Option<Stmt>, test: Option<Expr>, inc: Option<Expr>, body: Stmt)
    | SDo(body: Stmt, c: Expr)
    | SBreak
    | SContinue
    | SReturn(ret: Option<Expr>)

  // ---------- types of expressions ----------

  /** Every variable is declared, and literals fit their types. */
  predicate Wf(e: Expr, vars: seq<Ty>) {
    match e
    case Num(v, t) => InRange(t, v)
    case Var(x) => x < |vars|
    case Neg(a) => Wf(a, vars)
    case BitNot(a) => Wf(a, vars)
    case Not(a) => Wf(a, vars)
    case Bin(_, l, r) => Wf(l, vars) && Wf(r, vars)
    case Shift(_, l, r) => Wf(l, vars) && Wf(r, vars)
    case Compare(_, l, r) => Wf(l, vars) && Wf(r, vars)
    case LogAnd(l, r) => Wf(l, vars) && Wf(r, vars)
    case LogOr(l, r) => Wf(l, vars) && Wf(r, vars)
    case Cond(c, t, f) => Wf(c, vars) && Wf(t, vars) && Wf(f, vars)
    case Assign(x, a) => x < |vars| && Wf(a, vars)
    case Cast(_, a) => Wf(a, vars)
    case Comma(l, r) => Wf(l, vars) && Wf(r, vars)
  }

  function TypeOf(e: Expr, vars: seq<Ty>): Ty
    requires Wf(e, vars)
  {
    match e
    case Num(_, t) => t
    case Var(x) => vars[x]
    case Neg(a) => CommonType(I32, TypeOf(a, vars))
    case BitNot(a) => TypeOf(a, vars)
    case Not(_) => I32
    case Bin(_, l, r) => CommonType(TypeOf(l, vars), TypeOf(r, vars))
    case Shift(_, l, _) => TypeOf(l, vars)
    case Compare(_, _, _) => I32
    case LogAnd(_, _) => I32
    case LogOr(_, _) => I32
    case Cond(_, t, f) => CommonType(TypeOf(t, vars), TypeOf(f, vars))
    case Assign(x, _) => vars[x]
    case Cast(t, _) => t
    case Comma(_, r) => TypeOf(r, vars)
  }

  // ---------- arithmetic ----------

  function Abs(x: int): nat { if x < 0 then -x else x }

  /** Division that truncates toward zero, and the remainder that goes with it. */
  function TruncDiv(a: int, b: int): int
    requires b != 0
  {
    if (a < 0) == (b < 0) then Abs(a) / Abs(b) else -(Abs(a) / Abs(b))
  }

  function TruncMod(a: int, b: int): int
    requires b != 0
  {
    if a < 0 then -(Abs(a) % Abs(b)) else Abs(a) % Abs(b)
  }

  /** Bitwise operations on natural numbers. */
  function Bits(op: BinOp, a: nat, b: nat): nat
    decreases a + b
  {
    if a == 0 && b == 0 then 0
    else
      var x, y := a % 2, b % 2;
      var z := if op == BitAnd then x * y else if op == BitOr then x + y - x * y else (x + y) % 2;
      z + 2 * Bits(op, a / 2, b / 2)
  }

  /** The operation cannot be carried out: division by zero, or a quotient out of range. */
  predicate Traps(op: BinOp, t: Ty, a: int, b: int) {
    (op == Div || op == Rem) && (b == 0 || (!Unsigned(t) && a == -(Modulus(t) / 2) && b == -1))
  }

  /** a op b in type t; arithmetic wraps around. */
  function BinValue(op: BinOp, t: Ty, a: int, b: int): (v: int)
    requires !Traps(op, t, a, b)
    ensures InRange(t, v)
  {
    Wrap(t, match op
            case Add => a + b
            case Sub => a - b
            case Mul => a * b
            case Div => TruncDiv(a, b)
            case Rem => TruncMod(a, b)
            case _ => Bits(op, a % Modulus(t), b % Modulus(t)))
  }

  predicate CmpValue(op: CmpOp, a: int, b: int) {
    match op
    case Eq => a == b
    case Ne => a != b
    case Lt => a < b
    case Le => a <= b
  }

  /** Shifts by less than the width; to the right, the quotient is rounded down. */
  function ShiftValue(left: bool, t: Ty, a: int, n: nat): (v: int)
    ensures InRange(t, v)
  {
    Wrap(t, if left then a * Pow2(n) else a / Pow2(n))
  }

  function Truth(b: bool): int { if b then 1 else 0 }

  // ---------- meaning of expressions ----------

  /** Values of the variables. */
  type Env = seq<int>

  predicate Fits(env: Env, vars: seq<Ty>) { |env| == |vars| && forall x :: 0 <= x < |env| ==> InRange(vars[x], env[x]) }

  /** Undefined: a division or shift that C leaves undefined. */
  datatype Result = Ok(v: int, env: Env) | Undefined

  /** The right operand of a binary operator is evaluated first, as in the generated code. */
  function Eval(e: Expr, vars: seq<Ty>, env: Env): (r: Result)
    requires Wf(e, vars) && Fits(env, vars)
    ensures r.Ok? ==> Fits(r.env, vars) && InRange(TypeOf(e, vars), r.v)
  {
    hide Wrap, BinValue, ShiftValue, CmpValue, Pow2;
    match e
    case Num(v, _) => Ok(v, env)
    case Var(x) => Ok(env[x], env)
    case Neg(a) =>
      var r := Eval(a, vars, env);
      if r.Undefined? then r else Ok(Wrap(TypeOf(e, vars), -Wrap(TypeOf(e, vars), r.v)), r.env)
    case BitNot(a) =>
      var r := Eval(a, vars, env);
      if r.Undefined? then r else Ok(Wrap(TypeOf(e, vars), -1 - r.v), r.env)
    case Not(a) =>
      var r := Eval(a, vars, env);
      if r.Undefined? then r else Ok(Truth(r.v == 0), r.env)
    case Bin(op, l, r) =>
      var b := Eval(r, vars, env);
      if b.Undefined? then b
      else
        var a := Eval(l, vars, b.env);
        if a.Undefined? then a
        else
          var t := TypeOf(e, vars);
          var x, y := Wrap(t, a.v), Wrap(t, b.v);
          if Traps(op, t, x, y) then Undefined else Ok(BinValue(op, t, x, y), a.env)
    case Shift(left, l, r) =>
      var b := Eval(r, vars, env);
      if b.Undefined? then b
      else
        var a := Eval(l, vars, b.env);
        if a.Undefined? then a
        else
          var t := TypeOf(l, vars);
          if 0 <= b.v < 8 * Size(t) then Ok(ShiftValue(left, t, a.v, b.v), a.env) else Undefined
    case Compare(op, l, r) =>
      var b := Eval(r, vars, env);
      if b.Undefined? then b
      else
        var a := Eval(l, vars, b.env);
        if a.Undefined? then a
        else
          var t := CommonType(TypeOf(l, vars), TypeOf(r, vars));
          Ok(Truth(CmpValue(op, Wrap(t, a.v), Wrap(t, b.v))), a.env)
    case LogAnd(l, r) =>
      var a := Eval(l, vars, env);
      if a.Undefined? then a
      else if a.v == 0 then Ok(0, a.env)
      else
        var b := Eval(r, vars, a.env);
        if b.Undefined? then b else Ok(Truth(b.v != 0), b.env)
    case LogOr(l, r) =>
      var a := Eval(l, vars, env);
      if a.Undefined? then a
      else if a.v != 0 then Ok(1, a.env)
      else
        var b := Eval(r, vars, a.env);
        if b.Undefined? then b else Ok(Truth(b.v != 0), b.env)
    case Cond(c, t, f) =>
      var a := Eval(c, vars, env);
      if a.Undefined? then a
      else
        var b := Eval(if a.v != 0 then t else f, vars, a.env);
        if b.Undefined? then b else Ok(Wrap(TypeOf(e, vars), b.v), b.env)
    case Assign(x, a) =>
      var r := Eval(a, vars, env);
      if r.Undefined? then r
      else
        var v := Wrap(vars[x], r.v);
        Ok(v, r.env[x := v])
    case Cast(t, a) =>
      var r := Eval(a, vars, env);
      if r.Undefined? then r else Ok(Wrap(t, r.v), r.env)
    case Comma(l, r) =>
      var a := Eval(l, vars, env);
      if a.Undefined? then a else Eval(r, vars, a.env)
  }

  // ---------- the typed tree ----------

  /** Wraps e in a cast; the compiler does so even if the type stays the same. */
  function NewCast(e: Expr, t: Ty): Expr { Cast(t, e) }

  /** Inserts the conversions that the language calls for. */
  function AddType(e: Expr, vars: seq<Ty>): (r: Expr)
    requires Wf(e, vars)
    ensures Wf(r, vars)
  {
    hide InRange, CommonType;
    match e
    case Num(_, _) => e
    case Var(_) => e
    case Neg(a) => Neg(NewCast(AddType(a, vars), TypeOf(e, vars)))
    case BitNot(a) => BitNot(AddType(a, vars))
    case Not(a) => Not(AddType(a, vars))
    case Bin(op, l, r) =>
      var t := TypeOf(e, vars);
      Bin(op, NewCast(AddType(l, vars), t), NewCast(AddType(r, vars), t))
    case Shift(left, l, r) => Shift(left, AddType(l, vars), AddType(r, vars))
    case Compare(op, l, r) =>
      var t := CommonType(TypeOf(l, vars), TypeOf(r, vars));
      Compare(op, NewCast(AddType(l, vars), t), NewCast(AddType(r, vars), t))
    case LogAnd(l, r) => LogAnd(AddType(l, vars), AddType(r, vars))
    case LogOr(l, r) => LogOr(AddType(l, vars), AddType(r, vars))
    case Cond(c, t, f) =>
      var u := TypeOf(e, vars);
      Cond(AddType(c, vars), NewCast(AddType(t, vars), u), NewCast(AddType(f, vars), u))
    case Assign(x, a) => Assign(x, NewCast(AddType(a, vars), vars[x]))
    case Cast(t, a) => Cast(t, AddType(a, vars))
    case Comma(l, r) => Comma(AddType(l, vars), AddType(r, vars))
  }

  /** Operands already have the type in which the operation is carried out. */
  predicate Typed(e: Expr, vars: seq<Ty>)
    requires Wf(e, vars)
  {
    match e
    case Num(_, _) => true
    case Var(_) => true
    case Neg(a) => Typed(a, vars) && TypeOf(a, vars) == TypeOf(e, vars)
    case BitNot(a) => Typed(a, vars)
    case Not(a) => Typed(a, vars)
    case Bin(_, l, r) => Typed(l, vars) && Typed(r, vars) && TypeOf(l, vars) == TypeOf(r, vars)
    case Shift(_, l, r) => Typed(l, vars) && Typed(r, vars)
    case Compare(_, l, r) => Typed(l, vars) && Typed(r, vars) && TypeOf(l, vars) == TypeOf(r, vars)
    case LogAnd(l, r) => Typed(l, vars) && Typed(r, vars)
    case LogOr(l, r) => Typed(l, vars) && Typed(r, vars)
    case Cond(c, t, f) => Typed(c, vars) && Typed(t, vars) && Typed(f, vars) && TypeOf(t, vars) == TypeOf(f, vars)
    case Assign(x, a) => Typed(a, vars) && TypeOf(a, vars) == vars[x]
    case Cast(_, a) => Typed(a, vars)
    case Comma(l, r) => Typed(l, vars) && Typed(r, vars)
  }

  lemma TypedUnary(e: Expr, vars: seq<Ty>)
    requires Wf(e, vars) && (e.BitNot? || e.Not? || e.Cast?)
    requires Typed(AddType(e.e, vars), vars) && TypeOf(AddType(e.e, vars), vars) == TypeOf(e.e, vars)
    ensures Typed(AddType(e, vars), vars) && TypeOf(AddType(e, vars), vars) == TypeOf(e, vars)
  {
    hide InRange, CommonType;
  }

  lemma TypedCast(e: Expr, vars: seq<Ty>)
    requires Wf(e, vars) && (e.Neg? || e.Assign?) && Typed(AddType(e.e, vars), vars)
    ensures Typed(AddType(e, vars), vars) && TypeOf(AddType(e, vars), vars) == TypeOf(e, vars)
  {
    hide InRange, CommonType;
  }

  lemma TypedBinary(e: Expr, vars: seq<Ty>)
    requires Wf(e, vars) && (e.Bin? || e.Compare?) && Typed(AddType(e.l, vars), vars) && Typed(AddType(e.r, vars), vars)
    ensures Typed(AddType(e, vars), vars) && TypeOf(AddType(e, vars), vars) == TypeOf(e, vars)
  {
    hide InRange, CommonType;
  }

  lemma TypedPair(e: Expr, vars: seq<Ty>)
    requires Wf(e, vars) && (e.Shift? || e.LogAnd? || e.LogOr? || e.Comma?)
    requires Typed(AddType(e.l, vars), vars) && Typed(AddType(e.r, vars), vars)
    requires TypeOf(AddType(e.l, vars), vars) == TypeOf(e.l, vars) && TypeOf(AddType(e.r, vars), vars) == TypeOf(e.r, vars)
    ensures Typed(AddType(e, vars), vars) && TypeOf(AddType(e, vars), vars) == TypeOf(e, vars)
  {
    hide InRange, CommonType;
  }

  lemma TypedCond(e: Expr, vars: seq<Ty>)
    requires Wf(e, vars) && e.Cond? && Typed(AddType(e.c, vars), vars)
    requires Typed(AddType(e.t, vars), vars) && Typed(AddType(e.f, vars), vars)
    ensures Typed(AddType(e, vars), vars) && TypeOf(AddType(e, vars), vars) == TypeOf(e, vars)
  {
    hide InRange, CommonType;
  }

  lemma {:induction false} AddTypeTyped(e: Expr, vars: seq<Ty>)
    requires Wf(e, vars)
    ensures Typed(AddType(e, vars), vars) && TypeOf(AddType(e, vars), vars) == TypeOf(e, vars)
  {
    if e.Num? || e.Var? {
    } else {
      hide AddType, Typed, InRange;
      if e.Bin? || e.Compare? {
        AddTypeTyped(e.l, vars);
        AddTypeTyped(e.r, vars);
        TypedBinary(e, vars);
      } else if e.Shift? || e.LogAnd? || e.LogOr? || e.Comma? {
        AddTypeTyped(e.l, vars);
        AddTypeTyped(e.r, vars);
        TypedPair(e, vars);
      } else if e.Cond? {
        AddTypeTyped(e.c, vars);
        AddTypeTyped(e.t, vars);
        AddTypeTyped(e.f, vars);
        TypedCond(e, vars);
      } else if e.Neg? || e.Assign? {
        AddTypeTyped(e.e, vars);
        TypedCast(e, vars);
      } else {
        AddTypeTyped(e.e, vars);
        TypedUnary(e, vars);
      }
    }
  }

  /** Adding types leaves the meaning of e in env alone. */
  ghost predicate SameMeaning(e: Expr, vars: seq<Ty>, env: Env)
    requires Wf(e, vars) && Fits(env, vars)
  {
    Eval(AddType(e, vars), vars, env) == Eval(e, vars, env)
  }

  /** ... and that of e where the evaluation of d leaves off. */
  ghost predicate SameAfter(d: Expr, e: Expr, vars: seq<Ty>, env: Env)
    requires Wf(d, vars) && Wf(e, vars) && Fits(env, vars)
  {
    var x := Eval(d, vars, env);
    x.Ok? ==> SameMeaning(e, vars, x.env)
  }

  lemma EvalCast(a: Expr, t: Ty, vars: seq<Ty>, env: Env)
    requires Wf(a, vars) && Fits(env, vars)
    ensures var r := Eval(a, vars, env); Eval(Cast(t, a), vars, env) == if r.Undefined? then r else Ok(Wrap(t, r.v), r.env)
  {
    hide Wrap, InRange, Fits, CommonType;
  }

  lemma SameUnary(e: Expr, vars: seq<Ty>, env: Env)
    requires Wf(e, vars) && Fits(env, vars) && (e.Not? || e.Cast?) && SameMeaning(e.e, vars, env)
    ensures SameMeaning(e, vars, env)
  {
    hide Wrap, InRange, Fits, CommonType, Truth;
    assert AddType(e, vars) == if e.Not? then Not(AddType(e.e, vars)) else Cast(e.to, AddType(e.e, vars));
  }

  lemma SameBitNot(e: Expr, vars: seq<Ty>, env: Env)
    requires Wf(e, vars) && Fits(env, vars) && e.BitNot? && SameMeaning(e.e, vars, env)
    ensures SameMeaning(e, vars, env)
  {
    hide Wrap, InRange, Fits, CommonType;
    AddTypeTyped(e.e, vars);
    assert AddType(e, vars) == BitNot(AddType(e.e, vars));
  }

  lemma SameNeg(e: Expr, vars: seq<Ty>, env: Env)
    requires Wf(e, vars) && Fits(env, vars) && e.Neg? && SameMeaning(e.e, vars, env)
    ensures SameMeaning(e, vars, env)
  {
    hide Wrap, InRange, Fits, CommonType, Truth;
    var t := TypeOf(e, vars);
    EvalCast(AddType(e.e, vars), t, vars, env);
    assert AddType(e, vars) == Neg(Cast(t, AddType(e.e, vars)));
  }

  lemma SameAssign(e: Expr, vars: seq<Ty>, env: Env)
    requires Wf(e, vars) && Fits(env, vars) && e.Assign? && SameMeaning(e.e, vars, env)
    ensures SameMeaning(e, vars, env)
  {
    hide Wrap, InRange, Fits, CommonType, Truth;
    EvalCast(AddType(e.e, vars), vars[e.x], vars, env);
    assert AddType(e, vars) == Assign(e.x, Cast(vars[e.x], AddType(e.e, vars)));
  }

  lemma SameBin(e: Expr, vars: seq<Ty>, env: Env)
    requires Wf(e, vars) && Fits(env, vars) && e.Bin? && SameMeaning(e.r, vars, env) && SameAfter(e.r, e.l, vars, env)
    ensures SameMeaning(e, vars, env)
  {
    hide Wrap, InRange, Fits, CommonType, CmpValue, BinValue, Traps, Truth;
    var t := CommonType(TypeOf(e.l, vars), TypeOf(e.r, vars));
    var l', r' := AddType(e.l, vars), AddType(e.r, vars);
    EvalCast(r', t, vars, env);
    var b := Eval(e.r, vars, env);
    if b.Ok? { EvalCast(l', t, vars, b.env); }
    assert AddType(e, vars) == Bin(e.op, Cast(t, l'), Cast(t, r'));
  }

  lemma SameCompare(e: Expr, vars: seq<Ty>, env: Env)
    requires Wf(e, vars) && Fits(env, vars) && e.Compare? && SameMeaning(e.r, vars, env) && SameAfter(e.r, e.l, vars, env)
    ensures SameMeaning(e, vars, env)
  {
    hide Wrap, InRange, Fits, CommonType, CmpValue, BinValue, Traps, Truth;
    var t := CommonType(TypeOf(e.l, vars), TypeOf(e.r, vars));
    var l', r' := AddType(e.l, vars), AddType(e.r, vars);
    EvalCast(r', t, vars, env);
    var b := Eval(e.r, vars, env);
    if b.Ok? { EvalCast(l', t, vars, b.env); }
    assert AddType(e, vars) == Compare(e.cmp, Cast(t, l'), Cast(t, r'));
  }

  lemma SameShift(e: Expr, vars: seq<Ty>, env: Env)
    requires Wf(e, vars) && Fits(env, vars) && e.Shift? && SameMeaning(e.r, vars, env) && SameAfter(e.r, e.l, vars, env)
    ensures SameMeaning(e, vars, env)
  {
    hide Wrap, InRange, Fits, CommonType, ShiftValue;
    AddTypeTyped(e.l, vars);
    assert AddType(e, vars) == Shift(e.left, AddType(e.l, vars), AddType(e.r, vars));
  }

  lemma SameLogic(e: Expr, vars: seq<Ty>, env: Env)
    requires Wf(e, vars) && Fits(env, vars) && (e.LogAnd? || e.LogOr? || e.Comma?)
    requires SameMeaning(e.l, vars, env) && SameAfter(e.l, e.r, vars, env)
    ensures SameMeaning(e, vars, env)
  {
    hide Wrap, InRange, Fits, CommonType, Truth;
  }

  lemma SameCond(e: Expr, vars: seq<Ty>, env: Env)
    requires Wf(e, vars) && Fits(env, vars) && e.Cond? && SameMeaning(e.c, vars, env)
    requires SameAfter(e.c, e.t, vars, env) && SameAfter(e.c, e.f, vars, env)
    ensures SameMeaning(e, vars, env)
  {
    hide Wrap, InRange, Fits, CommonType;
    var u := TypeOf(e, vars);
    var t', f' := AddType(e.t, vars), AddType(e.f, vars);
    var a := Eval(e.c, vars, env);
    if a.Ok? {
      EvalCast(t', u, vars, a.env);
      EvalCast(f', u, vars, a.env);
    }
    assert AddType(e, vars) == Cond(AddType(e.c, vars), Cast(u, t'), Cast(u, f'));
  }

  /** Conversions that are inserted do not change what an expression means. */
  lemma {:induction false} AddTypeKeeps(e: Expr, vars: seq<Ty>, env: Env)
    requires Wf(e, vars) && Fits(env, vars)
    ensures SameMeaning(e, vars, env)
  {
    hide Wrap, InRange, Fits, Eval, AddType;
    match e
    case Num(_, _) => SameLeaf(e, vars, env);
    case Var(_) => SameLeaf(e, vars, env);
    case Bin(_, l, r) =>
      AddTypeKeeps(r, vars, env);
      if Eval(r, vars, env).Ok? { AddTypeKeeps(l, vars, Eval(r, vars, env).env); }
      SameBin(e, vars, env);
    case Shift(_, l, r) =>
      AddTypeKeeps(r, vars, env);
      if Eval(r, vars, env).Ok? { AddTypeKeeps(l, vars, Eval(r, vars, env).env); }
      SameShift(e, vars, env);
    case Compare(_, l, r) =>
      AddTypeKeeps(r, vars, env);
      if Eval(r, vars, env).Ok? { AddTypeKeeps(l, vars, Eval(r, vars, env).env); }
      SameCompare(e, vars, env);
    case LogAnd(l, r) =>
      AddTypeKeeps(l, vars, env);
      if Eval(l, vars, env).Ok? { AddTypeKeeps(r, vars, Eval(l, vars, env).env); }
      SameLogic(e, vars, env);
    case LogOr(l, r) =>
      AddTypeKeeps(l, vars, env);
      if Eval(l, vars, env).Ok? { AddTypeKeeps(r, vars, Eval(l, vars, env).env); }
      SameLogic(e, vars, env);
    case Comma(l, r) =>
      AddTypeKeeps(l, vars, env);
      if Eval(l, vars, env).Ok? { AddTypeKeeps(r, vars, Eval(l, vars, env).env); }
      SameLogic(e, vars, env);
    case Cond(c, t, f) =>
      AddTypeKeeps(c, vars, env);
      if Eval(c, vars, env).Ok? {
        AddTypeKeeps(t, vars, Eval(c, vars, env).env);
        AddTypeKeeps(f, vars, Eval(c, vars, env).env);
      }
      SameCond(e, vars, env);
    case Neg(a) =>
      AddTypeKeeps(a, vars, env);
      SameNeg(e, vars, env);
    case BitNot(a) =>
      AddTypeKeeps(a, vars, env);
      SameBitNot(e, vars, env);
    case Assign(_, a) =>
      AddTypeKeeps(a, vars, env);
      SameAssign(e, vars, env);
    case _ =>
      AddTypeKeeps(e.e, vars, env);
      SameUnary(e, vars, env);
  }

  lemma SameLeaf(e: Expr, vars: seq<Ty>, env: Env)
    requires Wf(e, vars) && Fits(env, vars) && (e.Num? || e.Var?)
    ensures SameMeaning(e, vars, env)
  {}
}
