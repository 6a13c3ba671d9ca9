/** The stack machine that runs zcode. */
module AwkVm {
  import opened AwkSyntax
  import opened AwkCode
  import opened AwkCompiler
  import opened AwkSemantics
  import opened AwkValues
  import opened Wrappers

  /** A stack slot: a value, an integer kept in the number field for bookkeeping, or a reference to a slot. */
  datatype Val = Held(v: Value) | Word(i: int) | Reference(slot: int)

  datatype State = State(ip: int, stack: seq<Val>, parmbase: int)

  /** Effect of one instruction: run on, stop at a quit, or misbehave. */
  datatype Effect = Next(st: State) | Quit(st: State) | Fault

  datatype Machine = Machine(code: seq<int>, lits: seq<Value>, funcs: map<int, Func>, fp: Fpu)

  // Frame layout relative to parmbase.
  const RETURN_VALUE := -4
  const RETURN_ADDR := -3
  const PREV_PARMBASE := -2
  const ARG_CNT := -1
  const FUNCTION_NUM := 0

  function Slot(st: State, op: int): int { if op < 0 then st.parmbase - op else op }

  predicate IsAt(stack: seq<Val>, k: int) { 0 <= k < |stack| }

  predicate HeldAt(stack: seq<Val>, k: int) { IsAt(stack, k) && stack[k].Held? }

  predicate IntAt(stack: seq<Val>, k: int) { IsAt(stack, k) && stack[k].Word? }

  function Top(stack: seq<Val>): Val
    requires |stack| > 0
  {
    stack[|stack| - 1]
  }

  function Drop(stack: seq<Val>): seq<Val>
    requires |stack| > 0
  {
    stack[..|stack| - 1]
  }

  /** Operators that replace the top of the stack. */
  function UnaryOp(m: Machine, op: int, a: Value): Value {
    if op == TK_NOT then Logical(!Truth(m.fp, a))
    else if op == OP_NOTNOT then Logical(Truth(m.fp, a))
    else Negate(m.fp, a)
  }

  predicate IsUnaryOp(op: int) { op == TK_NOT || op == OP_NOTNOT || op == OP_NEGATE }

  predicate IsBinaryOp(op: int) { IsArith(op) || IsCompare(op) }

  function BinaryOp(m: Machine, op: int, a: Value, b: Value): Value {
    if IsCompare(op) then Logical(Compare(m.fp, op, a, b)) else Arith(m.fp, op, a, b)
  }

  predicate IsPlainJump(op: int) {
    op == OP_JUMP || op == TK_ELSE || op == TK_TERNELSE || op == TK_BREAK || op == TK_CONTINUE
  }

  predicate IsTestJump(op: int) { op == TK_IF || op == TK_TERNIF || op == TK_WHILE }

  predicate IsStepOp(op: int) { op == TK_INCR || op == TK_DECR || op == OP_PREINCR || op == OP_PREDECR }

  function StepDelta(op: int): Value { Numeric(if op == TK_INCR || op == OP_PREINCR then ONE else NEG_ONE) }

  function Step(m: Machine, st: State): Effect {
    if !(0 <= st.ip < |m.code|) then Fault
    else
      var op := m.code[st.ip];
      if op == 0 || op == OP_QUIT then Quit(st)
      else if IsUnaryOp(op) then StepUnary(m, st, op)
      else if IsBinaryOp(op) then StepBinary(m, st, op)
      else if IsAsgn(op) then StepAssign(m, st, op)
      else if IsStepOp(op) then StepIncr(m, st, op)
      else if op == OP_DROP then
        if |st.stack| > 0 then Next(State(st.ip + 1, Drop(st.stack), st.parmbase)) else Fault
      else if st.ip + 1 == |m.code| then Fault
      else StepOperand(m, State(st.ip + 2, st.stack, st.parmbase), op, m.code[st.ip + 1])
  }

  function StepUnary(m: Machine, st: State, op: int): Effect {
    if !HeldAt(st.stack, |st.stack| - 1) then Fault
    else Next(State(st.ip + 1, Drop(st.stack) + [Held(UnaryOp(m, op, Top(st.stack).v))], st.parmbase))
  }

  function StepBinary(m: Machine, st: State, op: int): Effect {
    var n := |st.stack|;
    if !HeldAt(st.stack, n - 1) || !HeldAt(st.stack, n - 2) then Fault
    else Next(State(st.ip + 1, st.stack[..n - 2] + [Held(BinaryOp(m, op, st.stack[n - 2].v, st.stack[n - 1].v))], st.parmbase))
  }

  /** Assignment through the reference under the value; the value stays on the stack. */
  function StepAssign(m: Machine, st: State, op: int): Effect
    requires IsAsgn(op)
  {
    var n := |st.stack|;
    if !HeldAt(st.stack, n - 1) || !IsAt(st.stack, n - 2) || !st.stack[n - 2].Reference? then Fault
    else
      var k := Slot(st, st.stack[n - 2].slot);
      if !(k < n - 2 && HeldAt(st.stack, k)) then Fault
      else
        var v := AsgnValue(m.fp, op, st.stack[k].v, st.stack[n - 1].v);
        Next(State(st.ip + 1, st.stack[..n - 2][k := Held(v)] + [Held(v)], st.parmbase))
  }

  function StepIncr(m: Machine, st: State, op: int): Effect {
    var n := |st.stack|;
    if n == 0 || !Top(st.stack).Reference? then Fault
    else
      var k := Slot(st, Top(st.stack).slot);
      if !(k < n - 1 && HeldAt(st.stack, k)) then Fault
      else
        var v := Arith(m.fp, TK_PLUS, st.stack[k].v, StepDelta(op));
        var r := if op == TK_INCR || op == TK_DECR then Arith(m.fp, TK_MINUS, v, StepDelta(op)) else v;
        Next(State(st.ip + 1, Drop(st.stack)[k := Held(v)] + [Held(r)], st.parmbase))
  }

  /** Instructions with an operand; st.ip is already past it. */
  function StepOperand(m: Machine, st: State, op: int, arg: int): Effect {
    if op == TK_NUMBER then
      if 0 <= arg < |m.lits| then Next(st.(stack := st.stack + [Held(m.lits[arg])])) else Fault
    else if op == TK_VAR then
      if HeldAt(st.stack, Slot(st, arg)) then Next(st.(stack := st.stack + [st.stack[Slot(st, arg)]])) else Fault
    else if op == OP_VARREF then Next(st.(stack := st.stack + [Reference(arg)]))
    else if IsPlainJump(op) then Next(st.(ip := st.ip + arg))
    else if IsTestJump(op) || IsLogic(op) then StepTest(m, st, op, arg)
    else if op == OP_PREPCALL then Next(st.(stack := st.stack + [Held(NUMERIC_ZERO), Word(0), Word(0), Word(0), Word(arg)]))
    else if op == TK_FUNC then StepCall(m, st, arg)
    else if op == TK_FUNCTION then StepEnter(m, st, arg)
    else if op == TK_RETURN then StepReturn(st)
    else Fault
  }

  function StepTest(m: Machine, st: State, op: int, arg: int): Effect {
    if !HeldAt(st.stack, |st.stack| - 1) then Fault
    else
      var t := Truth(m.fp, Top(st.stack).v);
      if IsLogic(op) then
        if t == (op == TK_AND) then Next(st.(stack := Drop(st.stack)))
        else Next(st.(ip := st.ip + arg, stack := Drop(st.stack) + [Held(Logical(t))]))
      else if t == (op != TK_WHILE) then Next(st.(stack := Drop(st.stack)))
      else Next(st.(ip := st.ip + arg, stack := Drop(st.stack)))
  }

  /** Call with nargs arguments on the stack: records the return address and jumps to the function. */
  function StepCall(m: Machine, st: State, nargs: int): Effect {
    var pb := |st.stack| - 1 - nargs;
    if nargs < 0 || pb + RETURN_VALUE < 0 || !IntAt(st.stack, pb) || st.stack[pb].i !in m.funcs then Fault
    else Next(State(m.funcs[st.stack[pb].i].addr,
                    st.stack[pb + RETURN_ADDR := Word(st.ip)][pb + ARG_CNT := Word(nargs)] + [Word(nargs)], st.parmbase))
  }

  /** Slots for the parameters that are not passed. */
  function Unpassed(nargs: nat, nparms: nat, scalars: set<int>): seq<Val>
    requires nargs <= nparms
  {
    seq(nparms - nargs, (i: nat) => Held(Fresh(scalars, -(nargs + i + 1))))
  }

  /** Function prologue: saves and sets parmbase, and fits the arguments to the declared parameters. */
  function StepEnter(m: Machine, st: State, fn: int): Effect {
    if fn !in m.funcs || !IntAt(st.stack, |st.stack| - 1) then Fault
    else
      var nargs, nparms := Top(st.stack).i, m.funcs[fn].nparms;
      var s := Drop(st.stack);
      var pb := |s| - 1 - nargs;
      if nargs < 0 || nparms < 0 || pb + RETURN_VALUE < 0 then Fault
      else
        var saved := s[pb + PREV_PARMBASE := Word(st.parmbase)];
        Next(State(st.ip, if nargs > nparms then saved[..pb + 1 + nparms]
                          else saved + Unpassed(nargs, nparms, m.funcs[fn].scalars), pb))
  }

  /** Return: the result replaces the frame, and the caller's ip and parmbase come back. */
  function StepReturn(st: State): Effect {
    var n, pb := |st.stack|, st.parmbase;
    if pb + RETURN_VALUE < 0 || n <= pb + 1 || !HeldAt(st.stack, n - 1)
       || !IntAt(st.stack, pb + RETURN_ADDR) || !IntAt(st.stack, pb + PREV_PARMBASE) then Fault
    else Next(State(st.stack[pb + RETURN_ADDR].i, st.stack[..pb + RETURN_VALUE] + [Held(Scalar(Top(st.stack).v))],
                    st.stack[pb + PREV_PARMBASE].i))
  }

  // ---------- runs ----------

  /** The state after n instructions, none of which quit or fault; None otherwise. */
  function Run(m: Machine, st: State, n: nat): Option<State>
    decreases n
  {
    if n == 0 then Some(st)
    else
      var r := Step(m, st);
      if r.Next? then Run(m, r.st, n - 1) else None
  }

  lemma {:induction false} RunSplit(m: Machine, st: State, n: nat, k: nat)
    ensures Run(m, st, n + k) == (if Run(m, st, n).Some? then Run(m, Run(m, st, n).value, k) else None)
    decreases n
  {
    hide Step;
    if n > 0 && Step(m, st).Next? {
      RunSplit(m, Step(m, st).st, n - 1, k);
      assert n + k - 1 == n - 1 + k;
    }
  }

  /** The program stops after some number of instructions in the given state. */
  ghost predicate StopsIn(m: Machine, st: State, n: nat, last: State) {
    Run(m, st, n) == Some(last) && Step(m, last) == Quit(last)
  }
}
