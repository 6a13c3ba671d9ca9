/** The interpreter loop, moving an instruction pointer and a stack in place. */
module AwkInterp {
  import opened AwkSyntax
  import opened AwkValues
  import opened AwkCode
  import opened AwkCompiler
  import opened AwkSemantics
  import opened AwkVm
  import opened Wrappers

  class Vm {
    const m: Machine
    var ip: int
    var stack: seq<Val>
    var parmbase: int

    constructor (m: Machine, stack: seq<Val>)
      ensures this.m == m && this.stack == stack && parmbase == 0
    {
      this.m, this.stack, parmbase := m, stack, 0;
    }

    function St(): State
      reads this
    {
      State(ip, stack, parmbase)
    }

    // ---------- stack ----------

    method PushVal(v: Val)
      modifies this`stack
      ensures stack == old(stack) + [v]
    {
      stack := stack + [v];
    }

    method DropTop()
      requires |stack| > 0
      modifies this`stack
      ensures stack == old(stack[..|stack| - 1])
    {
      stack := stack[..|stack| - 1];
    }

    method DropTo(n: nat)
      requires n <= |stack|
      modifies this`stack
      ensures stack == old(stack[..n])
    {
      while |stack| > n
        invariant n <= |stack| <= |old(stack)| && stack == old(stack)[..|stack|]
      {
        DropTop();
      }
    }

    method Swap()
      requires |stack| > 1
      modifies this`stack
      ensures var n := |old(stack)|; stack == old(stack[..n - 2] + [stack[n - 1], stack[n - 2]])
    {
      var n := |stack|;
      stack := stack[n - 2 := stack[n - 1]][n - 1 := stack[n - 2]];
    }

    method SetTop(v: Val)
      requires |stack| > 0
      modifies this`stack
      ensures stack == old(stack[..|stack| - 1]) + [v]
    {
      stack := stack[|stack| - 1 := v];
    }

    /** Replaces the value on top by its truth value. */
    method GetSetLogical() returns (t: bool)
      requires HeldAt(stack, |stack| - 1)
      modifies this`stack
      ensures t == Truth(m.fp, old(Top(stack)).v) && stack == old(Drop(stack)) + [Held(Logical(t))]
    {
      t := Truth(m.fp, Top(stack).v);
      SetTop(Held(Logical(t)));
    }

    /** The operand cell of the current instruction. */
    method Operand() returns (arg: int)
      requires 0 <= ip < |m.code|
      modifies this`ip
      ensures arg == m.code[old(ip)] && ip == old(ip) + 1
    {
      arg := m.code[ip];
      ip := ip + 1;
    }

    // ---------- instructions: each starts with ip just past the opcode ----------

    method Unary(op: int)
      requires IsUnaryOp(op) && StepUnary(m, State(ip - 1, stack, parmbase), op).Next?
      modifies this`stack
      ensures St() == old(StepUnary(m, State(ip - 1, stack, parmbase), op)).st
    {
      if op == TK_NOT {
        var t := GetSetLogical();
        SetTop(Held(Logical(!t)));
      } else if op == OP_NOTNOT {
        var t := GetSetLogical();
      } else {
        SetTop(Held(Negate(m.fp, Top(stack).v)));
      }
    }

    method Binary(op: int)
      requires IsBinaryOp(op) && StepBinary(m, State(ip - 1, stack, parmbase), op).Next?
      modifies this`stack
      ensures St() == old(StepBinary(m, State(ip - 1, stack, parmbase), op)).st
    {
      var left, right := stack[|stack| - 2].v, stack[|stack| - 1].v;
      if IsCompare(op) {
        DropTop();
        DropTop();
        PushVal(Held(Logical(Compare(m.fp, op, left, right))));
      } else {
        DropTop();
        SetTop(Held(Arith(m.fp, op, left, right)));
      }
    }

    method Assign(op: int)
      requires IsAsgn(op) && StepAssign(m, State(ip - 1, stack, parmbase), op).Next?
      modifies this`stack
      ensures St() == old(StepAssign(m, State(ip - 1, stack, parmbase), op)).st
    {
      var n := |stack|;
      var slot := stack[n - 2].slot;
      var k := if slot >= 0 then slot else parmbase - slot;
      if op == TK_ASGN {
        SetTop(Held(Scalar(Top(stack).v)));
        stack := stack[k := Top(stack)];
        Swap();
        DropTop();
      } else {
        var v := Held(Arith(m.fp, AsgnArith(op), stack[k].v, Top(stack).v));
        stack := stack[k := v];
        DropTop();
        DropTop();
        PushVal(v);
      }
    }

    method Increment(op: int)
      requires IsStepOp(op) && StepIncr(m, State(ip - 1, stack, parmbase), op).Next?
      modifies this`stack
      ensures St() == old(StepIncr(m, State(ip - 1, stack, parmbase), op)).st
    {
      var n := |stack|;
      var slot := Top(stack).slot;
      var k := if slot >= 0 then slot else parmbase - slot;
      var v := Arith(m.fp, TK_PLUS, stack[k].v, StepDelta(op));
      stack := stack[k := Held(v)];
      PushVal(Held(v));
      if op == TK_INCR || op == TK_DECR { SetTop(Held(Arith(m.fp, TK_MINUS, v, StepDelta(op)))); }
      Swap();
      DropTop();
    }

    method Test(op: int, arg: int)
      requires (IsTestJump(op) || IsLogic(op)) && StepTest(m, St(), op, arg).Next?
      modifies this`ip, this`stack
      ensures St() == old(StepTest(m, St(), op, arg)).st
    {
      var t := GetSetLogical();
      if IsLogic(op) {
        if t == (op == TK_AND) { DropTop(); } else { ip := ip + arg; }
      } else {
        DropTop();
        if t != (op != TK_WHILE) { ip := ip + arg; }
      }
    }

    method PrepareCall(fn: int)
      modifies this`stack
      ensures stack == old(stack) + [Held(NUMERIC_ZERO), Word(0), Word(0), Word(0), Word(fn)]
    {
      PushVal(Held(NUMERIC_ZERO));
      PushVal(Word(0));
      PushVal(Word(0));
      PushVal(Word(0));
      PushVal(Word(fn));
    }

    method CallFunction(nargs: int)
      requires StepCall(m, St(), nargs).Next?
      modifies this`ip, this`stack
      ensures St() == old(StepCall(m, St(), nargs)).st
    {
      var newparmbase := |stack| - 1 - nargs;
      stack := stack[newparmbase + RETURN_ADDR := Word(ip)];
      stack := stack[newparmbase + ARG_CNT := Word(nargs)];
      PushVal(Word(nargs));
      ip := m.funcs[stack[newparmbase + FUNCTION_NUM].i].addr;
    }

    /** Surplus arguments are dropped one by one, missing ones pushed. */
    method FitArguments(nargs: nat, nparms: nat, scalars: set<int>)
      requires nargs <= |stack|
      modifies this`stack
      ensures stack == if nargs > nparms then old(stack)[..|old(stack)| - (nargs - nparms)]
                       else old(stack) + Unpassed(nargs, nparms, scalars)
    {
      var n := nargs;
      while n > nparms
        invariant 0 <= n <= nargs <= |old(stack)| && stack == old(stack)[..|old(stack)| - (nargs - n)]
        invariant n >= nparms || n == nargs
      {
        DropTop();
        n := n - 1;
      }
      ghost var first, kept := n, stack;
      while n < nparms
        invariant first <= n && (n <= nparms || n == first)
        invariant stack == kept + Unpassed(first, n, scalars)
      {
        assert Unpassed(first, n + 1, scalars) == Unpassed(first, n, scalars) + [Held(Fresh(scalars, -(n + 1)))];
        PushVal(Held(if -(n + 1) in scalars then Uninit else Untyped));
        n := n + 1;
      }
    }

    /** Function prologue. */
    method EnterFunction(fn: int)
      requires StepEnter(m, St(), fn).Next?
      modifies this`stack, this`parmbase
      ensures St() == old(StepEnter(m, St(), fn)).st
    {
      var nargs := Top(stack).i;
      DropTop();
      var newparmbase := |stack| - 1 - nargs;
      stack := stack[newparmbase + PREV_PARMBASE := Word(parmbase)];
      parmbase := newparmbase;
      FitArguments(nargs, m.funcs[fn].nparms, m.funcs[fn].scalars);
    }

    method ReturnFromFunction()
      requires StepReturn(St()).Next?
      modifies this
      ensures St() == old(StepReturn(St())).st
    {
      SetTop(Held(Scalar(Top(stack).v)));
      stack := stack[parmbase + RETURN_VALUE := Top(stack)];
      DropTop();
      ghost var kept := stack;
      var ra, pb := stack[parmbase + RETURN_ADDR].i, stack[parmbase + PREV_PARMBASE].i;
      DropTo(parmbase + RETURN_VALUE + 1);
      ip, parmbase := ra, pb;
    }

    method WithOperand(op: int)
      requires 0 <= ip < |m.code| && StepOperand(m, State(ip + 1, stack, parmbase), op, m.code[ip]).Next?
      modifies this
      ensures St() == old(StepOperand(m, State(ip + 1, stack, parmbase), op, m.code[ip])).st
    {
      hide StepTest, StepCall, StepEnter, StepReturn;
      var arg := Operand();
      if op == TK_NUMBER {
        PushVal(Held(m.lits[arg]));
      } else if op == TK_VAR {
        PushVal(stack[if arg < 0 then parmbase - arg else arg]);
      } else if op == OP_VARREF {
        PushVal(Reference(arg));
      } else if IsPlainJump(op) {
        ip := ip + arg;
      } else if IsTestJump(op) || IsLogic(op) {
        Test(op, arg);
      } else if op == OP_PREPCALL {
        PrepareCall(arg);
      } else if op == TK_FUNC {
        CallFunction(arg);
      } else if op == TK_FUNCTION {
        EnterFunction(arg);
      } else {
        ReturnFromFunction();
      }
    }

    /** Executes the instruction op, already fetched. */
    method Instruction(op: int)
      requires 0 < ip <= |m.code| && m.code[ip - 1] == op && Step(m, State(ip - 1, stack, parmbase)).Next?
      modifies this
      ensures St() == old(Step(m, State(ip - 1, stack, parmbase))).st
    {
      hide StepUnary, StepBinary, StepAssign, StepIncr, StepOperand;
      if IsUnaryOp(op) {
        Unary(op);
      } else if IsBinaryOp(op) {
        Binary(op);
      } else if IsAsgn(op) {
        Assign(op);
      } else if IsStepOp(op) {
        Increment(op);
      } else if op == OP_DROP {
        DropTop();
      } else {
        WithOperand(op);
      }
    }

    /** Runs from start to a quit. The run is known to stop after n instructions in the state last. */
    method Interpx(start: int, ghost n: nat, ghost last: State)
      requires StopsIn(m, State(start, stack, 0), n, last)
      modifies this
      ensures stack == last.stack && parmbase == last.parmbase
    {
      hide Step;
      ip, parmbase := start, 0;
      ghost var left: nat := n;
      Fetchable(m, St(), left, last);
      var op := m.code[ip];
      ip := ip + 1;
      while op != 0 && op != OP_QUIT
        invariant 0 <= left <= n && 0 < ip <= |m.code| && m.code[ip - 1] == op
        invariant StopsIn(m, State(ip - 1, stack, parmbase), left, last)
        decreases left
      {
        OneStep(m, State(ip - 1, stack, parmbase), left, last);
        Instruction(op);
        left := left - 1;
        Fetchable(m, St(), left, last);
        op := m.code[ip];
        ip := ip + 1;
      }
      AtEnd(m, State(ip - 1, stack, parmbase), left, last);
    }
  }

  lemma Fetchable(m: Machine, st: State, n: nat, last: State)
    requires StopsIn(m, st, n, last)
    ensures 0 <= st.ip < |m.code|
  {}

  lemma OneStep(m: Machine, st: State, n: nat, last: State)
    requires StopsIn(m, st, n, last) && 0 <= st.ip < |m.code| && m.code[st.ip] != 0 && m.code[st.ip] != OP_QUIT
    ensures n > 0 && Step(m, st).Next? && StopsIn(m, Step(m, st).st, n - 1, last)
  {}

  lemma AtEnd(m: Machine, st: State, n: nat, last: State)
    requires StopsIn(m, st, n, last) && 0 <= st.ip < |m.code| && (m.code[st.ip] == 0 || m.code[st.ip] == OP_QUIT)
    ensures last == st
  {}
}
