/** Layout of a whole compiled program: functions, and BEGIN rules chained by back-patched jumps. */
module AwkLayout {
  import opened AwkSyntax
  import opened AwkValues
  import opened AwkCode
  import opened AwkSpine
  import opened AwkStmtText
  import opened AwkCompiler
  import opened AwkSemantics
  import opened AwkVm
  import opened AwkEffects
  import opened Wrappers

  // ---------- what a list of items defines ----------

  function BeginsOf(items: seq<Item>): seq<seq<Stmt>> {
    if items == [] then []
    else
      var last := items[|items| - 1];
      if last.Begin? then BeginsOf(items[..|items| - 1]) + [last.body] else BeginsOf(items[..|items| - 1])
  }

  function FuncsOf(items: seq<Item>): Funcs {
    if items == [] then map[]
    else
      var last := items[|items| - 1];
      var rest := FuncsOf(items[..|items| - 1]);
      if last.Function? then rest[last.fn := FuncDef(last.nparms, last.body)] else rest
  }

  /** No function is defined twice. */
  predicate Distinct(items: seq<Item>) {
    items == []
    || (Distinct(items[..|items| - 1])
        && (items[|items| - 1].Function? ==> items[|items| - 1].fn !in FuncsOf(items[..|items| - 1])))
  }

  /** Jumps are placed legally, and rules use no parameters. */
  predicate PlacedItem(it: Item) { PlacedB(it.body, false, it.Function?) && (it.Begin? ==> LocalSlots(UsesB(it.body)) == {}) }

  /** Variables that are used as scalars anywhere outside their function's parameters. */
  function ScalarsOf(items: seq<Item>): set<int> {
    if items == [] then {} else ScalarsOf(items[..|items| - 1]) + GlobalSlots(UsesB(items[|items| - 1].body))
  }

  // ---------- jump targets do not matter to code that never leaves ----------

  /** Code of statements that cannot break or continue outwards, nor return, does not depend on where those would lead. */
  lemma {:induction false} DestIrrelevant(s: Stmt, k: int, d: Dest, d': Dest, inLoop: bool, inFunc: bool)
    requires Placed(s, inLoop, inFunc)
    requires inLoop ==> d.brk == d'.brk && d.cont == d'.cont
    requires inFunc ==> d.nparms == d'.nparms
    ensures CodeS(s, k, d) == CodeS(s, k, d')
    decreases s, 0
  {
    hide CodeE, LitsE, CodeS, CodeSimple, LitsOpt, LitsS, LitsB, CodeB;
    match s
    case SBlock(b) =>
      DestIrrelevantB(b, k, d, d', inLoop, inFunc);
      BlockCode(s, k, d);
      BlockCode(s, k, d');
    case SIf(c, t) =>
      var n := |CodeE(c, k)| + 2;
      DestIrrelevant(t, k + |LitsE(c)|, Shift(d, n), Shift(d', n), inLoop, inFunc);
      IfCode(s, k, d);
      IfCode(s, k, d');
    case SIfElse(c, t, f) =>
      var n := |CodeE(c, k)| + 2;
      var kt := k + |LitsE(c)|;
      DestIrrelevant(t, kt, Shift(d, n), Shift(d', n), inLoop, inFunc);
      var m := n + |CodeS(t, kt, Shift(d, n))| + 2;
      DestIrrelevant(f, kt + |LitsS(t)|, Shift(d, m), Shift(d', m), inLoop, inFunc);
      IfCode(s, k, d);
      IfCode(s, k, d');
    case SWhile(c, b) =>
      var n := |CodeE(c, k)| + 4;
      DestIrrelevant(b, k + |LitsE(c)|, Dest(-2, -n, d.nparms), Dest(-2, -n, d'.nparms), true, inFunc);
      WhileCode(s, k, d);
      WhileCode(s, k, d');
    case SDo(b, c) =>
      DestIrrelevant(b, k, Dest(-2, -4, d.nparms), Dest(-2, -4, d'.nparms), true, inFunc);
      DoCode(s, k, d);
      DoCode(s, k, d');
    case SFor(i, t, u, b) =>
      var k2 := k + |LitsOpt(i)| + |LitsOpt(t)|;
      var n := |CodeSimple(u, k2)|;
      DestIrrelevant(b, k2 + |LitsOpt(u)|, Dest(-(4 + n), -(2 + n), d.nparms), Dest(-(4 + n), -(2 + n), d'.nparms), true, inFunc);
      ForCode(s, k, d);
      ForCode(s, k, d');
    case _ => DestIrrelevantLeaf(s, k, d, d', inLoop, inFunc);
  }

  lemma DestIrrelevantLeaf(s: Stmt, k: int, d: Dest, d': Dest, inLoop: bool, inFunc: bool)
    requires Placed(s, inLoop, inFunc) && (s.SExpr? || s.SEmpty? || s.SBreak? || s.SContinue? || s.SReturn?)
    requires inLoop ==> d.brk == d'.brk && d.cont == d'.cont
    requires inFunc ==> d.nparms == d'.nparms
    ensures CodeS(s, k, d) == CodeS(s, k, d')
  {
    hide CodeE, LitsE, CodeSimple, LitsOpt, LitsS, LitsB, CodeB, PlacedB;
  }

  lemma {:induction false} DestIrrelevantB(b: seq<Stmt>, k: int, d: Dest, d': Dest, inLoop: bool, inFunc: bool)
    requires PlacedB(b, inLoop, inFunc)
    requires inLoop ==> d.brk == d'.brk && d.cont == d'.cont
    requires inFunc ==> d.nparms == d'.nparms
    ensures CodeB(b, k, d) == CodeB(b, k, d')
    decreases b, 0
  {
    hide CodeS, LitsS;
    if b != [] {
      DestIrrelevant(b[0], k, d, d', inLoop, inFunc);
      var n := |CodeS(b[0], k, d)|;
      DestIrrelevantB(b[1..], k + |LitsS(b[0])|, Shift(d, n), Shift(d', n), inLoop, inFunc);
    }
  }

  // ---------- layout ----------

  const NOWHERE := Dest(0, 0, 0)

  /** Where the BEGIN rules start and where the literals of rules and functions start. */
  datatype Link = Link(starts: seq<int>, ks: seq<int>, fk: map<int, int>)

  function BeginCode(b: seq<Stmt>, k: int): seq<int> { CodeB(b, k, NOWHERE) }

  function BeginEnd(b: seq<Stmt>, start: int, k: int): int { start + |BeginCode(b, k)| }

  /** Rule i is in place, followed by a two-cell jump. */
  ghost predicate BeginAt(m: Machine, b: seq<Stmt>, start: int, k: int) {
    CodeAt(m, start, BeginCode(b, k)) && LitsAt(m, k, LitsB(b)) && BeginEnd(b, start, k) + 1 < |m.code|
  }

  ghost predicate FuncAt(m: Machine, fn: int, f: FuncDef, k: int) {
    && fn in m.funcs && m.funcs[fn].nparms == f.nparms && m.funcs[fn].scalars == LocalSlots(UsesB(f.body))
    && CodeAt(m, m.funcs[fn].addr, FuncCode(fn, f.nparms, f.body, k)) && LitsAt(m, k, FuncLits(f.body))
  }

  function FuncEnd(m: Machine, fn: int, f: FuncDef, k: int): int
    requires fn in m.funcs
  {
    m.funcs[fn].addr + |FuncCode(fn, f.nparms, f.body, k)|
  }

  /** Every function is in place and clear of the open jump whose operand is at lastBegin. */
  ghost predicate FuncsAt(m: Machine, fs: Funcs, fk: map<int, int>, lastBegin: int) {
    forall fn | fn in fs ::
      && fn in fk && FuncAt(m, fn, fs[fn], fk[fn])
      && (FuncEnd(m, fn, fs[fn], fk[fn]) < lastBegin || m.funcs[fn].addr > lastBegin)
  }

  /** The BEGIN rules are in place, each but the last jumping to the next; the last is followed by an open jump. */
  ghost predicate Chained(m: Machine, bs: seq<seq<Stmt>>, lk: Link, firstBegin: int, lastBegin: int) {
    && |lk.starts| == |bs| && |lk.ks| == |bs|
    && (bs == [] ==> firstBegin == 0 && lastBegin == 0)
    && (bs != [] ==> firstBegin == lk.starts[0] && BeginEnd(bs[|bs| - 1], lk.starts[|bs| - 1], lk.ks[|bs| - 1]) + 1 == lastBegin)
    && (forall i | 0 <= i < |bs| :: BeginAt(m, bs[i], lk.starts[i], lk.ks[i]) && lk.starts[i] > 0)
    && (forall i | 0 <= i < |bs| - 1 :: LinkedTo(m, bs[i], lk.starts[i], lk.ks[i], lk.starts[i + 1]))
    && (bs != [] ==> m.code[lastBegin - 1] == OP_JUMP)
  }

  ghost predicate LinkedTo(m: Machine, b: seq<Stmt>, start: int, k: int, next: int) {
    var e := BeginEnd(b, start, k);
    Cells(m, e, OP_JUMP, next - e - 2) && e + 2 <= next
  }

  /** Code and literals grew, and only the cells from lo to hi changed. */
  predicate Grown(m: Machine, m': Machine, lo: int, hi: int) {
    && |m.code| <= |m'.code| && (forall i | 0 <= i < |m.code| :: i < lo || i > hi ==> m'.code[i] == m.code[i])
    && m.lits <= m'.lits
  }

  lemma CodeKept(m: Machine, m': Machine, lo: int, hi: int, pc: int, c: seq<int>)
    requires Grown(m, m', lo, hi) && CodeAt(m, pc, c) && (pc + |c| <= lo || pc > hi)
    ensures CodeAt(m', pc, c)
  {
    forall i | 0 <= i < |c| ensures m'.code[pc + i] == c[i] { assert m.code[pc..pc + |c|][i] == c[i]; }
    assert m'.code[pc..pc + |c|] == c;
  }

  lemma LitsKept(m: Machine, m': Machine, lo: int, hi: int, k: int, ls: seq<Value>)
    requires Grown(m, m', lo, hi) && LitsAt(m, k, ls)
    ensures LitsAt(m', k, ls)
  {
    assert m'.lits[k..k + |ls|] == m.lits[k..k + |ls|];
  }

  /** Functions stay in place when code grows or the open jump is patched. */
  lemma FuncsKept(m: Machine, m': Machine, fs: Funcs, fk: map<int, int>, lastBegin: int)
    requires FuncsAt(m, fs, fk, lastBegin) && Grown(m, m', lastBegin - 1, lastBegin)
    requires forall fn | fn in fs && fn in m.funcs :: fn in m'.funcs && m'.funcs[fn] == m.funcs[fn]
    ensures FuncsAt(m', fs, fk, lastBegin)
  {
    hide CodeAt, LitsAt, Grown, FuncCode, FuncLits;
    forall fn | fn in fs ensures FuncAt(m', fn, fs[fn], fk[fn]) {
      var f, k := fs[fn], fk[fn];
      CodeKept(m, m', lastBegin - 1, lastBegin, m.funcs[fn].addr, FuncCode(fn, f.nparms, f.body, k));
      LitsKept(m, m', lastBegin - 1, lastBegin, k, FuncLits(f.body));
    }
  }

  /** BEGIN rules stay in place, and stay linked, when code grows or the open jump is patched. */
  lemma BeginsKept(m: Machine, m': Machine, bs: seq<seq<Stmt>>, lk: Link, firstBegin: int, lastBegin: int)
    requires Chained(m, bs, lk, firstBegin, lastBegin) && Grown(m, m', lastBegin - 1, lastBegin)
    ensures forall i | 0 <= i < |bs| :: BeginAt(m', bs[i], lk.starts[i], lk.ks[i])
    ensures forall i | 0 <= i < |bs| - 1 :: LinkedTo(m', bs[i], lk.starts[i], lk.ks[i], lk.starts[i + 1])
  {
    hide CodeAt, LitsAt, Grown, CodeB, LitsB, LinkedTo;
    forall i | 0 <= i < |bs| ensures BeginAt(m', bs[i], lk.starts[i], lk.ks[i]) {
      BeginBefore(m, bs, lk, firstBegin, lastBegin, i);
      CodeKept(m, m', lastBegin - 1, lastBegin, lk.starts[i], BeginCode(bs[i], lk.ks[i]));
      LitsKept(m, m', lastBegin - 1, lastBegin, lk.ks[i], LitsB(bs[i]));
      assert |m.code| <= |m'.code| by { GrownLength(m, m', lastBegin - 1, lastBegin); }
    }
    forall i | 0 <= i < |bs| - 1 ensures LinkedTo(m', bs[i], lk.starts[i], lk.ks[i], lk.starts[i + 1]) {
      BeginBefore(m, bs, lk, firstBegin, lastBegin, i + 1);
      LinkKept(m, m', lastBegin, bs[i], lk.starts[i], lk.ks[i], lk.starts[i + 1]);
    }
  }

  lemma GrownLength(m: Machine, m': Machine, lo: int, hi: int)
    requires Grown(m, m', lo, hi)
    ensures |m.code| <= |m'.code|
  {}

  lemma LinkKept(m: Machine, m': Machine, lastBegin: int, b: seq<Stmt>, start: int, k: int, next: int)
    requires LinkedTo(m, b, start, k, next) && Grown(m, m', lastBegin - 1, lastBegin) && next < lastBegin
    ensures LinkedTo(m', b, start, k, next)
  {}

  /** Rules lie before the open jump that follows the last one. */
  lemma {:induction false} BeginBefore(m: Machine, bs: seq<seq<Stmt>>, lk: Link, firstBegin: int, lastBegin: int, i: nat)
    requires Chained(m, bs, lk, firstBegin, lastBegin) && i < |bs|
    ensures BeginEnd(bs[i], lk.starts[i], lk.ks[i]) < lastBegin
    decreases |bs| - i
  {
    hide BeginAt;
    if i + 1 < |bs| {
      BeginBefore(m, bs, lk, firstBegin, lastBegin, i + 1);
      assert LinkedTo(m, bs[i], lk.starts[i], lk.ks[i], lk.starts[i + 1]);
    }
  }
}
