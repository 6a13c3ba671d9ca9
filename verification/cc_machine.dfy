/** The part of x86-64 that integer code uses: registers, byte memory, comparisons and jumps to labels. */
module CcMachine {
  import opened CcInt
  import opened Numbers
  import opened Wrappers

  // ---------- memory ----------

  type Mem = int -> int

  ghost predicate Bytes(mem: Mem) { forall a :: 0 <= mem(a) < 256 }

  function Poke(mem: Mem, p: int, v: int): Mem { a => if a == p then v else mem(a) }

  /** 256^n. */
  function Power(n: nat): (r: nat)
    ensures r > 0
  {
    if n == 0 then 1 else 256 * Power(n - 1)
  }

  /** n bytes from a on, the lowest first. */
  function LoadN(mem: Mem, a: int, n: nat): int
    decreases n
  {
    if n == 0 then 0 else mem(a) + 256 * LoadN(mem, a + 1, n - 1)
  }

  function StoreN(mem: Mem, a: int, n: nat, v: int): Mem
    decreases n
  {
    if n == 0 then mem else StoreN(Poke(mem, a, v % 256), a + 1, n - 1, v / 256)
  }

  lemma {:induction false} StoreElsewhere(mem: Mem, a: int, n: nat, v: int, b: int)
    requires b < a || b >= a + n
    ensures StoreN(mem, a, n, v)(b) == mem(b)
    decreases n
  {
    if n > 0 { StoreElsewhere(Poke(mem, a, v % 256), a + 1, n - 1, v / 256, b); }
  }

  lemma {:induction false} StoreBytes(mem: Mem, a: int, n: nat, v: int)
    requires Bytes(mem)
    ensures Bytes(StoreN(mem, a, n, v))
    decreases n
  {
    if n > 0 { StoreBytes(Poke(mem, a, v % 256), a + 1, n - 1, v / 256); }
  }

  lemma {:induction false} LoadSame(mem: Mem, mem': Mem, a: int, n: nat)
    requires forall b :: a <= b < a + n ==> mem(b) == mem'(b)
    ensures LoadN(mem, a, n) == LoadN(mem', a, n)
    decreases n
  {
    if n > 0 { LoadSame(mem, mem', a + 1, n - 1); }
  }

  lemma {:induction false} LoadRange(mem: Mem, a: int, n: nat)
    requires Bytes(mem)
    ensures 0 <= LoadN(mem, a, n) < Power(n)
    decreases n
  {
    if n > 0 { LoadRange(mem, a + 1, n - 1); }
  }

  /** What is loaded is what was stored, as far as it fits. */
  lemma {:induction false} LoadStored(mem: Mem, a: int, n: nat, v: int)
    ensures LoadN(StoreN(mem, a, n, v), a, n) == v % Power(n)
    decreases n
  {
    if n > 0 {
      var mem1 := Poke(mem, a, v % 256);
      var mem2 := StoreN(mem1, a + 1, n - 1, v / 256);
      StoreElsewhere(mem1, a + 1, n - 1, v / 256, a);
      LoadStored(mem1, a + 1, n - 1, v / 256);
      DigitFirst(v, Power(n - 1));
    }
  }

  lemma DigitFirst(v: int, p: nat)
    requires p > 0
    ensures v % 256 + 256 * ((v / 256) % p) == v % (256 * p)
  {
    var q := v / 256;
    DivMod(q, p);
    var x := q / p;
    assert v == x * (256 * p) + (v % 256 + 256 * (q % p)) by { assert 256 * (x * p) == x * (256 * p); }
    QuotientIs(v, 256 * p, x, v % 256 + 256 * (q % p));
  }

  lemma Powers()
    ensures Power(4) == W32 && Power(8) == W64
  {
    assert Power(1) == 256 && Power(2) == 65536 && Power(3) == 0x100_0000;
    assert Power(4) == W32 && Power(5) == 256 * W32 && Power(6) == 65536 * W32 && Power(7) == 0x100_0000 * W32;
  }

  // ---------- instructions ----------

  datatype LabelKind = LElse | LEnd | LFalse | LTrue | LBegin | LBrk | LCont | LReturn

  datatype Label = Label(kind: LabelKind, n: nat)

  datatype Flag = FE | FNE | FB | FBE | FL | FLE

  /** Sizes are 4 for 32-bit registers and 8 for 64-bit ones. */
  type Width = w: nat | w == 4 || w == 8 witness 4

  datatype Insn =
    | MovImm(v: int)
    | Lea(off: int)
    | LoadMem(size: Width)
    | StoreMem(size: Width)
    | Push
    | PopRdi
    | Alu(op: BinOp, size: Width)
    | ZeroRdx(size: Width)
    | SignRdx(size: Width)
    | DivU(size: Width)
    | DivS(size: Width)
    | MovRdxRax
    | NegRax
    | NotRax
    | CmpRdi(size: Width)
    | CmpZero(size: Width)
    | SetAl(flag: Flag)
    | ZxAl
    | MovRdiRcx
    | ShlCl(size: Width)
    | ShrCl(size: Width)
    | SarCl(size: Width)
    | Movsxd
    | MovEaxEax
    | Jmp(l: Label)
    | Je(l: Label)
    | Jne(l: Label)
    | Lbl(l: Label)

  predicate IsJump(i: Insn) { i.Jmp? || i.Je? || i.Jne? || i.Lbl? }

  /** The operands of the last comparison. */
  datatype Flags = Flags(a: int, b: int, size: Width)

  /** Registers hold numbers below 2^64; the stack and frame pointers are addresses. */
  datatype State = State(pc: int, rax: int, rdi: int, rdx: int, rcx: int, rsp: int, rbp: int, mem: Mem, flags: Flags)

  function Range(w: Width): nat { if w == 4 then W32 else W64 }

  /** The part of a register that a width addresses. */
  function Low(w: Width, r: int): (v: int)
    ensures 0 <= v < Range(w)
  {
    r % Range(w)
  }

  /** Two's complement. */
  function Signed(w: Width, r: int): int { if r >= Range(w) / 2 then r - Range(w) else r }

  predicate FlagHolds(f: Flag, s: Flags) {
    match f
    case FE => s.a == s.b
    case FNE => s.a != s.b
    case FB => s.a < s.b
    case FBE => s.a <= s.b
    case FL => Signed(s.size, s.a) < Signed(s.size, s.b)
    case FLE => Signed(s.size, s.a) <= Signed(s.size, s.b)
  }

  function AluValue(op: BinOp, w: Width, a: nat, b: nat): (v: int)
    ensures 0 <= v < Range(w)
  {
    Low(w, if op == Add then a + b else if op == Sub then a - b else if op == Mul then a * b else Bits(op, a, b))
  }

  /** An instruction that is neither a jump nor a label; None is a trap. */
  function Effect(i: Insn, st: State): Option<State>
    requires !IsJump(i)
  {
    var s := st.(pc := st.pc + 1);
    match i
    case MovImm(v) => Some(s.(rax := v % W64))
    case Lea(off) => Some(s.(rax := (st.rbp + off) % W64))
    case LoadMem(w) =>
      var v := LoadN(st.mem, st.rax, w);
      Some(s.(rax := if w == 4 then Signed(4, v) % W64 else v))
    case StoreMem(w) => Some(s.(mem := StoreN(st.mem, st.rdi, w, st.rax)))
    case Push => Some(s.(rsp := st.rsp - 8, mem := StoreN(st.mem, st.rsp - 8, 8, st.rax)))
    case PopRdi => Some(s.(rsp := st.rsp + 8, rdi := LoadN(st.mem, st.rsp, 8)))
    case Alu(op, w) => Some(s.(rax := AluValue(op, w, Low(w, st.rax), Low(w, st.rdi))))
    case ZeroRdx(_) => Some(s.(rdx := 0))
    case SignRdx(w) => Some(s.(rdx := if Signed(w, Low(w, st.rax)) < 0 then Range(w) - 1 else 0))
    case DivU(w) =>
      var n, d := Low(w, st.rdx) * Range(w) + Low(w, st.rax), Low(w, st.rdi);
      if d == 0 || n / d >= Range(w) then None else Some(s.(rax := n / d, rdx := n % d))
    case DivS(w) =>
      var n, d := Signed(w, Low(w, st.rdx)) * Range(w) + Low(w, st.rax), Signed(w, Low(w, st.rdi));
      if d == 0 || TruncDiv(n, d) >= Range(w) / 2 || TruncDiv(n, d) < -(Range(w) / 2) then None
      else Some(s.(rax := Low(w, TruncDiv(n, d)), rdx := Low(w, TruncMod(n, d))))
    case MovRdxRax => Some(s.(rax := st.rdx))
    case NegRax => Some(s.(rax := (-st.rax) % W64))
    case NotRax => Some(s.(rax := W64 - 1 - st.rax))
    case CmpRdi(w) => Some(s.(flags := Flags(Low(w, st.rax), Low(w, st.rdi), w)))
    case CmpZero(w) => Some(s.(flags := Flags(Low(w, st.rax), 0, w)))
    case SetAl(f) => Some(s.(rax := st.rax - st.rax % 256 + Truth(FlagHolds(f, st.flags))))
    case ZxAl => Some(s.(rax := st.rax % 256))
    case MovRdiRcx => Some(s.(rcx := st.rdi))
    case ShlCl(w) => Some(s.(rax := Low(w, Low(w, st.rax) * Pow2(Count(w, st.rcx)))))
    case ShrCl(w) => Some(s.(rax := Low(w, st.rax) / Pow2(Count(w, st.rcx))))
    case SarCl(w) => Some(s.(rax := Low(w, Signed(w, Low(w, st.rax)) / Pow2(Count(w, st.rcx)))))
    case Movsxd => Some(s.(rax := Signed(4, Low(4, st.rax)) % W64))
    case MovEaxEax => Some(s.(rax := Low(4, st.rax)))
  }

  /** Shift counts come from cl and are masked to the operand's width. */
  function Count(w: Width, rcx: int): (n: nat)
    ensures n < 8 * w
  {
    (rcx % 256) % (8 * w)
  }

  // ---------- programs ----------

  /** Where label l is defined, from position i on. */
  function Find(p: seq<Insn>, l: Label, i: nat): (r: Option<nat>)
    requires i <= |p|
    ensures r.Some? ==> i <= r.value < |p| && p[r.value] == Lbl(l)
    ensures r.Some? ==> forall j :: i <= j < r.value ==> p[j] != Lbl(l)
    ensures r.None? ==> forall j :: i <= j < |p| ==> p[j] != Lbl(l)
    decreases |p| - i
  {
    if i == |p| then None else if p[i] == Lbl(l) then Some(i) else Find(p, l, i + 1)
  }

  function GoTo(p: seq<Insn>, st: State, l: Label): Option<State> {
    var r := Find(p, l, 0);
    if r.Some? then Some(st.(pc := r.value)) else None
  }

  function Step(p: seq<Insn>, st: State): Option<State> {
    if !(0 <= st.pc < |p|) then None
    else
      match p[st.pc]
      case Jmp(l) => GoTo(p, st, l)
      case Je(l) => if FlagHolds(FE, st.flags) then GoTo(p, st, l) else Some(st.(pc := st.pc + 1))
      case Jne(l) => if FlagHolds(FNE, st.flags) then GoTo(p, st, l) else Some(st.(pc := st.pc + 1))
      case Lbl(_) => Some(st.(pc := st.pc + 1))
      case i => Effect(i, st)
  }

  /** The state after n instructions. */
  function Run(p: seq<Insn>, st: State, n: nat): Option<State>
    decreases n
  {
    if n == 0 then Some(st)
    else
      var r := Step(p, st);
      if r.Some? then Run(p, r.value, n - 1) else None
  }

  lemma {:induction false} RunSplit(p: seq<Insn>, st: State, n: nat, k: nat)
    ensures Run(p, st, n + k) == (if Run(p, st, n).Some? then Run(p, Run(p, st, n).value, k) else None)
    decreases n
  {
    hide Step;
    if n > 0 && Step(p, st).Some? {
      RunSplit(p, Step(p, st).value, n - 1, k);
      assert n + k - 1 == n - 1 + k;
    }
  }

  lemma Chain(p: seq<Insn>, st: State, n: nat, mid: State, k: nat, r: Option<State>)
    requires Run(p, st, n) == Some(mid) && Run(p, mid, k) == r
    ensures Run(p, st, n + k) == r
  {
    RunSplit(p, st, n, k);
  }

  predicate CodeAt(p: seq<Insn>, pc: int, c: seq<Insn>) { 0 <= pc && pc + |c| <= |p| && p[pc..pc + |c|] == c }

  lemma CodeCat(p: seq<Insn>, pc: int, a: seq<Insn>, b: seq<Insn>)
    requires CodeAt(p, pc, a + b)
    ensures CodeAt(p, pc, a) && CodeAt(p, pc + |a|, b)
  {
    var s := p[pc..pc + |a + b|];
    assert s[..|a|] == a && s[|a|..] == b;
  }

  /** Straight-line code, run on its own. */
  function Straight(c: seq<Insn>, st: State): Option<State> {
    if c == [] then Some(st)
    else if IsJump(c[0]) then None
    else
      var r := Effect(c[0], st);
      if r.Some? then Straight(c[1..], r.value) else None
  }

  lemma {:induction false} StraightRun(p: seq<Insn>, c: seq<Insn>, st: State)
    requires CodeAt(p, st.pc, c) && Straight(c, st).Some?
    ensures Run(p, st, |c|) == Straight(c, st) && Straight(c, st).value.pc == st.pc + |c|
    decreases |c|
  {
    if c != [] {
      hide Run;
      assert p[st.pc..st.pc + |c|][0] == c[0];
      assert p[st.pc + 1..st.pc + |c|] == c[1..] by { assert p[st.pc..st.pc + |c|][1..] == p[st.pc + 1..st.pc + |c|]; }
      EffectNext(c[0], st);
      var mid := Effect(c[0], st).value;
      StepStraight(p, st);
      StraightRun(p, c[1..], mid);
      RunOne(p, st, mid);
      Chain(p, st, 1, mid, |c| - 1, Straight(c, st));
    } else {
      RunNone(p, st);
    }
  }

  lemma EffectNext(i: Insn, st: State)
    requires !IsJump(i) && Effect(i, st).Some?
    ensures Effect(i, st).value.pc == st.pc + 1
  {}

  lemma StepStraight(p: seq<Insn>, st: State)
    requires 0 <= st.pc < |p| && !IsJump(p[st.pc])
    ensures Step(p, st) == Effect(p[st.pc], st)
  {
    hide Effect;
  }

  lemma RunOne(p: seq<Insn>, st: State, st': State)
    requires Step(p, st) == Some(st')
    ensures Run(p, st, 1) == Some(st')
  {
    hide Step;
    assert Run(p, st', 0) == Some(st');
  }

  lemma RunNone(p: seq<Insn>, st: State)
    ensures Run(p, st, 0) == Some(st)
  {}

  // ---------- labels ----------

  /** How often l is defined. */
  function CountLabel(c: seq<Insn>, l: Label): nat {
    if c == [] then 0 else (if c[0] == Lbl(l) then 1 else 0) + CountLabel(c[1..], l)
  }

  lemma {:induction false} CountCat(a: seq<Insn>, b: seq<Insn>, l: Label)
    ensures CountLabel(a + b, l) == CountLabel(a, l) + CountLabel(b, l)
  {
    if a == [] {
      assert a + b == b;
    } else {
      assert (a + b)[1..] == a[1..] + b;
      CountCat(a[1..], b, l);
    }
  }

  ghost predicate UniqueLabels(p: seq<Insn>) { forall l: Label :: CountLabel(p, l) <= 1 }

  lemma TwoLabels(p: seq<Insn>, l: Label, j: nat, i: nat)
    requires j < i < |p| && p[i] == p[j] == Lbl(l)
    ensures CountLabel(p, l) >= 2
  {
    var a, b, c := p[..j], p[j + 1..i], p[i + 1..];
    assert p == a + ([p[j]] + (b + ([p[i]] + c)));
    CountCat(a, [p[j]] + (b + ([p[i]] + c)), l);
    CountCat([p[j]], b + ([p[i]] + c), l);
    CountCat(b, [p[i]] + c, l);
    CountCat([p[i]], c, l);
    assert CountLabel([Lbl(l)], l) == 1;
  }

  /** A label that is defined once is found where it is. */
  lemma FoundAt(p: seq<Insn>, l: Label, i: nat)
    requires UniqueLabels(p) && i < |p| && p[i] == Lbl(l)
    ensures Find(p, l, 0) == Some(i)
  {
    var j := Find(p, l, 0).value;
    if j < i { TwoLabels(p, l, j, i); }
  }
}
