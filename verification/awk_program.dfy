/** Whole programs: rules, function definitions, and the chaining of BEGIN rules by back-patching. */
module AwkProgram {
  import opened AwkSyntax
  import opened AwkValues
  import opened AwkCode
  import opened AwkSpine
  import opened AwkStmtText
  import opened AwkCompiler
  import opened AwkStatements
  import opened AwkSemantics
  import opened AwkVm
  import opened AwkEffects
  import opened AwkLayout
  import opened Wrappers

  /** The machine that the compiler's output so far describes. */
  ghost function Output(tt: Compiler, fp: Fpu): Machine
    reads tt
  {
    Machine(tt.code, tt.lits, tt.funcs, fp)
  }

  /** The items compiled so far are laid out as lk says. */
  ghost predicate LaidOut(m: Machine, items: seq<Item>, lk: Link, firstBegin: int, lastBegin: int) {
    && FuncsAt(m, FuncsOf(items), lk.fk, lastBegin)
    && Chained(m, BeginsOf(items), lk, firstBegin, lastBegin)
    && |m.code| > lastBegin >= 0
  }

  ghost predicate Between(tt: Compiler, fp: Fpu, items: seq<Item>, lk: Link)
    reads tt
  {
    && tt.Loose() && tt.breakDest == 0 && tt.continueDest == 0 && !tt.inFunctionBody
    && LaidOut(Output(tt, fp), items, lk, tt.firstBegin, tt.lastBegin) && tt.scalars == ScalarsOf(items)
  }

  lemma ItemsOfSnoc(items: seq<Item>, it: Item)
    ensures var all := items + [it];
      && BeginsOf(all) == (if it.Begin? then BeginsOf(items) + [it.body] else BeginsOf(items))
      && FuncsOf(all) == (if it.Function? then FuncsOf(items)[it.fn := FuncDef(it.nparms, it.body)] else FuncsOf(items))
      && ScalarsOf(all) == ScalarsOf(items) + GlobalSlots(UsesB(it.body))
  {
    var all := items + [it];
    assert all[..|all| - 1] == items && all[|all| - 1] == it;
  }

  // ---------- BEGIN rules ----------

  /** The code after a BEGIN rule: the open jump of the previous one now leads to it. */
  function WithBegin(code: seq<int>, lastBegin: int, c: seq<int>): seq<int>
    requires 0 <= lastBegin < |code|
  {
    (if lastBegin != 0 then code[lastBegin := |code| - 1 - lastBegin] else code) + c + [OP_JUMP, -1]
  }

  lemma AddBegin(m: Machine, m': Machine, items: seq<Item>, lk: Link, firstBegin: int, lastBegin: int, b: seq<Stmt>, d: Dest)
    requires LaidOut(m, items, lk, firstBegin, lastBegin) && PlacedB(b, false, false)
    requires m'.code == WithBegin(m.code, lastBegin, CodeB(b, |m.lits|, d))
    requires m'.lits == m.lits + LitsB(b) && m'.funcs == m.funcs
    ensures var lk' := Link(lk.starts + [|m.code|], lk.ks + [|m.lits|], lk.fk);
      LaidOut(m', items + [Begin(b)], lk', if lastBegin != 0 then firstBegin else |m.code|, |m'.code| - 1)
  {
    hide CodeB, LitsB, UsesB, PlacedB, FuncsOf, BeginsOf, FuncsAt, Chained, WithBegin, Grown;
    DestIrrelevantB(b, |m.lits|, d, NOWHERE, false, false);
    ItemsOfSnoc(items, Begin(b));
    BeginGrows(m, m', lastBegin, CodeB(b, |m.lits|, d), LitsB(b));
    FuncsKept(m, m', FuncsOf(items), lk.fk, lastBegin);
    FuncsBefore(m, m', FuncsOf(items), lk.fk, lastBegin);
    AddLink(m, m', BeginsOf(items), lk, firstBegin, lastBegin, b);
  }

  lemma BeginGrows(m: Machine, m': Machine, lastBegin: int, c: seq<int>, ls: seq<Value>)
    requires 0 <= lastBegin < |m.code|
    requires m'.code == WithBegin(m.code, lastBegin, c) && m'.lits == m.lits + ls
    ensures Grown(m, m', lastBegin - 1, lastBegin) && |m'.code| == |m.code| + |c| + 2
    ensures CodeAt(m', |m.code|, c) && LitsAt(m', |m.lits|, ls) && Cells(m', |m'.code| - 2, OP_JUMP, -1)
    ensures lastBegin != 0 ==> m'.code[lastBegin - 1] == m.code[lastBegin - 1] && m'.code[lastBegin] == |m.code| - 1 - lastBegin
  {
    assert m'.code[|m.code|..|m.code| + |c|] == c;
    assert m'.lits[|m.lits|..|m.lits| + |ls|] == ls;
  }

  /** Functions lie inside the old code, so they are clear of a jump beyond it. */
  lemma FuncsBefore(m: Machine, m': Machine, fs: Funcs, fk: map<int, int>, lastBegin: int)
    requires FuncsAt(m, fs, fk, lastBegin) && FuncsAt(m', fs, fk, lastBegin) && m'.funcs == m.funcs
    requires |m'.code| >= |m.code| + 2
    ensures FuncsAt(m', fs, fk, |m'.code| - 1)
  {
    hide FuncCode, FuncLits, LitsAt;
    forall fn | fn in fs ensures FuncEnd(m', fn, fs[fn], fk[fn]) < |m'.code| - 1 {
      assert FuncAt(m, fn, fs[fn], fk[fn]);
    }
  }

  lemma AddLink(m: Machine, m': Machine, bs: seq<seq<Stmt>>, lk: Link, firstBegin: int, lastBegin: int, b: seq<Stmt>)
    requires Chained(m, bs, lk, firstBegin, lastBegin) && Grown(m, m', lastBegin - 1, lastBegin)
    requires 0 <= lastBegin < |m.code|
    requires CodeAt(m', |m.code|, BeginCode(b, |m.lits|)) && LitsAt(m', |m.lits|, LitsB(b))
    requires |m'.code| == |m.code| + |BeginCode(b, |m.lits|)| + 2 && Cells(m', |m'.code| - 2, OP_JUMP, -1)
    requires lastBegin != 0 ==> m'.code[lastBegin - 1] == m.code[lastBegin - 1] && m'.code[lastBegin] == |m.code| - 1 - lastBegin
    ensures Chained(m', bs + [b], Link(lk.starts + [|m.code|], lk.ks + [|m.lits|], lk.fk),
                    if lastBegin != 0 then firstBegin else |m.code|, |m'.code| - 1)
  {
    hide CodeB, LitsB, UsesB, CodeAt, LitsAt, Grown;
    var n, bs' := |bs|, bs + [b];
    var starts, ks := lk.starts + [|m.code|], lk.ks + [|m.lits|];
    BeginsKept(m, m', bs, lk, firstBegin, lastBegin);
    if n > 0 {
      assert BeginAt(m, bs[n - 1], lk.starts[n - 1], lk.ks[n - 1]);
      assert LinkedTo(m', bs[n - 1], starts[n - 1], ks[n - 1], starts[n]);
    }
    forall i | 0 <= i < n + 1 ensures BeginAt(m', bs'[i], starts[i], ks[i]) && starts[i] > 0 {
      if i < n { assert BeginAt(m', bs[i], lk.starts[i], lk.ks[i]); }
    }
    forall i | 0 <= i < n ensures LinkedTo(m', bs'[i], starts[i], ks[i], starts[i + 1]) {
      if i < n - 1 { assert LinkedTo(m', bs[i], lk.starts[i], lk.ks[i], lk.starts[i + 1]); }
    }
  }

  // ---------- function definitions ----------

  lemma AddFunction(m: Machine, m': Machine, items: seq<Item>, lk: Link, firstBegin: int, lastBegin: int, it: Item)
    requires LaidOut(m, items, lk, firstBegin, lastBegin) && it.Function? && it.fn !in FuncsOf(items)
    requires m'.code == m.code + FuncCode(it.fn, it.nparms, it.body, |m.lits|)
    requires m'.lits == m.lits + FuncLits(it.body) && m'.funcs == m.funcs[it.fn := Func(|m.code|, it.nparms, LocalSlots(UsesB(it.body)))]
    ensures LaidOut(m', items + [it], Link(lk.starts, lk.ks, lk.fk[it.fn := |m.lits|]), firstBegin, lastBegin)
  {
    hide CodeB, LitsB, UsesB, FuncsOf, BeginsOf, FuncsAt, Chained, FuncCode, FuncLits, Grown;
    var lk' := Link(lk.starts, lk.ks, lk.fk[it.fn := |m.lits|]);
    ItemsOfSnoc(items, it);
    Appended(m, m', lastBegin, FuncCode(it.fn, it.nparms, it.body, |m.lits|), FuncLits(it.body));
    FuncsKept(m, m', FuncsOf(items), lk.fk, lastBegin);
    FuncsPlusOne(m', FuncsOf(items), lk.fk, lastBegin, it, |m.lits|);
    ChainKept(m, m', BeginsOf(items), lk, firstBegin, lastBegin);
    SameChain(m', BeginsOf(items), lk, lk', firstBegin, lastBegin);
  }

  lemma Appended(m: Machine, m': Machine, lastBegin: int, c: seq<int>, ls: seq<Value>)
    requires m'.code == m.code + c && m'.lits == m.lits + ls && 0 <= lastBegin < |m.code|
    ensures Grown(m, m', lastBegin - 1, lastBegin) && CodeAt(m', |m.code|, c) && LitsAt(m', |m.lits|, ls)
    ensures lastBegin > 0 ==> m'.code[lastBegin - 1] == m.code[lastBegin - 1]
  {
    assert m'.code[|m.code|..|m.code| + |c|] == c;
    assert m'.lits[|m.lits|..|m.lits| + |ls|] == ls;
  }

  lemma FuncsPlusOne(m: Machine, fs: Funcs, fk: map<int, int>, lastBegin: int, it: Item, k: int)
    requires FuncsAt(m, fs, fk, lastBegin) && it.Function? && it.fn !in fs
    requires FuncAt(m, it.fn, FuncDef(it.nparms, it.body), k) && m.funcs[it.fn].addr > lastBegin
    ensures FuncsAt(m, fs[it.fn := FuncDef(it.nparms, it.body)], fk[it.fn := k], lastBegin)
  {
    hide FuncCode, FuncLits, CodeAt, LitsAt;
  }

  lemma ChainKept(m: Machine, m': Machine, bs: seq<seq<Stmt>>, lk: Link, firstBegin: int, lastBegin: int)
    requires Chained(m, bs, lk, firstBegin, lastBegin) && Grown(m, m', lastBegin - 1, lastBegin)
    requires lastBegin < |m'.code| && (lastBegin > 0 ==> lastBegin <= |m.code| && m'.code[lastBegin - 1] == m.code[lastBegin - 1])
    ensures Chained(m', bs, lk, firstBegin, lastBegin)
  {
    hide BeginAt, LinkedTo, Grown;
    BeginsKept(m, m', bs, lk, firstBegin, lastBegin);
    FirstOrLater(m, bs, lk, firstBegin, lastBegin);
  }

  /** No rule so far exactly if no open jump exists. */
  lemma FirstOrLater(m: Machine, bs: seq<seq<Stmt>>, lk: Link, firstBegin: int, lastBegin: int)
    requires Chained(m, bs, lk, firstBegin, lastBegin)
    ensures lastBegin != 0 <==> bs != []
    ensures lastBegin >= 0
  {
    hide CodeB;
    if bs != [] { assert BeginAt(m, bs[|bs| - 1], lk.starts[|bs| - 1], lk.ks[|bs| - 1]); }
  }

  lemma SameChain(m: Machine, bs: seq<seq<Stmt>>, lk: Link, lk': Link, firstBegin: int, lastBegin: int)
    requires Chained(m, bs, lk, firstBegin, lastBegin) && lk'.starts == lk.starts && lk'.ks == lk.ks
    ensures Chained(m, bs, lk', firstBegin, lastBegin)
  {
    hide BeginAt, LinkedTo;
  }

  // ---------- the compiler's top level ----------

  lemma BlockStarts(b: seq<Stmt>)
    ensures |PrintStmt(SBlock(b))| > 0 && PrintStmt(SBlock(b))[0] == Op(TK_LBRACE)
    ensures forall tt: Compiler, p: nat :: Taken(tt, SBlock(b), p) == |PrintStmt(SBlock(b))|
  {
    hide PrintStmts;
  }

  lemma BlockReady(tt: Compiler, b: seq<Stmt>)
    requires tt.Valid() && tt.At(tt.cur, PrintStmt(SBlock(b))) && tt.breakDest == 0 && tt.continueDest == 0
    requires PlacedB(b, false, tt.inFunctionBody)
    ensures StmtReady(tt, SBlock(b))
  {
    hide PrintStmts, PlacedB;
  }

  /** A BEGIN rule: the previous one is made to jump here, and an open jump is left at its end. */
  method BeginRule(tt: Compiler, ghost b: seq<Stmt>, ghost fp: Fpu, ghost items: seq<Item>, ghost lk: Link)
    returns (ghost lk': Link)
    requires tt.Valid() && Between(tt, fp, items, lk) && tt.At(tt.cur, PrintItem(Begin(b))) && PlacedItem(Begin(b))
    modifies tt
    ensures Between(tt, fp, items + [Begin(b)], lk') && tt.cur == old(tt.cur) + |PrintItem(Begin(b))|
  {
    hide Compiler.Layout, Compiler.Ignored, Compiler.At, PrintStmt, PrintStmts, PlacedB, CodeB, LitsB, UsesB, CodeS, LitsS, UsesS, LaidOut, Taken, StmtReady, ScalarsOf, PlacedItem;
    ghost var s := SBlock(b);
    ghost var was, first, last := Output(tt, fp), tt.firstBegin, tt.lastBegin;
    BlockStarts(b);
    MarksBegin(items, b);
    LastBound(was, items, lk, first, last);
    BeginHead(tt, PrintStmt(s));
    ghost var k, d := |tt.lits|, Here(tt);
    BlockReady(tt, b);
    BlockCode(s, k, d);
    Action(tt, s);
    tt.Gen2cd(OP_JUMP, -1);
    tt.lastBegin := tt.zcodeLast;
    lk' := Link(lk.starts + [|was.code|], lk.ks + [k], lk.fk);
    AddBegin(was, Output(tt, fp), items, lk, first, last, b, d);
  }

  /** The word BEGIN: the jump that the previous rule has left open is made to lead here. */
  method BeginHead(tt: Compiler, ghost text: seq<Token>)
    requires tt.Valid() && tt.At(tt.cur, [Op(TK_BEGIN)] + text) && 0 <= tt.lastBegin < |tt.code|
    modifies tt`pos, tt`cur, tt`prevtok, tt`code, tt`firstBegin
    ensures tt.Valid() && tt.cur == old(tt.cur) + 1 && tt.At(tt.cur, text)
    ensures var at := |old(tt.code)|;
      if tt.lastBegin != 0 then tt.code == old(tt.code)[tt.lastBegin := at - 1 - tt.lastBegin] && tt.firstBegin == old(tt.firstBegin)
      else tt.code == old(tt.code) && tt.firstBegin == at
  {
    hide Compiler.Layout, Compiler.Ignored, Compiler.At;
    tt.AtCat(tt.cur, [Op(TK_BEGIN)], text);
    tt.Scan();
    if tt.lastBegin != 0 {
      tt.code := tt.code[tt.lastBegin := tt.zcodeLast - tt.lastBegin];
    } else {
      tt.firstBegin := tt.zcodeLast + 1;
    }
  }

  /** A rule marks global variables only. */
  lemma MarksBegin(items: seq<Item>, b: seq<Stmt>)
    requires PlacedItem(Begin(b))
    ensures PlacedB(b, false, false) && ScalarsOf(items + [Begin(b)]) == ScalarsOf(items) + UsesB(b)
  {
    hide PlacedB, UsesB;
    ItemsOfSnoc(items, Begin(b));
    var slots := UsesB(b);
    assert forall x :: x in slots && x < 0 ==> x in LocalSlots(slots);
    assert GlobalSlots(slots) == slots;
  }

  /** The marks on a function's parameters are taken out again when it ends. */
  lemma {:induction false} MarksSplit(items: seq<Item>, slots: set<int>)
    ensures LocalSlots(ScalarsOf(items) + slots) == LocalSlots(slots) && GlobalSlots(ScalarsOf(items) + slots) == ScalarsOf(items) + GlobalSlots(slots)
  {
    hide UsesB;
    if items != [] { MarksSplit(items[..|items| - 1], {}); }
  }

  lemma LastBound(m: Machine, items: seq<Item>, lk: Link, firstBegin: int, lastBegin: int)
    requires LaidOut(m, items, lk, firstBegin, lastBegin)
    ensures 0 <= lastBegin < |m.code|
  {
    hide FuncsAt, Chained;
  }

  lemma {:induction false} ParmTokens(n: nat)
    ensures |PrintParms(n)| == if n == 0 then 0 else 2 * n - 1
    ensures forall i :: 0 <= i < |PrintParms(n)| ==>
      && PrintParms(n)[i].kind == (if i % 2 == 0 then TK_VAR else TK_COMMA) && PrintParms(n)[i].gap == (if i % 2 == 0 then Tight else Newlines)
  {
    if n > 1 { ParmTokens(n - 1); }
  }

  /** Where the parts of a function definition stand. */
  lemma FunctionTokens(tt: Compiler, it: Item, pos: nat)
    requires it.Function? && tt.At(pos, PrintItem(it))
    ensures tt.Lex(pos) == Plain(Op(TK_FUNCTION)) && tt.Lex(pos + 1) == Lexeme(TK_FUNC, it.fn, ZERO) && tt.Lex(pos + 2) == Plain(Op(TK_LPAREN))
    ensures pos + 2 < |tt.toks| && tt.toks[pos].gap == Tight && tt.toks[pos + 1].gap == Tight && tt.toks[pos + 2].gap == Tight
    ensures var p := pos + 3 + |PrintParms(it.nparms)|;
      && |PrintItem(it)| == 4 + |PrintParms(it.nparms)| + |PrintStmt(SBlock(it.body))|
      && tt.At(p + 1, PrintStmt(SBlock(it.body))) && tt.Kind(p + 1) == TK_LBRACE && ParametersAt(tt, it.nparms, pos + 3)
  {
    hide *;
    var h, ps, b := [Op(TK_FUNCTION), Token(TK_FUNC, it.fn, ZERO, Tight), Op(TK_LPAREN)], PrintParms(it.nparms), PrintStmt(SBlock(it.body));
    FunctionText(it);
    HeadStands(tt, h, ps + ([Soft(TK_RPAREN)] + b), pos);
    ParametersStand(tt, it.nparms, b, pos + 3);
  }

  lemma FunctionText(it: Item)
    requires it.Function?
    ensures var h, ps, b := [Op(TK_FUNCTION), Token(TK_FUNC, it.fn, ZERO, Tight), Op(TK_LPAREN)], PrintParms(it.nparms), PrintStmt(SBlock(it.body));
      && PrintItem(it) == h + (ps + ([Soft(TK_RPAREN)] + b)) && |b| > 0 && b[0] == Op(TK_LBRACE)
      && Op(TK_FUNCTION).gap == Tight && Op(TK_LPAREN).gap == Tight
      && Plain(h[1]) == Lexeme(TK_FUNC, it.fn, ZERO)
  {
    hide PrintStmts, PrintParms;
  }

  lemma HeadStands(tt: Compiler, h: seq<Token>, rest: seq<Token>, pos: nat)
    requires |h| == 3 && tt.At(pos, h + rest) && forall t :: t in h ==> t.gap == Tight
    ensures pos + 2 < |tt.toks| && tt.At(pos + 3, rest)
    ensures tt.toks[pos] == h[0] && tt.toks[pos + 1] == h[1] && tt.toks[pos + 2] == h[2]
    ensures tt.Lex(pos) == Plain(h[0]) && tt.Lex(pos + 1) == Plain(h[1]) && tt.Lex(pos + 2) == Plain(h[2])
  {
    hide Compiler.Layout, Compiler.Ignored, Compiler.At;
    tt.AtCat(pos, h, rest);
    AtItems(tt, pos, h);
    assert tt.toks[pos + 0] == h[0];
  }

  /** Parameters, the parenthesis behind them, and a block. */
  lemma ParametersStand(tt: Compiler, n: nat, b: seq<Token>, pos: nat)
    requires tt.At(pos, PrintParms(n) + ([Soft(TK_RPAREN)] + b)) && b != [] && b[0] == Op(TK_LBRACE)
    ensures var p := pos + |PrintParms(n)|; tt.At(p + 1, b) && tt.Kind(p + 1) == TK_LBRACE && ParametersAt(tt, n, pos)
  {
    hide Compiler.Layout, Compiler.Ignored, Compiler.At, PrintParms;
    var ps := PrintParms(n);
    tt.AtCat(pos, ps, [Soft(TK_RPAREN)] + b);
    tt.AtCat(pos + |ps|, [Soft(TK_RPAREN)], b);
    ParmTokens(n);
    AtItems(tt, pos, ps);
    forall i | pos <= i < pos + |ps|
      ensures i < |tt.toks| && tt.Lex(i) == Plain(tt.toks[i]) && tt.toks[i].kind == (if (i - pos) % 2 == 0 then TK_VAR else TK_COMMA)
           && ((i - pos) % 2 == 0 ==> tt.toks[i].gap == Tight)
    {
      assert tt.toks[pos + (i - pos)] == ps[i - pos];
    }
  }

  /** Names and commas, and the parenthesis that follows them. */
  ghost predicate ParametersAt(tt: Compiler, n: nat, pos: nat) {
    var p := pos + if n == 0 then 0 else 2 * n - 1;
    && p + 1 < |tt.toks| && tt.Kind(p) == TK_RPAREN && tt.toks[p].gap != Separator && tt.Kind(p + 1) != TK_NL
    && forall i :: pos <= i < p ==>
        && tt.Lex(i) == Plain(tt.toks[i]) && tt.toks[i].kind == (if (i - pos) % 2 == 0 then TK_VAR else TK_COMMA)
        && ((i - pos) % 2 == 0 ==> tt.toks[i].gap == Tight)
  }

  lemma ParameterAt(tt: Compiler, n: nat, pos: nat, k: nat)
    requires ParametersAt(tt, n, pos) && k < n
    ensures var p := pos + 2 * k;
      && p + 2 < |tt.toks| && tt.Kind(p) == TK_VAR && tt.toks[p].gap == Tight
      && tt.Kind(p + 1) == (if k < n - 1 then TK_COMMA else TK_RPAREN) && (k < n - 1 ==> tt.Kind(p + 2) != TK_NL)
  {
    var p := pos + 2 * k;
    assert tt.Lex(p) == Plain(tt.toks[p]);
    if k < n - 1 { assert tt.Lex(p + 1) == Plain(tt.toks[p + 1]) && tt.Lex(p + 2) == Plain(tt.toks[p + 2]); }
  }

  /** The parameter list: each name is counted, names themselves are left to the symbol table. */
  method Parameters(tt: Compiler, ghost n: nat)
    requires tt.Valid() && tt.nparms == 0 && ParametersAt(tt, n, tt.cur)
    modifies tt`pos, tt`cur, tt`prevtok, tt`nparms
    ensures tt.Valid() && tt.nparms == n && tt.cur == old(tt.cur) + if n == 0 then 0 else 2 * n - 1
  {
    hide Compiler.Layout, Compiler.Ignored, ParametersAt;
    if n > 0 { ParameterAt(tt, n, tt.cur, 0); } else { ParametersEnd(tt, n, tt.cur); }
    if tt.Curtok() == TK_VAR {
      tt.nparms := tt.nparms + 1;
      tt.Scan();
      var more := tt.HaveComma();
      while more
        invariant tt.Valid() && 1 <= tt.nparms <= n
        invariant more <==> tt.nparms < n
        invariant tt.cur == old(tt.cur) + 2 * tt.nparms - (if more then 0 else 1)
        decreases n - tt.nparms
      {
        ParameterAt(tt, n, old(tt.cur), tt.nparms);
        tt.nparms := tt.nparms + 1;
        tt.Expect(TK_VAR);
        more := tt.HaveComma();
      }
    }
  }

  /** The head of a function definition, up to and including the parameter list. */
  method FunctionHead(tt: Compiler, ghost it: Item) returns (funcnum: int, addr: int)
    requires tt.Valid() && it.Function? && tt.At(tt.cur, PrintItem(it))
    modifies tt
    ensures tt.Valid() && tt.cur == old(tt.cur) + 4 + |PrintParms(it.nparms)| && tt.nparms == it.nparms
    ensures tt.code == old(tt.code) + [TK_FUNCTION, it.fn] && tt.lits == old(tt.lits) && tt.scalars == old(tt.scalars) && tt.funcs == old(tt.funcs)
    ensures tt.breakDest == old(tt.breakDest) && tt.continueDest == old(tt.continueDest) && tt.inFunctionBody == old(tt.inFunctionBody)
    ensures tt.firstBegin == old(tt.firstBegin) && tt.lastBegin == old(tt.lastBegin) && funcnum == it.fn && addr == |old(tt.code)|
  {
    hide Compiler.Layout, Compiler.Ignored, Compiler.At, PrintStmt, PrintStmts, PrintParms, PrintItem, ParametersAt;
    FunctionTokens(tt, it, tt.cur);
    ParmTokens(it.nparms);
    tt.Expect(TK_FUNCTION);
    funcnum := tt.raw[tt.pos].id;
    tt.Gen2cd(TK_FUNCTION, funcnum);
    addr := tt.zcodeLast - 1;
    tt.nparms := 0;
    NameAndParameters(tt, it.nparms);
  }

  /** The name of the function and its parameters in parentheses. */
  method NameAndParameters(tt: Compiler, ghost n: nat)
    requires tt.Valid() && tt.nparms == 0 && tt.Kind(tt.cur) == TK_FUNC && tt.Kind(tt.cur + 1) == TK_LPAREN && ParametersAt(tt, n, tt.cur + 2)
    requires tt.cur + 1 < |tt.toks| && tt.toks[tt.cur].gap == Tight && tt.toks[tt.cur + 1].gap == Tight
    modifies tt`pos, tt`cur, tt`prevtok, tt`nparms
    ensures tt.Valid() && tt.nparms == n && tt.cur == old(tt.cur) + 3 + if n == 0 then 0 else 2 * n - 1
  {
    hide Compiler.Layout, Compiler.Ignored, ParametersAt;
    tt.Expect(TK_FUNC);
    tt.Expect(TK_LPAREN);
    ParametersEnd(tt, n, tt.cur);
    Parameters(tt, n);
    Rparen(tt);
  }

  lemma ParametersEnd(tt: Compiler, n: nat, pos: nat)
    requires ParametersAt(tt, n, pos)
    ensures var p := pos + if n == 0 then 0 else 2 * n - 1;
      p + 1 < |tt.toks| && tt.Kind(p) == TK_RPAREN && tt.toks[p].gap != Separator && tt.Kind(p + 1) != TK_NL
  {}

  lemma FuncCodeParts(it: Item, k: int)
    requires it.Function?
    ensures FuncCode(it.fn, it.nparms, it.body, k)
         == [TK_FUNCTION, it.fn] + (CodeB(it.body, k, Dest(0, 0, it.nparms)) + [TK_NUMBER, k + |LitsB(it.body)|, TK_RETURN, it.nparms])
  {
    hide CodeB, LitsB, UsesB;
  }

  /** A function definition; a value is returned at its end in case the body falls off it. */
  method FunctionDef(tt: Compiler, ghost it: Item, ghost fp: Fpu, ghost items: seq<Item>, ghost lk: Link)
    returns (ghost lk': Link)
    requires tt.Valid() && Between(tt, fp, items, lk) && it.Function? && tt.At(tt.cur, PrintItem(it))
    requires it.fn !in FuncsOf(items) && PlacedB(it.body, false, true)
    modifies tt
    ensures Between(tt, fp, items + [it], lk') && tt.cur == old(tt.cur) + |PrintItem(it)|
  {
    hide Compiler.Layout, Compiler.Ignored, Compiler.At, PrintStmt, PrintStmts, PrintParms, PrintItem, PlacedB, CodeB, LitsB, UsesB, LaidOut, FuncsOf, FuncCode, FuncLits;
    ghost var was, k := Output(tt, fp), |tt.lits|;
    FunctionTokens(tt, it, tt.cur);
    var funcnum, addr := FunctionHead(tt, it);
    FunctionBody(tt, it);
    FuncCodeParts(it, k);
    Assoc(was.code, [TK_FUNCTION, it.fn], CodeB(it.body, k, Dest(0, 0, it.nparms)) + [TK_NUMBER, k + |LitsB(it.body)|, TK_RETURN, it.nparms]);
    MarksSplit(items, UsesB(it.body));
    ItemsOfSnoc(items, it);
    tt.funcs := tt.funcs[funcnum := Func(addr, tt.nparms, LocalSlots(tt.scalars))];
    tt.scalars := GlobalSlots(tt.scalars);
    lk' := Link(lk.starts, lk.ks, lk.fk[it.fn := k]);
    AddFunction(was, Output(tt, fp), items, lk, tt.firstBegin, tt.lastBegin, it);
  }

  method FunctionBody(tt: Compiler, ghost it: Item)
    requires tt.Valid() && it.Function? && tt.At(tt.cur, PrintStmt(SBlock(it.body)))
    requires tt.breakDest == 0 && tt.continueDest == 0 && tt.nparms == it.nparms && PlacedB(it.body, false, true)
    requires !tt.inFunctionBody
    modifies tt
    ensures tt.Leaves(|PrintStmt(SBlock(it.body))|,
                     CodeB(it.body, |old(tt.lits)|, Dest(0, 0, it.nparms))
                       + [TK_NUMBER, |old(tt.lits)| + |LitsB(it.body)|, TK_RETURN, it.nparms],
                     FuncLits(it.body), UsesB(it.body))
  {
    hide Compiler.Layout, Compiler.Ignored, Compiler.At, PrintStmt, PrintStmts, PlacedB, CodeB, LitsB, UsesB, CodeS, LitsS, UsesS, Taken, StmtReady;
    ghost var s, k, d := SBlock(it.body), |tt.lits|, Here(tt);
    BlockStarts(it.body);
    DestIrrelevantB(it.body, k, d, Dest(0, 0, it.nparms), false, true);
    BlockCode(s, k, d);
    tt.inFunctionBody := true;
    BlockReady(tt, it.body);
    Action(tt, s);
    tt.inFunctionBody := false;
    var slot := tt.MakeLiteral(Uninit);
    tt.Gen2cd(TK_NUMBER, slot);
    tt.Gen2cd(TK_RETURN, tt.nparms);
  }

  method Rule(tt: Compiler, ghost it: Item, ghost fp: Fpu, ghost items: seq<Item>, ghost lk: Link) returns (ghost lk': Link)
    requires tt.Valid() && Between(tt, fp, items, lk) && tt.At(tt.cur, PrintItem(it)) && PlacedItem(it)
    requires it.Function? ==> it.fn !in FuncsOf(items)
    modifies tt
    ensures Between(tt, fp, items + [it], lk') && tt.cur == old(tt.cur) + |PrintItem(it)|
  {
    hide Compiler.Layout, Compiler.Ignored, Compiler.At, LaidOut, PlacedB, PrintStmt, PrintParms, FuncsOf;
    ItemFirst(it);
    tt.AtHead(tt.cur, PrintItem(it));
    if tt.Curtok() == TK_BEGIN {
      lk' := BeginRule(tt, it.body, fp, items, lk);
    } else {
      lk' := FunctionDef(tt, it, fp, items, lk);
    }
  }

  lemma ItemFirst(it: Item)
    ensures |PrintItem(it)| > 0 && PrintItem(it)[0].gap == Tight && PrintItem(it)[0].kind == if it.Begin? then TK_BEGIN else TK_FUNCTION
  {
    hide PrintStmt, PrintParms;
  }
}
