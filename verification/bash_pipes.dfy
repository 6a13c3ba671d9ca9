/** File descriptors of a pipeline: who gets which end, and that all of them are closed again. */
module BashPipes {
  import opened Wrappers

  datatype Op = In | Out | Append

  /** Tokens of a command line; a text is a file name if it follows a redirection. */
  datatype Token = Bar | Redir(op: Op) | Text(name: nat, isFile: bool)

  datatype Pipe = Pipe(read: int, write: int)

  /** What a descriptor refers to. */
  datatype Desc = Other(id: nat) | ReadEnd(bar: nat) | WriteEnd(bar: nat) | Opened(op: Op, name: nat)

  type Table = map<int, Desc>

  // ---------- the command line ----------

  /** The first bar from position i on, or the end. */
  function Seek(ts: seq<Token>, i: nat): (q: nat)
    requires i <= |ts|
    ensures i <= q <= |ts| && (q < |ts| ==> ts[q].Bar?) && forall j :: i <= j < q ==> !ts[j].Bar?
    decreases |ts| - i
  {
    if i == |ts| || ts[i].Bar? then i else Seek(ts, i + 1)
  }

  /** The first token of the segment that begins at p, where its bar is, if it has one. */
  function First(ts: seq<Token>, p: nat): (a: nat)
    requires p < |ts|
    ensures p <= a <= |ts|
  {
    if ts[p].Bar? then p + 1 else p
  }

  /** Every redirection is followed by a text. */
  predicate RedirsFollowed(ts: seq<Token>) { forall i :: 0 <= i < |ts| && ts[i].Redir? ==> i + 1 < |ts| && ts[i + 1].Text? }

  /** What check_redirections and check_pipes let through, in particular no segment that is empty. */
  predicate Parsed(ts: seq<Token>) {
    && RedirsFollowed(ts) && (|ts| > 0 ==> !ts[0].Bar?)
    && forall i :: 0 <= i < |ts| && ts[i].Bar? ==> i + 1 < |ts| && !ts[i + 1].Bar?
  }

  /** The last redirection of input in ts[a..b], and the last one of output. */
  function LastIn(ts: seq<Token>, a: nat, b: nat): Option<Desc>
    requires a <= b <= |ts| && RedirsFollowed(ts)
    decreases b - a
  {
    if a == b then None
    else
      var r := LastIn(ts, a + 1, b);
      if r.None? && ts[a] == Redir(In) then Some(Opened(In, ts[a + 1].name)) else r
  }

  function LastOut(ts: seq<Token>, a: nat, b: nat): Option<Desc>
    requires a <= b <= |ts| && RedirsFollowed(ts)
    decreases b - a
  {
    if a == b then None
    else
      var r := LastOut(ts, a + 1, b);
      if r.None? && ts[a].Redir? && ts[a].op != In then Some(Opened(ts[a].op, ts[a + 1].name)) else r
  }

  function Or(a: Option<Desc>, b: Option<Desc>): Option<Desc> { if a.Some? then a else b }

  /** Where the command of the segment at p reads from: its own redirection, or the pipe before it, or what the shell reads from. */
  function Source(ts: seq<Token>, p: nat): Option<Desc>
    requires p < |ts| && RedirsFollowed(ts)
  {
    var a := First(ts, p);
    Or(LastIn(ts, a, Seek(ts, a)), if ts[p].Bar? then Some(ReadEnd(p)) else None)
  }

  /** Where it writes to: its own redirection, or the pipe behind it, or what the shell writes to. */
  function Sink(ts: seq<Token>, p: nat): Option<Desc>
    requires p < |ts| && RedirsFollowed(ts)
  {
    var a := First(ts, p);
    var q := Seek(ts, a);
    Or(LastOut(ts, a, q), if q < |ts| then Some(WriteEnd(q)) else None)
  }

  /** The words of ts[a..b] that are no file names of redirections. */
  function Words(ts: seq<Token>, a: nat, b: nat): seq<nat>
    requires a <= b <= |ts|
    decreases b - a
  {
    if a == b then []
    else if ts[a].Text? && !(a > 0 && ts[a - 1].Redir?) then [ts[a].name] + Words(ts, a + 1, b)
    else Words(ts, a + 1, b)
  }

  /** The same tokens, up to marks on file names. */
  ghost predicate Same(ts: seq<Token>, us: seq<Token>) {
    && |us| == |ts|
    && forall i :: 0 <= i < |ts| ==> if ts[i].Text? then us[i].Text? && us[i].name == ts[i].name else us[i] == ts[i]
  }

  /** In ts[a..b] exactly the file names are marked as such. */
  ghost predicate Marked(ts: seq<Token>, a: nat, b: nat)
    requires b <= |ts|
  {
    forall i :: a <= i < b && ts[i].Text? ==> (ts[i].isFile <==> i > 0 && ts[i - 1].Redir?)
  }

  ghost predicate Unmarked(ts: seq<Token>, a: nat) { forall i :: a <= i < |ts| && ts[i].Text? ==> !ts[i].isFile }

  lemma {:induction false} SameSeek(ts: seq<Token>, us: seq<Token>, i: nat)
    requires Same(ts, us) && i <= |ts|
    ensures Seek(ts, i) == Seek(us, i)
    decreases |ts| - i
  {
    if i < |ts| && !ts[i].Bar? { SameSeek(ts, us, i + 1); }
  }

  lemma {:induction false} SameLast(ts: seq<Token>, us: seq<Token>, a: nat, b: nat)
    requires Same(ts, us) && a <= b <= |ts| && RedirsFollowed(ts) && RedirsFollowed(us)
    ensures LastIn(ts, a, b) == LastIn(us, a, b) && LastOut(ts, a, b) == LastOut(us, a, b)
    decreases b - a
  {
    if a < b { SameLast(ts, us, a + 1, b); }
  }

  lemma SameRedirs(ts: seq<Token>, us: seq<Token>)
    requires Same(ts, us) && RedirsFollowed(ts)
    ensures RedirsFollowed(us)
  {
    forall i | 0 <= i < |us| && us[i].Redir? ensures i + 1 < |us| && us[i + 1].Text? { assert ts[i].Redir?; }
  }

  lemma {:induction false} SameWords(ts: seq<Token>, us: seq<Token>, a: nat, b: nat)
    requires Same(ts, us) && a <= b <= |ts|
    ensures Words(ts, a, b) == Words(us, a, b)
    decreases b - a
  {
    if a < b { SameWords(ts, us, a + 1, b); }
  }

  /** One more token at the end of a stretch. */
  lemma {:induction false} LastNext(ts: seq<Token>, a: nat, b: nat)
    requires a <= b < |ts| && RedirsFollowed(ts)
    ensures LastIn(ts, a, b + 1) == if ts[b] == Redir(In) then Some(Opened(In, ts[b + 1].name)) else LastIn(ts, a, b)
    ensures LastOut(ts, a, b + 1) == if ts[b].Redir? && ts[b].op != In then Some(Opened(ts[b].op, ts[b + 1].name)) else LastOut(ts, a, b)
    decreases b - a
  {
    if a < b { LastNext(ts, a + 1, b); }
  }

  lemma {:induction false} WordsNext(ts: seq<Token>, a: nat, b: nat)
    requires a <= b < |ts|
    ensures Words(ts, a, b + 1) == Words(ts, a, b) + if ts[b].Text? && !(b > 0 && ts[b - 1].Redir?) then [ts[b].name] else []
    decreases b - a
  {
    if a < b { WordsNext(ts, a + 1, b); }
  }

  // ---------- ends of pipes ----------

  function Both(p: Pipe): multiset<int> { multiset{p.read} + multiset{p.write} }

  /** Both ends of every pipe from position i on. */
  function Ends(ts: seq<Token>, pipes: map<nat, Pipe>, i: nat): multiset<int>
    requires i <= |ts|
    decreases |ts| - i
  {
    if i == |ts| then multiset{}
    else if ts[i].Bar? && i in pipes then Both(pipes[i]) + Ends(ts, pipes, i + 1)
    else Ends(ts, pipes, i + 1)
  }

  /** The ends that belong to nobody yet when the segment at p is next. */
  function Pending(ts: seq<Token>, pipes: map<nat, Pipe>, p: nat): multiset<int>
    requires p <= |ts|
  {
    if p < |ts| && ts[p].Bar? && p in pipes then multiset{pipes[p].read} + Ends(ts, pipes, p + 1) else Ends(ts, pipes, p)
  }

  lemma {:induction false} EndsSeek(ts: seq<Token>, pipes: map<nat, Pipe>, i: nat)
    requires i <= |ts|
    ensures Ends(ts, pipes, i) == Ends(ts, pipes, Seek(ts, i))
    decreases |ts| - i
  {
    if i < |ts| && !ts[i].Bar? { EndsSeek(ts, pipes, i + 1); }
  }

  lemma {:induction false} EndsSame(ts: seq<Token>, us: seq<Token>, pipes: map<nat, Pipe>, i: nat)
    requires Same(ts, us) && i <= |ts|
    ensures Ends(ts, pipes, i) == Ends(us, pipes, i)
    decreases |ts| - i
  {
    if i < |ts| { EndsSame(ts, us, pipes, i + 1); }
  }

  /** Every bar from i on has a pipe. */
  ghost predicate Piped(ts: seq<Token>, pipes: map<nat, Pipe>) { forall i :: 0 <= i < |ts| && ts[i].Bar? ==> i in pipes }

  /** The segment at p takes the read end of its own pipe and the write end of the next one; the rest stays pending for the next segment. */
  lemma PendingSplit(ts: seq<Token>, pipes: map<nat, Pipe>, p: nat)
    requires p < |ts| && Piped(ts, pipes)
    ensures var q := Seek(ts, First(ts, p));
      Pending(ts, pipes, p) == (if ts[p].Bar? then multiset{pipes[p].read} else multiset{})
                             + (if q < |ts| then multiset{pipes[q].write} else multiset{}) + Pending(ts, pipes, q)
  {
    var a := First(ts, p);
    var q := Seek(ts, a);
    EndsSeek(ts, pipes, a);
    assert Pending(ts, pipes, p) == (if ts[p].Bar? then multiset{pipes[p].read} else multiset{}) + Ends(ts, pipes, a);
    EndsFrom(ts, pipes, q);
  }

  lemma EndsFrom(ts: seq<Token>, pipes: map<nat, Pipe>, q: nat)
    requires q <= |ts| && Piped(ts, pipes) && (q < |ts| ==> ts[q].Bar?)
    ensures Ends(ts, pipes, q) == (if q < |ts| then multiset{pipes[q].write} else multiset{}) + Pending(ts, pipes, q)
  {
    if q < |ts| { assert Ends(ts, pipes, q) == Both(pipes[q]) + Ends(ts, pipes, q + 1); }
  }

  function Owned(infile: int, outfile: int): multiset<int> {
    (if infile != 0 then multiset{infile} else multiset{}) + (if outfile != 0 then multiset{outfile} else multiset{})
  }

  /** What descriptor fd refers to, if it is not 0. */
  function Refers(t: Table, fd: int): Option<Desc> { if fd == 0 then None else if fd in t then Some(t[fd]) else None }

  // ---------- commands ----------

  class Cmd {
    var infile: int
    var outfile: int
    var args: seq<nat>
    ghost const start: nat

    constructor (ghost start: nat)
      ensures infile == 0 && outfile == 0 && args == [] && this.start == start
    {
      infile, outfile, args := 0, 0, [];
      this.start := start;
    }
  }

  ghost function OwnedAll(cmds: seq<Cmd>): multiset<int>
    reads cmds
  {
    if cmds == [] then multiset{} else Owned(cmds[0].infile, cmds[0].outfile) + OwnedAll(cmds[1..])
  }

  lemma {:induction false} OwnedHas(cmds: seq<Cmd>, c: Cmd)
    requires c in cmds
    ensures Owned(c.infile, c.outfile) <= OwnedAll(cmds)
  {
    hide Owned;
    if c != cmds[0] { OwnedHas(cmds[1..], c); }
  }

  lemma OwnedFrom(cmds: seq<Cmd>, i: nat)
    requires i < |cmds|
    ensures OwnedAll(cmds[i..]) == Owned(cmds[i].infile, cmds[i].outfile) + OwnedAll(cmds[i + 1..])
  {
    assert cmds[i..][1..] == cmds[i + 1..];
  }

  lemma OwnedNone(cmds: seq<Cmd>)
    ensures OwnedAll(cmds[|cmds|..]) == multiset{}
  {}

  lemma {:induction false} OwnedSnoc(cmds: seq<Cmd>, c: Cmd)
    ensures OwnedAll(cmds + [c]) == OwnedAll(cmds) + Owned(c.infile, c.outfile)
  {
    hide Owned;
    if cmds == [] {
      assert (cmds + [c])[1..] == [];
    } else {
      assert (cmds + [c])[1..] == cmds[1..] + [c];
      OwnedSnoc(cmds[1..], c);
    }
  }

  // ---------- the books ----------

  /** The process has open exactly the descriptors of base, which are as they were, and those in owned, each once. */
  ghost predicate Balanced(t: Table, base: Table, owned: multiset<int>) {
    multiset(t.Keys) == multiset(base.Keys) + owned && forall fd :: fd in base ==> fd in t && t[fd] == base[fd]
  }

  lemma AfterOpen(t: Table, base: Table, owned: multiset<int>, fd: int, d: Desc)
    requires Balanced(t, base, owned) && fd !in t
    ensures Balanced(t[fd := d], base, owned + multiset{fd})
  {
    assert t[fd := d].Keys == t.Keys + {fd};
    assert multiset(t.Keys + {fd}) == multiset(t.Keys) + multiset{fd};
  }

  lemma AfterClose(t: Table, base: Table, owned: multiset<int>, fd: int)
    requires Balanced(t, base, owned + multiset{fd})
    ensures fd in t && fd !in base && fd !in owned && Balanced(t - {fd}, base, owned)
  {
    assert multiset(t.Keys)[fd] >= 1 && multiset(t.Keys)[fd] <= 1;
    assert (t - {fd}).Keys == t.Keys - {fd};
    assert multiset(t.Keys - {fd}) == multiset(t.Keys) - multiset{fd};
  }

  lemma AllClosed(t: Table, base: Table)
    requires Balanced(t, base, multiset{})
    ensures t == base
  {
    assert multiset(t.Keys) == multiset(base.Keys);
    forall fd ensures fd in t.Keys <==> fd in base.Keys { assert multiset(t.Keys)[fd] == multiset(base.Keys)[fd]; }
    assert t.Keys == base.Keys;
    assert forall fd :: fd in t.Keys ==> fd in base && t[fd] == base[fd];
  }

  /** Descriptors in keep are open and refer to what they did. */
  ghost predicate Kept(t: Table, t': Table, keep: multiset<int>) { forall fd :: fd in keep ==> fd in t && fd in t' && t'[fd] == t[fd] }

  /** No descriptor is owned twice. */
  lemma OwnedOnce(t: Table, base: Table, owned: multiset<int>, fd: int)
    requires Balanced(t, base, owned)
    ensures owned[fd] <= 1 && (fd in owned ==> fd in t && fd !in base)
  {
    assert multiset(t.Keys)[fd] <= 1;
  }

  /** Every pipe from i on is open, and its ends are what they are called. */
  ghost predicate Flowing(t: Table, ts: seq<Token>, pipes: map<nat, Pipe>, i: nat) {
    forall q :: i <= q < |ts| && ts[q].Bar? && q in pipes ==>
      && pipes[q].read > 0 && pipes[q].read in t && t[pipes[q].read] == ReadEnd(q)
      && pipes[q].write > 0 && pipes[q].write in t && t[pipes[q].write] == WriteEnd(q)
  }

  /** ... and so is the read end of the pipe at p. */
  ghost predicate Ready(t: Table, ts: seq<Token>, pipes: map<nat, Pipe>, p: nat) {
    && Flowing(t, ts, pipes, p + 1)
    && (p < |ts| && ts[p].Bar? && p in pipes ==> pipes[p].read > 0 && pipes[p].read in t && t[pipes[p].read] == ReadEnd(p))
  }

  lemma {:induction false} EndsHave(ts: seq<Token>, pipes: map<nat, Pipe>, i: nat, q: nat)
    requires i <= q < |ts| && ts[q].Bar? && q in pipes
    ensures pipes[q].read in Ends(ts, pipes, i) && pipes[q].write in Ends(ts, pipes, i)
    decreases q - i
  {
    var r, w, rest := pipes[q].read, pipes[q].write, Ends(ts, pipes, i + 1);
    if i < q {
      EndsHave(ts, pipes, i + 1, q);
      assert r in rest && w in rest;
      if ts[i].Bar? && i in pipes { assert Ends(ts, pipes, i) == Both(pipes[i]) + rest; } else { assert Ends(ts, pipes, i) == rest; }
    } else {
      assert r in Both(pipes[q]) && w in Both(pipes[q]);
      assert Ends(ts, pipes, i) == Both(pipes[q]) + rest;
    }
  }

  lemma {:induction false} NoEnds(ts: seq<Token>, i: nat)
    requires i <= |ts|
    ensures Ends(ts, map[], i) == multiset{}
    decreases |ts| - i
  {
    if i < |ts| { NoEnds(ts, i + 1); }
  }

  /** One more pipe. */
  lemma {:induction false} EndsAdd(ts: seq<Token>, pipes: map<nat, Pipe>, i: nat, q: nat, p: Pipe)
    requires i <= |ts| && q < |ts| && ts[q].Bar? && q !in pipes
    ensures Ends(ts, pipes[q := p], i) == Ends(ts, pipes, i) + if i <= q then Both(p) else multiset{}
    decreases |ts| - i
  {
    hide Both;
    if i < |ts| { EndsAdd(ts, pipes, i + 1, q, p); }
  }

  /** Pending ends that are kept stay what they are. */
  lemma ReadyKept(t: Table, t': Table, ts: seq<Token>, pipes: map<nat, Pipe>, p: nat, keep: multiset<int>)
    requires p <= |ts| && Ready(t, ts, pipes, p) && Kept(t, t', keep) && Pending(ts, pipes, p) <= keep
    ensures Ready(t', ts, pipes, p)
  {
    forall q | p + 1 <= q < |ts| && ts[q].Bar? && q in pipes
      ensures pipes[q].read in t' && t'[pipes[q].read] == ReadEnd(q) && pipes[q].write in t' && t'[pipes[q].write] == WriteEnd(q)
    {
      if p < |ts| { EndsHave(ts, pipes, p + 1, q); }
      assert pipes[q].read in Pending(ts, pipes, p) && pipes[q].write in Pending(ts, pipes, p);
    }
    if p < |ts| && ts[p].Bar? && p in pipes { assert pipes[p].read in Pending(ts, pipes, p); }
  }

  lemma NoneFlow(t: Table, ts: seq<Token>)
    ensures Flowing(t, ts, map[], 0)
  {}

  lemma FlowingAdd(t: Table, base: Table, ts: seq<Token>, pipes: map<nat, Pipe>, i: nat, p: Pipe)
    requires Balanced(t, base, Ends(ts, pipes, 0)) && Flowing(t, ts, pipes, 0) && i < |ts| && ts[i].Bar? && i !in pipes
    requires p.read > 0 && p.write > 0 && p.read != p.write && p.read !in t && p.write !in t
    ensures var t' := t[p.read := ReadEnd(i)][p.write := WriteEnd(i)];
      Balanced(t', base, Ends(ts, pipes[i := p], 0)) && Flowing(t', ts, pipes[i := p], 0)
  {
    EndsAdd(ts, pipes, 0, i, p);
    AfterOpen(t, base, Ends(ts, pipes, 0), p.read, ReadEnd(i));
    AfterOpen(t[p.read := ReadEnd(i)], base, Ends(ts, pipes, 0) + multiset{p.read}, p.write, WriteEnd(i));
    assert Ends(ts, pipes, 0) + multiset{p.read} + multiset{p.write} == Ends(ts, pipes[i := p], 0);
  }

  // ---------- redirections ----------

  /** A command has taken over descriptor fd for its input, or its output. */
  function With(infile: int, outfile: int, out: bool, fd: int): (r: (int, int)) { if out then (infile, fd) else (fd, outfile) }

  function Side(infile: int, outfile: int, out: bool): int { if out then outfile else infile }

  lemma OwnedWith(infile: int, outfile: int, out: bool, fd: int)
    requires fd != 0
    ensures var r := With(infile, outfile, out, fd); var was := Side(infile, outfile, out);
      Owned(infile, outfile) + multiset{fd} == Owned(r.0, r.1) + if was != 0 then multiset{was} else multiset{}
  {}

  lemma TakeOver(t: Table, base: Table, keep: multiset<int>, infile: int, outfile: int, out: bool, fd: int)
    requires fd != 0 && Balanced(t, base, keep + Owned(infile, outfile) + multiset{fd})
    ensures var r := With(infile, outfile, out, fd); var was := Side(infile, outfile, out);
      if was != 0 then Balanced(t, base, keep + Owned(r.0, r.1) + multiset{was})
      else Balanced(t, base, keep + Owned(r.0, r.1)) && Balanced(t, base, keep + Owned(r.0, r.1) + multiset{})
  {
    OwnedWith(infile, outfile, out, fd);
    var r, was := With(infile, outfile, out, fd), Side(infile, outfile, out);
    var w := if was != 0 then multiset{was} else multiset{};
    hide Owned;
    assert keep + Owned(infile, outfile) + multiset{fd} == keep + (Owned(infile, outfile) + multiset{fd});
    assert keep + (Owned(r.0, r.1) + w) == keep + Owned(r.0, r.1) + w;
    assert keep + Owned(r.0, r.1) + multiset{} == keep + Owned(r.0, r.1);
  }

  lemma OwnedOpen(t: Table, base: Table, keep: multiset<int>, infile: int, outfile: int)
    requires Balanced(t, base, keep + Owned(infile, outfile))
    ensures (infile != 0 ==> infile in t) && (outfile != 0 ==> outfile in t)
  {
    if infile != 0 { assert multiset(t.Keys)[infile] >= 1; }
    if outfile != 0 { assert multiset(t.Keys)[outfile] >= 1; }
  }

  /** Closing something that is not in keep leaves keep alone. */
  lemma KeptClose(t: Table, base: Table, keep: multiset<int>, rest: multiset<int>, fd: int)
    requires Balanced(t, base, keep + rest + multiset{fd})
    ensures fd in t && Kept(t, t - {fd}, keep + rest) && Balanced(t - {fd}, base, keep + rest)
  {
    AfterClose(t, base, keep + rest, fd);
    forall x | x in keep + rest ensures x in t && x in t - {fd} { assert multiset((t - {fd}).Keys)[x] >= 1; }
  }

  // ---------- what succeeds and what fails ----------

  /** The two descriptors of a new pipe. */
  predicate Usable(r: int, w: int, t: Table) { r > 0 && w > 0 && r != w && r !in t && w !in t }

  function Successes(n: nat): (r: seq<bool>)
    ensures |r| == n && forall i :: 0 <= i < n ==> r[i]
  {
    seq(n, i => true)
  }

  /** Of n attempts, made after those in `was`, all have succeeded, or the last one that was made is the first to fail. */
  ghost predicate Tried(now: seq<bool>, was: seq<bool>, n: nat) {
    now == was + Successes(n) || exists k: nat :: k < n && now == was + Successes(k) + [false]
  }

  lemma NoneTried(was: seq<bool>)
    ensures was + Successes(0) == was
  {}

  lemma TriedNext(was: seq<bool>, k: nat, n: nat, ok: bool)
    requires k < n
    ensures ok ==> was + Successes(k) + [ok] == was + Successes(k + 1)
    ensures !ok ==> Tried(was + Successes(k) + [ok], was, n) && was + Successes(k) + [ok] != was + Successes(n)
  {
    if ok {
      assert Successes(k) + [true] == Successes(k + 1);
    } else {
      assert (was + Successes(n))[|was| + k] && !(was + Successes(k) + [false])[|was| + k];
    }
  }

  lemma AllTried(was: seq<bool>, n: nat)
    ensures Tried(was + Successes(n), was, n)
  {}

  /** The number of bars before position i. */
  function Bars(ts: seq<Token>, i: nat): nat
    requires i <= |ts|
  {
    if i == 0 then 0 else Bars(ts, i - 1) + if ts[i - 1].Bar? then 1 else 0
  }

  lemma {:induction false} BarsGrow(ts: seq<Token>, i: nat, j: nat)
    requires i <= j <= |ts|
    ensures Bars(ts, i) <= Bars(ts, j) && (i < j && ts[i].Bar? ==> Bars(ts, i) < Bars(ts, j))
    ensures i < j ==> Bars(ts, i + 1) == Bars(ts, i) + if ts[i].Bar? then 1 else 0
    decreases j
  {
    if i < j { BarsGrow(ts, i, j - 1); }
  }

  /** The number of redirections in ts[a..b]. */
  function Redirs(ts: seq<Token>, a: nat, b: nat): nat
    requires a <= b <= |ts|
  {
    if a == b then 0 else Redirs(ts, a, b - 1) + if ts[b - 1].Redir? then 1 else 0
  }

  lemma RedirsNone(ts: seq<Token>, a: nat)
    requires a <= |ts|
    ensures Redirs(ts, a, a) == 0
  {}

  lemma {:induction false} RedirsNext(ts: seq<Token>, a: nat, i: nat, b: nat)
    requires a <= i < b <= |ts|
    ensures Redirs(ts, a, i + 1) == Redirs(ts, a, i) + if ts[i].Redir? then 1 else 0
    ensures Redirs(ts, a, i + 1) <= Redirs(ts, a, b)
    decreases b
  {
    if i + 1 < b { RedirsNext(ts, a, i, b - 1); }
  }

  // ---------- segments ----------

  /** The redirections of the segment at p. */
  function Opens(ts: seq<Token>, p: nat): nat
    requires p < |ts|
  {
    Redirs(ts, First(ts, p), Seek(ts, First(ts, p)))
  }

  lemma {:induction false} SameOpens(ts: seq<Token>, us: seq<Token>, a: nat, b: nat)
    requires Same(ts, us) && a <= b <= |ts|
    ensures Redirs(us, a, b) == Redirs(ts, a, b)
    decreases b
  {
    if a < b { SameOpens(ts, us, a, b - 1); }
  }

  /** Where the segments from p on begin: at the beginning of the line, and at every bar. */
  function Starts(ts: seq<Token>, p: nat): (r: seq<nat>)
    requires p <= |ts| && Parsed(ts) && (0 < p < |ts| ==> ts[p].Bar?)
    ensures forall i :: 0 <= i < |r| ==> p <= r[i] < |ts|
    decreases |ts| - p
  {
    if p == |ts| then [] else [p] + Starts(ts, Next(ts, p))
  }

  /** The bar behind the segment at p. */
  function Next(ts: seq<Token>, p: nat): (q: nat)
    requires p < |ts| && Parsed(ts)
    ensures p < q <= |ts| && (q < |ts| ==> ts[q].Bar?)
  {
    Seek(ts, First(ts, p))
  }

  /** The segments none of whose redirections has failed; outs tells how those of each segment went. */
  function Chosen(starts: seq<nat>, outs: seq<seq<bool>>): seq<nat>
    requires |outs| <= |starts|
  {
    if outs == [] then []
    else
      var n := |outs| - 1;
      Chosen(starts, outs[..n]) + if false in outs[n] then [] else [starts[n]]
  }

  function Flat(outs: seq<seq<bool>>): seq<bool> { if outs == [] then [] else Flat(outs[..|outs| - 1]) + outs[|outs| - 1] }

  /** In each of these segments, redirections are tried in order up to the first one that fails. */
  ghost predicate Outcomes(ts: seq<Token>, starts: seq<nat>, outs: seq<seq<bool>>) {
    |outs| <= |starts| && forall i :: 0 <= i < |outs| ==> starts[i] < |ts| && Tried(outs[i], [], Opens(ts, starts[i]))
  }

  /** A segment is chosen exactly if none of its redirections has failed. */
  lemma {:induction false} ChosenIff(starts: seq<nat>, outs: seq<seq<bool>>, x: nat)
    requires |outs| <= |starts|
    ensures x in Chosen(starts, outs) <==> exists i :: 0 <= i < |outs| && starts[i] == x && false !in outs[i]
    decreases |outs|
  {
    if outs != [] {
      var n := |outs| - 1;
      ChosenIff(starts, outs[..n], x);
      forall i | 0 <= i < n && starts[i] == x && false !in outs[i] ensures x in Chosen(starts, outs) { assert outs[..n][i] == outs[i]; }
      if i :| 0 <= i < |outs[..n]| && starts[i] == x && false !in outs[..n][i] { assert outs[i] == outs[..n][i]; }
    }
  }

  /** If nothing fails, all segments are. */
  lemma {:induction false} ChosenAll(starts: seq<nat>, outs: seq<seq<bool>>)
    requires |outs| <= |starts| && forall i :: 0 <= i < |outs| ==> false !in outs[i]
    ensures Chosen(starts, outs) == starts[..|outs|]
    decreases |outs|
  {
    if outs != [] {
      var n := |outs| - 1;
      ChosenAll(starts, outs[..n]);
      assert starts[..n] + [starts[n]] == starts[..n + 1];
    }
  }

  /** What was tried after `was`. */
  lemma Outcome(now: seq<bool>, was: seq<bool>, n: nat) returns (out: seq<bool>)
    requires Tried(now, was, n)
    ensures now == was + out && Tried(out, [], n) && (false !in out <==> now == was + Successes(n))
  {
    if now == was + Successes(n) {
      out := Successes(n);
      assert [] + Successes(n) == out;
    } else {
      var k: nat :| k < n && now == was + Successes(k) + [false];
      out := Successes(k) + [false];
      assert [] + Successes(k) + [false] == out && out[k] == false;
    }
  }

  /** One more segment has been dealt with. */
  lemma OneMore(starts: seq<nat>, outs: seq<seq<bool>>, out: seq<bool>)
    requires |outs| < |starts|
    ensures Chosen(starts, outs + [out]) == Chosen(starts, outs) + (if false in out then [] else [starts[|outs|]])
    ensures Flat(outs + [out]) == Flat(outs) + out
  {
    assert (outs + [out])[..|outs|] == outs;
  }

  /** Where the segments of the commands begin. */
  ghost function StartsOf(cmds: seq<Cmd>): seq<nat> { seq(|cmds|, i requires 0 <= i < |cmds| => cmds[i].start) }

  // ---------- the shell ----------

  class Shell {
    /** The descriptors of the process, and what is left of the commands after parsing. */
    var table: Table
    var calls: nat
    var tokens: seq<Token>
    var pipes: map<nat, Pipe>
    var exitStatus: int

    /** Answers of the kernel to calls that open something. */
    const supply: nat -> int

    /** Which of these calls have succeeded so far. */
    ghost var answers: seq<bool>

    constructor (table: Table, tokens: seq<Token>, supply: nat -> int)
      ensures this.table == table && this.tokens == tokens && this.supply == supply && pipes == map[] && answers == []
    {
      this.table, this.tokens, this.supply := table, tokens, supply;
      calls, pipes, exitStatus, answers := 0, map[], 0, [];
    }

    /** Opens something as a new descriptor other than 0, or fails. */
    method Open(d: Desc) returns (fd: int)
      modifies this`table, this`calls, this`answers
      ensures if fd == -1 then table == old(table) else fd > 0 && fd !in old(table) && table == old(table)[fd := d]
      ensures fd == -1 <==> supply(old(calls)) <= 0 || supply(old(calls)) in old(table)
      ensures calls == old(calls) + 1 && answers == old(answers) + [fd != -1]
    {
      fd := supply(calls);
      calls := calls + 1;
      answers := answers + [fd > 0 && fd !in table];
      if fd <= 0 || fd in table {
        fd := -1;
      } else {
        table := table[fd := d];
      }
    }

    /** Only an open descriptor can be closed. */
    method Close(fd: int)
      requires fd in table
      modifies this`table
      ensures table == old(table) - {fd}
    {
      table := table - {fd};
    }

    /** Both ends of a pipe, or none. */
    method OpenPipe(bar: nat) returns (ok: bool)
      modifies this`table, this`calls, this`answers, this`pipes
      ensures calls == old(calls) + 2 && answers == old(answers) + [ok]
      ensures ok <==> Usable(supply(old(calls)), supply(old(calls) + 1), old(table))
      ensures !ok ==> table == old(table) && pipes == old(pipes)
      ensures ok ==> bar in pipes && var p := pipes[bar];
        && pipes == old(pipes)[bar := p] && p.read > 0 && p.write > 0 && p.read != p.write
        && p.read !in old(table) && p.write !in old(table) && table == old(table)[p.read := ReadEnd(bar)][p.write := WriteEnd(bar)]
    {
      var r, w := supply(calls), supply(calls + 1);
      calls := calls + 2;
      ok := r > 0 && w > 0 && r != w && r !in table && w !in table;
      answers := answers + [ok];
      if ok {
        pipes := pipes[bar := Pipe(r, w)];
        table := table[r := ReadEnd(bar)][w := WriteEnd(bar)];
      }
    }

    /** A pipe for every bar. If one cannot be had, the shell exits. */
    method OpenPipes(ghost base: Table) returns (alive: bool)
      requires Balanced(table, base, multiset{}) && pipes == map[]
      modifies this`table, this`calls, this`answers, this`pipes
      ensures alive ==> Piped(tokens, pipes) && Balanced(table, base, Ends(tokens, pipes, 0)) && Flowing(table, tokens, pipes, 0)
      ensures Tried(answers, old(answers), Bars(tokens, |tokens|)) && (alive <==> answers == old(answers) + Successes(Bars(tokens, |tokens|)))
    {
      hide Ends, Balanced, Flowing, Tried;
      NoneTried(answers);
      NoEnds(tokens, 0);
      NoneFlow(table, tokens);
      for i := 0 to |tokens|
        invariant Balanced(table, base, Ends(tokens, pipes, 0)) && Flowing(table, tokens, pipes, 0)
        invariant (forall j :: 0 <= j < i && tokens[j].Bar? ==> j in pipes) && (forall j :: j in pipes ==> j < i)
        invariant answers == old(answers) + Successes(Bars(tokens, i))
      {
        BarsGrow(tokens, i, |tokens|);
        if tokens[i].Bar? {
          ghost var t, ps := table, pipes;
          var ok := OpenPipe(i);
          TriedNext(old(answers), Bars(tokens, i), Bars(tokens, |tokens|), ok);
          if !ok { return false; }
          FlowingAdd(t, base, tokens, ps, i, pipes[i]);
        }
      }
      alive := true;
      AllTried(old(answers), Bars(tokens, |tokens|));
    }

    /** Puts fd in the place of the command's input or output, and closes what was there. */
    method CheckAndRedirect(cmd: Cmd, out: bool, fd: int, ghost base: Table, ghost keep: multiset<int>)
      requires fd != 0 && Balanced(table, base, keep + Owned(cmd.infile, cmd.outfile) + multiset{fd})
      modifies this`table, cmd`infile, cmd`outfile
      ensures Balanced(table, base, keep + Owned(cmd.infile, cmd.outfile))
      ensures Kept(old(table), table, keep + Owned(cmd.infile, cmd.outfile))
      ensures (cmd.infile, cmd.outfile) == With(old(cmd.infile), old(cmd.outfile), out, fd)
    {
      hide Balanced, Kept, Owned;
      ghost var t := table;
      var was := Side(cmd.infile, cmd.outfile, out);
      ghost var r := With(cmd.infile, cmd.outfile, out, fd);
      TakeOver(t, base, keep, cmd.infile, cmd.outfile, out, fd);
      if was != 0 {
        KeptClose(t, base, keep, Owned(r.0, r.1), was);
        Close(was);
      } else {
        KeptAlways(t, base, keep + Owned(r.0, r.1), multiset{});
      }
      if out { cmd.outfile := fd; } else { cmd.infile := fd; }
    }

    /** One redirection; if the file cannot be opened, nothing has changed. */
    method Redirect(cmd: Cmd, op: Op, name: nat, ghost base: Table, ghost keep: multiset<int>) returns (ok: bool)
      requires Balanced(table, base, keep + Owned(cmd.infile, cmd.outfile))
      modifies this`table, this`calls, this`answers, cmd`infile, cmd`outfile
      ensures Balanced(table, base, keep + Owned(cmd.infile, cmd.outfile)) && Kept(old(table), table, keep)
      ensures answers == old(answers) + [ok]
      ensures !ok ==> cmd.infile == old(cmd.infile) && cmd.outfile == old(cmd.outfile) && table == old(table)
      ensures ok ==> Refers(table, if op == In then cmd.infile else cmd.outfile) == Some(Opened(op, name))
      ensures ok ==> (if op == In then cmd.outfile == old(cmd.outfile) else cmd.infile == old(cmd.infile))
      ensures ok ==> Refers(table, if op == In then cmd.outfile else cmd.infile) == Refers(old(table), if op == In then cmd.outfile else cmd.infile)
    {
      hide Balanced, Kept, Owned;
      ghost var t, owned := table, keep + Owned(cmd.infile, cmd.outfile);
      KeptAlways(t, base, keep, Owned(cmd.infile, cmd.outfile));
      OwnedOpen(t, base, keep, cmd.infile, cmd.outfile);
      var fd := Open(Opened(op, name));
      ok := fd != -1;
      if ok {
        ghost var t1, r := table, With(cmd.infile, cmd.outfile, op != In, fd);
        AfterOpen(t, base, owned, fd, Opened(op, name));
        KeptOpen(t, base, owned, fd, Opened(op, name));
        CheckAndRedirect(cmd, op != In, fd, base, keep);
        RedirectDone(t, t1, table, keep, r.0, r.1, op, fd, name);
      }
    }

    /** Carries out the redirections of the segment at a, and marks their file names; stops at the first one that fails. */
    method HandleRedirection(cmd: Cmd, a: nat, ghost base: Table, ghost keep: multiset<int>) returns (ok: bool)
      requires a <= |tokens| && RedirsFollowed(tokens) && Unmarked(tokens, a) && (a > 0 ==> !tokens[a - 1].Redir?)
      requires Balanced(table, base, keep + Owned(cmd.infile, cmd.outfile))
      modifies this`table, this`calls, this`answers, this`tokens, cmd`infile, cmd`outfile
      ensures Same(old(tokens), tokens) && Unmarked(tokens, Seek(old(tokens), a))
      ensures Balanced(table, base, keep + Owned(cmd.infile, cmd.outfile)) && Kept(old(table), table, keep)
      ensures var n := Redirs(old(tokens), a, Seek(old(tokens), a));
        Tried(answers, old(answers), n) && (ok <==> answers == old(answers) + Successes(n))
      ensures ok ==> var q := Seek(old(tokens), a);
        && Marked(tokens, a, q)
        && Refers(table, cmd.infile) == Or(LastIn(old(tokens), a, q), old(Refers(table, cmd.infile)))
        && Refers(table, cmd.outfile) == Or(LastOut(old(tokens), a, q), old(Refers(table, cmd.outfile)))
    {
      hide *;
      ghost var ts, t := tokens, table;
      var i := a;
      OrRules();
      LastNone(ts, a);
      NoneMarked(ts, a);
      KeptAlways(t, base, keep, Owned(cmd.infile, cmd.outfile));
      NoneTried(answers);
      RedirsNone(ts, a);
      while i < |tokens| && !tokens[i].Bar?
        invariant a <= i <= |ts| && RedirsFollowed(ts) && Progress(ts, tokens, a, i)
        invariant Balanced(table, base, keep + Owned(cmd.infile, cmd.outfile)) && Kept(t, table, keep)
        invariant Refers(table, cmd.infile) == Or(LastIn(ts, a, i), old(Refers(table, cmd.infile)))
        invariant Refers(table, cmd.outfile) == Or(LastOut(ts, a, i), old(Refers(table, cmd.outfile)))
        invariant answers == old(answers) + Successes(Redirs(ts, a, i))
        decreases |ts| - i
      {
        ProgressParts(ts, tokens, a, i);
        LastNext(ts, a, i);
        RedirsNext(ts, a, i, Seek(ts, a));
        if tokens[i].Redir? {
          ghost var t1 := table;
          ok := Redirect(cmd, tokens[i].op, tokens[i + 1].name, base, keep);
          KeptTwice(t, t1, table, keep);
          TriedNext(old(answers), Redirs(ts, a, i), Redirs(ts, a, Seek(ts, a)), ok);
          if !ok { return; }
          ProgressRedir(ts, tokens, a, i);
          i := i + 1;
          tokens := tokens[i := tokens[i].(isFile := true)];
        } else {
          ProgressText(ts, tokens, a, i);
          i := i + 1;
        }
      }
      ProgressDone(ts, tokens, a, i);
      AllTried(old(answers), Redirs(ts, a, i));
      ok := true;
    }

    /** The words of the segment become the command's arguments. */
    method HandleCmd(cmd: Cmd, a: nat)
      requires a <= |tokens| && Marked(tokens, a, Seek(tokens, a))
      modifies cmd`args
      ensures cmd.args == Words(tokens, a, Seek(tokens, a))
    {
      hide Words, Marked;
      WordsNone(tokens, a);
      cmd.args := [];
      var i := a;
      while i < |tokens| && !tokens[i].Bar?
        invariant a <= i <= Seek(tokens, a) && cmd.args == Words(tokens, a, i)
      {
        SeekFrom(tokens, a, i);
        WordsNext(tokens, a, i);
        MarkedAt(tokens, a, Seek(tokens, a), i);
        if tokens[i].Text? && !tokens[i].isFile { cmd.args := cmd.args + [tokens[i].name]; }
        i := i + 1;
      }
      SeekIs(tokens, a, i);
    }

    /** The next bar behind i. */
    method NextPipe(i: nat) returns (q: nat)
      requires i <= |tokens|
      ensures q == Seek(tokens, if i < |tokens| then First(tokens, i) else i)
    {
      q := i;
      if q < |tokens| && tokens[q].Bar? { q := q + 1; }
      ghost var a := q;
      while q < |tokens| && !tokens[q].Bar?
        invariant a <= q <= Seek(tokens, a)
      {
        SeekFrom(tokens, a, q);
        q := q + 1;
      }
      SeekIs(tokens, a, q);
    }

    method CloseFds(cmd: Cmd, ghost base: Table, ghost keep: multiset<int>)
      requires Balanced(table, base, keep + Owned(cmd.infile, cmd.outfile))
      modifies this`table
      ensures Balanced(table, base, keep) && Kept(old(table), table, keep)
    {
      hide Balanced, Kept;
      ghost var t := table;
      var a, b := cmd.infile, cmd.outfile;
      OwnedParts(keep, a, b);
      KeptAlways(t, base, keep, Owned(a, b));
      if a != 0 {
        KeptClose(t, base, keep, Side2(b), a);
        Close(a);
        KeptLess(t, table, keep, Side2(b));
      }
      if b != 0 {
        ghost var t1 := table;
        KeptClose(t1, base, keep, multiset{}, b);
        Close(b);
        KeptLess(t1, table, keep, multiset{});
        KeptTwice(t, t1, table, keep);
      }
    }

    /** What holds between two segments: ts is the line as it was parsed. */
    ghost predicate Between(cmds: seq<Cmd>, ts: seq<Token>, p: nat, base: Table)
      reads this, cmds
    {
      && Place(ts, tokens, pipes, p) && Balanced(table, base, OwnedAll(cmds) + Pending(ts, pipes, p)) && Ready(table, ts, pipes, p)
      && Right(table, cmds, ts)
    }

    /** A new command takes the read end of the pipe before its segment and the write end of the one behind it. */
    method HandlePipes(cmd: Cmd, p: nat)
      requires p < |tokens| && Piped(tokens, pipes)
      modifies cmd`infile, cmd`outfile
      ensures cmd.infile == if tokens[p].Bar? then pipes[p].read else old(cmd.infile)
      ensures var q := Seek(tokens, First(tokens, p)); cmd.outfile == if q < |tokens| then pipes[q].write else old(cmd.outfile)
    {
      if tokens[p].Bar? { cmd.infile := pipes[p].read; }
      var q := NextPipe(p);
      if q < |tokens| { cmd.outfile := pipes[q].write; }
    }

    /** Makes a command of the segment at p; if one of its redirections fails, its descriptors are closed and there is no command. */
    method AddCmd(cmds: seq<Cmd>, p: nat, ghost ts: seq<Token>, ghost base: Table) returns (cmds': seq<Cmd>, p': nat, ghost out: seq<bool>)
      requires Between(cmds, ts, p, base) && p < |ts|
      modifies this`table, this`calls, this`answers, this`tokens, this`exitStatus
      ensures Between(cmds', ts, p', base) && p < p' == Seek(ts, First(ts, p)) <= |ts|
      ensures cmds' == cmds || (|cmds'| == |cmds| + 1 && cmds' == cmds + [cmds'[|cmds|]] && cmds'[|cmds|].start == p && fresh(cmds'[|cmds|]))
      ensures answers == old(answers) + out && Tried(out, [], Opens(ts, p)) && (cmds' == cmds <==> false in out)
      ensures exitStatus == if cmds' == cmds then 1 else 0
    {
      hide *;
      BetweenParts(cmds, ts, p, base);
      PlaceParts(ts, tokens, pipes, p);
      ghost var t, all, q := table, OwnedAll(cmds), Seek(ts, First(ts, p));
      var c := new Cmd(p);
      var a := if tokens[p].Bar? then p + 1 else p;
      var ok;
      ok, out := FillCmd(c, p, a, ts, base, all);
      RightKept(t, table, cmds, ts, all + Pending(ts, pipes, q));
      p' := NextPipe(a);
      if ok {
        exitStatus := 0;
        RightSnoc(table, cmds, ts, c);
        OwnedSnoc(cmds, c);
        Shuffle(all, Pending(ts, pipes, q), Owned(c.infile, c.outfile));
        cmds' := cmds + [c];
      } else {
        exitStatus := 1;
        NothingOwned(all + Pending(ts, pipes, q));
        cmds' := cmds;
      }
      BetweenIf(cmds', ts, p', base);
    }

    /** Gives a new command its pipe ends, redirections and arguments, or takes everything back; all is what the other commands own. */
    method FillCmd(c: Cmd, p: nat, a: nat, ghost ts: seq<Token>, ghost base: Table, ghost all: multiset<int>) returns (ok: bool, ghost out: seq<bool>)
      requires Place(ts, tokens, pipes, p) && p < |ts| && RedirsFollowed(ts) && a == First(ts, p) && c.start == p && c.infile == 0 && c.outfile == 0
      requires Balanced(table, base, all + Pending(ts, pipes, p)) && Ready(table, ts, pipes, p)
      modifies this`table, this`calls, this`answers, this`tokens, c
      ensures var q := Seek(ts, a);
        && Place(ts, tokens, pipes, q) && Ready(table, ts, pipes, q) && Kept(old(table), table, all + Pending(ts, pipes, q))
        && |tokens| == |ts| && a < |tokens| && First(tokens, a) == a && Seek(tokens, a) == q
        && Balanced(table, base, all + Pending(ts, pipes, q) + if ok then Owned(c.infile, c.outfile) else multiset{})
      ensures ok ==> OneRight(table, c, ts)
      ensures answers == old(answers) + out && Tried(out, [], Opens(ts, p)) && (ok <==> false !in out)
    {
      hide *;
      ghost var t, us, q := table, tokens, Seek(ts, a);
      ghost var keep := all + Pending(ts, pipes, q);
      PlaceParts(ts, us, pipes, p);
      SegmentOpens(ts, us, pipes, p);
      HandlePipes(c, p);
      Taken(t, base, ts, pipes, p, all, c.infile, c.outfile);
      ok := HandleRedirection(c, a, base, keep);
      out := Outcome(answers, old(answers), Opens(ts, p));
      PlaceNext(ts, us, tokens, pipes, p);
      ReadyKept(t, table, ts, pipes, q, keep);
      NothingOwned(keep);
      if !ok {
        ghost var t1 := table;
        CloseFds(c, base, keep);
        ReadyKept(t1, table, ts, pipes, q, keep);
        KeptTwice(t, t1, table, keep);
      } else {
        HandleCmd(c, a);
        NewRight(t, table, ts, us, tokens, pipes, p, c);
      }
    }

    lemma BetweenParts(cmds: seq<Cmd>, ts: seq<Token>, p: nat, base: Table)
      requires Between(cmds, ts, p, base)
      ensures Place(ts, tokens, pipes, p) && p <= |ts|
      ensures Balanced(table, base, OwnedAll(cmds) + Pending(ts, pipes, p)) && Ready(table, ts, pipes, p) && RedirsFollowed(ts) && Right(table, cmds, ts)
    {}

    lemma BetweenIf(cmds: seq<Cmd>, ts: seq<Token>, p: nat, base: Table)
      requires Place(ts, tokens, pipes, p)
      requires Balanced(table, base, OwnedAll(cmds) + Pending(ts, pipes, p)) && Ready(table, ts, pipes, p) && RedirsFollowed(ts) && Right(table, cmds, ts)
      ensures Between(cmds, ts, p, base)
    {}

    /** Commands for exactly the segments none of whose redirections fails, in order, with all pipes wired; outs tells how the
        redirections of each segment went. If a pipe cannot be had, the shell exits. */
    method ConvertToCmds() returns (alive: bool, cmds: seq<Cmd>, ghost outs: seq<seq<bool>>)
      requires Parsed(tokens) && Unmarked(tokens, 0) && pipes == map[]
      modifies this
      ensures alive ==> Balanced(table, old(table), OwnedAll(cmds)) && Right(table, cmds, old(tokens))
      ensures var n := Bars(old(tokens), |old(tokens)|);
        if alive then answers == old(answers) + Successes(n) + Flat(outs)
        else Tried(answers, old(answers), n) && answers != old(answers) + Successes(n)
      ensures alive ==> var starts := Starts(old(tokens), 0);
        |outs| == |starts| && Outcomes(old(tokens), starts, outs) && StartsOf(cmds) == Chosen(starts, outs)
      ensures alive ==> |outs| > 0 ==> exitStatus == if false in outs[|outs| - 1] then 1 else 0
      ensures fresh(cmds)
    {
      hide *;
      ghost var ts, base := tokens, table;
      cmds, outs := [], [];
      NothingYet(table);
      alive := OpenPipes(base);
      if !alive { return; }
      ghost var before := answers;
      var p := 0;
      StartBetween(cmds, ts, base);
      StartsBegin(ts);
      while p < |tokens|
        invariant Between(cmds, ts, p, base) && fresh(cmds) && |tokens| == |ts|
        invariant Dealt(ts, p, StartsOf(cmds), outs) && answers == before + Flat(outs)
        invariant |outs| > 0 ==> exitStatus == if false in outs[|outs| - 1] then 1 else 0
        decreases |ts| - p
      {
        SameSize(cmds, ts, p, base);
        ghost var was, q := cmds, p;
        ghost var out;
        cmds, p, out := AddCmd(cmds, p, ts, base);
        SameSize(cmds, ts, p, base);
        StartsOfMore(was, cmds, q);
        DealtNext(ts, q, StartsOf(was), outs, out);
        FlatMore(before, outs, out);
        outs := outs + [out];
      }
      EndBetween(cmds, ts, p, base);
      DealtAll(ts, p, StartsOf(cmds), outs);
    }

    lemma SameSize(cmds: seq<Cmd>, ts: seq<Token>, p: nat, base: Table)
      requires Between(cmds, ts, p, base)
      ensures |tokens| == |ts| && p <= |ts|
    {}

    lemma StartBetween(cmds: seq<Cmd>, ts: seq<Token>, base: Table)
      requires cmds == [] && tokens == ts && Parsed(ts) && Unmarked(ts, 0) && Piped(ts, pipes)
      requires Balanced(table, base, Ends(ts, pipes, 0)) && Flowing(table, ts, pipes, 0)
      ensures Between(cmds, ts, 0, base)
    {
      assert OwnedAll(cmds) + Pending(ts, pipes, 0) == Ends(ts, pipes, 0);
    }

    lemma EndBetween(cmds: seq<Cmd>, ts: seq<Token>, p: nat, base: Table)
      requires Between(cmds, ts, p, base) && p >= |ts|
      ensures RedirsFollowed(ts) && Balanced(table, base, OwnedAll(cmds)) && Right(table, cmds, ts)
    {
      assert OwnedAll(cmds) + Pending(ts, pipes, p) == OwnedAll(cmds);
    }

    /** Closes what the commands own: afterwards exactly the descriptors are open that were before the line was read. */
    method CloseAllFds(cmds: seq<Cmd>, ghost base: Table)
      requires Balanced(table, base, OwnedAll(cmds))
      modifies this`table
      ensures table == base
    {
      hide *;
      assert cmds[0..] == cmds;
      for i := 0 to |cmds|
        invariant Balanced(table, base, OwnedAll(cmds[i..]))
      {
        var c := cmds[i];
        OwnedFrom(cmds, i);
        ghost var rest := OwnedAll(cmds[i + 1..]);
        CloseOrder(rest, c.infile, c.outfile);
        if c.outfile != 0 {
          AfterClose(table, base, rest + Side2(c.infile), c.outfile);
          Close(c.outfile);
        }
        if c.infile != 0 {
          AfterClose(table, base, rest, c.infile);
          Close(c.infile);
        }
      }
      OwnedNone(cmds);
      AllClosed(table, base);
    }

    /** The parent's part of a pipeline: whatever the segments, the redirections and their failures, everything that was opened is closed. */
    method RunPipeline() returns (alive: bool)
      requires Parsed(tokens) && Unmarked(tokens, 0) && pipes == map[]
      modifies this
      ensures alive ==> table == old(table)
    {
      hide *;
      ghost var base := table;
      var cmds;
      ghost var outs;
      alive, cmds, outs := ConvertToCmds();
      if alive { CloseAllFds(cmds, base); }
    }

    /** What a child does before it runs its command: input and output are moved to 0 and 1, and all else that was opened is closed. */
    method Child(cmds: seq<Cmd>, c: Cmd, ghost base: Table, ghost ts: seq<Token>)
      requires c in cmds && RedirsFollowed(ts) && 0 in base && 1 in base && Balanced(table, base, OwnedAll(cmds)) && Right(table, cmds, ts) && c.start < |ts|
      modifies this`table
      ensures var input, output := Source(ts, c.start), Sink(ts, c.start);
        table == base[0 := if input.Some? then input.value else base[0]][1 := if output.Some? then output.value else base[1]]
    {
      hide *;
      OwnedHas(cmds, c);
      ghost var t := table;
      OwnedNew(t, base, OwnedAll(cmds), c.infile, c.outfile);
      RightAt(t, cmds, ts, c);
      BaseOpen(t, base, OwnedAll(cmds));
      if c.infile != 0 { table := table[0 := table[c.infile]]; }
      if c.outfile != 0 { table := table[1 := table[c.outfile]]; }
      ghost var base' := base[0 := table[0]][1 := table[1]];
      Moved(t, base, OwnedAll(cmds), table, base');
      CloseAllFds(cmds, base');
    }
  }

  /** The segments before p have been dealt with, as outs says, and made the commands that begin at chosen. */
  ghost predicate Dealt(ts: seq<Token>, p: nat, chosen: seq<nat>, outs: seq<seq<bool>>) {
    && Parsed(ts) && p <= |ts| && (0 < p < |ts| ==> ts[p].Bar?)
    && var starts := Starts(ts, 0);
       && Outcomes(ts, starts, outs) && starts[|outs|..] == Starts(ts, p) && chosen == Chosen(starts, outs)
  }

  lemma StartsBegin(ts: seq<Token>)
    requires Parsed(ts)
    ensures Dealt(ts, 0, StartsOf([]), []) && Flat([]) == [] && forall b: seq<bool> :: b + [] == b
  {}

  lemma StartsOfMore(was: seq<Cmd>, cmds: seq<Cmd>, p: nat)
    requires cmds == was || (|cmds| == |was| + 1 && cmds == was + [cmds[|was|]] && cmds[|was|].start == p)
    ensures StartsOf(cmds) == StartsOf(was) + if cmds == was then [] else [p]
  {}

  lemma DealtNext(ts: seq<Token>, p: nat, chosen: seq<nat>, outs: seq<seq<bool>>, out: seq<bool>)
    requires Dealt(ts, p, chosen, outs) && p < |ts| && Tried(out, [], Opens(ts, p))
    ensures Dealt(ts, Seek(ts, First(ts, p)), chosen + (if false in out then [] else [p]), outs + [out])
  {
    hide Tried, Opens, Chosen, Starts, Parsed;
    var starts := Starts(ts, 0);
    StartsNext(ts, p);
    OneMore(starts, outs, out);
  }

  lemma StartsNext(ts: seq<Token>, p: nat)
    requires Parsed(ts) && p < |ts| && (0 < p ==> ts[p].Bar?)
    ensures var q := Seek(ts, First(ts, p)); p < q <= |ts| && (q < |ts| ==> ts[q].Bar?)
    ensures Starts(ts, p) == [p] + Starts(ts, Seek(ts, First(ts, p)))
    ensures forall s: seq<nat>, n: nat :: n <= |s| && s[n..] == Starts(ts, p) ==> n < |s| && s[n] == p && s[n + 1..] == Starts(ts, Seek(ts, First(ts, p)))
  {
    var q := Next(ts, p);
    forall s: seq<nat>, n: nat | n <= |s| && s[n..] == Starts(ts, p)
      ensures n < |s| && s[n] == p && s[n + 1..] == Starts(ts, q)
    {
      Suffix(s, n, p, Starts(ts, q));
    }
  }

  lemma Suffix(s: seq<nat>, n: nat, p: nat, rest: seq<nat>)
    requires n <= |s| && s[n..] == [p] + rest
    ensures n < |s| && s[n] == p && s[n + 1..] == rest
  {
    assert |s[n..]| > 0 && s[n..][0] == s[n] && s[n..][1..] == s[n + 1..];
  }

  lemma FlatMore(before: seq<bool>, outs: seq<seq<bool>>, out: seq<bool>)
    ensures before + Flat(outs) + out == before + Flat(outs + [out]) && |outs + [out]| > 0 && (outs + [out])[|outs + [out]| - 1] == out
  {
    assert (outs + [out])[..|outs|] == outs;
  }

  lemma DealtAll(ts: seq<Token>, p: nat, chosen: seq<nat>, outs: seq<seq<bool>>)
    requires Dealt(ts, p, chosen, outs) && p >= |ts|
    ensures Parsed(ts) && var starts := Starts(ts, 0);
      |outs| == |starts| && Outcomes(ts, starts, outs) && chosen == Chosen(starts, outs)
  {
    hide Outcomes, Chosen;
    var starts := Starts(ts, 0);
    assert |outs| <= |starts| by { OutcomesLength(ts, starts, outs); }
    assert starts[|outs|..] == [];
  }

  lemma OutcomesLength(ts: seq<Token>, starts: seq<nat>, outs: seq<seq<bool>>)
    requires Outcomes(ts, starts, outs)
    ensures |outs| <= |starts|
  {}

  lemma RightAt(t: Table, cmds: seq<Cmd>, ts: seq<Token>, c: Cmd)
    requires RedirsFollowed(ts) && Right(t, cmds, ts) && c in cmds
    ensures c.start < |ts| && Refers(t, c.infile) == Source(ts, c.start) && Refers(t, c.outfile) == Sink(ts, c.start)
    ensures (c.infile != 0 && c.infile in t ==> Refers(t, c.infile) == Some(t[c.infile])) && (c.infile == 0 ==> Refers(t, c.infile) == None)
    ensures (c.outfile != 0 && c.outfile in t ==> Refers(t, c.outfile) == Some(t[c.outfile])) && (c.outfile == 0 ==> Refers(t, c.outfile) == None)
  {
    hide Source, Sink, Words;
    assert OneRight(t, c, ts);
  }

  lemma BaseOpen(t: Table, base: Table, owned: multiset<int>)
    requires Balanced(t, base, owned)
    ensures forall fd :: fd in base ==> fd in t && t[fd] == base[fd]
  {}

  /** Redirecting 0 and 1, which were open before, changes what they refer to and nothing else. */
  lemma Moved(t: Table, base: Table, owned: multiset<int>, t': Table, base': Table)
    requires Balanced(t, base, owned) && 0 in base && 1 in base && t'.Keys == t.Keys && 0 in t' && 1 in t' && base' == base[0 := t'[0]][1 := t'[1]]
    requires forall fd :: fd in t && fd != 0 && fd != 1 ==> t'[fd] == t[fd]
    ensures Balanced(t', base', owned)
  {
    assert base'.Keys == base.Keys;
  }

  // ---------- who holds what ----------

  lemma {:induction false} Owner(cmds: seq<Cmd>, fd: int) returns (c: Cmd)
    requires fd in OwnedAll(cmds) && fd != 0
    ensures c in cmds && (c.infile == fd || c.outfile == fd)
  {
    c := cmds[0];
    if fd != c.infile && fd != c.outfile {
      assert fd !in Owned(c.infile, c.outfile);
      assert fd in OwnedAll(cmds[1..]);
      c := Owner(cmds[1..], fd);
    }
  }

  lemma {:induction false} SinkIs(ts: seq<Token>, a: nat, b: nat)
    requires a <= b <= |ts| && RedirsFollowed(ts)
    ensures (LastOut(ts, a, b).Some? ==> LastOut(ts, a, b).value.Opened?) && (LastIn(ts, a, b).Some? ==> LastIn(ts, a, b).value.Opened?)
    decreases b - a
  {
    if a < b { SinkIs(ts, a + 1, b); }
  }

  /** A descriptor that was opened for the pipeline and refers to a pipe's write end belongs to the command in front of that pipe, as its output, and to no other; a read end belongs to the command behind it, as its input. */
  lemma OnlyHolder(t: Table, base: Table, cmds: seq<Cmd>, ts: seq<Token>, fd: int, q: nat) returns (c: Cmd)
    requires RedirsFollowed(ts) && Balanced(t, base, OwnedAll(cmds)) && Right(t, cmds, ts) && fd in t && fd !in base && fd != 0
    requires t[fd] == WriteEnd(q) || t[fd] == ReadEnd(q)
    ensures c in cmds && c.start < |ts|
    ensures t[fd] == WriteEnd(q) ==> c.outfile == fd && c.infile != fd && Seek(ts, First(ts, c.start)) == q
    ensures t[fd] == ReadEnd(q) ==> c.infile == fd && c.outfile != fd && c.start == q
    ensures OwnedAll(cmds)[fd] == 1
  {
    assert multiset(t.Keys)[fd] == 1 && multiset(base.Keys)[fd] == 0;
    c := Owner(cmds, fd);
    assert OneRight(t, c, ts);
    var a := First(ts, c.start);
    SinkIs(ts, a, Seek(ts, a));
  }

  lemma NothingYet(t: Table)
    ensures Balanced(t, t, multiset{})
  {}

  /** The line and the pipes at a boundary between segments. */
  ghost predicate Place(ts: seq<Token>, us: seq<Token>, pipes: map<nat, Pipe>, p: nat) {
    p <= |ts| && Same(ts, us) && Parsed(ts) && Piped(ts, pipes) && Unmarked(us, p) && (0 < p < |ts| ==> ts[p].Bar?)
  }

  /** Commands have the descriptors and arguments that the line calls for. */
  ghost predicate Right(t: Table, cmds: seq<Cmd>, ts: seq<Token>)
    reads cmds
    requires RedirsFollowed(ts)
  {
    forall c :: c in cmds ==> OneRight(t, c, ts)
  }

  ghost predicate OneRight(t: Table, c: Cmd, ts: seq<Token>)
    reads c
    requires RedirsFollowed(ts)
  {
    && c.start < |ts| && (c.start > 0 ==> ts[c.start].Bar?) && Refers(t, c.infile) == Source(ts, c.start) && Refers(t, c.outfile) == Sink(ts, c.start)
    && c.args == Words(ts, First(ts, c.start), Seek(ts, First(ts, c.start)))
  }

  lemma PlaceParts(ts: seq<Token>, us: seq<Token>, pipes: map<nat, Pipe>, p: nat)
    requires Place(ts, us, pipes, p) && p < |ts|
    ensures p < |us| == |ts| && Piped(ts, pipes) && Piped(us, pipes) && RedirsFollowed(us) && RedirsFollowed(ts) && us[p].Bar? == ts[p].Bar?
    ensures First(ts, p) == if us[p].Bar? then p + 1 else p
    ensures var a := First(ts, p);
      && a == First(us, p) && a < |us| && !us[a].Bar? && Unmarked(us, a) && (a > 0 ==> !us[a - 1].Redir?)
      && Seek(us, a) == Seek(ts, a) > p
  {
    SameRedirs(ts, us);
    SameSeek(ts, us, First(ts, p));
    assert us[p].Bar? == ts[p].Bar?;
  }

  /** After the segment's redirections. */
  lemma PlaceNext(ts: seq<Token>, us: seq<Token>, us': seq<Token>, pipes: map<nat, Pipe>, p: nat)
    requires Place(ts, us, pipes, p) && p < |ts| && Same(us, us') && Unmarked(us', Seek(ts, First(ts, p)))
    ensures var a := First(ts, p); var q := Seek(ts, a);
      && Place(ts, us', pipes, q) && |us'| == |ts| && a < |us'| && First(us', a) == a && Seek(us', a) == q && Seek(us, a) == q
  {
    var a := First(ts, p);
    PlaceParts(ts, us, pipes, p);
    SameSeek(us, us', a);
    SameTwice(ts, us, us');
    assert !us'[a].Bar?;
  }

  lemma SameTwice(ts: seq<Token>, us: seq<Token>, us': seq<Token>)
    requires Same(ts, us) && Same(us, us')
    ensures Same(ts, us')
  {
    forall i | 0 <= i < |ts| ensures if ts[i].Text? then us'[i].Text? && us'[i].name == ts[i].name else us'[i] == ts[i] {
      assert if ts[i].Text? then us[i].Text? && us[i].name == ts[i].name else us[i] == ts[i];
    }
  }

  lemma SegmentOpens(ts: seq<Token>, us: seq<Token>, pipes: map<nat, Pipe>, p: nat)
    requires Place(ts, us, pipes, p) && p < |ts|
    ensures var a := First(ts, p); a <= Seek(us, a) <= |us| && Redirs(us, a, Seek(us, a)) == Opens(ts, p)
  {
    PlaceParts(ts, us, pipes, p);
    SameOpens(ts, us, First(ts, p), Seek(ts, First(ts, p)));
  }

  /** The new command has what its segment calls for. */
  lemma NewRight(t: Table, t': Table, ts: seq<Token>, us: seq<Token>, us': seq<Token>, pipes: map<nat, Pipe>, p: nat, c: Cmd)
    requires Place(ts, us, pipes, p) && p < |ts| && Same(us, us') && RedirsFollowed(ts) && RedirsFollowed(us) && c.start == p
    requires var a := First(ts, p); var q := Seek(ts, a);
      && q <= |us'| && Seek(us', a) == q && |us| == |ts| == |us'| && c.args == Words(us', a, q)
      && Refers(t', c.infile) == Or(LastIn(us, a, q), if ts[p].Bar? then Some(ReadEnd(p)) else None)
      && Refers(t', c.outfile) == Or(LastOut(us, a, q), if q < |ts| then Some(WriteEnd(q)) else None)
    ensures OneRight(t', c, ts)
  {
    var a := First(ts, p);
    var q := Seek(ts, a);
    SameLast(ts, us, a, q);
    SameTwice(ts, us, us');
    SameWords(ts, us', a, q);
  }

  /** What commands own is neither 0 nor 1 if these were open before. */
  lemma OwnedNew(t: Table, base: Table, all: multiset<int>, infile: int, outfile: int)
    requires Balanced(t, base, all) && Owned(infile, outfile) <= all
    ensures (infile != 0 ==> infile in t && infile !in base) && (outfile != 0 ==> outfile in t && outfile !in base)
  {
    OwnedIn(infile, outfile, all);
    OwnedOnce(t, base, all, infile);
    OwnedOnce(t, base, all, outfile);
  }

  /** The new command's ends come out of what was pending. */
  lemma Taken(t: Table, base: Table, ts: seq<Token>, pipes: map<nat, Pipe>, p: nat, all: multiset<int>, infile: int, outfile: int)
    requires p < |ts| && Piped(ts, pipes) && RedirsFollowed(ts) && Balanced(t, base, all + Pending(ts, pipes, p)) && Ready(t, ts, pipes, p)
    requires var q := Seek(ts, First(ts, p));
      infile == (if ts[p].Bar? then pipes[p].read else 0) && outfile == if q < |ts| then pipes[q].write else 0
    ensures var q := Seek(ts, First(ts, p));
      && Balanced(t, base, all + Pending(ts, pipes, q) + Owned(infile, outfile)) && Ready(t, ts, pipes, q)
      && Refers(t, infile) == (if ts[p].Bar? then Some(ReadEnd(p)) else None)
      && Refers(t, outfile) == (if q < |ts| then Some(WriteEnd(q)) else None)
  {
    hide *;
    var q := Seek(ts, First(ts, p));
    PendingSplit(ts, pipes, p);
    EndsFine(t, ts, pipes, p);
    OwnedIs(infile, outfile);
    assert Pending(ts, pipes, p) == Owned(infile, outfile) + Pending(ts, pipes, q);
    assert all + (Owned(infile, outfile) + Pending(ts, pipes, q)) == all + Pending(ts, pipes, q) + Owned(infile, outfile);
  }

  lemma OwnedIs(infile: int, outfile: int)
    ensures Owned(infile, outfile) == (if infile != 0 then multiset{infile} else multiset{}) + (if outfile != 0 then multiset{outfile} else multiset{})
  {}

  /** The two ends that the segment takes are what they should be, and the rest stays ready. */
  lemma EndsFine(t: Table, ts: seq<Token>, pipes: map<nat, Pipe>, p: nat)
    requires p < |ts| && Piped(ts, pipes) && Ready(t, ts, pipes, p)
    ensures ts[p].Bar? ==> p in pipes && pipes[p].read > 0 && Refers(t, pipes[p].read) == Some(ReadEnd(p))
    ensures var q := Seek(ts, First(ts, p)); q < |ts| ==> q in pipes && pipes[q].write > 0 && Refers(t, pipes[q].write) == Some(WriteEnd(q))
    ensures Ready(t, ts, pipes, Seek(ts, First(ts, p))) && Refers(t, 0) == None
  {
    var q := Seek(ts, First(ts, p));
    if q < |ts| { assert q > p && ts[q].Bar? && q in pipes; }
  }

  /** What was owned by other commands refers to what it did. */
  lemma RightKept(t: Table, t': Table, cmds: seq<Cmd>, ts: seq<Token>, keep: multiset<int>)
    requires RedirsFollowed(ts) && Right(t, cmds, ts) && Kept(t, t', keep) && OwnedAll(cmds) <= keep
    ensures Right(t', cmds, ts)
  {
    forall c | c in cmds ensures OneRight(t', c, ts) {
      OwnedHas(cmds, c);
      assert OneRight(t, c, ts);
      OwnedIn(c.infile, c.outfile, keep);
    }
  }

  lemma OwnedIn(infile: int, outfile: int, keep: multiset<int>)
    requires Owned(infile, outfile) <= keep
    ensures (infile != 0 ==> infile in keep) && (outfile != 0 ==> outfile in keep)
  {
    if infile != 0 { assert Owned(infile, outfile)[infile] >= 1; }
    if outfile != 0 { assert Owned(infile, outfile)[outfile] >= 1; }
  }

  lemma RightSnoc(t: Table, cmds: seq<Cmd>, ts: seq<Token>, c: Cmd)
    requires RedirsFollowed(ts) && Right(t, cmds, ts) && OneRight(t, c, ts)
    ensures Right(t, cmds + [c], ts)
  {}

  lemma NothingOwned(keep: multiset<int>)
    ensures keep + multiset{} == keep
  {}

  lemma Shuffle(a: multiset<int>, b: multiset<int>, c: multiset<int>)
    ensures a + b + c == a + c + b
  {}

  lemma CloseOrder(rest: multiset<int>, infile: int, outfile: int)
    ensures Owned(infile, outfile) + rest == if outfile != 0 then rest + Side2(infile) + multiset{outfile} else rest + Side2(infile)
    ensures rest + Side2(infile) == if infile != 0 then rest + multiset{infile} else rest
  {}

  lemma MarkedAt(ts: seq<Token>, a: nat, b: nat, i: nat)
    requires b <= |ts| && Marked(ts, a, b) && a <= i < b
    ensures ts[i].Text? ==> (ts[i].isFile <==> i > 0 && ts[i - 1].Redir?)
  {}

  lemma WordsNone(ts: seq<Token>, a: nat)
    requires a <= |ts|
    ensures Words(ts, a, a) == []
  {}

  lemma OrRules()
    ensures forall d: Desc, r: Option<Desc> :: Or(Some(d), r) == Some(d)
    ensures forall r: Option<Desc> :: Or(None, r) == r
  {}

  /** How far the redirections of the segment at a have been carried out: the marks are set up to i. */
  ghost predicate Progress(ts: seq<Token>, us: seq<Token>, a: nat, i: nat) {
    && a <= |ts| && a <= i <= Seek(ts, a) && Same(ts, us) && RedirsFollowed(us)
    && (a > 0 ==> !ts[a - 1].Redir?)
    && forall j :: a <= j < |us| && us[j].Text? ==> (us[j].isFile <==> a < j <= i && ts[j - 1].Redir?)
  }

  lemma NoneMarked(ts: seq<Token>, a: nat)
    requires a <= |ts| && RedirsFollowed(ts) && Unmarked(ts, a) && (a > 0 ==> !ts[a - 1].Redir?)
    ensures Progress(ts, ts, a, a)
  {}

  /** At a token that is no bar. */
  lemma ProgressParts(ts: seq<Token>, us: seq<Token>, a: nat, i: nat)
    requires Progress(ts, us, a, i) && RedirsFollowed(ts) && i < |us| && !us[i].Bar?
    ensures a <= |ts| == |us| && i < Seek(ts, a) && Same(ts, us) && Unmarked(us, Seek(ts, a))
    ensures us[i].Redir? == ts[i].Redir? && (ts[i].Redir? ==> us[i] == ts[i] && i + 1 < |us| && us[i + 1].Text? && ts[i + 1].Text? && us[i + 1].name == ts[i + 1].name)
  {
    assert !ts[i].Bar?;
    SeekFrom(ts, a, i);
  }

  lemma ProgressText(ts: seq<Token>, us: seq<Token>, a: nat, i: nat)
    requires Progress(ts, us, a, i) && i < |us| && !us[i].Bar? && !us[i].Redir?
    ensures Progress(ts, us, a, i + 1)
  {
    assert us[i].Text? && ts[i].Text?;
    SeekFrom(ts, a, i);
  }

  lemma ProgressRedir(ts: seq<Token>, us: seq<Token>, a: nat, i: nat)
    requires Progress(ts, us, a, i) && RedirsFollowed(ts) && i + 1 < |us| && us[i].Redir? && us[i + 1].Text?
    ensures Progress(ts, us[i + 1 := us[i + 1].(isFile := true)], a, i + 1)
  {
    var us' := us[i + 1 := us[i + 1].(isFile := true)];
    assert ts[i].Redir? && ts[i + 1].Text?;
    SeekFrom(ts, a, i);
    assert Same(ts, us');
    SameRedirs(ts, us');
  }

  /** At the end of the segment. */
  lemma ProgressDone(ts: seq<Token>, us: seq<Token>, a: nat, i: nat)
    requires Progress(ts, us, a, i) && (i < |us| ==> us[i].Bar?)
    ensures a <= |ts| == |us| && i == Seek(ts, a) && Same(ts, us) && Unmarked(us, i) && Marked(us, a, i)
  {
    if i < |us| { assert ts[i].Bar?; }
    SeekIs(ts, a, i);
    forall j | a <= j < i && us[j].Text? ensures us[j].isFile <==> j > 0 && us[j - 1].Redir? {
      if j > 0 { assert us[j - 1].Redir? == ts[j - 1].Redir?; }
    }
  }

  lemma LastNone(ts: seq<Token>, a: nat)
    requires a <= |ts| && RedirsFollowed(ts)
    ensures LastIn(ts, a, a) == None && LastOut(ts, a, a) == None
  {}

  /** A search that has not met a bar goes on. */
  lemma {:induction false} SeekFrom(ts: seq<Token>, a: nat, i: nat)
    requires a <= i < |ts| && i <= Seek(ts, a) && !ts[i].Bar?
    ensures i + 1 <= Seek(ts, a)
  {}

  lemma {:induction false} SeekIs(ts: seq<Token>, a: nat, i: nat)
    requires a <= i <= |ts| && i <= Seek(ts, a) && (i < |ts| ==> ts[i].Bar?)
    ensures i == Seek(ts, a)
  {}

  lemma KeptTwice(t: Table, t1: Table, t2: Table, keep: multiset<int>)
    requires Kept(t, t1, keep) && Kept(t1, t2, keep)
    ensures Kept(t, t2, keep)
  {}

  lemma KeptLess(t: Table, t1: Table, keep: multiset<int>, more: multiset<int>)
    requires Kept(t, t1, keep + more)
    ensures Kept(t, t1, keep)
  {
    assert forall x :: x in keep ==> x in keep + more;
  }

  function Side2(fd: int): multiset<int> { if fd != 0 then multiset{fd} else multiset{} }

  lemma OwnedParts(keep: multiset<int>, a: int, b: int)
    ensures keep + Owned(a, b) == if a != 0 then keep + Side2(b) + multiset{a} else keep + Side2(b)
    ensures keep + Side2(b) == if b != 0 then keep + multiset{} + multiset{b} else keep
    ensures keep + multiset{} == keep
  {}

  /** What is owned is open, so it is kept when nothing happens. */
  lemma KeptAlways(t: Table, base: Table, keep: multiset<int>, rest: multiset<int>)
    requires Balanced(t, base, keep + rest)
    ensures Kept(t, t, keep)
  {
    forall x | x in keep ensures x in t { assert multiset(t.Keys)[x] >= 1; }
  }

  lemma KeptOpen(t: Table, base: Table, owned: multiset<int>, fd: int, d: Desc)
    requires Balanced(t, base, owned) && fd !in t
    ensures Kept(t, t[fd := d], owned)
  {
    forall x | x in owned ensures x in t && x != fd { assert multiset(t.Keys)[x] >= 1; }
  }

  /** After the new descriptor has taken its place. */
  lemma RedirectDone(t: Table, t1: Table, t2: Table, keep: multiset<int>, infile: int, outfile: int, op: Op, fd: int, name: nat)
    requires fd > 0 && fd !in t && t1 == t[fd := Opened(op, name)] && (if op == In then infile == fd else outfile == fd)
    requires Kept(t1, t2, keep + Owned(infile, outfile)) && Kept(t, t, keep)
    ensures Kept(t, t2, keep) && Refers(t2, fd) == Some(Opened(op, name))
    ensures var other := if op == In then outfile else infile; other == 0 || other in t ==> Refers(t2, other) == Refers(t, other)
  {
    assert fd in Owned(infile, outfile);
    var other := if op == In then outfile else infile;
    if other != 0 { assert other in Owned(infile, outfile); }
  }
}
