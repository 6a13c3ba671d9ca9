/** awk's `sub` and `gsub`: one pass to size the result, a second pass to build it. */
module AwkGsub {
  import opened Numbers
  import opened Wrappers

  /** A stretch of the subject string. */
  datatype Span = Span(so: nat, eo: nat)

  /** The regular expression matcher: looks in the given string, which may or may not be at the beginning of the subject. */
  type Matcher = (string, bool) -> Option<Span>

  ghost predicate Sane(rx: Matcher) {
    forall t: string, notbol: bool :: rx(t, notbol).Some? ==> rx(t, notbol).value.so <= rx(t, notbol).value.eo <= |t|
  }

  // ---------- the replacement text ----------

  /** Character i of the replacement, or NUL past its end. */
  function At(repl: string, i: nat): char { if i < |repl| then repl[i] else '\0' }

  /** What is produced at position i for the match m, and how many characters of the replacement that takes. */
  function Piece(repl: string, i: nat, m: string): (string, nat)
    requires i < |repl|
  {
    if repl[i] == '&' then (m, 1)
    else if repl[i] != '\\' then ([repl[i]], 1)
    else if At(repl, i + 1) == '&' then ("&", 2)
    else if At(repl, i + 1) != '\\' then ("\\", 1)
    else if At(repl, i + 2) == '\\' && At(repl, i + 3) == '&' then ("\\&", 4)
    else if At(repl, i + 2) != '&' then ("\\\\", 2)
    else ("\\", 2)
  }

  lemma PieceFits(repl: string, i: nat, m: string)
    requires i < |repl|
    ensures i + Piece(repl, i, m).1 <= |repl|
    ensures |Piece(repl, i, m).0| <= if repl[i] == '&' then |m| else Piece(repl, i, m).1
  {}

  /** The replacement from position i on. */
  function Expand(repl: string, i: nat, m: string): string
    requires i <= |repl|
    decreases |repl| - i
  {
    if i == |repl| then []
    else
      PieceFits(repl, i, m);
      Piece(repl, i, m).0 + Expand(repl, i + Piece(repl, i, m).1, m)
  }

  /** Ampersands, escaped ones included. */
  function Amps(repl: string, i: nat): nat
    requires i <= |repl|
    decreases |repl| - i
  {
    if i == |repl| then 0 else (if repl[i] == '&' then 1 else 0) + Amps(repl, i + 1)
  }

  lemma {:induction false} AmpsMono(repl: string, i: nat, k: nat)
    requires i <= k <= |repl|
    ensures Amps(repl, k) <= Amps(repl, i)
    decreases k - i
  {
    if i < k { AmpsMono(repl, i + 1, k); }
  }

  /** The replacement text takes at most its own length and one copy of the match for each ampersand. */
  lemma {:induction false} ExpandBound(repl: string, i: nat, m: string)
    requires i <= |repl|
    ensures |Expand(repl, i, m)| <= (|repl| - i) + Amps(repl, i) * |m|
    decreases |repl| - i
  {
    if i < |repl| {
      var k := i + Piece(repl, i, m).1;
      PieceFits(repl, i, m);
      ExpandBound(repl, k, m);
      if repl[i] == '&' {
        AddOne(Amps(repl, i + 1), |m|);
      } else {
        AmpsMono(repl, i, k);
        CancelTimes(Amps(repl, k), Amps(repl, i), |m|);
      }
    }
  }

  lemma AddOne(a: int, b: int)
    ensures (a + 1) * b == a * b + b
  {}

  /** n backslashes. */
  function Slashes(n: nat): (r: string)
    ensures |r| == n && forall i :: 0 <= i < n ==> r[i] == '\\'
  {
    seq(n, i => '\\')
  }

  lemma ExpandUnfold(repl: string, i: nat, m: string)
    requires i < |repl|
    ensures i + Piece(repl, i, m).1 <= |repl|
    ensures Expand(repl, i, m) == Piece(repl, i, m).0 + Expand(repl, i + Piece(repl, i, m).1, m)
  {
    hide Piece;
    PieceFits(repl, i, m);
  }

  /** What stands before an ampersand that follows n backslashes, and what the ampersand becomes. */
  function RunMeaning(n: nat, m: string): string {
    if n % 2 == 0 then Slashes(if n == 0 then 0 else n - 1) + m else Slashes(if n == 1 then 0 else n - 2) + "&"
  }

  lemma ShortRun(repl: string, i: nat, n: nat, m: string)
    requires n <= 3 && i + n < |repl| && repl[i + n] == '&' && forall j :: i <= j < i + n ==> repl[j] == '\\'
    ensures Expand(repl, i, m) == RunMeaning(n, m) + Expand(repl, i + n + 1, m)
  {
    hide Expand;
    ExpandUnfold(repl, i, m);
    if n == 0 {
      assert RunMeaning(0, m) == m;
    } else if n == 1 {
      assert RunMeaning(1, m) == "&";
    } else if n == 2 {
      ExpandUnfold(repl, i + 2, m);
      assert Piece(repl, i + 2, m) == (m, 1);
      assert Slashes(1) == "\\";
      Assoc("\\", m, Expand(repl, i + 3, m));
    } else {
      assert RunMeaning(3, m) == "\\&";
    }
  }

  /** What a run of n backslashes before an ampersand stands for: after an even number the ampersand is the match,
      after an odd number it is itself; one or two of the backslashes are used up. */
  lemma {:induction false} BackslashRun(repl: string, i: nat, n: nat, m: string)
    requires i + n < |repl| && repl[i + n] == '&' && forall j :: i <= j < i + n ==> repl[j] == '\\'
    ensures Expand(repl, i, m) == RunMeaning(n, m) + Expand(repl, i + n + 1, m)
    decreases n
  {
    if n <= 3 {
      ShortRun(repl, i, n, m);
    } else {
      ExpandUnfold(repl, i, m);
      assert Piece(repl, i, m) == ("\\\\", 2);
      hide Expand, Piece;
      BackslashRun(repl, i + 2, n - 2, m);
      LongerRun(n, m);
      Assoc("\\\\", RunMeaning(n - 2, m), Expand(repl, i + n + 1, m));
    }
  }

  lemma LongerRun(n: nat, m: string)
    requires n > 3
    ensures RunMeaning(n, m) == "\\\\" + RunMeaning(n - 2, m)
  {
    var k := if n % 2 == 0 then n - 3 else n - 4;
    var tail := if n % 2 == 0 then m else "&";
    assert RunMeaning(n - 2, m) == Slashes(k) + tail;
    assert Slashes(k + 2) == "\\\\" + Slashes(k);
    Assoc("\\\\", Slashes(k), tail);
  }

  // ---------- the matches ----------

  /** How far a pass moves on after a match. */
  function Advance(h: Span): nat { if h.eo > 0 then h.eo else 1 }

  /** The matches that a pass meets from position p on. */
  function Hits(rx: Matcher, s: string, p: nat, notbol: bool, isSub: bool): (hs: seq<Span>)
    requires Sane(rx) && p <= |s|
    ensures |hs| > 0 <==> rx(s[p..], notbol).Some?
    decreases |s| - p
  {
    var r := rx(s[p..], notbol);
    if r.None? then []
    else
      var h := Span(p + r.value.so, p + r.value.eo);
      if p == |s| || isSub then [h]
      else [h] + Hits(rx, s, p + Advance(r.value), true, isSub)
  }

  lemma HitsCons(rx: Matcher, s: string, p: nat, notbol: bool, isSub: bool)
    requires Sane(rx) && p <= |s| && rx(s[p..], notbol).Some?
    ensures var r := rx(s[p..], notbol).value; var hs := Hits(rx, s, p, notbol, isSub);
      && r.so <= r.eo <= |s| - p && hs != [] && hs[0] == Span(p + r.so, p + r.eo)
      && hs[1..] == if p == |s| || isSub then [] else Hits(rx, s, p + Advance(r), true, isSub)
  {}

  /** Matches in order, none before the position from. */
  ghost predicate InOrder(hs: seq<Span>, from: nat, n: nat) {
    if hs == [] then from <= n
    else from <= hs[0].so <= hs[0].eo <= n && InOrder(hs[1..], hs[0].eo, n)
  }

  lemma {:induction false} HitsInOrder(rx: Matcher, s: string, p: nat, notbol: bool, isSub: bool, from: nat)
    requires Sane(rx) && from <= p <= |s|
    ensures InOrder(Hits(rx, s, p, notbol, isSub), from, |s|)
    decreases |s| - p
  {
    var r := rx(s[p..], notbol);
    if r.Some? && p < |s| && !isSub {
      HitsInOrder(rx, s, p + Advance(r.value), true, isSub, p + r.value.eo);
    }
  }

  /** The matches that are replaced: all but empty ones just after the match before. */
  function Replaced(hs: seq<Span>, from: nat, first: bool): seq<Span> {
    if hs == [] then []
    else
      (if first || hs[0].so > from || hs[0].eo > hs[0].so then [hs[0]] else []) + Replaced(hs[1..], hs[0].eo, false)
  }

  /** b can be replaced after a match that ended at from. */
  predicate Apart(from: nat, b: Span) { from < b.so || b.so < b.eo }

  lemma ReplacedCons(hs: seq<Span>, from: nat, first: bool)
    requires hs != []
    ensures var rest := Replaced(hs[1..], hs[0].eo, false);
      Replaced(hs, from, first) == if first || hs[0].so > from || hs[0].eo > hs[0].so then [hs[0]] + rest else rest
  {}

  /** Replaced matches do not overlap, and an empty one never touches the one before. */
  lemma {:induction false} ReplacedApart(hs: seq<Span>, from: nat, first: bool, n: nat)
    requires InOrder(hs, from, n)
    ensures InOrder(Replaced(hs, from, first), from, n)
    ensures var all := Replaced(hs, from, first);
      && (forall i :: 0 < i < |all| ==> Apart(all[i - 1].eo, all[i]))
      && (!first && all != [] ==> Apart(from, all[0]))
  {
    if hs != [] {
      ReplacedApart(hs[1..], hs[0].eo, false, n);
      ReplacedCons(hs, from, first);
      hide Replaced;
      var rest := Replaced(hs[1..], hs[0].eo, false);
      var all := Replaced(hs, from, first);
      if first || hs[0].so > from || hs[0].eo > hs[0].so {
        assert all[1..] == rest;
        forall i | 0 < i < |all| ensures Apart(all[i - 1].eo, all[i]) {
          assert all[i] == rest[i - 1] && (i > 1 ==> all[i - 1] == rest[i - 2]);
        }
      }
    } else {
      assert Replaced(hs, from, first) == [];
    }
  }

  /** The subject with the matches hs replaced, from the given position on. */
  function Substituted(s: string, hs: seq<Span>, from: nat, repl: string): string
    requires InOrder(hs, from, |s|)
  {
    if hs == [] then s[from..]
    else s[from..hs[0].so] + (Expand(repl, 0, s[hs[0].so..hs[0].eo]) + Substituted(s, hs[1..], hs[0].eo, repl))
  }

  // ---------- the size ----------

  /** What the first pass adds for the matches hs. */
  function Growth(hs: seq<Span>, repl: string): int
    requires forall h :: h in hs ==> h.so <= h.eo
  {
    if hs == [] then 0 else |repl| + (hs[0].eo - hs[0].so) * (Amps(repl, 0) - 1) + Growth(hs[1..], repl)
  }

  lemma {:induction false} InOrderSpans(hs: seq<Span>, from: nat, n: nat)
    requires InOrder(hs, from, n)
    ensures from <= n && forall h :: h in hs ==> h.so <= h.eo
  {
    if hs != [] { InOrderSpans(hs[1..], hs[0].eo, n); }
  }

  /** The size counted by the first pass is enough for what the second pass builds, skipped matches or not. */
  lemma {:induction false} SizeEnough(s: string, hs: seq<Span>, from: nat, first: bool, repl: string)
    requires InOrder(hs, from, |s|)
    ensures InOrder(Replaced(hs, from, first), from, |s|) && (forall h :: h in hs ==> h.so <= h.eo)
    ensures |Substituted(s, Replaced(hs, from, first), from, repl)| <= |s| - from + Growth(hs, repl)
  {
    InOrderSpans(hs, from, |s|);
    ReplacedApart(hs, from, first, |s|);
    if hs != [] {
      var h := hs[0];
      SizeEnough(s, hs[1..], h.eo, false, repl);
      var rest := Replaced(hs[1..], h.eo, false);
      ExpandBound(repl, 0, s[h.so..h.eo]);
      AddOne(Amps(repl, 0) - 1, h.eo - h.so);
      assert (Amps(repl, 0) - 1) * (h.eo - h.so) == (h.eo - h.so) * (Amps(repl, 0) - 1);
      var all := Replaced(hs, from, first);
      if first || h.so > from || h.eo > h.so {
        assert all == [h] + rest && all[1..] == rest;
      } else {
        assert all == rest && h.eo == from;
      }
    }
  }

  // ---------- the two passes ----------

  method CountAmps(repl: string) returns (n: nat)
    ensures n == Amps(repl, 0)
  {
    n := 0;
    for i := 0 to |repl|
      invariant n + Amps(repl, i) == Amps(repl, 0)
    {
      if repl[i] == '&' { n := n + 1; }
    }
  }

  /** First pass: the capacity needed, and whether there is a match at all. */
  method Measure(rx: Matcher, s: string, repl: string, isSub: bool) returns (need: int, hit: bool)
    requires Sane(rx)
    ensures InOrder(Hits(rx, s, 0, false, isSub), 0, |s|) && (forall h :: h in Hits(rx, s, 0, false, isSub) ==> h.so <= h.eo)
    ensures hit <==> Hits(rx, s, 0, false, isSub) != []
    ensures need == |s| + 1 + Growth(Hits(rx, s, 0, false, isSub), repl)
  {
    hide Hits, Amps, InOrder;
    ghost var hs := Hits(rx, s, 0, false, isSub);
    HitsInOrder(rx, s, 0, false, isSub, 0);
    InOrderSpans(hs, 0, |s|);
    var namps: int := CountAmps(repl);
    need := |s| + 1;
    hit := false;
    var p, notbol := 0, false;
    ghost var rest := hs;
    var r := rx(s, false);
    assert s[0..] == s;
    if r.None? { HitsNone(rx, s, 0, false, isSub); }
    while r.Some?
      invariant p <= |s| && (r.Some? ==> r == rx(s[p..], notbol) && rest == Hits(rx, s, p, notbol, isSub)) && (r.None? ==> rest == [])
      invariant forall h :: h in rest ==> h.so <= h.eo
      invariant need + Growth(rest, repl) == |s| + 1 + Growth(hs, repl)
      invariant if hit then hs != [] else rest == hs
      decreases |s| - p, r.Some?
    {
      hit := true;
      HitsCons(rx, s, p, notbol, isSub);
      need := need + |repl| + (r.value.eo - r.value.so) * (namps - 1);
      rest := rest[1..];
      if p == |s| {
        r := None;
      } else {
        p := p + if r.value.eo > 0 then r.value.eo else 1;
        notbol := true;
        r := if isSub then None else rx(s[p..], notbol);
        if r.None? && !isSub { HitsNone(rx, s, p, true, isSub); }
      }
    }
  }

  lemma HitsNone(rx: Matcher, s: string, p: nat, notbol: bool, isSub: bool)
    requires Sane(rx) && p <= |s| && rx(s[p..], notbol).None?
    ensures Hits(rx, s, p, notbol, isSub) == []
  {}

  /** Appends a piece of text to the result. */
  method CopyIn(z: array<char>, e: nat, text: string) returns (e': nat)
    requires e + |text| <= z.Length
    modifies z
    ensures e' == e + |text| && z[..e'] == old(z[..e]) + text
  {
    for i := 0 to |text|
      invariant z[..e + i] == old(z[..e]) + text[..i]
    {
      z[e + i] := text[i];
    }
    e' := e + |text|;
    assert text[..|text|] == text;
  }

  /** Appends the replacement for the match m. */
  method CopyReplacement(z: array<char>, e0: nat, repl: string, m: string) returns (e: nat)
    requires e0 + |Expand(repl, 0, m)| <= z.Length
    modifies z
    ensures e == e0 + |Expand(repl, 0, m)| && z[..e] == old(z[..e0]) + Expand(repl, 0, m)
  {
    hide Expand, Piece;
    e := e0;
    var i := 0;
    ghost var was, whole, done: string := z[..e0], Expand(repl, 0, m), [];
    while i < |repl|
      invariant i <= |repl| && e == e0 + |done| <= z.Length && z[..e] == was + done
      invariant done + Expand(repl, i, m) == whole
      decreases |repl| - i
    {
      ExpandUnfold(repl, i, m);
      var text, k := NextPiece(repl, i, m);
      Assoc(done, text, Expand(repl, k, m));
      Assoc(was, done, text);
      e := CopyIn(z, e, text);
      done, i := done + text, k;
    }
    ExpandEnd(repl, m);
  }

  lemma ExpandEnd(repl: string, m: string)
    ensures Expand(repl, |repl|, m) == []
  {}

  method NextPiece(repl: string, i: nat, m: string) returns (text: string, k: nat)
    requires i < |repl|
    ensures text == Piece(repl, i, m).0 && k == i + Piece(repl, i, m).1 && i < k <= |repl|
  {
    PieceFits(repl, i, m);
    if repl[i] == '&' {
      text, k := m, i + 1;
    } else if repl[i] == '\\' {
      text, k := BackslashPiece(repl, i, m);
    } else {
      text, k := [repl[i]], i + 1;
    }
  }

  /** What a backslash stands for, with the characters after it. */
  method BackslashPiece(repl: string, i: nat, ghost m: string) returns (text: string, i': nat)
    requires i < |repl| && repl[i] == '\\'
    ensures text == Piece(repl, i, m).0 && i' == i + Piece(repl, i, m).1
  {
    i' := i;
    text := [];
    if At(repl, i' + 1) == '&' {
      i' := i' + 1;
      text := text + [At(repl, i')];
    } else if At(repl, i' + 1) != '\\' {
      text := text + [At(repl, i')];
    } else {
      if At(repl, i' + 2) == '\\' && At(repl, i' + 3) == '&' {
        i' := i' + 2;
        text := text + [At(repl, i')];
      } else if At(repl, i' + 2) != '&' {
        text := text + ['\\'];
      }
      i' := i' + 1;
      text := text + [At(repl, i')];
    }
    i' := i' + 1;
  }

  /** Substitutes the first match, or every match. */
  method Gsub(rx: Matcher, s: string, repl: string, isSub: bool) returns (result: string, nhits: nat)
    requires Sane(rx)
    ensures var hs := Replaced(Hits(rx, s, 0, false, isSub), 0, true);
      InOrder(hs, 0, |s|) && nhits == |hs| && result == Substituted(s, hs, 0, repl)
  {
    hide Hits, Expand, Replaced, Substituted, Growth, InOrder;
    var need, hit := Measure(rx, s, repl, isSub);
    ghost var hs := Hits(rx, s, 0, false, isSub);
    SizeEnough(s, hs, 0, true, repl);
    GrowthOf(hs, s, repl);
    ReplacedApart(hs, 0, true, |s|);
    nhits := 0;
    if !hit {
      NothingReplaced(s, repl);
      return s, 0;
    }
    var z := new char[need];
    ghost var whole := Substituted(s, Replaced(hs, 0, true), 0, repl);
    var e: nat, ep0: nat, p: nat, notbol := 0, 0, 0, false;
    ghost var rest := hs;
    var r := rx(s, false);
    assert s[0..] == s && z[..0] == "";
    if r.None? { HitsNone(rx, s, 0, false, isSub); }
    while r.Some?
      invariant ep0 <= p <= |s| && e <= z.Length == need && |whole| < need && notbol == (p > 0)
      invariant (r.Some? ==> r == rx(s[p..], notbol) && rest == Hits(rx, s, p, notbol, isSub)) && (r.None? ==> rest == [])
      invariant r.None? || (p == 0 <==> rest == hs && nhits == 0 && p == 0)
      invariant InOrder(rest, ep0, |s|) && InOrder(Replaced(rest, ep0, p == 0), ep0, |s|)
      invariant z[..e] + Substituted(s, Replaced(rest, ep0, p == 0), ep0, repl) == whole
      invariant nhits + |Replaced(rest, ep0, p == 0)| == |Replaced(hs, 0, true)|
      decreases |s| - p, r.Some?
    {
      HitsCons(rx, s, p, notbol, isSub);
      e, nhits := CopyHit(z, e, s, rest, ep0, p == 0, repl, p + r.value.so, p + r.value.eo, nhits, whole);
      ep0 := p + r.value.eo;
      rest := rest[1..];
      EmptyReplaced(ep0, true);
      EmptyReplaced(ep0, false);
      if p == |s| {
        r := None;
      } else {
        p := p + if r.value.eo > 0 then r.value.eo else 1;
        notbol := true;
        r := if isSub then None else rx(s[p..], notbol);
        if r.None? && !isSub { HitsNone(rx, s, p, true, isSub); }
      }
    }
    EmptyReplaced(ep0, p == 0);
    RestCopied(s, ep0, repl);
    e := CopyIn(z, e, s[ep0..]);
    z[e] := '\0';
    result := z[..e];
  }

  /** Copies the unchanged text before a match, and its replacement unless the match is skipped. */
  method CopyHit(z: array<char>, e0: nat, s: string, ghost rest: seq<Span>, ep0: nat, first: bool, repl: string, sp: nat, ep: nat,
                 nhits0: nat, ghost whole: string) returns (e: nat, nhits: nat)
    requires rest != [] && rest[0] == Span(sp, ep) && e0 <= z.Length && |whole| < z.Length
    requires InOrder(rest, ep0, |s|) && InOrder(Replaced(rest, ep0, first), ep0, |s|)
    requires z[..e0] + Substituted(s, Replaced(rest, ep0, first), ep0, repl) == whole
    modifies z
    ensures e <= z.Length && InOrder(rest[1..], ep, |s|) && ep0 <= sp <= ep <= |s|
    ensures InOrder(Replaced(rest[1..], ep, false), ep, |s|)
    ensures z[..e] + Substituted(s, Replaced(rest[1..], ep, false), ep, repl) == whole
    ensures nhits + |Replaced(rest[1..], ep, false)| == nhits0 + |Replaced(rest, ep0, first)|
  {
    ReplacedApart(rest[1..], ep, false, |s|);
    hide Expand, Replaced, Substituted;
    ghost var before := z[..e0];
    OneHit(s, rest, ep0, first, repl, before, whole);
    e, nhits := e0, nhits0;
    e := CopyIn(z, e, s[ep0..sp]);
    if first || sp > ep0 || ep > sp {
      nhits := nhits + 1;
      e := CopyReplacement(z, e, repl, s[sp..ep]);
    }
  }

  lemma GrowthOf(hs: seq<Span>, s: string, repl: string)
    requires InOrder(hs, 0, |s|)
    ensures forall h :: h in hs ==> h.so <= h.eo
  {
    InOrderSpans(hs, 0, |s|);
  }

  lemma NothingReplaced(s: string, repl: string)
    ensures Replaced([], 0, true) == [] && InOrder([], 0, |s|) && Substituted(s, [], 0, repl) == s
  {}

  lemma EmptyReplaced(from: nat, first: bool)
    ensures Replaced([], from, first) == []
  {}

  lemma RestCopied(s: string, from: nat, repl: string)
    requires from <= |s|
    ensures InOrder([], from, |s|) && Substituted(s, [], from, repl) == s[from..]
  {}

  /** How the next match continues the text built so far. */
  lemma OneHit(s: string, rest: seq<Span>, from: nat, first: bool, repl: string, before: string, whole: string)
    requires rest != [] && InOrder(rest, from, |s|) && InOrder(Replaced(rest, from, first), from, |s|)
    requires InOrder(Replaced(rest[1..], rest[0].eo, false), rest[0].eo, |s|)
    requires before + Substituted(s, Replaced(rest, from, first), from, repl) == whole
    ensures var h, tail := rest[0], Substituted(s, Replaced(rest[1..], rest[0].eo, false), rest[0].eo, repl);
      if first || h.so > from || h.eo > h.so then
        before + s[from..h.so] + Expand(repl, 0, s[h.so..h.eo]) + tail == whole
      else
        s[from..h.so] == "" && before + tail == whole
    ensures |Replaced(rest, from, first)| == |Replaced(rest[1..], rest[0].eo, false)| + if first || rest[0].so > from || rest[0].eo > rest[0].so then 1 else 0
  {
    hide Expand;
    var h, kept := rest[0], Replaced(rest[1..], rest[0].eo, false);
    var all := Replaced(rest, from, first);
    if first || h.so > from || h.eo > h.so {
      assert all == [h] + kept && all[1..] == kept;
      var a, b, tail := s[from..h.so], Expand(repl, 0, s[h.so..h.eo]), Substituted(s, kept, h.eo, repl);
      assert before + (a + (b + tail)) == before + a + b + tail;
    } else {
      assert all == kept && h.eo == from;
    }
  }
}
