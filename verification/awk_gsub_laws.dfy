/** What replacements and substitutions come to, told without the functions that the two passes follow. */
module AwkGsubLaws {
  import opened AwkGsub
  import opened Wrappers

  // ---------- the replacement text ----------

  /** What a replacement produces depends on the rest of it only. */
  lemma {:induction false} ExpandShift(pre: string, repl: string, i: nat, m: string)
    requires i <= |repl|
    ensures Expand(pre + repl, |pre| + i, m) == Expand(repl, i, m)
    decreases |repl| - i
  {
    var all := pre + repl;
    hide Expand;
    if i == |repl| {
      ExpandEnd(all, m);
      ExpandEnd(repl, m);
    } else {
      assert all[|pre| + i] == repl[i];
      assert Piece(all, |pre| + i, m) == Piece(repl, i, m) by {
        assert At(all, |pre| + i + 1) == At(repl, i + 1) && At(all, |pre| + i + 2) == At(repl, i + 2) && At(all, |pre| + i + 3) == At(repl, i + 3);
      }
      ExpandUnfold(all, |pre| + i, m);
      ExpandUnfold(repl, i, m);
      hide Piece;
      ExpandShift(pre, repl, i + Piece(repl, i, m).1, m);
    }
  }

  /** Text without ampersands and backslashes stands for itself, wherever it is in a replacement. */
  lemma {:induction false} PlainText(t: string, rest: string, m: string)
    requires '&' !in t && '\\' !in t
    ensures Expand(t + rest, 0, m) == t + Expand(rest, 0, m)
  {
    if t == [] {
      assert t + rest == rest;
    } else {
      var all := t + rest;
      hide Expand;
      ExpandUnfold(all, 0, m);
      assert t[0] in t && Piece(all, 0, m) == ([t[0]], 1);
      hide Piece;
      assert all == [t[0]] + (t[1..] + rest);
      ExpandShift([t[0]], t[1..] + rest, 0, m);
      PlainText(t[1..], rest, m);
      assert [t[0]] + (t[1..] + Expand(rest, 0, m)) == t + Expand(rest, 0, m);
    }
  }

  /** An ampersand stands for the match. */
  lemma Ampersand(rest: string, m: string)
    ensures Expand("&" + rest, 0, m) == m + Expand(rest, 0, m)
  {
    ExpandUnfold("&" + rest, 0, m);
    assert Piece("&" + rest, 0, m) == (m, 1);
    ExpandShift("&", rest, 0, m);
  }

  lemma SlashPiece(n: nat, rest: string, m: string)
    requires n > 0 && (rest == [] || (rest[0] != '&' && rest[0] != '\\'))
    ensures var k := if n == 1 then 1 else 2; Piece(Slashes(n) + rest, 0, m) == (Slashes(k), k)
  {
    var all := Slashes(n) + rest;
    assert all[0] == '\\' && (n > 1 ==> all[1] == '\\') && (n > 2 ==> all[2] == '\\') && (n > 3 ==> all[3] == '\\');
    assert rest != [] ==> all[n] == rest[0];
    assert Slashes(1) == "\\" && Slashes(2) == "\\\\";
  }

  lemma SlashesCat(k: nat, n: nat, rest: string)
    requires k <= n
    ensures Slashes(n) + rest == Slashes(k) + (Slashes(n - k) + rest)
  {}

  /** Backslashes that no ampersand follows stand for themselves. */
  lemma {:induction false} PlainSlashes(n: nat, rest: string, m: string)
    requires rest == [] || (rest[0] != '&' && rest[0] != '\\')
    ensures Expand(Slashes(n) + rest, 0, m) == Slashes(n) + Expand(rest, 0, m)
  {
    hide Expand, Piece;
    if n == 0 {
      assert Slashes(n) + rest == rest;
    } else {
      var k := if n == 1 then 1 else 2;
      ExpandUnfold(Slashes(n) + rest, 0, m);
      SlashPiece(n, rest, m);
      SlashesCat(k, n, rest);
      ExpandShift(Slashes(k), Slashes(n - k) + rest, 0, m);
      PlainSlashes(n - k, rest, m);
      SlashesCat(k, n, Expand(rest, 0, m));
    }
  }

  // ---------- substitutions with known matchers ----------

  /** What gsub makes of s from where the match before has ended, when it looks for matches from position p on. */
  ghost function Leaves(rx: Matcher, s: string, p: nat, notbol: bool, from: nat, repl: string): string
    requires Sane(rx) && from <= p <= |s|
  {
    HitsFit(rx, s, p, notbol, false, from, !notbol);
    Substituted(s, Replaced(Hits(rx, s, p, notbol, false), from, !notbol), from, repl)
  }

  /** The string that a call of gsub leaves. */
  ghost predicate Results(rx: Matcher, s: string, repl: string, result: string)
    requires Sane(rx)
  {
    var hs := Replaced(Hits(rx, s, 0, false, false), 0, true);
    InOrder(hs, 0, |s|) && Substituted(s, hs, 0, repl) == result
  }

  lemma ResultsLeaves(rx: Matcher, s: string, repl: string)
    requires Sane(rx)
    ensures Results(rx, s, repl, Leaves(rx, s, 0, false, 0, repl))
  {
    hide Hits, Substituted, Expand, Replaced, InOrder;
    HitsFit(rx, s, 0, false, false, 0, true);
  }

  lemma LeavesNone(rx: Matcher, s: string, p: nat, notbol: bool, from: nat, repl: string)
    requires Sane(rx) && from <= p <= |s| && rx(s[p..], notbol).None?
    ensures Leaves(rx, s, p, notbol, from, repl) == s[from..]
  {
    HitsNone(rx, s, p, notbol, false);
    EmptyReplaced(from, !notbol);
    RestCopied(s, from, repl);
    hide Hits, Substituted, Expand, Replaced;
  }

  /** One match more, where the texts are given. */
  lemma LeavesNext(rx: Matcher, s: string, p: nat, notbol: bool, from: nat, repl: string, so: nat, eo: nat, rest: string)
    requires Sane(rx) && from <= p <= so <= eo <= |s| && rx(s[p..], notbol) == Some(Span(so - p, eo - p))
    requires if p == |s| then rest == s[eo..]
             else p + Advance(Span(so - p, eo - p)) <= |s| && rest == Leaves(rx, s, p + Advance(Span(so - p, eo - p)), true, eo, repl)
    ensures Leaves(rx, s, p, notbol, from, repl)
         == if !notbol || so > from || eo > so then s[from..so] + (Expand(repl, 0, s[so..eo]) + rest) else rest
  {
    hide *;
    LeavesHit(rx, s, p, notbol, from, repl);
  }

  /** One match more. */
  lemma LeavesHit(rx: Matcher, s: string, p: nat, notbol: bool, from: nat, repl: string)
    requires Sane(rx) && from <= p <= |s| && rx(s[p..], notbol).Some?
    ensures var r := rx(s[p..], notbol).value; var so, eo := p + r.so, p + r.eo;
      && from <= so <= eo <= |s|
      && var rest := if p == |s| then s[eo..] else Leaves(rx, s, p + Advance(r), true, eo, repl);
        Leaves(rx, s, p, notbol, from, repl)
        == if !notbol || so > from || eo > so then s[from..so] + (Expand(repl, 0, s[so..eo]) + rest) else rest
  {
    hide *;
    var r, hs := rx(s[p..], notbol).value, Hits(rx, s, p, notbol, false);
    HitsCons(rx, s, p, notbol, false);
    HitsFit(rx, s, p, notbol, false, from, !notbol);
    LeavesIs(rx, s, p, notbol, from, repl);
    ReplacedCons(hs, from, !notbol);
    var tail := Replaced(hs[1..], p + r.eo, false);
    if p == |s| {
      EmptyReplaced(p + r.eo, false);
      RestCopied(s, p + r.eo, repl);
    } else {
      AdvanceFits(p, |s|, r);
      LeavesIs(rx, s, p + Advance(r), true, p + r.eo, repl);
    }
    if !notbol || p + r.so > from || r.eo > r.so {
      OneMore(s, hs[0], tail, from, repl);
    }
  }

  lemma AdvanceFits(p: nat, n: nat, r: Span)
    requires p < n && r.so <= r.eo <= n - p
    ensures p + r.eo <= p + Advance(r) <= n
  {}

  lemma LeavesIs(rx: Matcher, s: string, p: nat, notbol: bool, from: nat, repl: string)
    requires Sane(rx) && from <= p <= |s|
    ensures var hs := Replaced(Hits(rx, s, p, notbol, false), from, !notbol);
      InOrder(hs, from, |s|) && Leaves(rx, s, p, notbol, from, repl) == Substituted(s, hs, from, repl)
  {
    hide Hits, Replaced, Substituted, InOrder, Expand;
    HitsFit(rx, s, p, notbol, false, from, !notbol);
  }

  lemma OneMore(s: string, h: Span, tail: seq<Span>, from: nat, repl: string)
    requires InOrder([h] + tail, from, |s|)
    ensures InOrder(tail, h.eo, |s|) && from <= h.so <= h.eo <= |s|
    ensures Substituted(s, [h] + tail, from, repl)
         == s[from..h.so] + (Expand(repl, 0, s[h.so..h.eo]) + Substituted(s, tail, h.eo, repl))
  {
    hide Expand;
    assert ([h] + tail)[1..] == tail;
  }

  lemma HitsFit(rx: Matcher, s: string, p: nat, notbol: bool, isSub: bool, from: nat, first: bool)
    requires Sane(rx) && from <= p <= |s|
    ensures InOrder(Replaced(Hits(rx, s, p, notbol, isSub), from, first), from, |s|)
  {
    HitsInOrder(rx, s, p, notbol, isSub, from);
    ReplacedApart(Hits(rx, s, p, notbol, isSub), from, first, |s|);
  }

  /** Where c is first found. */
  function Find(t: string, c: char): (r: Option<Span>)
    ensures r.Some? ==> r.value.so < r.value.eo == r.value.so + 1 <= |t| && t[r.value.so] == c && c !in t[..r.value.so]
    ensures r.None? <==> c !in t
  {
    if t == [] then None
    else if t[0] == c then Some(Span(0, 1))
    else
      var r := Find(t[1..], c);
      assert t[1..] <= t[1..] && (r.Some? ==> t[..r.value.so + 1] == [t[0]] + t[1..][..r.value.so]);
      if r.None? then None else Some(Span(r.value.so + 1, r.value.eo + 1))
  }

  lemma {:induction false} FindAt(before: string, c: char, after: string)
    requires c !in before
    ensures Find(before + [c] + after, c) == Some(Span(|before|, |before| + 1))
  {
    if before != [] {
      assert before[0] in before;
      assert (before + [c] + after)[1..] == before[1..] + [c] + after;
      FindAt(before[1..], c, after);
    }
  }

  /** Matches the regular expression that is the letter c. */
  function Letter(c: char): Matcher { (t: string, notbol: bool) => Find(t, c) }

  /** s with every c replaced by t. */
  function EachReplaced(s: string, c: char, t: string): string {
    if s == [] then [] else (if s[0] == c then t else [s[0]]) + EachReplaced(s[1..], c, t)
  }

  lemma {:induction false} EachReplacedAt(s: string, c: char, t: string, k: nat)
    requires k <= |s| && c !in s[..k]
    ensures EachReplaced(s, c, t) == s[..k] + EachReplaced(s[k..], c, t)
  {
    if k == 0 {
      assert s[0..] == s && s[..0] == [];
    } else {
      assert s[..k][0] == s[0];
      assert s[1..][..k - 1] == s[..k][1..] && s[1..][k - 1..] == s[k..];
      EachReplacedAt(s[1..], c, t, k - 1);
      assert [s[0]] + (s[1..][..k - 1] + EachReplaced(s[k..], c, t)) == s[..k] + EachReplaced(s[k..], c, t);
    }
  }

  lemma {:induction false} LetterFrom(c: char, s: string, repl: string, p: nat, notbol: bool)
    requires p <= |s|
    ensures Leaves(Letter(c), s, p, notbol, p, repl) == EachReplaced(s[p..], c, Expand(repl, 0, [c]))
    decreases |s| - p
  {
    hide *;
    var rx, t, rest := Letter(c), Expand(repl, 0, [c]), s[p..];
    LetterIs(c, rest, notbol);
    if Find(rest, c).None? {
      EachReplacedAt(rest, c, t, |rest|);
      EachReplacedEnd(c, t);
      LeavesNone(rx, s, p, notbol, p, repl);
      assert rest[|rest|..] == [] && rest[..|rest|] == rest;
    } else {
      var k := Find(rest, c).value.so;
      var q := p + k + 1;
      LeavesHit(rx, s, p, notbol, p, repl);
      LetterFrom(c, s, repl, q, true);
      EachReplacedAt(rest, c, t, k);
      EachReplacedHead(rest[k..], c, t);
      Slices(s, p, k);
    }
  }

  lemma LetterIs(c: char, t: string, notbol: bool)
    ensures Sane(Letter(c)) && Letter(c)(t, notbol) == Find(t, c)
    ensures var r := Find(t, c); r.Some? ==> r.value.eo == r.value.so + 1 && Advance(r.value) == r.value.eo
  {}

  lemma Slices(s: string, p: nat, k: nat)
    requires p + k < |s|
    ensures var rest := s[p..];
      rest[k..][0] == s[p + k] && rest[k] == s[p + k] && [s[p + k]] == s[p + k..p + k + 1] && rest[k..][1..] == s[p + k + 1..] && rest[..k] == s[p..p + k]
  {}

  lemma EachReplacedHead(s: string, c: char, t: string)
    requires s != [] && s[0] == c
    ensures EachReplaced(s, c, t) == t + EachReplaced(s[1..], c, t)
  {}

  lemma EachReplacedEnd(c: char, t: string)
    ensures EachReplaced("", c, t) == ""
  {}

  /** Substituting for a letter everywhere replaces every occurrence of it, and nothing else. */
  lemma LetterEverywhere(c: char, s: string, repl: string)
    ensures Sane(Letter(c)) && Results(Letter(c), s, repl, EachReplaced(s, c, Expand(repl, 0, [c])))
  {
    LetterFrom(c, s, repl, 0, false);
    ResultsLeaves(Letter(c), s, repl);
    assert s[0..] == s;
  }

  /** ... by text that has neither ampersands nor backslashes: the text itself. */
  lemma LetterByText(c: char, s: string, t: string)
    requires '&' !in t && '\\' !in t
    ensures Results(Letter(c), s, t, EachReplaced(s, c, t))
  {
    hide *;
    PlainText(t, "", [c]);
    ExpandEnd("", [c]);
    assert t + "" == t;
    LetterEverywhere(c, s, t);
  }

  /** sub replaces the first occurrence only. */
  lemma LetterOnce(c: char, before: string, after: string, repl: string)
    requires c !in before
    ensures var s := before + [c] + after; var hs := Replaced(Hits(Letter(c), s, 0, false, true), 0, true);
      InOrder(hs, 0, |s|) && Substituted(s, hs, 0, repl) == before + Expand(repl, 0, [c]) + after
  {
    var s, rx, k := before + [c] + after, Letter(c), |before|;
    assert s[0..] == s && s[k] == c && s[..k] == before && s[k..k + 1] == [c] && s[k + 1..] == after;
    FindAt(before, c, after);
    HitsCons(rx, s, 0, false, true);
    HitsFit(rx, s, 0, false, true, 0, true);
    var hs := Hits(rx, s, 0, false, true);
    assert hs == [Span(k, k + 1)] + hs[1..];
    ReplacedCons(hs, 0, true);
    EmptyReplaced(k + 1, false);
    hide Hits, Replaced, Expand;
    OneMore(s, Span(k, k + 1), [], 0, repl);
    RestCopied(s, k + 1, repl);
  }

  /** Matches the end of the string. */
  function AtEnd(): Matcher { (t: string, notbol: bool) => Some(Span(|t|, |t|)) }

  /** The end is replaced once, although it is found again where the first match has ended. */
  lemma EndOnce(s: string, repl: string)
    ensures Sane(AtEnd()) && Results(AtEnd(), s, repl, s + Expand(repl, 0, ""))
  {
    var rx, n := AtEnd(), |s|;
    ResultsLeaves(rx, s, repl);
    LeavesHit(rx, s, 0, false, 0, repl);
    if n > 0 { LeavesHit(rx, s, n, true, n, repl); }
    hide Leaves, Expand;
    assert s[n..n] == "" && s[0..n] == s && s[n..] == "";
  }

  /** Matches the beginning of the subject, which is not where a later search begins. */
  function AtStart(): Matcher { (t: string, notbol: bool) => if notbol then None else Some(Span(0, 0)) }

  lemma StartOnce(s: string, repl: string)
    ensures Sane(AtStart()) && Results(AtStart(), s, repl, Expand(repl, 0, "") + s)
  {
    var rx := AtStart();
    ResultsLeaves(rx, s, repl);
    LeavesHit(rx, s, 0, false, 0, repl);
    if s != [] { LeavesNone(rx, s, 1, true, 0, repl); }
    hide Leaves, Expand;
    assert s[0..0] == "" && s[0..] == s;
  }

  /** The length of the run of c at the beginning of t. */
  function RunOf(t: string, c: char): (n: nat)
    ensures n <= |t| && (forall i :: 0 <= i < n ==> t[i] == c) && (n < |t| ==> t[n] != c)
  {
    if t == [] || t[0] != c then 0 else 1 + RunOf(t[1..], c)
  }

  /** Matches any number of letters c. */
  function Run(c: char): Matcher { (t: string, notbol: bool) => Some(Span(0, RunOf(t, c))) }

  /** s with every run of c replaced, and the empty string wherever no run is next to it. */
  function RunsReplaced(s: string, c: char, repl: string, afterRun: bool): string
    decreases |s|, !afterRun
  {
    var k := RunOf(s, c);
    if k > 0 then Expand(repl, 0, s[..k]) + RunsReplaced(s[k..], c, repl, true)
    else (if afterRun then "" else Expand(repl, 0, "")) + (if s == [] then "" else [s[0]] + RunsReplaced(s[1..], c, repl, false))
  }

  /** From position p on; the match before ended at from, which is p after a run, and p - 1 otherwise. */
  lemma {:induction false} RunFrom(c: char, s: string, repl: string, p: nat, from: nat, first: bool)
    requires p <= |s| && (if first then p == from == 0 else from == p || from == p - 1)
    requires !first && from == p ==> p == |s| || s[p] != c
    ensures Leaves(Run(c), s, p, !first, from, repl) == s[from..p] + RunsReplaced(s[p..], c, repl, !first && from == p)
    decreases |s| - p
  {
    hide *;
    var rx, k := Run(c), RunOf(s[p..], c);
    var e := p + k;
    RunIs(c, s, p, !first);
    RunsHead(s, c, repl, p, !first && from == p);
    Ends(s, from, p, e);
    if p == |s| {
      LeavesNext(rx, s, p, !first, from, repl, p, e, "");
    } else if k > 0 {
      RunFrom(c, s, repl, e, e, false);
      RunMore(s, e, Leaves(rx, s, e, true, e, repl), RunsReplaced(s[e..], c, repl, true));
      LeavesNext(rx, s, p, !first, from, repl, p, e, RunsReplaced(s[e..], c, repl, true));
    } else {
      RunFrom(c, s, repl, p + 1, p, false);
      LeavesNext(rx, s, p, !first, from, repl, p, p, [s[p]] + RunsReplaced(s[p + 1..], c, repl, false));
    }
  }

  lemma RunMore(s: string, e: nat, a: string, b: string)
    requires e <= |s| && a == s[e..e] + b
    ensures a == b
  {}

  lemma Ends(s: string, from: nat, p: nat, e: nat)
    requires from <= p <= e <= |s|
    ensures s[p..p] == "" && s[|s|..] == "" && (p < |s| ==> s[p..p + 1] == [s[p]]) && (from == p ==> s[from..p] == "")
  {}

  lemma RunIs(c: char, s: string, p: nat, notbol: bool)
    requires p <= |s|
    ensures var k := RunOf(s[p..], c);
      && Sane(Run(c)) && Run(c)(s[p..], notbol) == Some(Span(0, k)) && Advance(Span(0, k)) == (if k > 0 then k else 1)
      && (k == 0 && p < |s| ==> s[p] != c) && (p + k < |s| ==> s[p + k] != c) && p + k <= |s|
  {}

  lemma RunsHead(s: string, c: char, repl: string, p: nat, afterRun: bool)
    requires p <= |s|
    ensures var k := RunOf(s[p..], c);
      RunsReplaced(s[p..], c, repl, afterRun)
      == if k > 0 then Expand(repl, 0, s[p..p + k]) + RunsReplaced(s[p + k..], c, repl, true)
         else (if afterRun then "" else Expand(repl, 0, "")) + (if p == |s| then "" else [s[p]] + RunsReplaced(s[p + 1..], c, repl, false))
  {
    hide Expand;
    var t, k := s[p..], RunOf(s[p..], c);
    assert t[..k] == s[p..p + k] && t[k..] == s[p + k..];
    if p < |s| { assert t[1..] == s[p + 1..]; }
  }

  /** Substituting for any number of letters c replaces each run of them, and the empty string between other letters but not next to a run. */
  lemma RunsEverywhere(c: char, s: string, repl: string)
    ensures Sane(Run(c)) && Results(Run(c), s, repl, RunsReplaced(s, c, repl, false))
  {
    RunFrom(c, s, repl, 0, 0, true);
    ResultsLeaves(Run(c), s, repl);
    assert s[0..] == s && s[0..0] == "";
  }
}
