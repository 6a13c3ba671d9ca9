/** Open addressing with linear probing and tombstones, as a sequence of buckets. */
module CcTable {
  import opened Numbers
  import opened Wrappers

  type Key = string

  datatype Bucket<V> = Empty | Tomb | Full(key: Key, val: V)

  const WORD := 0x1_0000_0000_0000_0000

  /** The bucket of probe i, in a table of cap buckets. */
  function Probe(hash: nat, cap: nat, i: nat): (p: nat)
    requires cap > 0
    ensures p < cap
  {
    (hash + i) % cap
  }

  /** The source adds in 64 bits, which makes no difference for a power of two. */
  lemma WrapHarmless(hash: nat, i: nat, k: nat)
    requires k <= 64
    ensures ((hash + i) % WORD) % Pow2(k) == Probe(hash, Pow2(k), i)
  {
    hide Pow2;
    var x, p, c := hash + i, Pow2(k), Pow2(64 - k);
    PowAdd(64 - k, k);
    assert Pow2(64) == WORD by { Pow64(); }
    DivMod(x, WORD);
    Regroup(c, p, x / WORD, x, x % WORD);
    Multiple(p, c * (x / WORD));
    SameMod(p, x, x % WORD);
  }

  lemma Regroup(c: int, p: int, q: int, x: int, r: int)
    requires x == q * (c * p) + r
    ensures x - r == p * (c * q)
  {}

  lemma Pow64()
    ensures Pow2(64) == WORD
  {
    assert Pow2(4) == 16;
    PowAdd(4, 4);
    PowAdd(8, 8);
    PowAdd(16, 16);
    PowAdd(32, 32);
  }

  /** The number of the probe that visits bucket p. */
  function Dist(hash: nat, cap: nat, p: nat): (i: nat)
    requires cap > 0
    ensures i < cap
  {
    (p - hash) % cap
  }

  lemma ProbeDist(hash: nat, cap: nat, p: nat)
    requires p < cap
    ensures Probe(hash, cap, Dist(hash, cap, p)) == p
  {
    var i, q := (p - hash) % cap, (p - hash) / cap;
    DivMod(p - hash, cap);
    Distribute(0, q, cap);
    QuotientIs(hash + i, cap, -q, p);
  }

  lemma DistProbe(hash: nat, cap: nat, i: nat)
    requires i < cap
    ensures Dist(hash, cap, Probe(hash, cap, i)) == i
  {
    var q := (hash + i) / cap;
    DivMod(hash + i, cap);
    Distribute(0, q, cap);
    QuotientIs(Probe(hash, cap, i) - hash, cap, -q, i);
  }

  predicate Matches<V>(x: Bucket<V>, key: Key) { x.Full? && x.key == key }

  // ---------- looking up ----------

  /** The bucket where the search for key from probe i on ends successfully. */
  function FindFrom<V>(b: seq<Bucket<V>>, hash: nat, key: Key, i: nat): (r: Option<nat>)
    ensures r.Some? ==> r.value < |b| && Matches(b[r.value], key)
    decreases |b| - i
  {
    if i >= |b| then None
    else
      var p := Probe(hash, |b|, i);
      if Matches(b[p], key) then Some(p)
      else if b[p].Empty? then None
      else FindFrom(b, hash, key, i + 1)
  }

  function Find<V>(b: seq<Bucket<V>>, hash: nat, key: Key): (r: Option<nat>)
    ensures r.Some? ==> r.value < |b| && Matches(b[r.value], key)
  {
    FindFrom(b, hash, key, 0)
  }

  /** What `hashmap_get` yields. */
  function Lookup<V>(b: seq<Bucket<V>>, hash: nat, key: Key): Option<V> {
    var r := Find(b, hash, key);
    if r.Some? then Some(b[r.value].val) else None
  }

  /** Probes before number i meet neither an empty bucket nor the key. */
  ghost predicate PassedOver<V>(b: seq<Bucket<V>>, hash: nat, key: Key, i: nat)
    requires |b| > 0
  {
    forall j: nat :: j < i ==> !b[Probe(hash, |b|, j)].Empty? && !Matches(b[Probe(hash, |b|, j)], key)
  }

  lemma {:induction false} FindIs<V>(b: seq<Bucket<V>>, hash: nat, key: Key, i: nat, n: nat)
    requires i <= n < |b| && PassedOver(b, hash, key, n)
    requires var x := b[Probe(hash, |b|, n)]; Matches(x, key) || x.Empty?
    ensures FindFrom(b, hash, key, i) == if b[Probe(hash, |b|, n)].Empty? then None else Some(Probe(hash, |b|, n))
    decreases n - i
  {
    hide Probe;
    if i < n { FindIs(b, hash, key, i + 1, n); }
  }

  /** With an empty bucket somewhere, the search ends at the first match or the first empty bucket. */
  lemma {:induction false} FindEnds<V>(b: seq<Bucket<V>>, hash: nat, key: Key, i: nat) returns (n: nat)
    requires (exists p :: 0 <= p < |b| && b[p].Empty?) && i < |b| && PassedOver(b, hash, key, i)
    ensures i <= n < |b| && PassedOver(b, hash, key, n)
    ensures var x := b[Probe(hash, |b|, n)]; Matches(x, key) || x.Empty?
    decreases |b| - i
  {
    hide Probe, Dist;
    var x := b[Probe(hash, |b|, i)];
    if Matches(x, key) || x.Empty? {
      n := i;
    } else {
      if i + 1 == |b| {
        var p :| 0 <= p < |b| && b[p].Empty?;
        ProbeDist(hash, |b|, p);
        assert false;
      }
      n := FindEnds(b, hash, key, i + 1);
    }
  }

  // ---------- the invariant ----------

  /** No empty bucket lies before bucket p on the probe path of hash. */
  ghost predicate Reachable<V>(b: seq<Bucket<V>>, hash: nat, p: nat)
    requires p < |b|
  {
    forall j: nat :: j < Dist(hash, |b|, p) ==> !b[Probe(hash, |b|, j)].Empty?
  }

  /** Some bucket is empty, and every entry is on the probe path of its key. */
  ghost predicate Table<V>(b: seq<Bucket<V>>, h: Key -> nat) {
    && (exists p :: 0 <= p < |b| && b[p].Empty?)
    && (forall p :: 0 <= p < |b| && b[p].Full? ==> Reachable(b, h(b[p].key), p))
  }

  /** The entries for key are not found exactly if there are none. */
  lemma FindNone<V>(b: seq<Bucket<V>>, h: Key -> nat, key: Key)
    requires Table(b, h)
    ensures Find(b, h(key), key) == None <==> forall p :: 0 <= p < |b| ==> !Matches(b[p], key)
  {
    hide Probe, Dist;
    var n := FindEnds(b, h(key), key, 0);
    FindIs(b, h(key), key, 0, n);
    var e := Probe(h(key), |b|, n);
    if b[e].Empty? {
      forall p | 0 <= p < |b| ensures !Matches(b[p], key) {
        if Matches(b[p], key) { EntryBefore(b, h, key, p, n); }
      }
    }
  }

  /** An entry for key is met before the first empty bucket. */
  lemma EntryBefore<V>(b: seq<Bucket<V>>, h: Key -> nat, key: Key, p: nat, n: nat)
    requires Table(b, h) && p < |b| && Matches(b[p], key) && n < |b| && b[Probe(h(key), |b|, n)].Empty?
    ensures Dist(h(key), |b|, p) < n && Probe(h(key), |b|, Dist(h(key), |b|, p)) == p
  {
    ProbeDist(h(key), |b|, p);
    assert Reachable(b, h(key), p);
  }

  /** The first match on the path is the one that is found. */
  lemma FindFirst<V>(b: seq<Bucket<V>>, hash: nat, key: Key, p: nat)
    requires p < |b| && Matches(b[p], key) && PassedOver(b, hash, key, Dist(hash, |b|, p))
    ensures Find(b, hash, key) == Some(p)
  {
    ProbeDist(hash, |b|, p);
    FindIs(b, hash, key, 0, Dist(hash, |b|, p));
  }

  lemma FoundFirst<V>(b: seq<Bucket<V>>, h: Key -> nat, key: Key)
    requires Table(b, h) && Find(b, h(key), key).Some?
    ensures PassedOver(b, h(key), key, Dist(h(key), |b|, Find(b, h(key), key).value))
  {
    hide Probe, Dist;
    var n := FindEnds(b, h(key), key, 0);
    FindIs(b, h(key), key, 0, n);
    DistProbe(h(key), |b|, n);
  }

  // ---------- inserting ----------

  /** The bucket that `hashmap_put` writes: the first that matches, is a tombstone, or is empty. */
  function SlotFrom<V>(b: seq<Bucket<V>>, hash: nat, key: Key, i: nat): (p: nat)
    requires |b| > 0
    ensures p < |b|
    decreases |b| - i
  {
    if i >= |b| then 0
    else
      var p := Probe(hash, |b|, i);
      if Matches(b[p], key) || !b[p].Full? then p else SlotFrom(b, hash, key, i + 1)
  }

  function Put<V>(b: seq<Bucket<V>>, hash: nat, key: Key, v: V): (r: seq<Bucket<V>>)
    requires |b| > 0
    ensures |r| == |b|
  {
    b[SlotFrom(b, hash, key, 0) := Full(key, v)]
  }

  /** A search for an insertion passes over entries for other keys only. */
  lemma {:induction false} SlotEnds<V>(b: seq<Bucket<V>>, hash: nat, key: Key, i: nat)
    requires (exists p :: 0 <= p < |b| && b[p].Empty?) && i < |b|
    requires forall j: nat :: j < i ==> b[Probe(hash, |b|, j)].Full? && !Matches(b[Probe(hash, |b|, j)], key)
    ensures var p := SlotFrom(b, hash, key, i);
      && (Matches(b[p], key) || !b[p].Full?)
      && forall j: nat :: j < Dist(hash, |b|, p) ==> b[Probe(hash, |b|, j)].Full? && !Matches(b[Probe(hash, |b|, j)], key)
    decreases |b| - i
  {
    hide Probe, Dist;
    var p := Probe(hash, |b|, i);
    DistProbe(hash, |b|, i);
    if b[p].Full? && !Matches(b[p], key) {
      if i + 1 == |b| {
        var e :| 0 <= e < |b| && b[e].Empty?;
        ProbeDist(hash, |b|, e);
        assert false;
      }
      SlotEnds(b, hash, key, i + 1);
    }
  }

  /** After an insertion the key has the new value. */
  lemma PutGet<V>(b: seq<Bucket<V>>, h: Key -> nat, key: Key, v: V)
    requires Table(b, h)
    ensures Lookup(Put(b, h(key), key, v), h(key), key) == Some(v)
  {
    hide Probe, Dist;
    SlotEnds(b, h(key), key, 0);
    var p := SlotFrom(b, h(key), key, 0);
    ProbeDist(h(key), |b|, p);
    var b' := Put(b, h(key), key, v);
    forall j: nat | j < Dist(h(key), |b|, p) ensures b'[Probe(h(key), |b|, j)] == b[Probe(h(key), |b|, j)] {
      DistProbe(h(key), |b|, j);
    }
    FindFirst(b', h(key), key, p);
  }

  /** Changing one bucket, to something that is not empty, leaves the entries for another key alone. */
  lemma OtherKept<V>(b: seq<Bucket<V>>, h: Key -> nat, other: Key, p: nat, x: Bucket<V>)
    requires p < |b| && Table(b, h) && Table(b[p := x], h)
    requires !Matches(b[p], other) && !Matches(x, other) && !x.Empty?
    ensures Lookup(b[p := x], h(other), other) == Lookup(b, h(other), other)
  {
    hide Probe, Dist;
    var b' := b[p := x];
    FindNone(b, h, other);
    FindNone(b', h, other);
    var r := Find(b, h(other), other);
    if r.Some? {
      FoundFirst(b, h, other);
      FindFirst(b', h(other), other, r.value);
    } else {
      assert forall q :: 0 <= q < |b| ==> !Matches(b'[q], other);
    }
  }

  lemma ReachableKept<V>(b: seq<Bucket<V>>, hash: nat, q: nat, p: nat, x: Bucket<V>)
    requires p < |b| && q < |b| && Reachable(b, hash, q) && !x.Empty?
    ensures Reachable(b[p := x], hash, q)
  {}

  lemma PutTable<V>(b: seq<Bucket<V>>, h: Key -> nat, key: Key, v: V)
    requires Table(b, h) && exists p :: 0 <= p < |b| && b[p].Empty? && p != SlotFrom(b, h(key), key, 0)
    ensures Table(Put(b, h(key), key, v), h)
  {
    hide Probe, Dist, Reachable;
    SlotEnds(b, h(key), key, 0);
    var s := SlotFrom(b, h(key), key, 0);
    var b' := Put(b, h(key), key, v);
    forall p | 0 <= p < |b| && b'[p].Full? ensures Reachable(b', h(b'[p].key), p) {
      if p == s {
        SlotReachable(b, h(key), key);
        ReachableKept(b, h(key), s, s, Full(key, v));
      } else {
        ReachableKept(b, h(b[p].key), p, s, Full(key, v));
      }
    }
    var e :| 0 <= e < |b| && b[e].Empty? && e != s;
    assert b'[e].Empty?;
  }

  lemma SlotReachable<V>(b: seq<Bucket<V>>, hash: nat, key: Key)
    requires exists p :: 0 <= p < |b| && b[p].Empty?
    ensures Reachable(b, hash, SlotFrom(b, hash, key, 0))
  {
    SlotEnds(b, hash, key, 0);
  }

  lemma PutOthers<V>(b: seq<Bucket<V>>, h: Key -> nat, key: Key, v: V, other: Key)
    requires Table(b, h) && Table(Put(b, h(key), key, v), h) && other != key
    ensures Lookup(Put(b, h(key), key, v), h(other), other) == Lookup(b, h(other), other)
  {
    SlotEnds(b, h(key), key, 0);
    OtherKept(b, h, other, SlotFrom(b, h(key), key, 0), Full(key, v));
  }

  // ---------- one entry per key ----------

  /** Key has at most one entry. */
  ghost predicate Single<V>(b: seq<Bucket<V>>, key: Key) {
    forall p, q :: 0 <= p < |b| && 0 <= q < |b| && Matches(b[p], key) && Matches(b[q], key) ==> p == q
  }

  ghost predicate Unique<V>(b: seq<Bucket<V>>) { forall key: Key :: Single(b, key) }

  /** The key is in the table, but the search for an insertion stops at a tombstone before it. */
  predicate Shadowed<V>(b: seq<Bucket<V>>, hash: nat, key: Key)
    requires |b| > 0
  {
    b[SlotFrom(b, hash, key, 0)].Tomb? && Find(b, hash, key).Some?
  }

  /** An insertion keeps one entry per key exactly if it does not stop at a tombstone before the key's entry. */
  lemma PutUnique<V>(b: seq<Bucket<V>>, h: Key -> nat, key: Key, v: V)
    requires Table(b, h) && Unique(b)
    ensures Unique(Put(b, h(key), key, v)) <==> !Shadowed(b, h(key), key)
  {
    hide Probe, Dist;
    SlotEnds(b, h(key), key, 0);
    var s := SlotFrom(b, h(key), key, 0);
    var b' := Put(b, h(key), key, v);
    FindNone(b, h, key);
    forall other: Key | other != key ensures Single(b', other) {
      assert Single(b, other);
      assert forall p :: 0 <= p < |b| ==> (Matches(b'[p], other) ==> Matches(b[p], other));
    }
    assert Single(b, key);
    if b[s].Empty? { SlotEmpty(b, h, key); }
    if Shadowed(b, h(key), key) {
      var p := Find(b, h(key), key).value;
      assert Matches(b'[p], key) && Matches(b'[s], key) && p != s;
      assert !Single(b', key);
    } else {
      assert forall p :: 0 <= p < |b| && p != s ==> !Matches(b'[p], key);
    }
  }

  /** If the search for an insertion stops at an empty bucket, the key is not in the table. */
  lemma SlotEmpty<V>(b: seq<Bucket<V>>, h: Key -> nat, key: Key)
    requires Table(b, h) && b[SlotFrom(b, h(key), key, 0)].Empty?
    ensures forall p :: 0 <= p < |b| ==> !Matches(b[p], key)
  {
    hide Probe, Dist;
    SlotEnds(b, h(key), key, 0);
    var s := SlotFrom(b, h(key), key, 0);
    var n := Dist(h(key), |b|, s);
    ProbeDist(h(key), |b|, s);
    FindIs(b, h(key), key, 0, n);
    FindNone(b, h, key);
  }

  // ---------- deleting ----------

  function Delete<V>(b: seq<Bucket<V>>, hash: nat, key: Key): (r: seq<Bucket<V>>)
    ensures |r| == |b|
  {
    var r := Find(b, hash, key);
    if r.Some? then b[r.value := Tomb] else b
  }

  lemma DeleteTable<V>(b: seq<Bucket<V>>, h: Key -> nat, key: Key)
    requires Table(b, h)
    ensures Table(Delete(b, h(key), key), h)
  {
    hide Probe, Dist, Reachable, Find;
    var r, b' := Find(b, h(key), key), Delete(b, h(key), key);
    if r.Some? {
      forall p | 0 <= p < |b| && b'[p].Full? ensures Reachable(b', h(b'[p].key), p) {
        ReachableKept(b, h(b[p].key), p, r.value, Tomb);
      }
      var e :| 0 <= e < |b| && b[e].Empty?;
      assert b'[e].Empty?;
    }
  }

  /** A deletion removes the key exactly if it had at most one entry; other keys keep their values. */
  lemma DeleteGet<V>(b: seq<Bucket<V>>, h: Key -> nat, key: Key)
    requires Table(b, h)
    ensures Lookup(Delete(b, h(key), key), h(key), key) == None <==> Single(b, key)
    ensures forall other: Key :: other != key ==> Lookup(Delete(b, h(key), key), h(other), other) == Lookup(b, h(other), other)
  {
    hide Probe, Dist;
    DeleteTable(b, h, key);
    var r, b' := Find(b, h(key), key), Delete(b, h(key), key);
    FindNone(b, h, key);
    FindNone(b', h, key);
    if r.Some? {
      forall other: Key | other != key ensures Lookup(b', h(other), other) == Lookup(b, h(other), other) {
        OtherKept(b, h, other, r.value, Tomb);
      }
      assert forall p :: 0 <= p < |b| ==> (Matches(b'[p], key) <==> Matches(b[p], key) && p != r.value);
    }
  }

  lemma DeleteUnique<V>(b: seq<Bucket<V>>, h: Key -> nat, key: Key)
    requires Table(b, h) && Unique(b)
    ensures Unique(Delete(b, h(key), key))
  {
    hide Find;
    var b' := Delete(b, h(key), key);
    forall k: Key ensures Single(b', k) {
      assert Single(b, k);
      assert forall p :: 0 <= p < |b| ==> (Matches(b'[p], k) ==> Matches(b[p], k));
    }
  }

  /** Putting a shadowed key and then deleting it brings its old value back. */
  lemma OldValueReturns<V>(b: seq<Bucket<V>>, h: Key -> nat, key: Key, v: V)
    requires Table(b, h) && Table(Put(b, h(key), key, v), h) && Unique(b) && Shadowed(b, h(key), key)
    ensures Lookup(Delete(Put(b, h(key), key, v), h(key), key), h(key), key) == Lookup(b, h(key), key) != None
  {
    hide Probe, Dist;
    SlotEnds(b, h(key), key, 0);
    var s, p := SlotFrom(b, h(key), key, 0), Find(b, h(key), key).value;
    var b1 := Put(b, h(key), key, v);
    PutFound(b, h, key, v);
    var b2 := Delete(b1, h(key), key);
    assert b2 == b[s := Tomb] == b;
  }

  lemma PutFound<V>(b: seq<Bucket<V>>, h: Key -> nat, key: Key, v: V)
    requires Table(b, h)
    ensures Find(Put(b, h(key), key, v), h(key), key) == Some(SlotFrom(b, h(key), key, 0))
  {
    hide Probe, Dist;
    SlotEnds(b, h(key), key, 0);
    var p := SlotFrom(b, h(key), key, 0);
    var b' := Put(b, h(key), key, v);
    ProbeDist(h(key), |b|, p);
    forall j: nat | j < Dist(h(key), |b|, p) ensures b'[Probe(h(key), |b|, j)] == b[Probe(h(key), |b|, j)] {
      DistProbe(h(key), |b|, j);
    }
    FindFirst(b', h(key), key, p);
  }
}
