/** chibicc's hash map: growth, and what its operations do to the values of keys. */
module CcHashMap {
  import opened CcTable
  import opened Numbers
  import opened Wrappers

  const INIT_SIZE := 16
  const HIGH_WATERMARK := 70
  const LOW_WATERMARK := 50

  // ---------- counting ----------

  function NonEmpty<V>(b: seq<Bucket<V>>): nat {
    if b == [] then 0 else NonEmpty(b[..|b| - 1]) + if b[|b| - 1].Empty? then 0 else 1
  }

  function FullCount<V>(b: seq<Bucket<V>>): nat {
    if b == [] then 0 else FullCount(b[..|b| - 1]) + if b[|b| - 1].Full? then 1 else 0
  }

  lemma {:induction false} NonEmptyUpdate<V>(b: seq<Bucket<V>>, p: nat, x: Bucket<V>)
    requires p < |b|
    ensures NonEmpty(b[p := x]) + (if b[p].Empty? then 0 else 1) == NonEmpty(b) + (if x.Empty? then 0 else 1)
  {
    var n := |b| - 1;
    if p < n {
      NonEmptyUpdate(b[..n], p, x);
      assert b[p := x][..n] == b[..n][p := x];
    } else {
      assert b[p := x][..n] == b[..n];
    }
  }

  lemma {:induction false} EmptyExists<V>(b: seq<Bucket<V>>) returns (p: nat)
    requires NonEmpty(b) < |b|
    ensures p < |b| && b[p].Empty?
  {
    var n := |b| - 1;
    if b[n].Empty? { p := n; } else { p := EmptyExists(b[..n]); }
  }

  lemma {:induction false} AllEmpty<V>(b: seq<Bucket<V>>)
    requires forall p :: 0 <= p < |b| ==> b[p].Empty?
    ensures NonEmpty(b) == 0
  {
    if b != [] { AllEmpty(b[..|b| - 1]); }
  }

  lemma {:induction false} FullPrefix<V>(b: seq<Bucket<V>>, i: nat)
    requires i <= |b|
    ensures FullCount(b[..i]) <= FullCount(b)
    decreases |b|
  {
    if i < |b| {
      FullPrefix(b[..|b| - 1], i);
      assert b[..|b| - 1][..i] == b[..i];
    } else {
      assert b[..i] == b;
    }
  }

  // ---------- moving entries to a larger table ----------

  ghost predicate NoTombs<V>(b: seq<Bucket<V>>) { forall p :: 0 <= p < |b| ==> !b[p].Tomb? }

  /** The entries of the first i old buckets have been put into the new table nb, nu of them under distinct keys. */
  ghost predicate Moved<V>(old_: seq<Bucket<V>>, nb: seq<Bucket<V>>, nu: nat, i: nat, h: Key -> nat) {
    && i <= |old_| && Table(nb, h) && NoTombs(nb) && Unique(nb) && nu == NonEmpty(nb) <= FullCount(old_[..i])
    && (nu == FullCount(old_[..i]) <==> Unique(old_[..i]))
    && (forall key: Key :: Lookup(nb, h(key), key).Some? <==> exists p :: 0 <= p < i && Matches(old_[p], key))
    && (Unique(old_[..i]) ==> forall key: Key, p :: 0 <= p < i && Matches(old_[p], key) ==> Lookup(nb, h(key), key) == Some(old_[p].val))
  }

  lemma MovedStart<V>(old_: seq<Bucket<V>>, nb: seq<Bucket<V>>, h: Key -> nat)
    requires |nb| > 0 && forall p :: 0 <= p < |nb| ==> nb[p].Empty?
    ensures Moved(old_, nb, 0, 0, h)
  {
    hide Lookup;
    AllEmpty(nb);
    assert nb[0].Empty?;
    forall key: Key ensures Lookup(nb, h(key), key) == None { NoEntry(nb, h, key); }
  }

  lemma NoEntry<V>(b: seq<Bucket<V>>, h: Key -> nat, key: Key)
    requires Table(b, h) && forall p :: 0 <= p < |b| ==> !Matches(b[p], key)
    ensures Lookup(b, h(key), key) == None
  {
    FindNone(b, h, key);
  }

  lemma MovedSkip<V>(old_: seq<Bucket<V>>, nb: seq<Bucket<V>>, nu: nat, i: nat, h: Key -> nat)
    requires Moved(old_, nb, nu, i, h) && i < |old_| && !old_[i].Full?
    ensures Moved(old_, nb, nu, i + 1, h)
  {
    hide Lookup, Table, Unique, NoTombs;
    assert old_[..i + 1][..i] == old_[..i];
    UniqueSkip(old_, i);
  }

  lemma UniqueSkip<V>(b: seq<Bucket<V>>, i: nat)
    requires i < |b| && !b[i].Full?
    ensures Unique(b[..i + 1]) <==> Unique(b[..i])
  {
    var c, d := b[..i + 1], b[..i];
    forall key: Key ensures Single(c, key) <==> Single(d, key) {
      assert forall p :: 0 <= p <= i && Matches(c[p], key) ==> p < i && c[p] == d[p];
      assert forall p :: 0 <= p < i ==> c[p] == d[p];
    }
    if Unique(c) { forall key: Key ensures Single(d, key) { assert Single(c, key); } }
    if Unique(d) { forall key: Key ensures Single(c, key) { assert Single(d, key); } }
  }

  /** Adding an entry keeps keys unique exactly if its key is new. */
  lemma UniqueSnoc<V>(b: seq<Bucket<V>>, i: nat)
    requires i < |b| && b[i].Full?
    ensures Unique(b[..i + 1]) <==> Unique(b[..i]) && forall p :: 0 <= p < i ==> !Matches(b[p], b[i].key)
  {
    var c, d, k := b[..i + 1], b[..i], b[i].key;
    if Unique(c) {
      forall key: Key ensures Single(d, key) { assert Single(c, key); }
      assert Single(c, k);
      assert Matches(c[i], k);
      forall p | 0 <= p < i ensures !Matches(b[p], k) { assert b[p] == c[p]; }
    }
    if Unique(d) && forall p :: 0 <= p < i ==> !Matches(b[p], k) {
      forall key: Key ensures Single(c, key) {
        assert Single(d, key);
        assert forall p :: 0 <= p < i ==> c[p] == d[p];
      }
    }
  }

  lemma FullSnoc<V>(b: seq<Bucket<V>>, i: nat)
    requires i < |b| && b[i].Full?
    ensures FullCount(b[..i + 1]) == FullCount(b[..i]) + 1
  {
    assert b[..i + 1][..i] == b[..i];
  }

  lemma MovedPut<V>(old_: seq<Bucket<V>>, nb: seq<Bucket<V>>, nu: nat, i: nat, h: Key -> nat)
    requires Moved(old_, nb, nu, i, h) && i < |old_| && old_[i].Full? && nu + 1 < |nb|
    ensures var x := old_[i]; var s := SlotFrom(nb, h(x.key), x.key, 0);
      Moved(old_, Put(nb, h(x.key), x.key, x.val), nu + if nb[s].Empty? then 1 else 0, i + 1, h)
  {
    hide Lookup, Table, Unique, Put, SlotFrom, NoTombs, FullCount, NonEmpty;
    FullSnoc(old_, i);
    var x := old_[i];
    var nb', isNew := Put(nb, h(x.key), x.key, x.val), Lookup(nb, h(x.key), x.key).None?;
    PutMoves(nb, nu, h, x.key, x.val);
    UniqueSnoc(old_, i);
    assert isNew <==> forall p :: 0 <= p < i ==> !Matches(old_[p], x.key);
    forall key: Key ensures Lookup(nb', h(key), key).Some? <==> exists p :: 0 <= p < i + 1 && Matches(old_[p], key) {
      if key == x.key {
        assert Matches(old_[i], key);
      } else {
        PutOthers(nb, h, x.key, x.val, key);
        assert !Matches(old_[i], key);
      }
    }
    if Unique(old_[..i + 1]) {
      forall key: Key, p | 0 <= p < i + 1 && Matches(old_[p], key) ensures Lookup(nb', h(key), key) == Some(old_[p].val) {
        if p < i { PutOthers(nb, h, x.key, x.val, key); }
      }
    }
  }

  /** One insertion into a table without tombstones. */
  lemma PutMoves<V>(nb: seq<Bucket<V>>, nu: nat, h: Key -> nat, key: Key, v: V)
    requires Table(nb, h) && NoTombs(nb) && Unique(nb) && nu == NonEmpty(nb) && nu + 1 < |nb|
    ensures var nb', s := Put(nb, h(key), key, v), SlotFrom(nb, h(key), key, 0);
      && Table(nb', h) && NoTombs(nb') && Unique(nb') && NonEmpty(nb') == nu + (if nb[s].Empty? then 1 else 0)
      && Lookup(nb', h(key), key) == Some(v) && (nb[s].Empty? <==> Lookup(nb, h(key), key).None?)
  {
    hide Table, Unique, SlotFrom, Find;
    var s := SlotFrom(nb, h(key), key, 0);
    PutKeepsTable(nb, nu, h, key, v);
    PutGet(nb, h, key, v);
    PutUnique(nb, h, key, v);
    SlotOrNone(nb, h, key);
  }

  lemma SlotOrNone<V>(nb: seq<Bucket<V>>, h: Key -> nat, key: Key)
    requires Table(nb, h) && NoTombs(nb)
    ensures var s := SlotFrom(nb, h(key), key, 0); nb[s].Empty? <==> Lookup(nb, h(key), key).None?
  {
    SlotEnds(nb, h(key), key, 0);
    FindNone(nb, h, key);
    if nb[SlotFrom(nb, h(key), key, 0)].Empty? { SlotEmpty(nb, h, key); }
  }

  /** An insertion below capacity keeps the invariant and counts its bucket. */
  lemma PutKeepsTable<V>(b: seq<Bucket<V>>, used: nat, h: Key -> nat, key: Key, v: V)
    requires Table(b, h) && used == NonEmpty(b) && used + 1 < |b|
    ensures var b' := Put(b, h(key), key, v);
      Table(b', h) && NonEmpty(b') == used + if b[SlotFrom(b, h(key), key, 0)].Empty? then 1 else 0
  {
    hide Table, SlotFrom;
    var s := SlotFrom(b, h(key), key, 0);
    NonEmptyUpdate(b, s, Full(key, v));
    var e := EmptyExists(Put(b, h(key), key, v));
    assert b[e].Empty? && e != s;
    PutTable(b, h, key, v);
  }

  lemma MovedAll<V>(old_: seq<Bucket<V>>, nb: seq<Bucket<V>>, nu: nat, h: Key -> nat)
    requires Moved(old_, nb, nu, |old_|, h) && Table(old_, h) && Unique(old_)
    ensures forall key: Key :: Lookup(nb, h(key), key) == Lookup(old_, h(key), key)
  {
    hide Table, Unique;
    assert old_[..|old_|] == old_;
    forall key: Key ensures Lookup(nb, h(key), key) == Lookup(old_, h(key), key) {
      FindNone(old_, h, key);
    }
  }

  // ---------- the map ----------

  class HashMap<V(0)> {
    const h: Key -> nat
    var buckets: array<Bucket<V>>
    var used: int

    /** No buckets yet, or a power of two of them, used counting all that are not empty, tombstones included. */
    ghost predicate Valid()
      reads this, buckets
    {
      if buckets.Length == 0 then used == 0
      else
        && buckets.Length >= INIT_SIZE && (exists k: nat :: Pow2(k) == buckets.Length)
        && Table(buckets[..], h) && used == NonEmpty(buckets[..]) && used * 100 < HIGH_WATERMARK * buckets.Length + 100
    }

    /** What a lookup of key yields. */
    function Value(key: Key): Option<V>
      reads this, buckets
    {
      Lookup(buckets[..], h(key), key)
    }

    ghost predicate Sound()
      reads this, buckets
    {
      Unique(buckets[..])
    }

    /** Nothing was deleted since the last rehash. */
    ghost predicate Clean()
      reads this, buckets
    {
      NoTombs(buckets[..])
    }

    predicate MustRehash()
      reads this
    {
      buckets.Length > 0 && (used * 100) / buckets.Length >= HIGH_WATERMARK
    }

    /** An insertion of key would stop at a tombstone before the key's entry. */
    predicate Shadows(key: Key)
      reads this, buckets
    {
      buckets.Length > 0 && Shadowed(buckets[..], h(key), key)
    }

    constructor (h: Key -> nat)
      ensures Valid() && Sound() && fresh(buckets) && this.h == h && forall key: Key :: Value(key) == None
    {
      this.h := h;
      buckets := new Bucket<V>[0];
      used := 0;
    }

    /** Looks key up; the end of the loop is never reached. */
    method Get(key: Key) returns (r: Option<V>)
      requires Valid()
      ensures r == Value(key)
    {
      hide Table, Probe, Find;
      if buckets.Length == 0 {
        LookupNone(buckets[..], h(key), key);
        return None;
      }
      ghost var n := SearchEnd(buckets[..], h, key);
      for i := 0 to buckets.Length
        invariant i <= n && PassedOver(buckets[..], h(key), key, i)
      {
        var p := Probe(h(key), buckets.Length, i);
        if Matches(buckets[p], key) || buckets[p].Empty? {
          LookupIs(buckets[..], h(key), key, i);
          return if buckets[p].Empty? then None else Some(buckets[p].val);
        }
      }
      assert false;
    }

    method CountKeys() returns (n: nat)
      ensures n == FullCount(buckets[..])
    {
      n := 0;
      for i := 0 to buckets.Length
        invariant n == FullCount(buckets[..i])
      {
        assert buckets[..i + 1][..i] == buckets[..i];
        if buckets[i].Full? { n := n + 1; }
      }
      assert buckets[..buckets.Length] == buckets[..];
    }

    /** Doubles the capacity until the keys take less than half. */
    method NewCapacity(nkeys: nat) returns (cap: nat)
      requires Valid() && buckets.Length > 0
      ensures cap >= INIT_SIZE && (exists k: nat :: Pow2(k) == cap) && (nkeys * 100) / cap < LOW_WATERMARK
    {
      hide Table, NonEmpty;
      cap := buckets.Length;
      while (nkeys * 100) / cap >= LOW_WATERMARK
        invariant cap >= INIT_SIZE && (exists k: nat :: Pow2(k) == cap)
        decreases 2 * nkeys - cap
      {
        HalfFull(nkeys, cap);
        ghost var k: nat :| Pow2(k) == cap;
        assert Pow2(k + 1) == cap * 2;
        cap := cap * 2;
      }
    }

    /** Gets rid of tombstones and makes room. Fails, like the source's assertion, if some key had two entries. */
    method Rehash() returns (ok: bool)
      requires Valid() && buckets.Length > 0
      modifies this
      ensures ok == old(Sound())
      ensures ok ==> Valid() && Sound() && fresh(buckets) && buckets.Length > 0 && !MustRehash()
      ensures ok ==> Clean()
      ensures ok ==> forall key: Key :: Value(key) == old(Value(key))
    {
      hide Table, Unique, Moved, Lookup, CcTable.Put, SlotFrom, Find, FullCount, NonEmpty;
      ghost var was := buckets[..];
      var nkeys := CountKeys();
      var cap := NewCapacity(nkeys);
      var nb := new Bucket<V>[cap](_ => Empty);
      var nu := 0;
      MovedStart(was, nb[..], h);
      for i := 0 to buckets.Length
        invariant buckets == old(buckets) && nb != buckets && was == buckets[..] && nb.Length == cap
        invariant nu >= 0 && Moved(was, nb[..], nu, i, h)
      {
        MovedCount(was, nb[..], nu, i, h);
        if buckets[i].Full? {
          BelowWatermark(nu, nkeys, cap);
          MovedPut(was, nb[..], nu, i, h);
          var isNew := InsertEntry(nb, h, buckets[i].key, buckets[i].val, nu);
          nu := nu + if isNew then 1 else 0;
        } else {
          MovedSkip(was, nb[..], nu, i, h);
        }
      }
      MovedEnd(was, nb[..], nu, h);
      ok := nu == nkeys;
      if ok {
        MovedCount(was, nb[..], nu, |was|, h);
        BelowWatermark(nu, nkeys, cap);
        MovedAll(was, nb[..], nu, h);
        buckets, used := nb, nu;
      }
    }

    /** Gives key the value val; fails exactly if it has to rehash a table in which some key has two entries.
        Keys stay unique exactly if the insertion does not stop at a tombstone before the key's entry. */
    method Put(key: Key, val: V) returns (ok: bool)
      requires Valid()
      modifies this, buckets
      ensures ok == old(!MustRehash() || Sound())
      ensures ok ==> Valid() && (buckets == old(buckets) || fresh(buckets)) && Value(key) == Some(val)
      ensures ok ==> forall other: Key :: other != key ==> Value(other) == old(Value(other))
      ensures ok && old(Sound()) ==> (Sound() <==> old(MustRehash() || !Shadows(key)))
      ensures ok && old(Clean() && Sound()) ==> Clean() && Sound()
    {
      hide Table, Unique, Lookup, CcTable.Put, SlotFrom, Find, FullCount, NonEmpty, Shadowed;
      ghost var was := buckets[..];
      ok := true;
      if buckets.Length == 0 {
        buckets := new Bucket<V>[INIT_SIZE](_ => Empty);
        EmptyTable(was, buckets[..], h);
      } else if MustRehash() {
        ok := Rehash();
        if !ok { return; }
      }
      ghost var b := buckets[..];
      RoomLeft(used, buckets.Length);
      PutKeepsTable(b, used, h, key, val);
      PutGet(b, h, key, val);
      forall other: Key | other != key
        ensures Lookup(CcTable.Put(b, h(key), key, val), h(other), other) == Lookup(b, h(other), other)
      {
        PutOthers(b, h, key, val, other);
      }
      if Unique(b) { PutUnique(b, h, key, val); }
      if NoTombs(b) {
        NoTombNotShadowed(b, h(key), key);
        PutNoTombs(b, h(key), key, val);
      }
      var isNew := InsertEntry(buckets, h, key, val, used);
      if isNew { used := used + 1; }
    }

    /** Deletes key: it is gone afterwards exactly if it had at most one entry. */
    method Delete(key: Key)
      requires Valid()
      modifies buckets
      ensures Valid() && (Value(key) == None <==> old(Single(buckets[..], key)))
      ensures forall other: Key :: other != key ==> Value(other) == old(Value(other))
      ensures old(Sound()) ==> Sound()
    {
      hide Table, Unique, Lookup, Find, NonEmpty, Probe;
      if buckets.Length == 0 {
        forall k: Key ensures Value(k) == None { LookupNone(buckets[..], h(k), k); }
        return;
      }
      ghost var b := buckets[..];
      ghost var n := SearchEnd(b, h, key);
      DeleteTable(b, h, key);
      DeleteGet(b, h, key);
      if Unique(b) { DeleteUnique(b, h, key); }
      for i := 0 to buckets.Length
        invariant i <= n && PassedOver(b, h(key), key, i) && b == buckets[..]
      {
        var p := Probe(h(key), buckets.Length, i);
        if Matches(buckets[p], key) || buckets[p].Empty? {
          LookupIs(b, h(key), key, i);
          if !buckets[p].Empty? {
            NonEmptyUpdate(b, p, Tomb);
            buckets[p] := Tomb;
          }
          assert buckets[..] == CcTable.Delete(b, h(key), key);
          return;
        }
      }
      assert false;
    }
  }

  /** Writes key and value into the first bucket that matches, is a tombstone, or is empty; reports if it was empty. */
  method InsertEntry<V>(b: array<Bucket<V>>, h: Key -> nat, key: Key, val: V, ghost used: nat) returns (isNew: bool)
    requires b.Length > 0 && Table(b[..], h) && used == NonEmpty(b[..]) && used + 1 < b.Length
    modifies b
    ensures b[..] == CcTable.Put(old(b[..]), h(key), key, val)
    ensures isNew == old(b[SlotFrom(b[..], h(key), key, 0)].Empty?)
  {
    hide Table, Probe, NonEmpty;
    ghost var s := b[..];
    ghost var n := SlotEnd(s, h, key);
    for i := 0 to b.Length
      invariant i <= n && b[..] == s && SlotFrom(s, h(key), key, 0) == SlotFrom(s, h(key), key, i)
    {
      var p := Probe(h(key), b.Length, i);
      if Matches(b[p], key) || !b[p].Full? {
        isNew := b[p].Empty?;
        b[p] := Full(key, val);
        return;
      }
      SlotNotPast(s, h, key, i, n);
    }
    assert false;
  }

  // ---------- facts used by the methods ----------

  lemma LookupNone<V>(b: seq<Bucket<V>>, hash: nat, key: Key)
    requires b == []
    ensures Lookup(b, hash, key) == None
  {}

  /** Where the search for key ends. */
  lemma SearchEnd<V>(b: seq<Bucket<V>>, h: Key -> nat, key: Key) returns (n: nat)
    requires Table(b, h)
    ensures n < |b| && (Matches(b[Probe(h(key), |b|, n)], key) || b[Probe(h(key), |b|, n)].Empty?)
  {
    n := FindEnds(b, h(key), key, 0);
  }

  lemma LookupIs<V>(b: seq<Bucket<V>>, hash: nat, key: Key, n: nat)
    requires n < |b| && PassedOver(b, hash, key, n)
    requires var x := b[Probe(hash, |b|, n)]; Matches(x, key) || x.Empty?
    ensures var p := Probe(hash, |b|, n);
      && Find(b, hash, key) == (if b[p].Empty? then None else Some(p))
      && Lookup(b, hash, key) == (if b[p].Empty? then None else Some(b[p].val))
  {
    FindIs(b, hash, key, 0, n);
  }

  lemma SlotEnd<V>(b: seq<Bucket<V>>, h: Key -> nat, key: Key) returns (n: nat)
    requires Table(b, h)
    ensures n < |b| && (Matches(b[Probe(h(key), |b|, n)], key) || !b[Probe(h(key), |b|, n)].Full?)
  {
    n := FindEnds(b, h(key), key, 0);
  }

  lemma SlotNotPast<V>(b: seq<Bucket<V>>, h: Key -> nat, key: Key, i: nat, n: nat)
    requires i <= n < |b|
    requires var x := b[Probe(h(key), |b|, i)]; x.Full? && !Matches(x, key)
    requires var x := b[Probe(h(key), |b|, n)]; Matches(x, key) || !x.Full?
    ensures i < n && SlotFrom(b, h(key), key, i) == SlotFrom(b, h(key), key, i + 1)
  {}

  lemma HalfFull(nkeys: nat, cap: nat)
    requires cap > 0 && (nkeys * 100) / cap >= LOW_WATERMARK
    ensures 2 * nkeys >= cap
  {
    DivMod(nkeys * 100, cap);
    CancelTimes(50, (nkeys * 100) / cap, cap);
  }

  /** Below the low watermark there is room, and no need to rehash again. */
  lemma BelowWatermark(nu: nat, nkeys: nat, cap: nat)
    requires cap >= INIT_SIZE && nu <= nkeys && (nkeys * 100) / cap < LOW_WATERMARK
    ensures (nu * 100) / cap < HIGH_WATERMARK && nu + 1 < cap && nu * 100 < HIGH_WATERMARK * cap + 100
  {
    DivMod(nkeys * 100, cap);
    CancelTimes((nkeys * 100) / cap, 49, cap);
    DivMod(nu * 100, cap);
    if (nu * 100) / cap >= HIGH_WATERMARK { CancelTimes(70, (nu * 100) / cap, cap); }
  }

  lemma RoomLeft(used: nat, cap: nat)
    requires cap >= INIT_SIZE && (used * 100) / cap < HIGH_WATERMARK
    ensures used + 1 < cap && (used + 1) * 100 < HIGH_WATERMARK * cap + 100
  {
    DivMod(used * 100, cap);
    CancelTimes((used * 100) / cap, 69, cap);
  }

  lemma EmptyTable<V>(was: seq<Bucket<V>>, b: seq<Bucket<V>>, h: Key -> nat)
    requires was == [] && |b| == INIT_SIZE && forall p :: 0 <= p < |b| ==> b[p].Empty?
    ensures Table(b, h) && NonEmpty(b) == 0 && Unique(b) && Unique(was) && NoTombs(b) && exists k: nat :: Pow2(k) == |b|
    ensures forall key: Key :: Lookup(b, h(key), key) == Lookup(was, h(key), key) == None
  {
    hide Lookup;
    AllEmpty(b);
    assert Pow2(4) == 16;
    assert b[0].Empty?;
    forall key: Key ensures Lookup(b, h(key), key) == Lookup(was, h(key), key) == None {
      NoEntry(b, h, key);
      LookupNone(was, h(key), key);
    }
  }

  lemma PutNoTombs<V>(b: seq<Bucket<V>>, hash: nat, key: Key, v: V)
    requires |b| > 0 && NoTombs(b)
    ensures NoTombs(CcTable.Put(b, hash, key, v))
  {
    hide SlotFrom;
  }

  lemma NoTombNotShadowed<V>(b: seq<Bucket<V>>, hash: nat, key: Key)
    requires |b| > 0 && NoTombs(b)
    ensures !Shadowed(b, hash, key)
  {}

  lemma MovedCount<V>(old_: seq<Bucket<V>>, nb: seq<Bucket<V>>, nu: nat, i: nat, h: Key -> nat)
    requires Moved(old_, nb, nu, i, h)
    ensures nu <= FullCount(old_) && Table(nb, h) && nu == NonEmpty(nb)
  {
    FullPrefix(old_, i);
  }

  lemma MovedEnd<V>(old_: seq<Bucket<V>>, nb: seq<Bucket<V>>, nu: nat, h: Key -> nat)
    requires Moved(old_, nb, nu, |old_|, h)
    ensures nu == FullCount(old_) <==> Unique(old_)
    ensures Unique(nb) && NoTombs(nb)
  {
    hide Table, Unique, NoTombs, Lookup;
    assert old_[..|old_|] == old_;
  }
}
