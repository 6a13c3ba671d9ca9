/** The hash table over the slot list: probing, insertion, deletion, growth and clearing. */
module AwkZMap {
  import opened AwkMap
  import opened AwkProbe
  import opened Numbers
  import opened Wrappers

  // ---------- the table: 0 unused, -1 deleted, otherwise one plus a slot number ----------

  function NonZero(h: seq<int>): nat {
    if h == [] then 0 else NonZero(h[..|h| - 1]) + if h[|h| - 1] != 0 then 1 else 0
  }

  lemma {:induction false} NonZeroUpdate(h: seq<int>, p: nat, v: int)
    requires p < |h|
    ensures NonZero(h[p := v]) + (if h[p] != 0 then 1 else 0) == NonZero(h) + (if v != 0 then 1 else 0)
  {
    var n := |h| - 1;
    if p < n {
      NonZeroUpdate(h[..n], p, v);
      assert h[p := v][..n] == h[..n][p := v];
    } else {
      assert h[p := v][..n] == h[..n];
    }
  }

  lemma {:induction false} ZeroExists(h: seq<int>) returns (p: nat)
    requires NonZero(h) < |h|
    ensures p < |h| && h[p] == 0
  {
    var n := |h| - 1;
    if h[n] == 0 { p := n; } else { p := ZeroExists(h[..n]); }
  }

  lemma {:induction false} AllZero(h: seq<int>)
    requires forall p :: 0 <= p < |h| ==> h[p] == 0
    ensures NonZero(h) == 0
  {
    if h != [] { AllZero(h[..|h| - 1]); }
  }

  /** Cells probed for hash before probe t are all in use. */
  predicate ClearTo(h: seq<int>, hash: nat, t: nat)
    requires |h| > 0
  {
    forall u: nat :: u < t ==> h[Pos(hash, |h|, u)] != 0
  }

  /** Cell p is found when probing for hash, before any unused cell. */
  ghost predicate Reaches(h: seq<int>, hash: nat, p: nat)
    requires |h| > 0
  {
    exists t: nat :: Pos(hash, |h|, t) == p && ClearTo(h, hash, t)
  }

  /** Every table entry refers to a live slot, which is found from its hash; no two entries refer to one slot. */
  ghost predicate Sound<V>(h: seq<int>, slots: seq<Slot<V>>)
    requires |h| > 0
  {
    && (forall p :: 0 <= p < |h| ==> -1 <= h[p] <= |slots|)
    && (forall p :: 0 <= p < |h| && h[p] > 0 ==> slots[h[p] - 1].key.Some? && Reaches(h, slots[h[p] - 1].hash, p))
    && (forall p, q :: 0 <= p < |h| && 0 <= q < |h| && h[p] == h[q] && h[p] > 0 ==> p == q)
  }

  /** Every live slot has a table entry. */
  predicate Indexed<V>(h: seq<int>, slots: seq<Slot<V>>) {
    forall i :: 0 <= i < |slots| && slots[i].key.Some? ==> i + 1 in h
  }

  /** Live slots hold the hash of their key, and keys are unique. */
  ghost predicate Hashed<V>(slots: seq<Slot<V>>) {
    Distinct(slots) && forall i, key: Key :: LiveAt(slots, i, key) ==> slots[i].hash == Djb2(key)
  }

  ghost predicate Table<V>(h: seq<int>, slots: seq<Slot<V>>) {
    && |h| > 0 && (exists k: nat :: Pow2(k) == |h|)
    && Sound(h, slots) && Indexed(h, slots) && Hashed(slots)
  }

  /** Cells in use stay in use, so what could be reached still can. */
  lemma ReachesKept(h: seq<int>, p: nat, v: int, hash: nat, q: nat)
    requires p < |h| && v != 0 && Reaches(h, hash, q)
    ensures Reaches(h[p := v], hash, q)
  {
    var t: nat :| Pos(hash, |h|, t) == q && ClearTo(h, hash, t);
    assert ClearTo(h[p := v], hash, t);
  }

  /** A table with an unused cell: probing comes to it within size + 6 probes. */
  lemma UnusedReached(h: seq<int>, hash: nat) returns (t: nat)
    requires hash < WORD && NonZero(h) < |h| && exists k: nat :: Pow2(k) == |h|
    ensures t < |h| + 6 && h[Pos(hash, |h|, t)] == 0
  {
    var k: nat :| Pow2(k) == |h|;
    var p := ZeroExists(h);
    t := ProbeReaches(hash, k, p);
  }

  /** None of the first t probes for key meets it. */
  predicate NotSeen<V>(h: seq<int>, slots: seq<Slot<V>>, key: Key, hash: nat, t: nat)
    requires |h| > 0
  {
    forall u: nat :: u < t ==> !LiveAt(slots, h[Pos(hash, |h|, u)] - 1, key)
  }

  /** A key of the map is met before any unused cell is. */
  lemma SeenBefore<V>(h: seq<int>, slots: seq<Slot<V>>, i: nat, key: Key, t: nat) returns (u: nat)
    requires Table(h, slots) && LiveAt(slots, i, key) && h[Pos(Djb2(key), |h|, t)] == 0
    ensures u < t && LiveAt(slots, h[Pos(Djb2(key), |h|, u)] - 1, key)
  {
    hide Djb2, Pos;
    assert i + 1 in h;
    var p :| 0 <= p < |h| && h[p] == i + 1;
    u :| Pos(slots[i].hash, |h|, u) == p && ClearTo(h, slots[i].hash, u);
  }

  /** If probing met an unused cell without meeting the key, the key is not in the map. */
  lemma Absent<V>(h: seq<int>, slots: seq<Slot<V>>, key: Key, t: nat)
    requires Table(h, slots) && h[Pos(Djb2(key), |h|, t)] == 0 && NotSeen(h, slots, key, Djb2(key), t)
    ensures key !in Contents(slots)
  {
    hide Djb2, Pos, Table;
    ContentsKey(slots, key);
    if i :| LiveAt(slots, i, key) {
      var u := SeenBefore(h, slots, i, key, t);
    }
  }

  /** Entering a live slot that has no entry yet. */
  lemma SoundEnter<V>(h: seq<int>, slots: seq<Slot<V>>, p: nat, n: int)
    requires |h| > 0 && Sound(h, slots) && p < |h| && h[p] <= 0 && n !in h
    requires 0 < n <= |slots| && slots[n - 1].key.Some? && Reaches(h, slots[n - 1].hash, p)
    ensures Sound(h[p := n], slots)
  {
    hide Reaches;
    var h' := h[p := n];
    forall q | 0 <= q < |h| && h'[q] > 0 ensures slots[h'[q] - 1].key.Some? && Reaches(h', slots[h'[q] - 1].hash, q) {
      ReachesKept(h, p, n, slots[h'[q] - 1].hash, q);
    }
  }

  lemma SoundGrow<V>(h: seq<int>, slots: seq<Slot<V>>, x: Slot<V>)
    requires |h| > 0 && Sound(h, slots)
    ensures Sound(h, slots + [x]) && |slots| + 1 !in h
  {
    hide Reaches;
  }

  lemma IndexedInsert<V>(h: seq<int>, slots: seq<Slot<V>>, p: nat, x: Slot<V>)
    requires Indexed(h, slots) && p < |h| && h[p] <= 0
    ensures Indexed(h[p := |slots| + 1], slots + [x])
  {
    var h', s := h[p := |slots| + 1], slots + [x];
    forall i | 0 <= i < |s| && s[i].key.Some? ensures i + 1 in h' {
      if i < |slots| {
        var q :| 0 <= q < |h| && h[q] == i + 1;
        assert h'[q] == i + 1;
      } else {
        assert h'[p] == i + 1;
      }
    }
  }

  lemma HashedInsert<V>(slots: seq<Slot<V>>, x: Slot<V>)
    requires Hashed(slots) && x.key.Some? && x.hash == Djb2(x.key.value) && x.key.value !in Contents(slots)
    ensures Hashed(slots + [x])
  {
    hide Djb2, Contents;
    var s := slots + [x];
    DistinctAppend(slots, x);
    forall i, key: Key | LiveAt(s, i, key) ensures s[i].hash == Djb2(key) {
      if i < |slots| { assert LiveAt(slots, i, key); }
    }
  }

  /** A new slot, entered at a cell where probing for its key may end. */
  lemma TableInsert<V>(h: seq<int>, slots: seq<Slot<V>>, p: nat, x: Slot<V>)
    requires Table(h, slots) && p < |h| && h[p] <= 0 && Reaches(h, x.hash, p)
    requires x.key.Some? && x.hash == Djb2(x.key.value) && x.key.value !in Contents(slots)
    ensures Table(h[p := |slots| + 1], slots + [x])
  {
    hide Djb2, Reaches, Contents, Sound, Indexed, Hashed;
    SoundGrow(h, slots, x);
    SoundEnter(h, slots + [x], p, |slots| + 1);
    IndexedInsert(h, slots, p, x);
    HashedInsert(slots, x);
  }

  lemma TableRemove<V>(h: seq<int>, slots: seq<Slot<V>>, p: nat, key: Key)
    requires Table(h, slots) && p < |h| && h[p] > 0 && slots[h[p] - 1].key == Some(key)
    ensures Table(h[p := -1], slots[h[p] - 1 := slots[h[p] - 1].(key := None)])
  {
    hide Djb2, Pos, Reaches, Contents;
    var i := h[p] - 1;
    var h', s := h[p := -1], slots[i := slots[i].(key := None)];
    ContentsRemove(slots, i, key);
    forall q | 0 <= q < |h| && h'[q] > 0 ensures s[h'[q] - 1].key.Some? && Reaches(h', s[h'[q] - 1].hash, q) {
      ReachesKept(h, p, -1, slots[h[q] - 1].hash, q);
    }
    forall j | 0 <= j < |s| && s[j].key.Some? ensures j + 1 in h' {
      var q :| 0 <= q < |h| && h[q] == j + 1;
      assert h'[q] == j + 1;
    }
    forall j, k: Key | LiveAt(s, j, k) ensures s[j].hash == Djb2(k) { assert LiveAt(slots, j, k); }
  }

  lemma TableStore<V>(h: seq<int>, slots: seq<Slot<V>>, i: nat, key: Key, v: V)
    requires Table(h, slots) && LiveAt(slots, i, key)
    ensures Table(h, slots[i := slots[i].(val := v)])
  {
    hide Djb2, Pos, Reaches, Contents;
    var s := slots[i := slots[i].(val := v)];
    ContentsStore(slots, i, key, v);
    forall j, k: Key | LiveAt(s, j, k) ensures s[j].hash == Djb2(k) { assert LiveAt(slots, j, k); }
  }

  // ---------- the slot list over time ----------

  /** Slots are never moved or reused: each keeps its key or loses it, and new ones come last. */
  predicate Evolves<V>(was: seq<Slot<V>>, now: seq<Slot<V>>) {
    |was| <= |now| && forall i :: 0 <= i < |was| ==> now[i].key == was[i].key || now[i].key == None
  }

  class ZMap<V> {
    const blank: V
    var mask: nat
    var hash: array<int>
    var limit: int
    var count: int
    var deleted: int
    var slot: seq<Slot<V>>

    ghost predicate Valid()
      reads this, hash
    {
      && hash.Length == mask + 1 >= 8 && limit == hash.Length * 8 / 10
      && Table(hash[..], slot)
      && NonZero(hash[..]) <= count == |slot| <= limit
      && count - deleted == Live(slot)
    }

    /** What the array stands for. */
    function Map(): map<Key, V>
      reads this
    {
      Contents(slot)
    }

    constructor (blank: V)
      ensures Valid() && fresh(hash) && slot == [] && this.blank == blank
    {
      this.blank := blank;
      mask := 7;
      hash := new int[8](_ => 0);
      limit := 8 * 8 / 10;
      count, deleted, slot := 0, 0, [];
      new;
      EmptyTable(hash[..], slot);
    }

    method Init()
      modifies this
      ensures Valid() && fresh(hash) && slot == []
    {
      mask := 7;
      hash := new int[8](_ => 0);
      limit := 8 * 8 / 10;
      count, deleted, slot := 0, 0, [];
      EmptyTable(hash[..], slot);
    }

    /** Deletes the whole map. */
    method DeleteMap()
      modifies this
      ensures Valid() && fresh(hash) && Map() == map[]
    {
      Init();
    }

    /** Looks for key: its slot number and cell; or -1 and the cell where it may be entered. */
    method FindMapslot(key: Key) returns (x: int, h: nat, probe: nat)
      requires Valid()
      ensures h == Djb2(key) && probe < hash.Length
      ensures x >= 0 ==> LiveAt(slot, x, key) && hash[probe] == x + 1
      ensures x < 0 ==> key !in Map() && hash[probe] <= 0 && Reaches(hash[..], h, probe)
    {
      hide Djb2, Pos, Perturb, NonZero, Contents, Table, Reaches, ClearTo, NotSeen;
      h := ZstringHash(key);
      var perturb := h;
      probe := h % (mask + 1);
      var firstDeleted := -1;
      ghost var t: nat := 0;
      ghost var stop := Stop(hash[..], slot, h);
      ProbeStart(hash[..], slot, key, h);
      while hash[probe] != 0
        invariant probe == Pos(h, hash.Length, t) && perturb == Perturb(h, t)
        invariant ClearTo(hash[..], h, t) && NotSeen(hash[..], slot, key, h, t) && t <= stop
        invariant -1 <= firstDeleted < hash.Length
        invariant firstDeleted >= 0 ==> hash[firstDeleted] == -1 && Reaches(hash[..], h, firstDeleted)
        decreases stop - t
      {
        var n := hash[probe];
        Entry(hash[..], slot, probe);
        ReachesHere(hash[..], h, t);
        if n > 0 {
          HashFirst(hash[..], slot, n - 1, key);
          if h == slot[n - 1].hash && slot[n - 1].key == Some(key) { return n - 1, h, probe; }
        } else if firstDeleted < 0 {
          firstDeleted := probe;
        }
        Advance(hash[..], slot, key, h, t);
        perturb := perturb / 32;
        probe := (probe * 5 + 1 + perturb) % (mask + 1);
        t := t + 1;
        NotPast(hash[..], h, t, stop);
      }
      Absent(hash[..], slot, key, t);
      ReachesHere(hash[..], h, t);
      if firstDeleted >= 0 { probe := firstDeleted; }
      x := -1;
    }

    method Find(key: Key) returns (r: Option<V>)
      requires Valid()
      ensures r == if key in Map() then Some(Map()[key]) else None
    {
      var x, _, _ := FindMapslot(key);
      if x >= 0 {
        ContentsValue(slot, x, key);
        r := Some(slot[x].val);
      } else {
        r := None;
      }
    }

    /** Doubles the table; entries of deleted slots are not carried over. */
    method Rehash()
      requires Valid()
      modifies this`mask, this`hash, this`limit
      ensures Valid() && fresh(hash) && count < limit
    {
      hide Djb2, Pos, NonZero, Contents, Table, Moved;
      var size := mask + 1;
      var h := new int[2 * size](_ => 0);
      ghost var was := hash[..];
      MovedStart(was, h[..], slot);
      for i := 0 to size
        invariant Valid() && h != hash && h.Length == 2 * size && was == hash[..] && Moved(was, h[..], slot, i)
      {
        var n := hash[i];
        if n > 0 {
          var p := FreeCell(h, was, i);
          MovedOne(was, h[..], slot, i, p);
          h[p] := n;
        } else {
          MovedNone(was, h[..], slot, i);
        }
      }
      MovedAll(was, h[..], slot);
      mask := 2 * size - 1;
      hash := h;
      limit := 2 * size * 8 / 10;
    }

    /** Where the new table takes the entry of old cell i. */
    method FreeCell(h: array<int>, ghost was: seq<int>, i: nat) returns (p: nat)
      requires Valid() && h.Length == 2 * hash.Length && was == hash[..] && i < hash.Length && hash[i] > 0
      requires Moved(was, h[..], slot, i)
      ensures p < h.Length && h[p] == 0 && Reaches(h[..], slot[was[i] - 1].hash, p)
    {
      hide Djb2, Pos, Perturb, NonZero, Contents, Table, Moved, Reaches, ClearTo;
      Entry(was, slot, i);
      var hv := slot[hash[i] - 1].hash;
      var perturb := hv;
      p := hv % h.Length;
      ghost var t: nat := 0;
      ghost var stop := MovedStop(was, h[..], slot, i);
      PosZero(h[..], hv);
      while h[p] != 0
        invariant p == Pos(hv, h.Length, t) && perturb == Perturb(hv, t) && ClearTo(h[..], hv, t) && t <= stop
        decreases stop - t
      {
        PosNext(h[..], hv, t);
        perturb := perturb / 32;
        p := (p * 5 + 1 + perturb) % h.Length;
        t := t + 1;
        NotPast(h[..], hv, t, stop);
      }
      ReachesHere(h[..], hv, t);
    }

    /** The slot of key, which is appended to the list, with an empty value, if the key is new. */
    method FindOrInsertKey(key: Key) returns (n: nat)
      requires Valid()
      modifies this, hash
      ensures Valid() && (hash == old(hash) || fresh(hash)) && LiveAt(slot, n, key)
      ensures slot == if key in old(Map()) then old(slot) else old(slot) + [Slot(Djb2(key), Some(key), blank)]
      ensures Map() == if key in old(Map()) then old(Map()) else old(Map())[key := blank]
    {
      hide Djb2, Pos, NonZero, Contents, Table, Reaches, Distinct, Live;
      var x, h, probe := FindMapslot(key);
      ContentsKey(slot, key);
      if x >= 0 { return x; }
      if count == limit {
        Rehash();
        x, h, probe := FindMapslot(key);
      }
      var zs := Slot(h, Some(key), blank);
      TableInsert(hash[..], slot, probe, zs);
      ContentsAppend(slot, zs);
      NonZeroUpdate(hash[..], probe, count + 1);
      n := count;
      slot := slot + [zs];
      count := count + 1;
      hash[probe] := n + 1;
    }

    /** Assigns through the pointer that FindOrInsertKey returned. */
    method SetValue(n: nat, key: Key, v: V)
      requires Valid() && LiveAt(slot, n, key)
      modifies this`slot
      ensures Valid() && Map() == old(Map())[key := v] && Evolves(old(slot), slot)
    {
      hide NonZero, Contents, Table, Distinct, Live;
      TableStore(hash[..], slot, n, key, v);
      TableDistinct(hash[..], slot);
      ContentsStore(slot, n, key, v);
      LiveUpdate(slot, n, slot[n].(val := v));
      slot := slot[n := slot[n].(val := v)];
    }

    /** Deletes key, if present: its slot loses the key and its cell is marked deleted. */
    method Delete(key: Key)
      requires Valid()
      modifies this, hash
      ensures Valid() && hash == old(hash) && Map() == old(Map()) - {key} && Evolves(old(slot), slot)
    {
      hide Djb2, Pos, NonZero, Contents, Table, Reaches, Distinct, Live;
      var x, _, probe := FindMapslot(key);
      if x < 0 { return; }
      TableRemove(hash[..], slot, probe, key);
      TableDistinct(hash[..], slot);
      ContentsRemove(slot, x, key);
      LiveUpdate(slot, x, slot[x].(key := None));
      NonZeroUpdate(hash[..], probe, -1);
      var i := hash[probe] - 1;
      slot := slot[i := slot[i].(key := None)];
      hash[probe] := -1;
      deleted := deleted + 1;
    }

    /** What `length(a)` yields. */
    method Length() returns (n: int)
      requires Valid()
      ensures n == |Map()|
    {
      hide NonZero, Contents, Live;
      TableDistinct(hash[..], slot);
      LiveSize(slot);
      n := count - deleted;
    }

    /** One step of a `for (k in a)` scan: the next live slot after number k. */
    method MapIterNext(k: int) returns (kk: nat)
      requires -1 <= k < |slot|
      ensures NextLive(slot, k, kk)
    {
      kk := k + 1;
      while kk < |slot| && slot[kk].key.None?
        invariant k < kk <= |slot| && forall i :: k < i < kk ==> slot[i].key.None?
      {
        kk := kk + 1;
      }
    }

    /** A whole scan of an array that does not change meanwhile visits every key once, in slot order. */
    method Scan() returns (visited: seq<Key>)
      requires Valid()
      ensures visited == Keys(slot)
      ensures forall k :: k in visited <==> k in Map()
      ensures forall i, j :: 0 <= i < j < |visited| ==> visited[i] != visited[j]
    {
      hide Contents, Table, NonZero, Live;
      visited := [];
      var kk := MapIterNext(-1);
      KeysSkip(slot, 0, kk);
      while kk < |slot|
        invariant kk <= |slot| && visited == Keys(slot[..kk])
        invariant kk < |slot| ==> slot[kk].key.Some?
      {
        visited := visited + [slot[kk].key.value];
        assert slot[..kk + 1][..kk] == slot[..kk];
        var next := MapIterNext(kk);
        KeysSkip(slot, kk + 1, next);
        kk := next;
      }
      assert slot[..kk] == slot;
      TableDistinct(hash[..], slot);
      KeysOnce(slot);
    }
  }

  /** kk is the number of the first live slot after k, or the number of slots if there is none. */
  predicate NextLive<V>(slots: seq<Slot<V>>, k: int, kk: int) {
    && -1 <= k < kk <= |slots| && (forall i :: k < i < kk ==> slots[i].key.None?)
    && (kk < |slots| ==> slots[kk].key.Some?)
  }

  lemma {:induction false} KeysSkip<V>(slots: seq<Slot<V>>, k: nat, kk: nat)
    requires k <= kk <= |slots| && forall i :: k <= i < kk ==> slots[i].key.None?
    ensures Keys(slots[..kk]) == Keys(slots[..k])
    decreases kk - k
  {
    if k < kk {
      KeysSkip(slots, k, kk - 1);
      assert slots[..kk][..kk - 1] == slots[..kk - 1];
    }
  }

  /** A scan whose body changes the array: step j sees the slots states[j] and moves from slot ks[j] to ks[j + 1]. */
  ghost predicate ScanTrace<V>(states: seq<seq<Slot<V>>>, ks: seq<int>) {
    && |ks| == |states| + 1 > 1 && ks[0] == -1 && ks[|states|] == |states[|states| - 1]|
    && forall j :: 0 <= j < |states| ==> NextLive(states[j], ks[j], ks[j + 1])
  }

  /** Whatever the body does, a key that keeps its slot during the whole scan is visited. */
  lemma {:induction false} StableKeyVisited<V>(states: seq<seq<Slot<V>>>, ks: seq<int>, i: nat, key: Key, n: nat) returns (j: nat)
    requires ScanTrace(states, ks) && (forall s :: s in states ==> LiveAt(s, i, key))
    requires n < |states| && ks[n] < i
    ensures n < j < |states| && ks[j] == i
    decreases |states| - n
  {
    assert NextLive(states[n], ks[n], ks[n + 1]) && LiveAt(states[n], i, key);
    if ks[n + 1] == i {
      j := n + 1;
    } else {
      j := StableKeyVisited(states, ks, i, key, n + 1);
    }
  }

  /** No slot is visited twice. */
  lemma {:induction false} SlotsVisitedOnce<V>(states: seq<seq<Slot<V>>>, ks: seq<int>, i: nat, j: nat)
    requires ScanTrace(states, ks) && i < j < |ks|
    ensures ks[i] < ks[j]
    decreases j - i
  {
    assert NextLive(states[i], ks[i], ks[i + 1]);
    if i + 1 < j { SlotsVisitedOnce(states, ks, i + 1, j); }
  }

  // ---------- growing the table ----------

  /** The entries of the first i cells of the old table have been moved to the new table h. */
  ghost predicate Moved<V>(was: seq<int>, h: seq<int>, slots: seq<Slot<V>>, i: nat) {
    && i <= |was| && |h| == 2 * |was| > 0 && Sound(h, slots) && NonZero(h) <= NonZero(was[..i])
    && (forall n :: n in h ==> n == 0 || (n > 0 && n in was[..i]))
    && (forall n :: n in was[..i] && n > 0 ==> n in h)
  }

  lemma MovedStart<V>(was: seq<int>, h: seq<int>, slots: seq<Slot<V>>)
    requires |h| == 2 * |was| > 0 && forall p :: 0 <= p < |h| ==> h[p] == 0
    ensures Moved(was, h, slots, 0)
  {
    AllZero(h);
  }

  lemma MovedNone<V>(was: seq<int>, h: seq<int>, slots: seq<Slot<V>>, i: nat)
    requires Moved(was, h, slots, i) && i < |was| && was[i] <= 0
    ensures Moved(was, h, slots, i + 1)
  {
    hide Sound;
    assert was[..i + 1] == was[..i] + [was[i]] && was[..i + 1][..i] == was[..i];
  }

  lemma MovedOne<V>(was: seq<int>, h: seq<int>, slots: seq<Slot<V>>, i: nat, p: nat)
    requires Table(was, slots) && Moved(was, h, slots, i) && i < |was| && was[i] > 0
    requires p < |h| && h[p] == 0 && Reaches(h, slots[was[i] - 1].hash, p)
    ensures Moved(was, h[p := was[i]], slots, i + 1)
  {
    hide Reaches, Hashed, Indexed;
    var n, h' := was[i], h[p := was[i]];
    assert was[..i + 1] == was[..i] + [n] && was[..i + 1][..i] == was[..i];
    forall q | 0 <= q < i ensures was[q] != n {}
    assert n !in was[..i] && n !in h;
    SoundEnter(h, slots, p, n);
    NonZeroUpdate(h, p, n);
    forall k | k in h' ensures k == 0 || (k > 0 && k in was[..i + 1]) {
      var q :| 0 <= q < |h| && h'[q] == k;
      if q != p { assert h[q] in h; }
    }
    forall k | k in was[..i + 1] && k > 0 ensures k in h' {
      if k == n {
        assert h'[p] == n;
      } else {
        var q :| 0 <= q < |h| && h[q] == k;
        assert h'[q] == k;
      }
    }
  }

  lemma MovedStop<V>(was: seq<int>, h: seq<int>, slots: seq<Slot<V>>, i: nat) returns (t: nat)
    requires Table(was, slots) && Moved(was, h, slots, i) && i < |was| && was[i] > 0
    requires NonZero(was) < |was|
    ensures t < |h| + 6 && h[Pos(slots[was[i] - 1].hash, |h|, t)] == 0
  {
    hide Reaches;
    var hv := slots[was[i] - 1].hash;
    var key := slots[was[i] - 1].key.value;
    assert LiveAt(slots, was[i] - 1, key);
    NonZeroPrefix(was, i);
    TwiceSize(was, h);
    t := UnusedReached(h, hv);
  }

  lemma TwiceSize(was: seq<int>, h: seq<int>)
    requires |h| == 2 * |was| && exists k: nat :: Pow2(k) == |was|
    ensures exists k: nat :: Pow2(k) == |h|
  {
    var k: nat :| Pow2(k) == |was|;
    assert Pow2(k + 1) == |h|;
  }

  lemma {:induction false} NonZeroPrefix(h: seq<int>, i: nat)
    requires i <= |h|
    ensures NonZero(h[..i]) <= NonZero(h)
    decreases |h|
  {
    if i < |h| {
      NonZeroPrefix(h[..|h| - 1], i);
      assert h[..|h| - 1][..i] == h[..i];
    } else {
      assert h[..i] == h;
    }
  }

  /** The new table serves the same slots. */
  lemma MovedAll<V>(was: seq<int>, h: seq<int>, slots: seq<Slot<V>>)
    requires Table(was, slots) && Moved(was, h, slots, |was|)
    ensures Table(h, slots) && NonZero(h) <= NonZero(was)
  {
    hide Sound, Hashed;
    assert was[..|was|] == was;
    TwiceSize(was, h);
  }

  lemma PosZero(h: seq<int>, hash: nat)
    requires |h| > 0
    ensures Pos(hash, |h|, 0) == hash % |h| && Perturb(hash, 0) == hash && ClearTo(h, hash, 0)
  {}

  lemma PosNext(h: seq<int>, hash: nat, t: nat)
    requires |h| > 0 && ClearTo(h, hash, t) && h[Pos(hash, |h|, t)] != 0
    ensures ClearTo(h, hash, t + 1)
    ensures Pos(hash, |h|, t + 1) == (Pos(hash, |h|, t) * 5 + 1 + Perturb(hash, t) / 32) % |h|
    ensures Perturb(hash, t + 1) == Perturb(hash, t) / 32
  {}

  lemma TableDistinct<V>(h: seq<int>, slots: seq<Slot<V>>)
    requires Table(h, slots)
    ensures Distinct(slots)
  {}

  lemma EmptyTable<V>(h: seq<int>, slots: seq<Slot<V>>)
    requires slots == [] && |h| == 8 && forall p :: 0 <= p < 8 ==> h[p] == 0
    ensures Table(h, slots) && NonZero(h) == 0
  {
    AllZero(h);
    assert Pow2(3) == 8;
  }

  lemma Stop<V>(h: seq<int>, slots: seq<Slot<V>>, hash: nat) returns (t: nat)
    requires Table(h, slots) && hash < WORD && NonZero(h) < |h|
    ensures t < |h| + 6 && h[Pos(hash, |h|, t)] == 0
  {
    t := UnusedReached(h, hash);
  }

  lemma ProbeStart<V>(h: seq<int>, slots: seq<Slot<V>>, key: Key, hash: nat)
    requires |h| > 0
    ensures Pos(hash, |h|, 0) == hash % |h| && Perturb(hash, 0) == hash
    ensures ClearTo(h, hash, 0) && NotSeen(h, slots, key, hash, 0)
  {}

  /** Probing does not run past an unused cell. */
  lemma NotPast(h: seq<int>, hash: nat, t: nat, stop: nat)
    requires |h| > 0 && ClearTo(h, hash, t) && h[Pos(hash, |h|, stop)] == 0
    ensures t <= stop
  {
    hide Pos;
  }

  lemma Entry<V>(h: seq<int>, slots: seq<Slot<V>>, p: nat)
    requires Table(h, slots) && p < |h|
    ensures -1 <= h[p] <= |slots| && (h[p] > 0 ==> slots[h[p] - 1].key.Some?)
  {}

  /** Comparing hashes first loses nothing. */
  lemma HashFirst<V>(h: seq<int>, slots: seq<Slot<V>>, i: nat, key: Key)
    requires Table(h, slots) && i < |slots|
    ensures LiveAt(slots, i, key) <==> slots[i].hash == Djb2(key) && slots[i].key == Some(key)
  {
    hide Djb2;
    assert LiveAt(slots, i, key) <==> slots[i].key == Some(key);
  }

  lemma ReachesHere(h: seq<int>, hash: nat, t: nat)
    requires |h| > 0 && ClearTo(h, hash, t)
    ensures Reaches(h, hash, Pos(hash, |h|, t))
  {}

  /** One more probe, of a cell in use that does not hold the key. */
  lemma Advance<V>(h: seq<int>, slots: seq<Slot<V>>, key: Key, hash: nat, t: nat)
    requires |h| > 0 && ClearTo(h, hash, t) && NotSeen(h, slots, key, hash, t)
    requires h[Pos(hash, |h|, t)] != 0 && !LiveAt(slots, h[Pos(hash, |h|, t)] - 1, key)
    ensures ClearTo(h, hash, t + 1) && NotSeen(h, slots, key, hash, t + 1)
    ensures Pos(hash, |h|, t + 1) == (Pos(hash, |h|, t) * 5 + 1 + Perturb(hash, t) / 32) % |h|
    ensures Perturb(hash, t + 1) == Perturb(hash, t) / 32
  {}
}
