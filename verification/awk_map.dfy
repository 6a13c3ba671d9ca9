/** awk's associative arrays: an insertion-ordered list of slots, indexed by an open-addressing hash table. */
module AwkMap {
  import opened AwkProbe
  import opened Wrappers

  /** A string, as characters without a sign. */
  type CChar = c: int | 0 <= c < 256
  type Key = seq<CChar>

  /** djb2, in 32-bit arithmetic. */
  function Djb2(s: Key): (h: nat)
    ensures h < WORD
  {
    if s == [] then 5381 else (Djb2(s[..|s| - 1]) * 33 + s[|s| - 1]) % WORD
  }

  method ZstringHash(s: Key) returns (h: nat)
    ensures h == Djb2(s)
  {
    h := 5381;
    for i := 0 to |s|
      invariant h == Djb2(s[..i])
    {
      h := (h * 32 + h + s[i]) % WORD;
      assert s[..i + 1][..i] == s[..i];
    }
    assert s[..|s|] == s;
  }

  /** An entry of the slot list; deleting one clears its key. */
  datatype Slot<V> = Slot(hash: nat, key: Option<Key>, val: V)

  // ---------- the map that a slot list stands for ----------

  predicate LiveAt<V>(slots: seq<Slot<V>>, i: int, key: Key) { 0 <= i < |slots| && slots[i].key == Some(key) }

  ghost predicate Distinct<V>(slots: seq<Slot<V>>) {
    forall i, j, key: Key :: LiveAt(slots, i, key) && LiveAt(slots, j, key) ==> i == j
  }

  function Contents<V>(slots: seq<Slot<V>>): map<Key, V> {
    if slots == [] then map[]
    else
      var x, rest := slots[|slots| - 1], Contents(slots[..|slots| - 1]);
      if x.key.Some? then rest[x.key.value := x.val] else rest
  }

  function Live<V>(slots: seq<Slot<V>>): nat {
    if slots == [] then 0 else Live(slots[..|slots| - 1]) + if slots[|slots| - 1].key.Some? then 1 else 0
  }

  /** The keys in slot order, which is the order of a `for (k in a)` scan. */
  function Keys<V>(slots: seq<Slot<V>>): seq<Key> {
    if slots == [] then []
    else
      var x := slots[|slots| - 1];
      Keys(slots[..|slots| - 1]) + if x.key.Some? then [x.key.value] else []
  }

  lemma {:induction false} ContentsKey<V>(slots: seq<Slot<V>>, key: Key)
    ensures key in Contents(slots) <==> exists i :: LiveAt(slots, i, key)
  {
    if slots != [] {
      var n := |slots| - 1;
      var init := slots[..n];
      ContentsKey(init, key);
      if i :| LiveAt(init, i, key) { assert LiveAt(slots, i, key); }
      if i :| LiveAt(slots, i, key) {
        if i < n { assert LiveAt(init, i, key); }
      }
      if slots[n].key == Some(key) { assert LiveAt(slots, n, key); }
    }
  }

  lemma DistinctInit<V>(slots: seq<Slot<V>>, n: nat)
    requires Distinct(slots) && n <= |slots|
    ensures Distinct(slots[..n])
  {
    forall i, j, key: Key | LiveAt(slots[..n], i, key) && LiveAt(slots[..n], j, key) ensures i == j {
      assert LiveAt(slots, i, key) && LiveAt(slots, j, key);
    }
  }

  lemma {:induction false} ContentsValue<V>(slots: seq<Slot<V>>, i: int, key: Key)
    requires Distinct(slots) && LiveAt(slots, i, key)
    ensures key in Contents(slots) && Contents(slots)[key] == slots[i].val
  {
    var n := |slots| - 1;
    ContentsKey(slots, key);
    if i < n {
      DistinctInit(slots, n);
      assert LiveAt(slots[..n], i, key);
      ContentsValue(slots[..n], i, key);
      if slots[n].key == Some(key) { assert LiveAt(slots, n, key); }
    }
  }

  /** Two distinct slot lists stand for the same map if they agree on what is live. */
  lemma SameContents<V>(slots: seq<Slot<V>>, m: map<Key, V>)
    requires Distinct(slots)
    requires forall key: Key :: key in m <==> exists i :: LiveAt(slots, i, key)
    requires forall key: Key, i :: LiveAt(slots, i, key) && key in m ==> m[key] == slots[i].val
    ensures Contents(slots) == m
  {
    forall key: Key ensures key in Contents(slots) <==> key in m { ContentsKey(slots, key); }
    forall key | key in m ensures Contents(slots)[key] == m[key] {
      var i :| LiveAt(slots, i, key);
      ContentsValue(slots, i, key);
    }
  }

  lemma ContentsAppend<V>(slots: seq<Slot<V>>, x: Slot<V>)
    requires x.key.Some?
    ensures Contents(slots + [x]) == Contents(slots)[x.key.value := x.val]
    ensures Live(slots + [x]) == Live(slots) + 1
  {
    assert (slots + [x])[..|slots|] == slots;
  }

  lemma {:induction false} LiveUpdate<V>(slots: seq<Slot<V>>, i: nat, x: Slot<V>)
    requires i < |slots|
    ensures Live(slots[i := x]) + (if slots[i].key.Some? then 1 else 0) == Live(slots) + (if x.key.Some? then 1 else 0)
  {
    var n := |slots| - 1;
    if i < n {
      LiveUpdate(slots[..n], i, x);
      assert slots[i := x][..n] == slots[..n][i := x];
    } else {
      assert slots[i := x][..n] == slots[..n];
    }
  }

  lemma ContentsStore<V>(slots: seq<Slot<V>>, i: nat, key: Key, v: V)
    requires Distinct(slots) && LiveAt(slots, i, key)
    ensures var s := slots[i := slots[i].(val := v)]; Distinct(s) && Contents(s) == Contents(slots)[key := v]
  {
    var s, m := slots[i := slots[i].(val := v)], Contents(slots)[key := v];
    assert forall j, k: Key :: LiveAt(s, j, k) <==> LiveAt(slots, j, k);
    forall k: Key ensures k in m <==> exists j :: LiveAt(s, j, k) {
      ContentsKey(slots, k);
      if j :| LiveAt(slots, j, k) { assert LiveAt(s, j, k); }
      if j :| LiveAt(s, j, k) { assert LiveAt(slots, j, k); }
    }
    forall k: Key, j | LiveAt(s, j, k) && k in m ensures m[k] == s[j].val {
      assert LiveAt(slots, j, k);
      ContentsValue(slots, j, k);
    }
    SameContents(s, m);
  }

  lemma ContentsRemove<V>(slots: seq<Slot<V>>, i: nat, key: Key)
    requires Distinct(slots) && LiveAt(slots, i, key)
    ensures var s := slots[i := slots[i].(key := None)]; Distinct(s) && Contents(s) == Contents(slots) - {key}
  {
    var s, m := slots[i := slots[i].(key := None)], Contents(slots) - {key};
    assert forall j, k: Key :: LiveAt(s, j, k) <==> LiveAt(slots, j, k) && j != i;
    forall k: Key ensures k in m <==> exists j :: LiveAt(s, j, k) {
      ContentsKey(slots, k);
      if k in m {
        var j :| LiveAt(slots, j, k);
        assert LiveAt(s, j, k);
      }
      if j :| LiveAt(s, j, k) { assert LiveAt(slots, j, k); }
    }
    forall k: Key, j | LiveAt(s, j, k) && k in m ensures m[k] == s[j].val {
      assert LiveAt(slots, j, k);
      ContentsValue(slots, j, k);
    }
    SameContents(s, m);
  }

  lemma DistinctAppend<V>(slots: seq<Slot<V>>, x: Slot<V>)
    requires Distinct(slots) && x.key.Some? && x.key.value !in Contents(slots)
    ensures Distinct(slots + [x])
  {
    var s := slots + [x];
    forall i, j, key: Key | LiveAt(s, i, key) && LiveAt(s, j, key) ensures i == j {
      ContentsKey(slots, key);
      if i < |slots| { assert LiveAt(slots, i, key); }
      if j < |slots| { assert LiveAt(slots, j, key); }
    }
  }

  /** The number of live slots is the size of the map. */
  lemma {:induction false} LiveSize<V>(slots: seq<Slot<V>>)
    requires Distinct(slots)
    ensures |Contents(slots)| == Live(slots)
  {
    if slots != [] {
      var n := |slots| - 1;
      DistinctInit(slots, n);
      LiveSize(slots[..n]);
      var x := slots[n];
      if x.key.Some? {
        var rest, k := Contents(slots[..n]), x.key.value;
        ContentsKey(slots[..n], k);
        if k in rest {
          var i :| LiveAt(slots[..n], i, k);
          assert LiveAt(slots, i, k) && LiveAt(slots, n, k);
        }
        assert rest[k := x.val].Keys == rest.Keys + {k};
      }
    }
  }

  /** A scan lists every key of the map, and none twice. */
  lemma {:induction false} KeysOnce<V>(slots: seq<Slot<V>>)
    requires Distinct(slots)
    ensures forall k :: k in Keys(slots) <==> k in Contents(slots)
    ensures forall i, j :: 0 <= i < j < |Keys(slots)| ==> Keys(slots)[i] != Keys(slots)[j]
  {
    if slots != [] {
      var n := |slots| - 1;
      var init, x := slots[..n], slots[n];
      DistinctInit(slots, n);
      KeysOnce(init);
      if x.key.Some? {
        ContentsKey(init, x.key.value);
        if i :| LiveAt(init, i, x.key.value) { assert LiveAt(slots, i, x.key.value) && LiveAt(slots, n, x.key.value); }
        assert x.key.value !in Keys(init);
      }
    }
  }

  /** Keys are listed in the order of their slots, which is that of their insertion: each comes behind as many as live before it. */
  lemma {:induction false} KeysInOrder<V>(slots: seq<Slot<V>>, i: nat)
    requires i < |slots| && slots[i].key.Some?
    ensures |Keys(slots)| == Live(slots) && Live(slots[..i]) < Live(slots) && Keys(slots)[Live(slots[..i])] == slots[i].key.value
    decreases |slots|
  {
    var n := |slots| - 1;
    KeysLive(slots[..n]);
    if i < n {
      assert slots[..n][..i] == slots[..i];
      KeysInOrder(slots[..n], i);
    }
  }

  lemma {:induction false} KeysLive<V>(slots: seq<Slot<V>>)
    ensures |Keys(slots)| == Live(slots)
  {
    if slots != [] { KeysLive(slots[..|slots| - 1]); }
  }
}
