/** Fixed tables of keyed slots that stand for a dictionary. */
module Slots {
  datatype Slot = Slot(inUse: bool, key: int, crc: int)

  ghost predicate HasSlot(s: seq<Slot>, key: int, crc: int) {
    exists i :: 0 <= i < |s| && s[i] == Slot(true, key, crc)
  }

  /** The slots in use are the entries of `v`, each key once. */
  ghost predicate SlotsRep(s: seq<Slot>, v: map<int, int>, n: nat) {
    && |s| == n
    && (forall i :: 0 <= i < |s| && s[i].inUse ==> s[i].key in v && v[s[i].key] == s[i].crc)
    && (forall a :: a in v ==> HasSlot(s, a, v[a]))
    && (forall i, j :: 0 <= i < j < |s| && s[i].inUse && s[j].inUse ==> s[i].key != s[j].key)
  }

  lemma {:induction false} DistinctIn(m: seq<int>, s: set<int>)
    requires forall i, j :: 0 <= i < j < |m| ==> m[i] != m[j]
    requires forall i :: 0 <= i < |m| ==> m[i] in s
    ensures |m| <= |s|
    decreases |m|
  {
    if m != [] {
      var n := |m| - 1;
      DistinctIn(m[..n], s - {m[n]});
    }
  }

  /** With fewer entries than slots, a slot is free. */
  lemma SlotFree(s: seq<Slot>, v: map<int, int>, n: nat)
    requires SlotsRep(s, v, n) && |v| < n
    ensures exists i :: 0 <= i < |s| && !s[i].inUse
  {
    assert |v.Keys| == |v|;
    if forall i :: 0 <= i < |s| ==> s[i].inUse {
      var m := seq(|s|, i requires 0 <= i < |s| => s[i].key);
      DistinctIn(m, v.Keys);
    }
  }

  lemma SetSlot(s: seq<Slot>, v: map<int, int>, n: nat, i: nat, key: int, crc: int)
    requires SlotsRep(s, v, n) && i < n
    requires if s[i].inUse then s[i].key == key else key !in v
    ensures SlotsRep(s[i := Slot(true, key, crc)], v[key := crc], n)
  {
    var r, u := s[i := Slot(true, key, crc)], v[key := crc];
    assert r[i] == Slot(true, key, crc);
    forall a | a in u
      ensures HasSlot(r, a, u[a])
    {
      if a != key {
        assert HasSlot(s, a, v[a]);
        var j :| 0 <= j < |s| && s[j] == Slot(true, a, v[a]);
        assert r[j] == s[j];
      }
    }
  }

  lemma ClearSlot(s: seq<Slot>, v: map<int, int>, n: nat, i: nat)
    requires SlotsRep(s, v, n) && i < n && s[i].inUse
    ensures SlotsRep(s[i := s[i].(inUse := false)], v - {s[i].key}, n)
  {
    var r, u := s[i := s[i].(inUse := false)], v - {s[i].key};
    forall a | a in u
      ensures HasSlot(r, a, u[a])
    {
      assert HasSlot(s, a, v[a]);
      var j :| 0 <= j < |s| && s[j] == Slot(true, a, v[a]);
      assert r[j] == s[j];
    }
  }

  lemma NoSlots(s: seq<Slot>, n: nat)
    requires |s| == n && forall i :: 0 <= i < n ==> !s[i].inUse
    ensures SlotsRep(s, map[], n)
  {
  }

  lemma SlotShape(s: seq<Slot>, v: map<int, int>, n: nat)
    requires SlotsRep(s, v, n)
    ensures |s| == n
  {
  }

  // ---- sizes and least keys -----------------------------------------------

  lemma SetPlusOne(s: set<int>, x: int)
    ensures |s| <= |s + {x}| <= |s| + 1
    ensures x !in s ==> |s + {x}| == |s| + 1
  {
    if x in s { assert s + {x} == s; }
  }

  lemma InsertSize<V>(t: map<int, V>, tick: int, v: V)
    ensures |t| <= |t[tick := v]| <= |t| + 1
    ensures tick in t ==> |t[tick := v]| == |t|
    ensures tick !in t ==> |t[tick := v]| == |t| + 1
  {
    assert t[tick := v].Keys == t.Keys + {tick};
    assert |t[tick := v]| == |t[tick := v].Keys| && |t| == |t.Keys|;
    SetPlusOne(t.Keys, tick);
    if tick in t { assert t.Keys + {tick} == t.Keys; }
  }

  lemma RemoveSize<V>(t: map<int, V>, k: int)
    ensures |t - {k}| == if k in t then |t| - 1 else |t|
  {
    assert (t - {k}).Keys == t.Keys - {k};
    assert |t - {k}| == |(t - {k}).Keys| && |t| == |t.Keys|;
  }

  ghost predicate Lowest<V>(t: map<int, V>, k: int) {
    k in t && forall j :: j in t ==> k <= j
  }

  lemma NoKeys<K, V>(t: map<K, V>)
    requires forall x :: x !in t
    ensures t == map[]
  {
  }

  lemma SomeKey<K, V>(t: map<K, V>) returns (k: K)
    requires t != map[]
    ensures k in t
  {
    assert exists x :: x in t by {
      if forall x :: x !in t { NoKeys(t); }
    }
    k :| k in t;
  }

  lemma {:induction false} SomeLowest<V>(t: map<int, V>)
    requires t != map[]
    ensures exists k :: Lowest(t, k)
    decreases |t|
  {
    var k := SomeKey(t);
    var u := t - {k};
    if u == map[] {
      forall j | j in t ensures k <= j { assert j == k || j in u; }
      assert Lowest(t, k);
    } else {
      SomeLowest(u);
      var m :| Lowest(u, m);
      var low := if k < m then k else m;
      forall j | j in t ensures low <= j { if j != k { assert j in u; } }
      assert Lowest(t, low);
    }
  }

  ghost function MinTick<V>(t: map<int, V>): (k: int)
    requires t != map[]
    ensures Lowest(t, k)
  {
    SomeLowest(t);
    var k :| Lowest(t, k);
    k
  }

  lemma OneLowest<V>(t: map<int, V>, a: int, b: int)
    requires Lowest(t, a) && Lowest(t, b)
    ensures a == b
  {
  }

  // ---- scans --------------------------------------------------------------

  method FindSlot(s: seq<Slot>, key: int, ghost v: map<int, int>, ghost n: nat) returns (i: int)
    requires SlotsRep(s, v, n)
    ensures -1 <= i < |s|
    ensures if i >= 0 then s[i].inUse && s[i].key == key && key in v && s[i].crc == v[key] else key !in v
  {
    i := 0;
    while i < |s|
      invariant 0 <= i <= |s|
      invariant forall j :: 0 <= j < i ==> !(s[j].inUse && s[j].key == key)
    {
      if s[i].inUse && s[i].key == key { return; }
      i := i + 1;
    }
    i := -1;
    assert key in v ==> HasSlot(s, key, v[key]);
  }

  /** Insert or replace; with fewer entries than slots there is a slot for it. */
  method PutSlot(s: seq<Slot>, key: int, crc: int, ghost v: map<int, int>, ghost n: nat) returns (r: seq<Slot>, added: bool)
    requires SlotsRep(s, v, n) && |v| < n
    ensures SlotsRep(r, v[key := crc], n)
    ensures added <==> key !in v
  {
    hide SlotsRep;
    SlotShape(s, v, n);
    var i := FindSlot(s, key, v, n);
    added := i < 0;
    if added {
      SlotFree(s, v, n);
      i := 0;
      while i < |s| && s[i].inUse
        invariant 0 <= i <= |s|
        invariant forall j :: 0 <= j < i ==> s[j].inUse
      {
        i := i + 1;
      }
      if i == |s| { assert false; }
    }
    SetSlot(s, v, n, i, key, crc);
    r := s[i := Slot(true, key, crc)];
  }

  method LowestSlot(s: seq<Slot>, ghost v: map<int, int>, ghost n: nat) returns (k: nat)
    requires SlotsRep(s, v, n) && v != map[]
    ensures k < |s| && s[k].inUse && Lowest(v, s[k].key)
  {
    ghost var some := SomeKey(v);
    assert HasSlot(s, some, v[some]);
    var low := -1;
    var i := 0;
    while i < |s|
      invariant 0 <= i <= |s| && -1 <= low < i
      invariant low < 0 ==> forall j :: 0 <= j < i ==> !s[j].inUse
      invariant low >= 0 ==> s[low].inUse && forall j :: 0 <= j < i && s[j].inUse ==> s[low].key <= s[j].key
    {
      if s[i].inUse && (low < 0 || s[i].key < s[low].key) { low := i; }
      i := i + 1;
    }
    k := low;
    forall t | t in v
      ensures s[k].key <= t
    {
      assert HasSlot(s, t, v[t]);
    }
  }
}
