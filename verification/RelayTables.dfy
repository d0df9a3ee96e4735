/** How accepting, naming, joining and starting change the relay's tables. */
module RelayTables {
  import opened RelayState

  // ---- counting -----------------------------------------------------------

  lemma {:induction false} DistinctBound(m: seq<nat>, s: set<nat>)
    requires Distinct(m) && forall k :: 0 <= k < |m| ==> m[k] in s
    ensures |m| <= |s|
    decreases |m|
  {
    if m != [] {
      var n := |m| - 1;
      DistinctBound(m[..n], s - {m[n]});
    }
  }

  ghost function Below(n: nat): (s: set<nat>)
    ensures |s| == n && forall i :: i in s <==> 0 <= i < n
  {
    if n == 0 then {} else Below(n - 1) + {n - 1}
  }

  /** Fewer than `n` numbers below `n` are other than `x`. */
  lemma OthersBelow(s: set<nat>, n: nat, x: nat)
    requires x < n && forall i :: i in s ==> i < n && i != x
    ensures |s| < n
  {
    Fewer(s, Below(n) - {x});
  }

  // ---- a new connection ---------------------------------------------------

  function Fresh(ip: int): Client { Client(true, false, ip, [], -1, [], [], []) }

  lemma AcceptInv(s: State, max: nat, i: nat, ip: int)
    requires Inv(s, max, {}) && i < MAX_CLIENTS && !s.clients[i].inUse
    ensures Inv(WithClient(s, i, Fresh(ip)), max, {})
  {
    hide RoomOk, TxFine;
    var t := WithClient(s, i, Fresh(ip));
    assert forall k :: Live(t, k) <==> Live(s, k) || k == i;
    assert TxFine(Fresh(ip)) by { FreshTx(ip); }
    forall k | Live(t, k)
      ensures SeatOk(t, {}, k)
    {
      if k != i { assert SeatOk(s, {}, k); }
    }
    forall q | 0 <= q < MAX_ROOMS && t.rooms[q].used
      ensures RoomOk(t, max, q)
    {
      RoomSame(s, t, max, q);
    }
    forall k | 0 <= k < |s.names|
      ensures EntryOk(t, s.names[k])
    {
      assert EntryOk(s, s.names[k]);
    }
  }

  lemma FreshTx(ip: int)
    ensures TxFine(Fresh(ip))
  {
  }

  // ---- the registry -------------------------------------------------------

  /** A client has one entry at most, and each entry its own client. */
  lemma EntryClients(s: State)
    requires NamesOk(s)
    ensures forall j, k :: 0 <= j < k < |s.names| ==> s.names[j].ci != s.names[k].ci
  {
    forall j, k | 0 <= j < k < |s.names|
      ensures s.names[j].ci != s.names[k].ci
    {
      assert EntryOk(s, s.names[j]) && EntryOk(s, s.names[k]);
    }
  }

  function Cis(names: seq<Entry>): (m: seq<nat>)
    ensures |m| == |names| && forall k :: 0 <= k < |m| ==> m[k] == names[k].ci
  {
    seq(|names|, k requires 0 <= k < |names| => names[k].ci)
  }

  /** An unregistered client finds room in a registry of 64: the capacity check of name_set never fails. */
  lemma RoomForName(s: State, ci: nat)
    requires Shape(s) && NamesOk(s) && ci < MAX_CLIENTS
    requires forall k :: 0 <= k < |s.names| ==> s.names[k].ci != ci
    ensures |s.names| < MAX_CLIENTS
  {
    EntryClients(s);
    var m := Cis(s.names);
    var all := set k | 0 <= k < |m| :: m[k];
    forall k | 0 <= k < |m|
      ensures m[k] < MAX_CLIENTS && m[k] != ci
    {
      assert EntryOk(s, s.names[k]);
    }
    DistinctBound(m, all);
    OthersBelow(all, MAX_CLIENTS, ci);
  }

  lemma NamesFit(s: State)
    requires Shape(s) && NamesOk(s)
    ensures |s.names| <= MAX_CLIENTS
  {
    EntryClients(s);
    var m := Cis(s.names);
    var all := set k | 0 <= k < |m| :: m[k];
    forall k | 0 <= k < |m|
      ensures m[k] < MAX_CLIENTS
    {
      assert EntryOk(s, s.names[k]);
    }
    DistinctBound(m, all);
    OthersBelow(all, MAX_CLIENTS + 1, MAX_CLIENTS);
  }

  function Find(names: seq<Entry>, name: Name): (k: int)
    ensures -1 <= k < |names|
    ensures k >= 0 ==> names[k].name == name
    ensures k < 0 ==> forall j :: 0 <= j < |names| ==> names[j].name != name
  {
    if names == [] then -1
    else if names[0].name == name then 0
    else
      var k := Find(names[1..], name);
      if k < 0 then -1 else k + 1
  }

  /** Deleting a client's only entry is deleting its entries. */
  lemma {:induction false} DeleteOne(names: seq<Entry>, i: nat, ci: nat)
    requires i < |names| && names[i].ci == ci
    requires forall k :: 0 <= k < |names| && k != i ==> names[k].ci != ci
    ensures names[..i] + names[i + 1..] == Without(names, ci)
    decreases |names|
  {
    if i == 0 {
      NoEntry(names[1..], ci);
    } else {
      DeleteOne(names[1..], i - 1, ci);
      assert names[..i] + names[i + 1..] == [names[0]] + (names[1..][..i - 1] + names[1..][i..]);
    }
  }

  lemma {:induction false} NoEntry(names: seq<Entry>, ci: nat)
    requires forall k :: 0 <= k < |names| ==> names[k].ci != ci
    ensures Without(names, ci) == names
    decreases |names|
  {
    if names != [] { NoEntry(names[1..], ci); }
  }

  /**
   HELLO accepted: a client keeps its place in the registry if it keeps its
   name; under a new name its old entry is gone and the new one comes last.
   */
  function Renamed(s: State, ci: nat, name: Name): State
    requires ci < |s.clients|
  {
    State(
      s.clients[ci := s.clients[ci].(name := name)],
      s.rooms,
      if s.clients[ci].name == name then s.names else Without(s.names, ci) + [Entry(name, ci)])
  }

  lemma RenamedInv(s: State, max: nat, ci: nat, name: Name)
    requires Inv(s, max, {}) && Live(s, ci) && name != []
    requires forall k :: 0 <= k < |s.names| && s.names[k].name == name ==> s.names[k].ci == ci
    ensures Inv(Renamed(s, ci, name), max, {})
  {
    hide TxFine;
    var t := Renamed(s, ci, name);
    assert forall k :: Live(t, k) <==> Live(s, k);
    forall k | Live(t, k)
      ensures SeatOk(t, {}, k) && TxFine(t.clients[k])
    {
      assert SeatOk(s, {}, k);
      TxSame(s.clients[k], t.clients[k]);
    }
    forall q | 0 <= q < MAX_ROOMS && t.rooms[q].used
      ensures RoomOk(t, max, q)
    {
      assert RoomOk(s, max, q);
    }
    RenamedNames(s, ci, name);
  }

  lemma RenamedNames(s: State, ci: nat, name: Name)
    requires NamesOk(s) && Live(s, ci) && name != []
    requires forall k :: 0 <= k < |s.names| && s.names[k].name == name ==> s.names[k].ci == ci
    ensures NamesOk(Renamed(s, ci, name))
  {
    hide Without;
    var t := Renamed(s, ci, name);
    assert forall k :: Live(t, k) <==> Live(s, k);
    if s.clients[ci].name == name {
      assert t.clients == s.clients;
    } else {
      var w := Without(s.names, ci);
      WithoutDistinct(s.names, ci);
      forall k | 0 <= k < |w|
        ensures EntryOk(t, w[k]) && w[k].name != name
      {
        WithoutMember(s.names, ci, w[k]);
        assert EntryOk(s, w[k]);
      }
      forall k | 0 <= k < |t.names|
        ensures EntryOk(t, t.names[k])
      {
        if k == |w| { assert t.names[k] == Entry(name, ci); } else { assert t.names[k] == w[k]; }
      }
      forall i | Live(t, i) && t.clients[i].name != []
        ensures Entry(t.clients[i].name, i) in t.names
      {
        WithoutMember(s.names, ci, Entry(t.clients[i].name, i));
        assert t.names[|w|] == Entry(name, ci);
      }
    }
  }

  /** HELLO without looking again whether the client survived the eviction. */
  function HelloUnchecked(s: State, ci: nat, name: Name): State
    requires ci < |s.clients|
  {
    var w := if s.clients[ci].name == name then s.names else Without(s.names, ci);
    State(s.clients[ci := s.clients[ci].(name := name)], s.rooms, if Find(w, name) >= 0 then w else w + [Entry(name, ci)])
  }

  /** Looking again is exactly what the registry needs: without it, it stays consistent if and only if the client lives. */
  lemma RecheckNeeded(s: State, max: nat, ci: nat, name: Name)
    requires Inv(s, max, {}) && ci < MAX_CLIENTS && name != []
    requires forall k :: 0 <= k < |s.names| && s.names[k].name == name ==> s.names[k].ci == ci
    ensures NamesOk(HelloUnchecked(s, ci, name)) <==> Live(s, ci)
  {
    hide Base, Without;
    NamesOf(s, max);
    var t := HelloUnchecked(s, ci, name);
    var w := if s.clients[ci].name == name then s.names else Without(s.names, ci);
    HolderLives(s, ci, name, w);
    if Live(s, ci) {
      RenamedNames(s, ci, name);
      if s.clients[ci].name == name {
        assert Entry(name, ci) in s.names;
      }
      assert t == Renamed(s, ci, name);
    } else {
      assert t.names[|w|] == Entry(name, ci);
      assert !EntryOk(t, t.names[|w|]);
    }
  }

  lemma HolderLives(s: State, ci: nat, name: Name, w: seq<Entry>)
    requires NamesOk(s) && ci < |s.clients|
    requires forall k :: 0 <= k < |s.names| && s.names[k].name == name ==> s.names[k].ci == ci
    requires w == if s.clients[ci].name == name then s.names else Without(s.names, ci)
    ensures Find(w, name) >= 0 ==> Live(s, ci) && s.clients[ci].name == name
  {
    if Find(w, name) >= 0 {
      var e := w[Find(w, name)];
      WithoutMember(s.names, ci, e);
      var k :| 0 <= k < |s.names| && s.names[k] == e;
      assert EntryOk(s, s.names[k]);
    }
  }

  lemma NamesOf(s: State, max: nat)
    requires Inv(s, max, {})
    ensures Shape(s) && NamesOk(s)
  {
  }

  // ---- rooms --------------------------------------------------------------

  /** A room for `target` alone, about to be joined. */
  function Opened(s: State, target: nat, r: nat): State
    requires target < |s.clients| && r < |s.rooms|
  {
    s.(clients := s.clients[target := s.clients[target].(room := r)], rooms := s.rooms[r := Room(true, [target], false)])
  }

  function Joined(s: State, ci: nat, r: nat): State
    requires ci < |s.clients| && r < |s.rooms|
  {
    s.(clients := s.clients[ci := s.clients[ci].(room := r)],
       rooms := s.rooms[r := s.rooms[r].(members := s.rooms[r].members + [ci])])
  }

  /** Opening and joining lose no one's seat, name or queue. */
  lemma OpenedBase(s: State, max: nat, target: nat, r: nat)
    requires Inv(s, max, {}) && 2 <= max && Live(s, target) && s.clients[target].room < 0 && s.clients[target].name != []
    requires r < MAX_ROOMS && !s.rooms[r].used
    ensures Base(Opened(s, target, r), max, {}) && Sizes(Opened(s, target, r), {r})
  {
    hide TxFine;
    var t := Opened(s, target, r);
    assert forall k :: Live(t, k) <==> Live(s, k);
    forall k | Live(t, k)
      ensures SeatOk(t, {}, k) && TxFine(t.clients[k])
    {
      assert SeatOk(s, {}, k);
      TxSame(s.clients[k], t.clients[k]);
    }
    forall q | 0 <= q < MAX_ROOMS && t.rooms[q].used
      ensures RoomOk(t, max, q)
    {
      if q != r { assert RoomOk(s, max, q); RoomSame(s, t, max, q); }
    }
    NamesSame(s, t);
  }

  lemma NamesSame(s: State, t: State)
    requires NamesOk(s) && t.names == s.names && |t.clients| == |s.clients|
    requires forall k :: Live(t, k) <==> Live(s, k)
    requires forall k :: 0 <= k < |s.clients| ==> t.clients[k].name == s.clients[k].name
    ensures NamesOk(t)
  {
    forall k | 0 <= k < |s.names|
      ensures EntryOk(t, s.names[k])
    {
      assert EntryOk(s, s.names[k]);
    }
  }

  lemma JoinedInv(s: State, max: nat, ci: nat, r: nat)
    requires Base(s, max, {}) && Sizes(s, {r}) && Live(s, ci) && s.clients[ci].room < 0 && s.clients[ci].name != []
    requires r < MAX_ROOMS && s.rooms[r].used && 1 <= |s.rooms[r].members| < max
    ensures Inv(Joined(s, ci, r), max, {})
  {
    hide TxFine;
    var t := Joined(s, ci, r);
    assert forall k :: Live(t, k) <==> Live(s, k);
    forall k | Live(t, k)
      ensures SeatOk(t, {}, k) && TxFine(t.clients[k])
    {
      assert SeatOk(s, {}, k);
      TxSame(s.clients[k], t.clients[k]);
    }
    forall q | 0 <= q < MAX_ROOMS && t.rooms[q].used
      ensures RoomOk(t, max, q)
    {
      assert RoomOk(s, max, q);
      if q == r { JoinedRoom(s, max, ci, r); } else { RoomSame(s, t, max, q); }
    }
    NamesSame(s, t);
  }

  lemma JoinedRoom(s: State, max: nat, ci: nat, r: nat)
    requires Shape(s) && r < MAX_ROOMS && RoomOk(s, max, r) && |s.rooms[r].members| < max
    requires Live(s, ci) && s.clients[ci].room < 0 && s.clients[ci].name != []
    ensures RoomOk(Joined(s, ci, r), max, r)
  {
    var t, m := Joined(s, ci, r), s.rooms[r].members;
    assert forall k :: Live(t, k) <==> Live(s, k);
    forall k | 0 <= k < |m|
      ensures m[k] != ci && t.clients[m[k]] == s.clients[m[k]] && Live(s, m[k])
    {
      assert s.clients[m[k]].room == r;
    }
  }

  function Started(s: State, r: nat): State
    requires r < |s.rooms|
  {
    s.(rooms := s.rooms[r := s.rooms[r].(started := true)])
  }

  lemma StartedInv(s: State, max: nat, r: nat)
    requires Inv(s, max, {}) && r < MAX_ROOMS
    ensures Inv(Started(s, r), max, {})
  {
    hide TxFine;
    var t := Started(s, r);
    assert forall k :: Live(t, k) <==> Live(s, k);
    forall k | Live(t, k)
      ensures SeatOk(t, {}, k)
    {
      assert SeatOk(s, {}, k);
    }
    forall q | 0 <= q < MAX_ROOMS && t.rooms[q].used
      ensures RoomOk(t, max, q)
    {
      assert RoomOk(s, max, q);
      RoomSame(s, t, max, q);
    }
    NamesSame(s, t);
  }

  // ---- room_alloc never fails ---------------------------------------------

  /** The members of the first `n` rooms. */
  ghost function Seated(s: State, n: nat): set<nat>
    requires Shape(s) && n <= MAX_ROOMS
  {
    set i: nat | i < MAX_CLIENTS && Live(s, i) && 0 <= s.clients[i].room < n
  }

  /** Two different clients out of a used room's members. */
  lemma TwoMembers(s: State, max: nat, r: nat)
    requires Inv(s, max, {}) && r < MAX_ROOMS && s.rooms[r].used
    ensures |Seated(s, r + 1)| >= |Seated(s, r)| + 2
  {
    hide TxOk, NamesOk, SeatsOk;
    assert RoomOk(s, max, r);
    var m := s.rooms[r].members;
    var a, b := m[0], m[1];
    assert a != b && Live(s, a) && Live(s, b) && s.clients[a].room == r && s.clients[b].room == r;
    Fewer(Seated(s, r) + {a} + {b}, Seated(s, r + 1));
  }

  lemma {:induction false} SeatedTwice(s: State, max: nat, n: nat)
    requires Inv(s, max, {}) && n <= MAX_ROOMS
    requires forall r :: 0 <= r < n ==> s.rooms[r].used
    ensures |Seated(s, n)| >= 2 * n
    decreases n
  {
    hide Inv;
    if n > 0 {
      Shaped(s, max);
      TwoMembers(s, max, n - 1);
      SeatedTwice(s, max, n - 1);
    }
  }

  lemma Shaped(s: State, max: nat)
    requires Inv(s, max, {})
    ensures Shape(s)
  {
  }

  lemma SeatedBound(s: State, ci: nat)
    requires Shape(s) && ci < MAX_CLIENTS && s.clients[ci].room < 0
    ensures |Seated(s, MAX_ROOMS)| < MAX_CLIENTS
  {
    OthersBelow(Seated(s, MAX_ROOMS), MAX_CLIENTS, ci);
  }

  /** With a live client outside every room, some room slot is free: room_alloc never fails. */
  lemma RoomFree(s: State, max: nat, ci: nat)
    requires Inv(s, max, {}) && Live(s, ci) && s.clients[ci].room < 0
    ensures exists r :: 0 <= r < MAX_ROOMS && !s.rooms[r].used
  {
    hide Base, Seated;
    Shaped(s, max);
    SeatedBound(s, ci);
    if forall r :: 0 <= r < MAX_ROOMS ==> s.rooms[r].used {
      SeatedTwice(s, max, MAX_ROOMS);
    }
  }
}
