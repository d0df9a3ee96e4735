/** The relay's tables and what every reachable state of them satisfies. */
module RelayState {
  import opened Basics

  const MAX_CLIENTS := 64
  const MAX_ROOMS := 32          // MAX_CLIENTS / 2: a live room has two members or more
  const TX_CAP := 65536

  type Name = seq<byte>

  /** `queued` and `sent` are history: every byte ever queued to the client, every byte its socket took. */
  datatype Client = Client(inUse: bool, dead: bool, ip: int, name: Name, room: int, tx: seq<byte>, queued: seq<byte>, sent: seq<byte>)

  /** Members are client indices in join order: a member's position is its seat. */
  datatype Room = Room(used: bool, members: seq<nat>, started: bool)

  datatype Entry = Entry(name: Name, ci: nat)

  datatype State = State(clients: seq<Client>, rooms: seq<Room>, names: seq<Entry>)

  predicate Live(s: State, i: int) {
    0 <= i < |s.clients| && s.clients[i].inUse && !s.clients[i].dead
  }

  predicate Shape(s: State) {
    |s.clients| == MAX_CLIENTS && |s.rooms| == MAX_ROOMS
  }

  ghost predicate Distinct(m: seq<nat>) {
    forall i, j :: 0 <= i < j < |m| ==> m[i] != m[j]
  }

  /** A live client's room is one that counts it among its members; rooms being dissolved count nobody. */
  ghost predicate SeatOk(s: State, loose: set<int>, i: int)
    requires Shape(s) && Live(s, i)
  {
    var r := s.clients[i].room;
    r >= 0 ==> r < MAX_ROOMS && s.rooms[r].used && r !in loose && i in s.rooms[r].members
  }

  ghost predicate SeatsOk(s: State, loose: set<int>)
    requires Shape(s)
  {
    forall i :: Live(s, i) ==> SeatOk(s, loose, i)
  }

  /** The members of room `r`: distinct, live, named, in this room, and not more than the seats. */
  ghost predicate RoomOk(s: State, max: nat, r: int)
    requires 0 <= r < |s.rooms|
  {
    var m := s.rooms[r].members;
    && Distinct(m) && |m| <= max
    && forall k :: 0 <= k < |m| ==> Live(s, m[k]) && s.clients[m[k]].room == r && s.clients[m[k]].name != []
  }

  ghost predicate RoomsOk(s: State, max: nat, loose: set<int>)
    requires Shape(s)
  {
    && (forall r :: r in loose ==> 0 <= r < MAX_ROOMS && s.rooms[r].used)
    && (forall r :: 0 <= r < MAX_ROOMS && s.rooms[r].used && r !in loose ==> RoomOk(s, max, r))
    && (forall r :: 0 <= r < MAX_ROOMS && !s.rooms[r].used ==> s.rooms[r].members == [])
  }

  ghost predicate EntryOk(s: State, e: Entry) {
    Live(s, e.ci) && e.name != [] && s.clients[e.ci].name == e.name
  }

  /** The registry: one entry per identified live client, under the name it has now, and no name twice. */
  ghost predicate NamesOk(s: State) {
    && (forall k :: 0 <= k < |s.names| ==> EntryOk(s, s.names[k]))
    && (forall j, k :: 0 <= j < k < |s.names| ==> s.names[j].name != s.names[k].name)
    && (forall i :: Live(s, i) && s.clients[i].name != [] ==> Entry(s.clients[i].name, i) in s.names)
  }

  /** What is still buffered follows what was sent, and fits the buffer. */
  predicate TxFine(c: Client) {
    c.queued == c.sent + c.tx && |c.tx| <= TX_CAP
  }

  ghost predicate TxOk(s: State) {
    forall i :: Live(s, i) ==> TxFine(s.clients[i])
  }

  ghost predicate Base(s: State, max: nat, loose: set<int>) {
    Shape(s) && SeatsOk(s, loose) && RoomsOk(s, max, loose) && NamesOk(s) && TxOk(s)
  }

  ghost predicate Sizes(s: State, loose: set<int>)
    requires Shape(s)
  {
    forall r :: 0 <= r < MAX_ROOMS && s.rooms[r].used && r !in loose ==> |s.rooms[r].members| >= 2
  }

  /** The invariant, with rooms in `loose` in the middle of being dissolved. */
  ghost predicate Inv(s: State, max: nat, loose: set<int>) {
    Base(s, max, loose) && Sizes(s, loose)
  }

  // ---- how a cascade of drops changes the state ---------------------------

  ghost function LiveSet(s: State): set<int> {
    set i | 0 <= i < |s.clients| && Live(s, i)
  }

  ghost function Count(s: State): nat { |LiveSet(s)| }

  /** The entries of clients still live, in order. */
  function Survivors(names: seq<Entry>, s: State): seq<Entry> {
    if names == [] then []
    else if Live(s, names[0].ci) then [names[0]] + Survivors(names[1..], s)
    else Survivors(names[1..], s)
  }

  predicate IsPrefix(a: seq<byte>, b: seq<byte>) {
    |a| <= |b| && b[..|a|] == a
  }

  /** A slot that holds or held a client. */
  predicate Seen(c: Client) { c.inUse || c.dead }

  ghost predicate ClientShrunk(c: Client, d: Client) {
    && (c.dead ==> d.dead && d.inUse == c.inUse) && (!c.inUse ==> !d.inUse) && (Seen(c) ==> Seen(d))
    && d.ip == c.ip && d.name == c.name && (d.room == c.room || d.room == -1) && IsPrefix(c.queued, d.queued)
  }

  /** `b` is `a` with some left out. */
  ghost predicate Subseq(b: seq<nat>, a: seq<nat>)
    decreases |a|
  {
    || b == []
    || (a != [] && ((b[0] == a[0] && Subseq(b[1..], a[1..])) || Subseq(b, a[1..])))
  }

  /** A room that lasts keeps its members in their order, as far as it keeps them. */
  ghost predicate RoomShrunk(a: Room, b: Room) {
    b.used ==> a.used && b.started == a.started && Subseq(b.members, a.members)
  }

  /**
   A cascade only takes away: no client comes to life, changes name or enters a
   room; no room opens; queues grow at the end; and the registry loses exactly
   the entries of the dead, keeping the order of the rest.
   */
  ghost predicate Shrunk(s: State, t: State, loose: set<int>) {
    && Shape(s) && Shape(t)
    && (forall i :: 0 <= i < MAX_CLIENTS ==> ClientShrunk(s.clients[i], t.clients[i]))
    && (forall r :: 0 <= r < MAX_ROOMS ==> RoomShrunk(s.rooms[r], t.rooms[r]))
    && (forall r :: r in loose && 0 <= r < MAX_ROOMS ==> t.rooms[r] == s.rooms[r])
    && t.names == Survivors(s.names, t)
  }

  lemma {:induction false} AllSurvive(names: seq<Entry>, s: State)
    requires forall k :: 0 <= k < |names| ==> Live(s, names[k].ci)
    ensures Survivors(names, s) == names
    decreases |names|
  {
    if names != [] { AllSurvive(names[1..], s); }
  }

  lemma {:induction false} SurvivorsTwice(names: seq<Entry>, m: State, t: State)
    requires forall i :: Live(t, i) ==> Live(m, i)
    ensures Survivors(Survivors(names, m), t) == Survivors(names, t)
    decreases |names|
  {
    if names != [] {
      SurvivorsTwice(names[1..], m, t);
      if Live(m, names[0].ci) {
        var rest := Survivors(names[1..], m);
        assert ([names[0]] + rest)[1..] == rest;
      }
    }
  }

  lemma PrefixTrans(a: seq<byte>, b: seq<byte>, c: seq<byte>)
    requires IsPrefix(a, b) && IsPrefix(b, c)
    ensures IsPrefix(a, c)
  {
    assert c[..|b|][..|a|] == c[..|a|];
  }

  lemma ClientTrans(c: Client, d: Client, e: Client)
    requires ClientShrunk(c, d) && ClientShrunk(d, e)
    ensures ClientShrunk(c, e)
  {
    PrefixTrans(c.queued, d.queued, e.queued);
  }

  lemma {:induction false} SubseqRefl(a: seq<nat>)
    ensures Subseq(a, a)
    decreases |a|
  {
    if a != [] { SubseqRefl(a[1..]); }
  }

  lemma {:induction false} SubseqTrans(c: seq<nat>, b: seq<nat>, a: seq<nat>)
    requires Subseq(c, b) && Subseq(b, a)
    ensures Subseq(c, a)
    decreases |a|, |b|
  {
    if c != [] {
      if b[0] == a[0] && Subseq(b[1..], a[1..]) {
        if c[0] == b[0] && Subseq(c[1..], b[1..]) { SubseqTrans(c[1..], b[1..], a[1..]); } else { SubseqTrans(c, b[1..], a[1..]); }
      } else {
        SubseqTrans(c, b, a[1..]);
      }
    }
  }

  lemma {:induction false} SubseqRemove(a: seq<nat>, k: nat)
    requires k < |a|
    ensures Subseq(a[..k] + a[k + 1..], a)
    decreases |a|
  {
    var b := a[..k] + a[k + 1..];
    if k == 0 {
      assert b == a[1..];
      SubseqRefl(b);
      if b != [] { assert Subseq(b, a[1..]); }
    } else {
      assert b[0] == a[0] && b[1..] == a[1..][..k - 1] + a[1..][k..];
      SubseqRemove(a[1..], k - 1);
    }
  }

  lemma {:induction false} SubseqIn(b: seq<nat>, a: seq<nat>, x: nat)
    requires Subseq(b, a) && x in b
    ensures x in a
    decreases |a|
  {
    if b[0] == a[0] && Subseq(b[1..], a[1..]) {
      if x != b[0] { SubseqIn(b[1..], a[1..], x); }
    } else {
      SubseqIn(b, a[1..], x);
    }
  }

  /** Who sat before whom still does. */
  lemma {:induction false} SubseqOrder(b: seq<nat>, a: seq<nat>, x: nat, y: nat)
    requires Subseq(b, a) && Distinct(a) && x in b && y in b
    ensures x in a && y in a && (Index(b, x) < Index(b, y) <==> Index(a, x) < Index(a, y))
    decreases |a|
  {
    SubseqIn(b, a, x);
    SubseqIn(b, a, y);
    if b[0] == a[0] && Subseq(b[1..], a[1..]) {
      if x != b[0] && y != b[0] { SubseqOrder(b[1..], a[1..], x, y); }
    } else {
      SubseqIn(b, a[1..], x);
      SubseqIn(b, a[1..], y);
      FirstOnce(a);
      SubseqOrder(b, a[1..], x, y);
    }
  }

  lemma FirstOnce(a: seq<nat>)
    requires Distinct(a) && a != []
    ensures a[0] !in a[1..]
  {
  }

  lemma RoomTrans(a: Room, b: Room, c: Room)
    requires RoomShrunk(a, b) && RoomShrunk(b, c)
    ensures RoomShrunk(a, c)
  {
    if c.used { SubseqTrans(c.members, b.members, a.members); }
  }

  lemma RoomSelf(a: Room)
    ensures RoomShrunk(a, a)
  {
    SubseqRefl(a.members);
  }

  lemma RoomThinner(a: Room, x: nat)
    requires x in a.members
    ensures RoomShrunk(a, a.(members := RemoveAt(a.members, Index(a.members, x))))
  {
    SubseqRemove(a.members, Index(a.members, x));
  }

  lemma ShrunkTrans(s: State, m: State, t: State, loose: set<int>)
    requires Shrunk(s, m, loose) && Shrunk(m, t, loose)
    ensures Shrunk(s, t, loose)
  {
    hide ClientShrunk, RoomShrunk, Survivors;
    forall i | 0 <= i < MAX_CLIENTS
      ensures ClientShrunk(s.clients[i], t.clients[i])
    {
      ClientTrans(s.clients[i], m.clients[i], t.clients[i]);
    }
    forall q | 0 <= q < MAX_ROOMS
      ensures RoomShrunk(s.rooms[q], t.rooms[q])
    {
      RoomTrans(s.rooms[q], m.rooms[q], t.rooms[q]);
    }
    ShrunkLive(m, t, loose);
    SurvivorsTwice(s.names, m, t);
  }

  lemma ShrunkLive(s: State, t: State, loose: set<int>)
    requires Shrunk(s, t, loose)
    ensures forall i :: Live(t, i) ==> Live(s, i)
    ensures Count(t) <= Count(s)
  {
    hide Survivors, RoomShrunk;
    forall i | Live(t, i)
      ensures Live(s, i)
    {
      assert ClientShrunk(s.clients[i], t.clients[i]);
    }
    Fewer(LiveSet(t), LiveSet(s));
  }

  lemma {:induction false} Fewer<T>(a: set<T>, b: set<T>)
    requires a <= b
    ensures |a| <= |b|
    decreases b
  {
    if x :| x in a {
      Fewer(a - {x}, b - {x});
      assert |a| == |a - {x}| + 1 && |b| == |b - {x}| + 1;
    } else {
      assert a == {};
    }
  }

  lemma ShrunkRefl(s: State, loose: set<int>)
    requires Shape(s) && NamesOk(s)
    ensures Shrunk(s, s, loose)
  {
    hide Survivors;
    forall k | 0 <= k < |s.names|
      ensures Live(s, s.names[k].ci)
    {
      assert EntryOk(s, s.names[k]);
    }
    AllSurvive(s.names, s);
    forall q | 0 <= q < MAX_ROOMS
      ensures RoomShrunk(s.rooms[q], s.rooms[q])
    {
      RoomSelf(s.rooms[q]);
    }
  }

  /** More may be in the middle of dissolution. */
  lemma ShrunkLess(s: State, t: State, loose: set<int>, fewer: set<int>)
    requires Shrunk(s, t, loose) && fewer <= loose
    ensures Shrunk(s, t, fewer)
  {
    hide Survivors, ClientShrunk, RoomShrunk;
  }

  // ---- the steps of a drop ------------------------------------------------

  /** Registry entries of other clients, in order. */
  function Without(names: seq<Entry>, ci: nat): seq<Entry> {
    if names == [] then []
    else if names[0].ci == ci then Without(names[1..], ci)
    else [names[0]] + Without(names[1..], ci)
  }

  lemma {:induction false} WithoutMember(names: seq<Entry>, ci: nat, e: Entry)
    ensures e in Without(names, ci) <==> e in names && e.ci != ci
    decreases |names|
  {
    if names != [] {
      WithoutMember(names[1..], ci, e);
    }
  }

  lemma {:induction false} WithoutIsSurvivors(names: seq<Entry>, s: State, ci: nat)
    requires forall k :: 0 <= k < |names| ==> (Live(s, names[k].ci) <==> names[k].ci != ci)
    ensures Survivors(names, s) == Without(names, ci)
    decreases |names|
  {
    if names != [] { WithoutIsSurvivors(names[1..], s, ci); }
  }

  lemma {:induction false} WithoutDistinct(names: seq<Entry>, ci: nat)
    requires forall j, k :: 0 <= j < k < |names| ==> names[j].name != names[k].name
    ensures forall j, k :: 0 <= j < k < |Without(names, ci)| ==> Without(names, ci)[j].name != Without(names, ci)[k].name
    decreases |names|
  {
    if names != [] {
      WithoutDistinct(names[1..], ci);
      var w := Without(names[1..], ci);
      forall k | 0 <= k < |w|
        ensures w[k].name != names[0].name
      {
        WithoutMember(names[1..], ci, w[k]);
      }
    }
  }

  function Index(m: seq<nat>, x: nat): (k: int)
    ensures x in m <==> k >= 0
    ensures k >= 0 ==> k < |m| && m[k] == x && x !in m[..k]
    ensures -1 <= k
  {
    if m == [] then -1
    else if m[0] == x then 0
    else
      var k := Index(m[1..], x);
      if k < 0 then -1 else k + 1
  }

  /** The members without the one at position `k`. */
  function RemoveAt(m: seq<nat>, k: nat): seq<nat>
    requires k < |m|
  {
    m[..k] + m[k + 1..]
  }

  lemma RemoveKeeps(m: seq<nat>, k: nat)
    requires k < |m| && Distinct(m)
    ensures Distinct(RemoveAt(m, k)) && |RemoveAt(m, k)| == |m| - 1
    ensures forall x :: x in RemoveAt(m, k) <==> x in m && x != m[k]
  {
    var n := RemoveAt(m, k);
    forall x | x in m && x != m[k]
      ensures x in n
    {
      var i :| 0 <= i < |m| && m[i] == x;
      assert if i < k then n[i] == x else n[i - 1] == x;
    }
  }

  /** Client `ci` gone: dead, out of the registry, out of its room. */
  function Removed(s: State, ci: nat): State
    requires Shape(s) && ci < MAX_CLIENTS
    requires var r := s.clients[ci].room; r >= 0 ==> r < MAX_ROOMS && ci in s.rooms[r].members
  {
    var r := s.clients[ci].room;
    State(
      s.clients[ci := s.clients[ci].(dead := true, room := -1)],
      if r < 0 then s.rooms
      else s.rooms[r := s.rooms[r].(members := RemoveAt(s.rooms[r].members, Index(s.rooms[r].members, ci)))],
      Without(s.names, ci))
  }

  lemma RemovedLive(s: State, ci: nat)
    requires Shape(s) && ci < MAX_CLIENTS
    requires var r := s.clients[ci].room; r >= 0 ==> r < MAX_ROOMS && ci in s.rooms[r].members
    ensures forall i :: Live(Removed(s, ci), i) <==> Live(s, i) && i != ci
  {
  }

  /** The room a live client is in lists it. */
  lemma Listed(s: State, max: nat, loose: set<int>, ci: nat)
    requires Base(s, max, loose) && Live(s, ci)
    ensures var r := s.clients[ci].room;
            r >= 0 ==> r < MAX_ROOMS && r !in loose && s.rooms[r].used && ci in s.rooms[r].members && RoomOk(s, max, r)
  {
    hide RoomOk, NamesOk, TxOk;
    assert SeatOk(s, loose, ci);
  }

  lemma RemovedSeats(s: State, max: nat, loose: set<int>, ci: nat)
    requires Base(s, max, loose) && Live(s, ci)
    requires var r := s.clients[ci].room; r >= 0 ==> r < MAX_ROOMS && ci in s.rooms[r].members && RoomOk(s, max, r)
    ensures SeatsOk(Removed(s, ci), loose)
  {
    hide RoomOk, NamesOk, TxOk, RoomsOk;
    var t, r := Removed(s, ci), s.clients[ci].room;
    if r >= 0 { RemoveKeepsIn(s, max, r, ci); }
    RemovedLive(s, ci);
    forall i | Live(t, i)
      ensures SeatOk(t, loose, i)
    {
      assert SeatOk(s, loose, i);
    }
  }

  lemma RemoveKeepsIn(s: State, max: nat, r: nat, ci: nat)
    requires r < |s.rooms| && RoomOk(s, max, r) && ci in s.rooms[r].members
    ensures var m := s.rooms[r].members;
            var n := RemoveAt(m, Index(m, ci));
            Distinct(n) && |n| == |m| - 1 && forall x :: x in n <==> x in m && x != ci
  {
    RemoveKeeps(s.rooms[r].members, Index(s.rooms[r].members, ci));
  }

  /** A client that is not a member of room `r` does not matter to it. */
  lemma RoomSame(s: State, t: State, max: nat, r: nat)
    requires r < |s.rooms| && r < |t.rooms| && RoomOk(s, max, r) && t.rooms[r].members == s.rooms[r].members
    requires |t.clients| == |s.clients|
    requires forall i :: 0 <= i < |s.clients| && s.clients[i].room == r && Live(s, i) ==>
               Live(t, i) && t.clients[i].room == r && t.clients[i].name == s.clients[i].name
    ensures RoomOk(t, max, r)
  {
  }

  lemma RemovedRooms(s: State, max: nat, loose: set<int>, ci: nat)
    requires Base(s, max, loose) && Live(s, ci)
    requires var r := s.clients[ci].room; r >= 0 ==> r < MAX_ROOMS && r !in loose && s.rooms[r].used && ci in s.rooms[r].members && RoomOk(s, max, r)
    ensures RoomsOk(Removed(s, ci), max, loose)
  {
    hide NamesOk, TxOk, SeatsOk, RoomOk;
    var t, mine := Removed(s, ci), s.clients[ci].room;
    RemovedLive(s, ci);
    forall r | 0 <= r < MAX_ROOMS && t.rooms[r].used && r !in loose
      ensures RoomOk(t, max, r)
    {
      if r == mine {
        RemoveKeepsIn(s, max, r, ci);
        ThinRoom(s, t, max, r, ci);
      } else {
        RoomSame(s, t, max, r);
      }
    }
  }

  lemma ThinRoom(s: State, t: State, max: nat, r: nat, ci: nat)
    requires Shape(s) && r < MAX_ROOMS && RoomOk(s, max, r) && ci < MAX_CLIENTS && s.clients[ci].room == r && ci in s.rooms[r].members
    requires t == Removed(s, ci)
    requires Distinct(t.rooms[r].members) && |t.rooms[r].members| <= |s.rooms[r].members|
    requires forall x :: x in t.rooms[r].members <==> x in s.rooms[r].members && x != ci
    ensures RoomOk(t, max, r)
  {
    var n, m := t.rooms[r].members, s.rooms[r].members;
    forall k | 0 <= k < |n|
      ensures Live(t, n[k]) && t.clients[n[k]].room == r && t.clients[n[k]].name != []
    {
      assert n[k] in m && n[k] != ci;
    }
  }

  lemma RemovedNames(s: State, max: nat, loose: set<int>, ci: nat)
    requires Base(s, max, loose) && Live(s, ci)
    requires var r := s.clients[ci].room; r >= 0 ==> r < MAX_ROOMS && ci in s.rooms[r].members
    ensures NamesOk(Removed(s, ci)) && TxOk(Removed(s, ci))
    ensures Removed(s, ci).names == Survivors(s.names, Removed(s, ci))
  {
    hide RoomOk, RoomsOk, SeatsOk, RemoveAt, Without, Survivors, TxFine;
    var t := Removed(s, ci);
    RemovedLive(s, ci);
    WithoutDistinct(s.names, ci);
    forall k | 0 <= k < |t.names|
      ensures EntryOk(t, t.names[k])
    {
      WithoutMember(s.names, ci, t.names[k]);
    }
    forall i | Live(t, i) && t.clients[i].name != []
      ensures Entry(t.clients[i].name, i) in t.names
    {
      WithoutMember(s.names, ci, Entry(t.clients[i].name, i));
    }
    forall k | 0 <= k < |s.names|
      ensures Live(t, s.names[k].ci) <==> s.names[k].ci != ci
    {
      assert EntryOk(s, s.names[k]);
    }
    WithoutIsSurvivors(s.names, t, ci);
  }

  /** Removing a client keeps everything but perhaps the size of its room. */
  lemma RemovedBase(s: State, max: nat, loose: set<int>, ci: nat)
    requires Base(s, max, loose) && Live(s, ci)
    ensures var r := s.clients[ci].room; r >= 0 ==> r < MAX_ROOMS && r !in loose && s.rooms[r].used && ci in s.rooms[r].members
    ensures Base(Removed(s, ci), max, loose)
    ensures Shrunk(s, Removed(s, ci), loose)
    ensures Count(Removed(s, ci)) < Count(s)
  {
    hide RoomOk, RoomsOk, SeatsOk, RemoveAt, NamesOk, TxOk, Survivors, RoomShrunk;
    Listed(s, max, loose, ci);
    RemovedSeats(s, max, loose, ci);
    RemovedRooms(s, max, loose, ci);
    RemovedNames(s, max, loose, ci);
    RemovedLive(s, ci);
    var t := Removed(s, ci);
    assert LiveSet(t) == LiveSet(s) - {ci};
    assert ci in LiveSet(s);
    forall q | 0 <= q < MAX_ROOMS
      ensures RoomShrunk(s.rooms[q], t.rooms[q])
    {
      if q == s.clients[ci].room { RoomThinner(s.rooms[q], ci); } else { RoomSelf(s.rooms[q]); }
    }
  }

  /** Every member of room `r` back to the lobby. */
  function Unroomed(s: State, r: nat): State
    requires Shape(s)
  {
    s.(clients := seq(MAX_CLIENTS, i requires 0 <= i < MAX_CLIENTS =>
         if Live(s, i) && s.clients[i].room == r then s.clients[i].(room := -1) else s.clients[i]))
  }

  lemma UnroomedBase(s: State, max: nat, loose: set<int>, r: nat)
    requires Base(s, max, loose) && r < MAX_ROOMS && s.rooms[r].used && r !in loose
    ensures Base(Unroomed(s, r), max, loose + {r})
    ensures Shrunk(s, Unroomed(s, r), loose + {r})
    ensures Count(Unroomed(s, r)) == Count(s)
  {
    hide RoomOk, Survivors, TxFine, ClientShrunk, RoomShrunk, RoomsOk, NamesOk, TxOk, SeatsOk;
    var t := Unroomed(s, r);
    forall q | 0 <= q < MAX_ROOMS
      ensures RoomShrunk(s.rooms[q], t.rooms[q])
    {
      RoomSelf(s.rooms[q]);
    }
    assert forall i :: Live(t, i) <==> Live(s, i);
    assert LiveSet(t) == LiveSet(s);
    UnroomedSeats(s, loose, r);
    UnroomedRooms(s, max, loose, r);
    UnroomedNames(s, r);
    forall i | 0 <= i < MAX_CLIENTS
      ensures ClientShrunk(s.clients[i], t.clients[i])
    {
      UnroomedClient(s.clients[i], t.clients[i]);
    }
  }

  lemma UnroomedClient(c: Client, d: Client)
    requires d == c || d == c.(room := -1)
    ensures ClientShrunk(c, d)
  {
  }

  lemma UnroomedSeats(s: State, loose: set<int>, r: nat)
    requires Shape(s) && SeatsOk(s, loose)
    ensures SeatsOk(Unroomed(s, r), loose + {r})
  {
    var t := Unroomed(s, r);
    forall i | Live(t, i)
      ensures SeatOk(t, loose + {r}, i)
    {
      assert SeatOk(s, loose, i);
    }
  }

  lemma UnroomedRooms(s: State, max: nat, loose: set<int>, r: nat)
    requires Shape(s) && RoomsOk(s, max, loose) && r < MAX_ROOMS && s.rooms[r].used
    ensures RoomsOk(Unroomed(s, r), max, loose + {r})
  {
    hide RoomOk;
    var t := Unroomed(s, r);
    forall q | 0 <= q < MAX_ROOMS && t.rooms[q].used && q !in loose + {r}
      ensures RoomOk(t, max, q)
    {
      RoomSame(s, t, max, q);
    }
  }

  lemma UnroomedNames(s: State, r: nat)
    requires Shape(s) && NamesOk(s) && TxOk(s)
    ensures NamesOk(Unroomed(s, r)) && TxOk(Unroomed(s, r))
    ensures Survivors(s.names, Unroomed(s, r)) == s.names
  {
    hide Survivors, TxFine;
    var t := Unroomed(s, r);
    forall i | Live(t, i)
      ensures TxFine(t.clients[i])
    {
      TxSame(s.clients[i], t.clients[i]);
    }
    forall k | 0 <= k < |s.names|
      ensures EntryOk(t, s.names[k])
    {
      assert EntryOk(s, s.names[k]);
    }
    AllSurvive(s.names, t);
  }

  lemma TxSame(c: Client, d: Client)
    requires TxFine(c) && d.tx == c.tx && d.queued == c.queued && d.sent == c.sent
    ensures TxFine(d)
  {
  }

  /** The room slot released. */
  function Closed(s: State, r: nat): State
    requires Shape(s) && r < MAX_ROOMS
  {
    s.(rooms := s.rooms[r := s.rooms[r].(used := false, members := [])])
  }

  lemma ClosedBase(s: State, max: nat, loose: set<int>, r: nat)
    requires Base(s, max, loose + {r}) && r < MAX_ROOMS && r !in loose
    ensures Base(Closed(s, r), max, loose) && Shrunk(s, Closed(s, r), loose)
    ensures Sizes(s, loose + {r}) ==> Sizes(Closed(s, r), loose)
    ensures Count(Closed(s, r)) == Count(s)
  {
    hide RoomOk, Survivors, TxFine, ClientShrunk;
    var t := Closed(s, r);
    forall q | 0 <= q < MAX_ROOMS
      ensures RoomShrunk(s.rooms[q], t.rooms[q])
    {
      RoomSelf(s.rooms[q]);
    }
    assert forall i :: Live(t, i) <==> Live(s, i);
    assert LiveSet(t) == LiveSet(s);
    forall i | Live(t, i)
      ensures SeatOk(t, loose, i)
    {
      assert SeatOk(s, loose + {r}, i);
    }
    forall q | 0 <= q < MAX_ROOMS && t.rooms[q].used && q !in loose
      ensures RoomOk(t, max, q)
    {
      RoomSame(s, t, max, q);
    }
    forall k | 0 <= k < |s.names|
      ensures EntryOk(t, s.names[k])
    {
      assert EntryOk(s, s.names[k]);
    }
    AllSurvive(s.names, t);
    forall i | 0 <= i < MAX_CLIENTS
      ensures ClientShrunk(s.clients[i], t.clients[i])
    {
      UnroomedClient(s.clients[i], t.clients[i]);
    }
  }

  // ---- queues and freed slots ---------------------------------------------

  function WithClient(s: State, i: nat, c: Client): State
    requires i < |s.clients|
  {
    s.(clients := s.clients[i := c])
  }

  /** A client whose queue moved on: nothing else about it changed. */
  predicate QueueMoved(c: Client, d: Client) {
    d == c.(tx := d.tx, queued := d.queued, sent := d.sent) && IsPrefix(c.queued, d.queued)
  }

  /** A change to a client that leaves its identity and its room alone keeps the tables as they were. */
  lemma ClientInv(s: State, max: nat, loose: set<int>, i: nat, d: Client)
    requires Inv(s, max, loose) && i < MAX_CLIENTS
    requires var c := s.clients[i];
             && d.name == c.name && d.room == c.room
             && (Live(s, i) <==> d.inUse && !d.dead) && (Live(s, i) ==> TxFine(d))
    ensures Inv(WithClient(s, i, d), max, loose)
    ensures Count(WithClient(s, i, d)) == Count(s)
  {
    hide RoomOk, Survivors, TxFine, ClientShrunk;
    var t := WithClient(s, i, d);
    assert forall k :: Live(t, k) <==> Live(s, k);
    assert LiveSet(t) == LiveSet(s);
    forall k | Live(t, k)
      ensures SeatOk(t, loose, k)
    {
      assert SeatOk(s, loose, k);
    }
    forall q | 0 <= q < MAX_ROOMS && t.rooms[q].used && q !in loose
      ensures RoomOk(t, max, q)
    {
      RoomSame(s, t, max, q);
    }
    forall k | 0 <= k < |s.names|
      ensures EntryOk(t, s.names[k])
    {
      assert EntryOk(s, s.names[k]);
    }
  }

  lemma ClientAlone(s: State, m: State, loose: set<int>, i: nat, d: Client)
    requires Shrunk(s, m, loose) && i < MAX_CLIENTS && ClientShrunk(s.clients[i], d)
    requires Live(m, i) <==> d.inUse && !d.dead
    ensures Shrunk(s, WithClient(m, i, d), loose)
  {
    hide Survivors, ClientShrunk;
    SameSurvivors(s.names, m, WithClient(m, i, d));
  }

  lemma {:induction false} SameSurvivors(names: seq<Entry>, s: State, t: State)
    requires forall k :: Live(t, k) <==> Live(s, k)
    ensures Survivors(names, t) == Survivors(names, s)
    decreases |names|
  {
    if names != [] { SameSurvivors(names[1..], s, t); }
  }

  lemma QueueInv(s: State, max: nat, loose: set<int>, i: nat, d: Client)
    requires Inv(s, max, loose) && Live(s, i) && QueueMoved(s.clients[i], d) && TxFine(d)
    ensures Inv(WithClient(s, i, d), max, loose) && Shrunk(s, WithClient(s, i, d), loose)
    ensures Count(WithClient(s, i, d)) == Count(s) && Live(WithClient(s, i, d), i)
  {
    hide Inv, Shrunk, TxFine;
    InvShape(s, max, loose);
    ClientInv(s, max, loose, i, d);
    ShrunkRefl(s, loose);
    ClientAlone(s, s, loose, i, d);
  }

  /** A slot freed after a cascade that killed its client. */
  lemma FreedInv(s: State, m: State, max: nat, loose: set<int>, i: nat)
    requires Inv(m, max, loose) && i < MAX_CLIENTS && m.clients[i].dead
    requires Shrunk(s, m, loose) && Live(s, i)
    ensures var t := WithClient(m, i, m.clients[i].(inUse := false));
            Inv(t, max, loose) && Shrunk(s, t, loose) && Count(t) == Count(m)
  {
    hide Inv, TxFine, Survivors, RoomShrunk;
    InvShape(m, max, loose);
    assert ClientShrunk(s.clients[i], m.clients[i]);
    ClientInv(m, max, loose, i, m.clients[i].(inUse := false));
    ClientAlone(s, m, loose, i, m.clients[i].(inUse := false));
  }

  lemma InvShape(s: State, max: nat, loose: set<int>)
    requires Inv(s, max, loose)
    ensures Shape(s) && NamesOk(s)
  {
  }

  /** A live client of the invariant has a consistent queue. */
  lemma InvTx(s: State, max: nat, loose: set<int>, i: nat)
    requires Inv(s, max, loose) && Live(s, i)
    ensures TxFine(s.clients[i])
  {
  }
}
