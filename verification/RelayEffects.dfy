/** What a send, a drop or a start changes, and what it leaves alone. */
module RelayEffects {
  import opened Basics
  import opened RelayState
  import opened RelayTables
  import opened RelayFrames

  lemma AllKept(names: seq<Entry>, ci: nat)
    ensures names == names[..|names|] + Without(names[|names|..], ci)
  {
    assert names[|names|..] == [];
  }

  /** One entry further down: deleted or kept, the table is its untouched front and the rest without the client. */
  lemma WithoutStep(names: seq<Entry>, ci: nat, i: nat)
    requires i < |names|
    ensures var w := names[..i + 1] + Without(names[i + 1..], ci);
            && w[i] == names[i]
            && (if names[i].ci == ci then w[..i] + w[i + 1..] else w) == names[..i] + Without(names[i..], ci)
  {
    assert names[i..][1..] == names[i + 1..];
    assert names[..i + 1] == names[..i] + [names[i]];
  }

  // ---- queues -------------------------------------------------------------

  /** `data` queued behind what is there. */
  function More(c: Client, data: seq<byte>): Client {
    c.(tx := c.tx + data, queued := c.queued + data)
  }

  /** The socket took the first `k` bytes. */
  function Less(c: Client, k: nat): Client
    requires k <= |c.tx|
  {
    c.(tx := c.tx[k..], sent := c.sent + c.tx[..k])
  }

  lemma QueueMore(c: Client, data: seq<byte>)
    requires TxFine(c) && |c.tx| + |data| <= TX_CAP
    ensures TxFine(More(c, data)) && QueueMoved(c, More(c, data))
  {
    assert (c.queued + data)[..|c.queued|] == c.queued;
  }

  lemma QueueLess(c: Client, k: nat)
    requires TxFine(c) && k <= |c.tx|
    ensures TxFine(Less(c, k)) && QueueMoved(c, Less(c, k))
  {
    assert c.tx == c.tx[..k] + c.tx[k..];
    assert c.queued[..|c.queued|] == c.queued;
  }

  /** Nothing changed but client `ci`'s queue, which `data` joined at the end. */
  ghost predicate Delivered(s: State, t: State, ci: nat, data: seq<byte>) {
    && ci < |s.clients| == |t.clients|
    && t == s.(clients := s.clients[ci := t.clients[ci]])
    && var c, d := s.clients[ci], t.clients[ci];
    && d == c.(tx := d.tx, sent := d.sent, queued := c.queued + data)
  }

  // ---- what the invariant gives ---------------------------------------------

  lemma BaseShape(s: State, max: nat, loose: set<int>)
    requires Base(s, max, loose)
    ensures Shape(s)
  {
  }

  lemma Shapes(s: State, max: nat, loose: set<int>)
    requires Inv(s, max, loose)
    ensures Base(s, max, loose) && Shape(s) && Sizes(s, loose)
  {
  }

  lemma Whole(s: State, max: nat, loose: set<int>)
    requires Base(s, max, loose) && Sizes(s, loose)
    ensures Inv(s, max, loose)
  {
  }

  lemma MembersSeen(s: State, max: nat, loose: set<int>, r: nat)
    requires Base(s, max, loose) && r < MAX_ROOMS && s.rooms[r].used && r !in loose
    ensures forall k :: 0 <= k < |s.rooms[r].members| ==>
              Live(s, s.rooms[r].members[k]) && s.clients[s.rooms[r].members[k]].room == r
    ensures |s.rooms[r].members| <= max && Distinct(s.rooms[r].members)
  {
    assert RoomOk(s, max, r);
  }

  lemma MembersExact(s: State, max: nat, loose: set<int>, r: nat)
    requires Base(s, max, loose) && r < MAX_ROOMS && s.rooms[r].used && r !in loose
    ensures forall k :: 0 <= k < |s.rooms[r].members| ==> s.rooms[r].members[k] < MAX_CLIENTS
    ensures forall i :: 0 <= i < MAX_CLIENTS ==> (i in s.rooms[r].members <==> Live(s, i) && s.clients[i].room == r)
  {
    assert RoomOk(s, max, r);
    forall i | Live(s, i) && s.clients[i].room == r
      ensures i in s.rooms[r].members
    {
      assert SeatOk(s, loose, i);
    }
  }

  lemma Refilled(s: State, max: nat, loose: set<int>, r: nat)
    requires Base(s, max, loose) && Sizes(s, loose + {r}) && r < MAX_ROOMS && |s.rooms[r].members| >= 2
    ensures Inv(s, max, loose)
  {
    hide RoomsOk, SeatsOk, NamesOk, TxOk;
  }

  lemma UnroomedSizes(s: State, max: nat, loose: set<int>, r: nat)
    requires Shape(s) && Base(Unroomed(s, r), max, loose + {r}) && Sizes(s, loose + {r})
    ensures Inv(Unroomed(s, r), max, loose + {r})
  {
    hide Base;
  }

  /** Only the room of the client that left can have become too small. */
  lemma RemovedSizes(s: State, max: nat, loose: set<int>, ci: nat)
    requires Inv(s, max, loose) && Live(s, ci)
    requires var r := s.clients[ci].room; r >= 0 ==> r < MAX_ROOMS && ci in s.rooms[r].members
    ensures var r := s.clients[ci].room; Sizes(Removed(s, ci), if r >= 0 then loose + {r} else loose)
  {
    hide Base;
    BaseShape(s, max, loose);
  }

  lemma RemovedParts(s: State, ci: nat, t: State)
    requires Shape(s) && ci < MAX_CLIENTS
    requires var r := s.clients[ci].room; r >= 0 ==> r < MAX_ROOMS && ci in s.rooms[r].members
    requires t.clients == s.clients[ci := s.clients[ci].(dead := true, room := -1)] && t.names == Without(s.names, ci)
    requires var r := s.clients[ci].room;
             t.rooms == if r < 0 then s.rooms
                        else s.rooms[r := s.rooms[r].(members := RemoveAt(s.rooms[r].members, Index(s.rooms[r].members, ci)))]
    ensures t == Removed(s, ci)
  {
  }

  lemma StillDead(s: State, t: State, loose: set<int>, ci: nat)
    requires Shrunk(s, t, loose) && ci < |s.clients| && s.clients[ci].dead
    ensures ci < |t.clients| && t.clients[ci].dead
  {
    assert ClientShrunk(s.clients[ci], t.clients[ci]);
  }

  lemma StillClosed(s: State, t: State, loose: set<int>, r: nat)
    requires Shrunk(s, t, loose) && r < MAX_ROOMS && !s.rooms[r].used
    ensures !t.rooms[r].used
  {
    assert RoomShrunk(s.rooms[r], t.rooms[r]);
  }

  lemma SameRoom(s: State, t: State, loose: set<int>, r: nat)
    requires Shrunk(s, t, loose) && r < MAX_ROOMS
    ensures t.rooms[r].started == s.rooms[r].started || !t.rooms[r].used
  {
    assert RoomShrunk(s.rooms[r], t.rooms[r]);
  }

  lemma StillSeen(s: State, t: State, loose: set<int>, ci: nat)
    requires Shrunk(s, t, loose) && ci < |s.clients| && Seen(s.clients[ci])
    ensures ci < |t.clients| && Seen(t.clients[ci])
  {
    assert ClientShrunk(s.clients[ci], t.clients[ci]);
  }

  // ---- relaying -----------------------------------------------------------

  ghost predicate Got(c: Client, d: Client, data: seq<byte>) {
    d == c.(tx := d.tx, sent := d.sent, queued := c.queued + data)
  }

  /** `data` joined the queues of the clients `m` other than `ci`, and nothing else changed. */
  ghost predicate FannedOut(s: State, t: State, m: seq<nat>, ci: nat, data: seq<byte>) {
    && t.rooms == s.rooms && t.names == s.names && |t.clients| == |s.clients|
    && forall i :: 0 <= i < |s.clients| ==>
         if i in m && i != ci then Got(s.clients[i], t.clients[i], data) else t.clients[i] == s.clients[i]
  }

  lemma FanStart(s: State, max: nat, r: nat, ci: nat, data: seq<byte>)
    requires Base(s, max, {}) && r < MAX_ROOMS && s.rooms[r].used
    ensures FannedOut(s, s, s.rooms[r].members[..0], ci, data)
    ensures Distinct(s.rooms[r].members)
    ensures forall k :: 0 <= k < |s.rooms[r].members| ==> Live(s, s.rooms[r].members[k]) && s.clients[s.rooms[r].members[k]].room == r
  {
    assert RoomOk(s, max, r);
  }

  /** As long as the room is used, the next member is as it was: live, in the room, still to be served. */
  lemma FanMember(s: State, t: State, r: nat, m: seq<nat>, i: nat, ci: nat, data: seq<byte>)
    requires i < |m| && Distinct(m) && r < |s.rooms| && r < |t.rooms| && s.rooms[r].started
    requires Live(s, m[i]) && s.clients[m[i]].room == r
    requires t.rooms[r].used ==> FannedOut(s, t, m[..i], ci, data)
    ensures t.rooms[r].used ==> Live(t, m[i]) && t.clients[m[i]] == s.clients[m[i]] && t.rooms[r].started
  {
  }

  lemma StillUsed(s: State, t: State, loose: set<int>, r: nat)
    requires Shrunk(s, t, loose) && r < MAX_ROOMS
    ensures t.rooms[r].used ==> s.rooms[r].used
  {
    assert RoomShrunk(s.rooms[r], t.rooms[r]);
  }

  lemma FanStep(s: State, t: State, u: State, r: nat, m: seq<nat>, i: nat, ci: nat, data: seq<byte>)
    requires i < |m| && Distinct(m) && r < |t.rooms| && r < |u.rooms| && m[i] != ci
    requires t.rooms[r].used ==> FannedOut(s, t, m[..i], ci, data) && Live(t, m[i]) && t.clients[m[i]] == s.clients[m[i]]
    requires u.rooms[r].used ==> t.rooms[r].used && Delivered(t, u, m[i], data)
    ensures u.rooms[r].used ==> FannedOut(s, u, m[..i + 1], ci, data)
  {
    assert m[..i + 1] == m[..i] + [m[i]];
  }

  lemma FanSkip(s: State, t: State, r: nat, m: seq<nat>, i: nat, ci: nat, data: seq<byte>)
    requires i < |m| && m[i] == ci && r < |t.rooms|
    requires t.rooms[r].used ==> FannedOut(s, t, m[..i], ci, data)
    ensures t.rooms[r].used ==> FannedOut(s, t, m[..i + 1], ci, data)
  {
    assert m[..i + 1] == m[..i] + [m[i]];
  }

  // ---- starting -----------------------------------------------------------

  /** The first `k` of the clients `m` each got their own frame, and nothing else changed. */
  ghost predicate Dealt(s: State, t: State, m: seq<nat>, k: nat, frames: seq<seq<byte>>)
    requires k <= |m| == |frames|
  {
    && t.rooms == s.rooms && t.names == s.names && |t.clients| == |s.clients|
    && (forall j :: 0 <= j < k ==> m[j] < |s.clients| && Got(s.clients[m[j]], t.clients[m[j]], frames[j]))
    && (forall i :: 0 <= i < |s.clients| && i !in m[..k] ==> t.clients[i] == s.clients[i])
  }

  lemma DealStart(s: State, m: seq<nat>, frames: seq<seq<byte>>)
    requires |m| == |frames|
    ensures Dealt(s, s, m, 0, frames)
  {
  }

  lemma DealMember(s: State, t: State, r: nat, m: seq<nat>, i: nat, frames: seq<seq<byte>>)
    requires i < |m| == |frames| && Distinct(m) && r < |s.rooms| && r < |t.rooms| && s.rooms[r].started
    requires Live(s, m[i]) && s.clients[m[i]].room == r
    requires t.rooms[r].used ==> Dealt(s, t, m, i, frames)
    ensures t.rooms[r].used ==> Live(t, m[i]) && t.clients[m[i]] == s.clients[m[i]] && t.rooms[r].started
  {
  }

  lemma DealStep(s: State, t: State, u: State, r: nat, m: seq<nat>, i: nat, frames: seq<seq<byte>>)
    requires i < |m| == |frames| && Distinct(m) && r < |t.rooms| && r < |u.rooms|
    requires t.rooms[r].used ==> Dealt(s, t, m, i, frames) && Live(t, m[i]) && t.clients[m[i]] == s.clients[m[i]]
    requires u.rooms[r].used ==> t.rooms[r].used && Delivered(t, u, m[i], frames[i])
    ensures u.rooms[r].used ==> Dealt(s, u, m, i + 1, frames)
  {
    assert m[..i + 1] == m[..i] + [m[i]];
  }

  /** `f` joined the queue of client `i`. */
  ghost predicate Grew(s: State, t: State, i: nat, f: seq<byte>) {
    i < |s.clients| && i < |t.clients| && t.clients[i].queued == s.clients[i].queued + f
  }

  /** Host and guest each got a START under one seed: their own role, the other's name. */
  ghost predicate PairDealt(s: State, t: State, host: nat, guest: nat, seed: nat, delay: byte) {
    && host < |s.clients| && guest < |s.clients|
    && exists f, g :: Grew(s, t, host, f) && PairSaid(f, 0, seed, delay, s.clients[guest].name)
                      && Grew(s, t, guest, g) && PairSaid(g, 1, seed, delay, s.clients[host].name)
  }

  lemma PairHeard(s: State, x: State, t: State, host: nat, guest: nat, seed: nat, delay: byte)
    requires host < |s.clients| && guest < |s.clients| && |x.clients| == |s.clients| && seed < 0x1_0000
    requires x.clients[host].queued == s.clients[host].queued && x.clients[guest].queued == s.clients[guest].queued
    requires Dealt(x, t, [host, guest], 2, PairFrames(seed, delay, s.clients[host].name, s.clients[guest].name))
    ensures PairDealt(s, t, host, guest, seed, delay)
  {
    hide PairSaid;
    PairBytes(seed, delay, s.clients[host].name, s.clients[guest].name);
    var fs, m := PairFrames(seed, delay, s.clients[host].name, s.clients[guest].name), [host, guest];
    assert Got(x.clients[m[0]], t.clients[m[0]], fs[0]) && Got(x.clients[m[1]], t.clients[m[1]], fs[1]);
    assert Grew(s, t, host, fs[0]) && Grew(s, t, guest, fs[1]);
  }

  /** Every member got a START under one seed: its own seat, and everybody's names by seat. */
  ghost predicate RoomDealt(s: State, t: State, m: seq<nat>, seed: nat, delay: byte) {
    forall k :: 0 <= k < |m| ==> SeatDealt(s, t, m, k, seed, delay)
  }

  ghost predicate SeatDealt(s: State, t: State, m: seq<nat>, k: nat, seed: nat, delay: byte)
    requires k < |m|
  {
    exists f :: Grew(s, t, m[k], f) && StartSaid(f, k, seed, delay, s.clients, m)
  }

  lemma RoomHeard(s: State, x: State, t: State, m: seq<nat>, seed: nat, delay: byte)
    requires x.clients == s.clients
    requires Dealt(x, t, m, |m|, StartFrames(m, seed, delay, Roster(s.clients, m)))
    ensures RoomDealt(s, t, m, seed, delay)
  {
    hide StartSaid, Roster;
    var fs := StartFrames(m, seed, delay, Roster(s.clients, m));
    forall k | 0 <= k < |m|
      ensures SeatDealt(s, t, m, k, seed, delay)
    {
      StartBytes(s.clients, m, seed, delay, k);
      assert Grew(s, t, m[k], fs[k]);
    }
  }

  // ---- the registry -------------------------------------------------------

  lemma EntryNamed(s: State, k: nat)
    requires NamesOk(s) && k < |s.names|
    ensures Live(s, s.names[k].ci) && s.clients[s.names[k].ci].name == s.names[k].name != []
  {
    assert EntryOk(s, s.names[k]);
  }

  lemma {:induction false} WithoutAppend(a: seq<Entry>, b: seq<Entry>, ci: nat)
    ensures Without(a + b, ci) == Without(a, ci) + Without(b, ci)
    decreases |a|
  {
    if a == [] {
      assert a + b == b;
    } else {
      assert (a + b)[1..] == a[1..] + b;
      WithoutAppend(a[1..], b, ci);
    }
  }

  lemma WithoutLast(names: seq<Entry>, ci: nat, i: nat)
    requires i < |names|
    ensures Without(names[..i + 1], ci) == Without(names[..i], ci) + if names[i].ci == ci then [] else [names[i]]
  {
    assert names[..i + 1] == names[..i] + [names[i]];
    WithoutAppend(names[..i], [names[i]], ci);
    assert [names[i]][1..] == [];
  }

  lemma ListingFrom(names: seq<Entry>, ci: nat)
    ensures Without(names[..0], ci) == []
  {
  }

  lemma ListingIs(names: seq<Entry>, ci: nat, i: nat, es: seq<Entry>)
    requires i <= |names| && es == Without(names[..i], ci) && |es| <= LOBBY_ENTRIES
    requires i == |names| || |es| == LOBBY_ENTRIES
    ensures es == Listing(names, ci)
  {
    assert names == names[..i] + names[i..];
    WithoutAppend(names[..i], names[i..], ci);
  }

  /** Once the holder of a name is dead, nobody has it. */
  lemma NameGone(s: State, t: State, name: Name, k: nat)
    requires NamesOk(s) && NamesOk(t) && Shrunk(s, t, {}) && k < |s.names| && s.names[k].name == name && !Live(t, s.names[k].ci)
    ensures forall j :: 0 <= j < |t.names| ==> t.names[j].name != name
  {
    forall j | 0 <= j < |t.names|
      ensures t.names[j].name != name
    {
      SurvivorMember(s.names, t, t.names[j]);
      var i :| 0 <= i < |s.names| && s.names[i] == t.names[j];
      assert EntryOk(t, t.names[j]);
    }
  }

  lemma {:induction false} SurvivorMember(names: seq<Entry>, s: State, e: Entry)
    requires e in Survivors(names, s)
    ensures e in names
    decreases |names|
  {
    if names != [] && e in Survivors(names[1..], s) { SurvivorMember(names[1..], s, e); }
  }

  lemma AliveOrDead(s: State, t: State, max: nat, loose: set<int>, ci: nat)
    requires Shrunk(s, t, loose) && Live(s, ci)
    ensures Live(t, ci) <==> !t.clients[ci].dead
  {
    assert ClientShrunk(s.clients[ci], t.clients[ci]);
  }

  lemma OnlyHolder(s: State, name: Name, k: int, ci: nat)
    requires NamesOk(s) && k == Find(s.names, name) && (k >= 0 ==> s.names[k].ci == ci)
    ensures forall j :: 0 <= j < |s.names| && s.names[j].name == name ==> s.names[j].ci == ci
  {
  }

  lemma RenamedClient(s: State, ci: nat, name: Name)
    requires Live(s, ci)
    ensures Live(Renamed(s, ci, name), ci) && Renamed(s, ci, name).clients[ci].name == name
  {
  }

  lemma NameKept(s: State, t: State, loose: set<int>, ci: nat)
    requires Shrunk(s, t, loose) && ci < |s.clients|
    ensures ci < |t.clients| && t.clients[ci].name == s.clients[ci].name
  {
    assert ClientShrunk(s.clients[ci], t.clients[ci]);
  }

  /** A client's current name leads to its own entry, its only one. */
  lemma AliasOf(s: State, ci: nat, i: int)
    requires NamesOk(s) && Live(s, ci) && s.clients[ci].name != [] && i == Find(s.names, s.clients[ci].name)
    ensures 0 <= i < |s.names| && s.names[i].ci == ci
    ensures forall k :: 0 <= k < |s.names| && k != i ==> s.names[k].ci != ci
  {
    var e := Entry(s.clients[ci].name, ci);
    var k :| 0 <= k < |s.names| && s.names[k] == e;
    EntryClients(s);
  }

  lemma AliasNone(s: State, ci: nat, name: Name)
    requires NamesOk(s) && Live(s, ci) && (s.clients[ci].name == [] || s.clients[ci].name == name)
    ensures s.clients[ci].name != name ==> Without(s.names, ci) == s.names
  {
    if s.clients[ci].name != name {
      forall k | 0 <= k < |s.names|
        ensures s.names[k].ci != ci
      {
        assert EntryOk(s, s.names[k]);
      }
      NoEntry(s.names, ci);
    }
  }

  lemma {:induction false} WithoutShorter(names: seq<Entry>, ci: nat)
    ensures |Without(names, ci)| <= |names|
    ensures (exists k :: 0 <= k < |names| && names[k].ci == ci) ==> |Without(names, ci)| < |names|
    decreases |names|
  {
    if names != [] { WithoutShorter(names[1..], ci); }
  }

  lemma NameSlot(s: State, ns: seq<Entry>, name: Name, ci: nat, i: int)
    requires Shape(s) && NamesOk(s) && Live(s, ci) && name != []
    requires forall k :: 0 <= k < |s.names| && s.names[k].name == name ==> s.names[k].ci == ci
    requires ns == (if s.clients[ci].name == name then s.names else Without(s.names, ci)) && i == Find(ns, name)
    ensures if s.clients[ci].name == name then i >= 0 && ns[i := Entry(name, ci)] == ns else i < 0 && |ns| < MAX_CLIENTS
  {
    if s.clients[ci].name == name {
      AliasOf(s, ci, i);
    } else {
      if i >= 0 { WithoutMember(s.names, ci, ns[i]); }
      WithoutShorter(s.names, ci);
      if forall k :: 0 <= k < |s.names| ==> s.names[k].ci != ci {
        RoomForName(s, ci);
      } else {
        NamesFit(s);
      }
    }
  }

  // ---- joining ------------------------------------------------------------

  /** The registry entry a JOIN asks for: at most eight bytes, copied and compared as a C string. */
  function Sought(names: seq<Entry>, payload: seq<byte>): (k: int)
    ensures -1 <= k < |names|
  {
    var raw := Stripped(payload);
    if |raw| > 8 then -1 else Find(names, CString(raw))
  }

  /** Whether client `ci` can join the client of entry `k`: someone else, waiting or, in v2, in a forming room with a seat left. */
  predicate JoinableAt(s: State, v1: bool, max: nat, ci: nat, k: int)
    requires Shape(s) && k < |s.names|
  {
    && ci < MAX_CLIENTS && s.clients[ci].name != [] && s.clients[ci].room < 0
    && k >= 0 && s.names[k].ci != ci && s.names[k].ci < MAX_CLIENTS
    && var r := s.clients[s.names[k].ci].room;
    && (r < 0 || (!v1 && r < MAX_ROOMS && !s.rooms[r].started && |s.rooms[r].members| < max))
  }

  predicate Joinable(s: State, v1: bool, max: nat, ci: nat, payload: seq<byte>)
    requires Shape(s)
  {
    JoinableAt(s, v1, max, ci, Sought(s.names, payload))
  }

  lemma TargetRoom(s: State, max: nat, ci: nat)
    requires Inv(s, max, {}) && Live(s, ci)
    ensures s.clients[ci].room < MAX_ROOMS && (s.clients[ci].room >= 0 ==> s.rooms[s.clients[ci].room].used)
  {
    assert SeatOk(s, {}, ci);
  }

  lemma Thinner(s: State, max: nat, r: nat)
    requires Inv(s, max, {}) && r < MAX_ROOMS && s.rooms[r].used
    ensures Base(s, max, {}) && Sizes(s, {r}) && |s.rooms[r].members| >= 2
  {
    hide Base;
  }

  lemma UsedRoom(s: State, max: nat, r: nat)
    requires Inv(s, max, {}) && r < MAX_ROOMS && s.rooms[r].members != []
    ensures s.rooms[r].used
  {
  }

  lemma GoRoom(s: State, max: nat, ci: nat)
    requires Inv(s, max, {}) && Live(s, ci) && s.clients[ci].room >= 0
    ensures var r := s.clients[ci].room;
            r < MAX_ROOMS && s.rooms[r].used && 2 <= |s.rooms[r].members| <= max
            && (Index(s.rooms[r].members, ci) == 0 <==> s.rooms[r].members[0] == ci)
  {
    assert SeatOk(s, {}, ci);
    assert RoomOk(s, max, s.clients[ci].room);
  }

  // ---- who is left alone --------------------------------------------------

  /** A live client that is none of `m` and shares a room with none of them. */
  ghost predicate Apart(s: State, m: seq<nat>, i: int) {
    && Live(s, i) && i !in m
    && forall k :: 0 <= k < |m| && m[k] < |s.clients| && s.clients[m[k]].room >= 0 ==>
         s.clients[m[k]].room != s.clients[i].room
  }

  ghost predicate Elsewhere(s: State, m: seq<nat>, r: int) {
    forall k :: 0 <= k < |m| && m[k] < |s.clients| ==> s.clients[m[k]].room != r
  }

  /** Clients apart from `m`, queues included, and rooms none of `m` is in are as they were. */
  ghost predicate Spared(s: State, t: State, m: seq<nat>) {
    && |t.clients| == |s.clients| && |t.rooms| == |s.rooms|
    && (forall i :: Apart(s, m, i) ==> t.clients[i] == s.clients[i])
    && (forall r :: 0 <= r < |s.rooms| && s.rooms[r].used && Elsewhere(s, m, r) ==> t.rooms[r] == s.rooms[r])
  }

  /** Live clients outside room `r`, and the other rooms, are as they were. */
  ghost predicate RoomSpared(s: State, t: State, r: int) {
    && |t.clients| == |s.clients| && |t.rooms| == |s.rooms|
    && (forall i :: Live(s, i) && s.clients[i].room != r ==> t.clients[i] == s.clients[i])
    && (forall q :: 0 <= q < |s.rooms| && s.rooms[q].used && q != r ==> t.rooms[q] == s.rooms[q])
  }

  lemma SparedRefl(s: State, m: seq<nat>)
    ensures Spared(s, s, m)
  {
  }

  /** A step that touches only one of `m` and its room. */
  lemma SparedStep(s: State, t: State, u: State, loose: set<int>, m: seq<nat>, i: nat)
    requires Shrunk(s, t, loose) && Spared(s, t, m) && i < |m| && m[i] < MAX_CLIENTS && Spared(t, u, [m[i]])
    ensures Spared(s, u, m)
  {
    hide Survivors, RoomShrunk;
    assert ClientShrunk(s.clients[m[i]], t.clients[m[i]]);
    forall j | Apart(s, m, j)
      ensures u.clients[j] == s.clients[j]
    {
      assert Apart(t, [m[i]], j);
    }
    forall r | 0 <= r < |s.rooms| && s.rooms[r].used && Elsewhere(s, m, r)
      ensures u.rooms[r] == s.rooms[r]
    {
      assert Elsewhere(t, [m[i]], r);
    }
  }

  /** Touching members of room `r` touches nobody outside it. */
  lemma GroupSpared(s: State, t: State, u: State, m: seq<nat>, r: int)
    requires r >= 0 && RoomSpared(s, t, r) && Spared(t, u, m)
    requires forall k :: 0 <= k < |m| ==> Live(s, m[k]) && s.clients[m[k]].room == r
    requires forall k :: 0 <= k < |m| ==> t.clients[m[k]].room == r || t.clients[m[k]].room < 0
    ensures RoomSpared(s, u, r)
  {
    forall j | Live(s, j) && s.clients[j].room != r
      ensures u.clients[j] == s.clients[j]
    {
      assert Apart(t, m, j);
    }
    forall q | 0 <= q < |s.rooms| && s.rooms[q].used && q != r
      ensures u.rooms[q] == s.rooms[q]
    {
      if q < 0 { assert false; }
      assert Elsewhere(t, m, q);
    }
  }

  /** Outside the room of `ci` is apart from `ci`. */
  lemma RoomIsOne(s: State, t: State, ci: nat, r: int)
    requires r >= 0 && RoomSpared(s, t, r) && ci < |s.clients| && s.clients[ci].room == r
    ensures Spared(s, t, [ci])
  {
    forall j | Apart(s, [ci], j)
      ensures t.clients[j] == s.clients[j]
    {
      assert [ci][0] == ci;
    }
    forall q | 0 <= q < |s.rooms| && s.rooms[q].used && Elsewhere(s, [ci], q)
      ensures t.rooms[q] == s.rooms[q]
    {
      assert [ci][0] == ci;
    }
  }

  lemma RoomSparedRefl(s: State, r: int)
    ensures RoomSpared(s, s, r)
  {
  }

  lemma DeliveredSpared(s: State, t: State, ci: nat, data: seq<byte>)
    requires Delivered(s, t, ci, data)
    ensures Spared(s, t, [ci])
  {
    assert [ci][0] == ci;
  }

  lemma UnroomedSpared(s: State, r: nat)
    requires Shape(s)
    ensures RoomSpared(s, Unroomed(s, r), r)
    ensures forall i :: Live(s, i) && s.clients[i].room == r ==> Unroomed(s, r).clients[i].room == -1
  {
  }

  lemma ClosedSpared(s: State, t: State, r: nat)
    requires RoomSpared(s, t, r) && Shape(t) && r < MAX_ROOMS
    ensures RoomSpared(s, Closed(t, r), r)
  {
  }

  /** A client gone touches its own room only. */
  lemma RemovedSpared(s: State, ci: nat)
    requires Shape(s) && Live(s, ci)
    requires var r := s.clients[ci].room; r >= 0 ==> r < MAX_ROOMS && ci in s.rooms[r].members
    ensures Spared(s, Removed(s, ci), [ci])
  {
    hide RemoveAt, Without;
    var t, m := Removed(s, ci), [ci];
    assert m[0] == ci;
    forall r | 0 <= r < |s.rooms| && s.rooms[r].used && Elsewhere(s, m, r)
      ensures t.rooms[r] == s.rooms[r]
    {
      assert s.clients[m[0]].room != r;
    }
  }

  /** First the client, then its room, then the slot: only its room-mates can tell. */
  lemma DropSpared(s: State, t: State, u: State, ci: nat)
    requires Shape(s) && Live(s, ci) && s.clients[ci].room >= 0 && s.clients[ci].room < MAX_ROOMS
    requires ci in s.rooms[s.clients[ci].room].members
    requires t == Removed(s, ci) && RoomSpared(t, u, s.clients[ci].room)
    ensures Spared(s, u, [ci])
  {
    hide RemoveAt, Without;
    var m, r := [ci], s.clients[ci].room;
    RemovedSpared(s, ci);
    RemovedLive(s, ci);
    assert m[0] == ci;
    forall j | Apart(s, m, j)
      ensures u.clients[j] == s.clients[j]
    {
      assert s.clients[m[0]].room != s.clients[j].room;
    }
    forall q | 0 <= q < |s.rooms| && s.rooms[q].used && Elsewhere(s, m, q)
      ensures u.rooms[q] == s.rooms[q]
    {
      assert s.clients[m[0]].room != q;
    }
  }

  function Freed(s: State, ci: nat): State
    requires ci < |s.clients|
  {
    WithClient(s, ci, s.clients[ci].(inUse := false))
  }

  lemma FreedSpared(s: State, t: State, ci: nat)
    requires Spared(s, t, [ci]) && ci < |s.clients|
    ensures Spared(s, Freed(t, ci), [ci])
  {
    assert [ci][0] == ci;
  }

  // ---- what a cascade does when it goes no further --------------------------

  const NOBODY: nat := MAX_CLIENTS

  ghost predicate AllLive(s: State, m: seq<nat>) {
    forall k :: 0 <= k < |m| ==> Live(s, m[k])
  }

  lemma FanNone(s: State, m: seq<nat>, data: seq<byte>)
    ensures FannedOut(s, s, m[..0], NOBODY, data)
  {
  }

  lemma FanAllStep(s: State, t: State, u: State, loose: set<int>, m: seq<nat>, i: nat, data: seq<byte>)
    requires i < |m| && Shrunk(t, u, loose) && Distinct(m) && m[i] < MAX_CLIENTS && Shape(s)
    requires AllLive(t, m) ==> FannedOut(s, t, m[..i], NOBODY, data)
    requires Live(u, m[i]) ==> Delivered(t, u, m[i], data)
    ensures AllLive(u, m) ==> FannedOut(s, u, m[..i + 1], NOBODY, data)
  {
    hide Survivors, RoomShrunk, Shrunk;
    ShrunkLive(t, u, loose);
    assert m[..i + 1] == m[..i] + [m[i]];
    if AllLive(u, m) {
      assert AllLive(t, m);
      assert m[i] !in m[..i];
    }
  }

  lemma FannedClosed(s: State, t: State, r: nat, m: seq<nat>, data: seq<byte>)
    requires Shape(s) && Shape(t) && r < MAX_ROOMS && FannedOut(s, t, m, NOBODY, data)
    ensures FannedOut(Closed(s, r), Closed(t, r), m, NOBODY, data)
  {
  }

  /** What the room left behind tells its remaining members `m`, all of whom survive it. */
  ghost predicate VacatedTo(s: State, t: State, v1: bool, r: nat, seat: int, name: Name)
    requires Shape(s) && r < MAX_ROOMS
  {
    var m := s.rooms[r].members;
    if v1 || s.rooms[r].started then FannedOut(Closed(Unroomed(s, r), r), t, m, NOBODY, LeftFrame(v1, seat, name))
    else if seat == 0 || |m| < 2 then FannedOut(Closed(Unroomed(s, r), r), t, m, NOBODY, GoneFrame())
    else FannedOut(s, t, m, NOBODY, RosterFrame(s, m))
  }

  /** A drop that costs no one else: the client gone, its room told, its slot free. */
  ghost predicate DroppedTo(s: State, t: State, v1: bool, ci: nat)
    requires Shape(s) && Live(s, ci)
    requires var r := s.clients[ci].room; r >= 0 ==> r < MAX_ROOMS && ci in s.rooms[r].members
  {
    var x, r := Removed(s, ci), s.clients[ci].room;
    if r < 0 then t == Freed(x, ci)
    else
      && ci < |t.clients| && !t.clients[ci].inUse
      && VacatedTo(x, WithClient(t, ci, t.clients[ci].(inUse := true)), v1, r, Index(s.rooms[r].members, ci), s.clients[ci].name)
  }

  lemma FreedBack(s: State, ci: nat)
    requires ci < |s.clients| && s.clients[ci].inUse
    ensures var t := Freed(s, ci); WithClient(t, ci, t.clients[ci].(inUse := true)) == s
  {
  }

  /** Everyone in `m` whose socket is broken is gone. */
  ghost predicate Doomed(s: State, m: seq<nat>, broken: set<nat>) {
    forall k :: 0 <= k < |m| && m[k] in broken ==> !Live(s, m[k])
  }

  lemma DoomedStep(t: State, u: State, loose: set<int>, m: seq<nat>, i: nat, broken: set<nat>)
    requires i < |m| && Shrunk(t, u, loose) && Doomed(t, m[..i], broken) && (m[i] in broken ==> !Live(u, m[i]))
    ensures Doomed(u, m[..i + 1], broken)
  {
    ShrunkLive(t, u, loose);
    var n := m[..i + 1];
    forall k | 0 <= k < |n| && n[k] in broken
      ensures !Live(u, n[k])
    {
      if k < i { assert m[..i][k] == m[k]; }
    }
  }

  /**
   The whole of a drop: room-mates with broken sockets go too; if nobody else
   goes, what is left is the client's removal and what its room was told.
   */
  ghost predicate Dropped(s: State, t: State, v1: bool, ci: nat, broken: set<nat>) {
    && Shape(s) && Live(s, ci)
    && var r := s.clients[ci].room;
    && (r >= 0 ==> r < MAX_ROOMS && ci in s.rooms[r].members)
    && (r >= 0 ==> Doomed(t, s.rooms[r].members, broken))
    && ((r < 0 || AllLive(t, RemoveAt(s.rooms[r].members, Index(s.rooms[r].members, ci)))) ==> DroppedTo(s, t, v1, ci))
  }

  /** From the state before the slot is freed. */
  lemma DropMade(s: State, u: State, v1: bool, ci: nat, broken: set<nat>)
    requires Shape(s) && Live(s, ci) && Shape(u) && u.clients[ci].dead && u.clients[ci].inUse
    requires var r := s.clients[ci].room; r >= 0 ==> r < MAX_ROOMS && ci in s.rooms[r].members
    requires var x, r := Removed(s, ci), s.clients[ci].room;
             if r < 0 then u == x
             else
               && Shape(x) && Doomed(u, x.rooms[r].members, broken)
               && (AllLive(u, x.rooms[r].members) ==> VacatedTo(x, u, v1, r, Index(s.rooms[r].members, ci), s.clients[ci].name))
    ensures Dropped(s, Freed(u, ci), v1, ci, broken)
  {
    hide VacatedTo;
    FreedBack(u, ci);
    var t, r := Freed(u, ci), s.clients[ci].room;
    assert forall i :: Live(t, i) <==> Live(u, i);
    if r >= 0 {
      var m := s.rooms[r].members;
      var n := RemoveAt(m, Index(m, ci));
      forall k | 0 <= k < |m| && m[k] in broken
        ensures !Live(t, m[k])
      {
        if m[k] != ci { assert m[k] in n by { KeptIn(m, ci, m[k]); } var j :| 0 <= j < |n| && n[j] == m[k]; }
      }
    }
  }

  lemma KeptIn(m: seq<nat>, x: nat, y: nat)
    requires x in m && y in m && y != x
    ensures y in RemoveAt(m, Index(m, x))
  {
    var k := Index(m, x);
    var i :| 0 <= i < |m| && m[i] == y;
    var n := RemoveAt(m, k);
    assert if i < k then n[i] == y else n[i - 1] == y;
  }

  /** A dead client's slot is nobody's business but the drop that will free it. */
  lemma StillInUse(m: State, u: State, loose: set<int>, ci: nat)
    requires Shrunk(m, u, loose) && ci < |m.clients| && m.clients[ci].dead && m.clients[ci].inUse
    ensures Shape(u) && u.clients[ci].dead && u.clients[ci].inUse
  {
    assert ClientShrunk(m.clients[ci], u.clients[ci]);
  }

  lemma AllLiveNone(s: State)
    ensures AllLive(s, [])
  {
  }

  lemma FannedNone(s: State, t: State, data: seq<byte>)
    requires FannedOut(s, t, [], NOBODY, data)
    ensures t == s
  {
    assert t.clients == s.clients;
  }

  lemma UnroomedSeen(s: State, r: nat, m: seq<nat>)
    requires Shape(s) && forall k :: 0 <= k < |m| ==> Live(s, m[k])
    ensures forall k :: 0 <= k < |m| ==> Live(Unroomed(s, r), m[k]) && m[k] < MAX_CLIENTS
    ensures Shape(Unroomed(s, r))
  {
  }

  lemma ClosedIs(s: State, r: nat, t: State)
    requires Shape(s) && r < MAX_ROOMS
    ensures Shape(Closed(s, r))
  {
  }

  lemma ClosedLive(s: State, r: nat, m: seq<nat>, broken: set<nat>)
    requires Shape(s) && r < MAX_ROOMS
    ensures forall i :: Live(Closed(s, r), i) <==> Live(s, i)
    ensures Doomed(s, m, broken) ==> Doomed(Closed(s, r), m, broken)
    ensures Closed(s, r).clients == s.clients
  {
  }

  lemma ShrunkRooms(s: State, t: State, loose: set<int>)
    requires Shrunk(s, t, loose)
    ensures forall i :: 0 <= i < MAX_CLIENTS && s.clients[i].room == -1 ==> t.clients[i].room == -1
  {
    forall i | 0 <= i < MAX_CLIENTS && s.clients[i].room == -1
      ensures t.clients[i].room == -1
    {
      assert ClientShrunk(s.clients[i], t.clients[i]);
    }
  }

  // ---- connections per address -----------------------------------------------

  const PER_IP := 8

  function FromIp(clients: seq<Client>, ip: int): nat {
    if clients == [] then 0
    else FromIp(clients[..|clients| - 1], ip) + (var c := clients[|clients| - 1]; if c.inUse && c.ip == ip then 1 else 0)
  }

  /** No address has more than eight connections. */
  ghost predicate IpOk(clients: seq<Client>) {
    forall ip :: FromIp(clients, ip) <= PER_IP
  }

  lemma FromIpMore(clients: seq<Client>, i: nat, ip: int)
    requires i < |clients|
    ensures FromIp(clients[..i + 1], ip) == FromIp(clients[..i], ip) + if clients[i].inUse && clients[i].ip == ip then 1 else 0
  {
    assert clients[..i + 1][..i] == clients[..i];
  }

  lemma {:induction false} FromIpSet(clients: seq<Client>, i: nat, c: Client, ip: int)
    requires i < |clients| && !clients[i].inUse
    ensures FromIp(clients[i := c], ip) == FromIp(clients, ip) + if c.inUse && c.ip == ip then 1 else 0
    decreases |clients|
  {
    var n := |clients| - 1;
    if i < n {
      assert clients[i := c][..n] == clients[..n][i := c];
      FromIpSet(clients[..n], i, c, ip);
    } else {
      assert clients[i := c][..n] == clients[..n];
    }
  }

  lemma AcceptIp(clients: seq<Client>, i: nat, ip: int)
    requires i < |clients| && !clients[i].inUse && FromIp(clients, ip) < PER_IP
    ensures IpOk(clients) ==> IpOk(clients[i := Fresh(ip)])
  {
    if IpOk(clients) {
      var after := clients[i := Fresh(ip)];
      forall x
        ensures FromIp(after, x) <= PER_IP
      {
        FromIpSet(clients, i, Fresh(ip), x);
        assert FromIp(clients, x) <= PER_IP;
      }
    }
  }

  /** Drops only ever lower the counts. */
  lemma {:induction false} ShrunkIp(s: seq<Client>, t: seq<Client>, ip: int)
    requires |s| == |t| && forall i :: 0 <= i < |s| ==> ClientShrunk(s[i], t[i])
    ensures FromIp(t, ip) <= FromIp(s, ip)
    decreases |s|
  {
    hide ClientShrunk;
    if s != [] {
      var n := |s| - 1;
      ShrunkIp(s[..n], t[..n], ip);
      OneIp(s[n], t[n]);
    }
  }

  lemma OneIp(c: Client, d: Client)
    requires ClientShrunk(c, d)
    ensures d.ip == c.ip && (d.inUse ==> c.inUse)
  {
  }

  /** Every registered name is one a HELLO may carry. */
  ghost predicate WellNamed(names: seq<Entry>) {
    forall k :: 0 <= k < |names| ==> GoodName(names[k].name)
  }

  /** What holds of every state between calls beside the consistency of the tables. */
  ghost predicate Orderly(s: State) {
    IpOk(s.clients) && WellNamed(s.names)
  }

  lemma ShrunkOrderly(s: State, t: State, loose: set<int>)
    requires Shrunk(s, t, loose) && Orderly(s)
    ensures Orderly(t)
  {
    hide ClientShrunk, RoomShrunk, GoodName;
    forall ip
      ensures FromIp(t.clients, ip) <= PER_IP
    {
      ShrunkIp(s.clients, t.clients, ip);
      assert FromIp(s.clients, ip) <= PER_IP;
    }
    forall k | 0 <= k < |t.names|
      ensures GoodName(t.names[k].name)
    {
      SurvivorMember(s.names, t, t.names[k]);
    }
  }

  /** Clients with the same address and slot state are counted alike. */
  lemma {:induction false} SameIp(s: seq<Client>, t: seq<Client>, ip: int)
    requires |s| == |t| && forall i :: 0 <= i < |s| ==> t[i].ip == s[i].ip && t[i].inUse == s[i].inUse
    ensures FromIp(t, ip) == FromIp(s, ip)
    decreases |s|
  {
    if s != [] { SameIp(s[..|s| - 1], t[..|t| - 1], ip); }
  }

  lemma SameOrderly(s: State, t: State)
    requires |s.clients| == |t.clients| && WellNamed(t.names)
    requires forall i :: 0 <= i < |s.clients| ==> t.clients[i].ip == s.clients[i].ip && t.clients[i].inUse == s.clients[i].inUse
    ensures Orderly(s) ==> Orderly(t)
  {
    hide GoodName;
    forall ip | Orderly(s)
      ensures FromIp(t.clients, ip) <= PER_IP
    {
      SameIp(s.clients, t.clients, ip);
      assert FromIp(s.clients, ip) <= PER_IP;
    }
  }

  lemma RenamedOrderly(s: State, ci: nat, name: Name)
    requires ci < |s.clients| && GoodName(name) && Orderly(s)
    ensures Orderly(Renamed(s, ci, name))
  {
    hide GoodName, FromIp;
    var t := Renamed(s, ci, name);
    forall k | 0 <= k < |t.names|
      ensures GoodName(t.names[k].name)
    {
      if t.names != s.names && k < |t.names| - 1 { WithoutMember(s.names, ci, t.names[k]); }
    }
    SameOrderly(s, t);
  }

  lemma JoinedOrderly(s: State, t: State, target: nat, ci: nat, r: nat, begun: bool)
    requires Shape(s) && JoinedBy(s, t, target, ci, r, begun) && Orderly(s)
    ensures Orderly(t)
  {
    hide Shrunk, GoodName, FromIp;
    var x := SeatedAt(s, target, ci, r);
    var y := if begun then Started(x, r) else x;
    SameOrderly(s, y);
    ShrunkOrderly(y, t, {});
  }

  lemma StartedOrderly(s: State, t: State, r: nat)
    requires Shape(s) && r < MAX_ROOMS && Shrunk(Started(s, r), t, {}) && Orderly(s)
    ensures Orderly(t)
  {
    hide Shrunk, GoodName, FromIp;
    SameOrderly(s, Started(s, r));
    ShrunkOrderly(Started(s, r), t, {});
  }

  lemma HelloOrderly(s: State, mid: State, t: State, v1: bool, max: nat, ci: nat, name: Name)
    requires Shrunk(s, mid, {}) && Named(mid, t, v1, max, ci, name) && GoodName(name) && Orderly(s)
    ensures Orderly(t)
  {
    hide Shrunk, GoodName, Orderly, Renamed, Spared, LobbyFrame, Delivered;
    ShrunkOrderly(s, mid, {});
    RenamedOrderly(mid, ci, name);
    ShrunkOrderly(Renamed(mid, ci, name), t, {});
  }

  lemma {:induction false} NobodyFrom(clients: seq<Client>, ip: int)
    requires forall i :: 0 <= i < |clients| ==> !clients[i].inUse
    ensures FromIp(clients, ip) == 0
    decreases |clients|
  {
    if clients != [] { NobodyFrom(clients[..|clients| - 1], ip); }
  }

  lemma NobodyOrderly(s: State)
    requires s.names == [] && forall i :: 0 <= i < |s.clients| ==> !s.clients[i].inUse
    ensures Orderly(s)
  {
    forall ip
      ensures FromIp(s.clients, ip) <= PER_IP
    {
      NobodyFrom(s.clients, ip);
    }
  }

  // ---- frames by type -------------------------------------------------------

  ghost predicate SharesRoom(s: State, a: nat, b: nat)
    requires a < |s.clients| && b < |s.clients|
  {
    s.clients[a].room >= 0 && s.clients[a].room == s.clients[b].room
  }

  /** Whoever else holds the name. */
  function Rival(s: State, ci: nat, name: Name): seq<nat> {
    var k := Find(s.names, name);
    if k >= 0 && s.names[k].ci != ci then [s.names[k].ci] else []
  }

  function TargetOf(s: State, payload: seq<byte>): nat {
    var k := Sought(s.names, payload);
    if k >= 0 then s.names[k].ci else 0
  }

  /** The types a client may send, BYE aside. */
  function Accepted(v1: bool): set<byte> {
    {T_INPUT, T_CRC, T_STATE, T_RESYNC, T_HELLO, T_LIST, T_JOIN, T_PING} + if v1 then {} else {T_GO}
  }

  /** The clients a frame concerns: its sender, the client whose name it takes, the client it joins. */
  function Concerned(s: State, v1: bool, max: nat, ci: nat, kind: byte, payload: seq<byte>): seq<nat>
    requires Shape(s)
  {
    if kind == T_HELLO && GoodHello(v1, payload) then [ci] + Rival(s, ci, Stripped(payload[1..]))
    else if kind == T_JOIN && Joinable(s, v1, max, ci, payload) then [ci, TargetOf(s, payload)]
    else [ci]
  }

  ghost predicate MayGo(s: State, ci: nat)
    requires Shape(s) && ci < MAX_CLIENTS
  {
    var r := s.clients[ci].room;
    && 0 <= r < MAX_ROOMS && !s.rooms[r].started
    && s.rooms[r].members != [] && s.rooms[r].members[0] == ci
  }

  /** A match frame: nothing outside a started room; in one that survives, to all others exactly once. */
  ghost predicate Relayed(s: State, t: State, ci: nat, data: seq<byte>) {
    && Shape(s) && Shape(t) && ci < MAX_CLIENTS
    && var r := s.clients[ci].room;
    && r < MAX_ROOMS
    && (r < 0 || !s.rooms[r].started ==> t == s)
    && (r >= 0 && s.rooms[r].started && t.rooms[r].used ==> FannedOut(s, t, s.rooms[r].members, ci, data))
  }

  /** Registration done: the name is the client's, and the lobby list is its answer. */
  ghost predicate Named(s: State, t: State, v1: bool, max: nat, ci: nat, name: Name) {
    && ci < |s.clients|
    && var u := Renamed(s, ci, name);
    && Shrunk(u, t, {}) && Spared(u, t, [ci])
    && (Live(t, ci) ==> Delivered(u, t, ci, LobbyFrame(v1, max, u, ci)))
  }

  /**
   HELLO: a good one names the client, certainly so if nobody else has the name
   or whoever has it shares no room with it; any other drops it.
   */
  ghost predicate Greeted(s: State, t: State, v1: bool, max: nat, ci: nat, payload: seq<byte>)
    requires Shape(s) && ci < MAX_CLIENTS
  {
    && Shape(t)
    && (!GoodHello(v1, payload) ==> !Live(t, ci))
    && (GoodHello(v1, payload) ==>
          var name := Stripped(payload[1..]);
          var rival := Rival(s, ci, name);
          && (Live(t, ci) ==> t.clients[ci].name == name)
          && (forall k :: 0 <= k < |rival| ==> !Live(t, rival[k]))
          && (Live(t, ci) ==> forall i :: Apart(s, rival, i) && i != ci ==> t.clients[i] == s.clients[i])
          && ((forall k :: 0 <= k < |rival| && rival[k] < MAX_CLIENTS ==> !SharesRoom(s, ci, rival[k])) ==>
                t.clients[ci].name == name && (Live(t, ci) ==> LobbySent(s, t, v1, max, ci))))
  }

  /** The client's queue grew by a lobby list. */
  ghost predicate LobbySent(s: State, t: State, v1: bool, max: nat, ci: nat)
    requires ci < |s.clients| && ci < |t.clients|
  {
    exists u: State :: t.clients[ci].queued == s.clients[ci].queued + LobbyFrame(v1, max, u, ci)
  }

  // ---- a seat taken -----------------------------------------------------------

  /** The room a join is for: the target's, or a free slot if it has none. */
  ghost predicate RoomFor(s: State, target: nat, r: nat)
    requires Shape(s)
  {
    && r < MAX_ROOMS && target < MAX_CLIENTS
    && if s.clients[target].room < 0 then !s.rooms[r].used else s.clients[target].room == r
  }

  function SeatedAt(s: State, target: nat, ci: nat, r: nat): State
    requires Shape(s) && target < MAX_CLIENTS && ci < MAX_CLIENTS && r < MAX_ROOMS
  {
    Joined(if s.clients[target].room < 0 then Opened(s, target, r) else s, ci, r)
  }

  /** The join and, if the match began at once, the start; after that only losses. */
  ghost predicate JoinedBy(s: State, t: State, target: nat, ci: nat, r: nat, begun: bool)
    requires Shape(s)
  {
    && target < MAX_CLIENTS && ci < MAX_CLIENTS && RoomFor(s, target, r)
    && var x := SeatedAt(s, target, ci, r);
    && Shrunk(if begun then Started(x, r) else x, t, {})
  }

  /** A join answered: the match begun at once, as v1 and the auto-go count have it, or the roster sent round. */
  ghost predicate JoinDone(s: State, t: State, v1: bool, delay: byte, autoGo: nat, target: nat, ci: nat)
    requires Shape(s)
  {
    exists r: nat, begun: bool :: JoinedBy(s, t, target, ci, r, begun) && JoinHeard(s, t, v1, delay, autoGo, target, ci, r, begun)
  }

  // ---- seats ------------------------------------------------------------------

  /** Who is in the room before the joiner: its members, or the waiting target alone. */
  function Sitting(s: State, target: nat, r: nat): seq<nat>
    requires Shape(s) && target < MAX_CLIENTS && r < MAX_ROOMS
  {
    if s.clients[target].room < 0 then [target] else s.rooms[r].members
  }

  /** Everybody keeps their seat, and `ci` has the next one. */
  ghost predicate SeatedLast(before: seq<nat>, after: seq<nat>, ci: nat) {
    && |after| == |before| + 1
    && (forall x :: x in before ==> Index(after, x) == Index(before, x))
    && Index(after, ci) == |before|
  }

  lemma AppendSeats(m: seq<nat>, ci: nat)
    requires ci !in m
    ensures SeatedLast(m, m + [ci], ci)
  {
    var n := m + [ci];
    forall x | x in m
      ensures Index(n, x) == Index(m, x)
    {
      SameIndex(n, x, Index(m, x));
    }
    SameIndex(n, ci, |m|);
  }

  /** A seat is the first place a client is found in. */
  lemma SameIndex(m: seq<nat>, x: nat, k: nat)
    requires k < |m| && m[k] == x && x !in m[..k]
    ensures Index(m, x) == k
  {
    var i := Index(m, x);
    var front, mine := m[..k], m[..i];
    assert forall p :: 0 <= p < k ==> front[p] == m[p];
    assert forall p :: 0 <= p < i ==> mine[p] == m[p];
  }

  /** A member leaves: those behind it move up one seat, the others stay. */
  lemma RemoveSeats(m: seq<nat>, k: nat, x: nat)
    requires Distinct(m) && k < |m| && x in m && x != m[k]
    ensures Index(RemoveAt(m, k), x) == Index(m, x) - if Index(m, x) > k then 1 else 0
  {
    var n, i := RemoveAt(m, k), Index(m, x);
    var j := if i > k then i - 1 else i;
    assert n[j] == x;
    forall p | 0 <= p < j
      ensures n[p] != x
    {
      assert n[p] == if p < k then m[p] else m[p + 1];
    }
    SameIndex(n, x, j);
  }

  /** The one in seat `k` has left: those behind it moved up, the others stayed. */
  ghost predicate MovedUp(before: seq<nat>, after: seq<nat>, k: int) {
    && 0 <= k < |before| && |after| == |before| - 1
    && forall x :: x in before && x != before[k] ==> Index(after, x) == Index(before, x) - if Index(before, x) > k then 1 else 0
  }

  lemma LeftSeats(s: State, max: nat, loose: set<int>, ci: nat)
    requires Base(s, max, loose) && Live(s, ci) && s.clients[ci].room >= 0
    ensures var r := s.clients[ci].room;
            && r < MAX_ROOMS && ci in s.rooms[r].members
            && MovedUp(s.rooms[r].members, Removed(s, ci).rooms[r].members, Index(s.rooms[r].members, ci))
  {
    hide NamesOk, TxOk, SeatsOk, RoomsOk, RemoveAt;
    Listed(s, max, loose, ci);
    var m := s.rooms[s.clients[ci].room].members;
    var k := Index(m, ci);
    RemoveKeeps(m, k);
    forall x | x in m && x != m[k]
      ensures Index(RemoveAt(m, k), x) == Index(m, x) - if Index(m, x) > k then 1 else 0
    {
      RemoveSeats(m, k, x);
    }
  }

  /** Where a member of `before`, or the joiner behind them, sat. */
  function Place(before: seq<nat>, ci: nat, x: nat): int {
    if x == ci then |before| else Index(before, x)
  }

  /** Whoever is left of `before` and then `ci` sits in that order. */
  ghost predicate Lined(after: seq<nat>, before: seq<nat>, ci: nat) {
    && (forall x :: x in after ==> x in before || x == ci)
    && (forall x, y :: x in after && y in after ==>
          (Index(after, x) < Index(after, y) <==> Place(before, ci, x) < Place(before, ci, y)))
  }

  lemma LinedUp(after: seq<nat>, before: seq<nat>, ci: nat)
    requires Distinct(before) && ci !in before && Subseq(after, before + [ci])
    ensures Lined(after, before, ci)
  {
    hide Subseq;
    var all := before + [ci];
    AppendSeats(before, ci);
    forall x | x in after
      ensures x in before || x == ci
    {
      SubseqIn(after, all, x);
    }
    forall x, y | x in after && y in after
      ensures Index(after, x) < Index(after, y) <==> Place(before, ci, x) < Place(before, ci, y)
    {
      SubseqOrder(after, all, x, y);
    }
  }

  /** The members sit distinct, and not the joiner among them. */
  lemma SittingOk(s: State, max: nat, target: nat, ci: nat, r: nat)
    requires Inv(s, max, {}) && Live(s, target) && Live(s, ci) && target != ci && s.clients[ci].room < 0 && RoomFor(s, target, r)
    ensures Distinct(Sitting(s, target, r)) && ci !in Sitting(s, target, r)
  {
    hide NamesOk, TxOk, Sizes;
    if s.clients[target].room >= 0 {
      assert SeatOk(s, {}, target);
      assert RoomOk(s, max, r);
    }
  }

  lemma JoinLined(s: State, t: State, max: nat, target: nat, ci: nat, r: nat, begun: bool)
    requires Inv(s, max, {}) && Live(s, target) && Live(s, ci) && target != ci && s.clients[ci].room < 0
    requires JoinedBy(s, t, target, ci, r, begun)
    ensures t.rooms[r].used ==> Lined(t.rooms[r].members, Sitting(s, target, r), ci)
  {
    hide Inv, ClientShrunk, Survivors, Lined, Subseq;
    InvShape(s, max, {});
    SittingOk(s, max, target, ci, r);
    var x := SeatedAt(s, target, ci, r);
    var y := if begun then Started(x, r) else x;
    assert y.rooms[r].members == Sitting(s, target, r) + [ci];
    assert RoomShrunk(y.rooms[r], t.rooms[r]);
    if t.rooms[r].used { LinedUp(t.rooms[r].members, Sitting(s, target, r), ci); }
  }

  /** Whatever a cascade costs a room that lasts, those left sit as they sat. */
  lemma OrderKept(s: State, t: State, max: nat, loose: set<int>, r: nat, x: nat, y: nat)
    requires Inv(s, max, loose) && Shrunk(s, t, loose) && r < MAX_ROOMS && r !in loose && t.rooms[r].used
    requires x in t.rooms[r].members && y in t.rooms[r].members
    ensures var a, b := s.rooms[r].members, t.rooms[r].members;
            x in a && y in a && (Index(b, x) < Index(b, y) <==> Index(a, x) < Index(a, y))
  {
    hide NamesOk, TxOk, SeatsOk, Survivors, ClientShrunk, Subseq;
    assert RoomShrunk(s.rooms[r], t.rooms[r]);
    assert RoomOk(s, max, r);
    SubseqOrder(t.rooms[r].members, s.rooms[r].members, x, y);
  }

  /** v1: as long as the match lives, host and guest got role 0 and 1, one seed, and each other's name. */
  ghost predicate PairTold(s: State, t: State, delay: byte, target: nat, ci: nat, r: nat)
    requires Shape(s) && Shape(t) && target < MAX_CLIENTS && ci < MAX_CLIENTS && r < MAX_ROOMS
  {
    t.rooms[r].used ==>
      exists seed: nat :: 0 < seed < 0x1_0000
        && Dealt(Started(SeatedAt(s, target, ci, r), r), t, [target, ci], 2,
                 PairFrames(seed, delay, s.clients[target].name, s.clients[ci].name))
        && PairDealt(s, t, target, ci, seed, delay)
  }

  ghost predicate JoinHeard(s: State, t: State, v1: bool, delay: byte, autoGo: nat, target: nat, ci: nat, r: nat, begun: bool)
    requires Shape(s) && JoinedBy(s, t, target, ci, r, begun)
  {
    && (v1 ==> begun && PairTold(s, t, delay, target, ci, r)) && (begun ==> v1 || autoGo > 0)
    && (!begun && autoGo > 0 ==> |t.rooms[r].members| < autoGo)
    && (!begun ==> Announced(SeatedAt(s, target, ci, r), t, r))
    && (t.rooms[r].used ==> Lined(t.rooms[r].members, Sitting(s, target, r), ci))
  }

  /** A refused JOIN changes nothing for a client in a room, and is answered with the lobby list otherwise. */
  ghost predicate Refused(s: State, t: State, v1: bool, max: nat, ci: nat)
    requires Shape(s) && ci < MAX_CLIENTS
  {
    Live(t, ci) ==> if s.clients[ci].room >= 0 then t == s else Delivered(s, t, ci, LobbyFrame(v1, max, s, ci))
  }

  /** GO: the room started and, as long as it lives, each member dealt its START under one seed. */
  ghost predicate GoDone(s: State, t: State, delay: byte, ci: nat)
    requires Shape(s) && Shape(t) && ci < MAX_CLIENTS && 0 <= s.clients[ci].room < MAX_ROOMS
  {
    var r := s.clients[ci].room;
    var m := s.rooms[r].members;
    && Shrunk(Started(s, r), t, {})
    && (t.rooms[r].used ==>
          exists seed: nat :: 0 < seed < 0x1_0000 && Dealt(Started(s, r), t, m, |m|, StartFrames(m, seed, delay, Roster(s.clients, m)))
            && RoomDealt(s, t, m, seed, delay))
  }

  /** If no member was lost, each got the roster and nothing else changed. */
  ghost predicate Announced(s: State, t: State, r: nat)
    requires r < |s.rooms|
  {
    var m := s.rooms[r].members;
    AllLive(t, m) ==> FannedOut(s, t, m, NOBODY, RosterFrame(s, m))
  }

  lemma SeatedSame(s: State, t: State, r: nat)
    requires Shape(s) && t == s
    ensures RoomSpared(s, t, r)
  {
  }

  lemma SeatedNew(s: State, target: nat, ci: nat, r: nat)
    requires Shape(s) && target < MAX_CLIENTS && ci < MAX_CLIENTS && r < MAX_ROOMS && s.clients[target].room < 0 && !s.rooms[r].used
    ensures SeatedAt(s, target, ci, r) == Joined(Opened(s, target, r), ci, r) && RoomFor(s, target, r)
  {
  }

  lemma SeatedShape(s: State, target: nat, ci: nat, r: nat)
    requires Shape(s) && target < MAX_CLIENTS && ci < MAX_CLIENTS && r < MAX_ROOMS
    ensures Shape(SeatedAt(s, target, ci, r))
  {
  }

  lemma OpenSeat(s: State, target: nat, ci: nat, r: nat, t: State, max: nat)
    requires Inv(s, max, {}) && Live(s, target) && ci < MAX_CLIENTS && r < MAX_ROOMS && target != ci
    requires if s.clients[target].room < 0 then !s.rooms[r].used && t == Opened(s, target, r) else s.clients[target].room == r && t == s && s.rooms[r].used
    ensures Shape(s) && RoomFor(s, target, r) && SeatedAt(s, target, ci, r) == Joined(t, ci, r)
    ensures t.rooms[r].used && |t.rooms[r].members| >= 1 && t.clients[ci] == s.clients[ci]
  {
    hide RoomsOk, SeatsOk, NamesOk, TxOk;
  }

  /** Taking a seat, and whatever then happens in that room, leaves everyone apart from the two alone. */
  lemma JoinSpared(s: State, x: State, t: State, max: nat, target: nat, ci: nat, r: nat)
    requires Inv(s, max, {}) && Live(s, target) && Live(s, ci) && Shape(x) && RoomFor(s, target, r)
    requires x == SeatedAt(s, target, ci, r) || x == Started(SeatedAt(s, target, ci, r), r)
    requires RoomSpared(x, t, r)
    ensures Spared(s, t, [ci, target])
  {
    hide RoomsOk, NamesOk, TxOk, RoomSpared, SeatOk;
    var m := [ci, target];
    assert m[0] == ci && m[1] == target;
    SameSizes(x, t, r);
    forall i | Apart(s, m, i)
      ensures t.clients[i] == s.clients[i]
    {
      assert x.clients[i] == s.clients[i] && Live(x, i);
      if s.clients[target].room < 0 {
        OtherRoom(s, i, r);
      } else {
        assert s.clients[m[1]].room != s.clients[i].room;
      }
      OutsideSame(x, t, r, i);
    }
    forall q | 0 <= q < |s.rooms| && s.rooms[q].used && Elsewhere(s, m, q)
      ensures t.rooms[q] == s.rooms[q]
    {
      assert s.clients[m[1]].room != q;
      OtherSame(x, t, r, q);
    }
  }

  lemma OtherRoom(s: State, i: int, r: nat)
    requires Shape(s) && SeatsOk(s, {}) && Live(s, i) && r < MAX_ROOMS && !s.rooms[r].used
    ensures s.clients[i].room != r
  {
    assert SeatOk(s, {}, i);
  }

  lemma OutsideSame(s: State, t: State, r: int, i: int)
    requires RoomSpared(s, t, r) && Live(s, i) && s.clients[i].room != r
    ensures 0 <= i < |t.clients| && t.clients[i] == s.clients[i]
  {
  }

  lemma OtherSame(s: State, t: State, r: int, q: int)
    requires RoomSpared(s, t, r) && 0 <= q < |s.rooms| && s.rooms[q].used && q != r
    ensures q < |t.rooms| && t.rooms[q] == s.rooms[q]
  {
  }

  lemma SameSizes(s: State, t: State, r: int)
    requires RoomSpared(s, t, r)
    ensures |t.clients| == |s.clients| && |t.rooms| == |s.rooms|
  {
  }

  lemma RoomSparedTrans(s: State, t: State, u: State, r: int)
    requires RoomSpared(s, t, r) && RoomSpared(t, u, r)
    ensures RoomSpared(s, u, r)
  {
  }

  lemma StartedSpared(s: State, t: State, r: nat)
    requires Shape(s) && r < MAX_ROOMS && RoomSpared(Started(s, r), t, r)
    ensures RoomSpared(s, t, r)
  {
    assert forall i :: Live(Started(s, r), i) <==> Live(s, i);
  }

  lemma StartedShrunk(s: State, t: State, r: nat)
    requires Shrunk(s, t, {}) && r < MAX_ROOMS
    ensures Shrunk(Started(s, r), Started(t, r), {})
  {
    hide ClientShrunk, Survivors;
    SameSurvivors(s.names, t, Started(t, r));
  }

  lemma RoomOfMember(s: State, t: State, loose: set<int>, i: nat, r: nat)
    requires Shrunk(s, t, loose) && Live(s, i) && s.clients[i].room == r
    ensures forall k :: 0 <= k < |[i]| ==> Live(s, [i][k]) && s.clients[[i][k]].room == r
    ensures forall k :: 0 <= k < |[i]| ==> t.clients[[i][k]].room == r || t.clients[[i][k]].room < 0
  {
    assert ClientShrunk(s.clients[i], t.clients[i]);
  }

  // ---- evictions ----------------------------------------------------------------

  /** Whether the newcomer outlives the eviction of a name's holder. */
  lemma EvictFate(s: State, t: State, max: nat, v1: bool, ci: nat, holder: nat, broken: set<nat>)
    requires Inv(s, max, {}) && Live(s, ci) && Live(s, holder) && holder != ci
    requires Shrunk(s, t, {}) && Spared(s, t, [holder]) && Dropped(s, t, v1, holder, broken)
    ensures !SharesRoom(s, ci, holder) ==> Live(t, ci) && t.clients[ci] == s.clients[ci]
    ensures ci in broken ==> (Live(t, ci) <==> !SharesRoom(s, ci, holder))
  {
    hide Shrunk, DroppedTo, Sizes;
    if SharesRoom(s, ci, holder) {
      Listed(s, max, {}, ci);
      if ci in broken {
        var m := s.rooms[s.clients[ci].room].members;
        var k :| 0 <= k < |m| && m[k] == ci;
        assert !Live(t, m[k]);
      }
    } else {
      assert Apart(s, [holder], ci);
    }
  }

  /** More clients concerned, fewer spared. */
  lemma SparedMore(s: State, t: State, ci: nat, m: seq<nat>)
    requires Spared(s, t, m)
    ensures Spared(s, t, [ci] + m)
  {
    var n := [ci] + m;
    assert forall k :: 0 <= k < |m| ==> n[k + 1] == m[k];
    forall i | Apart(s, n, i)
      ensures t.clients[i] == s.clients[i]
    {
      assert Apart(s, m, i) by {
        forall k | 0 <= k < |m| && m[k] < |s.clients| && s.clients[m[k]].room >= 0
          ensures s.clients[m[k]].room != s.clients[i].room
        {
          assert n[k + 1] == m[k];
        }
        assert forall x :: x in m ==> x in n;
      }
    }
    forall r | 0 <= r < |s.rooms| && s.rooms[r].used && Elsewhere(s, n, r)
      ensures t.rooms[r] == s.rooms[r]
    {
      forall k | 0 <= k < |m| && m[k] < |s.clients|
        ensures s.clients[m[k]].room != r
      {
        assert n[k + 1] == m[k];
      }
    }
  }

  /** First the rival's eviction, then the newcomer's own registration. */
  lemma HelloSpared(s: State, mid: State, name: Name, t: State, ci: nat, rival: seq<nat>)
    requires Shape(s) && Shape(mid) && Shape(t) && ci < MAX_CLIENTS
    requires Shrunk(s, mid, {}) && Spared(s, mid, rival) && Spared(Renamed(mid, ci, name), t, [ci])
    ensures Spared(s, t, [ci] + rival)
  {
    hide Survivors, RoomShrunk, Without;
    var n, u := [ci] + rival, Renamed(mid, ci, name);
    SparedMore(s, mid, ci, rival);
    assert n[0] == ci && [ci][0] == ci;
    assert ClientShrunk(s.clients[ci], mid.clients[ci]);
    forall i | Apart(s, n, i)
      ensures t.clients[i] == s.clients[i]
    {
      assert mid.clients[i] == s.clients[i] && i != ci;
      assert Apart(u, [ci], i);
    }
    forall r | 0 <= r < |s.rooms| && s.rooms[r].used && Elsewhere(s, n, r)
      ensures t.rooms[r] == s.rooms[r]
    {
      assert s.clients[n[0]].room != r;
      assert Elsewhere(u, [ci], r);
    }
  }

  lemma HelloDone(s: State, t: State, v1: bool, max: nat, ci: nat, payload: seq<byte>, registered: bool, mid: State)
    requires Shape(s) && NamesOk(s) && Live(s, ci) && Shape(t) && Shape(mid)
    requires !GoodHello(v1, payload) ==> !registered && !Live(t, ci) && Spared(s, t, [ci])
    requires GoodHello(v1, payload) ==>
               var name := Stripped(payload[1..]);
               var rival := Rival(s, ci, name);
               && Shrunk(s, mid, {}) && Spared(s, mid, rival) && (forall k :: 0 <= k < |rival| ==> !Live(mid, rival[k]))
               && (registered <==> Live(mid, ci))
               && (rival == [] || (rival[0] < MAX_CLIENTS && !SharesRoom(s, ci, rival[0])) ==> registered)
               && (if registered then Named(mid, t, v1, max, ci, name) else t == mid)
    ensures Spared(s, t, if GoodHello(v1, payload) then [ci] + Rival(s, ci, Stripped(payload[1..])) else [ci])
    ensures Greeted(s, t, v1, max, ci, payload)
  {
    hide Spared, Shrunk, LobbyFrame, SharesRoom, GoodHello, Delivered;
    if GoodHello(v1, payload) {
      HelloLong(v1, payload);
      var name := Stripped(payload[1..]);
      var rival := Rival(s, ci, name);
      if registered {
        var u := Renamed(mid, ci, name);
        HelloSpared(s, mid, name, t, ci, rival);
        RenamedClient(mid, ci, name);
        NameKept(u, t, {}, ci);
        ShrunkLive(u, t, {});
        assert forall i :: Live(u, i) <==> Live(mid, i);
        HelloAlone(s, mid, name, t, v1, max, ci, rival);
        RivalApart(s, ci, name);
      } else {
        SparedMore(s, mid, ci, rival);
      }
    }
  }

  lemma RivalApart(s: State, ci: nat, name: Name)
    requires Shape(s) && NamesOk(s) && Live(s, ci)
    ensures var rival := Rival(s, ci, name);
            (forall k :: 0 <= k < |rival| && rival[k] < MAX_CLIENTS ==> !SharesRoom(s, ci, rival[k])) ==> Apart(s, rival, ci)
  {
    var rival := Rival(s, ci, name);
    if rival != [] { assert rival[0] < MAX_CLIENTS by { EntryNamed(s, Find(s.names, name)); } }
  }

  /** A registration touches the client and, before it, the rival's room; the client itself gets the lobby list. */
  lemma HelloAlone(s: State, mid: State, name: Name, t: State, v1: bool, max: nat, ci: nat, rival: seq<nat>)
    requires Shape(s) && Shape(mid) && Shape(t) && Live(s, ci) && Spared(s, mid, rival) && Named(mid, t, v1, max, ci, name)
    ensures Live(t, ci) ==> forall i :: Apart(s, rival, i) && i != ci ==> t.clients[i] == s.clients[i]
    ensures Live(t, ci) && Apart(s, rival, ci) ==> LobbySent(s, t, v1, max, ci)
  {
    hide Shrunk, LobbyFrame;
  }

  lemma HelloLong(v1: bool, payload: seq<byte>)
    requires GoodHello(v1, payload)
    ensures |payload| >= 3
  {
  }
}
