/**
 A HELLO that takes a name from a client in the newcomer's own room can cost the
 newcomer its connection: exactly then must the server look again before it
 registers it.
 */
module Eviction {
  import opened RelayState
  import opened RelayTables
  import opened RelayEffects

  /** All that Server.Evict promises of the state it leaves. */
  ghost predicate Outcome(s: State, t: State, max: nat, v1: bool, holder: nat, broken: set<nat>) {
    && Inv(t, max, {}) && Shrunk(s, t, {}) && Spared(s, t, [holder]) && Dropped(s, t, v1, holder, broken)
    && !Live(t, holder)
  }

  /**
   The holder gone, its room dissolved, the notice to the newcomer failed, the
   newcomer's slot free, the room closed, the holder's slot free.  For the two
   members of a forming room this is what the server does, step by step.  A
   larger room is given a new roster first, a started one closed; there this
   state stands for the fate Server.Evict promises a newcomer with a broken
   socket, and not for what the other members are told.
   */
  function Chain(s: State, holder: nat, ci: nat, r: nat): State
    requires Shape(s) && holder < MAX_CLIENTS && ci < MAX_CLIENTS && r < MAX_ROOMS && ci != holder
    requires s.clients[holder].room == r && holder in s.rooms[r].members
    requires Live(s, ci) && s.clients[ci].room == r
  {
    Freed(Closed(Freed(Removed(Unroomed(Removed(s, holder), r), ci), ci), r), holder)
  }

  lemma ChainShrinks(s: State, max: nat, holder: nat, ci: nat, r: nat)
    requires Inv(s, max, {}) && Live(s, holder) && Live(s, ci) && holder != ci && r < MAX_ROOMS
    requires s.clients[holder].room == r && s.clients[ci].room == r
    ensures Shape(s) && holder in s.rooms[r].members
    ensures var t := Chain(s, holder, ci, r);
            && Inv(t, max, {}) && Shrunk(s, t, {}) && Spared(s, t, [holder])
            && t.clients[holder].dead && t.clients[ci].dead
  {
    hide Inv, Base, Sizes, Shrunk, Spared, RoomSpared, Removed, Unroomed, Closed;
    Shapes(s, max, {});
    var none: set<int> := {};
    assert none + {r} == {r};
    Listed(s, max, {}, holder);
    RemovedBase(s, max, {}, holder);
    RemovedSizes(s, max, {}, holder);
    var a := Removed(s, holder);
    BaseShape(a, max, {});
    StaysIn(s, holder, ci, r);
    UnroomedBase(a, max, {}, r);
    UnroomedSizes(a, max, {}, r);
    UnroomedSpared(a, r);
    var b := Unroomed(a, r);
    StillLive(a, r, ci);
    Shapes(b, max, {r});
    RemovedBase(b, max, {r}, ci);
    RemovedSizes(b, max, {r}, ci);
    RemovedSpared(b, ci);
    var c := Removed(b, ci);
    BaseShape(c, max, {r});
    RemovedDead(b, ci);
    Whole(c, max, {r});
    FreedDead(b, c, max, {r}, ci);
    var f := Freed(c, ci);
    BaseShape(f, max, {r});
    FreedSpared(b, c, ci);
    GroupSpared(a, b, f, [ci], r);
    ClosedBase(f, max, {}, r);
    ClosedSpared(a, f, r);
    var k := Closed(f, r);
    DropSpared(s, a, k, holder);
    ShrunkLess(a, b, {r}, {});
    ShrunkLess(b, f, {r}, {});
    ShrunkTrans(s, a, b, {});
    ShrunkTrans(s, b, f, {});
    ShrunkTrans(s, f, k, {});
    Whole(k, max, {});
    ChainDead(s, holder, ci, r);
    FreedInv(s, k, max, {}, holder);
    FreedSpared(s, k, holder);
  }

  /** Freeing the slot of a client just removed, its room mid-dissolution. */
  lemma FreedDead(b: State, c: State, max: nat, loose: set<int>, ci: nat)
    requires Inv(c, max, loose) && Shrunk(b, c, loose) && Live(b, ci) && ci < MAX_CLIENTS && c.clients[ci].dead
    ensures Base(Freed(c, ci), max, loose) && Sizes(Freed(c, ci), loose) && Shrunk(b, Freed(c, ci), loose)
  {
    hide Base, Sizes, Shrunk;
    InvShape(c, max, loose);
    FreedInv(b, c, max, loose, ci);
  }

  lemma RemovedDead(s: State, ci: nat)
    requires Shape(s) && ci < MAX_CLIENTS && Live(s, ci) && s.clients[ci].room < 0
    ensures Removed(s, ci).clients[ci].dead
  {
  }

  lemma StaysIn(s: State, holder: nat, ci: nat, r: nat)
    requires Shape(s) && Live(s, ci) && ci != holder && holder < MAX_CLIENTS && r < MAX_ROOMS && holder in s.rooms[r].members
    requires s.clients[holder].room == r && s.clients[ci].room == r
    ensures var a := Removed(s, holder);
            Live(a, ci) && a.clients[ci].room == r && a.rooms[r].used == s.rooms[r].used
  {
  }

  lemma StillLive(a: State, r: nat, ci: nat)
    requires Shape(a) && Live(a, ci) && a.clients[ci].room == r
    ensures var b := Unroomed(a, r);
            Live(b, ci) && b.clients[ci].room == -1
    ensures forall k :: 0 <= k < |[ci]| ==> Live(a, [ci][k]) && a.clients[[ci][k]].room == r && Unroomed(a, r).clients[[ci][k]].room < 0
  {
  }

  lemma ChainDead(s: State, holder: nat, ci: nat, r: nat)
    requires Shape(s) && Live(s, holder) && Live(s, ci) && holder != ci && r < MAX_ROOMS
    requires s.clients[holder].room == r && s.clients[ci].room == r && holder in s.rooms[r].members
    ensures var t := Chain(s, holder, ci, r); Shape(t) && t.clients[holder].dead && t.clients[ci].dead
  {
  }

  /** That chain is an outcome of the eviction when the newcomer's socket is broken. */
  lemma ChainIsOutcome(s: State, max: nat, v1: bool, holder: nat, ci: nat)
    requires Inv(s, max, {}) && Live(s, holder) && Live(s, ci) && holder != ci && SharesRoom(s, ci, holder)
    ensures exists t :: Outcome(s, t, max, v1, holder, {ci}) && Shape(t) && !Live(t, ci)
  {
    hide Inv, Shrunk, Spared, DroppedTo, Chain;
    var r := s.clients[ci].room;
    Shapes(s, max, {});
    Listed(s, max, {}, ci);
    Listed(s, max, {}, holder);
    ChainShrinks(s, max, holder, ci, r);
    var t, m := Chain(s, holder, ci, r), s.rooms[r].members;
    KeptIn(m, holder, ci);
    var n := RemoveAt(m, Index(m, holder));
    var k :| 0 <= k < |n| && n[k] == ci;
    InvShape(t, max, {});
    assert !Live(t, ci) && !Live(t, n[k]);
    assert Doomed(t, m, {ci});
    assert Outcome(s, t, max, v1, holder, {ci});
  }

  /**
   Registering the newcomer without looking again is safe for the registry, in
   every outcome of the eviction, if and only if it shared no room with the
   holder of the name: something the server can see before the eviction.
   */
  lemma UncheckedSafe(s: State, max: nat, v1: bool, ci: nat, holder: nat, name: Name)
    requires Inv(s, max, {}) && Live(s, ci) && Live(s, holder) && holder != ci
    requires name != [] && s.clients[holder].name == name
    ensures (forall t, broken :: Outcome(s, t, max, v1, holder, broken) ==> Shape(t) && NamesOk(HelloUnchecked(t, ci, name)))
            <==> !SharesRoom(s, ci, holder)
  {
    hide Inv, Outcome, NamesOk, HelloUnchecked;
    InvShape(s, max, {});
    if SharesRoom(s, ci, holder) {
      ChainIsOutcome(s, max, v1, holder, ci);
      var t :| Outcome(s, t, max, v1, holder, {ci}) && Shape(t) && !Live(t, ci);
      Unheld(s, t, max, v1, holder, {ci}, name, ci);
      RecheckNeeded(t, max, ci, name);
    } else {
      forall t, broken | Outcome(s, t, max, v1, holder, broken)
        ensures Shape(t) && NamesOk(HelloUnchecked(t, ci, name))
      {
        Unheld(s, t, max, v1, holder, broken, name, ci);
        InvShape(t, max, {});
        Survives(s, t, max, v1, ci, holder, broken);
        RecheckNeeded(t, max, ci, name);
      }
    }
  }

  lemma Survives(s: State, t: State, max: nat, v1: bool, ci: nat, holder: nat, broken: set<nat>)
    requires Inv(s, max, {}) && Live(s, ci) && Live(s, holder) && holder != ci && !SharesRoom(s, ci, holder)
    requires Outcome(s, t, max, v1, holder, broken)
    ensures Live(t, ci)
  {
    hide Inv, Shrunk, Spared, Dropped;
    EvictFate(s, t, max, v1, ci, holder, broken);
  }

  /** With its holder gone nobody has the name. */
  lemma Unheld(s: State, t: State, max: nat, v1: bool, holder: nat, broken: set<nat>, name: Name, ci: nat)
    requires Inv(s, max, {}) && Live(s, holder) && s.clients[holder].name == name && name != []
    requires Outcome(s, t, max, v1, holder, broken)
    ensures Shape(t) && Inv(t, max, {}) && forall k :: 0 <= k < |t.names| && t.names[k].name == name ==> t.names[k].ci == ci
  {
    hide Inv, Spared;
    InvShape(s, max, {});
    InvShape(t, max, {});
    assert Entry(name, holder) in s.names;
    var k :| 0 <= k < |s.names| && s.names[k] == Entry(name, holder);
    NameGone(s, t, name, k);
  }

  // ---- the failing input, concretely --------------------------------------

  const ANN: Name := [0x41, 0x4E, 0x4E]
  const BOB: Name := [0x42, 0x4F, 0x42]

  function Member(name: Name): Client { Client(true, false, 0, name, 0, [], [], []) }

  /** ANN hosts a forming room and BOB has joined it; nobody else is connected. */
  function Paired(): (s: State)
    ensures Shape(s) && s.clients[0] == Member(ANN) && s.clients[1] == Member(BOB)
    ensures forall i :: 2 <= i < MAX_CLIENTS ==> !s.clients[i].inUse
    ensures s.rooms[0] == Room(true, [0, 1], false) && s.names == [Entry(ANN, 0), Entry(BOB, 1)]
    ensures forall r :: 1 <= r < MAX_ROOMS ==> s.rooms[r] == Room(false, [], false)
  {
    var nobody := Client(false, false, 0, [], -1, [], [], []);
    State(
      [Member(ANN), Member(BOB)] + seq(MAX_CLIENTS - 2, _ => nobody),
      [Room(true, [0, 1], false)] + seq(MAX_ROOMS - 1, _ => Room(false, [], false)),
      [Entry(ANN, 0), Entry(BOB, 1)])
  }

  lemma PairedOk()
    ensures Inv(Paired(), 2, {}) && Live(Paired(), 0) && Live(Paired(), 1)
    ensures Paired().clients[0].room == 0 && Paired().clients[1].room == 0
  {
    var s := Paired();
    assert ANN[0] != BOB[0];
    forall i | Live(s, i)
      ensures (i == 0 || i == 1) && SeatOk(s, {}, i) && TxFine(s.clients[i])
    {
      assert s.rooms[0].members[0] == 0 && s.rooms[0].members[1] == 1;
    }
    assert s.names[0] == Entry(ANN, 0) && s.names[1] == Entry(BOB, 1);
    assert RoomOk(s, 2, 0);
  }

  /**
   BOB says HELLO as ANN and its socket is broken.  ANN is dropped, the room is
   dissolved, BOB's notice fails, BOB is dropped; registered all the same, BOB
   is a dead client with a name.
   */
  lemma DeadAlias()
    ensures Shape(Paired()) && SharesRoom(Paired(), 1, 0)
    ensures var t := Chain(Paired(), 0, 1, 0);
            && Inv(t, 2, {}) && Shrunk(Paired(), t, {}) && t.clients[0].dead && t.clients[1].dead
            && !NamesOk(HelloUnchecked(t, 1, ANN))
  {
    hide Inv, Shrunk, Chain, NamesOk, HelloUnchecked, Spared;
    PairedOk();
    ChainShrinks(Paired(), 2, 0, 1, 0);
    var t := Chain(Paired(), 0, 1, 0);
    InvShape(Paired(), 2, {});
    InvShape(t, 2, {});
    assert Paired().names[0] == Entry(ANN, 0);
    NameGone(Paired(), t, ANN, 0);
    RecheckNeeded(t, 2, 1, ANN);
  }
}
