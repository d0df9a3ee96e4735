/**
 The relay server in place: drops cascade through sends, sends through drops,
 and every table stays consistent whatever the sockets do.
 */
module Relay {
  import opened Basics
  import opened RelayState
  import opened RelayTables
  import opened RelayFrames
  import opened RelayEffects

  class Server {
    const maxSeats: nat
    const v1: bool               // --proto 1: direct pairing, no rooms on the wire
    const delay: byte
    const autoGo: nat
    const broken: set<nat>       // sockets the network has broken: every send on them fails
    var clients: seq<Client>
    var rooms: seq<Room>
    var names: seq<Entry>

    ghost function Now(): State
      reads this
    {
      State(clients, rooms, names)
    }

    /** The invariant, with the rooms in `loose` in the middle of being dissolved. */
    ghost predicate Ready(loose: set<int>)
      reads this
    {
      2 <= maxSeats <= ROSTER_SLOTS && autoGo <= maxSeats && Inv(Now(), maxSeats, loose)
    }

    ghost predicate Valid()
      reads this
    {
      Ready({})
    }

    /** A client index that is or was in use: what snapshots of members hold. */
    ghost predicate Slot(ci: nat)
      reads this
    {
      ci < |clients| && Seen(clients[ci])
    }

    constructor (maxSeats: nat, v1: bool, delay: byte, autoGo: nat, broken: set<nat>)
      requires 2 <= maxSeats <= ROSTER_SLOTS && autoGo <= maxSeats
      ensures Valid() && names == [] && forall i :: 0 <= i < MAX_CLIENTS ==> !clients[i].inUse
      ensures this.v1 == v1 && Orderly(Now())
    {
      this.maxSeats, this.v1, this.delay, this.autoGo, this.broken := maxSeats, v1, delay, autoGo, broken;
      clients := seq(MAX_CLIENTS, _ => Client(false, false, 0, [], -1, [], [], []));
      rooms := seq(MAX_ROOMS, _ => Room(false, [], false));
      names := [];
      new;
      NobodyOrderly(Now());
    }

    // ---- the cascade ------------------------------------------------------

    /**
     Drop a client, with everything that follows from it: only clients that
     shared its room can tell, and if they all survive, what they are told is exact.
     */
    method Drop(ci: nat, ghost loose: set<int>)
      requires Ready(loose) && Slot(ci)
      modifies this`clients, this`rooms, this`names
      ensures Ready(loose) && Shrunk(old(Now()), Now(), loose) && !Live(Now(), ci)
      ensures Spared(old(Now()), Now(), [ci])
      ensures !old(Live(Now(), ci)) ==> Now() == old(Now())
      ensures old(Live(Now(), ci)) && old(clients[ci].room) >= 0 && old(rooms[clients[ci].room].started) ==>
                !rooms[old(clients[ci].room)].used
      ensures old(Live(Now(), ci)) ==> Dropped(old(Now()), Now(), v1, ci, broken)
      decreases Count(Now()), 0
    {
      hide Inv, Shrunk, Base, Sizes, Spared, RoomSpared, VacatedTo, Freed, Doomed;
      ghost var s := Now();
      InvShape(s, maxSeats, loose);
      if clients[ci].dead {
        ShrunkRefl(s, loose);
        SparedRefl(s, [ci]);
        return;
      }
      var name := clients[ci].name;
      var ri, seat := Leave(ci, loose);
      ghost var m := Now();
      if ri >= 0 {
        Vacated(ri, seat, name, loose);
        ShrunkTrans(s, m, Now(), loose);
        StillDead(m, Now(), loose, ci);
        DropSpared(s, m, Now(), ci);
      } else {
        Whole(m, maxSeats, loose);
        RemovedSpared(s, ci);
      }
      ghost var u := Now();
      FreedSpared(s, u, ci);
      if ri >= 0 { StillInUse(m, u, loose, ci); }
      Free(ci, loose, s);
      DropMade(s, u, v1, ci, broken);
    }

    /** client_free. */
    method Free(ci: nat, ghost loose: set<int>, ghost s: State)
      requires Ready(loose) && ci < |clients| && clients[ci].dead && Shrunk(s, Now(), loose) && Live(s, ci)
      modifies this`clients
      ensures Ready(loose) && Shrunk(s, Now(), loose) && !Live(Now(), ci) && Now() == Freed(old(Now()), ci)
    {
      hide Inv, Shrunk;
      ghost var m := Now();
      InvShape(m, maxSeats, loose);
      FreedInv(s, m, maxSeats, loose, ci);
      clients := clients[ci := clients[ci].(inUse := false)];
    }

    /** What the room the client has just left does about it. */
    method Vacated(ri: nat, seat: int, name: Name, ghost loose: set<int>)
      requires 2 <= maxSeats <= ROSTER_SLOTS && autoGo <= maxSeats
      requires Base(Now(), maxSeats, loose) && Sizes(Now(), loose + {ri})
      requires ri < MAX_ROOMS && ri !in loose && rooms[ri].used && 0 <= seat
      modifies this`clients, this`rooms, this`names
      ensures Ready(loose) && Shrunk(old(Now()), Now(), loose) && RoomSpared(old(Now()), Now(), ri)
      ensures old(rooms[ri].started) ==> !rooms[ri].used
      ensures Shape(old(Now())) && (AllLive(Now(), old(rooms[ri].members)) ==> VacatedTo(old(Now()), Now(), v1, ri, seat, name))
      ensures Doomed(Now(), old(rooms[ri].members), broken)
      decreases Count(Now()), 5
    {
      hide Inv, Shrunk, Base, Sizes, Spared, RoomSpared, FannedOut, AllLive, Doomed, Roster;
      ghost var s := Now();
      BaseShape(s, maxSeats, loose);
      MembersSeen(s, maxSeats, loose, ri);
      RoomSparedRefl(s, ri);
      var m := rooms[ri].members;
      if v1 || rooms[ri].started {
        Dissolve(ri, [], loose);
        ghost var was := Now();
        ShrunkLive(s, was, loose);
        forall k | 0 <= k < |m| ensures Slot(m[k]) { StillSeen(s, was, loose, m[k]); }
        AllLiveNone(was);
        FannedNone(Closed(Unroomed(s, ri), ri), was, GoneFrame());
        SendAll(m, LeftFrame(v1, seat, name), loose);
        GroupSpared(s, was, Now(), m, ri);
        ShrunkTrans(s, was, Now(), loose);
        StillClosed(was, Now(), loose, ri);
      } else if seat == 0 || |m| < 2 {
        Dissolve(ri, m, loose);
      } else {
        Refilled(s, maxSeats, loose, ri);
        Broadcast(ri, loose);
      }
    }

    /** Every member back to the lobby, `notify` told so, the slot released. */
    method Dissolve(ri: nat, notify: seq<nat>, ghost loose: set<int>)
      requires 2 <= maxSeats <= ROSTER_SLOTS && autoGo <= maxSeats
      requires Base(Now(), maxSeats, loose) && Sizes(Now(), loose + {ri})
      requires ri < MAX_ROOMS && ri !in loose && rooms[ri].used && Distinct(notify)
      requires forall k :: 0 <= k < |notify| ==> Live(Now(), notify[k]) && clients[notify[k]].room == ri
      modifies this`clients, this`rooms, this`names
      ensures Ready(loose) && Shrunk(old(Now()), Now(), loose) && !rooms[ri].used
      ensures Shape(old(Now())) && Shape(Now()) && RoomSpared(old(Now()), Now(), ri)
      ensures forall i :: old(Live(Now(), i)) && old(clients[i].room) == ri ==> clients[i].room == -1
      ensures AllLive(Now(), notify) ==> FannedOut(Closed(Unroomed(old(Now()), ri), ri), Now(), notify, NOBODY, GoneFrame())
      ensures Doomed(Now(), notify, broken)
      decreases Count(Now()), 4
    {
      hide Inv, Shrunk, Base, Sizes, Spared, RoomSpared, FannedOut, Closed, Unroomed, Doomed;
      ghost var s := Now();
      BaseShape(s, maxSeats, loose);
      UnroomedBase(s, maxSeats, loose, ri);
      UnroomedSpared(s, ri);
      Unroom(ri, loose);
      ghost var a := Now();
      UnroomedSizes(s, maxSeats, loose, ri);
      UnroomedSeen(s, ri, notify);
      SendAll(notify, GoneFrame(), loose + {ri});
      ghost var b := Now();
      Shapes(b, maxSeats, loose + {ri});
      ShrunkRooms(a, b, loose + {ri});
      GroupSpared(s, a, b, notify, ri);
      ClosedSpared(s, b, ri);
      ClosedBase(b, maxSeats, loose, ri);
      ClosedIs(b, ri, Now());
      if AllLive(b, notify) { FannedClosed(a, b, ri, notify, GoneFrame()); }
      CloseSlot(ri, b);
      ClosedLive(b, ri, notify, broken);
      ShrunkTrans(s, a, b, loose + {ri});
      ShrunkLess(s, b, loose + {ri}, loose);
      ShrunkTrans(s, b, Now(), loose);
      Whole(Now(), maxSeats, loose);
    }

    method CloseSlot(ri: nat, ghost b: State)
      requires Shape(Now()) && ri < MAX_ROOMS && b == Now()
      modifies this`rooms
      ensures Now() == Closed(b, ri) && !rooms[ri].used
    {
      rooms := rooms[ri := rooms[ri].(used := false, members := [])];
    }

    /** The loop of dissolve that clears every member's room. */
    method Unroom(ri: nat, ghost loose: set<int>)
      requires Base(Now(), maxSeats, loose) && ri < MAX_ROOMS && ri !in loose && rooms[ri].used
      modifies this`clients
      ensures Now() == Unroomed(old(Now()), ri)
    {
      hide Base;
      ghost var s := Now();
      BaseShape(s, maxSeats, loose);
      MembersExact(s, maxSeats, loose, ri);
      var m := rooms[ri].members;
      var k := 0;
      while k < |m|
        invariant 0 <= k <= |m| && |clients| == MAX_CLIENTS
        invariant forall i :: 0 <= i < MAX_CLIENTS ==>
                    clients[i] == if i in m[..k] then s.clients[i].(room := -1) else s.clients[i]
      {
        clients := clients[m[k] := clients[m[k]].(room := -1)];
        k := k + 1;
        assert m[..k] == m[..k - 1] + [m[k - 1]];
      }
      assert m[..k] == m;
    }

    /** The roster to every member, from a snapshot: a send can drop. */
    method Broadcast(ri: nat, ghost loose: set<int>)
      requires Ready(loose) && ri < MAX_ROOMS && ri !in loose && rooms[ri].used
      modifies this`clients, this`rooms, this`names
      ensures Ready(loose) && Shrunk(old(Now()), Now(), loose) && RoomSpared(old(Now()), Now(), ri)
      ensures old(rooms[ri].started) == rooms[ri].started || !rooms[ri].used
      ensures var m := old(rooms[ri].members);
              && (AllLive(Now(), m) ==> FannedOut(old(Now()), Now(), m, NOBODY, RosterFrame(old(Now()), m)))
              && Doomed(Now(), m, broken)
      decreases Count(Now()), 4
    {
      hide Inv, Shrunk, Spared, RoomSpared, FannedOut, AllLive, Doomed, Roster;
      ghost var s := Now();
      Shapes(s, maxSeats, loose);
      MembersSeen(s, maxSeats, loose, ri);
      RoomSparedRefl(s, ri);
      var m := rooms[ri].members;
      SendAll(m, Frame(T_ROOM, [Low(|m|)] + Roster(clients, m)), loose);
      GroupSpared(s, s, Now(), m, ri);
      SameRoom(s, Now(), loose, ri);
    }

    /** One frame to each client of a snapshot. */
    method SendAll(m: seq<nat>, data: seq<byte>, ghost loose: set<int>)
      requires Ready(loose) && Distinct(m) && data != [] && forall k :: 0 <= k < |m| ==> Slot(m[k])
      modifies this`clients, this`rooms, this`names
      ensures Ready(loose) && Shrunk(old(Now()), Now(), loose) && Spared(old(Now()), Now(), m)
      ensures AllLive(Now(), m) ==> FannedOut(old(Now()), Now(), m, NOBODY, data)
      ensures Doomed(Now(), m, broken)
      decreases Count(Now()), 3
    {
      hide Inv, Shrunk, Spared, FannedOut, AllLive, Delivered;
      ghost var s := Now();
      InvShape(s, maxSeats, loose);
      ShrunkRefl(s, loose);
      SparedRefl(s, m);
      FanNone(s, m, data);
      var i := 0;
      while i < |m|
        invariant 0 <= i <= |m| && Ready(loose) && Shrunk(s, Now(), loose) && Spared(s, Now(), m)
        invariant AllLive(Now(), m) ==> FannedOut(s, Now(), m[..i], NOBODY, data)
        invariant Doomed(Now(), m[..i], broken)
      {
        ShrunkLive(s, Now(), loose);
        StillSeen(s, Now(), loose, m[i]);
        ghost var t := Now();
        SendRaw(m[i], data, loose);
        SparedStep(s, t, Now(), loose, m, i);
        FanAllStep(s, t, Now(), loose, m, i, data);
        DoomedStep(t, Now(), loose, m, i, broken);
        ShrunkTrans(s, t, Now(), loose);
        i := i + 1;
      }
      assert m[..i] == m;
    }

    /** Queue a frame; a client whose backlog it would overflow is dropped instead. */
    method SendRaw(ci: nat, data: seq<byte>, ghost loose: set<int>)
      requires Ready(loose) && Slot(ci)
      modifies this`clients, this`rooms, this`names
      ensures Ready(loose) && Shrunk(old(Now()), Now(), loose) && Spared(old(Now()), Now(), [ci])
      ensures Live(Now(), ci) ==> Delivered(old(Now()), Now(), ci, data)
      ensures ci in broken && data != [] ==> !Live(Now(), ci)
      ensures old(Live(Now(), ci)) && !Live(Now(), ci) && old(clients[ci].room) >= 0 && old(rooms[clients[ci].room].started) ==>
                !rooms[old(clients[ci].room)].used
      decreases Count(Now()), 2
    {
      hide Inv, Shrunk, TxFine, Spared, Dropped;
      ghost var s := Now();
      InvShape(s, maxSeats, loose);
      if clients[ci].dead {
        ShrunkRefl(s, loose);
        SparedRefl(s, [ci]);
        return;
      }
      InvTx(s, maxSeats, loose, ci);
      if |clients[ci].tx| + |data| > TX_CAP {
        Drop(ci, loose);
        return;
      }
      QueueMore(clients[ci], data);
      QueueInv(s, maxSeats, loose, ci, More(clients[ci], data));
      clients := clients[ci := More(clients[ci], data)];
      ghost var m := Now();
      DeliveredSpared(s, m, ci, data);
      Flush(ci, loose);
      SparedStep(s, m, Now(), loose, [ci], 0);
      ShrunkTrans(s, m, Now(), loose);
    }

    /** Hand the buffer to the socket until it is empty, would block or fails; each outcome is the network's choice. */
    method Flush(ci: nat, ghost loose: set<int>)
      requires Ready(loose) && Live(Now(), ci)
      modifies this`clients, this`rooms, this`names
      ensures Ready(loose) && Shrunk(old(Now()), Now(), loose) && Spared(old(Now()), Now(), [ci])
      ensures Live(Now(), ci) ==> Delivered(old(Now()), Now(), ci, [])
      ensures ci in broken && old(clients[ci].tx) != [] ==> !Live(Now(), ci)
      ensures !Live(Now(), ci) && old(clients[ci].room) >= 0 && old(rooms[clients[ci].room].started) ==>
                !rooms[old(clients[ci].room)].used
      decreases Count(Now()), 1
    {
      hide Inv, Shrunk, TxFine, Spared, Dropped;
      ghost var s := Now();
      InvShape(s, maxSeats, loose);
      ShrunkRefl(s, loose);
      DeliveredSpared(s, s, ci, []);
      while clients[ci].tx != []
        invariant Ready(loose) && Shrunk(s, Now(), loose) && Live(Now(), ci) && Spared(s, Now(), [ci])
        invariant Count(Now()) <= Count(s) && Delivered(s, Now(), ci, [])
        invariant ci in broken ==> clients[ci].tx == s.clients[ci].tx
        decreases |clients[ci].tx|
      {
        InvTx(Now(), maxSeats, loose, ci);
        var c := clients[ci];
        var k: int :| -1 <= k <= |c.tx| && (ci in broken ==> k <= 0);
        var blocked: bool := *;
        if k < 0 && blocked && ci !in broken { break; }
        ghost var m := Now();
        if k <= 0 {
          Drop(ci, loose);
          SparedStep(s, m, Now(), loose, [ci], 0);
          ShrunkTrans(s, m, Now(), loose);
          return;
        }
        QueueLess(c, k);
        QueueInv(m, maxSeats, loose, ci, Less(c, k));
        clients := clients[ci := Less(c, k)];
        DeliveredSpared(s, Now(), ci, []);
        ShrunkTrans(s, m, Now(), loose);
      }
    }

    /** The client dead, its registry entries deleted, its seat given up. */
    method Leave(ci: nat, ghost loose: set<int>) returns (ri: int, seat: int)
      requires Ready(loose) && Live(Now(), ci)
      modifies this`clients, this`rooms, this`names
      ensures Shape(old(Now())) && Shape(Now()) && ri == old(clients[ci].room)
      ensures ri >= 0 ==> ri < MAX_ROOMS && ci in old(rooms[ri].members)
      ensures Now() == Removed(old(Now()), ci)
      ensures ri >= 0 ==> ri < MAX_ROOMS && ri !in loose && rooms[ri].used && rooms[ri].started == old(rooms[ri].started)
      ensures ri >= 0 ==> seat == Index(old(rooms)[ri].members, ci) >= 0
      ensures ri >= 0 ==> MovedUp(old(rooms)[ri].members, rooms[ri].members, seat)
      ensures Base(Now(), maxSeats, loose) && Sizes(Now(), if ri >= 0 then loose + {ri} else loose)
      ensures Shrunk(old(Now()), Now(), loose) && Count(Now()) < old(Count(Now()))
      ensures clients[ci].dead
    {
      hide Shrunk, Base, Inv, Sizes, Without, MovedUp;
      ghost var s := Now();
      Shapes(s, maxSeats, loose);
      if clients[ci].room >= 0 { LeftSeats(s, maxSeats, loose, ci); }
      RemovedBase(s, maxSeats, loose, ci);
      RemovedSizes(s, maxSeats, loose, ci);
      clients := clients[ci := clients[ci].(dead := true)];
      DeleteNames(ci);
      ri := clients[ci].room;
      seat := -1;
      if ri >= 0 {
        seat := RoomSeat(ri, ci);
        clients := clients[ci := clients[ci].(room := -1)];
        rooms := rooms[ri := rooms[ri].(members := rooms[ri].members[..seat] + rooms[ri].members[seat + 1..])];
      } else {
        clients := clients[ci := clients[ci].(room := -1)];
      }
      RemovedParts(s, ci, Now());
    }

    /** The alias loop: from the last entry down, those of `ci` are deleted and the rest close up. */
    method DeleteNames(ci: nat)
      modifies this`names
      ensures names == Without(old(names), ci)
    {
      hide Without;
      ghost var all := names;
      var i := |names|;
      AllKept(all, ci);
      while i > 0
        invariant 0 <= i <= |all| && names == all[..i] + Without(all[i..], ci)
      {
        i := i - 1;
        WithoutStep(all, ci, i);
        if names[i].ci == ci {
          names := names[..i] + names[i + 1..];
        }
      }
      assert all[..0] == [] && all[0..] == all;
    }

    method RoomSeat(ri: nat, ci: nat) returns (k: int)
      requires ri < |rooms|
      ensures k == Index(rooms[ri].members, ci)
    {
      var m := rooms[ri].members;
      k := 0;
      while k < |m|
        invariant 0 <= k <= |m|
        invariant Index(m, ci) == -1 || Index(m, ci) >= k
      {
        if m[k] == ci { return; }
        k := k + 1;
      }
      k := -1;
    }

    // ---- connections ------------------------------------------------------

    /** A connection takes a free slot, unless all are in use or its address has eight already. */
    method Accept(ip: int) returns (ci: int)
      requires Valid()
      modifies this`clients
      ensures Valid() && rooms == old(rooms) && names == old(names)
      ensures ci < 0 ==> clients == old(clients)
      ensures ci < 0 <==> (forall i :: 0 <= i < MAX_CLIENTS ==> old(clients)[i].inUse) || FromIp(old(clients), ip) >= PER_IP
      ensures ci >= 0 ==> ci < MAX_CLIENTS && !old(clients)[ci].inUse && clients == old(clients)[ci := Fresh(ip)]
      ensures forall j :: 0 <= j < ci ==> old(clients)[j].inUse
      ensures old(Orderly(Now())) ==> Orderly(Now())
    {
      hide Inv, IpOk, WellNamed;
      InvShape(Now(), maxSeats, {});
      ghost var s := Now();
      var perIp := 0;
      var i := 0;
      while i < MAX_CLIENTS
        invariant Now() == s && Valid()
        invariant 0 <= i <= MAX_CLIENTS == |clients| && perIp == FromIp(clients[..i], ip)
      {
        FromIpMore(clients, i, ip);
        if clients[i].inUse && clients[i].ip == ip { perIp := perIp + 1; }
        i := i + 1;
      }
      assert clients[..i] == clients;
      ci := 0;
      while ci < MAX_CLIENTS && clients[ci].inUse
        invariant 0 <= ci <= MAX_CLIENTS && Now() == s && Valid()
        invariant forall j :: 0 <= j < ci ==> clients[j].inUse
      {
        ci := ci + 1;
      }
      if ci == MAX_CLIENTS || perIp >= PER_IP { return -1; }
      AcceptInv(Now(), maxSeats, ci, ip);
      AcceptIp(clients, ci, ip);
      clients := clients[ci := Fresh(ip)];
    }

    /** End of stream, a receive error or the HELLO timeout. */
    method Close(ci: nat)
      requires Valid() && Live(Now(), ci)
      modifies this`clients, this`rooms, this`names
      ensures Valid() && Shrunk(old(Now()), Now(), {}) && !Live(Now(), ci)
      ensures Spared(old(Now()), Now(), [ci]) && Dropped(old(Now()), Now(), v1, ci, broken)
      ensures old(Orderly(Now())) ==> Orderly(Now())
    {
      hide Inv, Shrunk, Spared, Dropped, Orderly;
      ghost var s := Now();
      Drop(ci, {});
      if Orderly(s) { ShrunkOrderly(s, Now(), {}); }
    }

    // ---- frames -----------------------------------------------------------

    /**
     One reassembled frame of a live client: what it does, by its type, and that
     nobody apart from the clients concerned and their room-mates can tell.
     */
    method Handle(ci: nat, kind: byte, payload: seq<byte>)
      requires Valid() && Live(Now(), ci) && |payload| <= 199
      modifies this`clients, this`rooms, this`names
      ensures Valid() && Spared(old(Now()), Now(), Concerned(old(Now()), v1, maxSeats, ci, kind, payload))
      ensures kind in {T_INPUT, T_CRC, T_STATE, T_RESYNC} ==> Relayed(old(Now()), Now(), ci, Frame(kind, payload))
      ensures kind == T_HELLO ==> Greeted(old(Now()), Now(), v1, maxSeats, ci, payload)
      ensures kind == T_LIST && Live(Now(), ci) ==> Delivered(old(Now()), Now(), ci, LobbyFrame(v1, maxSeats, old(Now()), ci))
      ensures kind == T_JOIN ==>
                if Joinable(old(Now()), v1, maxSeats, ci, payload)
                then JoinDone(old(Now()), Now(), v1, delay, autoGo, TargetOf(old(Now()), payload), ci)
                else Refused(old(Now()), Now(), v1, maxSeats, ci)
      ensures kind == T_GO && !v1 ==>
                if MayGo(old(Now()), ci) then GoDone(old(Now()), Now(), delay, ci) else Now() == old(Now())
      ensures kind == T_PING && Live(Now(), ci) ==> Delivered(old(Now()), Now(), ci, Frame(T_PONG, []))
      ensures kind !in Accepted(v1) ==> !Live(Now(), ci) && Dropped(old(Now()), Now(), v1, ci, broken)
      ensures old(Orderly(Now())) ==> Orderly(Now())
    {
      hide Inv, Shrunk, Spared, Dropped, Joinable, FannedOut, Started, Orderly, Dealt, RoomDealt, JoinHeard, JoinedBy, TargetOf, LobbyFrame;
      ghost var s := Now();
      InvShape(s, maxSeats, {});
      ghost var ordered := Orderly(s);
      ghost var lossy := true;
      if kind == T_INPUT || kind == T_CRC || kind == T_STATE || kind == T_RESYNC {
        var _ := RelayFrame(ci, Frame(kind, payload));
      } else if kind == T_HELLO {
        var registered, mid := OnHello(ci, payload);
        InvShape(Now(), maxSeats, {});
        HelloDone(s, Now(), v1, maxSeats, ci, payload, registered, mid);
        lossy := !registered;
        if ordered && registered { HelloOrderly(s, mid, Now(), v1, maxSeats, ci, Stripped(payload[1..])); }
      } else if kind == T_LIST {
        OnList(ci);
      } else if kind == T_JOIN {
        var joined, begun, ri := OnJoin(ci, payload);
        lossy := !joined;
        if joined {
          assert JoinHeard(s, Now(), v1, delay, autoGo, TargetOf(s, payload), ci, ri, begun);
          if ordered { JoinedOrderly(s, Now(), TargetOf(s, payload), ci, ri, begun); }
        }
      } else if kind == T_GO && !v1 {
        var started, seed := OnGo(ci);
        lossy := false;
        if ordered && started { StartedOrderly(s, Now(), s.clients[ci].room); }
      } else if kind == T_PING {
        SendRaw(ci, Frame(T_PONG, []), {});
      } else {
        Drop(ci, {});            // BYE, and every type a client must not send
      }
      if ordered && lossy { ShrunkOrderly(s, Now(), {}); }
    }

    /**
     A match frame: in a started room it is queued, verbatim, to every other
     member and to nobody else; if that costs the room a member the match is over.
     */
    method RelayFrame(ci: nat, data: seq<byte>) returns (relayed: bool)
      requires Valid() && Live(Now(), ci)
      modifies this`clients, this`rooms, this`names
      ensures Valid() && Shrunk(old(Now()), Now(), {}) && Spared(old(Now()), Now(), [ci])
      ensures relayed <==> old(clients[ci].room) >= 0 && old(rooms[clients[ci].room].started)
      ensures Relayed(old(Now()), Now(), ci, data)
    {
      hide Inv, Shrunk, FannedOut, Base, Sizes, Spared, RoomSpared;
      ghost var s := Now();
      InvShape(s, maxSeats, {});
      ShrunkRefl(s, {});
      SparedRefl(s, [ci]);
      Shapes(s, maxSeats, {});
      Listed(s, maxSeats, {}, ci);
      var ri := clients[ci].room;
      relayed := ri >= 0 && rooms[ri].started;
      if !relayed { return; }
      RoomSparedRefl(s, ri);
      var m := rooms[ri].members;
      FanStart(s, maxSeats, ri, ci, data);
      var i := 0;
      while i < |m|
        invariant 0 <= i <= |m| && Valid() && Shrunk(s, Now(), {}) && Shape(Now()) && RoomSpared(s, Now(), ri)
        invariant rooms[ri].used ==> FannedOut(s, Now(), m[..i], ci, data)
      {
        ghost var t := Now();
        if m[i] != ci {
          StillSeen(s, t, {}, m[i]);
          FanMember(s, t, ri, m, i, ci, data);
          SendRaw(m[i], data, {});
          InvShape(Now(), maxSeats, {});
          RoomOfMember(s, t, {}, m[i], ri);
          GroupSpared(s, t, Now(), [m[i]], ri);
          StillUsed(t, Now(), {}, ri);
          FanStep(s, t, Now(), ri, m, i, ci, data);
          ShrunkTrans(s, t, Now(), {});
        } else {
          FanSkip(s, t, ri, m, i, ci, data);
        }
        i := i + 1;
      }
      assert m[..i] == m;
      RoomIsOne(s, Now(), ci, ri);
    }

    /** LOBBY: up to eight other registered clients in registry order. */
    method OnList(ci: nat)
      requires Valid() && Live(Now(), ci)
      modifies this`clients, this`rooms, this`names
      ensures Valid() && Shrunk(old(Now()), Now(), {}) && Spared(old(Now()), Now(), [ci])
      ensures Live(Now(), ci) ==> Delivered(old(Now()), Now(), ci, LobbyFrame(v1, maxSeats, old(Now()), ci))
    {
      hide Inv, Shrunk, LobbyRow, Listing, Spared;
      ghost var s := Now();
      InvShape(s, maxSeats, {});
      ListingFrom(names, ci);
      var es: seq<Entry> := [];
      var rows: seq<byte> := [];
      var i := 0;
      while i < |names| && |es| < LOBBY_ENTRIES
        invariant 0 <= i <= |names| && |es| <= LOBBY_ENTRIES && Now() == s && Valid()
        invariant es == Without(names[..i], ci) && rows == LobbyRows(v1, maxSeats, s, es)
      {
        EntryNamed(s, i);
        WithoutLast(names, ci, i);
        if names[i].ci != ci && clients[names[i].ci].name != [] {
          rows := rows + LobbyRow(v1, maxSeats, State(clients, rooms, names), names[i]);
          es := es + [names[i]];
          assert es[..|es| - 1] == Without(names[..i], ci);
        }
        i := i + 1;
      }
      ListingIs(names, ci, i, es);
      SendRaw(ci, Frame(T_LOBBY, [|es|] + rows), {});
    }

    /**
     HELLO: a good name registers the client, replacing whoever holds it; anything
     else drops it.  `mid` is the state after the eviction, if there is one.
     */
    method OnHello(ci: nat, payload: seq<byte>) returns (registered: bool, ghost mid: State)
      requires Valid() && Live(Now(), ci)
      modifies this`clients, this`rooms, this`names
      ensures Valid() && Shape(old(Now())) && Shape(mid)
      ensures !GoodHello(v1, payload) ==>
                !registered && !Live(Now(), ci) && Shrunk(old(Now()), Now(), {}) && Spared(old(Now()), Now(), [ci])
      ensures GoodHello(v1, payload) ==>
                var name := Stripped(payload[1..]);
                var rival := Rival(old(Now()), ci, name);
                && Shrunk(old(Now()), mid, {}) && Spared(old(Now()), mid, rival) && (rival == [] ==> mid == old(Now()))
                && (forall k :: 0 <= k < |rival| ==> !Live(mid, rival[k])) && (registered <==> Live(mid, ci))
                && (rival == [] || !SharesRoom(old(Now()), ci, rival[0]) ==> registered)
                && (if registered then Named(mid, Now(), v1, maxSeats, ci, name) else Now() == mid)
    {
      hide Inv, Shrunk, Renamed, Spared, SharesRoom, Dropped;
      ghost var s := Now();
      InvShape(s, maxSeats, {});
      registered, mid := false, s;
      if |payload| < 3 || (!v1 && payload[0] != PROTO_V2) || !GoodName(Stripped(payload[1..])) {
        Drop(ci, {});
        return;
      }
      var name := Stripped(payload[1..]);
      var prior := Find(names, name);
      if prior >= 0 && names[prior].ci != ci {
        Evict(ci, name, prior);
        mid := Now();
        if clients[ci].dead { return; }
      } else {
        OnlyHolder(s, name, prior, ci);
        ShrunkRefl(s, {});
        SparedRefl(s, []);
      }
      registered := true;
      InvShape(mid, maxSeats, {});
      RenamedInv(mid, maxSeats, ci, name);
      Rename(ci, name);
      RenamedClient(mid, ci, name);
      OnList(ci);
    }

    /**
     The holder of the name is dropped.  That can cost the newcomer its own
     connection, so the caller looks again: it cannot unless the two share a room,
     and if they do, a broken socket of the newcomer is enough.
     */
    method Evict(ci: nat, name: Name, k: nat)
      requires Valid() && Live(Now(), ci) && k < |names| && names[k].name == name && names[k].ci != ci
      modifies this`clients, this`rooms, this`names
      ensures Valid() && Shape(Now()) && Shape(old(Now())) && Live(old(Now()), old(names)[k].ci)
      ensures Shrunk(old(Now()), Now(), {}) && Spared(old(Now()), Now(), [old(names)[k].ci])
      ensures !Live(Now(), old(names)[k].ci) && (Live(Now(), ci) <==> !clients[ci].dead)
      ensures forall j :: 0 <= j < |names| ==> names[j].name != name
      ensures !SharesRoom(old(Now()), ci, old(names)[k].ci) ==> Live(Now(), ci) && clients[ci] == old(clients[ci])
      ensures ci in broken ==> (Live(Now(), ci) <==> !SharesRoom(old(Now()), ci, old(names)[k].ci))
    {
      hide Inv, Shrunk, Spared, SharesRoom, Dropped;
      ghost var s := Now();
      InvShape(s, maxSeats, {});
      EntryNamed(s, k);
      var holder := names[k].ci;
      Drop(holder, {});
      InvShape(Now(), maxSeats, {});
      NameGone(s, Now(), name, k);
      AliveOrDead(s, Now(), maxSeats, {}, ci);
      EvictFate(s, Now(), maxSeats, v1, ci, holder, broken);
    }

    /** The rename itself: old alias out, name set, entry in place or at the end. */
    method Rename(ci: nat, name: Name)
      requires Valid() && Live(Now(), ci) && name != []
      requires forall k :: 0 <= k < |names| && names[k].name == name ==> names[k].ci == ci
      modifies this`clients, this`names
      ensures Now() == Renamed(old(Now()), ci, name)
      ensures rooms == old(rooms) && clients == old(clients)[ci := old(clients[ci]).(name := name)]
      ensures names == if old(clients[ci].name) == name then old(names) else Without(old(names), ci) + [Entry(name, ci)]
    {
      hide Inv, Without, EntryOk, Base, Sizes;
      ghost var s := Now();
      InvShape(s, maxSeats, {});
      EntryClients(s);
      if clients[ci].name != [] && clients[ci].name != name {
        var i := Find(names, clients[ci].name);
        AliasOf(s, ci, i);
        if i >= 0 && names[i].ci == ci {
          DeleteOne(names, i, ci);
          names := names[..i] + names[i + 1..];
        }
      } else {
        AliasNone(s, ci, name);
      }
      clients := clients[ci := clients[ci].(name := name)];
      NameSet(name, ci, s);
    }

    /** name_set: in place if the name is there, else appended; the table is never full. */
    method NameSet(name: Name, ci: nat, ghost s: State)
      requires Shape(s) && NamesOk(s) && Live(s, ci) && name != []
      requires forall k :: 0 <= k < |s.names| && s.names[k].name == name ==> s.names[k].ci == ci
      requires names == if s.clients[ci].name == name then s.names else Without(s.names, ci)
      modifies this`names
      ensures names == if s.clients[ci].name == name then old(names) else old(names) + [Entry(name, ci)]
    {
      hide Without;
      var i := Find(names, name);
      NameSlot(s, names, name, ci, i);
      if i >= 0 {
        names := names[i := Entry(name, ci)];
      } else {
        if |names| >= MAX_CLIENTS { assert false; }
        names := names + [Entry(name, ci)];
      }
    }

    // ---- rooms --------------------------------------------------------------

    /** room_alloc: the first unused slot, if any. */
    method RoomAlloc() returns (ri: int)
      requires Shape(Now())
      ensures -1 <= ri < MAX_ROOMS
      ensures if ri >= 0 then !rooms[ri].used else forall r :: 0 <= r < MAX_ROOMS ==> rooms[r].used
    {
      ri := 0;
      while ri < MAX_ROOMS
        invariant 0 <= ri <= MAX_ROOMS
        invariant forall r :: 0 <= r < ri ==> rooms[r].used
      {
        if !rooms[ri].used { return; }
        ri := ri + 1;
      }
      ri := -1;
    }

    /** A room for a waiting client, who becomes its host.  A slot is always free. */
    method Open(target: nat) returns (ri: nat)
      requires Valid() && Live(Now(), target) && clients[target].room < 0 && clients[target].name != []
      modifies this`clients, this`rooms
      ensures ri < MAX_ROOMS && Shape(old(Now())) && !old(rooms[ri].used)
      ensures Now() == Opened(old(Now()), target, ri) && Base(Now(), maxSeats, {}) && Sizes(Now(), {ri})
    {
      hide Inv, Base, Sizes;
      InvShape(Now(), maxSeats, {});
      RoomFree(Now(), maxSeats, target);
      var r := RoomAlloc();
      if r < 0 { assert false; }
      ri := r;
      OpenedBase(Now(), maxSeats, target, ri);
      clients := clients[target := clients[target].(room := ri)];
      rooms := rooms[ri := Room(true, [target], false)];
    }

    /**
     JOIN.  It succeeds exactly when the named client is registered, is someone
     else, and is waiting or (v2) sits in a forming room with a seat left.  Then
     the joiner has the last seat of the target's room, new if it had none, and
     what follows only takes away; `begun` says the match was started at once.
     */
    method OnJoin(ci: nat, payload: seq<byte>) returns (joined: bool, begun: bool, ghost room: nat)
      requires Valid() && Live(Now(), ci)
      modifies this`clients, this`rooms, this`names
      ensures Valid() && Shape(old(Now()))
      ensures joined <==> Joinable(old(Now()), v1, maxSeats, ci, payload)
      ensures joined ==>
                var target := TargetOf(old(Now()), payload);
                && JoinedBy(old(Now()), Now(), target, ci, room, begun)
                && Spared(old(Now()), Now(), [ci, target])
                && JoinHeard(old(Now()), Now(), v1, delay, autoGo, target, ci, room, begun)
      ensures !joined ==> Shrunk(old(Now()), Now(), {}) && Spared(old(Now()), Now(), [ci]) && Refused(old(Now()), Now(), v1, maxSeats, ci)
    {
      hide Inv, Shrunk, Base, Sizes, Spared, RoomSpared, FannedOut, AllLive, Dealt, Started, Dropped, RosterFrame, LobbyFrame, PairFrames, PairDealt, Joined, Opened;
      ghost var s := Now();
      InvShape(s, maxSeats, {});
      SparedRefl(s, [ci]);
      ShrunkRefl(s, {});
      joined, begun, room := false, false, 0;
      if clients[ci].name == [] {
        Drop(ci, {});
        return;
      }
      if clients[ci].room >= 0 { return; }
      var raw := Stripped(payload);
      if |raw| > 8 {
        OnList(ci);
        return;
      }
      var k := Find(names, CString(raw));
      if k >= 0 { EntryNamed(s, k); }
      var target := if k < 0 then ci else names[k].ci;
      TargetRoom(s, maxSeats, target);
      if target == ci || (v1 && clients[target].room >= 0)
         || (!v1 && clients[target].room >= 0 && (rooms[clients[target].room].started || |rooms[clients[target].room].members| >= maxSeats)) {
        OnList(ci);
        return;
      }
      joined := true;
      if v1 {
        var r, seed := StartPair(target, ci);
        begun, room := true, r;
        SeatedNew(s, target, ci, r);
        SeatedShape(s, target, ci, r);
        JoinSpared(s, Started(SeatedAt(s, target, ci, r), r), Now(), maxSeats, target, ci, r);
        JoinLined(s, Now(), maxSeats, target, ci, r, true);
        return;
      }
      var ri := Seat(target, ci);
      room := ri;
      ghost var x := Now();
      Broadcast(ri, {});
      ghost var m := Now();
      InvShape(m, maxSeats, {});
      SeatedSame(x, x, ri);
      JoinSpared(s, x, m, maxSeats, target, ci, ri);
      if autoGo > 0 && |rooms[ri].members| >= autoGo {
        UsedRoom(m, maxSeats, ri);
        var _ := StartRoom(ri);
        begun := true;
        StartedShrunk(x, m, ri);
        ShrunkTrans(Started(x, ri), Started(m, ri), Now(), {});
        RoomSparedTrans(x, m, Now(), ri);
        JoinSpared(s, x, Now(), maxSeats, target, ci, ri);
      }
      JoinLined(s, Now(), maxSeats, target, ci, ri, begun);
    }

    /** The joiner takes the last seat of the target's room; a waiting target gets one first. */
    method Seat(target: nat, ci: nat) returns (ri: nat)
      requires Valid() && Live(Now(), target) && Live(Now(), ci) && target != ci
      requires clients[target].name != [] && clients[ci].name != [] && clients[ci].room < 0
      requires clients[target].room < MAX_ROOMS
      requires clients[target].room >= 0 ==>
                 rooms[clients[target].room].used && |rooms[clients[target].room].members| < maxSeats
      modifies this`clients, this`rooms
      ensures Valid() && ri < MAX_ROOMS && Shape(old(Now())) && Shape(Now()) && rooms[ri].used
      ensures RoomFor(old(Now()), target, ri) && Now() == SeatedAt(old(Now()), target, ci, ri)
      ensures SeatedLast(Sitting(old(Now()), target, ri), rooms[ri].members, ci)
      ensures old(clients[target].room) < 0 ==> Index(rooms[ri].members, target) == 0
    {
      hide Inv, Base, Sizes, SeatedLast;
      ghost var s := Now();
      InvShape(s, maxSeats, {});
      if clients[target].room < 0 {
        ri := Open(target);
      } else {
        ri := clients[target].room;
        Thinner(s, maxSeats, ri);
      }
      OpenSeat(s, target, ci, ri, Now(), maxSeats);
      JoinedInv(Now(), maxSeats, ci, ri);
      clients := clients[ci := clients[ci].(room := ri)];
      rooms := rooms[ri := rooms[ri].(members := rooms[ri].members + [ci])];
      InvShape(Now(), maxSeats, {});
      SittingOk(s, maxSeats, target, ci, ri);
      AppendSeats(Sitting(s, target, ri), ci);
    }

    /** GO: the host of a forming room starts it; from anyone else it does nothing. */
    method OnGo(ci: nat) returns (started: bool, seed: nat)
      requires Valid() && Live(Now(), ci)
      modifies this`clients, this`rooms, this`names
      ensures Valid() && Shape(old(Now())) && Spared(old(Now()), Now(), [ci])
      ensures started <==> MayGo(old(Now()), ci)
      ensures !started ==> Now() == old(Now())
      ensures started ==>
                var r := old(clients[ci].room);
                var m := old(rooms[r].members);
                && Shrunk(Started(old(Now()), r), Now(), {})
                && 0 < seed < 0x1_0000
                && (rooms[r].used ==>
                      && Dealt(Started(old(Now()), r), Now(), m, |m|, StartFrames(m, seed, delay, Roster(old(clients), m)))
                      && RoomDealt(old(Now()), Now(), m, seed, delay))
    {
      hide Inv, Shrunk, Base, Sizes, Spared, RoomSpared, Dealt, Started, Roster, StartFrames, RoomDealt;
      ghost var s := Now();
      InvShape(s, maxSeats, {});
      SparedRefl(s, [ci]);
      started, seed := false, 0;
      var ri := clients[ci].room;
      if ri < 0 { return; }
      GoRoom(s, maxSeats, ci);
      var seat := RoomSeat(ri, ci);
      if rooms[ri].started || seat != 0 { return; }
      if |rooms[ri].members| < 2 || |rooms[ri].members| > maxSeats { assert false; }
      started := true;
      seed := StartRoom(ri);
      RoomIsOne(s, Now(), ci, ri);
    }

    /**
     START: as long as the match survives the sends, each member's queue grew by
     the START frame with its own seat, the common seed, delay and roster.
     */
    method StartRoom(ri: nat) returns (seed: nat)
      requires Valid() && ri < MAX_ROOMS && rooms[ri].used
      modifies this`clients, this`rooms, this`names
      ensures Valid() && 0 < seed < 0x1_0000 && Shape(old(Now()))
      ensures Shrunk(Started(old(Now()), ri), Now(), {}) && RoomSpared(old(Now()), Now(), ri)
      ensures rooms[ri].used ==> rooms[ri].started
      ensures var m := old(rooms[ri].members);
              rooms[ri].used ==>
                && Dealt(Started(old(Now()), ri), Now(), m, |m|, StartFrames(m, seed, delay, Roster(old(clients), m)))
                && RoomDealt(old(Now()), Now(), m, seed, delay)
    {
      hide Inv, Shrunk, Base, Sizes, Dealt, Roster, StartFrames, RoomSpared, RoomDealt;
      ghost var s := Now();
      InvShape(s, maxSeats, {});
      Shapes(s, maxSeats, {});
      StartedInv(s, maxSeats, ri);
      seed :| 0 < seed < 0x1_0000;
      rooms := rooms[ri := rooms[ri].(started := true)];
      var m := rooms[ri].members;
      var frames := StartFrames(m, seed, delay, Roster(clients, m));
      StartCount(m, seed, delay, Roster(clients, m));
      Deal(ri, m, frames);
      StartedSpared(s, Now(), ri);
      if rooms[ri].used { RoomHeard(s, Started(s, ri), Now(), m, seed, delay); }
    }

    /** One frame of its own to each member of a started room. */
    method Deal(ri: nat, m: seq<nat>, frames: seq<seq<byte>>)
      requires Valid() && ri < MAX_ROOMS && rooms[ri].used && rooms[ri].started && m == rooms[ri].members && |frames| == |m|
      modifies this`clients, this`rooms, this`names
      ensures Valid() && Shrunk(old(Now()), Now(), {}) && RoomSpared(old(Now()), Now(), ri)
      ensures rooms[ri].used ==> rooms[ri].started && Dealt(old(Now()), Now(), m, |m|, frames)
    {
      hide Inv, Shrunk, Base, Sizes, Dealt, Spared, RoomSpared;
      ghost var s := Now();
      InvShape(s, maxSeats, {});
      Shapes(s, maxSeats, {});
      FanStart(s, maxSeats, ri, 0, []);
      ShrunkRefl(s, {});
      RoomSparedRefl(s, ri);
      DealStart(s, m, frames);
      var i := 0;
      while i < |m|
        invariant 0 <= i <= |m| && Valid() && Shrunk(s, Now(), {}) && Shape(Now()) && RoomSpared(s, Now(), ri)
        invariant rooms[ri].used ==> Dealt(s, Now(), m, i, frames)
      {
        ghost var t := Now();
        StillSeen(s, t, {}, m[i]);
        DealMember(s, t, ri, m, i, frames);
        SendRaw(m[i], frames[i], {});
        InvShape(Now(), maxSeats, {});
        RoomOfMember(s, t, {}, m[i], ri);
        GroupSpared(s, t, Now(), [m[i]], ri);
        StillUsed(t, Now(), {}, ri);
        DealStep(s, t, Now(), ri, m, i, frames);
        ShrunkTrans(s, t, Now(), {});
        i := i + 1;
      }
      SameRoom(s, Now(), {}, ri);
    }

    /** v1: the waiting player is host and plays at once with the one that names it; each is told the other's name. */
    method StartPair(host: nat, guest: nat) returns (ri: nat, seed: nat)
      requires Valid() && Live(Now(), host) && Live(Now(), guest) && host != guest
      requires clients[host].room < 0 && clients[guest].room < 0 && clients[host].name != [] && clients[guest].name != []
      modifies this`clients, this`rooms, this`names
      ensures Valid() && ri < MAX_ROOMS && Shape(old(Now())) && !old(rooms[ri].used) && 0 < seed < 0x1_0000
      ensures var x := Started(Joined(Opened(old(Now()), host, ri), guest, ri), ri);
              && Shape(x) && Shrunk(x, Now(), {}) && RoomSpared(x, Now(), ri)
              && (rooms[ri].used ==>
                    && Dealt(x, Now(), [host, guest], 2, PairFrames(seed, delay, old(clients[host].name), old(clients[guest].name)))
                    && PairDealt(old(Now()), Now(), host, guest, seed, delay))
    {
      hide Inv, Shrunk, Base, Sizes, Dealt, RoomSpared, PairDealt, PairFrames;
      ghost var s := Now();
      ri := Open(host);
      JoinedInv(Now(), maxSeats, guest, ri);
      clients := clients[guest := clients[guest].(room := ri)];
      rooms := rooms[ri := rooms[ri].(members := rooms[ri].members + [guest])];
      StartedInv(Now(), maxSeats, ri);
      rooms := rooms[ri := rooms[ri].(started := true)];
      seed :| 0 < seed < 0x1_0000;
      var frames := PairFrames(seed, delay, clients[host].name, clients[guest].name);
      InvShape(Now(), maxSeats, {});
      ghost var x := Now();
      PairBytes(seed, delay, s.clients[host].name, s.clients[guest].name);
      Deal(ri, [host, guest], frames);
      InvShape(Now(), maxSeats, {});
      if rooms[ri].used { PairHeard(s, x, Now(), host, guest, seed, delay); }
    }
  }
}
