/**
 Whole runs of the relay: as long as a match lives, what reaches a member's
 queue is every frame the others send, once each, in the order it was sent.
 */
module RelayRuns {
  import opened Basics
  import opened Framing
  import opened RelayState
  import opened RelayTables
  import opened RelayFrames
  import opened RelayEffects
  import opened Relay

  /** What the server's loop is woken by; a frame is one the reassembler has completed. */
  datatype Event =
    | Came(ip: int)
    | Said(ci: nat, kind: byte, payload: seq<byte>)
    | Writable(ci: nat)
    | Gone(ci: nat)

  predicate Sized(e: Event) {
    match e
    case Came(_) => true
    case Said(ci, _, payload) => ci < MAX_CLIENTS && |payload| <= 199
    case Writable(ci) => ci < MAX_CLIENTS
    case Gone(ci) => ci < MAX_CLIENTS
  }

  predicate IsMatch(kind: byte) {
    kind == T_INPUT || kind == T_CRC || kind == T_STATE || kind == T_RESYNC
  }

  /** Of all Server.Handle promises, what bears on the queues of a match. */
  ghost predicate Answered(v1: bool, max: nat, s: State, t: State, ci: nat, kind: byte, payload: seq<byte>)
    requires Shape(s) && ci < MAX_CLIENTS && |payload| <= 199
  {
    && Spared(s, t, Concerned(s, v1, max, ci, kind, payload))
    && (IsMatch(kind) ==> Relayed(s, t, ci, Frame(kind, payload)))
    && (kind == T_HELLO ==> Greeted(s, t, v1, max, ci, payload))
    && (kind == T_LIST && Live(t, ci) ==> Delivered(s, t, ci, LobbyFrame(v1, max, s, ci)))
    && (kind == T_JOIN && !Joinable(s, v1, max, ci, payload) ==> Refused(s, t, v1, max, ci))
    && (kind == T_GO && !v1 && !MayGo(s, ci) ==> t == s)
    && (kind == T_PING && Live(t, ci) ==> Delivered(s, t, ci, Frame(T_PONG, [])))
    && (kind !in Accepted(v1) ==> !Live(t, ci))
  }

  /** An event dealt with; one for a slot without a live client is passed over. */
  ghost predicate Stepped(v1: bool, max: nat, s: State, t: State, e: Event) {
    && Inv(s, max, {}) && Inv(t, max, {}) && Shape(s) && Shape(t) && Sized(e)
    && match e
       case Came(_) => t.rooms == s.rooms && forall i :: Live(s, i) ==> t.clients[i] == s.clients[i]
       case Said(ci, kind, payload) => if Live(s, ci) then Answered(v1, max, s, t, ci, kind, payload) else t == s
       case Writable(ci) => if Live(s, ci) then Spared(s, t, [ci]) && (Live(t, ci) ==> Delivered(s, t, ci, [])) else t == s
       case Gone(ci) => if Live(s, ci) then Spared(s, t, [ci]) && !Live(t, ci) else t == s
  }

  ghost predicate Ran(v1: bool, max: nat, states: seq<State>, events: seq<Event>) {
    && |states| == |events| + 1
    && forall k :: 0 <= k < |events| ==> Stepped(v1, max, states[k], states[k + 1], events[k])
  }

  /** The events of the server's loop, one after the other. */
  method Serve(server: Server, events: seq<Event>) returns (ghost states: seq<State>)
    requires server.Valid() && forall k :: 0 <= k < |events| ==> Sized(events[k])
    modifies server`clients, server`rooms, server`names
    ensures server.Valid() && Ran(server.v1, server.maxSeats, states, events)
    ensures states[0] == old(server.Now()) && states[|events|] == server.Now()
    ensures old(Orderly(server.Now())) ==> Orderly(server.Now())
  {
    hide Inv, Spared, Stepped, Orderly;
    states := [server.Now()];
    var i := 0;
    while i < |events|
      invariant 0 <= i <= |events| && server.Valid() && |states| == i + 1
      invariant states[0] == old(server.Now()) && states[i] == server.Now()
      invariant forall k :: 0 <= k < i ==> Stepped(server.v1, server.maxSeats, states[k], states[k + 1], events[k])
      invariant old(Orderly(server.Now())) ==> Orderly(server.Now())
    {
      ghost var before := states;
      Turn(server, events[i]);
      states := states + [server.Now()];
      forall k | 0 <= k < i + 1
        ensures Stepped(server.v1, server.maxSeats, states[k], states[k + 1], events[k])
      {
        if k < i { assert states[k] == before[k] && states[k + 1] == before[k + 1]; }
      }
      i := i + 1;
    }
  }

  method Turn(server: Server, e: Event)
    requires server.Valid() && Sized(e)
    modifies server`clients, server`rooms, server`names
    ensures server.Valid() && Stepped(server.v1, server.maxSeats, old(server.Now()), server.Now(), e)
    ensures old(Orderly(server.Now())) ==> Orderly(server.Now())
  {
    hide Inv, Shrunk, Spared, Dropped, Joinable, FannedOut, Orderly, Relayed, Greeted, JoinDone, GoDone, Refused, LobbyFrame;
    ghost var s := server.Now();
    InvShape(s, server.maxSeats, {});
    match e {
      case Came(ip) =>
        var _ := server.Accept(ip);
      case Said(ci, kind, payload) =>
        if server.clients[ci].inUse && !server.clients[ci].dead { server.Handle(ci, kind, payload); }
      case Writable(ci) =>
        if server.clients[ci].inUse && !server.clients[ci].dead {
          server.Flush(ci, {});
          if Orderly(s) { ShrunkOrderly(s, server.Now(), {}); }
        }
      case Gone(ci) =>
        if server.clients[ci].inUse && !server.clients[ci].dead { server.Close(ci); }
    }
    InvShape(server.Now(), server.maxSeats, {});
  }

  // ---- one event ----------------------------------------------------------

  /** What an event adds to the queue of member `j` of room `r`; the answer to the member's own HELLO aside. */
  function Gain(v1: bool, max: nat, s: State, e: Event, r: nat, j: nat): seq<byte>
    requires Sized(e) && r < |s.rooms|
  {
    match e
    case Said(ci, kind, payload) =>
      if IsMatch(kind) then (if ci != j && ci in s.rooms[r].members then Frame(kind, payload) else [])
      else if ci != j then []
      else if kind == T_LIST then LobbyFrame(v1, max, s, j)
      else if kind == T_PING then Frame(T_PONG, [])
      else []
    case _ => []
  }

  predicate OwnHello(e: Event, j: nat) {
    e.Said? && e.ci == j && e.kind == T_HELLO
  }

  /** The room is playing before and after, with the same members. */
  ghost predicate Plays(s: State, t: State, r: nat, j: nat) {
    && r < |s.rooms| == |t.rooms| && s.rooms[r].used && s.rooms[r].started && t.rooms[r] == s.rooms[r]
    && j in s.rooms[r].members && j < |s.clients| == |t.clients|
  }

  lemma OneEvent(v1: bool, max: nat, s: State, t: State, e: Event, r: nat, j: nat)
    requires Stepped(v1, max, s, t, e) && Plays(s, t, r, j)
    ensures if OwnHello(e, j) then LobbySent(s, t, v1, max, j)
            else t.clients[j].queued == s.clients[j].queued + Gain(v1, max, s, e, r, j)
  {
    hide Inv, Spared, LobbyFrame, Answered;
    Member(s, max, r);
    Member(t, max, r);
    assert s.clients[j].queued + [] == s.clients[j].queued;
    match e {
      case Came(_) =>
      case Said(ci, kind, payload) =>
        if Live(s, ci) {
          if ci in s.rooms[r].members { FromMate(v1, max, s, t, ci, kind, payload, r, j); }
          else { FromOutside(v1, max, s, t, ci, kind, payload, r, j); }
        }
      case Writable(ci) =>
        if Live(s, ci) && ci !in s.rooms[r].members { Outside(s, t, max, [ci], r, j); }
      case Gone(ci) =>
        if Live(s, ci) && ci !in s.rooms[r].members { Outside(s, t, max, [ci], r, j); }
    }
  }

  /** Members of a used room are live and in it, and nobody else is. */
  lemma Member(s: State, max: nat, r: nat)
    requires Inv(s, max, {}) && Shape(s) && r < MAX_ROOMS && s.rooms[r].used
    ensures forall i :: i in s.rooms[r].members ==> Live(s, i) && s.clients[i].room == r
    ensures forall i :: Live(s, i) && s.clients[i].room == r ==> i in s.rooms[r].members
  {
    hide NamesOk, TxOk, Sizes;
    assert RoomOk(s, max, r);
    forall i | Live(s, i) && s.clients[i].room == r
      ensures i in s.rooms[r].members
    {
      assert SeatOk(s, {}, i);
    }
  }

  /** What concerns live clients of other rooms leaves the room's members alone. */
  lemma Outside(s: State, t: State, max: nat, m: seq<nat>, r: nat, j: nat)
    requires Inv(s, max, {}) && Shape(s) && r < MAX_ROOMS && s.rooms[r].used && j in s.rooms[r].members
    requires Spared(s, t, m) && forall k :: 0 <= k < |m| ==> Live(s, m[k]) && m[k] !in s.rooms[r].members
    ensures j < |t.clients| && t.clients[j] == s.clients[j]
  {
    hide Inv;
    Member(s, max, r);
    assert Apart(s, m, j);
  }

  lemma FromOutside(v1: bool, max: nat, s: State, t: State, ci: nat, kind: byte, payload: seq<byte>, r: nat, j: nat)
    requires Inv(s, max, {}) && Inv(t, max, {}) && Shape(s) && Shape(t) && ci < MAX_CLIENTS && |payload| <= 199
    requires Live(s, ci) && Answered(v1, max, s, t, ci, kind, payload) && Plays(s, t, r, j) && ci !in s.rooms[r].members
    ensures t.clients[j] == s.clients[j]
  {
    hide Inv, Spared, Relayed, Refused, Delivered;
    var m := Concerned(s, v1, max, ci, kind, payload);
    Member(s, max, r);
    Member(t, max, r);
    InvShape(s, max, {});
    forall k | 0 <= k < |m|
      ensures Live(s, m[k]) && m[k] !in s.rooms[r].members
    {
      ConcernedApart(v1, max, s, t, ci, kind, payload, r, k);
    }
    Outside(s, t, max, m, r, j);
  }

  /** A client whose name is taken, or that is joined, is no member of a match that goes on. */
  lemma ConcernedApart(v1: bool, max: nat, s: State, t: State, ci: nat, kind: byte, payload: seq<byte>, r: nat, k: nat)
    requires Shape(s) && Shape(t) && NamesOk(s) && ci < MAX_CLIENTS && |payload| <= 199 && Live(s, ci)
    requires Answered(v1, max, s, t, ci, kind, payload) && r < MAX_ROOMS && s.rooms[r].started
    requires forall i :: i in s.rooms[r].members ==> Live(t, i) && s.clients[i].room == r
    requires k < |Concerned(s, v1, max, ci, kind, payload)|
    ensures var x := Concerned(s, v1, max, ci, kind, payload)[k]; Live(s, x) && (x != ci ==> x !in s.rooms[r].members)
  {
    hide Spared, Relayed, Refused, Delivered, LobbySent, Apart;
    if kind == T_HELLO && GoodHello(v1, payload) {
      var name := Stripped(payload[1..]);
      if k > 0 { EntryNamed(s, Find(s.names, name)); }
    } else if kind == T_JOIN && Joinable(s, v1, max, ci, payload) {
      if k > 0 { EntryNamed(s, Sought(s.names, payload)); }
    }
  }

  lemma FromMate(v1: bool, max: nat, s: State, t: State, ci: nat, kind: byte, payload: seq<byte>, r: nat, j: nat)
    requires Inv(s, max, {}) && Inv(t, max, {}) && Shape(s) && Shape(t) && ci < MAX_CLIENTS && |payload| <= 199
    requires Live(s, ci) && Answered(v1, max, s, t, ci, kind, payload) && Plays(s, t, r, j) && ci in s.rooms[r].members
    ensures if OwnHello(Said(ci, kind, payload), j) then LobbySent(s, t, v1, max, j)
            else t.clients[j].queued == s.clients[j].queued + Gain(v1, max, s, Said(ci, kind, payload), r, j)
  {
    hide Inv, Spared, LobbyFrame, Greeted, LobbySent;
    Member(s, max, r);
    Member(t, max, r);
    assert s.clients[j].queued + [] == s.clients[j].queued;
    if kind == T_HELLO {
      InvShape(s, max, {});
      HelloInRoom(v1, max, s, t, ci, payload, r, j);
    }
  }

  lemma HelloInRoom(v1: bool, max: nat, s: State, t: State, ci: nat, payload: seq<byte>, r: nat, j: nat)
    requires Shape(s) && Shape(t) && NamesOk(s) && ci < MAX_CLIENTS && Live(s, ci) && Greeted(s, t, v1, max, ci, payload)
    requires Plays(s, t, r, j) && ci in s.rooms[r].members
    requires forall i :: i in s.rooms[r].members ==> Live(s, i) && Live(t, i) && s.clients[i].room == r
    requires forall i :: Live(s, i) && s.clients[i].room == r ==> i in s.rooms[r].members
    ensures if ci == j then LobbySent(s, t, v1, max, j) else t.clients[j] == s.clients[j]
  {
    hide LobbySent;
    HelloLong(v1, payload);
    var name := Stripped(payload[1..]);
    var rival := Rival(s, ci, name);
    if rival != [] { EntryNamed(s, Find(s.names, name)); assert !Live(t, rival[0]); }
    assert Apart(s, rival, j);
  }

  // ---- whole runs ---------------------------------------------------------

  /**
   In every run, for every room that plays throughout it and every member: the
   member's queue ends as it began followed by one piece an event, in order,
   where the piece is the match frame itself if another member sent one, the
   answer if the member itself asked for the lobby or pinged or gave its name,
   and nothing for any other event of anybody.
   */
  lemma {:induction false} InOrder(v1: bool, max: nat, states: seq<State>, events: seq<Event>, r: nat, j: nat) returns (pieces: seq<seq<byte>>)
    requires Ran(v1, max, states, events) && forall k :: 0 <= k < |events| ==> Plays(states[k], states[k + 1], r, j)
    requires r < MAX_ROOMS && j < MAX_CLIENTS && Shape(states[0]) && Shape(states[|events|])
    ensures |pieces| == |events|
    ensures states[|events|].clients[j].queued == states[0].clients[j].queued + Flat(pieces)
    ensures forall k :: 0 <= k < |events| ==> Piece(v1, max, states[k], events[k], r, j, pieces[k])
    decreases |events|
  {
    hide Stepped, Plays, Piece;
    if events == [] {
      pieces := [];
      assert states[0].clients[j].queued + Flat([]) == states[0].clients[j].queued;
    } else {
      RunTail(v1, max, states, events, r, j);
      var rest := InOrder(v1, max, states[1..], events[1..], r, j);
      var x := OnePiece(v1, max, states[0], states[1], events[0], r, j);
      pieces := [x] + rest;
      assert pieces[1..] == rest;
      assert states[0].clients[j].queued + x + Flat(rest) == states[0].clients[j].queued + (x + Flat(rest));
    }
  }

  /** The piece an event adds. */
  ghost predicate Piece(v1: bool, max: nat, s: State, e: Event, r: nat, j: nat, x: seq<byte>) {
    && Sized(e) && r < |s.rooms|
    && if OwnHello(e, j) then exists u: State :: x == LobbyFrame(v1, max, u, j) else x == Gain(v1, max, s, e, r, j)
  }

  lemma OnePiece(v1: bool, max: nat, s: State, t: State, e: Event, r: nat, j: nat) returns (x: seq<byte>)
    requires Stepped(v1, max, s, t, e) && Plays(s, t, r, j)
    ensures Piece(v1, max, s, e, r, j, x) && t.clients[j].queued == s.clients[j].queued + x
  {
    hide Inv, Spared, Answered, LobbyFrame;
    OneEvent(v1, max, s, t, e, r, j);
    if OwnHello(e, j) {
      var u: State :| t.clients[j].queued == s.clients[j].queued + LobbyFrame(v1, max, u, j);
      x := LobbyFrame(v1, max, u, j);
    } else {
      x := Gain(v1, max, s, e, r, j);
    }
  }

  lemma RunTail(v1: bool, max: nat, states: seq<State>, events: seq<Event>, r: nat, j: nat)
    requires Ran(v1, max, states, events) && events != [] && forall k :: 0 <= k < |events| ==> Plays(states[k], states[k + 1], r, j)
    ensures Ran(v1, max, states[1..], events[1..]) && states[1..][|events| - 1] == states[|events|]
    ensures forall k :: 0 <= k < |events[1..]| ==> Plays(states[1..][k], states[1..][k + 1], r, j)
    ensures Shape(states[0]) && Shape(states[1]) && Stepped(v1, max, states[0], states[1], events[0]) && Plays(states[0], states[1], r, j)
  {
    hide Plays;
    assert Stepped(v1, max, states[0], states[1], events[0]);
    assert Shape(states[0]) && Shape(states[1]);
    hide Stepped;
    assert Plays(states[0], states[0 + 1], r, j);
    forall k | 0 <= k < |events[1..]|
      ensures Stepped(v1, max, states[1..][k], states[1..][k + 1], events[1..][k]) && Plays(states[1..][k], states[1..][k + 1], r, j)
    {
      assert Stepped(v1, max, states[k + 1], states[k + 1 + 1], events[k + 1]);
      assert Plays(states[k + 1], states[k + 1 + 1], r, j);
    }
  }
}
