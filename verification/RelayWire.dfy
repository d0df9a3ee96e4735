/**
 The relay and the console on the wire: what the lobby list tells a player it
 may do, and that the two ends agree on every frame they exchange.
 */
module RelayWire {
  import opened Basics
  import opened RelayState
  import opened RelayTables
  import opened RelayFrames
  import opened RelayEffects
  import F = Framing
  import W = Wire
  import Console

  // ---- the lobby list -------------------------------------------------------

  /** How many of the entries are not client `ci`'s. */
  function Others(names: seq<Entry>, ci: nat): nat {
    if names == [] then 0 else Others(names[..|names| - 1], ci) + Bit(names[|names| - 1].ci != ci)
  }

  /** Entry `j` is the `k`-th of the others. */
  ghost predicate Nth(names: seq<Entry>, ci: nat, k: nat, j: nat) {
    j < |names| && names[j].ci != ci && Others(names[..j], ci) == k
  }

  lemma {:induction false} OthersCount(names: seq<Entry>, ci: nat)
    ensures |Without(names, ci)| == Others(names, ci)
    decreases |names|
  {
    if names != [] {
      var n := |names| - 1;
      OthersCount(names[..n], ci);
      WithoutLast(names, ci, n);
      assert names[..n + 1] == names;
    }
  }

  /** The filtered registry, position by position. */
  lemma {:induction false} WithoutNth(names: seq<Entry>, ci: nat, k: nat) returns (j: nat)
    requires k < |Without(names, ci)|
    ensures Nth(names, ci, k, j) && Without(names, ci)[k] == names[j]
    decreases |names|
  {
    var n := |names| - 1;
    if names == [] { assert false; }
    WithoutLast(names, ci, n);
    assert names[..n + 1] == names;
    OthersCount(names[..n], ci);
    if k < |Without(names[..n], ci)| {
      j := WithoutNth(names[..n], ci, k);
      assert names[..n][..j] == names[..j];
    } else {
      j := n;
    }
  }

  /** The status byte of a lobby row, by the client's room. */
  ghost predicate StatusSaid(b: byte, v1: bool, max: nat, s: State, c: Client) {
    var r := c.room;
    if v1 then b == Bit(r >= 0)
    else if r < 0 || r >= |s.rooms| then b == 1
    else
      var n := |s.rooms[r].members|;
      n < 128 ==> b == n + if s.rooms[r].started || n >= max then 128 else 0
  }

  lemma StatusBytes(v1: bool, max: nat, s: State, c: Client)
    ensures StatusSaid(Status(v1, max, s.rooms, c.room), v1, max, s, c)
  {
    hide Low;
    if !v1 && 0 <= c.room < |s.rooms| {
      var n := |s.rooms[c.room].members|;
      if n < 128 { SmallLow(n + if s.rooms[c.room].started || n >= max then 128 else 0); }
    }
  }

  lemma SmallLow(x: nat)
    requires x < 256
    ensures Low(x) == x
  {
  }

  lemma LowHigh(x: int) returns (lo: int, hi: int)
    ensures lo == Low(x) && hi == High(x) && lo + 256 * hi == x % 0x1_0000
  {
    lo, hi := Low(x), High(x);
  }

  lemma {:induction false} RowsAt(v1: bool, max: nat, s: State, es: seq<Entry>, k: nat)
    requires k < |es|
    ensures LobbyRows(v1, max, s, es)[9 * k..9 * k + 9] == LobbyRow(v1, max, s, es[k])
    decreases |es|
  {
    hide LobbyRow;
    var n := |es| - 1;
    var front, last := LobbyRows(v1, max, s, es[..n]), LobbyRow(v1, max, s, es[n]);
    assert LobbyRows(v1, max, s, es) == front + last;
    if k < n {
      RowsAt(v1, max, s, es[..n], k);
      assert (front + last)[9 * k..9 * k + 9] == front[9 * k..9 * k + 9];
    } else {
      assert (front + last)[9 * k..9 * k + 9] == last;
    }
  }

  /** Row `k` of the list is the `k`-th other entry: its client's name and status. */
  ghost predicate RowSaid(f: seq<byte>, k: nat, v1: bool, max: nat, s: State, ci: nat, j: nat) {
    && 12 + 9 * k <= |f| && Nth(s.names, ci, k, j) && s.names[j].ci < |s.clients|
    && NameAt(f, 3 + 9 * k, s.names[j].name) && StatusSaid(f[11 + 9 * k], v1, max, s, s.clients[s.names[j].ci])
  }

  lemma LobbyBytes(v1: bool, max: nat, s: State, ci: nat)
    ensures var f, n := LobbyFrame(v1, max, s, ci), Min(8, Others(s.names, ci));
            |f| == 3 + 9 * n && f[0] == 2 + 9 * n && f[1] == 3 && f[2] == n
  {
    OthersCount(s.names, ci);
  }

  lemma LobbyRowSaid(v1: bool, max: nat, s: State, ci: nat, k: nat) returns (j: nat)
    requires NamesOk(s) && k < Min(8, Others(s.names, ci))
    ensures RowSaid(LobbyFrame(v1, max, s, ci), k, v1, max, s, ci, j)
  {
    hide Status, StatusSaid, PadName, Stripped, GoodName, Without, LobbyRows;
    LobbyBytes(v1, max, s, ci);
    OthersCount(s.names, ci);
    j := WithoutNth(s.names, ci, k);
    EntryNamed(s, j);
    var es, f := Listing(s.names, ci), LobbyFrame(v1, max, s, ci);
    var e := s.names[j];
    assert es[k] == e;
    RowsAt(v1, max, s, es, k);
    var rows := LobbyRows(v1, max, s, es);
    assert f == [2 + 9 * |es|, 3, |es|] + rows;
    var row := LobbyRow(v1, max, s, e);
    assert f[3 + 9 * k..12 + 9 * k] == rows[9 * k..9 * k + 9] == row;
    assert f[3 + 9 * k..11 + 9 * k] == row[..8] == PadName(e.name);
    assert f[11 + 9 * k] == row[8];
    if GoodName(e.name) { PadStrips(e.name); }
    StatusBytes(v1, max, s, s.clients[e.ci]);
  }

  /**
   The list is honest: a JOIN of a listed name finds the client listed, and it
   is let in exactly if the row's status says so.
   */
  lemma LobbyHonest(v1: bool, max: nat, s: State, ci: nat, k: nat) returns (j: nat)
    requires Inv(s, max, {}) && WellNamed(s.names) && 2 <= max <= 4 && Live(s, ci)
    requires k < Min(8, Others(s.names, ci)) && s.clients[ci].name != [] && s.clients[ci].room < 0
    ensures var f := LobbyFrame(v1, max, s, ci);
            && 12 + 9 * k <= |f| && Shape(s)
            && var name, status := f[3 + 9 * k..11 + 9 * k], f[11 + 9 * k];
            && Sought(s.names, name) == j && Nth(s.names, ci, k, j)
            && (Joinable(s, v1, max, ci, name) <==> if v1 then status == 0 else status < 128)
  {
    hide Inv, GoodName, Stripped, CString, LobbyFrame;
    InvShape(s, max, {});
    j := LobbyRowSaid(v1, max, s, ci, k);
    var name := LobbyFrame(v1, max, s, ci)[3 + 9 * k..11 + 9 * k];
    FoundAgain(s, name, j);
    RoomSize(s, max, s.names[j].ci);
  }

  lemma FoundAgain(s: State, name: seq<byte>, j: nat)
    requires NamesOk(s) && WellNamed(s.names) && j < |s.names| && Stripped(name) == s.names[j].name
    ensures Sought(s.names, name) == j
  {
    var n := s.names[j].name;
    assert GoodName(n);
    Terminated(n);
    assert Find(s.names, n) >= 0;
  }

  lemma Terminated(n: Name)
    requires GoodName(n)
    ensures CString(n) == n && |n| <= 8
  {
  }

  lemma RoomSize(s: State, max: nat, i: nat)
    requires Inv(s, max, {}) && Live(s, i)
    ensures var r := s.clients[i].room; r >= 0 ==> r < MAX_ROOMS && |s.rooms[r].members| <= max
  {
    hide NamesOk, TxOk;
    assert SeatOk(s, {}, i);
  }

  // ---- a member leaves ------------------------------------------------------

  /** What its room-mate `x` is told when `ci` leaves and nobody else is lost. */
  ghost predicate Told(s: State, t: State, v1: bool, ci: nat, x: nat, f: seq<byte>)
    requires Shape(s) && ci < MAX_CLIENTS && 0 <= s.clients[ci].room < MAX_ROOMS && ci in s.rooms[s.clients[ci].room].members
  {
    var r := s.clients[ci].room;
    var m, seat := s.rooms[r].members, Index(s.rooms[r].members, ci);
    && Grew(s, t, x, f)
    && if v1 then f == [1, 11]
       else if s.rooms[r].started then
         |f| == 11 && f[0] == 10 && f[1] == 11 && f[2] == seat && NameAt(f, 3, s.clients[ci].name)
       else
         |f| == 35 && f[0] == 34 && f[1] == 14 &&
         if seat == 0 || |m| <= 2 then forall i :: 2 <= i < 35 ==> f[i] == 0
         else f[2] == |m| - 1 && RosterAt(f, 3, s.clients, RemoveAt(m, seat))
  }

  /**
   A drop that costs nobody else: in a match every room-mate is told the seat and
   the name, and the match is over; in a forming room that loses its host or has
   one left everybody is back in the lobby; else the room goes on under a new roster.
   */
  lemma MatesTold(s: State, t: State, max: nat, v1: bool, ci: nat, broken: set<nat>, x: nat) returns (f: seq<byte>)
    requires Inv(s, max, {}) && max <= 4 && Live(s, ci) && Dropped(s, t, v1, ci, broken)
    requires Shape(s) && ci < MAX_CLIENTS && 0 <= s.clients[ci].room < MAX_ROOMS
    requires var m := s.rooms[s.clients[ci].room].members;
             x in m && x != ci && ci in m && AllLive(t, RemoveAt(m, Index(m, ci)))
    ensures x < |t.clients| && |t.rooms| == MAX_ROOMS && Told(s, t, v1, ci, x, f)
    ensures var r := s.clients[ci].room;
            var m := s.rooms[r].members;
            var over := v1 || s.rooms[r].started || Index(m, ci) == 0 || |m| <= 2;
            && t.clients[x].room == (if over then -1 else r)
            && (over ==> !t.rooms[r].used)
            && (!over ==> t.rooms[r].used && t.rooms[r].members == RemoveAt(m, Index(m, ci)))
  {
    hide Inv, LeftFrame, GoneFrame, RosterFrame, RemoveAt, RosterAt, NameAt, Without, Removed, VacatedTo, Unroomed, Doomed;
    var r := s.clients[ci].room;
    var m := s.rooms[r].members;
    var seat := Index(m, ci);
    MembersIn(s, max, r);
    RemoveKeeps(m, seat);
    RemovedIs(s, ci, x);
    var a, n := Removed(s, ci), RemoveAt(m, seat);
    LeftBytes(v1, seat, s.clients[ci].name);
    RoomBytes(a, n);
    RosterSame(RosterFrame(a, n), s.clients, a.clients, n);
    f := if v1 || s.rooms[r].started then LeftFrame(v1, seat, s.clients[ci].name)
         else if seat == 0 || |m| <= 2 then GoneFrame()
         else RosterFrame(a, n);
    VacatedMate(a, WithClient(t, ci, t.clients[ci].(inUse := true)), v1, r, seat, s.clients[ci].name, x, f);
  }

  lemma RemovedIs(s: State, ci: nat, x: nat)
    requires Shape(s) && ci < MAX_CLIENTS && 0 <= s.clients[ci].room < MAX_ROOMS && ci in s.rooms[s.clients[ci].room].members
    ensures var r, a := s.clients[ci].room, Removed(s, ci);
            && Shape(a) && a.rooms[r] == s.rooms[r].(members := RemoveAt(s.rooms[r].members, Index(s.rooms[r].members, ci)))
            && (x < MAX_CLIENTS && x != ci ==> a.clients[x] == s.clients[x])
            && (forall i :: 0 <= i < MAX_CLIENTS ==> a.clients[i].name == s.clients[i].name)
  {
  }

  /** What the room left behind tells one of its members, and where that leaves it. */
  lemma VacatedMate(a: State, t: State, v1: bool, r: nat, seat: int, name: Name, x: nat, f: seq<byte>)
    requires Shape(a) && r < MAX_ROOMS && VacatedTo(a, t, v1, r, seat, name)
    requires x < MAX_CLIENTS && x in a.rooms[r].members && Live(a, x) && a.clients[x].room == r && a.rooms[r].used
    requires f == if v1 || a.rooms[r].started then LeftFrame(v1, seat, name)
                  else if seat == 0 || |a.rooms[r].members| < 2 then GoneFrame()
                  else RosterFrame(a, a.rooms[r].members)
    ensures |t.clients| == |a.clients| && |t.rooms| == |a.rooms| && Grew(a, t, x, f)
    ensures var over := v1 || a.rooms[r].started || seat == 0 || |a.rooms[r].members| < 2;
            && t.clients[x].room == (if over then -1 else r)
            && (if over then !t.rooms[r].used else t.rooms[r] == a.rooms[r])
  {
    hide LeftFrame, GoneFrame, RosterFrame;
  }

  lemma MembersIn(s: State, max: nat, r: nat)
    requires Inv(s, max, {}) && Shape(s) && r < MAX_ROOMS && s.rooms[r].members != []
    ensures s.rooms[r].used && Distinct(s.rooms[r].members) && |s.rooms[r].members| <= max
    ensures forall i :: i in s.rooms[r].members ==> Live(s, i) && i < MAX_CLIENTS && s.clients[i].room == r
  {
    assert RoomOk(s, max, r);
  }

  /** Names do not depend on who has died. */
  lemma RosterSame(f: seq<byte>, a: seq<Client>, b: seq<Client>, m: seq<nat>)
    requires |a| == |b| && forall i :: 0 <= i < |a| ==> a[i].name == b[i].name
    ensures RosterAt(f, 3, a, m) <==> RosterAt(f, 3, b, m)
  {
    hide NameAt;
  }

  // ---- the console's side -------------------------------------------------

  /** The two ends give the frame types the same numbers. */
  lemma SameTypes()
    ensures T_INPUT == W.FT_INPUT && T_CRC == W.FT_CRC && T_STATE == W.FT_STATE && T_RESYNC == W.FT_RESYNC
    ensures T_START == W.FT_START && T_PEER_LEFT == W.FT_PEER_LEFT
  {
  }

  /**
   Who may say GO is who finds its own name in the first place of the roster,
   which is how a console knows that it is the host.
   */
  lemma HostKnows(s: State, max: nat, ci: nat, r: nat)
    requires Inv(s, max, {}) && WellNamed(s.names) && Shape(s) && r < MAX_ROOMS && s.rooms[r].used && !s.rooms[r].started
    requires ci in s.rooms[r].members && ci < MAX_CLIENTS
    ensures var f := RosterFrame(s, s.rooms[r].members);
            |f| == 35 && (MayGo(s, ci) <==> Stripped(f[3..11]) == s.clients[ci].name)
  {
    hide Inv, GoodName, Stripped, RosterFrame, PadName;
    var m := s.rooms[r].members;
    RoomBytes(s, m);
    MembersIn(s, max, r);
    InvShape(s, max, {});
    MemberNamed(s, max, r, m[0]);
    MemberNamed(s, max, r, ci);
    assert NameAt(RosterFrame(s, m), 3 + 8 * 0, s.clients[m[0]].name);
    if m[0] != ci { NamesDiffer(s, m[0], ci); }
  }

  lemma MemberNamed(s: State, max: nat, r: nat, i: nat)
    requires Inv(s, max, {}) && WellNamed(s.names) && Shape(s) && r < MAX_ROOMS && s.rooms[r].used && i in s.rooms[r].members
    ensures Live(s, i) && s.clients[i].name != [] && GoodName(s.clients[i].name)
  {
    hide GoodName;
    assert RoomOk(s, max, r);
    assert Entry(s.clients[i].name, i) in s.names;
  }

  lemma NamesDiffer(s: State, i: nat, j: nat)
    requires NamesOk(s) && Live(s, i) && Live(s, j) && i != j && s.clients[i].name != [] && s.clients[j].name != []
    ensures s.clients[i].name != s.clients[j].name
  {
    var a, b := Entry(s.clients[i].name, i), Entry(s.clients[j].name, j);
    var p :| 0 <= p < |s.names| && s.names[p] == a;
    var q :| 0 <= q < |s.names| && s.names[q] == b;
  }

  /** Every frame a v2 relay makes has a length the console's table lets through. */
  lemma RelayFits(s: State, m: seq<nat>, max: nat, ci: nat, k: nat, seat: nat, seed: nat, delay: byte, name: Name)
    requires k < |m|
    ensures F.Fits(StartFrames(m, seed, delay, Roster(s.clients, m))[k])
    ensures F.Fits(RosterFrame(s, m)) && F.Fits(GoneFrame()) && F.Fits(LeftFrame(false, seat, name))
    ensures F.Fits(LobbyFrame(false, max, s, ci)) && F.Fits(Frame(T_PONG, []))
  {
    hide Roster, LobbyFrame, RosterFrame, GoneFrame, LeftFrame, StartFrames, StartSaid, RosterAt, NameAt;
    StartLen(s.clients, m, seed, delay, k);
    RoomBytes(s, m);
    LeftBytes(false, seat, name);
    LobbyBytes(false, max, s, ci);
  }

  lemma StartLen(clients: seq<Client>, m: seq<nat>, seed: nat, delay: byte, k: nat)
    requires k < |m|
    ensures var f := StartFrames(m, seed, delay, Roster(clients, m))[k]; |f| == 39 && f[0] == 38 && f[1] == 5
  {
    hide RosterAt;
    StartBytes(clients, m, seed, delay, k);
  }

  /** The match frames byte by byte: 16-bit fields come low byte first. */
  lemma MatchBytes(f: Console.Frame)
    requires W.Sendable(f)
    ensures var b := W.Encode(f);
            && |b| >= 4 && b[0] == |b| - 1
            && match f
               case Input(_, seat, x, cell) => |b| == 7 && b[1] == 6 && b[2] == seat && WordAt(b, 3, x) && b[5] == cell.dec && b[6] == cell.kp
               case Crc(_, seat, x, crc) => |b| == 7 && b[1] == 7 && b[2] == seat && WordAt(b, 3, x) && WordAt(b, 5, crc)
               case Resync(_, x) => |b| == 4 && b[1] == 9 && WordAt(b, 2, x)
               case Begin(_, r) => |b| == 6 && b[1] == 8 && b[2] == 0 && b[3] == 0xFF && WordAt(b, 4, r)
               case Data(_, pos, data) => b[1] == 8 && WordAt(b, 2, pos) && b[4..] == data
               case End(_) => |b| == 4 && b[1] == 8 && b[2] == 1 && b[3] == 0xFF
  {
  }

  predicate WordAt(b: seq<byte>, at: nat, x: int) {
    at + 2 <= |b| && b[at] == x % 256 && b[at + 1] == (x / 256) % 256
  }

  /** log_crc: seat, tick and checksum of a CRC payload. */
  function CrcRead(payload: seq<byte>): (nat, int, int)
    requires |payload| == 5
  {
    var tickLo: int, tickHi: int, crcLo: int, crcHi: int := payload[1], payload[2], payload[3], payload[4];
    (payload[0], tickLo + 256 * tickHi, crcLo + 256 * crcHi)
  }

  /** The relay compares what the console reports: its seat, its tick's 16 bits, its checksum. */
  lemma CrcHeard(f: Console.Frame)
    requires W.Sendable(f) && f.Crc?
    ensures var b := W.Encode(f);
            |b| == 7 && b[1] == T_CRC && CrcRead(b[2..]) == (f.seat, f.tick % 0x1_0000, f.crc)
  {
    hide Low, High;
    var lo, hi := LowHigh(f.tick);
    lo, hi := LowHigh(f.crc);
    assert f.crc % 0x1_0000 == f.crc;
  }
}
