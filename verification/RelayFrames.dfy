/** What the relay puts on the wire, and what it accepts as a HELLO. */
module RelayFrames {
  import opened Basics
  import opened RelayState

  const T_HELLO := 1
  const T_LIST := 2
  const T_LOBBY := 3
  const T_JOIN := 4
  const T_START := 5
  const T_INPUT := 6
  const T_CRC := 7
  const T_STATE := 8
  const T_RESYNC := 9
  const T_PEER_LEFT := 11
  const T_PING := 12
  const T_PONG := 13
  const T_ROOM := 14
  const T_GO := 15

  const ROSTER_SLOTS := 4
  const LOBBY_ENTRIES := 8

  /** A frame: length byte counting type and payload, type, payload. */
  function Frame(kind: byte, payload: seq<byte>): (f: seq<byte>)
    requires |payload| < 255
    ensures |f| == |payload| + 2
  {
    [|payload| + 1, kind] + payload
  }

  function Zeros(n: nat): (z: seq<byte>)
    ensures |z| == n
  {
    seq(n, _ => 0)
  }

  /** name8: cut to 8 bytes or padded with NULs. */
  function PadName(name: Name): (p: seq<byte>)
    ensures |p| == 8
  {
    if |name| >= 8 then name[..8] else name + Zeros(8 - |name|)
  }

  function Names8(clients: seq<Client>, members: seq<nat>): (p: seq<byte>)
    ensures |p| == 8 * |members|
  {
    if members == [] then []
    else (if members[0] < |clients| then PadName(clients[members[0]].name) else Zeros(8)) + Names8(clients, members[1..])
  }

  /** Four name8 slots in seat order, unused ones all NUL. */
  function Roster(clients: seq<Client>, members: seq<nat>): (p: seq<byte>)
    ensures |p| == 8 * ROSTER_SLOTS
  {
    var m := if |members| <= ROSTER_SLOTS then members else members[..ROSTER_SLOTS];
    Names8(clients, m) + Zeros(8 * (ROSTER_SLOTS - |m|))
  }

  /** PEER_LEFT: empty in v1; else the seat and name of whoever left. */
  function LeftFrame(v1: bool, seat: int, name: Name): seq<byte> {
    if v1 then Frame(T_PEER_LEFT, []) else Frame(T_PEER_LEFT, [Low(seat)] + PadName(name))
  }

  /** ROOM with count 0: back to the lobby. */
  function GoneFrame(): seq<byte> {
    Frame(T_ROOM, Zeros(1 + 8 * ROSTER_SLOTS))
  }

  function RosterFrame(s: State, m: seq<nat>): seq<byte> {
    Frame(T_ROOM, [Low(|m|)] + Roster(s.clients, m))
  }

  const PROTO_V2 := 2

  /** A wire name without its trailing NULs and spaces. */
  function Stripped(s: seq<byte>): (r: seq<byte>)
    ensures |r| <= |s| && r == s[..|r|]
    ensures r != [] ==> r[|r| - 1] !in {0, 0x20}
    ensures forall i :: |r| <= i < |s| ==> s[i] in {0, 0x20}
  {
    if s != [] && s[|s| - 1] in {0, 0x20} then Stripped(s[..|s| - 1]) else s
  }

  /** Up to the first NUL: what C takes a name to be. */
  function CString(s: seq<byte>): (r: seq<byte>)
    ensures |r| <= |s| && r == s[..|r|] && 0 !in r
    ensures if |r| < |s| then s[|r|] == 0 else 0 !in s
  {
    if s == [] || s[0] == 0 then [] else [s[0]] + CString(s[1..])
  }

  predicate NameChar(b: byte) {
    0x41 <= b <= 0x5A || 0x30 <= b <= 0x39
  }

  predicate GoodName(n: Name) {
    2 <= |n| <= 8 && forall i :: 0 <= i < |n| ==> NameChar(n[i])
  }

  /** HELLO is accepted: long enough, the right version (checked on v2 only), and a good name. */
  predicate GoodHello(v1: bool, payload: seq<byte>) {
    |payload| >= 3 && (v1 || payload[0] == PROTO_V2) && GoodName(Stripped(payload[1..]))
  }

  /** Lobby status: v1 idle/busy; v2 the member count, bit 7 when started or full. */
  function Status(v1: bool, maxSeats: nat, rooms: seq<Room>, room: int): byte {
    if v1 then (if room < 0 then 0 else 1)
    else if room < 0 || room >= |rooms| then 1
    else
      var n := |rooms[room].members|;
      Low((if rooms[room].started || n >= maxSeats then 0x80 else 0) + n)
  }

  function LobbyRow(v1: bool, maxSeats: nat, s: State, e: Entry): (r: seq<byte>)
    ensures |r| == 9
  {
    if e.ci < |s.clients| then PadName(s.clients[e.ci].name) + [Status(v1, maxSeats, s.rooms, s.clients[e.ci].room)]
    else Zeros(9)
  }

  function LobbyRows(v1: bool, maxSeats: nat, s: State, es: seq<Entry>): (r: seq<byte>)
    ensures |r| == 9 * |es|
  {
    if es == [] then [] else LobbyRows(v1, maxSeats, s, es[..|es| - 1]) + LobbyRow(v1, maxSeats, s, es[|es| - 1])
  }

  /** The first eight registered clients other than `ci`, in registry order. */
  function Listing(names: seq<Entry>, ci: nat): (es: seq<Entry>)
    ensures |es| <= LOBBY_ENTRIES
  {
    var others := Without(names, ci);
    if |others| <= LOBBY_ENTRIES then others else others[..LOBBY_ENTRIES]
  }

  function LobbyFrame(v1: bool, maxSeats: nat, s: State, ci: nat): seq<byte> {
    var es := Listing(s.names, ci);
    Frame(T_LOBBY, [|es|] + LobbyRows(v1, maxSeats, s, es))
  }

  /** The v2 START frames of a room, by seat. */
  function StartFrames(m: seq<nat>, seed: nat, delay: byte, roster: seq<byte>): (fs: seq<seq<byte>>)
    requires |roster| == 8 * ROSTER_SLOTS
    ensures |fs| == |m|
    ensures forall i :: 0 <= i < |m| ==> fs[i] == Frame(T_START, [Low(i), Low(|m|), Low(seed), High(seed), delay] + roster)
  {
    seq(|m|, i requires 0 <= i < |m| => Frame(T_START, [Low(i), Low(|m|), Low(seed), High(seed), delay] + roster))
  }

  lemma StartCount(m: seq<nat>, seed: nat, delay: byte, roster: seq<byte>)
    requires |roster| == 8 * ROSTER_SLOTS
    ensures |StartFrames(m, seed, delay, roster)| == |m|
  {
  }

  /** The two v1 START frames: role, seed, delay, opponent. */
  function PairFrames(seed: nat, delay: byte, host: Name, guest: Name): seq<seq<byte>> {
    [Frame(T_START, [0, Low(seed), High(seed), delay] + PadName(guest)),
     Frame(T_START, [1, Low(seed), High(seed), delay] + PadName(host))]
  }

  // ---- what a console reads in them ------------------------------------------

  lemma {:induction false} StripPad(n: Name, k: nat)
    requires n != [] ==> n[|n| - 1] !in {0, 0x20}
    ensures Stripped(n + Zeros(k)) == n
    decreases k
  {
    var s := n + Zeros(k);
    if k == 0 {
      assert s == n;
    } else {
      assert s[|s| - 1] == 0 && s[..|s| - 1] == n + Zeros(k - 1);
      StripPad(n, k - 1);
    }
  }

  /** A name on the wire reads back as the name. */
  lemma PadStrips(n: Name)
    requires GoodName(n)
    ensures Stripped(PadName(n)) == n
  {
    assert NameChar(n[|n| - 1]);
    if |n| == 8 { assert n[..8] == n == n + Zeros(0); StripPad(n, 0); } else { StripPad(n, 8 - |n|); }
  }

  /** The eight bytes at `at` say this name, if it is one a client can have. */
  ghost predicate NameAt(f: seq<byte>, at: nat, name: Name) {
    at + 8 <= |f| && (GoodName(name) ==> Stripped(f[at..at + 8]) == name)
  }

  /** A v1 START: role, seed, delay, the opponent's name. */
  ghost predicate PairSaid(f: seq<byte>, role: byte, seed: nat, delay: byte, opponent: Name) {
    && |f| == 14 && f[0] == 13 && f[1] == 5 && f[2] == role
    && f[3] == seed % 256 && f[4] == seed / 256 && f[5] == delay
    && NameAt(f, 6, opponent)
  }

  lemma PairBytes(seed: nat, delay: byte, host: Name, guest: Name)
    requires seed < 0x1_0000
    ensures var fs := PairFrames(seed, delay, host, guest);
            |fs| == 2 && PairSaid(fs[0], 0, seed, delay, guest) && PairSaid(fs[1], 1, seed, delay, host)
  {
    hide PadName, Stripped, GoodName;
    var fs := PairFrames(seed, delay, host, guest);
    assert fs[0][6..14] == PadName(guest) && fs[1][6..14] == PadName(host);
    if GoodName(guest) { PadStrips(guest); }
    if GoodName(host) { PadStrips(host); }
  }

  /** Four names in seat order from `at` on, all NUL where there is no member. */
  ghost predicate RosterAt(f: seq<byte>, at: nat, clients: seq<Client>, m: seq<nat>) {
    && at + 32 <= |f|
    && (forall k :: 0 <= k < 4 && k < |m| && m[k] < |clients| ==> NameAt(f, at + 8 * k, clients[m[k]].name))
    && (forall i :: at + 8 * |m| <= i < at + 32 ==> f[i] == 0)
  }

  lemma {:induction false} NamesAt(clients: seq<Client>, m: seq<nat>, k: nat)
    requires k < |m| && m[k] < |clients|
    ensures Names8(clients, m)[8 * k..8 * k + 8] == PadName(clients[m[k]].name)
    decreases |m|
  {
    hide PadName, Zeros;
    var head := if m[0] < |clients| then PadName(clients[m[0]].name) else Zeros(8);
    var rest := Names8(clients, m[1..]);
    assert Names8(clients, m) == head + rest;
    EightOf(head, rest, k);
    if k > 0 { NamesAt(clients, m[1..], k - 1); }
  }

  lemma EightOf(head: seq<byte>, rest: seq<byte>, k: nat)
    requires |head| == 8 && 8 * k <= |rest|
    ensures (head + rest)[8 * k..8 * k + 8] == if k == 0 then head else rest[8 * (k - 1)..8 * (k - 1) + 8]
  {
  }

  lemma RosterBytes(front: seq<byte>, clients: seq<Client>, m: seq<nat>)
    ensures RosterAt(front + Roster(clients, m), |front|, clients, m)
  {
    hide PadName, Stripped, GoodName, Names8;
    var n := if |m| <= ROSTER_SLOTS then m else m[..ROSTER_SLOTS];
    var f, r := front + Roster(clients, m), Roster(clients, m);
    forall k | 0 <= k < 4 && k < |m| && m[k] < |clients|
      ensures NameAt(f, |front| + 8 * k, clients[m[k]].name)
    {
      NamesAt(clients, n, k);
      assert r[8 * k..8 * k + 8] == Names8(clients, n)[8 * k..8 * k + 8];
      assert f[|front| + 8 * k..|front| + 8 * k + 8] == r[8 * k..8 * k + 8];
      if GoodName(clients[m[k]].name) { PadStrips(clients[m[k]].name); }
    }
  }

  /** A v2 START: seat, number of players, seed, delay, roster. */
  ghost predicate StartSaid(f: seq<byte>, seat: nat, seed: nat, delay: byte, clients: seq<Client>, m: seq<nat>) {
    && |f| == 39 && f[0] == 38 && f[1] == 5 && f[2] == seat % 256 && f[3] == |m| % 256
    && f[4] == seed % 256 && f[5] == (seed / 256) % 256 && f[6] == delay
    && RosterAt(f, 7, clients, m)
  }

  lemma StartBytes(clients: seq<Client>, m: seq<nat>, seed: nat, delay: byte, k: nat)
    requires k < |m|
    ensures StartSaid(StartFrames(m, seed, delay, Roster(clients, m))[k], k, seed, delay, clients, m)
  {
    hide Roster, RosterAt;
    var r := Roster(clients, m);
    var front := [38, 5, Low(k), Low(|m|), Low(seed), High(seed), delay];
    assert StartFrames(m, seed, delay, r)[k] == front + r;
    RosterBytes(front, clients, m);
  }

  /** PEER_LEFT: in v2 the seat that was left, and whose it was. */
  lemma LeftBytes(v1: bool, seat: nat, name: Name)
    ensures var f := LeftFrame(v1, seat, name);
            if v1 then f == [1, 11] else |f| == 11 && f[0] == 10 && f[1] == 11 && f[2] == seat % 256 && NameAt(f, 3, name)
  {
    hide PadName, Stripped, GoodName;
    var f := LeftFrame(v1, seat, name);
    if !v1 {
      assert f[3..11] == PadName(name);
      if GoodName(name) { PadStrips(name); }
    }
  }

  /** ROOM: the number of members and the roster; no members means back to the lobby. */
  lemma RoomBytes(s: State, m: seq<nat>)
    ensures var f := RosterFrame(s, m); |f| == 35 && f[0] == 34 && f[1] == 14 && f[2] == |m| % 256 && RosterAt(f, 3, s.clients, m)
    ensures var g := GoneFrame(); |g| == 35 && g[0] == 34 && g[1] == 14 && forall i :: 2 <= i < 35 ==> g[i] == 0
  {
    hide Roster, RosterAt;
    var front := [34, 14, Low(|m|)];
    assert RosterFrame(s, m) == front + Roster(s.clients, m);
    RosterBytes(front, s.clients, m);
  }
}
