/**
 The two servers read the name in a JOIN differently: the C server ends it at
 the first NUL, the Python server only strips NULs at the end.
 */
module JoinNames {
  import opened Basics
  import opened RelayState
  import opened RelayTables
  import opened RelayFrames
  import opened RelayEffects

  /** What the Python server looks up. */
  function SoughtPy(names: seq<Entry>, payload: seq<byte>): (k: int)
    ensures -1 <= k < |names|
  {
    Find(names, Stripped(payload))
  }

  /** A NUL inside the name, not only after it. */
  predicate Cut(payload: seq<byte>) {
    var raw := Stripped(payload);
    |raw| <= 8 && 0 in raw
  }

  lemma NoNul(name: Name)
    requires GoodName(name)
    ensures 0 !in name && |name| <= 8
  {
  }

  lemma Uncut(s: seq<byte>)
    requires 0 !in s
    ensures CString(s) == s
  {
  }

  /** Both servers find the same client, unless the payload holds a NUL and what precedes it is somebody's name. */
  lemma LookupsAgree(names: seq<Entry>, payload: seq<byte>)
    requires WellNamed(names)
    ensures Sought(names, payload) == SoughtPy(names, payload) <==>
            !(Cut(payload) && Find(names, CString(Stripped(payload))) >= 0)
  {
    hide GoodName;
    var raw := Stripped(payload);
    var k := SoughtPy(names, payload);
    if k >= 0 {
      NoNul(names[k].name);
    }
    if 0 !in raw { Uncut(raw); }
  }

  /** Whoever is registered, both find the same client if and only if no name a client can have ends at a NUL of the payload. */
  lemma AlwaysAgree(payload: seq<byte>)
    ensures (forall names: seq<Entry> :: WellNamed(names) ==> Sought(names, payload) == SoughtPy(names, payload)) <==>
            !(Cut(payload) && GoodName(CString(Stripped(payload))))
  {
    hide GoodName, Sought, SoughtPy, Stripped, CString;
    var name := CString(Stripped(payload));
    if Cut(payload) && GoodName(name) {
      var names := [Entry(name, 0)];
      assert WellNamed(names);
      assert Find(names, name) == 0;
      LookupsAgree(names, payload);
    } else {
      forall names: seq<Entry> | WellNamed(names)
        ensures Sought(names, payload) == SoughtPy(names, payload)
      {
        LookupsAgree(names, payload);
        var k := Find(names, name);
        if k >= 0 { assert GoodName(names[k].name); }
      }
    }
  }

  /** Where they find the same client, they also let the same clients join. */
  lemma JoinsAgree(s: State, v1: bool, max: nat, ci: nat, payload: seq<byte>)
    requires Shape(s) && WellNamed(s.names) && !(Cut(payload) && Find(s.names, CString(Stripped(payload))) >= 0)
    ensures Joinable(s, v1, max, ci, payload) <==> JoinableAt(s, v1, max, ci, SoughtPy(s.names, payload))
  {
    LookupsAgree(s.names, payload);
  }

  // ---- a payload on which they differ -------------------------------------

  const ANN: Name := [0x41, 0x4E, 0x4E]
  const BOB: Name := [0x42, 0x4F, 0x42]

  /** ANN, a NUL, and something more. */
  const ANN_NUL_X: seq<byte> := ANN + [0, 0x58]

  /** ANN and BOB are in the lobby; nobody else is connected. */
  function Waiting(): (s: State)
    ensures Shape(s) && s.names == [Entry(ANN, 0), Entry(BOB, 1)]
    ensures s.clients[0] == Client(true, false, 0, ANN, -1, [], [], []) && s.clients[1] == Client(true, false, 0, BOB, -1, [], [], [])
    ensures forall i :: 2 <= i < MAX_CLIENTS ==> !s.clients[i].inUse
    ensures forall r :: 0 <= r < MAX_ROOMS ==> s.rooms[r] == Room(false, [], false)
  {
    var nobody := Client(false, false, 0, [], -1, [], [], []);
    State(
      [Client(true, false, 0, ANN, -1, [], [], []), Client(true, false, 0, BOB, -1, [], [], [])] + seq(MAX_CLIENTS - 2, _ => nobody),
      seq(MAX_ROOMS, _ => Room(false, [], false)),
      [Entry(ANN, 0), Entry(BOB, 1)])
  }

  lemma WaitingOk()
    ensures Inv(Waiting(), 2, {}) && WellNamed(Waiting().names)
  {
    var s := Waiting();
    assert ANN[0] != BOB[0];
    assert s.names[0] == Entry(ANN, 0) && s.names[1] == Entry(BOB, 1);
    forall i | Live(s, i)
      ensures (i == 0 || i == 1) && SeatOk(s, {}, i) && TxFine(s.clients[i])
    {
    }
  }

  /** BOB's JOIN of "ANN", NUL, "X": the C server pairs it with ANN, the Python server finds nobody. */
  lemma ServersDiffer()
    ensures Inv(Waiting(), 2, {}) && WellNamed(Waiting().names)
    ensures Joinable(Waiting(), false, 2, 1, ANN_NUL_X) && TargetOf(Waiting(), ANN_NUL_X) == 0
    ensures SoughtPy(Waiting().names, ANN_NUL_X) == -1
  {
    hide Inv, WellNamed, CString, Stripped, Find;
    WaitingOk();
    NulX();
    var s := Waiting();
    assert |s.names[1].name| == 3 && |ANN_NUL_X| == 5 && s.names[0].name == ANN;
    assert s.names[1].name[0] == 0x42;
    var k, j := Find(s.names, ANN), Find(s.names, ANN_NUL_X);
    assert k != 1 && j != 0 && j != 1;
  }

  lemma NulX()
    ensures Stripped(ANN_NUL_X) == ANN_NUL_X && CString(ANN_NUL_X) == ANN
  {
    var raw := ANN_NUL_X;
    assert raw[0] == 0x41 && raw[1] == 0x4E && raw[2] == 0x4E && raw[3] == 0 && raw[4] == 0x58;
    assert raw[..3] == ANN;
    assert |CString(raw)| == 3;
  }
}
