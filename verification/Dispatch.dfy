/**
 LS_VDISPATCH: the input events one seat raises at one tick, as a function of
 the seat's current and previous ring cells.
 */
module Dispatch {
  import opened Basics

  /** A handler call: table slot, event value, controller index. */
  datatype Event = Event(ctrl: nat, slot: nat, value: int)

  /** The four cells LS_VDISPATCH reads for one seat. */
  datatype SeatCells = SeatCells(cur: Cell, prev: Cell)

  /** What one game tick reads: both seats' cells. */
  datatype TickCells = TickCells(seat0: SeatCells, seat1: SeatCells)

  predicate IsAction(kp: byte) { 1 <= kp <= 3 }

  function ReleaseEvents(ctrl: nat, c: SeatCells): seq<Event> {
    if IsAction(c.prev.kp) && c.prev.kp != c.cur.kp then [Event(ctrl, c.prev.kp * 2 + 2, -1)] else []
  }

  function PressEvents(ctrl: nat, c: SeatCells): seq<Event> {
    if IsAction(c.cur.kp)
    then [Event(ctrl, c.cur.kp * 2 + 2, if c.cur.kp == c.prev.kp then 0 else 1)]
    else []
  }

  /** The decoded cell: bit 6 marks "settled", bit 7 marks a keypad code. */
  function DiscEvents(ctrl: nat, c: SeatCells): seq<Event> {
    if c.cur.dec == c.prev.dec then []
    else if (c.cur.dec / 64) % 2 == 0 then
      [Event(ctrl, if c.cur.dec / 128 == 1 then 2 else 0, c.cur.dec % 128)]
    else if c.cur.dec / 128 == 0 then [Event(ctrl, 0, -1)]
    else []
  }

  function SeatEvents(ctrl: nat, c: SeatCells): seq<Event> {
    ReleaseEvents(ctrl, c) + PressEvents(ctrl, c) + DiscEvents(ctrl, c)
  }

  /** Both seats replay every tick, seat 0 first. */
  function TickEvents(t: TickCells): seq<Event> {
    SeatEvents(0, t.seat0) + SeatEvents(1, t.seat1)
  }

  // ---- whole runs of one seat ---------------------------------------------

  /** The events of a seat over successive ticks. */
  function RunEvents(ctrl: nat, cells: seq<Cell>): seq<Event> {
    if |cells| < 2 then []
    else SeatEvents(ctrl, SeatCells(cells[1], cells[0])) + RunEvents(ctrl, cells[1..])
  }

  /** How often slot `slot` is called with `value`. */
  function Calls(evs: seq<Event>, slot: nat, value: int): (n: nat) {
    if evs == [] then 0
    else (if evs[0].slot == slot && evs[0].value == value then 1 else 0) + Calls(evs[1..], slot, value)
  }

  lemma {:induction false} CallsConcat(a: seq<Event>, b: seq<Event>, slot: nat, value: int)
    ensures Calls(a + b, slot, value) == Calls(a, slot, value) + Calls(b, slot, value)
    decreases |a|
  {
    if a == [] {
      assert a + b == b;
    } else {
      assert (a + b)[0] == a[0] && (a + b)[1..] == a[1..] + b;
      CallsConcat(a[1..], b, slot, value);
    }
  }

  lemma CallsOne(e: Event, slot: nat, value: int)
    ensures Calls([e], slot, value) == if e.slot == slot && e.value == value then 1 else 0
    ensures Calls([], slot, value) == 0
  {
    assert [e][1..] == [];
  }

  /** What one tick calls on the slot of action button `k`. */
  lemma ActionCalls(ctrl: nat, c: SeatCells, k: nat, value: int)
    requires 1 <= k <= 3
    ensures Calls(SeatEvents(ctrl, c), 2 * k + 2, value) ==
            Calls(ReleaseEvents(ctrl, c), 2 * k + 2, value) + Calls(PressEvents(ctrl, c), 2 * k + 2, value)
  {
    hide ReleaseEvents, PressEvents;
    CallsConcat(ReleaseEvents(ctrl, c) + PressEvents(ctrl, c), DiscEvents(ctrl, c), 2 * k + 2, value);
    CallsConcat(ReleaseEvents(ctrl, c), PressEvents(ctrl, c), 2 * k + 2, value);
    if DiscEvents(ctrl, c) != [] { CallsOne(DiscEvents(ctrl, c)[0], 2 * k + 2, value); }
  }

  /**
   Presses and releases of an action button balance over any run of ticks: the
   button is down at the end exactly as the fresh presses and releases say.
   */
  lemma {:induction false} PressesBalance(ctrl: nat, cells: seq<Cell>, k: nat)
    requires 1 <= k <= 3 && cells != []
    ensures Calls(RunEvents(ctrl, cells), 2 * k + 2, 1) - Calls(RunEvents(ctrl, cells), 2 * k + 2, -1) ==
            Bit(cells[|cells| - 1].kp == k) - Bit(cells[0].kp == k)
    decreases |cells|
  {
    hide SeatEvents;
    if |cells| >= 2 {
      var c := SeatCells(cells[1], cells[0]);
      var now, rest := SeatEvents(ctrl, c), RunEvents(ctrl, cells[1..]);
      CallsConcat(now, rest, 2 * k + 2, 1);
      CallsConcat(now, rest, 2 * k + 2, -1);
      ActionCalls(ctrl, c, k, 1);
      ActionCalls(ctrl, c, k, -1);
      TickBalance(ctrl, c, k);
      PressesBalance(ctrl, cells[1..], k);
    }
  }

  lemma TickBalance(ctrl: nat, c: SeatCells, k: nat)
    requires 1 <= k <= 3
    ensures Calls(PressEvents(ctrl, c), 2 * k + 2, 1) == Bit(c.cur.kp == k && c.prev.kp != k)
    ensures Calls(ReleaseEvents(ctrl, c), 2 * k + 2, -1) == Bit(c.prev.kp == k && c.cur.kp != k)
    ensures Calls(PressEvents(ctrl, c), 2 * k + 2, -1) == 0 && Calls(ReleaseEvents(ctrl, c), 2 * k + 2, 1) == 0
  {
    if PressEvents(ctrl, c) != [] {
      CallsOne(PressEvents(ctrl, c)[0], 2 * k + 2, 1);
      CallsOne(PressEvents(ctrl, c)[0], 2 * k + 2, -1);
    }
    if ReleaseEvents(ctrl, c) != [] {
      CallsOne(ReleaseEvents(ctrl, c)[0], 2 * k + 2, 1);
      CallsOne(ReleaseEvents(ctrl, c)[0], 2 * k + 2, -1);
    }
  }

  // ---- exactly which handlers, from the cells alone -------------------------

  /**
   The cells call slot `slot` with `value` on this tick: a disc direction or a
   keypad code when it is new, the disc once more when it has settled, an action
   button when it is pressed, let go, or still down.
   */
  predicate Raises(slot: nat, value: int, prev: Cell, cur: Cell) {
    if slot == 0 && value == -1 then 0x40 <= cur.dec < 0x80 && cur.dec != prev.dec
    else if slot == 0 then 0 <= value < 0x40 && cur.dec == value && prev.dec != value
    else if slot == 2 then 0 <= value < 0x40 && cur.dec == 0x80 + value && prev.dec != 0x80 + value
    else if slot in {4, 6, 8} then
      var k := (slot - 2) / 2;
      || (value == 1 && cur.kp == k && prev.kp != k)
      || (value == -1 && cur.kp != k && prev.kp == k)
      || (value == 0 && cur.kp == k && prev.kp == k)
    else false
  }

  /** On how many ticks of a run the cells do so. */
  function Raised(cells: seq<Cell>, slot: nat, value: int): (n: nat) {
    if |cells| < 2 then 0 else Bit(Raises(slot, value, cells[0], cells[1])) + Raised(cells[1..], slot, value)
  }

  lemma ReleaseCalls(ctrl: nat, c: SeatCells, slot: nat, value: int)
    ensures Calls(ReleaseEvents(ctrl, c), slot, value) ==
            Bit(value == -1 && slot in {4, 6, 8} && c.prev.kp * 2 + 2 == slot && c.cur.kp != c.prev.kp)
  {
    if ReleaseEvents(ctrl, c) != [] { CallsOne(ReleaseEvents(ctrl, c)[0], slot, value); }
  }

  lemma PressCalls(ctrl: nat, c: SeatCells, slot: nat, value: int)
    ensures Calls(PressEvents(ctrl, c), slot, value) ==
            Bit(value == Bit(c.cur.kp != c.prev.kp) && slot in {4, 6, 8} && c.cur.kp * 2 + 2 == slot)
  {
    if PressEvents(ctrl, c) != [] { CallsOne(PressEvents(ctrl, c)[0], slot, value); }
  }

  lemma DiscCalls(ctrl: nat, c: SeatCells, slot: nat, value: int)
    ensures Calls(DiscEvents(ctrl, c), slot, value) == Bit(slot in {0, 2} && Raises(slot, value, c.prev, c.cur))
  {
    if DiscEvents(ctrl, c) != [] { CallsOne(DiscEvents(ctrl, c)[0], slot, value); }
  }

  /** One tick of one seat calls every handler exactly as its cells say, and none twice with one value. */
  lemma SeatExact(ctrl: nat, c: SeatCells, slot: nat, value: int)
    ensures Calls(SeatEvents(ctrl, c), slot, value) == Bit(Raises(slot, value, c.prev, c.cur))
  {
    hide ReleaseEvents, PressEvents, DiscEvents;
    var r, p, d := ReleaseEvents(ctrl, c), PressEvents(ctrl, c), DiscEvents(ctrl, c);
    CallsConcat(r + p, d, slot, value);
    CallsConcat(r, p, slot, value);
    ReleaseCalls(ctrl, c, slot, value);
    PressCalls(ctrl, c, slot, value);
    DiscCalls(ctrl, c, slot, value);
  }

  /** Over any run of ticks, every handler is called with every value as often as the cells say. */
  lemma {:induction false} RunExact(ctrl: nat, cells: seq<Cell>, slot: nat, value: int)
    ensures Calls(RunEvents(ctrl, cells), slot, value) == Raised(cells, slot, value)
    decreases |cells|
  {
    hide SeatEvents, Raises;
    if |cells| >= 2 {
      var c := SeatCells(cells[1], cells[0]);
      CallsConcat(SeatEvents(ctrl, c), RunEvents(ctrl, cells[1..]), slot, value);
      SeatExact(ctrl, c, slot, value);
      RunExact(ctrl, cells[1..], slot, value);
    }
  }

  /** Within a seat: a release, then a press or re-fire, then the disc or keypad. */
  function Phase(e: Event): nat {
    if e.slot in {0, 2} then 2 else if e.value == -1 then 0 else 1
  }

  lemma SeatOrder(ctrl: nat, c: SeatCells)
    ensures forall i :: 0 <= i < |SeatEvents(ctrl, c)| ==> SeatEvents(ctrl, c)[i].ctrl == ctrl
    ensures forall i, j :: 0 <= i < j < |SeatEvents(ctrl, c)| ==> Phase(SeatEvents(ctrl, c)[i]) < Phase(SeatEvents(ctrl, c)[j])
  {
  }

  /**
   `ev` is what a tick raises: first the events of controller 0, `n` of them, then
   those of controller 1, each in the order of `Phase`, and what they are the
   seat's cells alone decide.
   */
  ghost predicate TickRaised(t: TickCells, ev: seq<Event>, n: nat) {
    && n <= |ev|
    && (forall i :: 0 <= i < |ev| ==> ev[i].ctrl == if i < n then 0 else 1)
    && (forall i, j :: 0 <= i < j < |ev| && (j < n || n <= i) ==> Phase(ev[i]) < Phase(ev[j]))
    && (forall slot: nat, value: int ::
          && Calls(ev[..n], slot, value) == Bit(Raises(slot, value, t.seat0.prev, t.seat0.cur))
          && Calls(ev[n..], slot, value) == Bit(Raises(slot, value, t.seat1.prev, t.seat1.cur)))
  }

  lemma TickExact(t: TickCells) returns (n: nat)
    ensures TickRaised(t, TickEvents(t), n)
  {
    hide SeatEvents, Raises, Phase;
    var a, b, ev := SeatEvents(0, t.seat0), SeatEvents(1, t.seat1), TickEvents(t);
    n := |a|;
    assert ev[..n] == a && ev[n..] == b;
    SeatOrder(0, t.seat0);
    SeatOrder(1, t.seat1);
    forall i, j | 0 <= i < j < |ev| && (j < n || n <= i)
      ensures Phase(ev[i]) < Phase(ev[j])
    {
      if n <= i { assert ev[i] == b[i - n] && ev[j] == b[j - n]; }
    }
    forall slot: nat, value: int
      ensures Calls(a, slot, value) == Bit(Raises(slot, value, t.seat0.prev, t.seat0.cur))
      ensures Calls(b, slot, value) == Bit(Raises(slot, value, t.seat1.prev, t.seat1.cur))
    {
      SeatExact(0, t.seat0, slot, value);
      SeatExact(1, t.seat1, slot, value);
    }
  }
}
