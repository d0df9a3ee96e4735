/**
 A console's netcode cells in place: the INPUT arm of SES_ONFRAME, the RS_*
 routines and the parts of LS_PASS, each proved to do to the byte cells what
 the Console functions do to the state the cells stand for.
 */
module Cells {
  import opened Basics
  import opened Dispatch
  import opened Console
  import opened Framing
  import opened Wire
  import opened Image
  import opened CellRep
  import opened Memory
  import C = Console
  import M = Match
  import Check = Checksum

  const LS_TIMEOUT_HI := 3       // 900 >> 8
  const RS_HOLD_HI := 6          // $0600 >> 8

  class Cells {
    const ring: array<byte>      // SEAT_RING, four pages
    const kp: array<byte>        // SEAT_KP, four pages
    const wm: array<byte>        // SEAT_WM, four [lo, hi]
    const crc: array<byte>       // OWN_CRC, eight [tick_lo, tick_hi, crc_lo, crc_hi]
    const ram: Ram
    const netSeat: byte
    const netDelay: byte
    const netCount: byte
    var tickLo: byte
    var tickHi: byte
    var hold: byte               // RESYNC_HOLD
    var rLo: byte
    var rHi: byte
    var pend: byte
    var ptmo: byte
    var rej: byte                // DIAG_REJ, saturating
    var froze: byte              // LS_FROZE
    var toLo: byte               // RS_TO, hold passes
    var toHi: byte
    var waitLo: byte             // LS_WAITC, gate rounds
    var waitHi: byte
    var dropped: byte            // NET_DROPPED
    ghost var view: Console      // what the cells stand for, with its history

    ghost predicate Shape()
      reads this
    {
      && ring.Length == PAGES && kp.Length == PAGES && wm.Length == 8 && crc.Length == 32
      && ring != kp && ring != wm && ring != crc && kp != wm && kp != crc && wm != crc
      && netSeat < 2 && netCount == 2
    }

    ghost predicate Valid()
      reads this, ring, kp, wm, crc, ram, ram.mem
    {
      && Shape() && (dropped == 0 ==> toHi < RS_HOLD_HI)
      && FlagRep(hold, pend, ptmo, rLo, rHi, view.hold, view.pend, view.ptmo, view.r)
      && CountRep(froze, view.pc.Top?, waitLo, waitHi)
      && view.seat == netSeat
      && WordRep(tickLo, tickHi, view.tick)
      && RingRep(ring[..], kp[..], netSeat, view.own)
      && RingRep(ring[..], kp[..], 1 - netSeat, view.rmt)
      && WmRep(wm[..], 1 - netSeat, view.wm)
      && CrcRep(crc[..], view.recs) && |view.recs| == 8
      && ram.Valid() && ImageOf(ram.mem[..]) == view.img
    }

    // ---- START --------------------------------------------------------------

    /** The START arm: idle rings, cleared records, every watermark at d-1, tick 0. */
    constructor (seat: byte, delay: byte, ram: Ram)
      requires seat < 2 && ram.Valid()
      ensures Valid() && view == M.Fresh(seat, delay, ImageOf(ram.mem[..]))
      ensures this.ram == ram && netSeat == seat && netDelay == delay && waitLo == 0 && waitHi == 0 && dropped == 0
      ensures fresh(ring) && fresh(kp) && fresh(wm) && fresh(crc)
    {
      hide Get;
      ring := new byte[PAGES](_ => 0x40);
      kp := new byte[PAGES](_ => 0);
      wm := new byte[8](i requires 0 <= i < 8 => if i % 2 == 0 then Low(delay - 1) else 0);
      crc := new byte[32](_ => 0xFF);
      this.ram := ram;
      netSeat, netDelay, netCount := seat, delay, 2;
      tickLo, tickHi, hold, rLo, rHi, pend, ptmo := 0, 0, 0, 0, 0, 0, 0;
      rej, waitLo, waitHi, dropped, froze, toLo, toHi := 0, 0, 0, 0, 0, 0, 0;
      view := M.Fresh(seat, delay, ImageOf(ram.mem[..]));
      new;
      IdleRep(ring[..], kp[..], netSeat);
      IdleRep(ring[..], kp[..], 1 - netSeat);
      ClearedRep(crc[..]);
    }

    // ---- shared loops -------------------------------------------------------

    /** LS_RING_INIT: all eight pages back to idle. */
    method RingInit()
      requires Shape()
      modifies ring, kp
      ensures forall i :: 0 <= i < PAGES ==> ring[i] == 0x40 && kp[i] == 0
    {
      var i := 0;
      while i < PAGES
        invariant 0 <= i <= PAGES
        invariant forall j :: 0 <= j < i ==> ring[j] == 0x40
      {
        ring[i] := 0x40;
        i := i + 1;
      }
      i := 0;
      while i < PAGES
        invariant 0 <= i <= PAGES
        invariant forall j :: 0 <= j < PAGES ==> ring[j] == 0x40
        invariant forall j :: 0 <= j < i ==> kp[j] == 0
      {
        kp[i] := 0;
        i := i + 1;
      }
    }

    /** RS_CLR_CRC. */
    method ClrCrc()
      requires Shape()
      modifies crc
      ensures CrcRep(crc[..], NO_RECS)
    {
      var i := 0;
      while i < 32
        invariant 0 <= i <= 32
        invariant forall j :: 0 <= j < i ==> crc[j] == 0xFF
      {
        crc[i] := 0xFF;
        i := i + 1;
      }
      ClearedRep(crc[..]);
    }

    // ---- INPUT --------------------------------------------------------------

    /** Store a cell pair in a seat's pages. */
    method Store(seat: nat, slot: byte, cell: Cell)
      requires Shape() && seat < 4
      modifies ring, kp
      ensures ring[..] == old(ring[..])[256 * seat + slot := cell.dec]
      ensures kp[..] == old(kp[..])[256 * seat + slot := cell.kp]
    {
      ring[256 * seat + slot] := cell.dec;
      kp[256 * seat + slot] := cell.kp;
    }

    method OnInput(f: seq<byte>, ghost e: nat)
      requires Valid() && Fits(f) && f[1] == FT_INPUT
      modifies this`view, ring, kp, wm
      ensures Valid() && view == Handled(netDelay, old(view), f, e).0 && Handled(netDelay, old(view), f, e).1 == []
    {
      hide RingRep, CrcRep, MemOk, ImageOf, Handled, Signed16, C.OnInput, Fits, WordRep, Word, Low, High, WmRep, FlagRep, CountRep;
      InputHandled(netDelay, view, f, e);
      var seat := f[2];
      if seat != netSeat && seat < netCount {
        var w := Watermark(seat);
        InputDecision(view, f, e, w);
        if Signed16(Word(f[3], f[4]) - w) > 0 {
          Accept(f[3], f[4], Cell(f[5], f[6]), C.OnInput(view, InputSaid(view, f, e)).wm);
        }
      }
    }

    method Watermark(seat: nat) returns (w: int)
      requires Valid() && seat == 1 - netSeat
      ensures 0 <= w < 0x1_0000 && WordRep(Low(w), High(w), view.wm)
    {
      hide RingRep, CrcRep, MemOk, ImageOf, FlagRep, CountRep;
      w := Word(wm[2 * seat], wm[2 * seat + 1]);
    }

    /** Store a cell of the other seat and advance its watermark. */
    method Accept(lo: byte, hi: byte, cell: Cell, ghost x: int)
      requires Valid() && WordRep(lo, hi, x)
      modifies this`view, ring, kp, wm
      ensures Valid() && view == old(view).(rmt := old(view).rmt[lo := cell], wm := x)
    {
      hide RingRep, CrcRep, MemOk, ImageOf, WordRep, FlagRep, CountRep;
      var seat := 1 - netSeat;
      StoreRep(ring[..], kp[..], seat, view.rmt, lo, cell);
      StoreOther(ring[..], kp[..], netSeat, view.own, seat, lo, cell.dec, cell.kp);
      Store(seat, lo, cell);
      wm[2 * seat] := lo;
      wm[2 * seat + 1] := hi;
      view := view.(rmt := view.rmt[lo := cell], wm := x);
    }

    // ---- CRC and RESYNC -----------------------------------------------------

    /** RS_ON_CRC; a guest that finds a mismatch asks the host once. */
    method OnCrc(f: seq<byte>, ghost e: nat) returns (tx: seq<byte>)
      requires Valid() && Fits(f) && f[1] == FT_CRC
      modifies this`view, this`pend, this`ptmo
      ensures Valid() && view == Handled(netDelay, old(view), f, e).0
      ensures AllSendable(Handled(netDelay, old(view), f, e).1)
      ensures tx == Flat(EncodeAll(Handled(netDelay, old(view), f, e).1))
    {
      hide RingRep, CrcRep, MemOk, ImageOf, Handled, C.OnCrc, Mismatch, EncodeAll, CrcSaid, Fits, CountRep;
      tx := [];
      CrcHandled(netDelay, view, f, e);
      CrcDecision(view, f, e, crc[..]);
      CrcEffect(view, f, e);
      if hold == 0 && pend == 0 {
        var i := 4 * ((f[3] / 64) % 8);
        if crc[i] == f[3] && crc[i + 1] == f[4] && (crc[i + 2] != f[5] || crc[i + 3] != f[6]) {
          pend, ptmo := 1, 0;
          if netSeat != 0 { tx := [3, FT_RESYNC, f[3], f[4]]; }
        }
      }
      view := Handled(netDelay, view, f, e).0;
    }

    /** RS_ON_REQ. */
    method OnReq(f: seq<byte>, ghost e: nat)
      requires Valid() && Fits(f) && f[1] == FT_RESYNC
      modifies this`view, this`pend, this`ptmo
      ensures Valid() && view == Handled(netDelay, old(view), f, e).0 && Handled(netDelay, old(view), f, e).1 == []
    {
      hide RingRep, CrcRep, MemOk, ImageOf, Handled, CountRep;
      ReqHandled(netDelay, view, f, e);
      if netSeat == 0 && hold == 0 && pend == 0 { pend, ptmo := 1, 0; }
      view := Handled(netDelay, view, f, e).0;
    }

    // ---- STATE --------------------------------------------------------------

    /** RS_ENTER_HOLD, with the resume tick recorded. */
    method EnterHold(lo: byte, hi: byte, ghost r: int)
      requires Valid() && WordRep(lo, hi, r)
      modifies this`view, this`hold, this`rLo, this`rHi, this`toLo, this`toHi, crc
      ensures Valid() && view == C.EnterHold(old(view), r) && toLo == 0 && toHi == 0
    {
      hide RingRep, CrcRep, MemOk, ImageOf, WordRep, CountRep, WmRep;
      hold := 1;
      toLo, toHi := 0, 0;
      ClrCrc();
      rLo, rHi := lo, hi;
      view := C.EnterHold(view, r);
    }

    /** The watermark loop of RS_REBASE: every seat to `x`. */
    method SetWatermarks(x: int)
      requires Shape()
      modifies wm
      ensures forall s :: 0 <= s < 4 ==> WmRep(wm[..], s, x)
    {
      var s := 0;
      while s < 4
        invariant 0 <= s <= 4
        invariant forall t :: 0 <= t < s ==> WmRep(wm[..], t, x)
      {
        ghost var before := wm[..];
        wm[2 * s] := Low(x);
        wm[2 * s + 1] := High(x);
        forall t | 0 <= t < s
          ensures WmRep(wm[..], t, x)
        {
          assert WmRep(before, t, x);
        }
        s := s + 1;
      }
    }

    /** RS_CLAMP_ISR and BX_REBASE_HOOK. */
    method RestoreRam()
      requires Valid()
      modifies this`view, ram.mem
      ensures Valid() && view == old(view).(img := Clamp(old(view).img))
    {
      hide RingRep, CrcRep, MemOk, ImageOf, WordRep, WmRep, Rebased, Clamp, FlagRep, CountRep;
      RebasedImage(ram.mem[..]);
      ram.Rebase();
      view := view.(img := Clamp(view.img));
    }

    /** LS_RING_INIT and the watermark loop: both rings idle, the watermark at R+d-1. */
    method ResetInputs()
      requires Valid() && view.hold
      modifies this`view, ring, kp, wm
      ensures Valid() && view == old(view).(own := IdleRing(), rmt := IdleRing(), wm := old(view).r + netDelay - 1)
    {
      hide RingRep, CrcRep, MemOk, ImageOf, WordRep, WmRep, CountRep, IdleRing, FlagRep, Word;
      ResumeCells(hold, pend, ptmo, rLo, rHi, view.hold, view.pend, view.ptmo, view.r);
      RingInit();
      IdleRep(ring[..], kp[..], netSeat);
      IdleRep(ring[..], kp[..], 1 - netSeat);
      SetWatermarks(Word(rLo, rHi) + netDelay - 1);
      SameWatermark(wm[..], 1 - netSeat, rLo, rHi, view.r, netDelay);
      view := view.(own := IdleRing(), rmt := IdleRing(), wm := view.r + netDelay - 1);
    }

    /** RS_REBASE: clamp and restore, tick := R, idle rings, every watermark R+d-1, records cleared, hold over. */
    method Rebase()
      requires Valid() && view.hold
      modifies this, ring, kp, wm, crc, ram.mem
      ensures Valid() && view == C.Rebase(netDelay, old(view))
      ensures waitLo == 0 && waitHi == 0 && toLo == 0 && toHi == 0 && froze == old(froze) && dropped == old(dropped)
    {
      hide RingRep, CrcRep, MemOk, ImageOf, WordRep, WmRep, Clamp, IdleRing, FlagRep, CountRep, C.Rebase;
      ghost var c := view;
      RestoreRam();
      AdoptTick();
      ResetInputs();
      EndHold(c);
    }

    method AdoptTick()
      requires Valid() && view.hold
      modifies this`view, this`pend, this`ptmo, this`tickLo, this`tickHi
      ensures Valid() && view == old(view).(pend := false, ptmo := 0, tick := old(view).r)
    {
      hide RingRep, CrcRep, MemOk, ImageOf, WordRep, WmRep, CountRep;
      pend, ptmo := 0, 0;
      tickLo, tickHi := rLo, rHi;
      view := view.(pend := false, ptmo := 0, tick := view.r);
    }

    method EndHold(ghost c: Console)
      requires Valid() && |c.recs| == 8
      requires view == c.(pend := false, ptmo := 0, img := Clamp(c.img), tick := c.r, own := IdleRing(), rmt := IdleRing(), wm := c.r + netDelay - 1)
      modifies this`view, this`hold, this`toLo, this`toHi, this`waitLo, this`waitHi, crc
      ensures Valid() && view == C.Rebase(netDelay, c)
      ensures waitLo == 0 && waitHi == 0 && toLo == 0 && toHi == 0
    {
      hide RingRep, CrcRep, MemOk, ImageOf, WordRep, WmRep, Clamp, IdleRing, C.Rebase;
      RebaseIs(netDelay, c);
      ClrCrc();
      hold, toLo, toHi, waitLo, waitHi := 0, 0, 0, 0, 0;
      view := C.Rebase(netDelay, c);
    }

    /** RS_ON_STATE. */
    method OnState(f: seq<byte>, ghost e: nat)
      requires Valid() && Fits(f) && f[1] == FT_STATE
      modifies this, ring, kp, wm, crc, ram.mem
      ensures Valid() && view == Handled(netDelay, old(view), f, e).0 && Handled(netDelay, old(view), f, e).1 == []
      ensures froze == old(froze) && dropped == old(dropped) && HoldKept(old(toLo), toLo, old(toHi), toHi)
      ensures WaitKept(old(view.ep), view.ep, old(waitLo), waitLo, old(waitHi), waitHi)
    {
      hide RingRep, CrcRep, MemOk, ImageOf, Handled, WordRep, Fits, Rebased, C.Rebase, Near, CountRep;
      StateHandled(netDelay, view, f, e);
      if f[3] != 0xFF {
        ApplyChunk(f);
      } else if f[2] == 0 {
        if f[0] < 5 {
          Reject();
        } else {
          NearCells(f[4], f[5], view.tick);
          EnterHold(f[4], f[5], Near(Word(f[4], f[5]), view.tick));
        }
      } else if f[2] == 1 && hold != 0 {
        RebaseEpoch(netDelay, view);
        Rebase();
      }
    }

    method Reject()
      requires Valid()
      modifies this`rej
      ensures Valid()
    {
      if rej != 0xFF { rej := rej + 1; }
    }

    method ApplyChunk(f: seq<byte>)
      requires Valid() && 4 <= |f| && |f| - 1 == f[0]
      modifies this`view, this`rej, ram.mem
      ensures Valid() && view == OnData(old(view), Word(f[2], f[3]), f[4..])
    {
      hide RingRep, CrcRep, MemOk, ImageOf, WordRep, PutAll, WmRep, CountRep;
      var refused := ram.Apply(hold != 0, f);
      if refused {
        Reject();
      } else {
        PutAllImage(old(ram.mem[..]), Word(f[2], f[3]), f[4..]);
        assert f[4..f[0] + 1] == f[4..];
        view := OnData(view, Word(f[2], f[3]), f[4..]);
      }
    }

    /** SES_ONFRAME during a match, for every frame but a second START. */
    method OnFrame(f: seq<byte>, ghost e: nat) returns (tx: seq<byte>)
      requires Valid() && Fits(f) && MatchFrame(f)
      modifies this, ring, kp, wm, crc, ram.mem
      ensures Valid() && view == Handled(netDelay, old(view), f, e).0
      ensures AllSendable(Handled(netDelay, old(view), f, e).1)
      ensures tx == Flat(EncodeAll(Handled(netDelay, old(view), f, e).1))
      ensures view.pc == old(view.pc) && froze == old(froze)
      ensures dropped == if f[1] == FT_PEER_LEFT then 1 else old(dropped)
      ensures HoldKept(old(toLo), toLo, old(toHi), toHi)
      ensures WaitKept(old(view.ep), view.ep, old(waitLo), waitLo, old(waitHi), waitHi)
    {
      hide RingRep, CrcRep, MemOk, ImageOf, WmRep, WordRep, EncodeAll, Handled, Sendable, CountRep, FlagRep;
      tx := [];
      NoBytes();
      SameEpoch(netDelay, view, f, e);
      KeepsPc(netDelay, view, f, e);
      if f[1] == FT_INPUT {
        OnInput(f, e);
      } else if f[1] == FT_CRC {
        tx := OnCrc(f, e);
      } else if f[1] == FT_STATE {
        OnState(f, e);
      } else if f[1] == FT_RESYNC {
        OnReq(f, e);
      } else if f[1] == FT_PEER_LEFT {
        LeftHandled(netDelay, view, f, e);
        PeerGone();
      } else {
        OtherHandled(netDelay, view, f, e);
      }
    }

    // ---- LS_PASS ------------------------------------------------------------

    /** Capture for tick T+d: into our own pages and onto the wire. */
    method Capture(cell: Cell) returns (tx: seq<byte>)
      requires Valid() && view.pc.Top?
      modifies this`view, ring, kp
      ensures Valid() && view == C.Capture(netDelay, old(view), cell)
      ensures Sendable(CaptureFrame(netDelay, old(view), cell))
      ensures tx == Encode(CaptureFrame(netDelay, old(view), cell))
    {
      hide RingRep, CrcRep, MemOk, ImageOf, WmRep, Low, High, Word, Encode, Slot, Sendable, FlagRep;
      var x := Word(tickLo, tickHi) + netDelay;
      SameSum(tickLo, tickHi, view.tick, netDelay);
      StoreRep(ring[..], kp[..], netSeat, view.own, Low(x), cell);
      StoreOther(ring[..], kp[..], 1 - netSeat, view.rmt, netSeat, Low(x), cell.dec, cell.kp);
      Store(netSeat, Low(x), cell);
      tx := [6, FT_INPUT, netSeat, Low(x), High(x), cell.dec, cell.kp];
      CaptureBytes(netDelay, view, cell, Low(x), High(x));
      view := C.Capture(netDelay, view, cell);
    }

    /** One remote seat's part of the scan. */
    method SeatReady(seat: nat) returns (ready: bool)
      requires Valid() && seat == 1 - netSeat
      ensures ready <==> GateOpen(view)
    {
      hide RingRep, CrcRep, MemOk, ImageOf, Signed16, FlagRep, CountRep, WmRep, Low, High, Word;
      var w := Watermark(seat);
      var t := Word(tickLo, tickHi);
      WordsDiffer(view.wm, view.tick, Low(w), High(w), t);
      WordBack(w);
      ready := Signed16(w - t) >= 0;
    }

    /** The gate's scan: every remote seat's watermark has reached T. */
    method GateScan() returns (open: bool)
      requires Valid()
      ensures open <==> GateOpen(view)
    {
      hide RingRep, CrcRep, MemOk, ImageOf, GateOpen, FlagRep, CountRep, WmRep;
      var seat: nat := 0;
      while seat < netCount
        invariant seat <= netCount
        invariant seat > 1 - netSeat ==> GateOpen(view)
      {
        if seat != netSeat {
          var ready := SeatReady(seat);
          if !ready { return false; }
        }
        seat := seat + 1;
      }
      open := true;
    }

    /** One more gate round: the 16-bit count in LS_WAITC, over when its high cell reaches 3. */
    method CountRound() returns (over: bool)
      requires Shape() && waitHi < LS_TIMEOUT_HI && froze != 0
      modifies this`waitLo, this`waitHi
      ensures 256 * waitHi + waitLo == 256 * old(waitHi) + old(waitLo) + 1
      ensures over <==> waitHi == LS_TIMEOUT_HI
      ensures over ==> waitLo == 0
      ensures old(Valid()) && view.pc.Gate? ==> Valid()
    {
      over := false;
      if waitLo + 1 == 0x100 {
        waitLo, waitHi := 0, waitHi + 1;
        over := waitHi >= LS_TIMEOUT_HI;
      } else {
        waitLo := waitLo + 1;
      }
    }

    /** One more pass in a hold: the count in RS_TO, over when its high cell reaches 6. */
    method CountHold() returns (over: bool)
      requires Valid() && toHi < RS_HOLD_HI
      modifies this`toLo, this`toHi, this`hold, this`dropped, this`view, ring, kp, wm
      ensures Valid() && 256 * toHi + toLo == 256 * old(toHi) + old(toLo) + 1
      ensures over <==> toHi == RS_HOLD_HI
      ensures if over then dropped == 1 && view == Idled(old(view).(hold := false)) else dropped == old(dropped) && view == old(view)
    {
      hide RingRep, CrcRep, MemOk, ImageOf, WmRep, WordRep, CountRep;
      over := false;
      if toLo + 1 == 0x100 {
        over := toHi + 1 >= RS_HOLD_HI;
        if over {
          hold := 0;
          view := view.(hold := false);
          PeerGone();
        }
        toLo, toHi := 0, toHi + 1;
      } else {
        toLo := toLo + 1;
      }
    }

    /** The match is over: NET_DROPPED, and idle input for whatever tick is still played. */
    method PeerGone()
      requires Valid()
      modifies this`dropped, this`view, ring, kp, wm
      ensures Valid() && dropped == 1 && view == Idled(old(view))
    {
      hide RingRep, CrcRep, MemOk, ImageOf, WmRep, WordRep, CountRep, FlagRep, Word, Low, High, IdleRing;
      IdleRemote();
      IdleRep(ring[..], kp[..], netSeat);
      IdleRep(ring[..], kp[..], 1 - netSeat);
      SameAhead(wm[..], 1 - netSeat, tickLo, tickHi, view.tick);
      dropped := 1;
      view := Idled(view);
    }

    /** LS_IDLE_RMT: idle rings, every watermark 16k ticks ahead. */
    method IdleRemote()
      requires Shape()
      modifies ring, kp, wm
      ensures forall i :: 0 <= i < PAGES ==> ring[i] == 0x40 && kp[i] == 0
      ensures var x := Word(tickLo, tickHi) + 0x4000;
              forall s :: 0 <= s < 4 ==> WmRep(wm[..], s, x)
    {
      hide WmRep, Word;
      RingInit();
      SetWatermarks(Word(tickLo, tickHi) + 0x4000);
    }

    /** The four cells LS_VDISPATCH reads for a seat: this tick's slot and the one before, wrapping. */
    method ReadSeat(side: nat) returns (s: SeatCells)
      requires Valid() && side < 2
      ensures s == ReadRing(if side == netSeat then view.own else view.rmt, view.tick)
    {
      hide CrcRep, MemOk, ImageOf, WmRep, FlagRep, CountRep;
      PrevSlot(view.tick, tickLo);
      var prev := if tickLo == 0 then 255 else tickLo - 1;
      s := SeatCells(Cell(ring[256 * side + tickLo], kp[256 * side + tickLo]), Cell(ring[256 * side + prev], kp[256 * side + prev]));
    }

    /** LS_VDISPATCH for one seat: release, press or held re-fire, then the decoded-input event. */
    method Dispatch(side: nat) returns (ev: seq<Event>)
      requires Valid() && side < 2
      ensures var s := ReadRing(if side == netSeat then view.own else view.rmt, view.tick);
              && ev == SeatEvents(side, s)
              && forall slot: nat, value: int :: Calls(ev, slot, value) == Bit(Raises(slot, value, s.prev, s.cur))
    {
      hide RingRep, CrcRep, MemOk, ImageOf, WmRep, FlagRep, CountRep;
      var s := ReadSeat(side);
      var k, was := s.cur.kp, s.prev.kp;
      ev := [];
      if was != 0 && was <= 3 && was != k { ev := ev + [Event(side, was * 2 + 2, -1)]; }
      if k != 0 && k <= 3 { ev := ev + [Event(side, k * 2 + 2, if k == was then 0 else 1)]; }
      var x := s.cur.dec;
      if x != s.prev.dec {
        if (x / 64) % 2 == 0 {
          ev := ev + [Event(side, if x >= 128 then 2 else 0, x % 128)];
        } else if x < 128 {
          ev := ev + [Event(side, 0, -1)];
        }
      }
      assert ev == SeatEvents(side, s);
      forall slot: nat, value: int
        ensures Calls(ev, slot, value) == Bit(Raises(slot, value, s.prev, s.cur))
      {
        SeatExact(side, s, slot, value);
      }
    }

    /** Both seats, seat 0 first: the events of this tick. */
    method Events() returns (ev: seq<Event>)
      requires Valid()
      ensures ev == TickEvents(ReadCells(view)) && exists n :: TickRaised(ReadCells(view), ev, n)
    {
      hide RingRep, CrcRep, MemOk, ImageOf, WmRep, SeatEvents, FlagRep, CountRep, TickRaised, Raises;
      var a := Dispatch(0);
      var b := Dispatch(1);
      ev := a + b;
      ghost var n := TickExact(ReadCells(view));
    }

    /** RS_RECORD_CRC for the checksum just taken. */
    method RecordCrc(sum: int)
      requires Valid() && 0 <= sum < 0x1_0000
      modifies this`view, crc
      ensures Valid() && view == old(view).(recs := old(view).recs[RecSlot(old(view).tick) := Rec(old(view).tick, sum)])
    {
      hide RingRep, CrcRep, MemOk, ImageOf, WmRep, FlagRep, CountRep;
      var i := (tickLo / 64) % 8;
      RecordRep(crc[..], view.recs, i, Rec(view.tick, sum));
      crc[4 * i] := tickLo;
      crc[4 * i + 1] := tickHi;
      crc[4 * i + 2] := Low(sum);
      crc[4 * i + 3] := High(sum);
      view := view.(recs := view.recs[i := Rec(view.tick, sum)]);
    }

    /** The 64-tick report: checksum, record, CRC frame. */
    method Report() returns (tx: seq<byte>)
      requires Valid()
      modifies this`view, crc
      ensures Valid() && view == Recorded(old(view), old(view).tick, old(view).img)
      ensures AllSendable(ReportFrames(old(view), old(view).img))
      ensures tx == Flat(EncodeAll(ReportFrames(old(view), old(view).img)))
    {
      hide RingRep, CrcRep, MemOk, ImageOf, WmRep, EncodeAll, Check.Cksum, RecSlot, FlagRep, CountRep;
      ReportBytes(view, view.img, tickLo, tickHi);
      tx := [];
      if tickLo % 64 == 0 {
        var sum := ram.Cksum();
        RecordCrc(sum);
        tx := [6, FT_CRC, netSeat, tickLo, tickHi, Low(sum), High(sum)];
      }
    }

    /** tick++ over the two cells. */
    method TickUp()
      requires Valid()
      modifies this`view, this`tickLo, this`tickHi
      ensures Valid() && view == old(view).(tick := old(view).tick + 1)
    {
      hide RingRep, CrcRep, MemOk, ImageOf, WmRep, FlagRep, CountRep, WordRep;
      CarryUp(tickLo, tickHi, view.tick);
      if tickLo + 1 == 0x100 {
        tickLo, tickHi := 0, (tickHi + 1) % 256;
      } else {
        tickLo := tickLo + 1;
      }
      view := view.(tick := view.tick + 1);
    }

    /** RS_PUSH: hold, BEGIN(T+16), the image, END, re-baseline. */
    method Push() returns (tx: seq<byte>)
      requires Valid()
      modifies this, ring, kp, wm, crc, ram.mem
      ensures dropped == old(dropped)
      ensures Valid()
      ensures var r := old(view).tick + LEAD;
              && view == C.Rebase(netDelay, C.EnterHold(old(view), r))
              && AllSendable(PushFrames(old(view).ep + 1, r, old(view).img))
              && tx == Flat(EncodeAll(PushFrames(old(view).ep + 1, r, old(view).img)))
    {
      hide RingRep, CrcRep, MemOk, ImageOf, WmRep, WordRep, Low, High, Word, C.Rebase, EncodeAll, PushFrames, CountRep, FlagRep;
      SameSum(tickLo, tickHi, view.tick, LEAD);
      var x := Word(tickLo, tickHi) + LEAD;
      EnterHold(Low(x), High(x), view.tick + LEAD);
      var out := ram.PushAll(Low(x), High(x), view.r, view.ep + 1);
      tx := Flat(out);
      Rebase();
    }

    /** RS_PENDING: on the host, wait for a quiet tick or the cap, then push. */
    method Pending() returns (tx: seq<byte>)
      requires Valid() && ram.mem[QUIESCENT] == Bit(Quiet(view.img))
      modifies this, ring, kp, wm, crc, ram.mem
      ensures dropped == old(dropped)
      ensures Valid() && view == C.Pending(netDelay, old(view)).0
      ensures AllSendable(C.Pending(netDelay, old(view)).1) && tx == Flat(EncodeAll(C.Pending(netDelay, old(view)).1))
    {
      hide RingRep, CrcRep, MemOk, ImageOf, WmRep, WordRep, C.Rebase, C.EnterHold, EncodeAll, PushFrames, Quiet, CountRep;
      tx := [];
      NoBytes();
      if pend != 0 && netSeat == 0 && hold == 0 {
        if ram.mem[QUIESCENT] % 2 != 0 || ptmo + 1 >= RS_PEND_MAX {
          tx := Push();
        } else {
          ptmo := ptmo + 1;
          view := view.(ptmo := view.ptmo + 1);
        }
      }
    }

    /** First round of a stall, or first pass of a hold: the interrupt phases stop. */
    method Freeze()
      requires Valid()
      modifies this`froze
      ensures Valid() && froze != 0
    {
      hide RingRep, CrcRep, MemOk, ImageOf, WmRep, WordRep, FlagRep;
      if froze == 0 { froze := 1; }
    }

    /** A stall is over: the phases run on, the round counter restarts. */
    method Unfreeze()
      requires Valid()
      modifies this`froze, this`waitLo, this`waitHi
      ensures Valid() && froze == 0 && waitLo == 0 && waitHi == 0
    {
      hide RingRep, CrcRep, MemOk, ImageOf, WmRep, WordRep, FlagRep;
      if froze != 0 { froze, waitLo, waitHi := 0, 0, 0; }
    }

    /** The tick enters the history. */
    ghost method EndTick(c: Console, img: Img, exact: bool)
      requires Valid() && waitLo == 0 && waitHi == 0 && |c.recs| == 8
      requires var t := C.RunTick(c, img, exact); view == t.(pc := view.pc, log := view.log)
      modifies this`view
      ensures Valid() && view == C.RunTick(c, img, exact)
    {
      hide RingRep, CrcRep, MemOk, ImageOf, WmRep, WordRep, FlagRep, C.RunTick;
      view := C.RunTick(c, img, exact);
    }

    /** From the open gate to the end of the pass; the cart's tick leaves memory as `next`. */
    method RunTick(next: seq<word>, ghost exact: bool) returns (tx: seq<byte>)
      requires Valid() && view.pc.Gate? && MemOk(next)
      modifies this, ring, kp, wm, crc, ram.mem
      ensures dropped == old(dropped)
      ensures Valid()
      ensures var c, img := old(view), ImageOf(Mirrored(next));
              var p := C.Pending(netDelay, C.RunTick(c, img, exact));
              && view == p.0
              && AllSendable(ReportFrames(c, img)) && AllSendable(p.1)
              && tx == Flat(EncodeAll(ReportFrames(c, img))) + Flat(EncodeAll(p.1))
    {
      hide RingRep, CrcRep, MemOk, ImageOf, WmRep, WordRep, C.Pending, EncodeAll, Mirrored, ReportFrames, ReadCells, FlagRep, CountRep;
      ghost var c, img := view, ImageOf(Mirrored(next));
      Unfreeze();
      ram.GameTick(next);
      MirroredQuiet(next);
      view := view.(img := img);
      var a := Report();
      ReportSame(c, img);
      TickUp();
      TickParts(c, img, exact);
      EndTick(c, img, exact);
      var b := Pending();
      tx := a + b;
    }
  }

  // ---- what the bytes of a frame do to the state they reach -----------------

  function Handled(d: nat, c: Console, f: seq<byte>, e: nat): (Console, seq<Frame>)
    requires Fits(f) && |c.recs| == 8
  {
    if f[1] == FT_PEER_LEFT then (Idled(c), [])
    else
      match Meaning(f, e, c.tick)
      case None => (c, [])
      case Some(g) => OnFrame(d, c, g)
  }

  function InputSaid(c: Console, f: seq<byte>, e: nat): Frame
    requires |f| == 7
  {
    Input(e, f[2], Near(Word(f[3], f[4]), c.tick), Cell(f[5], f[6]))
  }

  lemma InputHandled(d: nat, c: Console, f: seq<byte>, e: nat)
    requires Fits(f) && f[1] == FT_INPUT && |c.recs| == 8
    ensures |f| == 7 && Handled(d, c, f, e) == (C.OnInput(c, InputSaid(c, f, e)), [])
    ensures !(f[2] != c.seat && f[2] < 2) ==> Handled(d, c, f, e).0 == c
  {
    hide Near, Signed16;
  }

  /** The cells of a tick rebuilt from its cells. */
  lemma NearCells(lo: byte, hi: byte, base: int)
    ensures var x := Near(Word(lo, hi), base);
            WordRep(lo, hi, x) && Slot(x) == lo && RecSlot(x) == (lo / 64) % 8
  {
    hide Near, Low, High, Word, Slot, RecSlot;
    NearWord(lo, hi, base);
    LowSlots(Near(Word(lo, hi), base), lo);
  }

  lemma NearWord(lo: byte, hi: byte, base: int)
    ensures WordRep(lo, hi, Near(Word(lo, hi), base))
  {
    SameWord(Near(Word(lo, hi), base), Word(lo, hi));
  }

  lemma LowSlots(x: int, lo: byte)
    requires lo == Low(x)
    ensures Slot(x) == lo && RecSlot(x) == (lo / 64) % 8
  {
  }

  lemma WordsDiffer(x: int, y: int, lo: byte, hi: byte, w: int)
    requires WordRep(lo, hi, x) && WordRep(Low(w), High(w), y) && 0 <= w < 0x1_0000
    ensures Signed16(x - y) == Signed16(Word(lo, hi) - w)
  {
    WordResidue(lo, hi, x);
    SameWord(y, w);
    SignedResidue(x, y, Word(lo, hi), w);
  }

  /** The watermark test on registers is the watermark test on ticks. */
  lemma InputDecision(c: Console, f: seq<byte>, e: nat, w: int)
    requires |f| == 7 && f[2] != c.seat && f[2] < 2
    requires WordRep(Low(w), High(w), c.wm) && 0 <= w < 0x1_0000
    ensures var c' := C.OnInput(c, InputSaid(c, f, e));
            if Signed16(Word(f[3], f[4]) - w) > 0
            then c' == c.(rmt := c.rmt[f[3] := Cell(f[5], f[6])], wm := c'.wm) && WordRep(f[3], f[4], c'.wm)
            else c' == c
  {
    hide Signed16, Near, WordRep, Word, Slot;
    NearCells(f[3], f[4], c.tick);
    WordsDiffer(InputSaid(c, f, e).tick, c.wm, f[3], f[4], w);
  }

  function CrcSaid(c: Console, f: seq<byte>, e: nat): Frame
    requires |f| == 7
  {
    Crc(e, f[2], Near(Word(f[3], f[4]), c.tick), Word(f[5], f[6]))
  }

  lemma CrcHandled(d: nat, c: Console, f: seq<byte>, e: nat)
    requires Fits(f) && f[1] == FT_CRC && |c.recs| == 8
    ensures |f| == 7 && Handled(d, c, f, e) == C.OnCrc(c, CrcSaid(c, f, e))
  {
    hide Near, Signed16, C.OnCrc;
  }

  /** RS_ON_CRC compares cells; that compares ticks and checksums. */
  lemma CrcDecision(c: Console, f: seq<byte>, e: nat, crc: seq<byte>)
    requires |f| == 7 && CrcRep(crc, c.recs)
    ensures |crc| == 32
    ensures var i := 4 * ((f[3] / 64) % 8);
            Mismatch(c, CrcSaid(c, f, e)) <==>
            !c.hold && !c.pend && crc[i] == f[3] && crc[i + 1] == f[4] && (crc[i + 2] != f[5] || crc[i + 3] != f[6])
  {
    hide Signed16, Near, RecSlot;
    var g := CrcSaid(c, f, e);
    var k := RecSlot(g.tick);
    NearCells(f[3], f[4], c.tick);
    RecMatch(crc, k, c.recs[k], g.tick, g.crc);
  }

  lemma RecMatch(crc: seq<byte>, k: nat, rec: Rec, x: int, sum: int)
    requires |crc| == 32 && k < 8 && RecRep(crc, k, rec) && 0 <= sum < 0x1_0000
    ensures rec.tick % 0x1_0000 == x % 0x1_0000 <==> crc[4 * k] == Low(x) && crc[4 * k + 1] == High(x)
    ensures rec.crc == sum <==> crc[4 * k + 2] == Low(sum) && crc[4 * k + 3] == High(sum)
  {
    SameWord(rec.tick, x);
    SameWord(rec.crc, sum);
  }

  lemma CrcEffect(c: Console, f: seq<byte>, e: nat)
    requires |f| == 7 && |c.recs| == 8
    ensures var r := C.OnCrc(c, CrcSaid(c, f, e));
            if Mismatch(c, CrcSaid(c, f, e))
            then
              && r.0 == c.(early := r.0.early, pend := true, ptmo := 0)
              && AllSendable(r.1)
              && Flat(EncodeAll(r.1)) == if c.seat == 0 then [] else [3, FT_RESYNC, f[3], f[4]]
            else r.0 == c.(early := r.0.early) && r.1 == [] && Flat(EncodeAll(r.1)) == []
  {
    hide Near, Mismatch;
    var g := CrcSaid(c, f, e);
    SameWord(g.tick, Word(f[3], f[4]));
    AskBytes(c.ep, g.tick, f[3], f[4]);
  }

  lemma AskBytes(e: nat, x: int, lo: byte, hi: byte)
    requires WordRep(lo, hi, x)
    ensures AllSendable([Resync(e, x)]) && Flat(EncodeAll([Resync(e, x)])) == [3, FT_RESYNC, lo, hi]
    ensures Flat(EncodeAll([])) == []
  {
    EncodeCons([Resync(e, x)]);
    assert Flat(EncodeAll([Resync(e, x)][1..])) == [];
  }

  lemma ReqHandled(d: nat, c: Console, f: seq<byte>, e: nat)
    requires Fits(f) && f[1] == FT_RESYNC && |c.recs| == 8
    ensures Handled(d, c, f, e) == (if c.seat == 0 && !c.hold && !c.pend then c.(pend := true, ptmo := 0) else c, [])
  {
  }

  lemma SameSum(lo: byte, hi: byte, x: int, n: int)
    requires WordRep(lo, hi, x)
    ensures WordRep(Low(Word(lo, hi) + n), High(Word(lo, hi) + n), x + n)
    ensures Low(Word(lo, hi) + n) == Slot(x + n)
  {
    WordResidue(lo, hi, x);
    assert (x + n) % 0x1_0000 == (Word(lo, hi) + n) % 0x1_0000;
    SameWord(x + n, Word(lo, hi) + n);
  }

  lemma SameWatermark(wm: seq<byte>, seat: nat, lo: byte, hi: byte, r: int, d: nat)
    requires WordRep(lo, hi, r) && WmRep(wm, seat, Word(lo, hi) + d - 1)
    ensures WmRep(wm, seat, r + d - 1)
  {
    hide Low, High, Word;
    SameSum(lo, hi, r, d - 1);
    assert Word(lo, hi) + d - 1 == Word(lo, hi) + (d - 1);
  }

  lemma RebaseEpoch(d: nat, c: Console)
    ensures C.Rebase(d, c).ep == c.ep + 1
  {
  }

  lemma StateHandled(d: nat, c: Console, f: seq<byte>, e: nat)
    requires Fits(f) && f[1] == FT_STATE && |c.recs| == 8
    ensures 4 <= |f| && |f| - 1 == f[0] && Handled(d, c, f, e).1 == []
    ensures f[0] >= 5 ==> |f| >= 6
    ensures var c' := Handled(d, c, f, e).0;
            && (f[3] != 0xFF ==> c' == OnData(c, Word(f[2], f[3]), f[4..]))
            && (f[3] == 0xFF && f[2] == 0 && f[0] >= 5 ==> c' == C.EnterHold(c, Near(Word(f[4], f[5]), c.tick)))
            && (f[3] == 0xFF && f[2] == 1 && c.hold ==> c' == C.Rebase(d, c))
            && (f[3] == 0xFF && (f[2] == 0 ==> f[0] < 5) && (f[2] == 1 ==> !c.hold) ==> c' == c)
  {
    hide Near, C.Rebase, OnData, C.EnterHold;
  }

  lemma CaptureBytes(d: nat, c: Console, cell: Cell, lo: byte, hi: byte)
    requires c.seat < 2 && WordRep(lo, hi, c.tick + d)
    ensures Sendable(CaptureFrame(d, c, cell))
    ensures Encode(CaptureFrame(d, c, cell)) == [6, FT_INPUT, c.seat, lo, hi, cell.dec, cell.kp]
  {
  }

  lemma ReportBytes(c: Console, img: Img, lo: byte, hi: byte)
    requires c.seat < 2 && WordRep(lo, hi, c.tick)
    ensures Reports(c.tick) <==> lo % 64 == 0
    ensures 0 <= Check.Cksum(img) < 0x1_0000
    ensures AllSendable(ReportFrames(c, img))
    ensures var sum := Check.Cksum(img);
            Flat(EncodeAll(ReportFrames(c, img))) ==
            if Reports(c.tick) then [6, FT_CRC, c.seat, lo, hi, Low(sum), High(sum)] else []
  {
    hide Check.Cksum, Low, High, Reports, EncodeAll;
    CksumRange(img);
    LowBits(c.tick);
    if Reports(c.tick) { EncodeOne(Crc(c.ep, c.seat, c.tick, Check.Cksum(img))); } else { NoBytes(); }
  }

  lemma LowBits(x: int)
    ensures Reports(x) <==> Low(x) % 64 == 0
  {
  }

  lemma CksumRange(img: Img)
    ensures 0 <= Check.Cksum(img) < 0x1_0000
  {
    Check.FoldRange(0, Check.Covered(img));
  }

  lemma EncodeOne(f: Frame)
    requires Sendable(f)
    ensures AllSendable([f]) && Flat(EncodeAll([f])) == Encode(f)
  {
    hide Encode, Sendable;
    EncodeCons([f]);
    NoBytes();
    assert [f][1..] == [];
  }

  lemma NoBytes()
    ensures AllSendable([]) && Flat(EncodeAll([])) == []
  {
  }

  lemma MirroredQuiet(m: seq<word>)
    requires MemOk(m)
    ensures Mirrored(m)[QUIESCENT] == Bit(Quiet(ImageOf(Mirrored(m))))
  {
  }

  lemma ReportSame(c: Console, img: Img)
    ensures ReportFrames(c.(img := img), img) == ReportFrames(c, img)
  {
  }

  /** A tick is its parts: image, record, tick counter, and the history entry. */
  lemma TickParts(c: Console, img: Img, exact: bool)
    requires |c.recs| == 8
    ensures var m := Recorded(c.(img := img), c.tick, img);
            var t := C.RunTick(c, img, exact);
            && t == m.(tick := m.tick + 1, pc := t.pc, log := t.log) && t.pc.Top?
            && m.(tick := m.tick + 1) == t.(pc := c.pc, log := c.log)
  {
    hide Check.Cksum, ReadCells;
  }

  predicate MatchFrame(f: seq<byte>)
    requires Fits(f)
  {
    f[1] != FT_START
  }

  lemma LeftHandled(d: nat, c: Console, f: seq<byte>, e: nat)
    requires Fits(f) && f[1] == FT_PEER_LEFT && |c.recs| == 8
    ensures Handled(d, c, f, e) == (Idled(c), [])
  {
  }

  /** An idled console's gate is open. */
  lemma IdledOpen(c: Console)
    ensures GateOpen(Idled(c))
  {
  }

  lemma SameAhead(wm: seq<byte>, seat: nat, lo: byte, hi: byte, x: int)
    requires WordRep(lo, hi, x) && (var y := Word(lo, hi) + 0x4000; forall s :: 0 <= s < 4 ==> WmRep(wm, s, y)) && seat < 4
    ensures WmRep(wm, seat, x + 0x4000)
  {
    hide Low, High, Word;
    SameSum(lo, hi, x, 0x4000);
    var y := Word(lo, hi) + 0x4000;
    assert WmRep(wm, seat, y);
  }

  lemma OtherHandled(d: nat, c: Console, f: seq<byte>, e: nat)
    requires Fits(f) && f[1] !in {FT_INPUT, FT_CRC, FT_STATE, FT_RESYNC, FT_PEER_LEFT} && |c.recs| == 8
    ensures Handled(d, c, f, e) == (c, [])
  {
  }

  lemma PrevSlot(x: int, lo: byte)
    requires lo == Low(x)
    ensures Slot(x) == lo && Slot(x - 1) == if lo == 0 then 255 else lo - 1
  {
  }

  /** Only a rebase, which opens a new epoch, resets the gate's round counter. */
  ghost predicate WaitKept(ep: nat, ep': nat, lo: byte, lo': byte, hi: byte, hi': byte) {
    (ep' == ep && lo' == lo && hi' == hi) || (ep' > ep && lo' == 0 && hi' == 0)
  }

  /** BEGIN and END restart the hold's pass counter; no other frame touches it. */
  ghost predicate HoldKept(lo: byte, lo': byte, hi: byte, hi': byte) {
    (lo' == lo && hi' == hi) || (lo' == 0 && hi' == 0)
  }

  lemma KeepsPc(d: nat, c: Console, f: seq<byte>, e: nat)
    requires Fits(f) && |c.recs| == 8
    ensures Handled(d, c, f, e).0.pc == c.pc
  {
    hide Near, Signed16, Mismatch;
  }

  lemma SameEpoch(d: nat, c: Console, f: seq<byte>, e: nat)
    requires Fits(f) && |c.recs| == 8
    ensures f[1] != FT_STATE ==> Handled(d, c, f, e).0.ep == c.ep
  {
    hide Near, Signed16, Mismatch;
  }

  lemma WordBack(w: int)
    requires 0 <= w < 0x1_0000
    ensures Word(Low(w), High(w)) == w && WordRep(Low(w), High(w), w)
  {
  }

  lemma RebaseIs(d: nat, c: Console)
    ensures var r := C.Rebase(d, c);
            r == c.(pend := false, ptmo := 0, img := Clamp(c.img), tick := c.r, own := IdleRing(), rmt := IdleRing(),
                    wm := c.r + d - 1, recs := NO_RECS, hold := false,
                    ep := r.ep, pos := r.pos, first := r.first)
  {
  }

  lemma CarryUp(lo: byte, hi: byte, x: int)
    requires WordRep(lo, hi, x)
    ensures if lo == 255 then WordRep(0, (hi + 1) % 256, x + 1) else WordRep(lo + 1, hi, x + 1)
  {
    if lo == 255 {
      assert (x + 1) % 256 == 0 && (x + 1) / 256 == x / 256 + 1;
    } else {
      assert (x + 1) % 256 == lo + 1 && (x + 1) / 256 == x / 256;
    }
  }

  lemma ResumeCells(hold: byte, pend: byte, ptmo: byte, rLo: byte, rHi: byte, held: bool, wanted: bool, waited: nat, r: int)
    requires FlagRep(hold, pend, ptmo, rLo, rHi, held, wanted, waited, r) && held
    ensures WordRep(rLo, rHi, r)
  {
  }
}
