/** A console and its receive path: SES_PUMP with SES_ONFRAME behind it, and the gate wait of LS_PASS. */
module Station {
  import opened Basics
  import opened Console
  import opened Framing
  import opened Wire
  import opened CellRep
  import opened Cells
  import opened Receiver
  import opened Dispatch
  import opened Image
  import opened Memory
  import C = Console

  const WAIT_MAX := 768

  /** Frames handled in order; `tags` names the epoch each was sent in, counted from `k`. */
  function HandledAll(d: nat, c: Console, fs: seq<seq<byte>>, tags: nat -> nat, k: nat): (r: (Console, seq<Frame>))
    requires AllFit(fs) && |c.recs| == 8
    ensures |r.0.recs| == 8
    decreases |fs|
  {
    if fs == [] then (c, [])
    else
      var n := |fs| - 1;
      var p := HandledAll(d, c, fs[..n], tags, k);
      KeepsRecs(d, p.0, fs[n], tags(k + n));
      var q := Handled(d, p.0, fs[n], tags(k + n));
      (q.0, p.1 + q.1)
  }

  lemma KeepsRecs(d: nat, c: Console, f: seq<byte>, e: nat)
    requires Fits(f) && |c.recs| == 8
    ensures |Handled(d, c, f, e).0.recs| == 8
  {
    hide Near, Signed16, Mismatch;
  }

  lemma HandledMore(d: nat, c: Console, fs: seq<seq<byte>>, f: seq<byte>, tags: nat -> nat, k: nat)
    requires AllFit(fs) && Fits(f) && |c.recs| == 8
    ensures AllFit(fs + [f])
    ensures var p := HandledAll(d, c, fs, tags, k);
            var q := Handled(d, p.0, f, tags(k + |fs|));
            HandledAll(d, c, fs + [f], tags, k) == (q.0, p.1 + q.1)
  {
    hide Handled, Fits;
    assert (fs + [f])[..|fs|] == fs;
  }

  lemma KeepsShape(d: nat, c: Console, fs: seq<seq<byte>>, tags: nat -> nat, k: nat)
    requires AllFit(fs) && |c.recs| == 8
    ensures |HandledAll(d, c, fs, tags, k).0.recs| == 8
  {
  }

  lemma {:induction false} HandledConcat(d: nat, c: Console, fs: seq<seq<byte>>, gs: seq<seq<byte>>, tags: nat -> nat)
    requires AllFit(fs) && AllFit(gs) && |c.recs| == 8
    ensures AllFit(fs + gs)
    ensures var p := HandledAll(d, c, fs, tags, 0);
            var q := HandledAll(d, p.0, gs, tags, |fs|);
            HandledAll(d, c, fs + gs, tags, 0) == (q.0, p.1 + q.1)
    decreases |gs|
  {
    hide Handled, Fits, HandledAll;
    KeepsShape(d, c, fs, tags, 0);
    var p := HandledAll(d, c, fs, tags, 0);
    if gs == [] {
      HandledNone(d, p.0, tags, |fs|);
      assert fs + gs == fs && p.1 + [] == p.1;
    } else {
      var n := |gs| - 1;
      var q := HandledAll(d, p.0, gs[..n], tags, |fs|);
      HandledConcat(d, c, fs, gs[..n], tags);
      assert gs == gs[..n] + [gs[n]] && fs + gs == (fs + gs[..n]) + [gs[n]];
      HandledMore(d, c, fs + gs[..n], gs[n], tags, 0);
      HandledMore(d, p.0, gs[..n], gs[n], tags, |fs|);
      var h := Handled(d, q.0, gs[n], tags(|fs| + n));
      assert (p.1 + q.1) + h.1 == p.1 + (q.1 + h.1);
    }
  }

  lemma {:induction false} FlatConcat(a: seq<seq<byte>>, b: seq<seq<byte>>)
    ensures Flat(a + b) == Flat(a) + Flat(b)
    decreases |a|
  {
    if a == [] {
      assert a + b == b;
    } else {
      FlatConcat(a[1..], b);
      assert (a + b)[1..] == a[1..] + b;
    }
  }

  lemma EncodeConcat(a: seq<Frame>, b: seq<Frame>)
    requires AllSendable(a) && AllSendable(b)
    ensures AllSendable(a + b) && Flat(EncodeAll(a + b)) == Flat(EncodeAll(a)) + Flat(EncodeAll(b))
  {
    hide Encode, Sendable;
    assert EncodeAll(a + b) == EncodeAll(a) + EncodeAll(b);
    FlatConcat(EncodeAll(a), EncodeAll(b));
  }

  ghost predicate AllMatch(fs: seq<seq<byte>>) {
    AllFit(fs) && forall i :: 0 <= i < |fs| ==> MatchFrame(fs[i])
  }

  class Station {
    const cells: Cells
    const rx: Receiver

    /** Between pumps the buffer holds at most part of one frame. */
    ghost predicate Valid()
      reads this, cells, cells.ring, cells.kp, cells.wm, cells.crc, cells.ram, cells.ram.mem, rx, rx.rxacc
    {
      && cells.Valid() && rx.Valid() && Parse(rx.Contents()) == Parsed([], rx.Contents(), 0)
      && {rx.rxacc, rx.frmbuf} !! {cells.ring, cells.kp, cells.wm, cells.crc}
    }

    constructor (cells: Cells)
      requires cells.Valid()
      ensures Valid() && this.cells == cells && fresh(rx) && rx.Contents() == []
    {
      this.cells := cells;
      rx := new Receiver();
    }

    /** One pump: read, parse, hand every complete frame to SES_ONFRAME. */
    method Pump(read: seq<byte>, ghost tags: nat -> nat, ghost k: nat) returns (tx: seq<byte>)
      requires Valid() && |read| <= READ_MAX
      requires AllMatch(Parse(rx.Contents() + read).frames)
      modifies cells, cells.ring, cells.kp, cells.wm, cells.crc, cells.ram.mem, rx, rx.rxacc, rx.frmbuf
      ensures Valid() && rx.Contents() == Parse(old(rx.Contents()) + read).rest
      ensures var r := HandledAll(cells.netDelay, old(cells.view), Parse(old(rx.Contents()) + read).frames, tags, k);
              cells.view == r.0 && AllSendable(r.1) && tx == Flat(EncodeAll(r.1))
      ensures cells.view.pc == old(cells.view.pc) && cells.froze == old(cells.froze)
      ensures HoldKept(old(cells.toLo), cells.toLo, old(cells.toHi), cells.toHi)
      ensures cells.dropped != 0 <==> old(cells.dropped) != 0 || HasLeft(Parse(old(rx.Contents()) + read).frames)
      ensures WaitKept(old(cells.view.ep), cells.view.ep, old(cells.waitLo), cells.waitLo, old(cells.waitHi), cells.waitHi)
    {
      hide Parse, HandledAll, EncodeAll, AllMatch, WaitKept;
      ParseRest(rx.Contents() + read);
      var frames := rx.Pump(read);
      tx := HandOver(frames, tags, k);
    }

    method HandOver(frames: seq<seq<byte>>, ghost tags: nat -> nat, ghost k: nat) returns (tx: seq<byte>)
      requires Valid() && AllMatch(frames)
      modifies cells, cells.ring, cells.kp, cells.wm, cells.crc, cells.ram.mem
      ensures Valid() && rx.Contents() == old(rx.Contents())
      ensures var r := HandledAll(cells.netDelay, old(cells.view), frames, tags, k);
              cells.view == r.0 && AllSendable(r.1) && tx == Flat(EncodeAll(r.1))
      ensures cells.view.pc == old(cells.view.pc) && cells.froze == old(cells.froze)
      ensures HoldKept(old(cells.toLo), cells.toLo, old(cells.toHi), cells.toHi)
      ensures cells.dropped != 0 <==> old(cells.dropped) != 0 || HasLeft(frames)
      ensures WaitKept(old(cells.view.ep), cells.view.ep, old(cells.waitLo), cells.waitLo, old(cells.waitHi), cells.waitHi)
    {
      hide Handled, Fits, RingRep, CrcRep, MatchFrame, WordRep, WmRep, FlagRep, CountRep, HasLeft, Made;
      ghost var c, d := cells.view, cells.netDelay;
      tx := [];
      NoneMade(d, c, tags, k, frames);
      var i := 0;
      while i < |frames|
        invariant 0 <= i <= |frames| && Valid()
        invariant rx.Contents() == old(rx.Contents())
        invariant Made(d, c, frames[..i], tags, k, cells.view, tx)
        invariant cells.view.pc == c.pc && cells.froze == old(cells.froze)
        invariant HoldKept(old(cells.toLo), cells.toLo, old(cells.toHi), cells.toHi)
        invariant cells.dropped != 0 <==> old(cells.dropped) != 0 || HasLeft(frames[..i])
        invariant WaitKept(c.ep, cells.view.ep, old(cells.waitLo), cells.waitLo, old(cells.waitHi), cells.waitHi)
      {
        ghost var v := cells.view;
        var more := cells.OnFrame(frames[i], tags(k + i));
        OneMade(d, c, frames, i, tags, k, v, tx, more);
        tx := tx + more;
        i := i + 1;
      }
      AllMade(d, c, frames, tags, k, cells.view, tx);
    }

    /**
     The gate of LS_PASS: scan, and as long as it is closed pump once a round;
     `rounds` is what the device answers to each read.  However long the device
     goes on answering, the wait ends within 768 rounds of the last rebase in it:
     open, or with the match over, by PEER_LEFT or because the wait was given up.
     `v` is the state all frames so far have made.
     */
    method Gate(rounds: seq<seq<byte>>, ghost tags: nat -> nat) returns (n: nat, tx: seq<byte>, ghost v: Console, ghost since: nat)
      requires Valid() && cells.view.pc.Gate? && cells.waitLo == 0 && cells.waitHi == 0
      requires forall i :: 0 <= i < |rounds| ==> |rounds[i]| <= READ_MAX
      requires AllMatch(Parse(rx.Contents() + Flat(rounds)).frames)
      modifies cells, cells.ring, cells.kp, cells.wm, cells.crc, cells.ram.mem, rx, rx.rxacc, rx.frmbuf
      ensures Valid() && cells.view.pc.Gate?
      ensures n <= |rounds| && n <= WAIT_MAX * (1 + v.ep - old(cells.view.ep))
      ensures since <= n <= since + WAIT_MAX
      ensures LastRebase(cells.netDelay, old(cells.view), old(rx.Contents()), rounds, since, n, tags, v.ep)
      ensures n < |rounds| ==> cells.dropped != 0 || GateOpen(cells.view)
      ensures Progressed(cells.netDelay, old(cells.view), old(rx.Contents()), rounds[..n], tags, v, tx)
      ensures Waited(cells.netDelay, old(cells.view), old(rx.Contents()), rounds, n, tags)
      ensures rx.Contents() == Parse(old(rx.Contents()) + Flat(rounds[..n])).rest
      ensures cells.view == v || (cells.view == Idled(v) && cells.dropped != 0 && n == since + WAIT_MAX)
      ensures cells.dropped == 0 ==> cells.view == v
    {
      hide Parse, HandledAll, EncodeAll, AllMatch, Progressed, Waited, GateOpen, RingRep, CrcRep, WordRep, WmRep, Flat, FlagRep, Idled, WaitBound, WaitKept, LastRebase;
      ghost var b, c, d := rx.Contents(), cells.view, cells.netDelay;
      n, tx, v, since := 0, [], c, 0;
      NoRounds(d, c, b, tags, rounds);
      NoRebase(d, c, b, rounds, tags, c.ep);
      WaitStarts(cells.waitLo, cells.waitHi);
      while n < |rounds|
        invariant n <= |rounds| && Valid() && v == cells.view
        invariant cells.view.pc.Gate?
        invariant c.ep <= cells.view.ep && WaitBound(n, cells.view.ep - c.ep, cells.waitLo, cells.waitHi)
        invariant since <= n && 256 * cells.waitHi + cells.waitLo == n - since < WAIT_MAX
        invariant LastRebase(d, c, b, rounds, since, n, tags, v.ep)
        invariant rx.Contents() == Parse(b + Flat(rounds[..n])).rest
        invariant Progressed(d, c, b, rounds[..n], tags, v, tx) && Waited(d, c, b, rounds, n, tags)
      {
        WaitEnds(n, c.ep, cells.view.ep, cells.waitLo, cells.waitHi);
        if cells.dropped != 0 { return; }
        var open := cells.GateScan();
        if open { return; }
        ViewNow(d, c, b, rounds[..n], tags, v, tx);
        WaitedMore(d, c, b, rounds, n, tags);
        var over;
        ghost var u := v;
        tx, over := Round(rounds, n, tx, tags, b, c);
        v := cells.view;
        RebaseMore(d, c, b, rounds, since, n, tags, u, v, tx);
        if v.ep != u.ep { since := n; }
        n := n + 1;
        if over {
          IdledKeeps(v);
          cells.PeerGone();
          return;
        }
      }
      WaitEnds(n, c.ep, cells.view.ep, cells.waitLo, cells.waitHi);
    }

    /**
     LS_PASS outside a hold: pump, capture for T+d and send, wait at the gate,
     dispatch the events of tick T, let the cart run, report, count the tick,
     push if one is due.  A match that ended meanwhile is played on for this one
     tick.  `game` is the cart: memory and events in, memory out.
     */
    method Pass(read: seq<byte>, cell: Cell, rounds: seq<seq<byte>>, game: (seq<word>, seq<Event>) -> seq<word>,
                ghost exact: bool, ghost tags: nat -> nat, ghost gateTags: nat -> nat)
      returns (ticked: bool, n: nat, events: seq<Event>, txTop: seq<byte>, txInput: seq<byte>, txGate: seq<byte>, txTick: seq<byte>,
               ghost v: Console, ghost mid: Console, ghost img: Img, ghost mem: seq<word>)
      requires Valid() && cells.view.pc.Top? && cells.hold == 0 && cells.dropped == 0 && |read| <= READ_MAX
      requires forall i :: 0 <= i < |rounds| ==> |rounds[i]| <= READ_MAX
      requires AllMatch(Parse(rx.Contents() + read).frames)
      requires AllMatch(Parse(Parse(rx.Contents() + read).rest + Flat(rounds)).frames)
      requires forall m, ev :: MemOk(m) ==> MemOk(game(m, ev))
      modifies cells, cells.ring, cells.kp, cells.wm, cells.crc, cells.ram.mem, rx, rx.rxacc, rx.frmbuf
      ensures Valid()
      ensures var d, p := cells.netDelay, Parse(old(rx.Contents()) + read);
              var top := HandledAll(d, old(cells.view), p.frames, tags, 0);
              && top.0.pc.Top? && AllSendable(top.1) && txTop == Flat(EncodeAll(top.1))
              && Sendable(CaptureFrame(d, top.0, cell)) && txInput == Encode(CaptureFrame(d, top.0, cell))
              && n <= |rounds| && Progressed(d, C.Capture(d, top.0, cell), p.rest, rounds[..n], gateTags, v, txGate)
              && Waited(d, C.Capture(d, top.0, cell), p.rest, rounds, n, gateTags)
              && rx.Contents() == Parse(p.rest + Flat(rounds[..n])).rest
      ensures mid == v || (mid == Idled(v) && cells.dropped != 0 && n >= WAIT_MAX && GateOpen(mid))
      ensures ticked <==> cells.dropped != 0 || GateOpen(mid)
      ensures ticked ==> Played(cells.netDelay, mid, img, exact, cells.view, txTick) && events == TickEvents(ReadCells(mid))
      ensures ticked ==> MemOk(mem) && ImageOf(mem) == mid.img && MemOk(Mirrored(game(mem, events))) && img == ImageOf(Mirrored(game(mem, events)))
      ensures !ticked ==> n == |rounds| && cells.view == mid
    {
      hide Parse, HandledAll, EncodeAll, AllMatch, Progressed, Waited, MemOk, ImageOf, GateOpen, Encode, Sendable, C.Capture, Idled,
        TickEvents, ReadCells, Played, RingRep, CrcRep, WordRep, WmRep, FlagRep, CountRep;
      ticked, events, txTick, img := false, [], [], cells.view.img;
      txTop, txInput := UpToGate(read, cell, tags);
      ghost var since;
      n, txGate, v, since := Gate(rounds, gateTags);
      mid, mem := cells.view, cells.ram.mem[..];
      IdledOpen(v);
      ticked := cells.dropped != 0;
      if !ticked { ticked := cells.GateScan(); }
      if ticked { events, txTick, img := Play(game, exact); }
    }

    /** The pass up to its gate. */
    method UpToGate(read: seq<byte>, cell: Cell, ghost tags: nat -> nat) returns (txTop: seq<byte>, txInput: seq<byte>)
      requires Valid() && cells.view.pc.Top? && |read| <= READ_MAX && AllMatch(Parse(rx.Contents() + read).frames)
      modifies cells, cells.ring, cells.kp, cells.wm, cells.crc, cells.ram.mem, rx, rx.rxacc, rx.frmbuf
      ensures Valid() && cells.view.pc.Gate? && cells.waitLo == 0 && cells.waitHi == 0
      ensures rx.Contents() == Parse(old(rx.Contents()) + read).rest
      ensures var d := cells.netDelay;
              var top := HandledAll(d, old(cells.view), Parse(old(rx.Contents()) + read).frames, tags, 0);
              && top.0.pc.Top? && AllSendable(top.1) && txTop == Flat(EncodeAll(top.1))
              && Sendable(CaptureFrame(d, top.0, cell)) && txInput == Encode(CaptureFrame(d, top.0, cell))
              && cells.view == C.Capture(d, top.0, cell)
    {
      hide Parse, HandledAll, EncodeAll, AllMatch, RingRep, CrcRep, WordRep, WmRep, FlagRep, MemOk, ImageOf, Encode, Sendable, WaitKept, HoldKept;
      txTop := Pump(read, tags, 0);
      txInput := cells.Capture(cell);
    }

    /** The pass from its open gate on. */
    method Play(game: (seq<word>, seq<Event>) -> seq<word>, ghost exact: bool)
      returns (events: seq<Event>, txTick: seq<byte>, ghost img: Img)
      requires Valid() && cells.view.pc.Gate? && forall m, ev :: MemOk(m) ==> MemOk(game(m, ev))
      modifies cells, cells.ring, cells.kp, cells.wm, cells.crc, cells.ram.mem
      ensures Valid() && Played(cells.netDelay, old(cells.view), img, exact, cells.view, txTick)
      ensures cells.dropped == old(cells.dropped) && rx.Contents() == old(rx.Contents())
      ensures events == TickEvents(ReadCells(old(cells.view)))
      ensures MemOk(Mirrored(game(old(cells.ram.mem[..]), events))) && img == ImageOf(Mirrored(game(old(cells.ram.mem[..]), events)))
    {
      hide EncodeAll, RingRep, CrcRep, WordRep, WmRep, FlagRep, CountRep, TickEvents, ReadCells, C.Pending, C.RunTick, MemOk, ImageOf;
      events := cells.Events();
      var next := game(cells.ram.mem[..], events);
      img := ImageOf(Mirrored(next));
      txTick := cells.RunTick(next, exact);
    }

    /** One round of the gate wait: the phases stop, a pump is added to what the rounds before it did, the round counts. */
    method Round(rounds: seq<seq<byte>>, n: nat, before: seq<byte>, ghost tags: nat -> nat, ghost b: seq<byte>, ghost c: Console)
      returns (tx: seq<byte>, over: bool)
      requires Valid() && cells.view.pc.Gate?
      requires n < |rounds| && |rounds[n]| <= READ_MAX && AllMatch(Parse(b + Flat(rounds)).frames)
      requires rx.Contents() == Parse(b + Flat(rounds[..n])).rest
      requires Progressed(cells.netDelay, c, b, rounds[..n], tags, cells.view, before)
      requires c.ep <= cells.view.ep && WaitBound(n, cells.view.ep - c.ep, cells.waitLo, cells.waitHi)
      modifies cells, cells.ring, cells.kp, cells.wm, cells.crc, cells.ram.mem, rx, rx.rxacc, rx.frmbuf
      ensures Valid() && cells.view.pc.Gate? && rx.Contents() == Parse(b + Flat(rounds[..n + 1])).rest
      ensures Progressed(cells.netDelay, c, b, rounds[..n + 1], tags, cells.view, tx)
      ensures c.ep <= cells.view.ep && n + 1 <= WAIT_MAX * (1 + cells.view.ep - c.ep)
      ensures if over then n + 1 >= WAIT_MAX else WaitBound(n + 1, cells.view.ep - c.ep, cells.waitLo, cells.waitHi)
      ensures old(cells.view.ep) <= cells.view.ep
      ensures 256 * cells.waitHi + cells.waitLo ==
              1 + if cells.view.ep == old(cells.view.ep) then 256 * old(cells.waitHi) + old(cells.waitLo) else 0
      ensures over <==> 256 * cells.waitHi + cells.waitLo >= WAIT_MAX
    {
      hide Parse, HandledAll, EncodeAll, AllMatch, Progressed, RingRep, CrcRep, WordRep, WmRep, WaitKept, WaitBound, Flat, FlagRep, HasLeft;
      RoundFrames(b, rounds, n);
      ghost var v, lo, hi := cells.view, cells.waitLo, cells.waitHi;
      cells.Freeze();
      var more := Pump(rounds[n], tags, |Parse(b + Flat(rounds[..n])).frames|);
      RoundStep(cells.netDelay, c, b, rounds, n, tags, v, before, cells.view, more);
      tx := before + more;
      ghost var lo', hi' := cells.waitLo, cells.waitHi;
      WaitKeeps(n, c.ep, v.ep, cells.view.ep, lo, lo', hi, hi');
      WaitCounts(v.ep, cells.view.ep, lo, lo', hi, hi');
      over := cells.CountRound();
      WaitNext(n, c.ep, v.ep, cells.view.ep, lo, lo', hi, hi', cells.waitLo, cells.waitHi);
    }

    /**
     A pass in a hold: pump only, no tick.  1536 passes with neither a BEGIN nor
     an END end the match, as PEER_LEFT does.
     */
    method HoldPass(read: seq<byte>, ghost tags: nat -> nat) returns (tx: seq<byte>)
      requires Valid() && cells.hold != 0 && cells.dropped == 0 && |read| <= READ_MAX
      requires AllMatch(Parse(rx.Contents() + read).frames)
      modifies cells, cells.ring, cells.kp, cells.wm, cells.crc, cells.ram.mem, rx, rx.rxacc, rx.frmbuf
      ensures Valid() && rx.Contents() == Parse(old(rx.Contents()) + read).rest
      ensures var fs := Parse(old(rx.Contents()) + read).frames;
              var r, count := HandledAll(cells.netDelay, old(cells.view), fs, tags, 0), 256 * cells.toHi + cells.toLo;
              && AllSendable(r.1) && tx == Flat(EncodeAll(r.1))
              && (count == 256 * old(cells.toHi) + old(cells.toLo) + 1 || count == 1)
              && (cells.dropped != 0 <==> count == 0x600 || HasLeft(fs))
              && cells.view == if count == 0x600 then Idled(r.0.(hold := false)) else r.0
    {
      hide Parse, HandledAll, EncodeAll, AllMatch, WaitKept, RingRep, CrcRep, WordRep, WmRep, FlagRep, CountRep, HasLeft, Idled;
      cells.Freeze();
      tx := Pump(read, tags, 0);
      var _ := cells.CountHold();
    }
  }

  /** Tick, report and RS_PENDING: the end of a pass from the open gate on. */
  ghost predicate Played(d: nat, c: Console, img: Img, exact: bool, v: Console, tx: seq<byte>) {
    && |c.recs| == 8
    && var p := C.Pending(d, C.RunTick(c, img, exact));
    && v == p.0 && AllSendable(ReportFrames(c, img)) && AllSendable(p.1)
    && tx == Flat(EncodeAll(ReportFrames(c, img))) + Flat(EncodeAll(p.1))
  }

  /** The round counter against the rounds done: it restarts only when an epoch does. */
  ghost predicate WaitBound(n: nat, epochs: nat, lo: byte, hi: byte) {
    256 * hi + lo < WAIT_MAX && 256 * hi + lo <= n <= WAIT_MAX * epochs + 256 * hi + lo
  }

  lemma WaitStarts(lo: byte, hi: byte)
    requires lo == 0 && hi == 0
    ensures WaitBound(0, 0, lo, hi)
  {
  }

  lemma WaitKeeps(n: nat, start: nat, ep: nat, ep': nat, lo: byte, lo': byte, hi: byte, hi': byte)
    requires start <= ep && WaitBound(n, ep - start, lo, hi) && WaitKept(ep, ep', lo, lo', hi, hi')
    ensures ep <= ep' && hi' < LS_TIMEOUT_HI
    ensures n <= WAIT_MAX * (1 + ep - start)
  {
  }

  lemma WaitCounts(ep: nat, ep': nat, lo: byte, lo': byte, hi: byte, hi': byte)
    requires WaitKept(ep, ep', lo, lo', hi, hi')
    ensures ep <= ep' && 256 * hi' + lo' == if ep' == ep then 256 * hi + lo else 0
  {
  }

  /** A round more: a rebase in it buys another 768. */
  lemma WaitNext(n: nat, start: nat, ep: nat, ep': nat, lo: byte, lo': byte, hi: byte, hi': byte, lo2: byte, hi2: byte)
    requires start <= ep && WaitBound(n, ep - start, lo, hi) && WaitKept(ep, ep', lo, lo', hi, hi')
    requires 256 * hi2 + lo2 == 256 * hi' + lo' + 1
    ensures ep <= ep' && n + 1 <= WAIT_MAX * (1 + ep' - start)
    ensures if 256 * hi2 + lo2 < WAIT_MAX then WaitBound(n + 1, ep' - start, lo2, hi2) else n + 1 >= WAIT_MAX
  {
    if ep < ep' { assert WAIT_MAX * (ep' - start) >= WAIT_MAX * (ep - start) + WAIT_MAX; }
  }

  lemma WaitEnds(n: nat, start: nat, ep: nat, lo: byte, hi: byte)
    requires start <= ep && WaitBound(n, ep - start, lo, hi)
    ensures n <= WAIT_MAX * (1 + ep - start)
  {
  }

  /** What the frames of the rounds so far have done. */
  ghost predicate Progressed(d: nat, c: Console, b: seq<byte>, rounds: seq<seq<byte>>, tags: nat -> nat, v: Console, tx: seq<byte>) {
    && |c.recs| == 8
    && var fs := Parse(b + Flat(rounds)).frames;
    && AllFit(fs)
    && var r := HandledAll(d, c, fs, tags, 0);
    && v == r.0 && AllSendable(r.1) && tx == Flat(EncodeAll(r.1))
  }

  /** What the frames of the rounds so far have made of the console. */
  ghost function ViewAfter(d: nat, c: Console, b: seq<byte>, rounds: seq<seq<byte>>, tags: nat -> nat): Console
    requires |c.recs| == 8
  {
    ParseShape(b + Flat(rounds));
    HandledAll(d, c, Parse(b + Flat(rounds)).frames, tags, 0).0
  }

  /** The gate was closed before each of the first `n` rounds. */
  ghost predicate Waited(d: nat, c: Console, b: seq<byte>, rounds: seq<seq<byte>>, n: nat, tags: nat -> nat) {
    |c.recs| == 8 && n <= |rounds| && forall j :: 0 <= j < n ==> !GateOpen(ViewAfter(d, c, b, rounds[..j], tags))
  }

  /** Round `since` holds the last rebase before round `n`; the wait began with it if there was none. */
  ghost predicate LastRebase(d: nat, c: Console, b: seq<byte>, rounds: seq<seq<byte>>, since: nat, n: nat, tags: nat -> nat, ep: nat) {
    && |c.recs| == 8 && since <= n <= |rounds|
    && (since > 0 ==> ViewAfter(d, c, b, rounds[..since], tags).ep < ep)
    && (forall j :: since < j <= n ==> ViewAfter(d, c, b, rounds[..j], tags).ep == ep)
  }

  lemma NoRebase(d: nat, c: Console, b: seq<byte>, rounds: seq<seq<byte>>, tags: nat -> nat, ep: nat)
    requires |c.recs| == 8
    ensures LastRebase(d, c, b, rounds, 0, 0, tags, ep)
  {
  }

  /** A round more, from `u` to `v`. */
  lemma RebaseMore(d: nat, c: Console, b: seq<byte>, rounds: seq<seq<byte>>, since: nat, n: nat, tags: nat -> nat,
                   u: Console, v: Console, tx: seq<byte>)
    requires n < |rounds| && LastRebase(d, c, b, rounds, since, n, tags, u.ep) && u.ep <= v.ep
    requires Waited(d, c, b, rounds, n, tags) && ViewAfter(d, c, b, rounds[..n], tags) == u
    requires Progressed(d, c, b, rounds[..n + 1], tags, v, tx)
    ensures LastRebase(d, c, b, rounds, if v.ep != u.ep then n else since, n + 1, tags, v.ep)
  {
    hide Parse, HandledAll, EncodeAll, GateOpen, Flat, Waited;
    assert ViewAfter(d, c, b, rounds[..n + 1], tags) == v;
  }

  lemma ViewNow(d: nat, c: Console, b: seq<byte>, rounds: seq<seq<byte>>, tags: nat -> nat, v: Console, tx: seq<byte>)
    requires Progressed(d, c, b, rounds, tags, v, tx)
    ensures |c.recs| == 8 && ViewAfter(d, c, b, rounds, tags) == v
  {
    hide Parse, HandledAll, EncodeAll, Flat;
  }

  lemma WaitedMore(d: nat, c: Console, b: seq<byte>, rounds: seq<seq<byte>>, n: nat, tags: nat -> nat)
    requires n < |rounds| && Waited(d, c, b, rounds, n, tags) && !GateOpen(ViewAfter(d, c, b, rounds[..n], tags))
    ensures Waited(d, c, b, rounds, n + 1, tags)
  {
    hide GateOpen, ViewAfter;
  }

  lemma IdledKeeps(c: Console)
    ensures Idled(c).pc == c.pc && Idled(c).ep == c.ep
  {
  }

  /** What frames handed over one by one have made and sent. */
  ghost predicate Made(d: nat, c: Console, fs: seq<seq<byte>>, tags: nat -> nat, k: nat, v: Console, tx: seq<byte>) {
    && |c.recs| == 8 && AllFit(fs)
    && var r := HandledAll(d, c, fs, tags, k);
    && v == r.0 && AllSendable(r.1) && tx == Flat(EncodeAll(r.1))
  }

  lemma NoneMade(d: nat, c: Console, tags: nat -> nat, k: nat, fs: seq<seq<byte>>)
    requires |c.recs| == 8
    ensures Made(d, c, fs[..0], tags, k, c, []) && !HasLeft(fs[..0])
  {
    NoBytes();
  }

  lemma AllMade(d: nat, c: Console, fs: seq<seq<byte>>, tags: nat -> nat, k: nat, v: Console, tx: seq<byte>)
    requires Made(d, c, fs[..|fs|], tags, k, v, tx)
    ensures fs[..|fs|] == fs && Made(d, c, fs, tags, k, v, tx) && |c.recs| == 8 && AllFit(fs)
    ensures var r := HandledAll(d, c, fs, tags, k); v == r.0 && AllSendable(r.1) && tx == Flat(EncodeAll(r.1))
  {
    assert fs[..|fs|] == fs;
  }

  lemma FitsLen(f: seq<byte>)
    requires Fits(f)
    ensures |f| > 1
  {
  }

  lemma OneMade(d: nat, c: Console, fs: seq<seq<byte>>, i: nat, tags: nat -> nat, k: nat, v: Console, tx: seq<byte>, more: seq<byte>)
    requires i < |fs| && Made(d, c, fs[..i], tags, k, v, tx) && Fits(fs[i]) && |v.recs| == 8
    requires var q := Handled(d, v, fs[i], tags(k + i)); AllSendable(q.1) && more == Flat(EncodeAll(q.1))
    ensures Made(d, c, fs[..i + 1], tags, k, Handled(d, v, fs[i], tags(k + i)).0, tx + more)
    ensures HasLeft(fs[..i + 1]) <==> HasLeft(fs[..i]) || (|fs[i]| > 1 && fs[i][1] == FT_PEER_LEFT)
    ensures |fs[i]| > 1
  {
    hide HandledAll, Handled, EncodeAll, Sendable, HasLeft, Fits, Flat;
    FitsLen(fs[i]);
    HandledMore(d, c, fs[..i], fs[i], tags, k);
    assert fs[..i] + [fs[i]] == fs[..i + 1];
    EncodeConcat(HandledAll(d, c, fs[..i], tags, k).1, Handled(d, v, fs[i], tags(k + i)).1);
    LeftMore(fs, i);
  }

  /** A PEER_LEFT is among the frames. */
  ghost predicate HasLeft(fs: seq<seq<byte>>) {
    exists i :: 0 <= i < |fs| && |fs[i]| > 1 && fs[i][1] == FT_PEER_LEFT
  }

  lemma LeftMore(fs: seq<seq<byte>>, i: nat)
    requires i < |fs| && |fs[i]| > 1
    ensures HasLeft(fs[..i + 1]) <==> HasLeft(fs[..i]) || fs[i][1] == FT_PEER_LEFT
  {
    assert fs[..i + 1] == fs[..i] + [fs[i]];
    var a, b := fs[..i], fs[..i + 1];
    if HasLeft(a) {
      var j :| 0 <= j < |a| && |a[j]| > 1 && a[j][1] == FT_PEER_LEFT;
      assert b[j] == a[j];
    }
    if fs[i][1] == FT_PEER_LEFT { assert b[i] == fs[i]; }
    if HasLeft(b) {
      var j :| 0 <= j < |b| && |b[j]| > 1 && b[j][1] == FT_PEER_LEFT;
      if j < i { assert a[j] == b[j]; }
    }
  }

  lemma NoRounds(d: nat, c: Console, b: seq<byte>, tags: nat -> nat, rounds: seq<seq<byte>>)
    requires |c.recs| == 8 && Parse(b) == Parsed([], b, 0)
    ensures Progressed(d, c, b, rounds[..0], tags, c, []) && Parse(b + Flat(rounds[..0])).rest == b
    ensures Waited(d, c, b, rounds, 0, tags)
  {
    assert rounds[..0] == [] && b + [] == b;
    NoBytes();
  }

  lemma FlatMore(rounds: seq<seq<byte>>, n: nat)
    requires n < |rounds|
    ensures Flat(rounds[..n + 1]) == Flat(rounds[..n]) + rounds[n]
  {
    hide Flat;
    assert rounds[..n + 1] == rounds[..n] + [rounds[n]];
    FlatConcat(rounds[..n], [rounds[n]]);
    FlatOne(rounds[n]);
  }

  lemma FlatSplit(rounds: seq<seq<byte>>, n: nat)
    requires n <= |rounds|
    ensures Flat(rounds) == Flat(rounds[..n]) + Flat(rounds[n..])
  {
    hide Flat;
    assert rounds == rounds[..n] + rounds[n..];
    FlatConcat(rounds[..n], rounds[n..]);
  }

  lemma FlatOne(a: seq<byte>)
    ensures Flat([a]) == a
  {
    assert Flat([a]) == a + Flat([a][1..]);
  }

  /** The frames of one more round are among the frames of them all. */
  lemma RoundFrames(b: seq<byte>, rounds: seq<seq<byte>>, n: nat)
    requires n < |rounds| && AllMatch(Parse(b + Flat(rounds)).frames)
    ensures var p := Parse(b + Flat(rounds[..n]));
            var q := Parse(p.rest + rounds[n]);
            && AllMatch(p.frames) && AllMatch(q.frames) && AllFit(q.frames)
            && Parse(b + Flat(rounds[..n + 1])) == Then(p, q)
  {
    hide Parse, Fits, MatchFrame;
    FlatMore(rounds, n);
    FlatSplit(rounds, n + 1);
    var a, more, rest := b + Flat(rounds[..n]), rounds[n], Flat(rounds[n + 1..]);
    assert b + Flat(rounds[..n + 1]) == a + more && b + Flat(rounds) == (a + more) + rest;
    ParseSplit(a, more);
    ParseSplit(a + more, rest);
    MatchParts(Parse(a + more).frames, Parse(Parse(a + more).rest + rest).frames);
    MatchParts(Parse(a).frames, Parse(Parse(a).rest + more).frames);
  }

  lemma MatchParts(fs: seq<seq<byte>>, gs: seq<seq<byte>>)
    requires AllMatch(fs + gs)
    ensures AllMatch(fs) && AllMatch(gs)
  {
    hide Fits, MatchFrame;
    forall i | 0 <= i < |fs| ensures Fits(fs[i]) && MatchFrame(fs[i]) { assert (fs + gs)[i] == fs[i]; }
    forall i | 0 <= i < |gs| ensures Fits(gs[i]) && MatchFrame(gs[i]) { assert (fs + gs)[|fs| + i] == gs[i]; }
  }

  lemma RoundStep(d: nat, c: Console, b: seq<byte>, rounds: seq<seq<byte>>, n: nat, tags: nat -> nat,
                  v: Console, tx: seq<byte>, v': Console, more: seq<byte>)
    requires n < |rounds| && AllMatch(Parse(b + Flat(rounds)).frames)
    requires Progressed(d, c, b, rounds[..n], tags, v, tx) && |v.recs| == 8
    requires var p := Parse(b + Flat(rounds[..n]));
             var q := Parse(p.rest + rounds[n]);
             && AllFit(q.frames)
             && var r := HandledAll(d, v, q.frames, tags, |p.frames|);
             && v' == r.0 && AllSendable(r.1) && more == Flat(EncodeAll(r.1))
    ensures Progressed(d, c, b, rounds[..n + 1], tags, v', tx + more)
    ensures Parse(Parse(b + Flat(rounds[..n])).rest + rounds[n]).rest == Parse(b + Flat(rounds[..n + 1])).rest
  {
    hide Parse, HandledAll, EncodeAll, AllMatch, Fits;
    RoundFrames(b, rounds, n);
    var p := Parse(b + Flat(rounds[..n]));
    var q := Parse(p.rest + rounds[n]);
    HandledConcat(d, c, p.frames, q.frames, tags);
    EncodeConcat(HandledAll(d, c, p.frames, tags, 0).1, HandledAll(d, v, q.frames, tags, |p.frames|).1);
  }

  lemma HandledNone(d: nat, c: Console, tags: nat -> nat, k: nat)
    requires |c.recs| == 8
    ensures HandledAll(d, c, [], tags, k) == (c, [])
  {
  }
}
