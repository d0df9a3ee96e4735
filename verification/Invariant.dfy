/**
 What every reachable state of a match satisfies.  Each part speaks only of
 the fields it names, so that a step leaves alone what it does not touch.
 */
module Invariant {
  import opened Basics
  import opened Dispatch
  import opened Console
  import opened Match
  import Check = Checksum

  /** The longest delay that works without resyncs: a remote ring spans tick-1 to tick+2d. */
  const DELAY_MAX := 127

  function Val(caps: Caps, e: nat, x: int): Cell {
    if (e, x) in caps then caps[(e, x)] else IDLE
  }

  /** The cells of tick `x` in epoch `e`, by what the two consoles captured. */
  function CellsAt(hc: Caps, gc: Caps, e: nat, x: int): TickCells {
    TickCells(SeatCells(Val(hc, e, x), Val(hc, e, x - 1)), SeatCells(Val(gc, e, x), Val(gc, e, x - 1)))
  }

  /** Epochs start in order, 16 or more ticks apart; only delays up to 15 are resynced. */
  ghost predicate BasesOk(bs: seq<Base>, d: nat) {
    && |bs| > 0
    && 1 <= d <= DELAY_MAX
    && (|bs| > 1 ==> d < LEAD)
    && (forall e :: 0 < e < |bs| ==> bs[e].start == Clamp(bs[e].img))
    && (forall e, f :: 0 <= e < f < |bs| ==> bs[e].r + LEAD <= bs[f].r)
  }

  // ---- one console --------------------------------------------------------

  /** What a console captured (all ticks from `first` to before `cap`), and that its ring holds what it will read. */
  ghost predicate OwnOk(d: nat, seat: nat, ep: nat, tick: int, cap: int, first: int, own: Ring, caps: Caps, bs: seq<Base>) {
    && ep < |bs|
    && (first == bs[ep].r + d || (seat != 0 && first == bs[ep].r + d + 1))
    && first <= cap
    && (forall x :: (ep, x) in caps <==> first <= x < cap)
    && (forall k :: k in caps ==> k.0 <= ep && bs[k.0].r + d <= k.1)
    && (forall x :: tick - 1 <= x < cap ==> own[Slot(x)] == Val(caps, ep, x))
  }

  /** The remote ring holds what the other console captured, up to the watermark. */
  ghost predicate RmtOk(d: nat, ep: nat, tick: int, wm: int, rmt: Ring, sent: Caps, bs: seq<Base>) {
    && ep < |bs|
    && bs[ep].r <= tick <= wm + 1
    && wm <= tick + 254
    && bs[ep].r + d - 1 <= wm
    && (wm == bs[ep].r + d - 1 ==> rmt == IdleRing())
    && (forall x :: tick - 1 <= x <= wm ==> rmt[Slot(x)] == Val(sent, ep, x))
  }

  /** No capture still to come from a console in epoch `ep` can be for tick `x` of epoch `e` or before. */
  ghost predicate Settled(d: nat, ep: nat, cap: int, bs: seq<Base>, e: nat, x: int)
    requires e < |bs|
  {
    ep > e || (ep == e && x < cap) || (ep < e && x < bs[e].r + d)
  }

  ghost predicate LogDom(ep: nat, tick: int, log: Log, bs: seq<Base>) {
    && ep < |bs|
    && (forall x :: (ep, x) in log <==> bs[ep].r <= x < tick)
    && (forall k :: k in log ==> k.0 <= ep && bs[k.0].r <= k.1)
  }

  /** Every executed tick read exactly the captured cells, and they are final. */
  ghost predicate LogOk(d: nat, log: Log, hEp: nat, hCap: int, hc: Caps, gEp: nat, gCap: int, gc: Caps, bs: seq<Base>) {
    forall k :: k in log ==>
      && k.0 < |bs|
      && log[k].cells == CellsAt(hc, gc, k.0, k.1)
      && Settled(d, hEp, hCap, bs, k.0, k.1)
      && Settled(d, gEp, gCap, bs, k.0, k.1)
  }

  /** The image tick `x` of epoch `e` started from, by a console's own history. */
  function PrevImg(log: Log, bs: seq<Base>, e: nat, x: int): Img
    requires e < |bs|
  {
    if bs[e].r < x && (e, x - 1) in log then log[(e, x - 1)].img else bs[e].start
  }

  /** Tick `x` of epoch `e` left the image the game step computes, unless the game glitched. */
  ghost predicate Follows(cfg: Config, log: Log, bs: seq<Base>, e: nat, x: int)
    requires (e, x) in log
  {
    && e < |bs|
    && (bs[e].r < x ==> (e, x - 1) in log)
    && (log[(e, x)].exact ==>
          log[(e, x)].img == cfg.step(PrevImg(log, bs, e, x), TickEvents(log[(e, x)].cells)))
  }

  ghost predicate ChainOk(cfg: Config, log: Log, bs: seq<Base>) {
    forall e, x {:trigger Follows(cfg, log, bs, e, x)} :: (e, x) in log ==> Follows(cfg, log, bs, e, x)
  }

  /** Outside a half-applied push the image is the one the last tick left. */
  ghost predicate ImgOk(whole: bool, img: Img, ep: nat, tick: int, log: Log, bs: seq<Base>) {
    ep < |bs| && (whole ==> img == PrevImg(log, bs, ep, tick))
  }

  ghost predicate RecOk(rec: Rec, i: nat, ep: nat, log: Log) {
    rec != NO_REC ==>
      && (ep, rec.tick) in log
      && rec.crc == Check.Cksum(log[(ep, rec.tick)].img)
      && Reports(rec.tick)
      && RecSlot(rec.tick) == i
  }

  /** OWN_CRC: genuine records only, and none younger than 256 ticks is missing outside a hold. */
  ghost predicate RecsOk(ep: nat, tick: int, hold: bool, recs: seq<Rec>, log: Log) {
    && |recs| == 8
    && (forall i :: 0 <= i < 8 ==> RecOk(recs[i], i, ep, log))
    && (!hold ==> forall x :: (ep, x) in log && Reports(x) && tick - 256 <= x ==> recs[RecSlot(x)].tick == x)
  }

  // ---- host to guest ------------------------------------------------------

  /**
   What the host still has in flight, read from the guest's position: epoch
   `ep`, inside a push or not, `pos` image bytes applied, next INPUT tick `x`.
   It ends where the host is now.
   */
  ghost predicate Script(q: seq<Frame>, bs: seq<Base>, d: nat, ep: nat, hold: bool, pos: nat, x: int, end: int)
    decreases |q|
  {
    if q == [] then ep + 1 == |bs| && !hold && pos == 0 && x == end
    else
      match q[0]
      case Input(e, _, t, _) => !hold && e == ep && t == x && Script(q[1..], bs, d, ep, hold, pos, x + 1, end)
      case Crc(e, _, t, _) => !hold && e == ep && t == x - d - 1 && Script(q[1..], bs, d, ep, hold, pos, x, end)
      case Resync(_, _) => false
      case Begin(e, r) =>
        && !hold && pos == 0 && e == ep + 1 && ep + 1 < |bs| && r == bs[ep + 1].r
        && x == bs[ep + 1].r - LEAD + d
        && Script(q[1..], bs, d, ep, true, 0, x, end)
      case Data(e, p, b) =>
        && hold && e == ep + 1 && ep + 1 < |bs| && p == pos && pos < IMG_TOTAL && |b| == ChunkLen(pos)
        && b == bs[ep + 1].img[pos..pos + |b|] && x == bs[ep + 1].r - LEAD + d
        && Script(q[1..], bs, d, ep, true, pos + |b|, x, end)
      case End(e) =>
        && hold && e == ep + 1 && ep + 1 < |bs| && pos == IMG_TOTAL && x == bs[ep + 1].r - LEAD + d
        && Script(q[1..], bs, d, ep + 1, false, 0, bs[ep + 1].r + d, end)
  }

  /** A frame says what its sender's history says. */
  ghost predicate Genuine(f: Frame, sender: nat, caps: Caps, log: Log) {
    match f
    case Input(e, seat, t, cell) => seat == sender && (e, t) in caps && caps[(e, t)] == cell
    case Crc(e, seat, t, crc) => seat == sender && Reports(t) && (e, t) in log && crc == Check.Cksum(log[(e, t)].img)
    case _ => true
  }

  ghost predicate AllGenuine(q: seq<Frame>, sender: nat, caps: Caps, log: Log) {
    forall i :: 0 <= i < |q| ==> Genuine(q[i], sender, caps, log)
  }

  /** The part of a push the guest has applied so far. */
  ghost predicate HoldOk(hold: bool, ep: nat, r: int, pos: nat, img: Img, bs: seq<Base>) {
    && (!hold ==> pos == 0)
    && (hold ==>
          && ep + 1 < |bs|
          && r == bs[ep + 1].r
          && pos <= IMG_TOTAL
          && img[..pos] == bs[ep + 1].img[..pos])
  }

  // ---- guest to host ------------------------------------------------------

  /** The INPUT and CRC frames of epoch `e` in flight, in order from INPUT tick `x` up to `end`. */
  ghost predicate Stream(q: seq<Frame>, d: nat, e: nat, x: int, end: int)
    decreases |q|
  {
    if q == [] then x == end
    else if q[0].ep != e then Stream(q[1..], d, e, x, end)
    else
      match q[0]
      case Input(_, _, t, _) => t == x && Stream(q[1..], d, e, x + 1, end)
      case Crc(_, _, t, _) => t == x - d - 1 && Stream(q[1..], d, e, x, end)
      case _ => Stream(q[1..], d, e, x, end)
  }

  /** The INPUT tick the host expects next from a guest in its own epoch. */
  function Expected(d: nat, wm: int, first: int, r: int): int {
    if wm == r + d - 1 then first else wm + 1
  }

  ghost predicate StreamOk(d: nat, hEp: nat, hWm: int, gEp: nat, gCap: int, gFirst: int, gh: seq<Frame>, bs: seq<Base>) {
    hEp < |bs| && (gEp == hEp ==> Stream(gh, d, hEp, Expected(d, hWm, gFirst, bs[hEp].r), gCap))
  }

  /** The epoch of the oldest guest frame the host has not handled. */
  function Oldest(gEp: nat, gh: seq<Frame>): nat {
    if gh == [] then gEp else gh[0].ep
  }

  /** A frame of an epoch the host has left: too old to be accepted, not so old as to wrap. */
  ghost predicate Stale(f: Frame, bs: seq<Base>, d: nat)
    requires f.ep + 1 < |bs|
  {
    match f
    case Input(e, _, t, _) => bs[e + 1].r - LEAD <= t <= bs[e + 1].r + d - 1
    case Crc(e, _, t, _) => bs[e + 1].r - LEAD - d - 1 <= t < bs[e + 1].r
    case _ => true
  }

  ghost predicate StaleOk(gh: seq<Frame>, bs: seq<Base>, d: nat) {
    forall i :: 0 <= i < |gh| && gh[i].ep + 1 < |bs| ==> Stale(gh[i], bs, d)
  }

  ghost predicate GuestFrames(gEp: nat, gh: seq<Frame>) {
    && (forall i :: 0 <= i < |gh| ==> gh[i].ep <= gEp && (gh[i].Input? || gh[i].Crc? || gh[i].Resync?))
    && (forall i, j :: 0 <= i < j < |gh| ==> gh[i].ep <= gh[j].ep)
  }

  // ---- the two consoles together ------------------------------------------

  /** Epoch `k` ended before the host used any guest input of that epoch. */
  ghost predicate Brief(bs: seq<Base>, d: nat, k: nat)
    requires k + 1 < |bs|
  {
    bs[k + 1].r <= bs[k].r + LEAD + d
  }

  /** Both consoles' watermarks stay behind what the other has captured. */
  ghost predicate SkewOk(d: nat, hEp: nat, hWm: int, hCap: int, gEp: nat, gWm: int, gCap: int, oldest: nat, bs: seq<Base>) {
    && hEp + 1 == |bs|
    && oldest <= gEp <= hEp
    && (gEp == hEp ==> hWm < gCap && gWm < hCap)
    && (gEp < hEp ==> bs[gEp + 1].r - LEAD <= gCap)
    && (oldest < hEp ==> hWm == bs[hEp].r + d - 1)
    && (forall k {:trigger Brief(bs, d, k)} :: oldest < k < hEp ==> Brief(bs, d, k))
  }

  // ---- resync requests ----------------------------------------------------

  function Requests(q: seq<Frame>): nat {
    if q == [] then 0 else Bit(q[0].Resync?) + Requests(q[1..])
  }

  /** Pushes outstanding as seen from frame `i`. */
  ghost predicate LagOk(hEp: nat, hPend: bool, gh: seq<Frame>, i: nat)
    requires i < |gh|
  {
    (hEp - gh[i].ep) + Requests(gh[..i]) + Bit(hPend) <= 2
  }

  /** One request per guest epoch. */
  ghost predicate AskedOnce(gEp: nat, gPend: bool, gh: seq<Frame>) {
    && (forall i, j :: 0 <= i < j < |gh| && gh[i].Resync? && gh[j].Resync? ==> gh[i].ep < gh[j].ep)
    && (forall i :: 0 <= i < |gh| && gh[i].Resync? && gh[i].ep == gEp ==> gPend)
  }

  /** At most two pushes can be outstanding, counting those still to be asked for. */
  ghost predicate RequestsOk(hEp: nat, hPend: bool, gEp: nat, gPend: bool, gh: seq<Frame>) {
    && (hEp - gEp) + Requests(gh) + Bit(hPend) + Bit(!gPend) <= 2
    && (forall i {:trigger LagOk(hEp, hPend, gh, i)} :: 0 <= i < |gh| ==> LagOk(hEp, hPend, gh, i))
  }

  /** A CRC frame that arrived before its tick was run here: the other side has run it. */
  ghost predicate EarlyOk(hEarly: set<(nat, int)>, hLog: Log, gEarly: set<(nat, int)>, gLog: Log) {
    && (forall k :: k in hEarly ==> k in gLog)
    && (forall k :: k in gEarly ==> k in hLog)
    && hEarly !! gEarly
  }

  ghost predicate HostOk(h: Console) {
    && h.seat == 0
    && !h.hold
    && h.pos == 0
    && (h.pend ==> h.ptmo < RS_PEND_MAX)
  }

  // ---- all of it ----------------------------------------------------------

  ghost predicate Consoles(d: nat, h: Console, g: Console, bs: seq<Base>) {
    && HostOk(h) && g.seat == 1
    && OwnOk(d, h.seat, h.ep, h.tick, NextCap(d, h), h.first, h.own, h.caps, bs)
    && OwnOk(d, g.seat, g.ep, g.tick, NextCap(d, g), g.first, g.own, g.caps, bs)
    && RmtOk(d, h.ep, h.tick, h.wm, h.rmt, g.caps, bs)
    && RmtOk(d, g.ep, g.tick, g.wm, g.rmt, h.caps, bs)
    && HoldOk(g.hold, g.ep, g.r, g.pos, g.img, bs)
  }

  ghost predicate Channels(d: nat, h: Console, g: Console, hg: seq<Frame>, gh: seq<Frame>, bs: seq<Base>) {
    && SkewOk(d, h.ep, h.wm, NextCap(d, h), g.ep, g.wm, NextCap(d, g), Oldest(g.ep, gh), bs)
    && Script(hg, bs, d, g.ep, g.hold, g.pos, g.wm + 1, NextCap(d, h))
    && AllGenuine(hg, h.seat, h.caps, h.log) && AllGenuine(gh, g.seat, g.caps, g.log)
    && GuestFrames(g.ep, gh)
    && StaleOk(gh, bs, d)
    && StreamOk(d, h.ep, h.wm, g.ep, NextCap(d, g), g.first, gh, bs)
    && AskedOnce(g.ep, g.pend, gh)
    && RequestsOk(h.ep, h.pend, g.ep, g.pend, gh)
  }

  ghost predicate Histories(cfg: Config, h: Console, g: Console, bs: seq<Base>) {
    && LogDom(h.ep, h.tick, h.log, bs) && LogDom(g.ep, g.tick, g.log, bs)
    && LogOk(cfg.d, h.log, h.ep, NextCap(cfg.d, h), h.caps, g.ep, NextCap(cfg.d, g), g.caps, bs)
    && LogOk(cfg.d, g.log, h.ep, NextCap(cfg.d, h), h.caps, g.ep, NextCap(cfg.d, g), g.caps, bs)
    && ChainOk(cfg, h.log, bs) && ChainOk(cfg, g.log, bs)
    && ImgOk(true, h.img, h.ep, h.tick, h.log, bs)
    && ImgOk(!g.hold || g.pos == 0, g.img, g.ep, g.tick, g.log, bs)
    && RecsOk(h.ep, h.tick, h.hold, h.recs, h.log) && RecsOk(g.ep, g.tick, g.hold, g.recs, g.log)
    && EarlyOk(h.early, h.log, g.early, g.log)
  }

  /** Everything but the read buffers and the gate, which change during a pump. */
  ghost predicate Core(cfg: Config, s: Sys) {
    && BasesOk(s.bs, cfg.d)
    && Consoles(cfg.d, s.h, s.g, s.bs)
    && Channels(cfg.d, s.h, s.g, s.hg, s.gh, s.bs)
    && Histories(cfg, s.h, s.g, s.bs)
  }

  /** A guest waiting at the gate with part of an image applied cannot pass it before END. */
  ghost predicate NoTornTick(g: Console) {
    g.pc.Gate? && g.hold && g.pos > 0 ==> g.wm < g.tick
  }

  /**
   With `b` bytes in hand, a console that is reading cannot run its watermark a
   whole ring ahead: a gate it waits at is at most a 64-byte read from opening.
   Only the longest delay needs this.
   */
  ghost predicate Roomy(d: nat, c: Console, b: nat) {
    d < DELAY_MAX || c.pc.Top? || c.wm + b <= c.tick + 200
  }

  /** Bytes buffered at a console are a proper part of the frame at the head. */
  ghost predicate GotOk(c: Console, q: seq<Frame>) {
    if q == [] then c.got == 0 else c.got < FrameLen(q[0])
  }

  ghost predicate Inv(cfg: Config, s: Sys) {
    && Core(cfg, s)
    && NoTornTick(s.g)
    && GotOk(s.h, s.gh) && GotOk(s.g, s.hg)
  }
}
