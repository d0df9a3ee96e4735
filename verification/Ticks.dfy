/** The gate opens and a tick runs; RS_PENDING may push. */
module Ticks {
  import opened Basics
  import opened Dispatch
  import opened Console
  import opened Match
  import opened Invariant
  import opened Streams
  import Check = Checksum
  import G = GuestDeliver
  import P = Passes

  // ---- the gate -----------------------------------------------------------

  /** The 16-bit gate test decides as unbounded tick numbers would. */
  lemma GateExact(d: nat, c: Console)
    requires d <= DELAY_MAX && c.tick <= c.wm + 1 && c.wm <= c.tick + 2 * d + 1
    ensures GateOpen(c) <==> c.tick <= c.wm
  {
  }

  // ---- one tick of one console --------------------------------------------

  /** Both rings hold the captured cells of this tick and the one before. */
  lemma ReadsCaptured(d: nat, c: Console, sent: Caps, bs: seq<Base>)
    requires OwnOk(d, c.seat, c.ep, c.tick, NextCap(d, c), c.first, c.own, c.caps, bs)
    requires RmtOk(d, c.ep, c.tick, c.wm, c.rmt, sent, bs)
    requires c.pc.Gate? && c.tick <= c.wm
    ensures ReadRing(c.own, c.tick) == SeatCells(Val(c.caps, c.ep, c.tick), Val(c.caps, c.ep, c.tick - 1))
    ensures ReadRing(c.rmt, c.tick) == SeatCells(Val(sent, c.ep, c.tick), Val(sent, c.ep, c.tick - 1))
  {
    assert c.own[Slot(c.tick)] == Val(c.caps, c.ep, c.tick);
    assert c.own[Slot(c.tick - 1)] == Val(c.caps, c.ep, c.tick - 1);
    assert c.rmt[Slot(c.tick)] == Val(sent, c.ep, c.tick);
    assert c.rmt[Slot(c.tick - 1)] == Val(sent, c.ep, c.tick - 1);
  }

  lemma TickDom(ep: nat, tick: int, log: Log, bs: seq<Base>, entry: Entry)
    requires LogDom(ep, tick, log, bs) && bs[ep].r <= tick
    ensures LogDom(ep, tick + 1, log[(ep, tick) := entry], bs)
    ensures (ep, tick) !in log
  {
  }

  lemma TickLogOk(d: nat, log: Log, hEp: nat, hCap: int, hc: Caps, gEp: nat, gCap: int, gc: Caps, bs: seq<Base>,
                  ep: nat, tick: int, entry: Entry)
    requires LogOk(d, log, hEp, hCap, hc, gEp, gCap, gc, bs)
    requires ep < |bs| && entry.cells == CellsAt(hc, gc, ep, tick)
    requires Settled(d, hEp, hCap, bs, ep, tick) && Settled(d, gEp, gCap, bs, ep, tick)
    ensures LogOk(d, log[(ep, tick) := entry], hEp, hCap, hc, gEp, gCap, gc, bs)
  {
  }

  lemma TickChain(cfg: Config, ep: nat, tick: int, log: Log, bs: seq<Base>, entry: Entry)
    requires LogDom(ep, tick, log, bs) && ChainOk(cfg, log, bs) && bs[ep].r <= tick
    requires entry.exact ==> entry.img == cfg.step(PrevImg(log, bs, ep, tick), TickEvents(entry.cells))
    ensures ChainOk(cfg, log[(ep, tick) := entry], bs)
  {
    var log' := log[(ep, tick) := entry];
    forall e, x | (e, x) in log'
      ensures Follows(cfg, log', bs, e, x)
    {
      if (e, x) == (ep, tick) {
        assert bs[ep].r < tick ==> (ep, tick - 1) in log;
      } else {
        assert Follows(cfg, log, bs, e, x);
        assert (e, x - 1) != (ep, tick);
      }
    }
  }

  lemma TickRecs(ep: nat, tick: int, hold: bool, recs: seq<Rec>, log: Log, bs: seq<Base>, entry: Entry)
    requires LogDom(ep, tick, log, bs) && RecsOk(ep, tick, hold, recs, log)
    ensures RecsOk(ep, tick + 1, hold,
                   if Reports(tick) then recs[RecSlot(tick) := Rec(tick, Check.Cksum(entry.img))] else recs,
                   log[(ep, tick) := entry])
  {
    var log' := log[(ep, tick) := entry];
    var recs' := if Reports(tick) then recs[RecSlot(tick) := Rec(tick, Check.Cksum(entry.img))] else recs;
    forall i | 0 <= i < 8
      ensures RecOk(recs'[i], i, ep, log')
    {
      assert RecOk(recs[i], i, ep, log);
    }
    if !hold {
      forall x | (ep, x) in log' && Reports(x) && tick + 1 - 256 <= x
        ensures recs'[RecSlot(x)].tick == x
      {
        if x != tick && Reports(tick) { RecSlotsDiffer(x, tick); }
      }
    }
  }

  lemma RecSlotsDiffer(x: int, y: int)
    requires x < y < x + 256 && Reports(x) && Reports(y)
    ensures RecSlot(x) != RecSlot(y)
  {
    assert x == 64 * (x / 64) && y == 64 * (y / 64);
  }

  lemma TickGenuine(q: seq<Frame>, c: Console, img: Img, exact: bool)
    requires (c.ep, c.tick) !in c.log && |c.recs| == 8
    requires AllGenuine(q, c.seat, c.caps, c.log)
    ensures AllGenuine(q + ReportFrames(c, img), c.seat, c.caps, RunTick(c, img, exact).log)
  {
    var t := q + ReportFrames(c, img);
    forall i | 0 <= i < |t|
      ensures Genuine(t[i], c.seat, c.caps, RunTick(c, img, exact).log)
    {
      if i < |q| {
        assert Genuine(q[i], c.seat, c.caps, c.log);
      }
    }
  }

  lemma TickEarly(hEarly: set<(nat, int)>, hLog: Log, gEarly: set<(nat, int)>, gLog: Log, k: (nat, int), entry: Entry)
    requires EarlyOk(hEarly, hLog, gEarly, gLog)
    ensures EarlyOk(hEarly, hLog[k := entry], gEarly, gLog)
    ensures EarlyOk(hEarly, hLog, gEarly, gLog[k := entry])
  {
  }

  /** The tick about to run is final on both sides. */
  lemma TickSettled(d: nat, h: Console, g: Console, gh: seq<Frame>, bs: seq<Base>)
    requires SkewOk(d, h.ep, h.wm, NextCap(d, h), g.ep, g.wm, NextCap(d, g), Oldest(g.ep, gh), bs)
    ensures h.pc.Gate? && h.tick <= h.wm ==>
              Settled(d, h.ep, NextCap(d, h), bs, h.ep, h.tick) && Settled(d, g.ep, NextCap(d, g), bs, h.ep, h.tick)
    ensures g.pc.Gate? && g.tick <= g.wm ==>
              Settled(d, h.ep, NextCap(d, h), bs, g.ep, g.tick) && Settled(d, g.ep, NextCap(d, g), bs, g.ep, g.tick)
  {
  }

  ghost predicate Computed(cfg: Config, c: Console, img: Img, exact: bool) {
    exact ==> img == cfg.step(c.img, TickEvents(ReadCells(c)))
  }

  // ---- the host -----------------------------------------------------------

  lemma HostTickHistories(cfg: Config, h: Console, g: Console, bs: seq<Base>, img: Img, exact: bool)
    requires Histories(cfg, h, g, bs) && |h.recs| == 8 && h.pc.Gate?
    requires h.ep < |bs| && bs[h.ep].r <= h.tick
    requires ReadCells(h) == CellsAt(h.caps, g.caps, h.ep, h.tick)
    requires Settled(cfg.d, h.ep, NextCap(cfg.d, h), bs, h.ep, h.tick)
    requires Settled(cfg.d, g.ep, NextCap(cfg.d, g), bs, h.ep, h.tick)
    requires Computed(cfg, h, img, exact)
    ensures Histories(cfg, RunTick(h, img, exact), g, bs)
    ensures (h.ep, h.tick) !in h.log
  {
    hide LogDom, LogOk, ChainOk, RecsOk, EarlyOk, Settled, CellsAt;
    var d, entry := cfg.d, Entry(ReadCells(h), img, exact);
    TickDom(h.ep, h.tick, h.log, bs, entry);
    TickLogOk(d, h.log, h.ep, NextCap(d, h), h.caps, g.ep, NextCap(d, g), g.caps, bs, h.ep, h.tick, entry);
    TickChain(cfg, h.ep, h.tick, h.log, bs, entry);
    TickRecs(h.ep, h.tick, h.hold, h.recs, h.log, bs, entry);
    TickEarly(h.early, h.log, g.early, g.log, (h.ep, h.tick), entry);
  }

  /** How far ahead of the host's tick the guest's input can be. */
  lemma HostWindow(d: nat, h: Console, g: Console, gh: seq<Frame>, bs: seq<Base>)
    requires RmtOk(d, h.ep, h.tick, h.wm, h.rmt, g.caps, bs) && RmtOk(d, g.ep, g.tick, g.wm, g.rmt, h.caps, bs)
    requires SkewOk(d, h.ep, h.wm, NextCap(d, h), g.ep, g.wm, NextCap(d, g), Oldest(g.ep, gh), bs)
    requires GuestFrames(g.ep, gh)
    ensures h.tick <= h.wm + 1 && h.wm <= h.tick + 2 * d + 1
  {
  }

  lemma HostReads(d: nat, h: Console, g: Console, gh: seq<Frame>, bs: seq<Base>)
    requires BasesOk(bs, d) && Consoles(d, h, g, bs) && GuestFrames(g.ep, gh)
    requires SkewOk(d, h.ep, h.wm, NextCap(d, h), g.ep, g.wm, NextCap(d, g), Oldest(g.ep, gh), bs)
    requires h.pc.Gate? && GateOpen(h)
    ensures h.ep < |bs| && bs[h.ep].r <= h.tick <= h.wm
    ensures ReadCells(h) == CellsAt(h.caps, g.caps, h.ep, h.tick)
    ensures Settled(d, h.ep, NextCap(d, h), bs, h.ep, h.tick)
    ensures Settled(d, g.ep, NextCap(d, g), bs, h.ep, h.tick)
  {
    hide OwnOk, HoldOk;
    HostWindow(d, h, g, gh, bs);
    GateExact(d, h);
    ReadsCaptured(d, h, g.caps, bs);
    TickSettled(d, h, g, gh, bs);
  }

  lemma TickRmt(d: nat, ep: nat, tick: int, wm: int, rmt: Ring, sent: Caps, bs: seq<Base>)
    requires RmtOk(d, ep, tick, wm, rmt, sent, bs) && tick <= wm
    ensures RmtOk(d, ep, tick + 1, wm, rmt, sent, bs)
  {
  }

  lemma HostTickConsoles(d: nat, h: Console, g: Console, bs: seq<Base>, img: Img, exact: bool)
    requires Consoles(d, h, g, bs) && |h.recs| == 8 && h.pc.Gate? && h.tick <= h.wm
    ensures Consoles(d, RunTick(h, img, exact), g, bs)
  {
    hide OwnOk, HoldOk, RmtOk, ReadCells, Check.Cksum;
    TickOwn(d, h, bs);
    TickRmt(d, h.ep, h.tick, h.wm, h.rmt, g.caps, bs);
  }

  lemma HostTickChannels(d: nat, s: Sys, img: Img, exact: bool)
    requires Shaped(s) && Channels(d, s.h, s.g, s.hg, s.gh, s.bs)
    requires s.h.pc.Gate? && (s.h.ep, s.h.tick) !in s.h.log
    ensures Channels(d, RunTick(s.h, img, exact), s.g, s.hg + ReportFrames(s.h, img), s.gh, s.bs)
  {
    hide StaleOk, StreamOk, GuestFrames, AskedOnce, RequestsOk, AllGenuine, Script, ReadCells, Check.Cksum;
    TickGenuine(s.hg, s.h, img, exact);
    HostTickScript(d, s, img);
  }

  lemma HostTick(cfg: Config, s: Sys, img: Img, exact: bool)
    requires Shaped(s) && Core(cfg, s) && s.h.pc.Gate? && GateOpen(s.h)
    requires Computed(cfg, s.h, img, exact)
    ensures Core(cfg, TickH(s, img, exact))
    ensures s.h.tick <= s.h.wm
  {
    hide BasesOk, Consoles, Histories, Computed, RunTick, ReportFrames,
      SkewOk, StaleOk, StreamOk, GuestFrames, AskedOnce, RequestsOk, AllGenuine, Script;
    HostReads(cfg.d, s.h, s.g, s.gh, s.bs);
    HostTickHistories(cfg, s.h, s.g, s.bs, img, exact);
    HostTickConsoles(cfg.d, s.h, s.g, s.bs, img, exact);
    HostTickChannels(cfg.d, s, img, exact);
  }

  lemma TickOwn(d: nat, c: Console, bs: seq<Base>)
    requires OwnOk(d, c.seat, c.ep, c.tick, NextCap(d, c), c.first, c.own, c.caps, bs)
    ensures OwnOk(d, c.seat, c.ep, c.tick + 1, NextCap(d, c), c.first, c.own, c.caps, bs)
  {
  }

  lemma HostTickScript(d: nat, s: Sys, img: Img)
    requires s.h.pc.Gate? && s.h.ep + 1 == |s.bs|
    requires Script(s.hg, s.bs, d, s.g.ep, s.g.hold, s.g.pos, s.g.wm + 1, NextCap(d, s.h))
    ensures Script(s.hg + ReportFrames(s.h, img), s.bs, d, s.g.ep, s.g.hold, s.g.pos, s.g.wm + 1, NextCap(d, s.h))
  {
    var t := ReportFrames(s.h, img);
    assert Script(t, s.bs, d, |s.bs| - 1, false, 0, NextCap(d, s.h), NextCap(d, s.h)) by {
      if t != [] { assert t[1..] == []; }
    }
    ScriptConcat(s.hg, t, s.bs, s.bs, d, s.g.ep, s.g.hold, s.g.pos, s.g.wm + 1, NextCap(d, s.h), NextCap(d, s.h));
  }

  // ---- the guest ----------------------------------------------------------

  lemma GuestTickHistories(cfg: Config, h: Console, g: Console, bs: seq<Base>, img: Img, exact: bool)
    requires Histories(cfg, h, g, bs) && |g.recs| == 8 && g.pc.Gate?
    requires g.ep < |bs| && bs[g.ep].r <= g.tick
    requires ReadCells(g) == CellsAt(h.caps, g.caps, g.ep, g.tick)
    requires Settled(cfg.d, h.ep, NextCap(cfg.d, h), bs, g.ep, g.tick)
    requires Settled(cfg.d, g.ep, NextCap(cfg.d, g), bs, g.ep, g.tick)
    requires Computed(cfg, g, img, exact) && (!g.hold || g.pos == 0)
    ensures Histories(cfg, h, RunTick(g, img, exact), bs)
    ensures (g.ep, g.tick) !in g.log
  {
    hide LogDom, LogOk, ChainOk, RecsOk, EarlyOk, Settled, CellsAt;
    var d, entry := cfg.d, Entry(ReadCells(g), img, exact);
    TickDom(g.ep, g.tick, g.log, bs, entry);
    TickLogOk(d, g.log, h.ep, NextCap(d, h), h.caps, g.ep, NextCap(d, g), g.caps, bs, g.ep, g.tick, entry);
    TickChain(cfg, g.ep, g.tick, g.log, bs, entry);
    TickRecs(g.ep, g.tick, g.hold, g.recs, g.log, bs, entry);
    TickEarly(h.early, h.log, g.early, g.log, (g.ep, g.tick), entry);
  }

  lemma GuestTickSends(d: nat, h: Console, g: Console, hg: seq<Frame>, gh: seq<Frame>, bs: seq<Base>, img: Img)
    requires BasesOk(bs, d) && Channels(d, h, g, hg, gh, bs)
    requires RmtOk(d, h.ep, h.tick, h.wm, h.rmt, g.caps, bs) && RmtOk(d, g.ep, g.tick, g.wm, g.rmt, h.caps, bs)
    requires g.pc.Gate? && g.tick <= g.wm
    ensures GuestFrames(g.ep, gh + ReportFrames(g, img)) && AskedOnce(g.ep, g.pend, gh + ReportFrames(g, img))
    ensures RequestsOk(h.ep, h.pend, g.ep, g.pend, gh + ReportFrames(g, img))
    ensures StaleOk(gh + ReportFrames(g, img), bs, d)
    ensures StreamOk(d, h.ep, h.wm, g.ep, NextCap(d, g), g.first, gh + ReportFrames(g, img), bs)
    ensures Oldest(g.ep, gh + ReportFrames(g, img)) == Oldest(g.ep, gh)
  {
    hide StaleOk, StreamOk, GuestFrames, AskedOnce, RequestsOk, AllGenuine, Script, RmtOk;
    if Reports(g.tick) {
      if g.ep + 1 < |bs| {
        P.LateCapture(d, h, g, hg, gh, bs);
        LateTick(d, g, h.caps, hg, bs, NextCap(d, h));
      }
      P.GuestSends(d, h, g, gh, bs, Crc(g.ep, g.seat, g.tick, Check.Cksum(img)), NextCap(d, g));
    } else {
      assert gh + [] == gh;
    }
  }

  lemma LateTick(d: nat, g: Console, sent: Caps, hg: seq<Frame>, bs: seq<Base>, end: int)
    requires BasesOk(bs, d) && g.ep + 1 < |bs| && g.tick <= g.wm
    requires Script(hg, bs, d, g.ep, g.hold, g.pos, g.wm + 1, end)
    ensures g.tick < bs[g.ep + 1].r
  {
    ScriptBound(hg, bs, d, g.ep, g.hold, g.pos, g.wm + 1, end);
  }

  lemma GuestReads(d: nat, h: Console, g: Console, hg: seq<Frame>, gh: seq<Frame>, bs: seq<Base>)
    requires BasesOk(bs, d) && Consoles(d, h, g, bs)
    requires SkewOk(d, h.ep, h.wm, NextCap(d, h), g.ep, g.wm, NextCap(d, g), Oldest(g.ep, gh), bs)
    requires Script(hg, bs, d, g.ep, g.hold, g.pos, g.wm + 1, NextCap(d, h))
    requires g.pc.Gate? && GateOpen(g)
    ensures g.ep < |bs| && bs[g.ep].r <= g.tick <= g.wm
    ensures ReadCells(g) == CellsAt(h.caps, g.caps, g.ep, g.tick)
    ensures Settled(d, h.ep, NextCap(d, h), bs, g.ep, g.tick)
    ensures Settled(d, g.ep, NextCap(d, g), bs, g.ep, g.tick)
  {
    hide OwnOk, HoldOk, Script;
    G.GuestWindow(d, h, g, hg, bs, Oldest(g.ep, gh), g.wm + 1);
    GateExact(d, g);
    ReadsCaptured(d, g, h.caps, bs);
    TickSettled(d, h, g, gh, bs);
  }

  lemma GuestTickConsoles(d: nat, h: Console, g: Console, bs: seq<Base>, img: Img, exact: bool)
    requires Consoles(d, h, g, bs) && |g.recs| == 8 && g.pc.Gate? && g.tick <= g.wm && (!g.hold || g.pos == 0)
    ensures Consoles(d, h, RunTick(g, img, exact), bs)
  {
    hide OwnOk, HoldOk, RmtOk, ReadCells, Check.Cksum;
    TickOwn(d, g, bs);
    TickRmt(d, g.ep, g.tick, g.wm, g.rmt, h.caps, bs);
    HoldImg(g.hold, g.ep, g.r, g.pos, g.img, img, bs);
  }

  lemma GuestTickChannels(d: nat, s: Sys, img: Img, exact: bool)
    requires Shaped(s) && BasesOk(s.bs, d) && Channels(d, s.h, s.g, s.hg, s.gh, s.bs)
    requires Consoles(d, s.h, s.g, s.bs)
    requires s.g.pc.Gate? && s.g.tick <= s.g.wm && (s.g.ep, s.g.tick) !in s.g.log
    ensures Channels(d, s.h, RunTick(s.g, img, exact), s.hg, s.gh + ReportFrames(s.g, img), s.bs)
  {
    hide StaleOk, StreamOk, GuestFrames, AskedOnce, RequestsOk, AllGenuine, Script, ReadCells, Check.Cksum,
      OwnOk, RmtOk, HoldOk, HostOk, SkewOk, BasesOk;
    TickGenuine(s.gh, s.g, img, exact);
    GuestTickSends(d, s.h, s.g, s.hg, s.gh, s.bs, img);
  }

  lemma GuestTick(cfg: Config, s: Sys, img: Img, exact: bool)
    requires Shaped(s) && Core(cfg, s) && NoTornTick(s.g) && s.g.pc.Gate? && GateOpen(s.g)
    requires Computed(cfg, s.g, img, exact)
    ensures Core(cfg, TickG(s, img, exact))
    ensures s.g.tick <= s.g.wm
    ensures !s.g.hold || s.g.pos == 0
  {
    hide BasesOk, Consoles, Histories, Computed, RunTick, ReportFrames,
      SkewOk, StaleOk, StreamOk, GuestFrames, AskedOnce, RequestsOk, AllGenuine, Script;
    GuestReads(cfg.d, s.h, s.g, s.hg, s.gh, s.bs);
    GuestTickHistories(cfg, s.h, s.g, s.bs, img, exact);
    GuestTickConsoles(cfg.d, s.h, s.g, s.bs, img, exact);
    GuestTickChannels(cfg.d, s, img, exact);
  }

  lemma HoldImg(hold: bool, ep: nat, r: int, pos: nat, img: Img, img': Img, bs: seq<Base>)
    requires HoldOk(hold, ep, r, pos, img, bs) && (!hold || pos == 0)
    ensures HoldOk(hold, ep, r, pos, img', bs)
  {
  }
}
