/** Capture, tick, push: what a pass does besides reading. */
module Passes {
  import opened Basics
  import opened Console
  import opened Match
  import opened Invariant
  import opened Streams
  import G = GuestDeliver

  // ---- capture ------------------------------------------------------------

  lemma CaptureOwn(d: nat, c: Console, bs: seq<Base>, cell: Cell)
    requires c.pc.Top? && d <= DELAY_MAX
    requires OwnOk(d, c.seat, c.ep, c.tick, NextCap(d, c), c.first, c.own, c.caps, bs)
    ensures OwnOk(d, c.seat, c.ep, c.tick, NextCap(d, c) + 1, c.first,
                  c.own[Slot(c.tick + d) := cell], c.caps[(c.ep, c.tick + d) := cell], bs)
  {
    var x := c.tick + d;
    var ring := c.own[Slot(x) := cell];
    var caps := c.caps[(c.ep, x) := cell];
    forall y | c.tick - 1 <= y <= x
      ensures ring[Slot(y)] == Val(caps, c.ep, y)
    {
      if y != x {
        SlotsDiffer(x, y);
        assert c.own[Slot(y)] == Val(c.caps, c.ep, y);
      }
    }
  }

  /** A capture is for a tick the other console's watermark has not reached. */
  lemma CaptureRmt(d: nat, ep: nat, tick: int, wm: int, rmt: Ring, sent: Caps, bs: seq<Base>, k: (nat, int), cell: Cell)
    requires RmtOk(d, ep, tick, wm, rmt, sent, bs)
    requires k.0 == ep ==> wm < k.1
    ensures RmtOk(d, ep, tick, wm, rmt, sent[k := cell], bs)
  {
    forall x | tick - 1 <= x <= wm
      ensures rmt[Slot(x)] == Val(sent[k := cell], ep, x)
    {
      assert rmt[Slot(x)] == Val(sent, ep, x);
    }
  }

  /** A settled tick's cells do not change by a later capture. */
  lemma CaptureLogH(d: nat, log: Log, hEp: nat, hCap: int, hc: Caps, gEp: nat, gCap: int, gc: Caps, bs: seq<Base>, cell: Cell)
    requires LogOk(d, log, hEp, hCap, hc, gEp, gCap, gc, bs)
    ensures LogOk(d, log, hEp, hCap + 1, hc[(hEp, hCap) := cell], gEp, gCap, gc, bs)
  {
  }

  lemma CaptureLogG(d: nat, log: Log, hEp: nat, hCap: int, hc: Caps, gEp: nat, gCap: int, gc: Caps, bs: seq<Base>, cell: Cell)
    requires LogOk(d, log, hEp, hCap, hc, gEp, gCap, gc, bs)
    ensures LogOk(d, log, hEp, hCap, hc, gEp, gCap + 1, gc[(gEp, gCap) := cell], bs)
  {
  }

  lemma CaptureGenuine(q: seq<Frame>, c: Console, d: nat, bs: seq<Base>, cell: Cell)
    requires c.pc.Top?
    requires OwnOk(d, c.seat, c.ep, c.tick, NextCap(d, c), c.first, c.own, c.caps, bs)
    requires AllGenuine(q, c.seat, c.caps, c.log)
    ensures AllGenuine(q + [CaptureFrame(d, c, cell)], c.seat, c.caps[(c.ep, c.tick + d) := cell], c.log)
  {
    var t := q + [CaptureFrame(d, c, cell)];
    forall i | 0 <= i < |t|
      ensures Genuine(t[i], c.seat, c.caps[(c.ep, c.tick + d) := cell], c.log)
    {
      if i < |q| {
        assert Genuine(q[i], c.seat, c.caps, c.log);
      }
    }
  }

  lemma CaptureHistories(cfg: Config, h: Console, g: Console, bs: seq<Base>, cell: Cell)
    requires Histories(cfg, h, g, bs)
    ensures h.pc.Top? ==> Histories(cfg, Capture(cfg.d, h, cell), g, bs)
    ensures g.pc.Top? ==> Histories(cfg, h, Capture(cfg.d, g, cell), bs)
  {
    hide LogDom, LogOk, ChainOk, ImgOk, RecsOk, EarlyOk;
    var d := cfg.d;
    if h.pc.Top? {
      CaptureLogH(d, h.log, h.ep, NextCap(d, h), h.caps, g.ep, NextCap(d, g), g.caps, bs, cell);
      CaptureLogH(d, g.log, h.ep, NextCap(d, h), h.caps, g.ep, NextCap(d, g), g.caps, bs, cell);
    }
    if g.pc.Top? {
      CaptureLogG(d, h.log, h.ep, NextCap(d, h), h.caps, g.ep, NextCap(d, g), g.caps, bs, cell);
      CaptureLogG(d, g.log, h.ep, NextCap(d, h), h.caps, g.ep, NextCap(d, g), g.caps, bs, cell);
    }
  }

  lemma HostCapture(cfg: Config, s: Sys, cell: Cell)
    requires Core(cfg, s) && s.h.pc.Top?
    ensures Core(cfg, CaptureH(cfg.d, s, cell))
  {
    var d, f := cfg.d, CaptureFrame(cfg.d, s.h, cell);
    hide Histories, OwnOk, RmtOk, HoldOk, StaleOk, StreamOk, GuestFrames, AskedOnce, RequestsOk, AllGenuine;
    CaptureOwn(d, s.h, s.bs, cell);
    CaptureRmt(d, s.g.ep, s.g.tick, s.g.wm, s.g.rmt, s.h.caps, s.bs, (s.h.ep, s.h.tick + d), cell);
    CaptureGenuine(s.hg, s.h, d, s.bs, cell);
    CaptureHistories(cfg, s.h, s.g, s.bs, cell);
    assert Script([f], s.bs, d, |s.bs| - 1, false, 0, NextCap(d, s.h), NextCap(d, s.h) + 1) by { assert [f][1..] == []; }
    ScriptConcat(s.hg, [f], s.bs, s.bs, d, s.g.ep, s.g.hold, s.g.pos, s.g.wm + 1, NextCap(d, s.h), NextCap(d, s.h) + 1);
  }

  /** A guest INPUT or CRC frame joins its stream. */
  lemma GuestSends(d: nat, h: Console, g: Console, gh: seq<Frame>, bs: seq<Base>, f: Frame, cap: int)
    requires f.Input? || f.Crc?
    requires f.ep == g.ep
    requires GuestFrames(g.ep, gh) && AskedOnce(g.ep, g.pend, gh) && RequestsOk(h.ep, h.pend, g.ep, g.pend, gh)
    requires StaleOk(gh, bs, d) && (g.ep + 1 < |bs| ==> Stale(f, bs, d))
    requires StreamOk(d, h.ep, h.wm, g.ep, cap, g.first, gh, bs)
    requires f.Input? ==> f.tick == cap
    requires f.Crc? ==> f.tick == cap - d - 1
    ensures GuestFrames(g.ep, gh + [f]) && AskedOnce(g.ep, g.pend, gh + [f])
    ensures RequestsOk(h.ep, h.pend, g.ep, g.pend, gh + [f])
    ensures StaleOk(gh + [f], bs, d)
    ensures StreamOk(d, h.ep, h.wm, g.ep, if f.Input? then cap + 1 else cap, g.first, gh + [f], bs)
    ensures Oldest(g.ep, gh + [f]) == Oldest(g.ep, gh)
  {
    var q := gh + [f];
    RequestsConcat(gh, [f]);
    NoRequests([f]);
    forall i | 0 <= i < |q|
      ensures LagOk(h.ep, h.pend, q, i)
    {
      assert q[..i] == gh[..i];
      if i < |gh| {
        assert LagOk(h.ep, h.pend, gh, i);
      } else {
        assert gh[..i] == gh;
      }
    }
    if g.ep == h.ep {
      var end := if f.Input? then cap + 1 else cap;
      assert Stream([f], d, h.ep, cap, end) by { assert [f][1..] == []; }
      StreamConcat(gh, [f], d, h.ep, Expected(d, h.wm, g.first, bs[h.ep].r), cap, end);
    }
  }

  /** A guest left behind captures nothing the host could take for input of its new epoch: here d < 16 matters. */
  lemma LateCapture(d: nat, h: Console, g: Console, hg: seq<Frame>, gh: seq<Frame>, bs: seq<Base>)
    requires BasesOk(bs, d)
    requires RmtOk(d, h.ep, h.tick, h.wm, h.rmt, g.caps, bs) && RmtOk(d, g.ep, g.tick, g.wm, g.rmt, h.caps, bs)
    requires SkewOk(d, h.ep, h.wm, NextCap(d, h), g.ep, g.wm, NextCap(d, g), Oldest(g.ep, gh), bs)
    requires Script(hg, bs, d, g.ep, g.hold, g.pos, g.wm + 1, NextCap(d, h))
    requires g.ep + 1 < |bs|
    ensures g.tick <= bs[g.ep + 1].r - LEAD + d
    ensures bs[g.ep + 1].r - LEAD <= NextCap(d, g)
    ensures g.tick + d <= bs[g.ep + 1].r + d - 1
  {
    G.GuestWindow(d, h, g, hg, bs, Oldest(g.ep, gh), g.wm + 1);
  }

  lemma GuestCapture(cfg: Config, s: Sys, cell: Cell)
    requires Core(cfg, s) && s.g.pc.Top?
    ensures Core(cfg, CaptureG(cfg.d, s, cell))
  {
    var d, f := cfg.d, CaptureFrame(cfg.d, s.g, cell);
    hide Histories, OwnOk, RmtOk, HoldOk, StaleOk, StreamOk, GuestFrames, AskedOnce, RequestsOk, AllGenuine, Script;
    CaptureOwn(d, s.g, s.bs, cell);
    CaptureRmt(d, s.h.ep, s.h.tick, s.h.wm, s.h.rmt, s.g.caps, s.bs, (s.g.ep, s.g.tick + d), cell);
    CaptureGenuine(s.gh, s.g, d, s.bs, cell);
    CaptureHistories(cfg, s.h, s.g, s.bs, cell);
    if s.g.ep + 1 < |s.bs| {
      LateCapture(d, s.h, s.g, s.hg, s.gh, s.bs);
    }
    GuestSends(d, s.h, s.g, s.gh, s.bs, f, NextCap(d, s.g));
  }
}
