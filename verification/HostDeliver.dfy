/** The host handles the frame at the head of the guest's stream. */
module HostDeliver {
  import opened Basics
  import opened Console
  import opened Match
  import opened Invariant
  import opened Streams
  import G = GuestDeliver

  // ---- what a pop leaves behind -------------------------------------------

  /** The parts of the stream invariant that only look at the frames still queued. */
  lemma PopFrames(d: nat, g: Console, gh: seq<Frame>, bs: seq<Base>)
    requires gh != []
    requires GuestFrames(g.ep, gh) && StaleOk(gh, bs, d)
    requires AskedOnce(g.ep, g.pend, gh)
    requires AllGenuine(gh, g.seat, g.caps, g.log)
    ensures GuestFrames(g.ep, gh[1..]) && StaleOk(gh[1..], bs, d)
    ensures AskedOnce(g.ep, g.pend, gh[1..])
    ensures AllGenuine(gh[1..], g.seat, g.caps, g.log)
    ensures gh[0].ep <= Oldest(g.ep, gh[1..]) <= g.ep
  {
    var q := gh[1..];
    assert forall i :: 0 <= i < |q| ==> q[i] == gh[i + 1];
  }

  lemma PopSkew(d: nat, h: Console, g: Console, gh: seq<Frame>, bs: seq<Base>)
    requires gh != []
    requires SkewOk(d, h.ep, h.wm, NextCap(d, h), g.ep, g.wm, NextCap(d, g), gh[0].ep, bs)
    requires gh[0].ep <= Oldest(g.ep, gh[1..]) <= g.ep
    ensures SkewOk(d, h.ep, h.wm, NextCap(d, h), g.ep, g.wm, NextCap(d, g), Oldest(g.ep, gh[1..]), bs)
  {
  }

  /** A frame other than a request leaves the count as it was; a request moves into `pend`. */
  lemma PopRequests(h: Console, g: Console, gh: seq<Frame>, pend: bool)
    requires gh != [] && RequestsOk(h.ep, h.pend, g.ep, g.pend, gh)
    requires Bit(pend) <= Bit(h.pend) + Bit(gh[0].Resync?)
    ensures RequestsOk(h.ep, pend, g.ep, g.pend, gh[1..])
  {
    var q := gh[1..];
    forall i | 0 <= i < |q|
      ensures LagOk(h.ep, pend, q, i)
    {
      assert LagOk(h.ep, h.pend, gh, i + 1);
      PrefixPop(gh, i);
    }
  }

  /** The first mismatch of an epoch: every frame behind it is of the same epoch, with one request at most. */
  lemma FreshRequests(h: Console, g: Console, gh: seq<Frame>)
    requires gh != [] && gh[0].ep == h.ep && g.ep == h.ep && !gh[0].Resync?
    requires GuestFrames(g.ep, gh) && AskedOnce(g.ep, g.pend, gh)
    ensures RequestsOk(h.ep, true, g.ep, g.pend, gh[1..])
  {
    var q := gh[1..];
    assert forall i :: 0 <= i < |q| ==> q[i] == gh[i + 1];
    OneRequest(q, h.ep);
    forall i | 0 <= i < |q|
      ensures LagOk(h.ep, true, q, i)
    {
      RequestsConcat(q[..i], q[i..]);
      assert q[..i] + q[i..] == q;
    }
  }

  // ---- INPUT of the host's epoch ------------------------------------------

  function Taken(c: Console, x: int, cell: Cell): Console {
    c.(rmt := c.rmt[Slot(x) := cell], wm := x)
  }

  lemma FreshInput(d: nat, h: Console, g: Console, hg: seq<Frame>, gh: seq<Frame>, bs: seq<Base>)
    requires BasesOk(bs, d) && Consoles(d, h, g, bs) && Channels(d, h, g, hg, gh, bs)
    requires gh != [] && gh[0].Input? && gh[0].ep == h.ep
    ensures g.ep == h.ep < |bs|
    ensures h.wm < gh[0].tick <= h.wm + 2
    ensures gh[0].tick < NextCap(d, g)
    ensures Val(g.caps, h.ep, gh[0].tick) == gh[0].cell
    ensures G.Skipped(d, h.ep, h.wm, gh[0].tick, g.caps, bs)
    ensures Stream(gh[1..], d, h.ep, gh[0].tick + 1, NextCap(d, g))
    ensures gh[0].seat == 1
    ensures gh[0].tick <= h.tick + 2 * d + 1 && (Roomy(d, h, 0) ==> gh[0].tick <= h.tick + 254)
  {
    hide RequestsOk, AskedOnce, StaleOk, Script, HoldOk;
    assert Genuine(gh[0], g.seat, g.caps, g.log);
    StreamRange(gh[1..], d, h.ep, gh[0].tick + 1, NextCap(d, g));
  }

  lemma FreshChannels(d: nat, h: Console, g: Console, hg: seq<Frame>, gh: seq<Frame>, bs: seq<Base>)
    requires Channels(d, h, g, hg, gh, bs)
    requires gh != [] && gh[0].Input? && gh[0].ep == h.ep && h.ep < |bs|
    requires bs[h.ep].r + d - 1 <= h.wm < gh[0].tick < NextCap(d, g)
    requires Stream(gh[1..], d, h.ep, gh[0].tick + 1, NextCap(d, g))
    ensures Channels(d, Taken(h, gh[0].tick, gh[0].cell), g, hg, gh[1..], bs)
  {
    hide RequestsOk, AskedOnce, StaleOk, Script, AllGenuine;
    PopFrames(d, g, gh, bs);
    PopRequests(h, g, gh, h.pend);
  }

  lemma FreshConsoles(d: nat, h: Console, g: Console, bs: seq<Base>, x: int, cell: Cell)
    requires BasesOk(bs, d) && Consoles(d, h, g, bs)
    requires h.wm < x <= h.tick + 254
    requires Val(g.caps, h.ep, x) == cell
    requires G.Skipped(d, h.ep, h.wm, x, g.caps, bs)
    ensures Consoles(d, Taken(h, x, cell), g, bs)
  {
    hide OwnOk, HoldOk;
    G.AcceptKeepsRmt(d, h.ep, h.tick, h.wm, h.rmt, g.caps, bs, x, cell);
  }

  lemma FreshHistories(cfg: Config, h: Console, g: Console, bs: seq<Base>, x: int, cell: Cell)
    requires Histories(cfg, h, g, bs)
    ensures Histories(cfg, Taken(h, x, cell), g, bs)
  {
    hide LogDom, LogOk, ChainOk, ImgOk, RecsOk, EarlyOk;
  }

  lemma HostFreshInput(cfg: Config, s: Sys)
    requires Shaped(s) && Core(cfg, s) && s.gh != [] && s.gh[0].Input? && s.gh[0].ep == s.h.ep && Roomy(cfg.d, s.h, 0)
    ensures Core(cfg, DeliverH(cfg.d, s))
    ensures DeliverH(cfg.d, s).h.wm == s.gh[0].tick
  {
    hide BasesOk, Channels, Histories, OwnOk, HoldOk, Roomy, G.Skipped;
    var f := s.gh[0];
    FreshInput(cfg.d, s.h, s.g, s.hg, s.gh, s.bs);
    FreshChannels(cfg.d, s.h, s.g, s.hg, s.gh, s.bs);
    FreshConsoles(cfg.d, s.h, s.g, s.bs, f.tick, f.cell);
    FreshHistories(cfg, s.h, s.g, s.bs, f.tick, f.cell);
    assert s.hg + [] == s.hg;
  }

  // ---- frames of an epoch the host has left -------------------------------

  /** A stale frame's tick is behind the watermark, and by less than a hundred ticks. */
  lemma StaleTick(d: nat, h: Console, g: Console, gh: seq<Frame>, bs: seq<Base>)
    requires BasesOk(bs, d) && gh != [] && gh[0].ep < h.ep && (gh[0].Input? || gh[0].Crc?)
    requires SkewOk(d, h.ep, h.wm, NextCap(d, h), g.ep, g.wm, NextCap(d, g), gh[0].ep, bs)
    requires StaleOk(gh, bs, d)
    requires RequestsOk(h.ep, h.pend, g.ep, g.pend, gh)
    ensures h.wm == bs[h.ep].r + d - 1
    ensures gh[0].Input? ==> h.wm - 100 <= gh[0].tick <= h.wm
    ensures gh[0].Crc? ==> bs[h.ep].r - 100 <= gh[0].tick < bs[h.ep].r
  {
    var e := gh[0].ep;
    assert LagOk(h.ep, h.pend, gh, 0);
    if e + 1 < h.ep {
      assert Brief(bs, d, e + 1);
      assert bs[e + 1].r <= bs[h.ep].r;
    }
  }

  lemma PopChannels(d: nat, h: Console, g: Console, hg: seq<Frame>, gh: seq<Frame>, bs: seq<Base>)
    requires Channels(d, h, g, hg, gh, bs) && gh != []
    requires gh[0].ep < h.ep || gh[0].Resync? || gh[0].Crc?
    ensures GuestFrames(g.ep, gh[1..]) && StaleOk(gh[1..], bs, d)
    ensures AskedOnce(g.ep, g.pend, gh[1..])
    ensures AllGenuine(gh[1..], g.seat, g.caps, g.log)
    ensures SkewOk(d, h.ep, h.wm, NextCap(d, h), g.ep, g.wm, NextCap(d, g), Oldest(g.ep, gh[1..]), bs)
    ensures StreamOk(d, h.ep, h.wm, g.ep, NextCap(d, g), g.first, gh[1..], bs)
  {
    hide RequestsOk, AskedOnce, StaleOk, Script, AllGenuine;
    PopFrames(d, g, gh, bs);
    PopSkew(d, h, g, gh, bs);
  }

  lemma HostStaleInput(cfg: Config, s: Sys)
    requires Shaped(s) && Core(cfg, s) && s.gh != [] && s.gh[0].Input? && s.gh[0].ep < s.h.ep
    ensures DeliverH(cfg.d, s) == s.(gh := s.gh[1..])
    ensures Core(cfg, DeliverH(cfg.d, s))
  {
    hide Histories, OwnOk, RmtOk, HoldOk, StaleOk, StreamOk, GuestFrames, AskedOnce, Script;
    StaleTick(cfg.d, s.h, s.g, s.gh, s.bs);
    PopChannels(cfg.d, s.h, s.g, s.hg, s.gh, s.bs);
    PopRequests(s.h, s.g, s.gh, s.h.pend);
    assert s.hg + [] == s.hg;
  }

  // ---- CRC ----------------------------------------------------------------

  lemma CrcHistories(cfg: Config, h: Console, g: Console, bs: seq<Base>, f: Frame)
    requires Histories(cfg, h, g, bs)
    requires f.Crc? && |h.recs| == 8 && (f.ep, f.tick) in g.log
    ensures Histories(cfg, OnCrc(h, f).0, g, bs)
  {
    hide LogDom, LogOk, ChainOk, EarlyOk, ImgOk, RecsOk, Mismatch;
    if (f.ep, f.tick) !in h.log {
      G.EarlyGrows(h.early, h.log, g.early, g.log, (f.ep, f.tick));
    }
  }

  lemma CrcConsoles(d: nat, h: Console, g: Console, bs: seq<Base>, f: Frame)
    requires Consoles(d, h, g, bs) && f.Crc? && |h.recs| == 8
    ensures Consoles(d, OnCrc(h, f).0, g, bs)
    ensures OnCrc(h, f).1 == []
  {
    hide OwnOk, RmtOk, HoldOk, Mismatch;
  }

  /** A CRC of an epoch the host has left meets no record. */
  lemma StaleCrcIgnored(d: nat, h: Console, g: Console, gh: seq<Frame>, bs: seq<Base>)
    requires BasesOk(bs, d) && gh != [] && gh[0].ep < h.ep && gh[0].Crc?
    requires SkewOk(d, h.ep, h.wm, NextCap(d, h), g.ep, g.wm, NextCap(d, g), gh[0].ep, bs)
    requires StaleOk(gh, bs, d)
    requires RequestsOk(h.ep, h.pend, g.ep, g.pend, gh)
    requires RmtOk(d, h.ep, h.tick, h.wm, h.rmt, g.caps, bs)
    requires LogDom(h.ep, h.tick, h.log, bs) && RecsOk(h.ep, h.tick, h.hold, h.recs, h.log)
    requires Genuine(gh[0], g.seat, g.caps, g.log)
    ensures !HasRec(h, gh[0].tick)
  {
    hide RequestsOk, StaleOk, RecOk;
    StaleTick(d, h, g, gh, bs);
    var x := gh[0].tick;
    var rec := h.recs[RecSlot(x)];
    BoundaryResidue(x);
    if rec != NO_REC {
      GenuineRec(h, RecSlot(x));
      ResiduesDiffer(rec.tick, x);
    }
  }

  lemma GenuineRec(c: Console, i: nat)
    requires RecsOk(c.ep, c.tick, c.hold, c.recs, c.log) && i < 8 && c.recs[i] != NO_REC
    ensures (c.ep, c.recs[i].tick) in c.log
  {
    assert RecOk(c.recs[i], i, c.ep, c.log);
  }

  lemma CrcChannels(d: nat, h: Console, g: Console, hg: seq<Frame>, gh: seq<Frame>, bs: seq<Base>)
    requires BasesOk(bs, d) && Channels(d, h, g, hg, gh, bs) && HostOk(h)
    requires RmtOk(d, h.ep, h.tick, h.wm, h.rmt, g.caps, bs)
    requires LogDom(h.ep, h.tick, h.log, bs) && RecsOk(h.ep, h.tick, h.hold, h.recs, h.log)
    requires gh != [] && gh[0].Crc? && |h.recs| == 8
    ensures (gh[0].ep, gh[0].tick) in g.log
    ensures Channels(d, OnCrc(h, gh[0]).0, g, hg, gh[1..], bs)
  {
    hide BasesOk, StaleOk, StreamOk, RequestsOk, AskedOnce, Script, RmtOk, LogDom, RecsOk;
    assert Genuine(gh[0], g.seat, g.caps, g.log);
    PopChannels(d, h, g, hg, gh, bs);
    if Mismatch(h, gh[0]) {
      if gh[0].ep < h.ep {
        StaleCrcIgnored(d, h, g, gh, bs);
      } else {
        FreshRequests(h, g, gh);
      }
    } else {
      PopRequests(h, g, gh, h.pend);
    }
  }

  lemma HostCrc(cfg: Config, s: Sys)
    requires Shaped(s) && Core(cfg, s) && s.gh != [] && s.gh[0].Crc?
    ensures Core(cfg, DeliverH(cfg.d, s))
  {
    hide BasesOk, Channels, OwnOk, RmtOk, HoldOk, OnCrc, LogDom, LogOk, ChainOk, ImgOk, RecsOk, EarlyOk;
    CrcChannels(cfg.d, s.h, s.g, s.hg, s.gh, s.bs);
    CrcConsoles(cfg.d, s.h, s.g, s.bs, s.gh[0]);
    CrcHistories(cfg, s.h, s.g, s.bs, s.gh[0]);
    assert s.hg + [] == s.hg;
  }

  // ---- RESYNC -------------------------------------------------------------

  lemma HostRequest(cfg: Config, s: Sys)
    requires Shaped(s) && Core(cfg, s) && s.gh != [] && s.gh[0].Resync?
    ensures Core(cfg, DeliverH(cfg.d, s))
  {
    hide BasesOk, SkewOk, OwnOk, RmtOk, HoldOk, StaleOk, StreamOk, GuestFrames, AskedOnce, RequestsOk, Script, AllGenuine,
      LogDom, LogOk, ChainOk, ImgOk, RecsOk, EarlyOk;
    PopChannels(cfg.d, s.h, s.g, s.hg, s.gh, s.bs);
    PopRequests(s.h, s.g, s.gh, OnReq(s.h).pend);
    assert s.hg + [] == s.hg;
  }

  /** Whatever the host reads next, the invariant survives. */
  lemma HostDelivers(cfg: Config, s: Sys)
    requires Shaped(s) && Core(cfg, s) && s.gh != [] && Roomy(cfg.d, s.h, 0)
    ensures Core(cfg, DeliverH(cfg.d, s))
  {
    hide Core, DeliverH;
    HostFrame(cfg, s);
    match s.gh[0] {
      case Input(e, _, _, _) => if e == s.h.ep { HostFreshInput(cfg, s); } else { HostStaleInput(cfg, s); }
      case Crc(_, _, _, _) => HostCrc(cfg, s);
      case Resync(_, _) => HostRequest(cfg, s);
    }
  }

  lemma HostFrame(cfg: Config, s: Sys)
    requires Core(cfg, s) && s.gh != []
    ensures s.gh[0].ep <= s.h.ep && (s.gh[0].Input? || s.gh[0].Crc? || s.gh[0].Resync?)
  {
    hide BasesOk, Consoles, Histories, AllGenuine, StaleOk, StreamOk, AskedOnce, RequestsOk, Script;
  }
}
