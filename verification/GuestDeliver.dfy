/** The guest handles the frame at the head of the host's stream. */
module GuestDeliver {
  import opened Basics
  import opened Console
  import opened Match
  import opened Invariant
  import opened Streams

  lemma GenuineTail(q: seq<Frame>, sender: nat, caps: Caps, log: Log)
    requires q != [] && AllGenuine(q, sender, caps, log)
    ensures AllGenuine(q[1..], sender, caps, log)
  {
  }

  // ---- INPUT --------------------------------------------------------------

  /** The ticks between the watermark and an accepted frame: none, or those a rebase inside the gate left idle. */
  ghost predicate Skipped(d: nat, ep: nat, wm: int, x: int, sent: Caps, bs: seq<Base>) {
    ep < |bs| && forall y :: wm < y < x ==> Val(sent, ep, y) == IDLE && wm == bs[ep].r + d - 1
  }

  lemma AcceptKeepsRmt(d: nat, ep: nat, tick: int, wm: int, rmt: Ring, sent: Caps, bs: seq<Base>, x: int, cell: Cell)
    requires RmtOk(d, ep, tick, wm, rmt, sent, bs)
    requires wm < x <= tick + 254
    requires Val(sent, ep, x) == cell
    requires Skipped(d, ep, wm, x, sent, bs)
    ensures RmtOk(d, ep, tick, x, rmt[Slot(x) := cell], sent, bs)
  {
    var ring := rmt[Slot(x) := cell];
    forall y | tick - 1 <= y <= x
      ensures ring[Slot(y)] == Val(sent, ep, y)
    {
      if y != x {
        SlotsDiffer(x, y);
        if wm < y { assert Val(sent, ep, y) == IDLE && rmt == IdleRing(); }
      }
    }
  }

  /** How far ahead of the guest's tick the host's input can be. */
  lemma GuestWindow(d: nat, h: Console, g: Console, hg: seq<Frame>, bs: seq<Base>, oldest: nat, x: int)
    requires RmtOk(d, h.ep, h.tick, h.wm, h.rmt, g.caps, bs)
    requires SkewOk(d, h.ep, h.wm, NextCap(d, h), g.ep, g.wm, NextCap(d, g), oldest, bs)
    requires Script(hg, bs, d, g.ep, g.hold, g.pos, x, NextCap(d, h))
    ensures x <= g.tick + 2 * d + 2
    ensures g.pc.Top? ==> x <= g.tick + 2 * d + 1
    ensures g.ep == h.ep ==> x <= NextCap(d, h)
    ensures g.ep < h.ep ==> x <= bs[g.ep + 1].r - LEAD + d
  {
    ScriptBound(hg, bs, d, g.ep, g.hold, g.pos, x, NextCap(d, h));
  }

  function Accepted(c: Console, cell: Cell): Console {
    c.(rmt := c.rmt[Slot(c.wm + 1) := cell], wm := c.wm + 1)
  }

  lemma InputEffect(d: nat, s: Sys)
    requires Shaped(s) && s.hg != [] && s.hg[0].Input?
    requires s.g.seat == 1 && s.hg[0].seat == 0 && s.hg[0].tick == s.g.wm + 1
    ensures DeliverG(d, s) == s.(g := Accepted(s.g, s.hg[0].cell), hg := s.hg[1..])
  {
    assert s.gh + [] == s.gh;
  }

  lemma InputNext(d: nat, h: Console, g: Console, hg: seq<Frame>, gh: seq<Frame>, bs: seq<Base>)
    requires BasesOk(bs, d) && Consoles(d, h, g, bs) && Channels(d, h, g, hg, gh, bs)
    requires hg != [] && hg[0].Input? && Roomy(d, g, 0)
    ensures hg[0].tick == g.wm + 1 && hg[0].seat == 0 && g.seat == 1
    ensures Consoles(d, h, Accepted(g, hg[0].cell), bs)
    ensures Channels(d, h, Accepted(g, hg[0].cell), hg[1..], gh, bs)
  {
    hide OwnOk, StreamOk, RequestsOk, AskedOnce, GuestFrames, StaleOk;
    assert Genuine(hg[0], h.seat, h.caps, h.log);
    GuestWindow(d, h, g, hg[1..], bs, Oldest(g.ep, gh), g.wm + 2);
    AcceptKeepsRmt(d, g.ep, g.tick, g.wm, g.rmt, h.caps, bs, g.wm + 1, hg[0].cell);
    GenuineTail(hg, h.seat, h.caps, h.log);
  }

  lemma InputHistories(cfg: Config, h: Console, g: Console, bs: seq<Base>, cell: Cell)
    requires Histories(cfg, h, g, bs)
    ensures Histories(cfg, h, Accepted(g, cell), bs)
  {
  }

  lemma GuestInput(cfg: Config, s: Sys)
    requires Shaped(s) && Core(cfg, s) && s.hg != [] && s.hg[0].Input? && Roomy(cfg.d, s.g, 0)
    ensures Core(cfg, DeliverG(cfg.d, s))
  {
    hide BasesOk, Consoles, Channels, Histories, OnFrame;
    InputNext(cfg.d, s.h, s.g, s.hg, s.gh, s.bs);
    InputHistories(cfg, s.h, s.g, s.bs, s.hg[0].cell);
    InputEffect(cfg.d, s);
  }

  // ---- BEGIN --------------------------------------------------------------

  lemma BeginNext(d: nat, h: Console, g: Console, hg: seq<Frame>, gh: seq<Frame>, bs: seq<Base>)
    requires Consoles(d, h, g, bs) && Channels(d, h, g, hg, gh, bs)
    requires hg != [] && hg[0].Begin?
    ensures Consoles(d, h, EnterHold(g, hg[0].r), bs)
    ensures Channels(d, h, EnterHold(g, hg[0].r), hg[1..], gh, bs)
  {
    hide OwnOk, StreamOk, RequestsOk, AskedOnce, GuestFrames, StaleOk, RmtOk, SkewOk;
    GenuineTail(hg, h.seat, h.caps, h.log);
  }

  lemma BeginHistories(cfg: Config, h: Console, g: Console, bs: seq<Base>, r: int)
    requires Histories(cfg, h, g, bs)
    requires !g.hold
    ensures Histories(cfg, h, EnterHold(g, r), bs)
  {
    hide LogDom, LogOk, ChainOk;
  }

  lemma GuestBegin(cfg: Config, s: Sys)
    requires Shaped(s) && Core(cfg, s) && s.hg != [] && s.hg[0].Begin?
    ensures Core(cfg, DeliverG(cfg.d, s))
  {
    hide BasesOk, Consoles, Histories, SkewOk, AllGenuine, GuestFrames, StaleOk, StreamOk, AskedOnce, RequestsOk;
    BeginNext(cfg.d, s.h, s.g, s.hg, s.gh, s.bs);
    BeginHistories(cfg, s.h, s.g, s.bs, s.hg[0].r);
    assert s.gh + [] == s.gh;
  }

  // ---- DATA ---------------------------------------------------------------

  lemma DataNext(d: nat, h: Console, g: Console, hg: seq<Frame>, gh: seq<Frame>, bs: seq<Base>)
    requires Consoles(d, h, g, bs) && Channels(d, h, g, hg, gh, bs)
    requires hg != [] && hg[0].Data?
    ensures ChunkOk(g, hg[0].pos, |hg[0].bytes|) && hg[0].pos == g.pos
    ensures Consoles(d, h, OnData(g, hg[0].pos, hg[0].bytes), bs)
    ensures Channels(d, h, OnData(g, hg[0].pos, hg[0].bytes), hg[1..], gh, bs)
  {
    hide OwnOk, StreamOk, RequestsOk, AskedOnce, GuestFrames, StaleOk, RmtOk, SkewOk;
    GenuineTail(hg, h.seat, h.caps, h.log);
    var c := OnData(g, hg[0].pos, hg[0].bytes);
    var img := bs[g.ep + 1].img;
    forall i | 0 <= i < c.pos
      ensures c.img[i] == img[i]
    {
      if i < g.pos { assert g.img[..g.pos][i] == img[..g.pos][i]; }
    }
  }

  lemma DataHistories(cfg: Config, h: Console, g: Console, bs: seq<Base>, pos: nat, b: seq<byte>)
    requires Histories(cfg, h, g, bs)
    requires ChunkOk(g, pos, |b|)
    ensures Histories(cfg, h, OnData(g, pos, b), bs)
  {
    hide LogDom, LogOk, ChainOk;
  }

  lemma GuestData(cfg: Config, s: Sys)
    requires Shaped(s) && Core(cfg, s) && s.hg != [] && s.hg[0].Data?
    ensures Core(cfg, DeliverG(cfg.d, s))
    ensures s.g.hold && s.hg[0].pos == s.g.pos
    ensures DeliverG(cfg.d, s).g == OnData(s.g, s.g.pos, s.hg[0].bytes)
  {
    hide BasesOk, Consoles, Channels, Histories;
    DataNext(cfg.d, s.h, s.g, s.hg, s.gh, s.bs);
    DataHistories(cfg, s.h, s.g, s.bs, s.hg[0].pos, s.hg[0].bytes);
    assert s.gh + [] == s.gh;
  }

  // ---- END ----------------------------------------------------------------

  lemma SettledMono(d: nat, log: Log, hEp: nat, hCap: int, hc: Caps, gEp: nat, gCap: int, gc: Caps,
                    hEp': nat, hCap': int, gEp': nat, gCap': int, bs: seq<Base>)
    requires LogOk(d, log, hEp, hCap, hc, gEp, gCap, gc, bs)
    requires hEp < hEp' || (hEp == hEp' && hCap <= hCap')
    requires gEp < gEp' || (gEp == gEp' && gCap <= gCap')
    requires hEp' < |bs| && (hEp < hEp' ==> bs[hEp'].r + d <= hCap')
    requires gEp' < |bs| && (gEp < gEp' ==> bs[gEp'].r + d <= gCap')
    ensures LogOk(d, log, hEp', hCap', hc, gEp', gCap', gc, bs)
  {
  }

  lemma EndConsoles(d: nat, h: Console, g: Console, bs: seq<Base>)
    requires BasesOk(bs, d) && Consoles(d, h, g, bs)
    requires g.hold && g.pos == IMG_TOTAL
    ensures Consoles(d, h, Rebase(d, g), bs)
  {
    var c := Rebase(d, g);
    var e := c.ep;
    assert OwnOk(d, c.seat, e, c.tick, NextCap(d, c), c.first, c.own, c.caps, bs);
    assert RmtOk(d, e, c.tick, c.wm, c.rmt, h.caps, bs) by {
      forall x | c.tick - 1 <= x <= c.wm
        ensures Val(h.caps, e, x) == IDLE
      {
        assert (e, x) !in h.caps;
      }
    }
  }

  lemma EndSkew(d: nat, h: Console, g: Console, gh: seq<Frame>, bs: seq<Base>)
    requires BasesOk(bs, d) && g.hold && g.ep + 1 < |bs| && g.r == bs[g.ep + 1].r
    requires GuestFrames(g.ep, gh)
    requires SkewOk(d, h.ep, h.wm, NextCap(d, h), g.ep, g.wm, NextCap(d, g), Oldest(g.ep, gh), bs)
    requires h.first <= NextCap(d, h) && h.first == bs[h.ep].r + d
    ensures SkewOk(d, h.ep, h.wm, NextCap(d, h), g.ep + 1, g.r + d - 1, NextCap(d, Rebase(d, g)), Oldest(g.ep + 1, gh), bs)
    ensures StreamOk(d, h.ep, h.wm, g.ep + 1, NextCap(d, Rebase(d, g)), Rebase(d, g).first, gh, bs)
  {
    var k := g.ep + 1;
    if k < h.ep {
      assert Brief(bs, d, k);
    } else {
      StreamNone(gh, d, h.ep, Rebase(d, g).first);
    }
  }

  lemma EndChannels(d: nat, h: Console, g: Console, hg: seq<Frame>, gh: seq<Frame>, bs: seq<Base>)
    requires BasesOk(bs, d) && Consoles(d, h, g, bs) && Channels(d, h, g, hg, gh, bs)
    requires hg != [] && hg[0].End?
    ensures g.hold && g.pos == IMG_TOTAL
    ensures Channels(d, h, Rebase(d, g), hg[1..], gh, bs)
  {
    hide RmtOk, StaleOk, SkewOk, StreamOk, LagOk;
    GenuineTail(hg, h.seat, h.caps, h.log);
    EndSkew(d, h, g, gh, bs);
    assert RequestsOk(h.ep, h.pend, g.ep + 1, false, gh);
  }

  lemma EndHistories(cfg: Config, h: Console, g: Console, bs: seq<Base>)
    requires BasesOk(bs, cfg.d) && Histories(cfg, h, g, bs)
    requires HoldOk(g.hold, g.ep, g.r, g.pos, g.img, bs)
    requires g.hold && g.pos == IMG_TOTAL
    ensures Histories(cfg, h, Rebase(cfg.d, g), bs)
  {
    hide ChainOk, LogOk, LogDom, ImgOk, RecsOk, EarlyOk, Clamp, IdleRing;
    var c := Rebase(cfg.d, g);
    EndDom(g.ep, g.tick, g.log, bs);
    InBases(h.ep, h.tick, h.log, bs);
    EndImg(cfg.d, g, bs);
    EndRecs(g.ep + 1, c.tick, g.log, g.ep, g.tick, bs);
    SettledMono(cfg.d, h.log, h.ep, NextCap(cfg.d, h), h.caps, g.ep, NextCap(cfg.d, g), g.caps,
                h.ep, NextCap(cfg.d, h), c.ep, NextCap(cfg.d, c), bs);
    SettledMono(cfg.d, g.log, h.ep, NextCap(cfg.d, h), h.caps, g.ep, NextCap(cfg.d, g), g.caps,
                h.ep, NextCap(cfg.d, h), c.ep, NextCap(cfg.d, c), bs);
  }

  lemma InBases(ep: nat, tick: int, log: Log, bs: seq<Base>)
    requires LogDom(ep, tick, log, bs)
    ensures ep < |bs|
  {
  }

  /** A new epoch has no history yet. */
  lemma EndDom(ep: nat, tick: int, log: Log, bs: seq<Base>)
    requires LogDom(ep, tick, log, bs) && ep + 1 < |bs|
    ensures LogDom(ep + 1, bs[ep + 1].r, log, bs)
  {
  }

  lemma EndImg(d: nat, g: Console, bs: seq<Base>)
    requires g.ep + 1 < |bs| && bs[g.ep + 1].start == Clamp(bs[g.ep + 1].img) && g.r == bs[g.ep + 1].r
    requires g.pos == IMG_TOTAL && g.img[..g.pos] == bs[g.ep + 1].img[..g.pos]
    ensures ImgOk(true, Rebase(d, g).img, g.ep + 1, g.r, g.log, bs)
  {
    assert g.img == g.img[..g.pos] == bs[g.ep + 1].img[..g.pos] == bs[g.ep + 1].img;
  }

  lemma EndRecs(e: nat, tick: int, log: Log, ep: nat, was: int, bs: seq<Base>)
    requires LogDom(ep, was, log, bs) && e == ep + 1
    ensures RecsOk(e, tick, false, NO_RECS, log)
  {
  }

  /** The push is complete: the guest re-baselines on the host's image. */
  lemma GuestEnd(cfg: Config, s: Sys)
    requires Shaped(s) && Core(cfg, s) && s.hg != [] && s.hg[0].End?
    ensures Core(cfg, DeliverG(cfg.d, s))
    ensures DeliverG(cfg.d, s) == s.(g := Rebase(cfg.d, s.g), hg := s.hg[1..])
    ensures s.g.ep + 1 < |s.bs| && DeliverG(cfg.d, s).g.img == Clamp(s.bs[s.g.ep + 1].img)
  {
    hide BasesOk, Channels, Histories, OwnOk, RmtOk;
    EndChannels(cfg.d, s.h, s.g, s.hg, s.gh, s.bs);
    EndConsoles(cfg.d, s.h, s.g, s.bs);
    EndHistories(cfg, s.h, s.g, s.bs);
    assert s.gh + [] == s.gh;
    assert s.g.img == s.g.img[..s.g.pos] == s.bs[s.g.ep + 1].img[..s.g.pos] == s.bs[s.g.ep + 1].img;
  }

  // ---- CRC ----------------------------------------------------------------

  /** The early-arrival record of one console grows by a tick the other has run and it has not. */
  lemma EarlyGrows(early: set<(nat, int)>, log: Log, early': set<(nat, int)>, log': Log, k: (nat, int))
    requires EarlyOk(early, log, early', log')
    requires k !in log && k in log'
    ensures EarlyOk(early + {k}, log, early', log')
  {
  }

  lemma EarlyGrows2(early: set<(nat, int)>, log: Log, early': set<(nat, int)>, log': Log, k: (nat, int))
    requires EarlyOk(early, log, early', log')
    requires k in log && k !in log'
    ensures EarlyOk(early, log, early' + {k}, log')
  {
  }

  lemma CrcHistories(cfg: Config, h: Console, g: Console, bs: seq<Base>, f: Frame)
    requires Histories(cfg, h, g, bs)
    requires f.Crc? && |g.recs| == 8 && (f.ep, f.tick) in h.log
    ensures Histories(cfg, h, OnCrc(g, f).0, bs)
  {
    hide LogDom, LogOk, ChainOk, EarlyOk, ImgOk, RecsOk, Mismatch;
    if (f.ep, f.tick) !in g.log {
      EarlyGrows2(h.early, h.log, g.early, g.log, (f.ep, f.tick));
    }
  }

  /** A request joins the guest's stream: the first of its epoch. */
  lemma AskOnce(d: nat, h: Console, g: Console, gh: seq<Frame>, bs: seq<Base>, x: int)
    requires GuestFrames(g.ep, gh) && !g.pend
    requires AskedOnce(g.ep, g.pend, gh) && RequestsOk(h.ep, h.pend, g.ep, g.pend, gh)
    requires AllGenuine(gh, g.seat, g.caps, g.log)
    requires StaleOk(gh, bs, d)
    requires StreamOk(d, h.ep, h.wm, g.ep, NextCap(d, g), g.first, gh, bs)
    ensures GuestFrames(g.ep, gh + [Resync(g.ep, x)])
    ensures AskedOnce(g.ep, true, gh + [Resync(g.ep, x)])
    ensures RequestsOk(h.ep, h.pend, g.ep, true, gh + [Resync(g.ep, x)])
    ensures AllGenuine(gh + [Resync(g.ep, x)], g.seat, g.caps, g.log)
    ensures StaleOk(gh + [Resync(g.ep, x)], bs, d)
    ensures StreamOk(d, h.ep, h.wm, g.ep, NextCap(d, g), g.first, gh + [Resync(g.ep, x)], bs)
    ensures Oldest(g.ep, gh + [Resync(g.ep, x)]) == Oldest(g.ep, gh)
  {
    hide RequestsOk, Stream;
    var f := Resync(g.ep, x);
    AskRequests(h, g, gh, f);
    if g.ep == h.ep {
      LoneRequest(f, d, h.ep, NextCap(d, g));
      StreamConcat(gh, [f], d, h.ep, Expected(d, h.wm, g.first, bs[h.ep].r), NextCap(d, g), NextCap(d, g));
    }
  }

  lemma LoneRequest(f: Frame, d: nat, e: nat, x: int)
    requires f.Resync?
    ensures Stream([f], d, e, x, x)
  {
    assert [f][1..] == [];
  }

  lemma AskRequests(h: Console, g: Console, gh: seq<Frame>, f: Frame)
    requires RequestsOk(h.ep, h.pend, g.ep, false, gh) && f.Resync? && f.ep == g.ep
    ensures RequestsOk(h.ep, h.pend, g.ep, true, gh + [f])
  {
    hide Requests;
    var q := gh + [f];
    RequestsConcat(gh, [f]);
    OneAsked(f);
    forall i | 0 <= i < |q|
      ensures LagOk(h.ep, h.pend, q, i)
    {
      assert q[..i] == gh[..i];
      if i < |gh| {
        assert LagOk(h.ep, h.pend, gh, i);
      } else {
        assert gh[..i] == gh;
      }
    }
  }

  lemma OneAsked(f: Frame)
    requires f.Resync?
    ensures Requests([f]) == 1
  {
    assert [f][1..] == [];
  }

  lemma CrcChannels(d: nat, h: Console, g: Console, hg: seq<Frame>, gh: seq<Frame>, bs: seq<Base>)
    requires Channels(d, h, g, hg, gh, bs) && g.seat == 1 && |g.recs| == 8
    requires hg != [] && hg[0].Crc?
    ensures (hg[0].ep, hg[0].tick) in h.log
    ensures Channels(d, h, OnCrc(g, hg[0]).0, hg[1..], gh + OnCrc(g, hg[0]).1, bs)
  {
    hide SkewOk, StaleOk, StreamOk, RequestsOk, AskedOnce, GuestFrames, AllGenuine, Mismatch, OnCrc;
    CrcSeen(d, h, g, hg, bs);
    GenuineTail(hg, h.seat, h.caps, h.log);
    CrcParts(g, hg[0]);
    if Mismatch(g, hg[0]) {
      AskOnce(d, h, g, gh, bs, hg[0].tick);
    } else {
      assert gh + [] == gh;
    }
  }

  lemma CrcSeen(d: nat, h: Console, g: Console, hg: seq<Frame>, bs: seq<Base>)
    requires AllGenuine(hg, h.seat, h.caps, h.log) && hg != [] && hg[0].Crc?
    requires Script(hg, bs, d, g.ep, g.hold, g.pos, g.wm + 1, NextCap(d, h))
    ensures (hg[0].ep, hg[0].tick) in h.log
    ensures Script(hg[1..], bs, d, g.ep, g.hold, g.pos, g.wm + 1, NextCap(d, h))
  {
    assert Genuine(hg[0], h.seat, h.caps, h.log);
  }

  /** RS_ON_CRC on a guest: ask once, or nothing. */
  lemma CrcParts(g: Console, f: Frame)
    requires f.Crc? && |g.recs| == 8 && g.seat == 1
    ensures var r := OnCrc(g, f);
            if Mismatch(g, f) then !g.pend && r == (g.(early := r.0.early, pend := true, ptmo := 0), [Resync(g.ep, f.tick)])
            else r == (g.(early := r.0.early), [])
  {
  }

  lemma CrcConsoles(d: nat, h: Console, g: Console, bs: seq<Base>, f: Frame)
    requires Consoles(d, h, g, bs) && f.Crc? && |g.recs| == 8
    ensures Consoles(d, h, OnCrc(g, f).0, bs)
  {
    hide OwnOk, RmtOk, HoldOk, Mismatch;
  }

  lemma GuestCrc(cfg: Config, s: Sys)
    requires Shaped(s) && Core(cfg, s) && s.hg != [] && s.hg[0].Crc?
    ensures Core(cfg, DeliverG(cfg.d, s))
  {
    hide BasesOk, Channels, Histories, OwnOk, RmtOk, HoldOk, OnCrc;
    CrcChannels(cfg.d, s.h, s.g, s.hg, s.gh, s.bs);
    CrcConsoles(cfg.d, s.h, s.g, s.bs, s.hg[0]);
    CrcHistories(cfg, s.h, s.g, s.bs, s.hg[0]);
  }

  /** Whatever the guest reads next, the invariant survives. */
  lemma GuestDelivers(cfg: Config, s: Sys)
    requires Shaped(s) && Core(cfg, s) && s.hg != [] && Roomy(cfg.d, s.g, 0)
    ensures Core(cfg, DeliverG(cfg.d, s))
  {
    hide Core, DeliverG;
    match s.hg[0] {
      case Input(_, _, _, _) => GuestInput(cfg, s);
      case Crc(_, _, _, _) => GuestCrc(cfg, s);
      case Resync(_, _) => NoRequestFromHost(cfg, s);
      case Begin(_, _) => GuestBegin(cfg, s);
      case Data(_, _, _) => GuestData(cfg, s);
      case End(_) => GuestEnd(cfg, s);
    }
  }

  lemma NoRequestFromHost(cfg: Config, s: Sys)
    requires Core(cfg, s) && s.hg != []
    ensures !s.hg[0].Resync?
  {
    hide BasesOk, Consoles, Histories, SkewOk, AllGenuine, GuestFrames, StaleOk, StreamOk, AskedOnce, RequestsOk;
  }
}
