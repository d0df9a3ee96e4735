/** RS_PENDING on the host: wait one more tick, or push the image and re-baseline. */
module Pushing {
  import opened Basics
  import opened Console
  import opened Match
  import opened Invariant
  import opened Streams

  // ---- waiting ------------------------------------------------------------

  lemma HostWaits(cfg: Config, s: Sys)
    requires Core(cfg, s) && !Pushes(s.h)
    ensures Core(cfg, PendingH(cfg.d, s))
    ensures PendingH(cfg.d, s) == s.(h := Wait(s.h))
  {
    hide BasesOk, Histories, OwnOk, HoldOk, RmtOk, Channels;
    assert s.hg + [] == s.hg;
    WaitGroups(cfg, s.h, s.g, s.hg, s.gh, s.bs);
  }

  lemma WaitGroups(cfg: Config, h: Console, g: Console, hg: seq<Frame>, gh: seq<Frame>, bs: seq<Base>)
    requires Channels(cfg.d, h, g, hg, gh, bs) && Histories(cfg, h, g, bs)
    ensures Channels(cfg.d, Wait(h), g, hg, gh, bs) && Histories(cfg, Wait(h), g, bs)
  {
    hide SkewOk, StaleOk, StreamOk, GuestFrames, AskedOnce, RequestsOk, AllGenuine, Script,
      LogDom, LogOk, ChainOk, ImgOk, RecsOk, EarlyOk;
  }

  /** RS_PENDING does nothing on a guest. */
  lemma GuestWaits(d: nat, s: Sys)
    requires s.g.seat == 1
    ensures PendingG(d, s) == s
  {
    assert s.gh + [] == s.gh;
  }

  // ---- pushing ------------------------------------------------------------

  function Pushed(d: nat, h: Console): Console {
    Rebase(d, EnterHold(h, h.tick + LEAD))
  }

  function NewBase(h: Console): Base {
    Base(h.tick + LEAD, h.img, Clamp(h.img))
  }

  lemma PushBases(d: nat, h: Console, bs: seq<Base>)
    requires BasesOk(bs, d) && d < LEAD
    requires h.ep + 1 == |bs| && bs[h.ep].r <= h.tick
    ensures BasesOk(bs + [NewBase(h)], d)
  {
    var bs' := bs + [NewBase(h)];
    forall e, f | 0 <= e < f < |bs'|
      ensures bs'[e].r + LEAD <= bs'[f].r
    {
      if f == |bs| && e < h.ep { assert bs[e].r + LEAD <= bs[h.ep].r; }
    }
  }

  lemma PushConsoles(d: nat, h: Console, g: Console, bs: seq<Base>)
    requires Consoles(d, h, g, bs) && h.pc.Top? && h.ep + 1 == |bs| && g.ep <= h.ep && d < LEAD
    ensures Consoles(d, Pushed(d, h), g, bs + [NewBase(h)])
  {
    var bs', c := bs + [NewBase(h)], Pushed(d, h);
    assert OwnOk(d, c.seat, c.ep, c.tick, NextCap(d, c), c.first, c.own, c.caps, bs');
    assert RmtOk(d, c.ep, c.tick, c.wm, c.rmt, g.caps, bs') by {
      forall x | c.tick - 1 <= x <= c.wm
        ensures Val(g.caps, c.ep, x) == IDLE
      {
        assert (c.ep, x) !in g.caps;
      }
    }
    assert OwnOk(d, g.seat, g.ep, g.tick, NextCap(d, g), g.first, g.own, g.caps, bs');
    assert RmtOk(d, g.ep, g.tick, g.wm, g.rmt, h.caps, bs');
  }

  lemma PushSkew(d: nat, h: Console, g: Console, gh: seq<Frame>, bs: seq<Base>)
    requires h.ep + 1 == |bs| && h.pc.Top? && BasesOk(bs, d)
    requires RmtOk(d, h.ep, h.tick, h.wm, h.rmt, g.caps, bs)
    requires SkewOk(d, h.ep, h.wm, NextCap(d, h), g.ep, g.wm, NextCap(d, g), Oldest(g.ep, gh), bs)
    ensures SkewOk(d, h.ep + 1, Pushed(d, h).wm, NextCap(d, Pushed(d, h)), g.ep, g.wm, NextCap(d, g),
                   Oldest(g.ep, gh), bs + [NewBase(h)])
  {
    var bs', o := bs + [NewBase(h)], Oldest(g.ep, gh);
    forall k | o < k < h.ep + 1
      ensures Brief(bs', d, k)
    {
      if k < h.ep { assert Brief(bs, d, k); }
    }
  }

  /** Every guest frame still in flight is now too old: the sixteen-tick lead outruns a delay below sixteen. */
  lemma PushStale(d: nat, h: Console, g: Console, gh: seq<Frame>, bs: seq<Base>)
    requires h.ep + 1 == |bs| && h.pc.Top? && d < LEAD
    requires RmtOk(d, h.ep, h.tick, h.wm, h.rmt, g.caps, bs) && RmtOk(d, g.ep, g.tick, g.wm, g.rmt, h.caps, bs)
    requires SkewOk(d, h.ep, h.wm, NextCap(d, h), g.ep, g.wm, NextCap(d, g), Oldest(g.ep, gh), bs)
    requires GuestFrames(g.ep, gh) && StaleOk(gh, bs, d)
    requires g.first >= bs[g.ep].r + d
    requires StreamOk(d, h.ep, h.wm, g.ep, NextCap(d, g), g.first, gh, bs)
    ensures StaleOk(gh, bs + [NewBase(h)], d)
  {
    var bs' := bs + [NewBase(h)];
    if g.ep == h.ep {
      StreamRange(gh, d, h.ep, Expected(d, h.wm, g.first, bs[h.ep].r), NextCap(d, g));
    }
    forall i | 0 <= i < |gh| && gh[i].ep + 1 < |bs'|
      ensures Stale(gh[i], bs', d)
    {
      if gh[i].ep < h.ep { assert Stale(gh[i], bs, d); }
    }
  }

  lemma PushRequests(h: Console, g: Console, gh: seq<Frame>)
    requires RequestsOk(h.ep, h.pend, g.ep, g.pend, gh) && h.pend
    ensures RequestsOk(h.ep + 1, false, g.ep, g.pend, gh)
  {
    var e := h.ep + 1;
    forall i | 0 <= i < |gh|
      ensures LagOk(e, false, gh, i)
    {
      assert LagOk(h.ep, h.pend, gh, i);
    }
  }

  lemma PushGenuine(q: seq<Frame>, c: Console, ep: nat, r: int, img: Img)
    requires AllGenuine(q, c.seat, c.caps, c.log)
    ensures AllGenuine(q + PushFrames(ep, r, img), c.seat, c.caps, c.log)
  {
    ChunksPlain(ep, img, 0);
  }

  lemma {:induction false} ChunksPlain(ep: nat, img: Img, pos: nat)
    requires pos <= IMG_TOTAL
    ensures forall i :: 0 <= i < |Chunks(ep, img, pos)| ==> Chunks(ep, img, pos)[i].Data? || Chunks(ep, img, pos)[i].End?
    decreases IMG_TOTAL - pos
  {
    if pos < IMG_TOTAL {
      ChunksPlain(ep, img, pos + ChunkLen(pos));
    }
  }

  lemma PushScript(d: nat, h: Console, g: Console, hg: seq<Frame>, bs: seq<Base>)
    requires h.ep + 1 == |bs| && h.pc.Top?
    requires Script(hg, bs, d, g.ep, g.hold, g.pos, g.wm + 1, NextCap(d, h))
    ensures Script(hg + PushFrames(h.ep + 1, h.tick + LEAD, h.img), bs + [NewBase(h)], d, g.ep, g.hold, g.pos, g.wm + 1,
                   NextCap(d, Pushed(d, h)))
  {
    hide Script, PushFrames, Clamp;
    var bs' := bs + [NewBase(h)];
    ScriptPush(bs', d, NextCap(d, h));
    ScriptConcat(hg, PushFrames(h.ep + 1, h.tick + LEAD, h.img), bs, bs', d, g.ep, g.hold, g.pos, g.wm + 1,
                 NextCap(d, h), NextCap(d, Pushed(d, h)));
  }

  lemma PushChannels(d: nat, h: Console, g: Console, hg: seq<Frame>, gh: seq<Frame>, bs: seq<Base>)
    requires BasesOk(bs, d) && d < LEAD && Consoles(d, h, g, bs) && Channels(d, h, g, hg, gh, bs)
    requires h.pc.Top? && h.pend
    ensures Channels(d, Pushed(d, h), g, hg + PushFrames(h.ep + 1, h.tick + LEAD, h.img), gh, bs + [NewBase(h)])
  {
    hide RmtOk, HoldOk, StaleOk, GuestFrames, AskedOnce, RequestsOk, AllGenuine, Script, BasesOk, PushFrames;
    PushSkew(d, h, g, gh, bs);
    PushStale(d, h, g, gh, bs);
    PushRequests(h, g, gh);
    PushGenuine(hg, h, h.ep + 1, h.tick + LEAD, h.img);
    PushScript(d, h, g, hg, bs);
  }

  lemma PushLog(d: nat, log: Log, h: Console, g: Console, bs: seq<Base>)
    requires h.ep + 1 == |bs| && g.ep <= h.ep
    requires LogOk(d, log, h.ep, NextCap(d, h), h.caps, g.ep, NextCap(d, g), g.caps, bs)
    ensures LogOk(d, log, h.ep + 1, NextCap(d, Pushed(d, h)), h.caps, g.ep, NextCap(d, g), g.caps, bs + [NewBase(h)])
  {
  }

  lemma PushChain(cfg: Config, log: Log, ep: nat, tick: int, bs: seq<Base>, b: Base)
    requires ChainOk(cfg, log, bs) && LogDom(ep, tick, log, bs)
    ensures ChainOk(cfg, log, bs + [b])
  {
    forall e, x | (e, x) in log
      ensures Follows(cfg, log, bs + [b], e, x)
    {
      assert Follows(cfg, log, bs, e, x);
    }
  }

  lemma PushHistories(cfg: Config, h: Console, g: Console, bs: seq<Base>)
    requires Histories(cfg, h, g, bs) && h.ep + 1 == |bs| && g.ep <= h.ep
    ensures Histories(cfg, Pushed(cfg.d, h), g, bs + [NewBase(h)])
  {
    hide LogOk, ChainOk, EarlyOk;
    PushLog(cfg.d, h.log, h, g, bs);
    PushLog(cfg.d, g.log, h, g, bs);
    PushChain(cfg, h.log, h.ep, h.tick, bs, NewBase(h));
    PushChain(cfg, g.log, g.ep, g.tick, bs, NewBase(h));
  }

  lemma HostPushes(cfg: Config, s: Sys)
    requires Core(cfg, s) && Pushes(s.h) && s.h.pc.Top? && cfg.d < LEAD
    ensures Core(cfg, PendingH(cfg.d, s))
  {
    hide BasesOk, Histories, OwnOk, HoldOk, RmtOk, StaleOk, StreamOk, GuestFrames, AskedOnce, RequestsOk, AllGenuine, Script,
      PushFrames, Rebase;
    PushFacts(cfg.d, s);
    PushBases(cfg.d, s.h, s.bs);
    PushConsoles(cfg.d, s.h, s.g, s.bs);
    PushChannels(cfg.d, s.h, s.g, s.hg, s.gh, s.bs);
    PushHistories(cfg, s.h, s.g, s.bs);
  }

  lemma PushFacts(d: nat, s: Sys)
    requires Consoles(d, s.h, s.g, s.bs)
    ensures s.h.ep < |s.bs| && s.bs[s.h.ep].r <= s.h.tick
  {
    hide OwnOk, HoldOk;
  }
}
