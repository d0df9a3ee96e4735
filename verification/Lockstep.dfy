/** The promises of the lockstep protocol, for every run of every match. */
module Lockstep {
  import opened Basics
  import opened Dispatch
  import opened Console
  import opened Match
  import opened Invariant
  import opened GuestDeliver
  import opened Ticks
  import opened Safety
  import H = HostDeliver
  import Check = Checksum

  // ---- every run ----------------------------------------------------------

  lemma BasesGrow(cfg: Config, s: Sys, st: Step)
    requires Enabled(s, st)
    ensures s.bs <= Apply(cfg, s, st).bs
  {
    hide PumpH, PumpG, Pushes, TickEvents, OnFrame, Rebase, PushFrames, ReadCells;
    match st
    case Pump(host, n) => PumpKeepsPc(cfg.d, s, (if host then s.h.got else s.g.got) + n);
    case Stall(host, n) => PumpKeepsPc(cfg.d, s, (if host then s.h.got else s.g.got) + n);
    case Start(host, n, _) => PumpKeepsPc(cfg.d, s, (if host then s.h.got else s.g.got) + n);
    case Run(_, _) =>
  }

  /** The delays a run is promised for: up to 15 when a push happens in it, up to 127 when none does. */
  predicate Promised(d: nat, t: Sys) {
    1 <= d <= DELAY_MAX && (d < LEAD || |t.bs| == 1)
  }

  lemma {:induction false} RunInv(cfg: Config, s: Sys, run: seq<Step>, t: Sys)
    requires Inv(cfg, s) && Shaped(s) && Runs(cfg, s, run, t)
    requires cfg.d < LEAD || |t.bs| <= |s.bs|
    ensures Inv(cfg, t) && Shaped(t) && |s.bs| <= |t.bs|
    decreases |run|
  {
    hide Inv, Shaped, Enabled, Apply;
    if run != [] {
      var m := Apply(cfg, s, run[0]);
      BasesGrow(cfg, s, run[0]);
      if cfg.d >= LEAD { RunGrows(cfg, m, run[1..], t); }
      StepInv(cfg, s, run[0]);
      RunInv(cfg, m, run[1..], t);
    }
  }

  lemma {:induction false} RunGrows(cfg: Config, s: Sys, run: seq<Step>, t: Sys)
    requires Runs(cfg, s, run, t)
    ensures s.bs <= t.bs
    decreases |run|
  {
    hide Enabled, Apply;
    if run != [] {
      BasesGrow(cfg, s, run[0]);
      RunGrows(cfg, Apply(cfg, s, run[0]), run[1..], t);
    }
  }

  /** Every state of every run from START satisfies the invariant. */
  lemma {:induction false} Reachable(cfg: Config, img: Img, run: seq<Step>, t: Sys)
    requires Runs(cfg, Init(cfg.d, img), run, t) && Promised(cfg.d, t)
    ensures Inv(cfg, t) && Shaped(t)
  {
    hide Inv, Shaped, Runs;
    InitInv(cfg, img);
    RunInv(cfg, Init(cfg.d, img), run, t);
  }

  // ---- agreement ----------------------------------------------------------

  lemma SameCells(cfg: Config, s: Sys, k: (nat, int))
    requires Core(cfg, s) && k in s.h.log && k in s.g.log
    ensures s.h.log[k].cells == s.g.log[k].cells
  {
    hide BasesOk, Consoles, Channels, LogDom, ChainOk, ImgOk, RecsOk, EarlyOk;
  }

  /**
   Lockstep agreement: a tick that both consoles executed in the same epoch
   read the same current and previous cells for both seats on both consoles,
   so both replayed the same events, whatever was captured, delayed or resynced.
   */
  lemma {:induction false} Agreement(cfg: Config, img: Img, run: seq<Step>, t: Sys, e: nat, x: int)
    requires Runs(cfg, Init(cfg.d, img), run, t) && Promised(cfg.d, t)
    requires (e, x) in t.h.log && (e, x) in t.g.log
    ensures t.h.log[(e, x)].cells == t.g.log[(e, x)].cells
    ensures TickEvents(t.h.log[(e, x)].cells) == TickEvents(t.g.log[(e, x)].cells)
  {
    hide Core, Runs, TickEvents;
    Reachable(cfg, img, run, t);
    SameCells(cfg, t, (e, x));
  }

  /** The game was deterministic on this console from the start of epoch `e` through tick `x`. */
  ghost predicate Clean(log: Log, bs: seq<Base>, e: nat, x: int)
    requires e < |bs|
  {
    forall y :: bs[e].r <= y <= x && (e, y) in log ==> log[(e, y)].exact
  }

  lemma {:induction false} SameImages(cfg: Config, s: Sys, e: nat, x: int)
    requires Core(cfg, s) && e < |s.bs| && s.bs[e].r <= x
    requires (e, x) in s.h.log && (e, x) in s.g.log
    requires Clean(s.h.log, s.bs, e, x) && Clean(s.g.log, s.bs, e, x)
    ensures s.h.log[(e, x)].img == s.g.log[(e, x)].img
    decreases x - s.bs[e].r
  {
    hide BasesOk, Consoles, Channels, LogDom, LogOk, ImgOk, RecsOk, EarlyOk, TickEvents, Core;
    SameCells(cfg, s, (e, x));
    ChainAt(cfg, s, e, x);
    if s.bs[e].r < x {
      SameImages(cfg, s, e, x - 1);
    }
  }

  lemma ChainAt(cfg: Config, s: Sys, e: nat, x: int)
    requires Core(cfg, s) && (e, x) in s.h.log && (e, x) in s.g.log
    ensures Follows(cfg, s.h.log, s.bs, e, x) && Follows(cfg, s.g.log, s.bs, e, x)
  {
    hide BasesOk, Consoles, Channels, LogDom, LogOk, ImgOk, RecsOk, EarlyOk, Follows;
  }

  /** Equal inputs, one deterministic game, one pushed image: equal states at equal ticks. */
  lemma {:induction false} StateAgreement(cfg: Config, img: Img, run: seq<Step>, t: Sys, e: nat, x: int)
    requires Runs(cfg, Init(cfg.d, img), run, t) && Promised(cfg.d, t)
    requires (e, x) in t.h.log && (e, x) in t.g.log && e < |t.bs|
    requires Clean(t.h.log, t.bs, e, x) && Clean(t.g.log, t.bs, e, x)
    ensures t.h.log[(e, x)].img == t.g.log[(e, x)].img
  {
    hide Core, Runs, Clean;
    Reachable(cfg, img, run, t);
    LogStart(cfg, t, e, x);
    SameImages(cfg, t, e, x);
  }

  lemma LogStart(cfg: Config, s: Sys, e: nat, x: int)
    requires Core(cfg, s) && (e, x) in s.h.log && e < |s.bs|
    ensures s.bs[e].r <= x
  {
    hide BasesOk, Consoles, Channels, LogOk, ChainOk, ImgOk, RecsOk, EarlyOk;
    assert (e, x).0 == e;
  }

  // ---- skew, window, wrap -------------------------------------------------

  /**
   Tick counters of one epoch differ by at most d+1; the ticks whose cells a
   console still needs span less than one turn of its 256-cell rings.
   */
  lemma {:induction false} Skew(cfg: Config, img: Img, run: seq<Step>, t: Sys)
    requires Runs(cfg, Init(cfg.d, img), run, t) && Promised(cfg.d, t)
    ensures t.h.ep == t.g.ep ==> -(cfg.d as int) - 1 <= t.h.tick - t.g.tick <= cfg.d + 1
    ensures t.h.tick - 1 <= t.h.wm <= t.h.tick + 2 * cfg.d + 1 && t.h.wm < t.h.tick - 1 + 256
    ensures t.g.tick - 1 <= t.g.wm <= t.g.tick + 2 * cfg.d + 1 && t.g.wm < t.g.tick - 1 + 256
  {
    hide Core, Runs;
    Reachable(cfg, img, run, t);
    SkewCore(cfg, t);
  }

  lemma SkewCore(cfg: Config, s: Sys)
    requires Core(cfg, s)
    ensures 1 <= cfg.d <= DELAY_MAX
    ensures s.h.ep == s.g.ep ==> -(cfg.d as int) - 1 <= s.h.tick - s.g.tick <= cfg.d + 1
    ensures s.h.tick - 1 <= s.h.wm <= s.h.tick + 2 * cfg.d + 1 && s.h.wm <= s.h.tick + 254
    ensures s.g.tick - 1 <= s.g.wm <= s.g.tick + 2 * cfg.d + 1 && s.g.wm <= s.g.tick + 254
  {
    hide Histories, OwnOk, HoldOk, StaleOk, StreamOk, AskedOnce, RequestsOk, AllGenuine, Script;
    GuestWindow(cfg.d, s.h, s.g, s.hg, s.bs, Oldest(s.g.ep, s.gh), s.g.wm + 1);
    HostWindow(cfg.d, s.h, s.g, s.gh, s.bs);
  }

  /**
   Wrap-around is harmless: the 16-bit gate test and the 16-bit watermark test
   on the next INPUT frame decide exactly as unbounded tick numbers would, and
   an INPUT frame is taken exactly when it was sent in the receiver's epoch.
   */
  lemma {:induction false} WrapSafe(cfg: Config, img: Img, run: seq<Step>, t: Sys)
    requires Runs(cfg, Init(cfg.d, img), run, t) && Promised(cfg.d, t)
    ensures GateOpen(t.h) <==> t.h.tick <= t.h.wm
    ensures GateOpen(t.g) <==> t.g.tick <= t.g.wm
    ensures t.gh != [] && t.gh[0].Input? ==>
              && (Signed16(t.gh[0].tick - t.h.wm) > 0 <==> t.h.wm < t.gh[0].tick)
              && (t.h.wm < t.gh[0].tick <==> t.gh[0].ep == t.h.ep)
    ensures t.hg != [] && t.hg[0].Input? ==>
              && (Signed16(t.hg[0].tick - t.g.wm) > 0 <==> t.g.wm < t.hg[0].tick)
              && t.g.wm < t.hg[0].tick && t.hg[0].ep == t.g.ep
  {
    hide Core, Runs, Signed16, GateOpen;
    Reachable(cfg, img, run, t);
    ClosedGate(cfg, t);
    if t.gh != [] && t.gh[0].Input? { HostAcceptance(cfg, t); }
    if t.hg != [] && t.hg[0].Input? { GuestAcceptance(cfg, t); }
  }

  lemma HostAcceptance(cfg: Config, s: Sys)
    requires Core(cfg, s) && s.gh != [] && s.gh[0].Input?
    ensures Signed16(s.gh[0].tick - s.h.wm) > 0 <==> s.h.wm < s.gh[0].tick
    ensures s.h.wm < s.gh[0].tick <==> s.gh[0].ep == s.h.ep
  {
    hide Histories, OwnOk, RmtOk, HoldOk, AskedOnce, AllGenuine, Script, StreamOk, StaleOk;
    if s.gh[0].ep == s.h.ep {
      H.FreshInput(cfg.d, s.h, s.g, s.hg, s.gh, s.bs);
    } else {
      H.StaleTick(cfg.d, s.h, s.g, s.gh, s.bs);
    }
  }

  lemma GuestAcceptance(cfg: Config, s: Sys)
    requires Core(cfg, s) && s.hg != [] && s.hg[0].Input?
    ensures Signed16(s.hg[0].tick - s.g.wm) > 0
    ensures s.g.wm < s.hg[0].tick && s.hg[0].ep == s.g.ep
  {
    hide BasesOk, Consoles, Histories, SkewOk, StaleOk, StreamOk, GuestFrames, AskedOnce, RequestsOk, AllGenuine;
  }

  // ---- no deadlock --------------------------------------------------------

  ghost predicate Stalled(c: Console) {
    c.pc.Gate? && !GateOpen(c)
  }

  /** With nothing in flight, the two consoles are never both waiting at the gate. */
  lemma {:induction false} NoDeadlock(cfg: Config, img: Img, run: seq<Step>, t: Sys)
    requires Runs(cfg, Init(cfg.d, img), run, t) && Promised(cfg.d, t)
    requires t.hg == [] && t.gh == []
    ensures !(Stalled(t.h) && Stalled(t.g))
    ensures !t.g.hold
  {
    hide Core, Runs, GateOpen;
    Reachable(cfg, img, run, t);
    ClosedGate(cfg, t);
    QuietGates(cfg, t);
  }

  lemma QuietGates(cfg: Config, s: Sys)
    requires Core(cfg, s) && s.hg == [] && s.gh == []
    ensures !(s.h.pc.Gate? && s.h.wm < s.h.tick && s.g.pc.Gate? && s.g.wm < s.g.tick)
    ensures !s.g.hold
  {
    hide Histories, HoldOk, StaleOk, AskedOnce, RequestsOk, AllGenuine;
  }

  // ---- the push -----------------------------------------------------------

  /** No tick runs on a half-applied image. */
  lemma {:induction false} NoTornImage(cfg: Config, img: Img, run: seq<Step>, t: Sys, glitch: Option<Img>)
    requires Runs(cfg, Init(cfg.d, img), run, t) && Promised(cfg.d, t)
    requires Enabled(t, Run(false, glitch))
    ensures !(t.g.hold && t.g.pos > 0)
  {
    hide Core, Runs, GateOpen;
    Reachable(cfg, img, run, t);
    ClosedGate(cfg, t);
  }

  /** At most two pushes are ever under way, and an old frame is never more than 100 ticks behind the watermark. */
  lemma {:induction false} FewPushes(cfg: Config, img: Img, run: seq<Step>, t: Sys)
    requires Runs(cfg, Init(cfg.d, img), run, t) && Promised(cfg.d, t)
    ensures t.g.ep <= t.h.ep <= t.g.ep + 2
    ensures t.gh != [] && t.gh[0].Input? ==> t.h.wm - 100 <= t.gh[0].tick <= t.h.wm + 2
  {
    hide Core, Runs;
    Reachable(cfg, img, run, t);
    FewPushesCore(cfg, t);
  }

  lemma FewPushesCore(cfg: Config, s: Sys)
    requires Core(cfg, s)
    ensures s.g.ep <= s.h.ep <= s.g.ep + 2
    ensures s.gh != [] && s.gh[0].Input? ==> s.h.wm - 100 <= s.gh[0].tick <= s.h.wm + 2
  {
    hide Histories, OwnOk, RmtOk, HoldOk, AskedOnce, AllGenuine, Script, StreamOk, StaleOk;
    if s.gh != [] && s.gh[0].Input? {
      if s.gh[0].ep == s.h.ep {
        H.FreshInput(cfg.d, s.h, s.g, s.hg, s.gh, s.bs);
      } else {
        H.StaleTick(cfg.d, s.h, s.g, s.gh, s.bs);
      }
    }
  }

  /** What a console that has just re-baselined on epoch `b` holds. */
  ghost predicate Rebased(d: nat, c: Console, b: Base) {
    && c.tick == b.r && c.wm == b.r + d - 1
    && c.own == IdleRing() && c.rmt == IdleRing()
    && c.recs == NO_RECS
    && c.img == b.start
    && !c.hold && !c.pend && c.ptmo == 0
  }

  /**
   Resync equality: when the guest takes the END of a push, its image, tick,
   rings, watermark, CRC records and resync flags are those the host resumed
   with after sending it, however long ago that was.
   */
  lemma {:induction false} ResyncEquality(cfg: Config, img: Img, run: seq<Step>, t: Sys)
    requires Runs(cfg, Init(cfg.d, img), run, t) && Promised(cfg.d, t)
    requires t.hg != [] && t.hg[0].End?
    ensures Shaped(t) && t.g.ep + 1 < |t.bs|
    ensures Rebased(cfg.d, DeliverG(cfg.d, t).g, t.bs[t.g.ep + 1])
  {
    hide Core, Runs;
    Reachable(cfg, img, run, t);
    GuestEnd(cfg, t);
    HoldFacts(cfg, t);
  }

  lemma HoldFacts(cfg: Config, s: Sys)
    requires Core(cfg, s) && s.hg != [] && s.hg[0].End?
    ensures s.g.hold && s.g.ep + 1 < |s.bs| && s.g.r == s.bs[s.g.ep + 1].r
    ensures s.bs[s.g.ep + 1].start == Clamp(s.bs[s.g.ep + 1].img)
  {
    hide Histories, OwnOk, RmtOk, SkewOk, StaleOk, StreamOk, GuestFrames, AskedOnce, RequestsOk, AllGenuine;
  }

  /** The host is in that state the moment it has pushed, and the epoch is recorded as such. */
  lemma PushedState(cfg: Config, s: Sys, glitch: Option<Img>)
    requires Enabled(s, Run(true, glitch)) && |Apply(cfg, s, Run(true, glitch)).bs| > |s.bs|
    ensures var u := Apply(cfg, s, Run(true, glitch));
            && |u.bs| == |s.bs| + 1 && Rebased(cfg.d, u.h, u.bs[|s.bs|])
  {
    hide PushFrames, ReadCells, GateOpen, Check.Cksum, Clamp, TickEvents, ReportFrames;
  }

  /**
   A resync carried through: the host pushes in some step of a run, the run goes
   on in any way whatever, with more pushes too, and when the guest takes the END
   of that push it stands where the host stood right after sending it.
   */
  lemma {:induction false} ResyncArrives(cfg: Config, img: Img, before: seq<Step>, s: Sys, glitch: Option<Img>, after: seq<Step>, t: Sys)
    requires Runs(cfg, Init(cfg.d, img), before, s) && Enabled(s, Run(true, glitch))
    requires |Apply(cfg, s, Run(true, glitch)).bs| > |s.bs|
    requires Runs(cfg, Apply(cfg, s, Run(true, glitch)), after, t) && Promised(cfg.d, t)
    requires t.hg != [] && t.hg[0].End? && t.g.ep + 1 == |s.bs|
    ensures Shaped(t)
    ensures var c, g := Apply(cfg, s, Run(true, glitch)).h, DeliverG(cfg.d, t).g;
            && g.ep == |s.bs| && g.tick == c.tick && g.img == c.img && g.wm == c.wm
            && g.own == c.own && g.rmt == c.rmt && g.recs == c.recs
            && g.hold == c.hold && g.pend == c.pend && g.ptmo == c.ptmo
  {
    hide Runs, Enabled, Apply, Core;
    var st := Run(true, glitch);
    var u := Apply(cfg, s, st);
    RunOne(cfg, s, st);
    RunsConcat(cfg, Init(cfg.d, img), before, s, [st], u);
    RunsConcat(cfg, Init(cfg.d, img), before + [st], u, after, t);
    PushedState(cfg, s, glitch);
    RunGrows(cfg, u, after, t);
    ResyncEquality(cfg, img, before + [st] + after, t);
    Reachable(cfg, img, before + [st] + after, t);
    HoldFacts(cfg, t);
    EndOpens(cfg.d, t);
  }

  lemma EndOpens(d: nat, t: Sys)
    requires Shaped(t) && t.hg != [] && t.hg[0].End?
    ensures t.g.hold ==> DeliverG(d, t).g.ep == t.g.ep + 1
  {
  }
}
