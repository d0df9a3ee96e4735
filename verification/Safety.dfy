/** Every step keeps the invariant; what that means for whole runs. */
module Safety {
  import opened Basics
  import opened Console
  import opened Match
  import opened Invariant
  import opened GuestDeliver
  import opened HostDeliver
  import opened Passes
  import opened Ticks
  import opened Pushing

  // ---- the start of a match -----------------------------------------------

  lemma InitInv(cfg: Config, img: Img)
    requires 1 <= cfg.d <= DELAY_MAX
    ensures Inv(cfg, Init(cfg.d, img)) && Shaped(Init(cfg.d, img))
  {
    var s := Init(cfg.d, img);
    hide Histories;
    assert Requests([]) == 0;
    InitHistories(cfg, img);
  }

  lemma InitHistories(cfg: Config, img: Img)
    requires 1 <= cfg.d <= DELAY_MAX
    ensures Histories(cfg, Fresh(0, cfg.d, img), Fresh(1, cfg.d, img), [Base(0, img, img)])
  {
  }

  // ---- a pump -------------------------------------------------------------

  /** A frame of `n` bytes read leaves as much room as it takes. */
  lemma RoomyG(cfg: Config, s: Sys, b: nat)
    requires Shaped(s) && Core(cfg, s) && s.hg != [] && FrameLen(s.hg[0]) <= b && Roomy(cfg.d, s.g, b)
    ensures Roomy(cfg.d, s.g, 0) && Roomy(cfg.d, DeliverG(cfg.d, s).g, b - FrameLen(s.hg[0]))
  {
    hide Histories, OwnOk, RmtOk, HoldOk, SkewOk, StaleOk, StreamOk, GuestFrames, AskedOnce, RequestsOk, Mismatch, Signed16, Clamp, Splice;
    if s.hg[0].Input? { assert Genuine(s.hg[0], s.h.seat, s.h.caps, s.h.log); }
  }

  lemma RoomyH(cfg: Config, s: Sys, b: nat)
    requires Shaped(s) && Core(cfg, s) && s.gh != [] && FrameLen(s.gh[0]) <= b && Roomy(cfg.d, s.h, b)
    ensures Roomy(cfg.d, s.h, 0) && Roomy(cfg.d, DeliverH(cfg.d, s).h, b - FrameLen(s.gh[0]))
  {
    hide Histories, HoldOk, StaleOk, AskedOnce, RequestsOk, Mismatch, Signed16, Clamp, Splice, OnInput, Script, AllGenuine;
    HostFrame(cfg, s);
    if s.gh[0].Input? { TakenBound(cfg, s); }
  }

  lemma TakenBound(cfg: Config, s: Sys)
    requires Shaped(s) && Core(cfg, s) && s.gh != [] && s.gh[0].Input?
    ensures OnInput(s.h, s.gh[0]).wm <= s.h.wm + 2 && OnInput(s.h, s.gh[0]).tick == s.h.tick && OnInput(s.h, s.gh[0]).pc == s.h.pc
  {
    hide Histories, OwnOk, RmtOk, HoldOk, AskedOnce, AllGenuine, Script, StreamOk, StaleOk;
    HostFrame(cfg, s);
    if s.gh[0].ep == s.h.ep {
      FreshInput(cfg.d, s.h, s.g, s.hg, s.gh, s.bs);
    } else {
      HostStaleInput(cfg, s);
      assert DeliverH(cfg.d, s).h == s.h;
    }
  }

  /** A read at the top of a pass or at a closed gate starts with room enough. */
  lemma RoomyNow(cfg: Config, s: Sys)
    requires Inv(cfg, s)
    ensures (s.h.pc.Gate? ==> !GateOpen(s.h)) ==> forall b: nat :: b <= s.h.got + READ_MAX ==> Roomy(cfg.d, s.h, b)
    ensures (s.g.pc.Gate? ==> !GateOpen(s.g)) ==> forall b: nat :: b <= s.g.got + READ_MAX ==> Roomy(cfg.d, s.g, b)
  {
    hide Core, GateOpen;
    ClosedGate(cfg, s);
    ShortHeads(cfg, s);
  }

  lemma RoomyStep(cfg: Config, s: Sys, st: Step)
    requires Inv(cfg, s) && Enabled(s, st) && !st.Run?
    ensures st.host ==> Roomy(cfg.d, s.h, s.h.got + st.n)
    ensures !st.host ==> Roomy(cfg.d, s.g, s.g.got + st.n)
  {
    hide Core, GateOpen;
    RoomyNow(cfg, s);
  }

  lemma ShortHeads(cfg: Config, s: Sys)
    requires Inv(cfg, s)
    ensures s.g.got <= 100 && s.h.got <= 100
  {
    hide BasesOk, Consoles, Histories, SkewOk, StaleOk, StreamOk, AskedOnce, RequestsOk, AllGenuine;
  }

  /** The bytes in hand once a frame has been taken in this pump are fewer than one read. */
  lemma HostPump(cfg: Config, s: Sys, b: nat)
    requires Shaped(s) && Core(cfg, s) && b <= Bytes(s.gh) && Roomy(cfg.d, s.h, b)
    ensures Core(cfg, PumpH(cfg.d, s, b))
    ensures PumpH(cfg.d, s, b).g == s.g && PumpH(cfg.d, s, b).bs == s.bs && PumpH(cfg.d, s, b).hg == s.hg
    ensures PumpH(cfg.d, s, b).h.pc == s.h.pc
    ensures GotOk(PumpH(cfg.d, s, b).h, PumpH(cfg.d, s, b).gh)
    decreases |s.gh|
  {
    hide Core, DeliverH;
    if s.gh != [] && FrameLen(s.gh[0]) <= b {
      RoomyH(cfg, s, b);
      HostDelivers(cfg, s);
      DeliverHFrame(cfg, s);
      HostPump(cfg, DeliverH(cfg.d, s), b - FrameLen(s.gh[0]));
    } else {
      GotHistory(cfg, s, b);
    }
  }

  lemma DeliverHFrame(cfg: Config, s: Sys)
    requires Shaped(s) && Core(cfg, s) && s.gh != []
    ensures DeliverH(cfg.d, s).gh == s.gh[1..] && DeliverH(cfg.d, s).g == s.g && DeliverH(cfg.d, s).bs == s.bs
    ensures DeliverH(cfg.d, s).hg == s.hg && DeliverH(cfg.d, s).h.pc == s.h.pc
  {
    hide BasesOk, Channels, Histories, OwnOk, RmtOk, HoldOk;
  }

  lemma DeliverGFrame(cfg: Config, s: Sys)
    requires Shaped(s) && s.hg != []
    ensures DeliverG(cfg.d, s).hg == s.hg[1..] && DeliverG(cfg.d, s).h == s.h && DeliverG(cfg.d, s).bs == s.bs
    ensures DeliverG(cfg.d, s).g.pc == s.g.pc
    ensures DeliverG(cfg.d, s).gh == s.gh || (exists f: Frame :: DeliverG(cfg.d, s).gh == s.gh + [f])
  {
    assert s.gh + [] == s.gh;
  }

  lemma GotHistory(cfg: Config, s: Sys, b: nat)
    requires Core(cfg, s)
    ensures Core(cfg, s.(h := s.h.(got := b))) && Core(cfg, s.(g := s.g.(got := b)))
  {
    hide BasesOk, SkewOk, StaleOk, StreamOk, GuestFrames, AskedOnce, RequestsOk, AllGenuine, Script,
      LogDom, LogOk, ChainOk, ImgOk, RecsOk, EarlyOk, OwnOk, RmtOk, HoldOk;
  }

  /**
   During a pump at the gate with `b` bytes in hand: a closed gate stays closed
   while image bytes are being applied, since the first chunk takes 100 bytes.
   */
  ghost predicate Whole(g: Console, b: nat) {
    g.pc.Gate? && g.hold && (g.pos > 0 || b >= 100) ==> g.wm < g.tick
  }

  /** During the pump of a pass that found no hold: a push may open, but nothing of it is applied. */
  ghost predicate Unheld(g: Console, b: nat) {
    g.hold ==> g.pos == 0 && b < 100
  }

  lemma WholeKept(cfg: Config, s: Sys, b: nat)
    requires Shaped(s) && Core(cfg, s) && s.hg != []
    requires FrameLen(s.hg[0]) <= b < FrameLen(s.hg[0]) + READ_MAX
    ensures Whole(s.g, b) ==> Whole(DeliverG(cfg.d, s).g, b - FrameLen(s.hg[0]))
    ensures Unheld(s.g, b) ==> Unheld(DeliverG(cfg.d, s).g, b - FrameLen(s.hg[0]))
  {
    hide BasesOk, Histories, OwnOk, RmtOk, SkewOk, StaleOk, StreamOk, GuestFrames, AskedOnce, RequestsOk, Mismatch;
    if s.hg[0].Input? { assert Genuine(s.hg[0], s.h.seat, s.h.caps, s.h.log); }
  }

  lemma GuestPump(cfg: Config, s: Sys, b: nat)
    requires Shaped(s) && Core(cfg, s) && b <= Bytes(s.hg) && Roomy(cfg.d, s.g, b)
    requires s.hg != [] ==> b < FrameLen(s.hg[0]) + READ_MAX
    ensures Core(cfg, PumpG(cfg.d, s, b))
    ensures PumpG(cfg.d, s, b).h == s.h && PumpG(cfg.d, s, b).bs == s.bs
    ensures PumpG(cfg.d, s, b).g.pc == s.g.pc
    ensures GotOk(PumpG(cfg.d, s, b).g, PumpG(cfg.d, s, b).hg)
    ensures GotOk(s.h, s.gh) ==> GotOk(s.h, PumpG(cfg.d, s, b).gh)
    ensures Whole(s.g, b) ==> NoTornTick(PumpG(cfg.d, s, b).g)
    ensures Unheld(s.g, b) ==> !PumpG(cfg.d, s, b).g.hold || PumpG(cfg.d, s, b).g.pos == 0
    decreases |s.hg|
  {
    hide Core, DeliverG;
    if s.hg != [] && FrameLen(s.hg[0]) <= b {
      RoomyG(cfg, s, b);
      GuestDelivers(cfg, s);
      DeliverGFrame(cfg, s);
      WholeKept(cfg, s, b);
      GuestPump(cfg, DeliverG(cfg.d, s), b - FrameLen(s.hg[0]));
    } else {
      GotHistory(cfg, s, b);
    }
  }

  // ---- steps --------------------------------------------------------------

  /** Every step of either console keeps the invariant, as long as only delays below 16 are resynced. */
  lemma StepInv(cfg: Config, s: Sys, st: Step)
    requires Inv(cfg, s) && Enabled(s, st)
    requires cfg.d < LEAD || |Apply(cfg, s, st).bs| == |s.bs|
    ensures Inv(cfg, Apply(cfg, s, st)) && Shaped(Apply(cfg, s, st))
  {
    hide Core, PumpH, PumpG, PendingH, PendingG, TickH, TickG, CaptureH, CaptureG;
    match st {
      case Pump(host, n) => PumpStep(cfg, s, host, n);
      case Stall(host, n) => PumpStep(cfg, s, host, n);
      case Start(host, n, cell) => StartStep(cfg, s, host, n, cell);
      case Run(host, glitch) => if host { HostRun(cfg, s, glitch); } else { GuestRun(cfg, s, glitch); }
    }
  }

  lemma PumpStep(cfg: Config, s: Sys, host: bool, n: nat)
    requires Inv(cfg, s) && Shaped(s) && n <= READ_MAX
    requires host ==> s.h.got + n <= Bytes(s.gh)
    requires !host ==> s.g.got + n <= Bytes(s.hg)
    requires host && s.h.pc.Gate? ==> !GateOpen(s.h)
    requires !host && s.g.pc.Gate? ==> !GateOpen(s.g)
    ensures host ==> Inv(cfg, PumpH(cfg.d, s, s.h.got + n))
    ensures !host ==> Inv(cfg, PumpG(cfg.d, s, s.g.got + n))
  {
    hide Core, PumpH, PumpG, GateOpen;
    RoomyNow(cfg, s);
    if host {
      HostPump(cfg, s, s.h.got + n);
    } else {
      if s.g.pc.Gate? { ClosedGate(cfg, s); }
      GuestPump(cfg, s, s.g.got + n);
    }
  }

  lemma ClosedGate(cfg: Config, s: Sys)
    requires Core(cfg, s)
    ensures !GateOpen(s.g) <==> s.g.wm < s.g.tick
    ensures !GateOpen(s.h) <==> s.h.wm < s.h.tick
  {
    hide Histories, OwnOk, HoldOk, StaleOk, StreamOk, AskedOnce, RequestsOk, AllGenuine, Script;
    GuestWindow(cfg.d, s.h, s.g, s.hg, s.bs, Oldest(s.g.ep, s.gh), s.g.wm + 1);
    HostWindow(cfg.d, s.h, s.g, s.gh, s.bs);
    GateExact(cfg.d, s.g);
    GateExact(cfg.d, s.h);
  }

  lemma StartStep(cfg: Config, s: Sys, host: bool, n: nat, cell: Cell)
    requires Inv(cfg, s) && Enabled(s, Start(host, n, cell))
    ensures Inv(cfg, Apply(cfg, s, Start(host, n, cell))) && Shaped(Apply(cfg, s, Start(host, n, cell)))
  {
    hide Core, PumpH, PumpG;
    RoomyNow(cfg, s);
    if host {
      HostPump(cfg, s, s.h.got + n);
      HostCapture(cfg, PumpH(cfg.d, s, s.h.got + n), cell);
    } else {
      HeadLen(cfg, s);
      GuestPump(cfg, s, s.g.got + n);
      GuestCapture(cfg, PumpG(cfg.d, s, s.g.got + n), cell);
    }
  }

  /** A guest outside a hold has no image chunk at the head of its stream. */
  lemma HeadLen(cfg: Config, s: Sys)
    requires Inv(cfg, s) && !s.g.hold
    ensures s.g.got < 36
  {
    hide BasesOk, Consoles, Histories, SkewOk, StaleOk, StreamOk, GuestFrames, AskedOnce, RequestsOk, AllGenuine;
  }

  lemma CoreShaped(cfg: Config, s: Sys)
    requires Core(cfg, s)
    ensures Shaped(s)
  {
    hide BasesOk, Channels, Consoles, LogDom, LogOk, ChainOk, ImgOk, EarlyOk;
  }

  lemma HostPending(cfg: Config, s: Sys)
    requires Core(cfg, s) && s.h.pc.Top?
    requires cfg.d < LEAD || !Pushes(s.h)
    ensures Core(cfg, PendingH(cfg.d, s))
  {
    hide Core, PendingH, Pushes;
    if Pushes(s.h) {
      HostPushes(cfg, s);
    } else {
      HostWaits(cfg, s);
    }
  }

  /** What `Run` of the host does besides the host's own state: frames join the stream, the guest is untouched. */
  lemma HostRunFrame(cfg: Config, s: Sys, img: Img, exact: bool)
    requires Shaped(s) && GotOk(s.g, s.hg)
    ensures PendingH(cfg.d, TickH(s, img, exact)).g == s.g
    ensures PendingH(cfg.d, TickH(s, img, exact)).gh == s.gh
    ensures PendingH(cfg.d, TickH(s, img, exact)).h.got == s.h.got
    ensures GotOk(s.g, PendingH(cfg.d, TickH(s, img, exact)).hg)
    ensures Pushes(TickH(s, img, exact).h) <==> |PendingH(cfg.d, TickH(s, img, exact)).bs| != |s.bs|
  {
    hide PushFrames, ReadCells, Clamp, Quiet;
    HeadKept(s.hg, ReportFrames(s.h, img), s.g);
    HeadKept(s.hg + ReportFrames(s.h, img), Pending(cfg.d, TickH(s, img, exact).h).1, s.g);
  }

  lemma HostRun(cfg: Config, s: Sys, glitch: Option<Img>)
    requires Inv(cfg, s) && Enabled(s, Run(true, glitch))
    requires cfg.d < LEAD || |Apply(cfg, s, Run(true, glitch)).bs| == |s.bs|
    ensures Inv(cfg, Apply(cfg, s, Run(true, glitch))) && Shaped(Apply(cfg, s, Run(true, glitch)))
  {
    hide Core, ReadCells, PendingH, Pushes;
    var img := NextImg(cfg, s.h, glitch);
    HostTick(cfg, s, img, glitch.None?);
    HostRunFrame(cfg, s, img, glitch.None?);
    HostPending(cfg, TickH(s, img, glitch.None?));
    CoreShaped(cfg, PendingH(cfg.d, TickH(s, img, glitch.None?)));
  }

  lemma HeadKept(q: seq<Frame>, t: seq<Frame>, c: Console)
    requires GotOk(c, q)
    ensures GotOk(c, q + t)
  {
  }

  lemma GuestRun(cfg: Config, s: Sys, glitch: Option<Img>)
    requires Inv(cfg, s) && Enabled(s, Run(false, glitch))
    ensures Inv(cfg, Apply(cfg, s, Run(false, glitch))) && Shaped(Apply(cfg, s, Run(false, glitch)))
  {
    hide Core, ReadCells;
    var img := NextImg(cfg, s.g, glitch);
    GuestTick(cfg, s, img, glitch.None?);
    GuestSeat(cfg, s);
    GuestWaits(cfg.d, TickG(s, img, glitch.None?));
    HeadKept(s.gh, ReportFrames(s.g, img), s.h);
  }

  lemma GuestSeat(cfg: Config, s: Sys)
    requires Core(cfg, s)
    ensures s.g.seat == 1
  {
    hide BasesOk, Channels, Histories;
  }
}
