/** A match can always go on: from every reachable state some schedule runs another tick. */
module Progress {
  import opened Basics
  import opened Console
  import opened Match
  import opened Invariant
  import opened Lockstep
  import S = Safety
  import G = GuestDeliver
  import H = HostDeliver

  function Unread(c: Console, q: seq<Frame>): int {
    Bytes(q) - c.got
  }

  function Tops(s: Sys): nat {
    Bit(s.h.pc.Top?) + Bit(s.g.pc.Top?)
  }

  lemma HostReads(cfg: Config, s: Sys, b: nat)
    requires Shaped(s) && Core(cfg, s) && b <= Bytes(s.gh) && Roomy(cfg.d, s.h, b)
    ensures Unread(PumpH(cfg.d, s, b).h, PumpH(cfg.d, s, b).gh) == Bytes(s.gh) - b
    decreases |s.gh|
  {
    hide Core, DeliverH;
    if s.gh != [] && FrameLen(s.gh[0]) <= b {
      S.RoomyH(cfg, s, b);
      H.HostDelivers(cfg, s);
      S.DeliverHFrame(cfg, s);
      HostReads(cfg, DeliverH(cfg.d, s), b - FrameLen(s.gh[0]));
    }
  }

  /** The guest either moves to a later epoch, or asks for a resync for the first time, or sends nothing. */
  ghost predicate Onward(s: Sys, t: Sys) {
    && s.g.ep <= t.g.ep
    && (t.g.ep == s.g.ep ==> (s.g.pend ==> t.g.pend) && (t.g.pend == s.g.pend ==> t.gh == s.gh))
  }

  lemma DeliverOnward(d: nat, s: Sys)
    requires Shaped(s) && s.hg != []
    ensures Onward(s, DeliverG(d, s))
  {
    assert s.gh + [] == s.gh;
  }

  lemma GuestReads(cfg: Config, s: Sys, b: nat)
    requires Shaped(s) && Core(cfg, s) && b <= Bytes(s.hg) && Roomy(cfg.d, s.g, b)
    ensures Unread(PumpG(cfg.d, s, b).g, PumpG(cfg.d, s, b).hg) == Bytes(s.hg) - b
    ensures Onward(s, PumpG(cfg.d, s, b))
    decreases |s.hg|
  {
    hide Core, DeliverG;
    if s.hg != [] && FrameLen(s.hg[0]) <= b {
      S.RoomyG(cfg, s, b);
      G.GuestDelivers(cfg, s);
      S.DeliverGFrame(cfg, s);
      DeliverOnward(cfg.d, s);
      GuestReads(cfg, DeliverG(cfg.d, s), b - FrameLen(s.hg[0]));
    }
  }

  lemma HeadUnread(c: Console, q: seq<Frame>)
    requires GotOk(c, q) && q != []
    ensures c.got + 1 <= Bytes(q)
  {
  }

  lemma HeldStream(cfg: Config, s: Sys)
    requires Core(cfg, s)
    ensures s.g.hold ==> s.hg != []
    ensures !s.h.hold && s.g.ep <= s.h.ep
  {
    hide Histories, OwnOk, RmtOk, HoldOk, BasesOk, StaleOk, StreamOk, GuestFrames, AskedOnce, RequestsOk, AllGenuine;
  }

  /** One step towards the next tick, with what it leaves smaller. */
  lemma Nearer(cfg: Config, s: Sys) returns (st: Step)
    requires Inv(cfg, s) && Shaped(s)
    ensures Enabled(s, st)
    ensures var t := Apply(cfg, s, st);
            st.Run? ||
            (t.h.ep == s.h.ep && t.bs == s.bs && s.g.ep <= t.g.ep &&
             (Tops(t) < Tops(s) ||
              (Tops(t) == Tops(s) &&
               (s.g.ep < t.g.ep ||
                (s.g.ep == t.g.ep &&
                 (Bit(!t.g.pend) < Bit(!s.g.pend) ||
                  (t.g.pend == s.g.pend &&
                   Unread(t.h, t.gh) + Unread(t.g, t.hg) < Unread(s.h, s.gh) + Unread(s.g, s.hg))))))))
  {
    hide Core, GateOpen, PumpH, PumpG;
    S.ClosedGate(cfg, s);
    HeldStream(cfg, s);
    if s.h.pc.Gate? && GateOpen(s.h) {
      st := Run(true, None);
    } else if s.g.pc.Gate? && GateOpen(s.g) {
      st := Run(false, None);
    } else if s.h.pc.Top? {
      st := Start(true, 0, IDLE);
      BytesAtLeast(s.h, s.gh);
      StartH(cfg, s);
    } else if s.g.pc.Top? && !s.g.hold {
      st := Start(false, 0, IDLE);
      BytesAtLeast(s.g, s.hg);
      StartG(cfg, s);
    } else if s.g.pc.Top? {
      HeadUnread(s.g, s.hg);
      st := Pump(false, 1);
      ReadG(cfg, s);
    } else if s.gh != [] {
      HeadUnread(s.h, s.gh);
      st := Stall(true, 1);
      ReadH(cfg, s);
    } else {
      if s.hg == [] { QuietGates(cfg, s); }
      HeadUnread(s.g, s.hg);
      st := Stall(false, 1);
      ReadG(cfg, s);
    }
  }

  lemma BytesAtLeast(c: Console, q: seq<Frame>)
    requires GotOk(c, q)
    ensures c.got <= Bytes(q)
  {
  }

  lemma StartH(cfg: Config, s: Sys)
    requires Inv(cfg, s) && Shaped(s) && s.h.pc.Top? && s.h.got <= Bytes(s.gh)
    ensures PumpH(cfg.d, s, s.h.got).h.pc.Top?
    ensures var t := CaptureH(cfg.d, PumpH(cfg.d, s, s.h.got), IDLE);
            t.h.ep == s.h.ep && t.bs == s.bs && t.g == s.g && Tops(t) < Tops(s)
  {
    hide Core;
  }

  lemma StartG(cfg: Config, s: Sys)
    requires Inv(cfg, s) && Shaped(s) && s.g.pc.Top? && s.g.got <= Bytes(s.hg)
    ensures PumpG(cfg.d, s, s.g.got).g.pc.Top?
    ensures var t := CaptureG(cfg.d, PumpG(cfg.d, s, s.g.got), IDLE);
            t.h == s.h && t.bs == s.bs && t.g.ep == s.g.ep && Tops(t) < Tops(s)
  {
    hide Core;
  }

  lemma ReadH(cfg: Config, s: Sys)
    requires Inv(cfg, s) && Shaped(s) && s.h.got + 1 <= Bytes(s.gh) && (s.h.pc.Gate? ==> !GateOpen(s.h))
    ensures var t := PumpH(cfg.d, s, s.h.got + 1);
            t.g == s.g && t.bs == s.bs && t.h.ep == s.h.ep && Tops(t) == Tops(s) &&
            Unread(t.h, t.gh) + Unread(t.g, t.hg) < Unread(s.h, s.gh) + Unread(s.g, s.hg)
  {
    hide Core, PumpH, GateOpen;
    S.RoomyNow(cfg, s);
    S.HostPump(cfg, s, s.h.got + 1);
    HostReads(cfg, s, s.h.got + 1);
    HostEpoch(cfg, s);
    HostEpoch(cfg, PumpH(cfg.d, s, s.h.got + 1));
  }

  lemma HostEpoch(cfg: Config, s: Sys)
    requires Core(cfg, s)
    ensures s.h.ep + 1 == |s.bs|
  {
    hide Histories, Consoles, BasesOk, StaleOk, StreamOk, GuestFrames, AskedOnce, RequestsOk, AllGenuine, Script;
  }

  lemma ReadG(cfg: Config, s: Sys)
    requires Inv(cfg, s) && Shaped(s) && s.g.got + 1 <= Bytes(s.hg) && (s.g.pc.Gate? ==> !GateOpen(s.g))
    ensures var t := PumpG(cfg.d, s, s.g.got + 1);
            t.h == s.h && t.bs == s.bs && Tops(t) == Tops(s) && Onward(s, t) &&
            Unread(t.g, t.hg) < Unread(s.g, s.hg)
  {
    hide Core, PumpG, Onward, GateOpen;
    S.RoomyNow(cfg, s);
    S.GuestPump(cfg, s, s.g.got + 1);
    GuestReads(cfg, s, s.g.got + 1);
  }

  // ---- ticks only grow ------------------------------------------------------

  lemma FrameTick(d: nat, c: Console, f: Frame)
    requires |c.recs| == 8
    ensures OnFrame(d, c, f).0.tick == if f.End? && c.hold then c.r else c.tick
  {
    hide Mismatch, Signed16, Splice, Clamp, IdleRing;
  }

  /** A console that takes END resumes at a later tick than it stopped at. */
  lemma EndTick(cfg: Config, s: Sys)
    requires Core(cfg, s) && s.hg != [] && s.hg[0].End? && s.g.hold
    ensures s.g.tick <= s.g.r
  {
    hide Histories, OwnOk, SkewOk, StaleOk, StreamOk, GuestFrames, AskedOnce, RequestsOk, AllGenuine;
  }

  lemma GuestFrameTick(cfg: Config, s: Sys)
    requires Shaped(s) && Core(cfg, s) && s.hg != []
    ensures s.g.tick <= DeliverG(cfg.d, s).g.tick && DeliverG(cfg.d, s).h == s.h
  {
    hide Core, OnFrame;
    FrameTick(cfg.d, s.g, s.hg[0]);
    if s.hg[0].End? && s.g.hold { EndTick(cfg, s); }
  }

  lemma HostFrameTick(cfg: Config, s: Sys)
    requires Shaped(s) && Core(cfg, s) && s.gh != []
    ensures DeliverH(cfg.d, s).h.tick == s.h.tick && DeliverH(cfg.d, s).g == s.g
  {
    hide Histories, OwnOk, RmtOk, HoldOk, SkewOk, StaleOk, StreamOk, AskedOnce, RequestsOk, AllGenuine, Script;
  }

  lemma {:induction false} GuestPumpTick(cfg: Config, s: Sys, b: nat)
    requires Shaped(s) && Core(cfg, s) && Roomy(cfg.d, s.g, b)
    ensures s.g.tick <= PumpG(cfg.d, s, b).g.tick && PumpG(cfg.d, s, b).h == s.h
    decreases |s.hg|
  {
    hide Core, DeliverG;
    if s.hg != [] && FrameLen(s.hg[0]) <= b {
      S.RoomyG(cfg, s, b);
      G.GuestDelivers(cfg, s);
      S.DeliverGFrame(cfg, s);
      GuestFrameTick(cfg, s);
      GuestPumpTick(cfg, DeliverG(cfg.d, s), b - FrameLen(s.hg[0]));
    }
  }

  lemma {:induction false} HostPumpTick(cfg: Config, s: Sys, b: nat)
    requires Shaped(s) && Core(cfg, s) && Roomy(cfg.d, s.h, b)
    ensures PumpH(cfg.d, s, b).h.tick == s.h.tick && PumpH(cfg.d, s, b).g == s.g
    decreases |s.gh|
  {
    hide Core, DeliverH;
    if s.gh != [] && FrameLen(s.gh[0]) <= b {
      S.RoomyH(cfg, s, b);
      H.HostDelivers(cfg, s);
      S.DeliverHFrame(cfg, s);
      HostFrameTick(cfg, s);
      HostPumpTick(cfg, DeliverH(cfg.d, s), b - FrameLen(s.gh[0]));
    }
  }

  /** No step takes a console back, and a Run takes one on. */
  ghost predicate Further(s: Sys, t: Sys) {
    s.h.tick <= t.h.tick && s.g.tick <= t.g.tick
  }

  lemma StepTicks(cfg: Config, s: Sys, st: Step)
    requires Inv(cfg, s) && Enabled(s, st)
    ensures var t := Apply(cfg, s, st);
            Further(s, t) && (st.Run? ==> s.h.tick + s.g.tick < t.h.tick + t.g.tick)
  {
    hide Core, PumpH, PumpG;
    if st.Run? {
      Seats(cfg, s);
      RunTicks(cfg, s, st);
    } else {
      S.RoomyStep(cfg, s, st);
      if st.host { HostPumpTick(cfg, s, s.h.got + st.n); } else { GuestPumpTick(cfg, s, s.g.got + st.n); }
      PumpKeepsPc(cfg.d, s, (if st.host then s.h.got else s.g.got) + st.n);
    }
  }

  lemma Seats(cfg: Config, s: Sys)
    requires Core(cfg, s)
    ensures HostOk(s.h) && s.g.seat == 1
  {
    hide BasesOk, Channels, Histories, OwnOk, RmtOk, HoldOk;
  }

  lemma RunTicks(cfg: Config, s: Sys, st: Step)
    requires Enabled(s, st) && st.Run? && HostOk(s.h) && s.g.seat == 1
    ensures var t := Apply(cfg, s, st);
            Further(s, t) && s.h.tick + s.g.tick < t.h.tick + t.g.tick
  {
    hide PushFrames, ReadCells, GateOpen, NextImg, ReportFrames, Clamp;
  }

  /** The two tick counters are never far apart, in one epoch or across a push. */
  lemma NeverFar(cfg: Config, s: Sys)
    requires Core(cfg, s)
    ensures -128 <= s.h.tick - s.g.tick <= 128
  {
    hide Histories, OwnOk, HoldOk, StaleOk, StreamOk, AskedOnce, AllGenuine, Script;
    LaterBase(cfg, s);
    if s.g.ep + 1 < s.h.ep { assert Brief(s.bs, cfg.d, s.g.ep + 1); }
  }

  /** The guest waits for no input beyond the push it has not taken. */
  lemma LaterBase(cfg: Config, s: Sys)
    requires Core(cfg, s)
    ensures s.g.ep < s.h.ep ==> s.g.tick <= s.bs[s.g.ep + 1].r - LEAD + cfg.d
  {
    hide Histories, OwnOk, HoldOk, StaleOk, StreamOk, AskedOnce, RequestsOk, AllGenuine;
    G.GuestWindow(cfg.d, s.h, s.g, s.hg, s.bs, Oldest(s.g.ep, s.gh), s.g.wm + 1);
  }

  /**
   From every state of every promised run, finitely many further steps, none of
   them a timeout or a drop, end in a console executing a tick.
   */
  lemma {:induction false} CanTick(cfg: Config, s: Sys) returns (run: seq<Step>, t: Sys)
    requires Inv(cfg, s) && Shaped(s)
    ensures Runs(cfg, s, run, t) && run != [] && run[|run| - 1].Run?
    ensures Further(s, t) && s.h.tick + s.g.tick < t.h.tick + t.g.tick
    ensures |s.bs| <= |t.bs| && (cfg.d < LEAD || |t.bs| == |s.bs| ==> Inv(cfg, t) && Shaped(t))
    decreases Tops(s), s.h.ep - s.g.ep, Bit(!s.g.pend), Unread(s.h, s.gh) + Unread(s.g, s.hg)
  {
    hide Inv, Shaped, Enabled, Apply;
    var st := Nearer(cfg, s);
    var m := Apply(cfg, s, st);
    StepTicks(cfg, s, st);
    BasesGrow(cfg, s, st);
    if st.Run? {
      run, t := [st], m;
      RunOne(cfg, s, st);
      if cfg.d < LEAD || |m.bs| == |s.bs| { S.StepInv(cfg, s, st); }
    } else {
      S.StepInv(cfg, s, st);
      Measured(cfg, s);
      Measured(cfg, m);
      var rest;
      rest, t := CanTick(cfg, m);
      run := [st] + rest;
      assert run[1..] == rest && run[|run| - 1] == rest[|rest| - 1];
    }
  }

  lemma Measured(cfg: Config, s: Sys)
    requires Inv(cfg, s)
    ensures s.g.ep <= s.h.ep && 0 <= Unread(s.h, s.gh) && 0 <= Unread(s.g, s.hg)
  {
    hide Core;
    HeldStream(cfg, s);
    BytesAtLeast(s.h, s.gh);
    BytesAtLeast(s.g, s.hg);
  }

  lemma {:induction false} AlwaysCanTick(cfg: Config, img: Img, run: seq<Step>, t: Sys)
    requires Runs(cfg, Init(cfg.d, img), run, t) && Promised(cfg.d, t)
    ensures exists more: seq<Step>, u: Sys :: Runs(cfg, t, more, u) && more != [] && more[|more| - 1].Run?
  {
    hide Inv, Runs, Init;
    Reachable(cfg, img, run, t);
    var more, u := CanTick(cfg, t);
  }

  /** As many ticks more as one likes; a delay of 16 or more ends the promise at the first push. */
  lemma {:induction false} ManyTicks(cfg: Config, s: Sys, n: nat) returns (run: seq<Step>, t: Sys)
    requires Inv(cfg, s) && Shaped(s)
    ensures Runs(cfg, s, run, t) && |s.bs| <= |t.bs|
    ensures (cfg.d >= LEAD && |t.bs| > |s.bs|) || (Inv(cfg, t) && Further(s, t) && s.h.tick + s.g.tick + n <= t.h.tick + t.g.tick)
    decreases n
  {
    hide Inv, Shaped, Runs;
    if n == 0 {
      run, t := [], s;
      assert Runs(cfg, s, [], s) by { NoRun(cfg, s); }
    } else {
      var a, m := CanTick(cfg, s);
      if cfg.d >= LEAD && |m.bs| > |s.bs| { return a, m; }
      var b;
      b, t := ManyTicks(cfg, m, n - 1);
      run := a + b;
      RunsConcat(cfg, s, a, m, b, t);
    }
  }

  lemma NoRun(cfg: Config, s: Sys)
    ensures Runs(cfg, s, [], s)
  {
  }

  /**
   Neither console is ever left behind for good: from every reachable state some
   continuation takes both to any tick one likes, or, with a delay that allows
   no push, up to a push.
   */
  lemma {:induction false} BothCanTick(cfg: Config, img: Img, run: seq<Step>, t: Sys, x: int)
    requires Runs(cfg, Init(cfg.d, img), run, t) && Promised(cfg.d, t)
    ensures exists more: seq<Step>, u: Sys :: Runs(cfg, t, more, u) &&
              ((x <= u.h.tick && x <= u.g.tick) || (cfg.d >= LEAD && |u.bs| > |t.bs|))
  {
    hide Inv, Runs, Init;
    Reachable(cfg, img, run, t);
    var n: nat := if 2 * x + 128 > t.h.tick + t.g.tick then 2 * x + 128 - t.h.tick - t.g.tick else 0;
    var more, u := ManyTicks(cfg, t, n);
    if !(cfg.d >= LEAD && |u.bs| > |t.bs|) { InvFar(cfg, u); }
  }

  lemma InvFar(cfg: Config, s: Sys)
    requires Inv(cfg, s)
    ensures -128 <= s.h.tick - s.g.tick <= 128
  {
    hide Core;
    NeverFar(cfg, s);
  }
}
