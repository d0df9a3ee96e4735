/** Desync detection: complete, sound, bounded, and silent while the game is deterministic. */
module Detection {
  import opened Basics
  import opened Dispatch
  import opened Console
  import opened Match
  import opened Invariant
  import opened Lockstep
  import Check = Checksum
  import S = Safety
  import T = Ticks
  import G = GuestDeliver
  import H = HostDeliver

  // ---- records ------------------------------------------------------------

  /** A live record is never older than one turn of the record slots. */
  lemma RecRecent(c: Console, bs: seq<Base>, i: nat)
    requires RecsOk(c.ep, c.tick, c.hold, c.recs, c.log) && LogDom(c.ep, c.tick, c.log, bs)
    requires !c.hold && i < 8 && c.recs[i] != NO_REC
    ensures (c.ep, c.recs[i].tick) in c.log
    ensures c.recs[i].crc == Check.Cksum(c.log[(c.ep, c.recs[i].tick)].img)
    ensures c.tick - 256 <= c.recs[i].tick < c.tick
  {
    assert RecOk(c.recs[i], i, c.ep, c.log);
    var x := c.recs[i].tick;
    if x < c.tick - 256 {
      var y := LaterBoundary(x, c.tick);
      RanAt(c, bs, y);
    }
  }

  lemma RanAt(c: Console, bs: seq<Base>, y: int)
    requires LogDom(c.ep, c.tick, c.log, bs) && bs[c.ep].r <= y < c.tick
    ensures (c.ep, y) in c.log
  {
  }

  lemma LaterBoundary(x: int, t: int) returns (y: int)
    requires x < t - 256 && Reports(x)
    ensures t - 256 <= y < t && x < y && Reports(y) && RecSlot(y) == RecSlot(x)
  {
    var m := (t - 1 - x) / 256;
    y := x + 256 * m;
    assert x % 256 == x - 256 * (x / 256);
    assert y == 256 * (x / 256 + m) + x % 256;
    assert y / 256 == x / 256 + m;
    assert y == 64 * (x / 64 + 4 * m);
  }

  /** A CRC frame of the receiver's epoch is for a tick near its own. */
  lemma GuestCrcNear(cfg: Config, s: Sys)
    requires Core(cfg, s) && s.hg != [] && s.hg[0].Crc?
    ensures s.hg[0].ep == s.g.ep && !s.g.hold && Genuine(s.hg[0], 0, s.h.caps, s.h.log)
    ensures s.g.tick - cfg.d - 1 <= s.hg[0].tick <= s.g.tick + cfg.d + 1
    ensures cfg.d <= DELAY_MAX
  {
    hide Histories, OwnOk, HoldOk, StaleOk, StreamOk, AskedOnce, RequestsOk;
    assert Genuine(s.hg[0], s.h.seat, s.h.caps, s.h.log);
    G.GuestWindow(cfg.d, s.h, s.g, s.hg, s.bs, Oldest(s.g.ep, s.gh), s.g.wm + 1);
  }

  lemma HostCrcNear(cfg: Config, s: Sys)
    requires Core(cfg, s) && s.gh != [] && s.gh[0].Crc? && s.gh[0].ep == s.h.ep
    ensures s.g.ep == s.h.ep && !s.h.hold && Genuine(s.gh[0], 1, s.g.caps, s.g.log)
    ensures s.h.tick - cfg.d - 1 <= s.gh[0].tick <= s.h.tick + cfg.d + 1
    ensures cfg.d <= DELAY_MAX
  {
    hide Histories, OwnOk, HoldOk, StaleOk, Script, AskedOnce, RequestsOk;
    assert Genuine(s.gh[0], s.g.seat, s.g.caps, s.g.log);
    OwnFirst(cfg.d, s.g, s.bs);
    T.HostWindow(cfg.d, s.h, s.g, s.gh, s.bs);
  }

  lemma OwnFirst(d: nat, c: Console, bs: seq<Base>)
    requires OwnOk(d, c.seat, c.ep, c.tick, NextCap(d, c), c.first, c.own, c.caps, bs)
    ensures c.ep < |bs| && bs[c.ep].r + d <= c.first <= bs[c.ep].r + d + 1
  {
  }

  /** The record test: matched exactly when the tick was run here in this epoch. */
  lemma RecExact(c: Console, bs: seq<Base>, x: int)
    requires RecsOk(c.ep, c.tick, c.hold, c.recs, c.log) && LogDom(c.ep, c.tick, c.log, bs)
    requires !c.hold && Reports(x) && c.tick - 256 <= x <= c.tick + 256
    ensures HasRec(c, x) <==> (c.ep, x) in c.log
    ensures HasRec(c, x) ==> c.recs[RecSlot(x)].crc == Check.Cksum(c.log[(c.ep, x)].img)
  {
    var rec := c.recs[RecSlot(x)];
    BoundaryResidue(x);
    if rec != NO_REC {
      RecRecent(c, bs, RecSlot(x));
      if rec.tick < x { ResiduesDiffer(x, rec.tick); }
      if x < rec.tick { ResiduesDiffer(rec.tick, x); }
    }
  }

  lemma GuestDetects(cfg: Config, s: Sys)
    requires Shaped(s) && Core(cfg, s) && s.hg != [] && s.hg[0].Crc?
    ensures (s.hg[0].ep, s.hg[0].tick) in s.h.log && s.hg[0].ep == s.g.ep
    ensures Mismatch(s.g, s.hg[0]) <==>
              && !s.g.pend && (s.hg[0].ep, s.hg[0].tick) in s.g.log
              && Check.Cksum(s.g.log[(s.hg[0].ep, s.hg[0].tick)].img) != Check.Cksum(s.h.log[(s.hg[0].ep, s.hg[0].tick)].img)
  {
    hide BasesOk, Channels, Consoles, LogDom, LogOk, ChainOk, ImgOk, RecsOk, EarlyOk, Check.Cksum, HasRec;
    GuestCrcNear(cfg, s);
    RecExact(s.g, s.bs, s.hg[0].tick);
  }

  lemma HostDetects(cfg: Config, s: Sys)
    requires Shaped(s) && Core(cfg, s) && s.gh != [] && s.gh[0].Crc?
    ensures (s.gh[0].ep, s.gh[0].tick) in s.g.log
    ensures Mismatch(s.h, s.gh[0]) <==>
              && !s.h.pend && s.gh[0].ep == s.h.ep && (s.gh[0].ep, s.gh[0].tick) in s.h.log
              && Check.Cksum(s.h.log[(s.gh[0].ep, s.gh[0].tick)].img) != Check.Cksum(s.g.log[(s.gh[0].ep, s.gh[0].tick)].img)
  {
    hide BasesOk, GuestFrames, StreamOk, AskedOnce, RequestsOk, Script, SkewOk, StaleOk, HoldOk, OwnOk, RmtOk,
      LogDom, LogOk, ChainOk, ImgOk, RecsOk, EarlyOk, Check.Cksum, HasRec;
    assert Genuine(s.gh[0], s.g.seat, s.g.caps, s.g.log);
    if s.gh[0].ep == s.h.ep {
      HostCrcNear(cfg, s);
      RecExact(s.h, s.bs, s.gh[0].tick);
    } else {
      H.HostFrame(cfg, s);
      H.StaleCrcIgnored(cfg.d, s.h, s.g, s.gh, s.bs);
    }
  }

  /**
   Detection: of the two CRC reports for a tick, at most one can arrive before
   the receiver ran that tick; and a report that arrives after is flagged
   exactly when the two checksums differ and no resync is already wanted.
   */
  lemma {:induction false} Detects(cfg: Config, img: Img, run: seq<Step>, t: Sys)
    requires Runs(cfg, Init(cfg.d, img), run, t) && Promised(cfg.d, t)
    ensures Shaped(t) && t.h.early !! t.g.early
    ensures t.hg != [] && t.hg[0].Crc? ==>
              var k := (t.g.ep, t.hg[0].tick);
              && k in t.h.log
              && (Mismatch(t.g, t.hg[0]) <==>
                    !t.g.pend && k in t.g.log && Check.Cksum(t.g.log[k].img) != Check.Cksum(t.h.log[k].img))
    ensures t.gh != [] && t.gh[0].Crc? ==>
              var k := (t.gh[0].ep, t.gh[0].tick);
              && k in t.g.log
              && (Mismatch(t.h, t.gh[0]) <==>
                    !t.h.pend && k.0 == t.h.ep && k in t.h.log && Check.Cksum(t.h.log[k].img) != Check.Cksum(t.g.log[k].img))
  {
    hide Core, Runs, Mismatch, Check.Cksum;
    Reachable(cfg, img, run, t);
    NotBothEarly(cfg, t);
    if t.hg != [] && t.hg[0].Crc? { GuestDetects(cfg, t); }
    if t.gh != [] && t.gh[0].Crc? { HostDetects(cfg, t); }
  }

  lemma NotBothEarly(cfg: Config, s: Sys)
    requires Core(cfg, s)
    ensures s.h.early !! s.g.early
  {
    hide BasesOk, Channels, Consoles, LogDom, LogOk, ChainOk, ImgOk, RecsOk;
  }

  // ---- a wanted resync is pushed within 60 host ticks ---------------------

  function HostRuns(run: seq<Step>): nat {
    if run == [] then 0 else Bit(run[0].Run? && run[0].host) + HostRuns(run[1..])
  }

  lemma HostPumpPends(cfg: Config, s: Sys, b: nat)
    requires Shaped(s) && Core(cfg, s) && s.h.pend && Roomy(cfg.d, s.h, b)
    ensures PumpH(cfg.d, s, b).h.pend && PumpH(cfg.d, s, b).h.ptmo == s.h.ptmo
    decreases |s.gh|
  {
    hide Core, DeliverH;
    if s.gh != [] && FrameLen(s.gh[0]) <= b {
      H.HostFrame(cfg, s);
      S.RoomyH(cfg, s, b);
      H.HostDelivers(cfg, s);
      S.DeliverHFrame(cfg, s);
      PendingDeliver(cfg.d, s);
      HostPumpPends(cfg, DeliverH(cfg.d, s), b - FrameLen(s.gh[0]));
    }
  }

  lemma PendingDeliver(d: nat, s: Sys)
    requires Shaped(s) && s.gh != [] && (s.gh[0].Input? || s.gh[0].Crc? || s.gh[0].Resync?) && s.h.pend
    ensures DeliverH(d, s).h.pend && DeliverH(d, s).h.ptmo == s.h.ptmo
  {
  }

  lemma PendingStep(cfg: Config, s: Sys, st: Step)
    requires Inv(cfg, s) && Enabled(s, st) && s.h.pend
    requires |Apply(cfg, s, st).bs| == |s.bs|
    ensures Apply(cfg, s, st).h.pend
    ensures Apply(cfg, s, st).h.ptmo == s.h.ptmo + Bit(st.Run? && st.host)
  {
    hide Core, PumpH, PumpG, Rebase, PushFrames, ReadCells, Quiet;
    HostSeat(cfg, s);
    if !st.Run? { S.RoomyStep(cfg, s, st); }
    match st
    case Pump(host, n) =>
      if host { HostPumpPends(cfg, s, s.h.got + n); } else { PumpKeepsPcG(cfg.d, s, s.g.got + n); }
    case Stall(host, n) =>
      if host { HostPumpPends(cfg, s, s.h.got + n); } else { PumpKeepsPcG(cfg.d, s, s.g.got + n); }
    case Start(host, n, _) =>
      if host {
        PumpKeepsPcH(cfg.d, s, s.h.got + n);
        HostPumpPends(cfg, s, s.h.got + n);
      } else {
        PumpKeepsPcG(cfg.d, s, s.g.got + n);
      }
    case Run(_, _) =>
  }

  lemma HostSeat(cfg: Config, s: Sys)
    requires Core(cfg, s)
    ensures HostOk(s.h)
  {
    hide BasesOk, Channels, Histories;
  }

  /** Once the host wants a resync it pushes one before it has run sixty more ticks. */
  lemma {:induction false} PushDue(cfg: Config, s: Sys, run: seq<Step>, t: Sys)
    requires Inv(cfg, s) && Shaped(s) && Runs(cfg, s, run, t)
    requires s.h.pend && |t.bs| == |s.bs|
    ensures t.h.pend && s.h.ptmo + HostRuns(run) == t.h.ptmo < RS_PEND_MAX
    decreases |run|
  {
    hide Core, Enabled, Apply, Shaped;
    if run == [] {
      HostSeat(cfg, s);
    } else {
      var m := Apply(cfg, s, run[0]);
      BasesGrow(cfg, s, run[0]);
      RunGrows(cfg, m, run[1..], t);
      PendingStep(cfg, s, run[0]);
      S.StepInv(cfg, s, run[0]);
      PushDue(cfg, m, run[1..], t);
    }
  }

  // ---- no false alarm -----------------------------------------------------

  /** No glitch so far, no resync wanted, none made. */
  ghost predicate Calm(s: Sys) {
    && |s.bs| == 1 && !s.h.pend && !s.g.pend
    && (forall k :: k in s.h.log ==> s.h.log[k].exact)
    && (forall k :: k in s.g.log ==> s.g.log[k].exact)
  }

  lemma CalmImages(cfg: Config, s: Sys, k: (nat, int))
    requires Core(cfg, s) && Calm(s) && k in s.h.log && k in s.g.log
    ensures s.h.log[k].img == s.g.log[k].img
  {
    hide Core;
    FirstEpoch(cfg, s, k);
    LogStart(cfg, s, k.0, k.1);
    SameImages(cfg, s, k.0, k.1);
  }

  lemma FirstEpoch(cfg: Config, s: Sys, k: (nat, int))
    requires Core(cfg, s) && k in s.h.log
    ensures k.0 < |s.bs|
  {
    hide BasesOk, Channels, Consoles, LogOk, ChainOk, ImgOk, RecsOk, EarlyOk;
  }

  lemma CalmDeliverH(cfg: Config, s: Sys)
    requires Shaped(s) && Core(cfg, s) && Calm(s) && s.gh != [] && !s.gh[0].Resync?
    ensures Calm(DeliverH(cfg.d, s))
  {
    hide Core, Mismatch, Calm;
    H.HostFrame(cfg, s);
    if s.gh[0].Crc? {
      HostDetects(cfg, s);
      var k := (s.gh[0].ep, s.gh[0].tick);
      if k in s.h.log { CalmImages(cfg, s, k); }
    }
    CalmH(cfg.d, s);
  }

  lemma CalmH(d: nat, s: Sys)
    requires Shaped(s) && Calm(s) && s.gh != [] && (s.gh[0].Input? || s.gh[0].Crc?)
    requires s.gh[0].Crc? ==> !Mismatch(s.h, s.gh[0])
    ensures Calm(DeliverH(d, s))
  {
    hide Mismatch;
  }

  lemma CalmDeliverG(cfg: Config, s: Sys)
    requires Shaped(s) && Core(cfg, s) && Calm(s) && s.hg != []
    ensures Calm(DeliverG(cfg.d, s)) && DeliverG(cfg.d, s).gh == s.gh
  {
    hide Core, Mismatch, Calm;
    CalmFrame(cfg, s);
    if s.hg[0].Crc? {
      GuestDetects(cfg, s);
      var k := (s.hg[0].ep, s.hg[0].tick);
      if k in s.g.log { CalmImages(cfg, s, k); }
    }
    CalmG(cfg.d, s);
  }

  lemma CalmG(d: nat, s: Sys)
    requires Shaped(s) && Calm(s) && s.hg != [] && (s.hg[0].Input? || s.hg[0].Crc?)
    requires s.hg[0].Crc? ==> !Mismatch(s.g, s.hg[0])
    ensures Calm(DeliverG(d, s)) && DeliverG(d, s).gh == s.gh
  {
    hide Mismatch;
    assert s.gh + [] == s.gh;
  }

  lemma CalmFrame(cfg: Config, s: Sys)
    requires Core(cfg, s) && Calm(s) && s.hg != []
    ensures s.hg[0].Input? || s.hg[0].Crc?
  {
    hide BasesOk, Histories, OwnOk, RmtOk, SkewOk, StaleOk, StreamOk, GuestFrames, AskedOnce, RequestsOk, AllGenuine;
  }

  ghost predicate NoResync(q: seq<Frame>) {
    forall i :: 0 <= i < |q| ==> !q[i].Resync?
  }

  lemma CalmPumpH(cfg: Config, s: Sys, b: nat)
    requires Shaped(s) && Core(cfg, s) && Calm(s) && NoResync(s.gh) && Roomy(cfg.d, s.h, b)
    ensures Calm(PumpH(cfg.d, s, b)) && NoResync(PumpH(cfg.d, s, b).gh)
    decreases |s.gh|
  {
    hide Core, DeliverH;
    if s.gh != [] && FrameLen(s.gh[0]) <= b {
      S.RoomyH(cfg, s, b);
      H.HostDelivers(cfg, s);
      S.DeliverHFrame(cfg, s);
      CalmDeliverH(cfg, s);
      CalmPumpH(cfg, DeliverH(cfg.d, s), b - FrameLen(s.gh[0]));
    }
  }

  lemma CalmPumpG(cfg: Config, s: Sys, b: nat)
    requires Shaped(s) && Core(cfg, s) && Calm(s) && Roomy(cfg.d, s.g, b)
    ensures Calm(PumpG(cfg.d, s, b)) && PumpG(cfg.d, s, b).gh == s.gh
    decreases |s.hg|
  {
    hide Core, DeliverG;
    if s.hg != [] && FrameLen(s.hg[0]) <= b {
      S.RoomyG(cfg, s, b);
      G.GuestDelivers(cfg, s);
      S.DeliverGFrame(cfg, s);
      CalmDeliverG(cfg, s);
      CalmPumpG(cfg, DeliverG(cfg.d, s), b - FrameLen(s.hg[0]));
    }
  }

  lemma CalmRun(cfg: Config, s: Sys, host: bool)
    requires Shaped(s) && Calm(s) && NoResync(s.gh)
    requires s.g.seat == 1
    requires Enabled(s, Run(host, None))
    ensures Calm(Apply(cfg, s, Run(host, None))) && NoResync(Apply(cfg, s, Run(host, None)).gh)
  {
    hide ReadCells, PushFrames, Rebase, TickEvents, Check.Cksum;
  }

  lemma CalmStep(cfg: Config, s: Sys, st: Step)
    requires Inv(cfg, s) && Enabled(s, st) && Calm(s) && NoResync(s.gh)
    requires st.Run? ==> st.glitch.None?
    ensures Calm(Apply(cfg, s, st)) && NoResync(Apply(cfg, s, st).gh)
  {
    hide Core, PumpH, PumpG, PendingH, PendingG, TickH, TickG, GateOpen;
    S.GuestSeat(cfg, s);
    if !st.Run? { S.RoomyStep(cfg, s, st); }
    match st
    case Pump(host, n) =>
      if host { CalmPumpH(cfg, s, s.h.got + n); } else { CalmPumpG(cfg, s, s.g.got + n); }
    case Stall(host, n) =>
      if host { CalmPumpH(cfg, s, s.h.got + n); } else { CalmPumpG(cfg, s, s.g.got + n); }
    case Start(host, n, _) =>
      if host { CalmPumpH(cfg, s, s.h.got + n); } else { CalmPumpG(cfg, s, s.g.got + n); }
    case Run(host, _) => CalmRun(cfg, s, host);
  }

  lemma {:induction false} CalmRuns(cfg: Config, s: Sys, run: seq<Step>, t: Sys)
    requires Inv(cfg, s) && Shaped(s) && Calm(s) && NoResync(s.gh) && Runs(cfg, s, run, t)
    requires forall i :: 0 <= i < |run| && run[i].Run? ==> run[i].glitch.None?
    ensures Inv(cfg, t) && Calm(t)
    decreases |run|
  {
    hide Inv, Shaped, Enabled, Apply, NoResync;
    if run != [] {
      var m := Apply(cfg, s, run[0]);
      CalmStep(cfg, s, run[0]);
      S.StepInv(cfg, s, run[0]);
      CalmRuns(cfg, m, run[1..], t);
    }
  }

  /**
   No false alarm: with a deterministic game and any delay from 1 to 127, no
   run ever asks for, schedules or makes a push.
   */
  lemma {:induction false} NoFalseAlarm(cfg: Config, img: Img, run: seq<Step>, t: Sys)
    requires 1 <= cfg.d <= DELAY_MAX
    requires Runs(cfg, Init(cfg.d, img), run, t)
    requires forall i :: 0 <= i < |run| && run[i].Run? ==> run[i].glitch.None?
    ensures |t.bs| == 1 && !t.h.pend && !t.g.pend
    ensures forall k :: k in t.h.log && k in t.g.log ==> t.h.log[k] == t.g.log[k]
  {
    hide Core, Runs;
    S.InitInv(cfg, img);
    CalmRuns(cfg, Init(cfg.d, img), run, t);
    forall k | k in t.h.log && k in t.g.log
      ensures t.h.log[k] == t.g.log[k]
    {
      CalmImages(cfg, t, k);
      SameCells(cfg, t, k);
    }
  }
}
