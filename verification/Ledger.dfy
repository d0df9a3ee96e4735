/**
 Completeness of desync detection: every checksum a console reports is in
 flight, came too early to be compared, or was compared; so a divergence at a
 64-tick boundary that both sides have passed never goes unnoticed.
 */
module Ledger {
  import opened Basics
  import opened Console
  import opened Match
  import opened Invariant
  import opened Lockstep
  import opened Detection
  import Check = Checksum
  import S = Safety
  import T = Ticks
  import P = Pushing
  import G = GuestDeliver
  import H = HostDeliver

  /** The checksum of tick `k` is on its way. */
  ghost predicate Travels(q: seq<Frame>, k: (nat, int)) {
    exists i :: 0 <= i < |q| && IsReport(q[i], k)
  }

  predicate IsReport(f: Frame, k: (nat, int)) {
    f.Crc? && f.ep == k.0 && f.tick == k.1
  }

  ghost predicate SameSum(a: Log, b: Log, k: (nat, int)) {
    k in a && k in b && Check.Cksum(a[k].img) == Check.Cksum(b[k].img)
  }

  /** A report of `sender` for `k`: on its way, too early, or compared, and then equal unless a resync is wanted. */
  ghost predicate Told(sender: Log, q: seq<Frame>, ep: nat, early: set<(nat, int)>, log: Log, pend: bool, k: (nat, int)) {
    || Travels(q, k)
    || (k.0 == ep && (k in early || (k in log && (pend || SameSum(sender, log, k)))))
  }

  /** Every tick reported in the receiver's epoch, or in one to come, is accounted for. */
  ghost predicate Accounted(sender: Log, q: seq<Frame>, ep: nat, early: set<(nat, int)>, log: Log, pend: bool) {
    forall k :: k in sender && Reports(k.1) && k.0 >= ep ==> Told(sender, q, ep, early, log, pend, k)
  }

  /** A resync the guest wants is known to the host, or asked for. */
  ghost predicate Asked(gEp: nat, gPend: bool, hEp: nat, hPend: bool, gh: seq<Frame>) {
    gPend && gEp == hEp ==> hPend || exists i :: 0 <= i < |gh| && gh[i].Resync? && gh[i].ep == gEp
  }

  ghost predicate Ledgers(s: Sys) {
    && Accounted(s.h.log, s.hg, s.g.ep, s.g.early, s.g.log, s.g.pend)
    && Accounted(s.g.log, s.gh, s.h.ep, s.h.early, s.h.log, s.h.pend)
    && Asked(s.g.ep, s.g.pend, s.h.ep, s.h.pend, s.gh)
  }

  // ---- streams ------------------------------------------------------------

  lemma TravelsOn(q: seq<Frame>, t: seq<Frame>, k: (nat, int))
    requires Travels(q, k)
    ensures Travels(q + t, k)
  {
    var i :| 0 <= i < |q| && IsReport(q[i], k);
    assert (q + t)[i] == q[i];
  }

  lemma TravelsTail(q: seq<Frame>, k: (nat, int))
    requires Travels(q, k) && !IsReport(q[0], k)
    ensures Travels(q[1..], k)
  {
    var i :| 0 <= i < |q| && IsReport(q[i], k);
    assert q[1..][i - 1] == q[i];
  }

  lemma MoreFrames(sender: Log, q: seq<Frame>, t: seq<Frame>, ep: nat, early: set<(nat, int)>, log: Log, pend: bool)
    requires Accounted(sender, q, ep, early, log, pend)
    ensures Accounted(sender, q + t, ep, early, log, pend)
  {
    forall k | k in sender && Reports(k.1) && k.0 >= ep
      ensures Told(sender, q + t, ep, early, log, pend, k)
    {
      assert Told(sender, q, ep, early, log, pend, k);
      if Travels(q, k) { TravelsOn(q, t, k); }
    }
  }

  lemma MoreAsked(gEp: nat, gPend: bool, hEp: nat, hPend: bool, gh: seq<Frame>, t: seq<Frame>)
    requires Asked(gEp, gPend, hEp, hPend, gh)
    ensures Asked(gEp, gPend, hEp, hPend, gh + t)
  {
    if gPend && gEp == hEp && !hPend {
      var i :| 0 <= i < |gh| && gh[i].Resync? && gh[i].ep == gEp;
      assert (gh + t)[i] == gh[i];
    }
  }

  /** A frame that is no report leaves the account as it is. */
  lemma PopOther(sender: Log, q: seq<Frame>, ep: nat, early: set<(nat, int)>, log: Log, pend: bool, pend': bool)
    requires Accounted(sender, q, ep, early, log, pend) && q != [] && !q[0].Crc? && (pend ==> pend')
    ensures Accounted(sender, q[1..], ep, early, log, pend')
  {
    forall k | k in sender && Reports(k.1) && k.0 >= ep
      ensures Told(sender, q[1..], ep, early, log, pend', k)
    {
      assert Told(sender, q, ep, early, log, pend, k);
      if Travels(q, k) { TravelsTail(q, k); }
    }
  }

  /** The END of a push: what was reported in the epoch it opens is still on its way. */
  lemma PopEnd(sender: Log, q: seq<Frame>, ep: nat, early: set<(nat, int)>, log: Log, pend: bool)
    requires Accounted(sender, q, ep, early, log, pend) && q != [] && q[0].End?
    ensures Accounted(sender, q[1..], ep + 1, early, log, false)
  {
    forall k | k in sender && Reports(k.1) && k.0 >= ep + 1
      ensures Told(sender, q[1..], ep + 1, early, log, false, k)
    {
      assert Told(sender, q, ep, early, log, pend, k);
      TravelsTail(q, k);
    }
  }

  /** A report taken from the stream: noted as early, or compared. */
  lemma PopReport(sender: Log, q: seq<Frame>, ep: nat, early: set<(nat, int)>, log: Log, pend: bool,
                  early': set<(nat, int)>, pend': bool)
    requires Accounted(sender, q, ep, early, log, pend) && q != [] && q[0].Crc?
    requires pend ==> pend'
    requires early' == (if (q[0].ep, q[0].tick) in log then early else early + {(q[0].ep, q[0].tick)})
    requires q[0].ep <= ep
    requires q[0].ep == ep && (ep, q[0].tick) in log ==> pend' || SameSum(sender, log, (ep, q[0].tick))
    ensures Accounted(sender, q[1..], ep, early', log, pend')
  {
    forall k | k in sender && Reports(k.1) && k.0 >= ep
      ensures Told(sender, q[1..], ep, early', log, pend', k)
    {
      assert Told(sender, q, ep, early, log, pend, k);
      if Travels(q, k) {
        if IsReport(q[0], k) {
          assert k == (q[0].ep, q[0].tick);
        } else {
          TravelsTail(q, k);
        }
      }
    }
  }

  /** The receiver runs a tick it had not run: what was compared stays compared. */
  lemma ReceiverTicks(sender: Log, q: seq<Frame>, ep: nat, early: set<(nat, int)>, log: Log, pend: bool, x: (nat, int), entry: Entry)
    requires Accounted(sender, q, ep, early, log, pend) && x !in log
    ensures Accounted(sender, q, ep, early, log[x := entry], pend)
  {
    forall k | k in sender && Reports(k.1) && k.0 >= ep
      ensures Told(sender, q, ep, early, log[x := entry], pend, k)
    {
      assert Told(sender, q, ep, early, log, pend, k);
    }
  }

  /** The sender runs a tick and reports it on a boundary. */
  lemma SenderTicks(sender: Log, q: seq<Frame>, ep: nat, early: set<(nat, int)>, log: Log, pend: bool,
                    x: (nat, int), entry: Entry, t: seq<Frame>)
    requires Accounted(sender, q, ep, early, log, pend) && x !in sender
    requires Reports(x.1) ==> |t| == 1 && IsReport(t[0], x)
    ensures Accounted(sender[x := entry], q + t, ep, early, log, pend)
  {
    var after := sender[x := entry];
    forall k | k in after && Reports(k.1) && k.0 >= ep
      ensures Told(after, q + t, ep, early, log, pend, k)
    {
      if k == x {
        assert (q + t)[|q|] == t[0];
      } else {
        assert Told(sender, q, ep, early, log, pend, k);
        if Travels(q, k) { TravelsOn(q, t, k); }
      }
    }
  }

  // ---- one frame ----------------------------------------------------------

  lemma GuestEffect(d: nat, s: Sys)
    requires Shaped(s) && s.hg != [] && !s.hg[0].Crc? && (s.hg[0].End? ==> s.g.hold) && !s.hg[0].Resync?
    ensures var t := DeliverG(d, s);
            && t.h == s.h && t.hg == s.hg[1..] && t.gh == s.gh && t.g.log == s.g.log && t.g.early == s.g.early
            && (if s.hg[0].End? then t.g.ep == s.g.ep + 1 && !t.g.pend else t.g.ep == s.g.ep && t.g.pend == s.g.pend)
  {
    hide Clamp, IdleRing, Splice, Signed16;
    assert s.gh + [] == s.gh;
  }

  lemma GuestReport(d: nat, s: Sys)
    requires Shaped(s) && s.hg != [] && s.hg[0].Crc? && s.g.seat == 1
    ensures var t, k := DeliverG(d, s), (s.hg[0].ep, s.hg[0].tick);
            && t.h == s.h && t.hg == s.hg[1..] && t.g.log == s.g.log && t.g.ep == s.g.ep
            && t.g.early == (if k in s.g.log then s.g.early else s.g.early + {k})
            && t.g.pend == (s.g.pend || Mismatch(s.g, s.hg[0]))
            && t.gh == s.gh + (if Mismatch(s.g, s.hg[0]) then [Resync(s.g.ep, s.hg[0].tick)] else [])
  {
    hide HasRec;
  }

  lemma GuestFacts(cfg: Config, s: Sys)
    requires Core(cfg, s) && s.hg != []
    ensures s.g.seat == 1 && !s.hg[0].Resync? && (s.hg[0].End? ==> s.g.hold)
  {
    hide Histories, OwnOk, RmtOk, SkewOk, StaleOk, StreamOk, GuestFrames, AskedOnce, RequestsOk, AllGenuine, BasesOk;
  }

  lemma GuestLedgers(cfg: Config, s: Sys)
    requires Shaped(s) && Core(cfg, s) && s.hg != [] && Ledgers(s)
    ensures Ledgers(DeliverG(cfg.d, s))
  {
    hide Core, Accounted, Asked, DeliverG, Mismatch, SameSum, Check.Cksum;
    GuestFacts(cfg, s);
    var g, h, q, t := s.g, s.h, s.hg, DeliverG(cfg.d, s);
    if q[0].Crc? {
      GuestReport(cfg.d, s);
      GuestDetects(cfg, s);
      var k := (q[0].ep, q[0].tick);
      if k in g.log && !t.g.pend { Equal(h.log, g.log, k); }
      PopReport(h.log, q, g.ep, g.early, g.log, g.pend, t.g.early, t.g.pend);
      if Mismatch(g, q[0]) {
        var ask := [Resync(g.ep, q[0].tick)];
        MoreFrames(g.log, s.gh, ask, h.ep, h.early, h.log, h.pend);
        AskedNow(g.ep, h.ep, h.pend, s.gh, q[0].tick);
      } else {
        assert t.gh == s.gh;
      }
    } else {
      GuestEffect(cfg.d, s);
      if q[0].End? {
        PopEnd(h.log, q, g.ep, g.early, g.log, g.pend);
        NotAsked(t.g.ep, h.ep, h.pend, t.gh);
      } else {
        PopOther(h.log, q, g.ep, g.early, g.log, g.pend, g.pend);
      }
    }
  }

  lemma Equal(a: Log, b: Log, k: (nat, int))
    requires k in a && k in b && Check.Cksum(b[k].img) == Check.Cksum(a[k].img)
    ensures SameSum(a, b, k)
  {
  }

  lemma AskedNow(gEp: nat, hEp: nat, hPend: bool, gh: seq<Frame>, x: int)
    ensures Asked(gEp, true, hEp, hPend, gh + [Resync(gEp, x)])
  {
    assert (gh + [Resync(gEp, x)])[|gh|] == Resync(gEp, x);
  }

  lemma NotAsked(gEp: nat, hEp: nat, hPend: bool, gh: seq<Frame>)
    ensures Asked(gEp, false, hEp, hPend, gh)
  {
  }

  lemma HostEffect(d: nat, s: Sys)
    requires Shaped(s) && s.gh != [] && HostOk(s.h) && (s.gh[0].Input? || s.gh[0].Crc? || s.gh[0].Resync?)
    ensures var t, f := DeliverH(d, s), s.gh[0];
            && t.g == s.g && t.hg == s.hg && t.gh == s.gh[1..] && t.h.log == s.h.log && t.h.ep == s.h.ep
            && t.h.early == (if f.Crc? && (f.ep, f.tick) !in s.h.log then s.h.early + {(f.ep, f.tick)} else s.h.early)
            && t.h.pend == (s.h.pend || f.Resync? || (f.Crc? && Mismatch(s.h, f)))
  {
    hide HasRec, Signed16;
    assert s.hg + [] == s.hg;
  }

  lemma HostLedgers(cfg: Config, s: Sys)
    requires Shaped(s) && Core(cfg, s) && s.gh != [] && Ledgers(s)
    ensures Ledgers(DeliverH(cfg.d, s))
  {
    hide Core, Accounted, Asked, DeliverH, Mismatch, SameSum, Check.Cksum, HostOk;
    HostSeat(cfg, s);
    H.HostFrame(cfg, s);
    var g, h, q, t := s.g, s.h, s.gh, DeliverH(cfg.d, s);
    HostEffect(cfg.d, s);
    if q[0].Crc? {
      HostDetects(cfg, s);
      var k := (q[0].ep, q[0].tick);
      if k in h.log && k.0 == h.ep && !t.h.pend { Equal(g.log, h.log, k); }
      PopReport(g.log, q, h.ep, h.early, h.log, h.pend, t.h.early, t.h.pend);
    } else {
      PopOther(g.log, q, h.ep, h.early, h.log, h.pend, t.h.pend);
    }
    AskTail(g.ep, g.pend, h.ep, h.pend, q, t.h.pend);
  }

  lemma AskTail(gEp: nat, gPend: bool, hEp: nat, hPend: bool, gh: seq<Frame>, hPend': bool)
    requires Asked(gEp, gPend, hEp, hPend, gh) && gh != [] && (hPend || gh[0].Resync? ==> hPend')
    ensures Asked(gEp, gPend, hEp, hPend', gh[1..])
  {
    if gPend && gEp == hEp && !hPend' {
      var i :| 0 <= i < |gh| && gh[i].Resync? && gh[i].ep == gEp;
      assert gh[1..][i - 1] == gh[i];
    }
  }

  // ---- pumps --------------------------------------------------------------

  lemma {:induction false} HostPumpLedgers(cfg: Config, s: Sys, b: nat)
    requires Shaped(s) && Core(cfg, s) && Roomy(cfg.d, s.h, b) && Ledgers(s)
    ensures Ledgers(PumpH(cfg.d, s, b))
    decreases |s.gh|
  {
    hide Core, DeliverH, Accounted, Asked;
    if s.gh != [] && FrameLen(s.gh[0]) <= b {
      S.RoomyH(cfg, s, b);
      H.HostDelivers(cfg, s);
      S.DeliverHFrame(cfg, s);
      HostLedgers(cfg, s);
      HostPumpLedgers(cfg, DeliverH(cfg.d, s), b - FrameLen(s.gh[0]));
    }
  }

  lemma {:induction false} GuestPumpLedgers(cfg: Config, s: Sys, b: nat)
    requires Shaped(s) && Core(cfg, s) && Roomy(cfg.d, s.g, b) && Ledgers(s)
    ensures Ledgers(PumpG(cfg.d, s, b))
    decreases |s.hg|
  {
    hide Core, DeliverG, Accounted, Asked;
    if s.hg != [] && FrameLen(s.hg[0]) <= b {
      S.RoomyG(cfg, s, b);
      G.GuestDelivers(cfg, s);
      S.DeliverGFrame(cfg, s);
      GuestLedgers(cfg, s);
      GuestPumpLedgers(cfg, DeliverG(cfg.d, s), b - FrameLen(s.hg[0]));
    }
  }

  // ---- captures, ticks, pushes --------------------------------------------

  lemma CaptureLedgers(d: nat, s: Sys, host: bool, cell: Cell)
    requires Ledgers(s) && (if host then s.h.pc.Top? else s.g.pc.Top?)
    ensures host ==> Ledgers(CaptureH(d, s, cell))
    ensures !host ==> Ledgers(CaptureG(d, s, cell))
  {
    hide Accounted, Asked;
    if host {
      MoreFrames(s.h.log, s.hg, [CaptureFrame(d, s.h, cell)], s.g.ep, s.g.early, s.g.log, s.g.pend);
    } else {
      MoreFrames(s.g.log, s.gh, [CaptureFrame(d, s.g, cell)], s.h.ep, s.h.early, s.h.log, s.h.pend);
      MoreAsked(s.g.ep, s.g.pend, s.h.ep, s.h.pend, s.gh, [CaptureFrame(d, s.g, cell)]);
    }
  }

  /** The tick a console runs is new to its history. */
  lemma NewTick(cfg: Config, s: Sys)
    requires Core(cfg, s)
    ensures (s.h.ep, s.h.tick) !in s.h.log && (s.g.ep, s.g.tick) !in s.g.log
    ensures s.g.ep <= s.h.ep && forall k :: k in s.g.log ==> k.0 <= s.h.ep
  {
    hide BasesOk, Consoles, LogOk, ChainOk, ImgOk, RecsOk, EarlyOk, StaleOk, StreamOk, GuestFrames, AskedOnce, RequestsOk, AllGenuine, Script;
  }

  lemma TickLedgers(cfg: Config, s: Sys, host: bool, img: Img, exact: bool)
    requires Shaped(s) && Core(cfg, s) && Ledgers(s)
    ensures host ==> Ledgers(TickH(s, img, exact))
    ensures !host ==> Ledgers(TickG(s, img, exact))
  {
    hide Core, Accounted, Asked, ReadCells, Check.Cksum;
    NewTick(cfg, s);
    if host {
      var x, entry, t := (s.h.ep, s.h.tick), Entry(ReadCells(s.h), img, exact), ReportFrames(s.h, img);
      SenderTicks(s.h.log, s.hg, s.g.ep, s.g.early, s.g.log, s.g.pend, x, entry, t);
      ReceiverTicks(s.g.log, s.gh, s.h.ep, s.h.early, s.h.log, s.h.pend, x, entry);
    } else {
      var x, entry, t := (s.g.ep, s.g.tick), Entry(ReadCells(s.g), img, exact), ReportFrames(s.g, img);
      SenderTicks(s.g.log, s.gh, s.h.ep, s.h.early, s.h.log, s.h.pend, x, entry, t);
      ReceiverTicks(s.h.log, s.hg, s.g.ep, s.g.early, s.g.log, s.g.pend, x, entry);
      MoreAsked(s.g.ep, s.g.pend, s.h.ep, s.h.pend, s.gh, t);
    }
  }

  lemma PendingLedgers(cfg: Config, s: Sys)
    requires Shaped(s) && Core(cfg, s) && Ledgers(s)
    ensures Ledgers(PendingH(cfg.d, s))
  {
    hide Core, Accounted, Asked, PushFrames, Clamp, IdleRing, Quiet;
    NewTick(cfg, s);
    if Pushes(s.h) {
      var r := s.h.tick + LEAD;
      MoreFrames(s.h.log, s.hg, PushFrames(s.h.ep + 1, r, s.h.img), s.g.ep, s.g.early, s.g.log, s.g.pend);
      NoReports(s.g.log, s.gh, s.h.ep + 1, s.h.early, s.h.log);
      NotSame(s.g.ep, s.g.pend, s.h.ep + 1, s.gh);
    } else {
      assert s.hg + [] == s.hg;
    }
  }

  lemma NoReports(sender: Log, q: seq<Frame>, ep: nat, early: set<(nat, int)>, log: Log)
    requires forall k :: k in sender ==> k.0 < ep
    ensures Accounted(sender, q, ep, early, log, false)
  {
  }

  lemma NotSame(gEp: nat, gPend: bool, hEp: nat, gh: seq<Frame>)
    requires gEp != hEp
    ensures Asked(gEp, gPend, hEp, false, gh)
  {
  }

  // ---- runs ---------------------------------------------------------------

  lemma StepLedgers(cfg: Config, s: Sys, st: Step)
    requires Inv(cfg, s) && Enabled(s, st) && Ledgers(s)
    requires cfg.d < LEAD || |Apply(cfg, s, st).bs| == |s.bs|
    ensures Ledgers(Apply(cfg, s, st))
  {
    hide Core, PumpH, PumpG, PendingH, TickH, TickG, CaptureH, CaptureG, Ledgers, Roomy, GateOpen;
    if st.Run? {
      RunLedgers(cfg, s, st);
    } else {
      S.RoomyStep(cfg, s, st);
      var n := (if st.host then s.h.got else s.g.got) + st.n;
      if st.host { HostPumpLedgers(cfg, s, n); } else { GuestPumpLedgers(cfg, s, n); }
      if st.Start? {
        PumpKeepsPc(cfg.d, s, n);
        CaptureLedgers(cfg.d, if st.host then PumpH(cfg.d, s, n) else PumpG(cfg.d, s, n), st.host, st.cell);
      }
    }
  }

  lemma RunLedgers(cfg: Config, s: Sys, st: Step)
    requires Inv(cfg, s) && Enabled(s, st) && Ledgers(s) && st.Run?
    requires cfg.d < LEAD || |Apply(cfg, s, st).bs| == |s.bs|
    ensures Ledgers(Apply(cfg, s, st))
  {
    hide Core, PendingH, TickH, TickG, Ledgers, ReadCells;
    if st.host {
      var img := NextImg(cfg, s.h, st.glitch);
      TickLedgers(cfg, s, true, img, st.glitch.None?);
      T.HostTick(cfg, s, img, st.glitch.None?);
      S.CoreShaped(cfg, TickH(s, img, st.glitch.None?));
      PendingLedgers(cfg, TickH(s, img, st.glitch.None?));
    } else {
      var img := NextImg(cfg, s.g, st.glitch);
      TickLedgers(cfg, s, false, img, st.glitch.None?);
      S.GuestSeat(cfg, s);
      GuestTicked(s, img, st.glitch.None?);
      P.GuestWaits(cfg.d, TickG(s, img, st.glitch.None?));
    }
  }

  lemma GuestTicked(s: Sys, img: Img, exact: bool)
    requires Shaped(s)
    ensures TickG(s, img, exact).g.seat == s.g.seat
  {
    hide ReadCells, Check.Cksum;
  }

  lemma {:induction false} RunsLedgers(cfg: Config, s: Sys, run: seq<Step>, t: Sys)
    requires Inv(cfg, s) && Shaped(s) && Ledgers(s) && Runs(cfg, s, run, t)
    requires cfg.d < LEAD || |t.bs| <= |s.bs|
    ensures Ledgers(t)
    decreases |run|
  {
    hide Inv, Shaped, Enabled, Apply, Ledgers;
    if run != [] {
      var m := Apply(cfg, s, run[0]);
      BasesGrow(cfg, s, run[0]);
      if cfg.d >= LEAD { RunGrows(cfg, m, run[1..], t); }
      StepLedgers(cfg, s, run[0]);
      S.StepInv(cfg, s, run[0]);
      RunsLedgers(cfg, m, run[1..], t);
    }
  }

  /** The boundary `x` was run on both sides in their common epoch, and left different checksums. */
  ghost predicate Diverged(t: Sys, x: int) {
    var k := (t.h.ep, x);
    && t.g.ep == t.h.ep && Reports(x) && k in t.h.log && k in t.g.log && !SameSum(t.h.log, t.g.log, k)
  }

  /**
   Completeness: once both sides have run a 64-tick boundary with different
   checksums and neither report is still on its way, a resync is wanted; once
   no request is on its way either, the host wants it.
   */
  lemma {:induction false} Noticed(cfg: Config, img: Img, run: seq<Step>, t: Sys, x: int)
    requires Runs(cfg, Init(cfg.d, img), run, t) && Promised(cfg.d, t)
    requires Diverged(t, x) && !Travels(t.hg, (t.h.ep, x)) && !Travels(t.gh, (t.h.ep, x))
    ensures t.h.pend || t.g.pend
    ensures (forall i :: 0 <= i < |t.gh| ==> !t.gh[i].Resync?) ==> t.h.pend
  {
    hide Core, Runs, SameSum;
    var s, k := Init(cfg.d, img), (t.h.ep, x);
    S.InitInv(cfg, img);
    Reachable(cfg, img, run, t);
    StartLedgers(cfg.d, img);
    RunsLedgers(cfg, s, run, t);
    NotBothEarly(cfg, t);
    assert Told(t.h.log, t.hg, t.g.ep, t.g.early, t.g.log, t.g.pend, k);
    assert Told(t.g.log, t.gh, t.h.ep, t.h.early, t.h.log, t.h.pend, k);
    SumsAgree(t.h.log, t.g.log, k);
  }

  lemma SumsAgree(a: Log, b: Log, k: (nat, int))
    ensures SameSum(a, b, k) <==> SameSum(b, a, k)
  {
  }

  lemma StartLedgers(d: nat, img: Img)
    ensures Ledgers(Init(d, img))
  {
  }

  /**
   And bounded: from there on the host pushes before it has run sixty more
   ticks, whatever else happens.
   */
  lemma {:induction false} Repaired(cfg: Config, img: Img, run: seq<Step>, t: Sys, x: int, more: seq<Step>, u: Sys)
    requires Runs(cfg, Init(cfg.d, img), run, t) && Runs(cfg, t, more, u)
    requires 1 <= cfg.d < LEAD
    requires Diverged(t, x) && !Travels(t.hg, (t.h.ep, x)) && !Travels(t.gh, (t.h.ep, x))
    requires forall i :: 0 <= i < |t.gh| ==> !t.gh[i].Resync?
    requires HostRuns(more) >= RS_PEND_MAX
    ensures |u.bs| > |t.bs|
  {
    hide Core, Runs, Diverged, Travels;
    Reachable(cfg, img, run, t);
    Noticed(cfg, img, run, t, x);
    RunGrows(cfg, t, more, u);
    if |u.bs| == |t.bs| { PushDue(cfg, t, more, u); }
  }
}
