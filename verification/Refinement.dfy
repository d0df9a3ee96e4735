/**
 The byte-level console against the match: in every reachable state, handing
 the bytes of the frames in flight to the cells does what the match's pump does.
 */
module Refinement {
  import opened Basics
  import opened Console
  import opened Match
  import opened Invariant
  import opened Framing
  import opened Wire
  import opened CellRep
  import opened Cells
  import opened Station
  import opened Transport
  import G = GuestDeliver
  import H = HostDeliver
  import Ticks
  import S = Safety

  /** A frame's bytes do what the frame does, if it names a tick within half a turn of the counter. */
  lemma HandledIs(d: nat, c: Console, f: Frame)
    requires Sendable(f) && |c.recs| == 8 && (f.Resync? || Timely(f, c.tick))
    ensures Handled(d, c, Encode(f), f.ep) == OnFrame(d, c, f)
  {
    hide Encode, Near, Mismatch, Signed16, Splice, Clamp;
    if f.Resync? {
      ResyncSaid(c, f);
    } else {
      MeaningRoundTrip(f, c.tick);
    }
  }

  lemma ResyncSaid(c: Console, f: Frame)
    requires f.Resync?
    ensures Meaning(Encode(f), f.ep, c.tick).Some? && Meaning(Encode(f), f.ep, c.tick).value.Resync?
  {
  }

  // ---- frames at the head name nearby ticks -------------------------------

  lemma GuestHeadTimely(cfg: Config, s: Sys)
    requires Core(cfg, s) && s.hg != []
    ensures Timely(s.hg[0], s.g.tick) && !s.hg[0].Resync?
  {
    hide Histories, OwnOk, HoldOk, StaleOk, StreamOk, AskedOnce, RequestsOk, AllGenuine;
    G.GuestWindow(cfg.d, s.h, s.g, s.hg, s.bs, Oldest(s.g.ep, s.gh), s.g.wm + 1);
  }

  lemma HostHeadTimely(cfg: Config, s: Sys)
    requires Core(cfg, s) && s.gh != []
    ensures s.gh[0].Resync? || Timely(s.gh[0], s.h.tick)
  {
    hide Histories, HoldOk, AskedOnce, Script, AllGenuine;
    Ticks.HostWindow(cfg.d, s.h, s.g, s.gh, s.bs);
    var f := s.gh[0];
    assert f.Input? || f.Crc? || f.Resync?;
    if !f.Resync? && f.ep < s.h.ep {
      H.StaleTick(cfg.d, s.h, s.g, s.gh, s.bs);
    }
  }

  // ---- whole pumps --------------------------------------------------------

  /** The epochs the frames of a stream were sent in. */
  function Tags(q: seq<Frame>): nat -> nat {
    (i: nat) => if i < |q| then q[i].ep else 0
  }

  ghost predicate SameTag(a: nat -> nat, i: nat, b: nat -> nat, j: nat, k: nat) {
    a(i + k) == b(j + k)
  }

  lemma {:induction false} TagsFrom(d: nat, c: Console, fs: seq<seq<byte>>, a: nat -> nat, i: nat, b: nat -> nat, j: nat)
    requires AllFit(fs) && |c.recs| == 8
    requires forall k: nat :: k < |fs| ==> SameTag(a, i, b, j, k)
    ensures HandledAll(d, c, fs, a, i) == HandledAll(d, c, fs, b, j)
    decreases |fs|
  {
    hide Handled, Fits;
    if fs != [] {
      var n := |fs| - 1;
      TagsFrom(d, c, fs[..n], a, i, b, j);
      assert SameTag(a, i, b, j, n);
    }
  }

  /** What the bytes of the first `k` frames of a stream do. */
  ghost function Done(d: nat, c: Console, q: seq<Frame>, k: nat): (Console, seq<Frame>)
    requires AllSendable(q) && k <= |q| && |c.recs| == 8
  {
    HandledAll(d, c, EncodeAll(q[..k]), Tags(q), 0)
  }

  /** Handling one frame's bytes, then the bytes of the rest. */
  lemma HandledFirst(d: nat, c: Console, q: seq<Frame>, k: nat)
    requires AllSendable(q) && 0 < k <= |q| && |c.recs| == 8 && (q[0].Resync? || Timely(q[0], c.tick))
    ensures |OnFrame(d, c, q[0]).0.recs| == 8 && AllSendable(q[1..])
    ensures var p := OnFrame(d, c, q[0]);
            var r := Done(d, p.0, q[1..], k - 1);
            Done(d, c, q, k) == (r.0, p.1 + r.1)
  {
    hide Handled, Fits, HandledAll, Encode, EncodeAll, OnFrame, Sendable;
    var f, rest := Encode(q[0]), EncodeAll(q[1..][..k - 1]);
    HandledIs(d, c, q[0]);
    KeepsRecs(d, c, f, q[0].ep);
    HeadFrames(q, k - 1);
    EncodedFit(q, k);
    HandledNone(d, c, Tags(q), 0);
    HandledMore(d, c, [], f, Tags(q), 0);
    assert [] + [f] == [f] && [] + Handled(d, c, f, q[0].ep).1 == Handled(d, c, f, q[0].ep).1;
    HandledConcat(d, c, [f], rest, Tags(q));
    TagsFrom(d, OnFrame(d, c, q[0]).0, rest, Tags(q), 1, Tags(q[1..]), 0);
  }

  lemma EncodedFit(q: seq<Frame>, k: nat)
    requires AllSendable(q) && 0 < k <= |q|
    ensures Fits(Encode(q[0])) && AllFit(EncodeAll(q[1..][..k - 1])) && AllFit([Encode(q[0])]) && |EncodeAll(q[1..][..k - 1])| == k - 1
  {
    hide Fits, Sendable;
    FitsOne(q[0]);
  }

  lemma FitsOne(f: Frame)
    requires Sendable(f)
    ensures Fits(Encode(f))
  {
  }

  /** The same console but for the bytes buffered, which the receiver holds. */
  ghost predicate Same(t: Console, c: Console) {
    t == c.(got := t.got)
  }

  lemma GuestPumpStop(d: nat, s: Sys, b: nat)
    requires Shaped(s) && (s.hg == [] || FrameLen(s.hg[0]) > b)
    ensures Same(PumpG(d, s, b).g, s.g) && PumpG(d, s, b).gh == s.gh && Complete(s.hg, b) == 0
  {
  }

  lemma GuestPumpStep(d: nat, s: Sys, b: nat)
    requires Shaped(s) && s.hg != [] && FrameLen(s.hg[0]) <= b
    ensures var m, n := DeliverG(d, s), FrameLen(s.hg[0]);
            && PumpG(d, s, b) == PumpG(d, m, b - n) && Complete(s.hg, b) == 1 + Complete(m.hg, b - n)
            && m.hg == s.hg[1..] && m.g == OnFrame(d, s.g, s.hg[0]).0 && m.gh == s.gh + OnFrame(d, s.g, s.hg[0]).1
  {
    hide OnFrame;
  }

  lemma HostPumpStop(d: nat, s: Sys, b: nat)
    requires Shaped(s) && (s.gh == [] || FrameLen(s.gh[0]) > b)
    ensures Same(PumpH(d, s, b).h, s.h) && PumpH(d, s, b).hg == s.hg && Complete(s.gh, b) == 0
  {
  }

  lemma HostPumpStep(d: nat, s: Sys, b: nat)
    requires Shaped(s) && s.gh != [] && FrameLen(s.gh[0]) <= b
    ensures var m, n := DeliverH(d, s), FrameLen(s.gh[0]);
            && PumpH(d, s, b) == PumpH(d, m, b - n) && Complete(s.gh, b) == 1 + Complete(m.gh, b - n)
            && m.gh == s.gh[1..] && m.h == OnFrame(d, s.h, s.gh[0]).0 && m.hg == s.hg + OnFrame(d, s.h, s.gh[0]).1
  {
    hide OnFrame;
  }

  /**
   The guest's pump, on bytes: the cells end up standing for the guest the match
   has after the same pump, and the guest sends the same bytes.
   */
  lemma {:induction false} GuestPumpRefines(cfg: Config, s: Sys, b: nat)
    requires Shaped(s) && Core(cfg, s) && Roomy(cfg.d, s.g, b)
    ensures AllSendable(s.hg)
    ensures var t, k := PumpG(cfg.d, s, b), Complete(s.hg, b);
            var r := Done(cfg.d, s.g, s.hg, k);
            Same(t.g, r.0) && t.gh == s.gh + r.1
    decreases |s.hg|
  {
    hide Core, Done, AllSendable, OnFrame, Timely, FrameLen, PumpG, DeliverG, Complete, Same;
    CompleteBound(s.hg, b);
    CoreSendable(cfg, s);
    if s.hg != [] && FrameLen(s.hg[0]) <= b {
      GuestHeadTimely(cfg, s);
      S.RoomyG(cfg, s, b);
      G.GuestDelivers(cfg, s);
      GuestPumpStep(cfg.d, s, b);
      var m, k := DeliverG(cfg.d, s), Complete(s.hg, b);
      GuestPumpRefines(cfg, m, b - FrameLen(s.hg[0]));
      HandledFirst(cfg.d, s.g, s.hg, k);
      var p := OnFrame(cfg.d, s.g, s.hg[0]);
      var r := Done(cfg.d, p.0, m.hg, k - 1);
      assert s.gh + p.1 + r.1 == s.gh + (p.1 + r.1);
    } else {
      GuestPumpStop(cfg.d, s, b);
      NoneDone(cfg.d, s.g, s.hg);
      assert s.gh + [] == s.gh;
    }
  }

  lemma CompleteBound(q: seq<Frame>, b: nat)
    ensures Complete(q, b) <= |q|
  {
  }

  lemma NoneDone(d: nat, c: Console, q: seq<Frame>)
    requires AllSendable(q) && |c.recs| == 8
    ensures Done(d, c, q, 0) == (c, [])
  {
    hide Sendable;
    assert EncodeAll(q[..0]) == [];
  }

  /** And the host's. */
  lemma {:induction false} HostPumpRefines(cfg: Config, s: Sys, b: nat)
    requires Shaped(s) && Core(cfg, s) && Roomy(cfg.d, s.h, b)
    ensures AllSendable(s.gh)
    ensures var t, k := PumpH(cfg.d, s, b), Complete(s.gh, b);
            var r := Done(cfg.d, s.h, s.gh, k);
            Same(t.h, r.0) && t.hg == s.hg + r.1
    decreases |s.gh|
  {
    hide Core, Done, AllSendable, OnFrame, Timely, FrameLen, PumpH, DeliverH, Complete, Same;
    CompleteBound(s.gh, b);
    CoreSendable(cfg, s);
    if s.gh != [] && FrameLen(s.gh[0]) <= b {
      HostHeadTimely(cfg, s);
      S.RoomyH(cfg, s, b);
      H.HostDelivers(cfg, s);
      HostPumpStep(cfg.d, s, b);
      var m, k := DeliverH(cfg.d, s), Complete(s.gh, b);
      HostPumpRefines(cfg, m, b - FrameLen(s.gh[0]));
      HandledFirst(cfg.d, s.h, s.gh, k);
      var p := OnFrame(cfg.d, s.h, s.gh[0]);
      var r := Done(cfg.d, p.0, m.gh, k - 1);
      assert s.hg + p.1 + r.1 == s.hg + (p.1 + r.1);
    } else {
      HostPumpStop(cfg.d, s, b);
      NoneDone(cfg.d, s.h, s.gh);
      assert s.hg + [] == s.hg;
    }
  }
}
