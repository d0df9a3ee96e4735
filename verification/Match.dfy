/**
 A match: two consoles joined by two FIFO byte streams (the relay), and every
 way their steps interleave.  A read of up to 64 bytes may end inside a frame.
 */
module Match {
  import opened Basics
  import opened Console

  const READ_MAX := 64

  /** Epoch `e` starts at tick `r`; `img` is the image pushed, `start` the one play resumes from. */
  datatype Base = Base(r: int, img: Img, start: Img)

  /** Host, guest, the frames in flight each way, and the epochs so far (history). */
  datatype Sys = Sys(h: Console, g: Console, hg: seq<Frame>, gh: seq<Frame>, bs: seq<Base>)

  predicate Shaped(s: Sys) {
    |s.h.recs| == 8 && |s.g.recs| == 8
  }

  function Bytes(q: seq<Frame>): nat {
    if q == [] then 0 else FrameLen(q[0]) + Bytes(q[1..])
  }

  // ---- START --------------------------------------------------------------

  function Fresh(seat: nat, d: nat, img: Img): Console {
    Console(seat, Top, 0, IdleRing(), IdleRing(), Low(d - 1), false, 0, false, 0, NO_RECS, img, 0,
            0, d, 0, map[], map[], {})
  }

  function Init(d: nat, img: Img): Sys {
    Sys(Fresh(0, d, img), Fresh(1, d, img), [], [], [Base(0, img, img)])
  }

  // ---- one frame handed to SES_ONFRAME ------------------------------------

  function DeliverH(d: nat, s: Sys): (t: Sys)
    requires Shaped(s) && s.gh != []
    ensures Shaped(t)
  {
    s.(h := OnFrame(d, s.h, s.gh[0]).0, gh := s.gh[1..], hg := s.hg + OnFrame(d, s.h, s.gh[0]).1)
  }

  function DeliverG(d: nat, s: Sys): (t: Sys)
    requires Shaped(s) && s.hg != []
    ensures Shaped(t)
  {
    s.(g := OnFrame(d, s.g, s.hg[0]).0, hg := s.hg[1..], gh := s.gh + OnFrame(d, s.g, s.hg[0]).1)
  }

  // ---- SES_PUMP: one read, then every complete frame ----------------------

  /** The parse loop with `b` buffered bytes at the head of the stream. */
  function PumpH(d: nat, s: Sys, b: nat): (t: Sys)
    requires Shaped(s)
    ensures Shaped(t)
    decreases |s.gh|
  {
    if s.gh != [] && FrameLen(s.gh[0]) <= b
    then PumpH(d, DeliverH(d, s), b - FrameLen(s.gh[0]))
    else s.(h := s.h.(got := b))
  }

  function PumpG(d: nat, s: Sys, b: nat): (t: Sys)
    requires Shaped(s)
    ensures Shaped(t)
    decreases |s.hg|
  {
    if s.hg != [] && FrameLen(s.hg[0]) <= b
    then PumpG(d, DeliverG(d, s), b - FrameLen(s.hg[0]))
    else s.(g := s.g.(got := b))
  }

  // ---- the rest of a pass -------------------------------------------------

  function CaptureH(d: nat, s: Sys, cell: Cell): Sys
    requires s.h.pc.Top?
  {
    s.(h := Capture(d, s.h, cell), hg := s.hg + [CaptureFrame(d, s.h, cell)])
  }

  function CaptureG(d: nat, s: Sys, cell: Cell): Sys
    requires s.g.pc.Top?
  {
    s.(g := Capture(d, s.g, cell), gh := s.gh + [CaptureFrame(d, s.g, cell)])
  }

  function TickH(s: Sys, img: Img, exact: bool): Sys
    requires Shaped(s)
  {
    s.(h := RunTick(s.h, img, exact), hg := s.hg + ReportFrames(s.h, img))
  }

  function TickG(s: Sys, img: Img, exact: bool): Sys
    requires Shaped(s)
  {
    s.(g := RunTick(s.g, img, exact), gh := s.gh + ReportFrames(s.g, img))
  }

  /** RS_PENDING: a push opens the next epoch. */
  function PendingH(d: nat, s: Sys): Sys {
    s.(h := Pending(d, s.h).0, hg := s.hg + Pending(d, s.h).1,
       bs := if Pushes(s.h) then s.bs + [Base(s.h.tick + LEAD, s.h.img, Clamp(s.h.img))] else s.bs)
  }

  function PendingG(d: nat, s: Sys): Sys {
    s.(g := Pending(d, s.g).0, gh := s.gh + Pending(d, s.g).1)
  }

  // ---- steps --------------------------------------------------------------

  /**
   A step of one console.  `Pump`: a hold pass, or the matched-screen wait.
   `Start`: pump, capture, send, up to the gate.  `Stall`: one gate round.
   `Run`: the gate opens, the tick runs, RS_PENDING, end of pass.
   */
  datatype Step =
    | Pump(host: bool, n: nat)
    | Start(host: bool, n: nat, cell: Cell)
    | Stall(host: bool, n: nat)
    | Run(host: bool, glitch: Option<Img>)

  predicate CanRead(c: Console, q: seq<Frame>, n: nat) {
    n <= READ_MAX && c.got + n <= Bytes(q)
  }

  predicate ConsoleEnabled(c: Console, q: seq<Frame>, st: Step) {
    match st
    case Pump(_, n) => c.pc.Top? && CanRead(c, q, n)
    case Start(_, n, _) => c.pc.Top? && !c.hold && CanRead(c, q, n)
    case Stall(_, n) => c.pc.Gate? && !GateOpen(c) && CanRead(c, q, n)
    case Run(_, _) => c.pc.Gate? && GateOpen(c)
  }

  predicate Enabled(s: Sys, st: Step) {
    Shaped(s) && if st.host then ConsoleEnabled(s.h, s.gh, st) else ConsoleEnabled(s.g, s.hg, st)
  }

  lemma PumpKeepsPc(d: nat, s: Sys, b: nat)
    requires Shaped(s)
    ensures PumpH(d, s, b).h.pc == s.h.pc && PumpH(d, s, b).g == s.g && PumpH(d, s, b).bs == s.bs
    ensures PumpG(d, s, b).g.pc == s.g.pc && PumpG(d, s, b).h == s.h && PumpG(d, s, b).bs == s.bs
    decreases |s.gh| + |s.hg|
  {
    if s.gh != [] && FrameLen(s.gh[0]) <= b { PumpKeepsPcH(d, s, b); }
    if s.hg != [] && FrameLen(s.hg[0]) <= b { PumpKeepsPcG(d, s, b); }
  }

  lemma PumpKeepsPcH(d: nat, s: Sys, b: nat)
    requires Shaped(s)
    ensures PumpH(d, s, b).h.pc == s.h.pc && PumpH(d, s, b).g == s.g && PumpH(d, s, b).bs == s.bs
    decreases |s.gh|
  {
  }

  lemma PumpKeepsPcG(d: nat, s: Sys, b: nat)
    requires Shaped(s)
    ensures PumpG(d, s, b).g.pc == s.g.pc && PumpG(d, s, b).h == s.h && PumpG(d, s, b).bs == s.bs
    decreases |s.hg|
  {
  }

  function Apply(cfg: Config, s: Sys, st: Step): (t: Sys)
    requires Enabled(s, st)
  {
    match st
    case Pump(host, n) => if host then PumpH(cfg.d, s, s.h.got + n) else PumpG(cfg.d, s, s.g.got + n)
    case Start(host, n, cell) =>
      PumpKeepsPc(cfg.d, s, (if host then s.h.got else s.g.got) + n);
      if host then CaptureH(cfg.d, PumpH(cfg.d, s, s.h.got + n), cell)
      else CaptureG(cfg.d, PumpG(cfg.d, s, s.g.got + n), cell)
    case Stall(host, n) => if host then PumpH(cfg.d, s, s.h.got + n) else PumpG(cfg.d, s, s.g.got + n)
    case Run(host, glitch) =>
      if host then PendingH(cfg.d, TickH(s, NextImg(cfg, s.h, glitch), glitch.None?))
      else PendingG(cfg.d, TickG(s, NextImg(cfg, s.g, glitch), glitch.None?))
  }

  /** `t` is reached from `s` by the steps `run`, each enabled where it is taken. */
  predicate Runs(cfg: Config, s: Sys, run: seq<Step>, t: Sys)
    decreases |run|
  {
    if run == [] then t == s
    else Enabled(s, run[0]) && Runs(cfg, Apply(cfg, s, run[0]), run[1..], t)
  }

  // ---- gluing runs --------------------------------------------------------

  lemma {:induction false} RunsConcat(cfg: Config, s: Sys, a: seq<Step>, m: Sys, b: seq<Step>, t: Sys)
    requires Runs(cfg, s, a, m) && Runs(cfg, m, b, t)
    ensures Runs(cfg, s, a + b, t)
    decreases |a|
  {
    hide Enabled, Apply;
    if a == [] {
      assert a + b == b;
    } else {
      assert (a + b)[0] == a[0] && (a + b)[1..] == a[1..] + b;
      RunsConcat(cfg, Apply(cfg, s, a[0]), a[1..], m, b, t);
    }
  }

  lemma RunOne(cfg: Config, s: Sys, st: Step)
    requires Enabled(s, st)
    ensures Runs(cfg, s, [st], Apply(cfg, s, st))
  {
    hide Enabled, Apply;
    assert Runs(cfg, Apply(cfg, s, st), [], Apply(cfg, s, st));
  }
}
