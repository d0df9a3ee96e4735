/** Where the delay stops working: the runs that break each promise beyond its range. */
module Limits {
  import opened Basics
  import opened Dispatch
  import opened Console
  import opened Match
  import opened Invariant
  import opened Lockstep
  import Check = Checksum

  lemma BytesHead(q: seq<Frame>)
    requires q != []
    ensures Bytes(q) == FrameLen(q[0]) + Bytes(q[1..])
  {
  }

  // ---- two images with different checksums --------------------------------

  function Zeros(): (r: Img)
    ensures forall i :: 0 <= i < IMG_TOTAL ==> r[i] == 0
  {
    seq(IMG_TOTAL, _ => 0)
  }

  /** A quiescent image: only the match-over cell is set. */
  function Over(): Img { Zeros()[QUIET_POS := 1] }

  lemma ChecksumsDiffer()
    ensures Check.Cksum(Zeros()) != Check.Cksum(Over())
    ensures Quiet(Over())
  {
    hide Check.Fold, Check.RotAdd;
    Check.OneCell(Zeros(), Over(), QUIET_POS);
  }

  // ---- d = 0: the gate never waits ----------------------------------------

  /** With no delay the watermark starts at 255, both sides run at once, and they read different cells. */
  lemma ZeroDelayDisagrees(cfg: Config, img: Img) returns (run: seq<Step>, t: Sys)
    requires cfg.d == 0
    ensures Runs(cfg, Init(0, img), run, t) && |t.bs| == 1
    ensures (0, 0) in t.h.log && (0, 0) in t.g.log && t.h.log[(0, 0)].cells != t.g.log[(0, 0)].cells
  {
    hide Check.Cksum, TickEvents, PushFrames;
    var push := Cell(0x02, 0);
    var s0 := Init(0, img);
    var a := [Start(true, 0, push), Run(true, None)];
    var s1 := Apply(cfg, s0, a[0]);
    var s2 := Apply(cfg, s1, a[1]);
    assert s1.h.own[0] == push && s1.h.pc.Gate? && s1.g == s0.g;
    assert s2.h.log[(0, 0)].cells.seat0.cur == push && s2.g == s0.g;
    RunOne(cfg, s0, a[0]);
    RunOne(cfg, s1, a[1]);
    RunsConcat(cfg, s0, [a[0]], s1, [a[1]], s2);
    var b := [Start(false, 0, IDLE), Run(false, None)];
    var s3 := Apply(cfg, s2, b[0]);
    var s4 := Apply(cfg, s3, b[1]);
    assert s3.g.rmt == IdleRing() && s3.h == s2.h && s3.g.pc.Gate?;
    assert s4.g.log[(0, 0)].cells.seat0.cur == IDLE && s4.h == s3.h;
    RunOne(cfg, s2, b[0]);
    RunOne(cfg, s3, b[1]);
    RunsConcat(cfg, s2, [b[0]], s3, [b[1]], s4);
    run, t := [a[0]] + [a[1]] + ([b[0]] + [b[1]]), s4;
    RunsConcat(cfg, s0, [a[0]] + [a[1]], s2, [b[0]] + [b[1]], s4);
  }

  // ---- d >= 16: the lead is outrun ----------------------------------------

  const STRAY := Cell(0x02, 0)

  /** At the top of a pass, outside a hold, with nothing half read. */
  ghost predicate Ready(c: Console) {
    c.pc.Top? && !c.hold && c.got == 0 && |c.recs| == 8
  }

  /** The input in hand covers this tick (and is not absurdly far ahead). */
  ghost predicate Fed(c: Console) {
    c.tick <= c.wm < c.tick + 1000
  }

  /** What a pass without reading leaves of a console: the next tick, and its own ring one capture on. */
  ghost predicate Lapped(d: nat, c: Console, c': Console, cell: Cell) {
    && Ready(c') && c'.seat == c.seat && c'.tick == c.tick + 1 && c'.wm == c.wm && c'.ep == c.ep && c'.pend == c.pend
    && c'.rmt == c.rmt && c'.own == c.own[Slot(c.tick + d) := cell]
    && c'.log.Keys == c.log.Keys + {(c.ep, c.tick)}
    && (forall k :: k in c.log && k != (c.ep, c.tick) ==> c'.log[k] == c.log[k])
    && c'.log[(c.ep, c.tick)].cells == ReadCells(c.(own := c'.own))
  }

  lemma LapConsole(d: nat, c: Console, cell: Cell, img: Img)
    requires Ready(c)
    ensures Lapped(d, c, RunTick(Capture(d, c, cell), img, true), cell)
  {
    hide Check.Cksum;
  }

  /** INPUT frames for the ticks from `x` to before `y`, in order, with CRC frames among them. */
  ghost predicate Sent(q: seq<Frame>, x: int, y: int)
    decreases |q|
  {
    if q == [] then x == y
    else if q[0].Crc? then Sent(q[1..], x, y)
    else q[0].Input? && q[0].seat == 1 && q[0].tick == x && Sent(q[1..], x + 1, y)
  }

  lemma {:induction false} SentMore(q: seq<Frame>, x: int, y: int, e: nat, cell: Cell, crc: seq<Frame>)
    requires Sent(q, x, y) && (crc == [] || (|crc| == 1 && crc[0].Crc?))
    ensures Sent(q + [Input(e, 1, y, cell)] + crc, x, y + 1)
    decreases |q|
  {
    var r := q + [Input(e, 1, y, cell)] + crc;
    if q == [] {
      assert r[1..] == crc;
      if crc != [] { assert crc[1..] == []; }
    } else {
      assert r[1..] == q[1..] + [Input(e, 1, y, cell)] + crc;
      SentMore(q[1..], if q[0].Crc? then x else x + 1, y, e, cell, crc);
    }
  }

  lemma GuestLap(cfg: Config, s: Sys, cell: Cell) returns (run: seq<Step>, t: Sys)
    requires Shaped(s) && s.g.seat == 1 && Ready(s.g) && Fed(s.g)
    ensures Runs(cfg, s, run, t) && Shaped(t)
    ensures t.h == s.h && t.hg == s.hg && t.bs == s.bs && Lapped(cfg.d, s.g, t.g, cell)
    ensures !Reports(s.g.tick) ==> t.gh == s.gh + [Input(s.g.ep, 1, s.g.tick + cfg.d, cell)]
    ensures var y, z := s.g.tick + cfg.d, s.g.tick + cfg.d + 1;
            forall x :: Sent(s.gh, x, y) ==> Sent(t.gh, x, z)
  {
    hide ReadCells, TickEvents, PushFrames, Check.Cksum, Lapped;
    var a, b := Start(false, 0, cell), Run(false, None);
    var s1 := Apply(cfg, s, a);
    assert PumpG(cfg.d, s, 0) == s;
    assert s1 == CaptureG(cfg.d, s, cell);
    t := Apply(cfg, s1, b);
    var img := NextImg(cfg, s1.g, None);
    assert t.g == RunTick(Capture(cfg.d, s.g, cell), img, true);
    LapConsole(cfg.d, s.g, cell, img);
    var crc := ReportFrames(s1.g, img);
    var y, z := s.g.tick + cfg.d, s.g.tick + cfg.d + 1;
    assert t.gh == s.gh + [Input(s.g.ep, 1, y, cell)] + crc + [] == s.gh + [Input(s.g.ep, 1, y, cell)] + crc;
    forall x | Sent(s.gh, x, y)
      ensures Sent(t.gh, x, z)
    {
      SentMore(s.gh, x, y, s.g.ep, cell, crc);
    }
    RunOne(cfg, s, a);
    RunOne(cfg, s1, b);
    RunsConcat(cfg, s, [a], s1, [b], t);
    run := [a] + [b];
  }

  lemma HostLap(cfg: Config, s: Sys, cell: Cell) returns (run: seq<Step>, t: Sys, sent: seq<Frame>)
    requires Shaped(s) && s.h.seat == 0 && Ready(s.h) && Fed(s.h) && !s.h.pend
    ensures Runs(cfg, s, run, t) && Shaped(t)
    ensures t.g == s.g && t.gh == s.gh && t.bs == s.bs && Lapped(cfg.d, s.h, t.h, cell)
    ensures t.hg == s.hg + sent && sent != [] && sent[0] == Input(s.h.ep, 0, s.h.tick + cfg.d, cell)
  {
    hide ReadCells, TickEvents, PushFrames, Check.Cksum, Lapped;
    var a, b := Start(true, 0, cell), Run(true, None);
    var s1 := Apply(cfg, s, a);
    assert PumpH(cfg.d, s, 0) == s;
    assert s1 == CaptureH(cfg.d, s, cell);
    t := Apply(cfg, s1, b);
    var img := NextImg(cfg, s1.h, None);
    assert t.h == RunTick(Capture(cfg.d, s.h, cell), img, true);
    LapConsole(cfg.d, s.h, cell, img);
    sent := [Input(s.h.ep, 0, s.h.tick + cfg.d, cell)] + ReportFrames(s1.h, img);
    assert t.hg == s.hg + [sent[0]] + ReportFrames(s1.h, img) + [];
    assert t.gh == s.gh && t.g == s.g;
    RunOne(cfg, s, a);
    RunOne(cfg, s1, b);
    RunsConcat(cfg, s, [a], s1, [b], t);
    run := [a] + [b];
  }

  /** INPUT frames of epoch `e` for `n` consecutive ticks from `x`. */
  function Inputs(e: nat, x: int, n: nat): seq<Frame> {
    if n == 0 then [] else Inputs(e, x, n - 1) + [Input(e, 1, x + n - 1, IDLE)]
  }

  /** `n` passes of a guest that captures only idle cells: its own ring stays as idle as it was. */
  lemma {:induction false} GuestLaps(cfg: Config, s: Sys, n: nat) returns (run: seq<Step>, t: Sys)
    requires Shaped(s) && s.g.seat == 1 && Ready(s.g) && s.g.own == IdleRing()
    requires s.g.tick + n - 1 <= s.g.wm < s.g.tick + 1000
    ensures Runs(cfg, s, run, t) && Shaped(t)
    ensures t.h == s.h && t.hg == s.hg && t.bs == s.bs
    ensures t.g.seat == 1 && Ready(t.g) && t.g.own == IdleRing() && t.g.rmt == s.g.rmt
    ensures t.g.tick == s.g.tick + n && t.g.wm == s.g.wm && t.g.ep == s.g.ep
    ensures (forall x :: s.g.tick <= x < s.g.tick + n ==> !Reports(x)) ==> t.gh == s.gh + Inputs(s.g.ep, s.g.tick + cfg.d, n)
    ensures var y, z := s.g.tick + cfg.d, s.g.tick + cfg.d + n;
            forall x :: Sent(s.gh, x, y) ==> Sent(t.gh, x, z)
    ensures forall k :: k in s.g.log && k.1 < s.g.tick ==> k in t.g.log && t.g.log[k] == s.g.log[k]
    ensures n > 0 ==> (s.g.ep, s.g.tick + n - 1) in t.g.log && t.g.log[(s.g.ep, s.g.tick + n - 1)].cells.seat1.cur == IDLE
    decreases n
  {
    hide Runs;
    if n == 0 {
      run, t := [], s;
      NoSteps(cfg, s);
      assert s.gh + [] == s.gh;
    } else {
      var a, m := GuestLaps(cfg, s, n - 1);
      var b;
      b, t := GuestLap(cfg, m, IDLE);
      assert m.g.own[Slot(m.g.tick + cfg.d) := IDLE] == IdleRing();
      RunsConcat(cfg, s, a, m, b, t);
      run := a + b;
    }
  }

  lemma NoSteps(cfg: Config, s: Sys)
    ensures Runs(cfg, s, [], s)
  {
  }

  lemma {:induction false} HostLaps(cfg: Config, s: Sys, n: nat) returns (run: seq<Step>, t: Sys, sent: seq<Frame>)
    requires Shaped(s) && s.h.seat == 0 && Ready(s.h) && !s.h.pend && n > 0
    requires s.h.tick + n - 1 <= s.h.wm < s.h.tick + 1000
    ensures Runs(cfg, s, run, t) && Shaped(t)
    ensures t.g == s.g && t.gh == s.gh && t.bs == s.bs
    ensures t.h.seat == 0 && Ready(t.h) && !t.h.pend && t.h.rmt == s.h.rmt
    ensures t.h.tick == s.h.tick + n && t.h.wm == s.h.wm && t.h.ep == s.h.ep
    ensures t.hg == s.hg + sent && sent != [] && sent[0] == Input(s.h.ep, 0, s.h.tick + cfg.d, IDLE)
    ensures (s.h.ep, s.h.tick + n - 1) in t.h.log
    ensures t.h.log[(s.h.ep, s.h.tick + n - 1)].cells.seat1.cur == s.h.rmt[Slot(s.h.tick + n - 1)]
    decreases n
  {
    hide Runs;
    if n == 1 {
      run, t, sent := HostLap(cfg, s, IDLE);
    } else {
      var a, m, first := HostLaps(cfg, s, n - 1);
      var b, more;
      b, t, more := HostLap(cfg, m, IDLE);
      RunsConcat(cfg, s, a, m, b, t);
      run, sent := a + b, first + more;
      assert s.hg + first + more == s.hg + sent;
    }
  }

  // ---- single frames ------------------------------------------------------

  lemma TakesH(d: nat, s: Sys)
    requires Shaped(s) && s.h.seat == 0 && s.gh != [] && s.gh[0].Input? && s.gh[0].seat == 1
    requires 0 < s.gh[0].tick - s.h.wm < 1000
    ensures DeliverH(d, s) ==
            s.(h := s.h.(rmt := s.h.rmt[Slot(s.gh[0].tick) := s.gh[0].cell], wm := s.gh[0].tick), gh := s.gh[1..])
  {
    assert s.hg + [] == s.hg;
  }

  lemma TakesG(d: nat, s: Sys)
    requires Shaped(s) && s.g.seat == 1 && s.hg != [] && s.hg[0].Input? && s.hg[0].seat == 0
    requires 0 < s.hg[0].tick - s.g.wm < 1000
    ensures DeliverG(d, s) ==
            s.(g := s.g.(rmt := s.g.rmt[Slot(s.hg[0].tick) := s.hg[0].cell], wm := s.hg[0].tick), hg := s.hg[1..])
  {
    assert s.gh + [] == s.gh;
  }

  /** The host reads one frame whole and handles it, at the top of a pass. */
  lemma HostReadsInput(cfg: Config, s: Sys) returns (run: seq<Step>)
    requires Shaped(s) && s.h.pc.Top? && s.h.got == 0 && s.gh != [] && (s.gh[0].Input? || s.gh[0].Crc?)
    ensures Runs(cfg, s, run, DeliverH(cfg.d, s))
  {
    var st := Pump(true, 7);
    var m := DeliverH(cfg.d, s);
    assert m.h.got == 0 && m.gh == s.gh[1..];
    assert PumpH(cfg.d, m, 0) == m;
    BytesHead(s.gh);
    RunOne(cfg, s, st);
    run := [st];
  }

  lemma {:induction false} HostRefusesAll(cfg: Config, s: Sys, e: nat, x: int, n: nat, rest: seq<Frame>) returns (run: seq<Step>)
    requires Shaped(s) && s.h.pc.Top? && s.h.got == 0
    requires s.gh == Inputs(e, x, n) + rest
    requires s.h.wm - 1000 < x && x + n - 1 <= s.h.wm
    ensures Runs(cfg, s, run, s.(gh := rest))
    decreases n
  {
    hide Runs;
    if n == 0 {
      run := [];
      NoSteps(cfg, s);
      assert Inputs(e, x, 0) + rest == rest;
    } else {
      var last := [Input(e, 1, x + n - 1, IDLE)];
      assert s.gh == Inputs(e, x, n - 1) + (last + rest);
      var a := HostRefusesAll(cfg, s, e, x, n - 1, last + rest);
      var m := s.(gh := last + rest);
      var b := HostReadsInput(cfg, m);
      assert DeliverH(cfg.d, m) == s.(gh := rest) by { assert (last + rest)[1..] == rest && m.hg + [] == m.hg; }
      RunsConcat(cfg, s, a, m, b, s.(gh := rest));
      run := a + b;
    }
  }

  /** The guest may read: at the top of a pass, or waiting at the gate. */
  ghost predicate MayRead(c: Console) {
    c.got == 0 && (c.pc.Top? || c.wm < c.tick < c.wm + 1000)
  }

  function ReadStep(c: Console, n: nat): Step {
    if c.pc.Top? then Pump(false, n) else Stall(false, n)
  }

  /** The bytes already buffered do not matter to what a frame does. */
  lemma SameFrame(d: nat, c: Console, f: Frame, n: nat)
    requires |c.recs| == 8
    ensures OnFrame(d, c.(got := n), f) == (OnFrame(d, c, f).0.(got := n), OnFrame(d, c, f).1)
  {
    hide Clamp, Splice, IdleRing;
    match f
    case Input(_, _, _, _) =>
    case Crc(_, _, _, _) =>
    case Resync(_, _) =>
    case Begin(_, r) =>
    case Data(_, pos, b) =>
    case End(_) =>
  }

  lemma SameDelivery(d: nat, s: Sys, n: nat)
    requires Shaped(s) && s.hg != []
    ensures var m := DeliverG(d, s);
            DeliverG(d, s.(g := s.g.(got := n))) == m.(g := m.g.(got := n))
    ensures DeliverG(d, s).g.got == s.g.got
  {
    hide OnFrame;
    SameFrame(d, s.g, s.hg[0], n);
    SameFrame(d, s.g, s.hg[0], s.g.got);
    assert s.g.(got := s.g.got) == s.g;
  }

  lemma PumpOne(d: nat, s: Sys, n: nat)
    requires Shaped(s) && s.g.got == 0 && s.hg != []
    ensures PumpG(d, s.(g := s.g.(got := n)), FrameLen(s.hg[0])) == DeliverG(d, s)
  {
    hide OnFrame;
    SameDelivery(d, s, n);
    var m := DeliverG(d, s.(g := s.g.(got := n)));
    assert PumpG(d, m, 0) == m.(g := m.g.(got := 0));
  }

  /** The guest reads the head frame whole, in two reads if it must. */
  lemma GuestReadsHead(cfg: Config, s: Sys) returns (run: seq<Step>)
    requires Shaped(s) && MayRead(s.g) && s.hg != [] && FrameLen(s.hg[0]) <= 100
    ensures Runs(cfg, s, run, DeliverG(cfg.d, s))
  {
    hide OnFrame;
    var f, m := s.hg[0], DeliverG(cfg.d, s);
    BytesHead(s.hg);
    PumpOne(cfg.d, s, 0);
    assert s.(g := s.g.(got := 0)) == s;
    if FrameLen(f) <= READ_MAX {
      var st := ReadStep(s.g, FrameLen(f));
      RunOne(cfg, s, st);
      run := [st];
    } else {
      var a, b := ReadStep(s.g, READ_MAX), ReadStep(s.g, FrameLen(f) - READ_MAX);
      var s1 := s.(g := s.g.(got := READ_MAX));
      assert PumpG(cfg.d, s, READ_MAX) == s1;
      PumpOne(cfg.d, s, READ_MAX);
      RunOne(cfg, s, a);
      RunOne(cfg, s1, b);
      RunsConcat(cfg, s, [a], s1, [b], m);
      run := [a] + [b];
    }
  }

  // ---- reading a whole push -----------------------------------------------

  /** The guest after END: at R with idle rings, wherever in its pass it was. */
  ghost predicate Adopted(d: nat, c: Console, c': Console, r: int) {
    && c'.pc == c.pc && c'.seat == c.seat && c'.got == 0 && !c'.hold && !c'.pend && |c'.recs| == 8
    && c'.tick == r && c'.wm == r + d - 1 && c'.ep == c.ep + 1 && c'.own == IdleRing()
  }

  lemma ChunkTaken(d: nat, s: Sys)
    requires Shaped(s) && s.hg != [] && s.hg[0].Data?
    ensures var t := DeliverG(d, s);
            && t.h == s.h && t.gh == s.gh && t.hg == s.hg[1..]
            && t.g == s.g.(img := t.g.img, pos := t.g.pos)
  {
    hide Splice;
    assert s.gh + [] == s.gh;
  }

  lemma EndTaken(d: nat, s: Sys)
    requires Shaped(s) && s.hg != [] && s.hg[0].End? && s.g.hold && s.g.got == 0
    ensures var t := DeliverG(d, s);
            t.h == s.h && t.gh == s.gh && t.hg == s.hg[1..] && Adopted(d, s.g, t.g, s.g.r)
  {
    hide Clamp;
    assert s.gh + [] == s.gh;
  }

  lemma {:induction false} GuestReadsChunks(cfg: Config, s: Sys, e: nat, img: Img, pos: nat, rest: seq<Frame>)
    returns (run: seq<Step>, t: Sys)
    requires Shaped(s) && MayRead(s.g) && s.g.hold && pos <= IMG_TOTAL && s.hg == Chunks(e, img, pos) + rest
    ensures Runs(cfg, s, run, t) && Shaped(t)
    ensures t.h == s.h && t.gh == s.gh && t.hg == rest && Adopted(cfg.d, s.g, t.g, s.g.r)
    decreases IMG_TOTAL - pos
  {
    hide Runs, DeliverG, Adopted;
    var a := GuestReadsHead(cfg, s);
    var m := DeliverG(cfg.d, s);
    if pos == IMG_TOTAL {
      EndTaken(cfg.d, s);
      run, t := a, m;
      assert s.hg[1..] == rest;
    } else {
      ChunkTaken(cfg.d, s);
      assert s.hg[1..] == Chunks(e, img, pos + ChunkLen(pos)) + rest;
      var b;
      b, t := GuestReadsChunks(cfg, m, e, img, pos + ChunkLen(pos), rest);
      AdoptedSame(cfg.d, s.g, m.g, t.g);
      RunsConcat(cfg, s, a, m, b, t);
      run := a + b;
    }
  }

  lemma AdoptedSame(d: nat, c: Console, m: Console, t: Console)
    requires m.pc == c.pc && m.seat == c.seat && m.ep == c.ep && m.r == c.r && Adopted(d, m, t, m.r)
    ensures Adopted(d, c, t, c.r)
  {
  }

  lemma GuestReadsPush(cfg: Config, s: Sys, e: nat, r: int, img: Img, rest: seq<Frame>) returns (run: seq<Step>, t: Sys)
    requires Shaped(s) && MayRead(s.g) && s.hg == PushFrames(e, r, img) + rest
    ensures Runs(cfg, s, run, t) && Shaped(t)
    ensures t.h == s.h && t.gh == s.gh && t.hg == rest && Adopted(cfg.d, s.g, t.g, r)
  {
    hide Runs, Adopted, Chunks;
    var a := GuestReadsHead(cfg, s);
    var m := DeliverG(cfg.d, s);
    assert s.hg[0] == Begin(e, r) && s.hg[1..] == Chunks(e, img, 0) + rest;
    assert m == s.(g := EnterHold(s.g, r), hg := s.hg[1..]) by { assert s.gh + [] == s.gh; }
    var b;
    b, t := GuestReadsChunks(cfg, m, e, img, 0, rest);
    AdoptedSame(cfg.d, s.g.(r := r), m.g, t.g);
    assert Adopted(cfg.d, s.g, t.g, r) by { AdoptedFor(cfg.d, s.g, t.g, r); }
    RunsConcat(cfg, s, a, m, b, t);
    run := a + b;
  }

  lemma AdoptedFor(d: nat, c: Console, t: Console, r: int)
    requires Adopted(d, c.(r := r), t, r)
    ensures Adopted(d, c, t, r)
  {
  }

  // ---- the run that outruns the lead --------------------------------------

  /** A console that has run tick 0 to `img` on idle cells and, so far, noticed nothing. */
  ghost predicate Opened(c: Console, seat: nat, wm: int, img: Img) {
    && c.seat == seat && Ready(c) && c.tick == 1 && c.wm == wm && c.ep == 0 && !c.pend
    && c.own == IdleRing() && c.recs == NO_RECS[0 := Rec(0, Check.Cksum(img))]
  }

  lemma OpenTick(d: nat, c: Console, img: Img)
    requires c.seat < 2 && Ready(c) && c.tick == 0 && c.ep == 0 && !c.pend && c.own == IdleRing() && c.recs == NO_RECS
    ensures Opened(RunTick(Capture(d, c, IDLE), img, false), c.seat, c.wm, img)
  {
    hide Check.Cksum;
    assert c.own[Slot(d) := IDLE] == IdleRing();
  }

  lemma HostOpens(cfg: Config, img: Img) returns (run: seq<Step>, t: Sys)
    requires 16 <= cfg.d < 256
    ensures Runs(cfg, Init(cfg.d, img), run, t) && Shaped(t)
    ensures Opened(t.h, 0, cfg.d - 1, Over()) && t.g == Fresh(1, cfg.d, img) && t.gh == []
    ensures t.hg == [Input(0, 0, cfg.d, IDLE), Crc(0, 0, 0, Check.Cksum(Over()))]
  {
    hide Check.Cksum, Opened, PushFrames, ReadCells;
    var s, a, b := Init(cfg.d, img), Start(true, 0, IDLE), Run(true, Some(Over()));
    var s1 := Apply(cfg, s, a);
    assert s1 == CaptureH(cfg.d, s, IDLE);
    t := Apply(cfg, s1, b);
    OpenTick(cfg.d, s.h, Over());
    assert t.h == RunTick(Capture(cfg.d, s.h, IDLE), Over(), false);
    RunOne(cfg, s, a);
    RunOne(cfg, s1, b);
    RunsConcat(cfg, s, [a], s1, [b], t);
    run := [a] + [b];
  }

  lemma GuestOpens(cfg: Config, s: Sys, img: Img) returns (run: seq<Step>, t: Sys)
    requires 16 <= cfg.d < 256 && Shaped(s) && s.g == Fresh(1, cfg.d, img) && s.gh == []
    requires exists k :: s.hg == [Input(0, 0, cfg.d, IDLE), Crc(0, 0, 0, k)]
    ensures Runs(cfg, s, run, t) && Shaped(t)
    ensures t.h == s.h && t.hg == [] && Opened(t.g, 1, cfg.d, Zeros())
    ensures t.gh == [Input(0, 1, cfg.d, IDLE), Crc(0, 1, 0, Check.Cksum(Zeros()))]
  {
    hide Check.Cksum, Opened, PushFrames, ReadCells, Mismatch;
    var a, b := Start(false, 14, IDLE), Run(false, Some(Zeros()));
    var p1 := DeliverG(cfg.d, s);
    TakesG(cfg.d, s);
    var p2 := DeliverG(cfg.d, p1);
    assert !HasRec(p1.g, 0);
    assert !Mismatch(p1.g, p1.hg[0]) by { NoMatch(p1.g, p1.hg[0]); }
    assert p2 == p1.(hg := [], g := p1.g.(early := p1.g.early + {(0, 0)}));
    BytesHead(s.hg);
    BytesHead(s.hg[1..]);
    assert PumpG(cfg.d, s, 14) == PumpG(cfg.d, p1, 7) == PumpG(cfg.d, p2, 0) == p2;
    var s1 := Apply(cfg, s, a);
    assert s1 == CaptureG(cfg.d, p2, IDLE);
    t := Apply(cfg, s1, b);
    OpenTick(cfg.d, p2.g, Zeros());
    RunOne(cfg, s, a);
    RunOne(cfg, s1, b);
    RunsConcat(cfg, s, [a], s1, [b], t);
    run := [a] + [b];
  }

  lemma NoMatch(c: Console, f: Frame)
    requires f.Crc? && |c.recs| == 8 && !HasRec(c, f.tick)
    ensures !Mismatch(c, f)
  {
  }

  /** The host pushed at tick 2: it stands at R = 18, the guest still in epoch 0. */
  ghost predicate PushedAt(d: nat, s: Sys) {
    && Shaped(s) && s.gh == [] && s.hg == [Input(0, 0, d + 1, IDLE)] + PushFrames(1, 18, Over())
    && s.h.seat == 0 && Ready(s.h) && !s.h.pend && s.h.tick == 18 && s.h.wm == 17 + d && s.h.ep == 1
    && Opened(s.g, 1, d, Zeros())
  }

  /** The host's second pass: the guest's checksum differs, and the image is quiet, so it pushes. */
  lemma HostPushes(cfg: Config, s: Sys) returns (run: seq<Step>, t: Sys)
    requires 16 <= cfg.d < 256 && Shaped(s) && Opened(s.h, 0, cfg.d - 1, Over()) && Opened(s.g, 1, cfg.d, Zeros())
    requires s.hg == [] && s.gh == [Input(0, 1, cfg.d, IDLE), Crc(0, 1, 0, Check.Cksum(Zeros()))]
    ensures Runs(cfg, s, run, t) && PushedAt(cfg.d, t)
  {
    hide Check.Cksum, Clamp, PushFrames, ReadCells;
    ChecksumsDiffer();
    var a, b := Start(true, 14, IDLE), Run(true, Some(Over()));
    var p1 := DeliverH(cfg.d, s);
    TakesH(cfg.d, s);
    var p2 := DeliverH(cfg.d, p1);
    assert Mismatch(p1.h, p1.gh[0]);
    assert p2.h.pend && p2.gh == [] && p2.hg == [] && p2.g == s.g;
    assert p2.h == p1.h.(pend := true, ptmo := 0, early := p2.h.early);
    BytesHead(s.gh);
    BytesHead(s.gh[1..]);
    assert PumpH(cfg.d, s, 14) == PumpH(cfg.d, p1, 7) == PumpH(cfg.d, p2, 0) == p2;
    var s1 := Apply(cfg, s, a);
    assert s1 == CaptureH(cfg.d, p2, IDLE);
    t := Apply(cfg, s1, b);
    PushNow(cfg, s1);
    RunOne(cfg, s, a);
    RunOne(cfg, s1, b);
    RunsConcat(cfg, s, [a], s1, [b], t);
    run := [a] + [b];
  }

  lemma PushNow(cfg: Config, s: Sys)
    requires 16 <= cfg.d < 256 && Shaped(s) && s.h.seat == 0 && s.h.pc.Gate? && !s.h.hold && s.h.got == 0 && s.h.pend
    requires s.h.tick == 1 && s.h.wm == cfg.d && s.h.ep == 0 && Quiet(Over())
    requires s.gh == [] && s.hg == [Input(0, 0, cfg.d + 1, IDLE)] && Opened(s.g, 1, cfg.d, Zeros())
    ensures Enabled(s, Run(true, Some(Over()))) && PushedAt(cfg.d, Apply(cfg, s, Run(true, Some(Over()))))
  {
    hide Check.Cksum, Clamp, PushFrames, ReadCells, Opened;
    var m := TickH(s, Over(), false);
    assert m.hg == s.hg && m.h.tick == 2 && m.h.img == Over() && m.h.pend && !m.h.hold;
    assert Pushes(m.h);
  }

  /** The guest, ahead of the push, has captured a live input for tick R + d. */
  ghost predicate Strayed(d: nat, s: Sys) {
    && Shaped(s) && s.hg == PushFrames(1, 18, Over())
    && s.gh == Inputs(0, d + 1, 17) + [Input(0, 1, 18 + d, STRAY)]
    && s.h.seat == 0 && Ready(s.h) && !s.h.pend && s.h.tick == 18 && s.h.wm == 17 + d && s.h.ep == 1
    && s.g.seat == 1 && s.g.pc.Gate? && !s.g.hold && s.g.got == 0 && s.g.tick == 18 && s.g.wm == d + 1 && s.g.ep == 0
  }

  lemma GuestStrays(cfg: Config, s: Sys) returns (run: seq<Step>, t: Sys)
    requires 16 <= cfg.d < 256 && PushedAt(cfg.d, s)
    ensures Runs(cfg, s, run, t) && Strayed(cfg.d, t)
  {
    hide Runs, PushFrames, Check.Cksum, Inputs;
    var a := GuestReadsHead(cfg, s);
    var s1 := DeliverG(cfg.d, s);
    TakesG(cfg.d, s);
    assert s1.hg == PushFrames(1, 18, Over());
    var b, s2 := GuestLaps(cfg, s1, 17);
    assert s2.gh == Inputs(0, cfg.d + 1, 17) by { assert [] + Inputs(0, cfg.d + 1, 17) == Inputs(0, cfg.d + 1, 17); }
    var st := Start(false, 0, STRAY);
    assert PumpG(cfg.d, s2, 0) == s2;
    t := Apply(cfg, s2, st);
    assert t == CaptureG(cfg.d, s2, STRAY);
    RunOne(cfg, s2, st);
    RunsConcat(cfg, s, a, s1, b, s2);
    RunsConcat(cfg, s, a + b, s2, [st], t);
    run := a + b + [st];
  }

  /** The host takes the stray input into its new epoch and plays tick R + d on it. */
  lemma HostTakesStray(cfg: Config, s: Sys) returns (run: seq<Step>, t: Sys, sent: seq<Frame>)
    requires 16 <= cfg.d < 256 && Strayed(cfg.d, s)
    ensures Runs(cfg, s, run, t) && Shaped(t)
    ensures t.g == s.g && t.hg == s.hg + sent && sent != [] && sent[0] == Input(1, 0, 18 + cfg.d, IDLE)
    ensures (1, 18 + cfg.d) in t.h.log && t.h.log[(1, 18 + cfg.d)].cells.seat1.cur == STRAY
  {
    hide Runs, PushFrames, Inputs;
    var a := HostRefusesAll(cfg, s, 0, cfg.d + 1, 17, [Input(0, 1, 18 + cfg.d, STRAY)]);
    var s1 := s.(gh := [Input(0, 1, 18 + cfg.d, STRAY)]);
    var b := HostReadsInput(cfg, s1);
    var s2 := DeliverH(cfg.d, s1);
    TakesH(cfg.d, s1);
    var c;
    c, t, sent := HostLaps(cfg, s2, cfg.d + 1);
    RunsConcat(cfg, s, a, s1, b, s2);
    RunsConcat(cfg, s, a + b, s2, c, t);
    run := a + b + c;
  }

  /** The guest finishes or leaves tick 18 of the old epoch, whichever its gate says, and may read on. */
  lemma GuestFreed(cfg: Config, s: Sys) returns (run: seq<Step>, t: Sys)
    requires 16 <= cfg.d < 256 && Shaped(s)
    requires s.g.seat == 1 && s.g.pc.Gate? && !s.g.hold && s.g.got == 0 && s.g.tick == 18 && s.g.wm == cfg.d + 1 && s.g.ep == 0
    ensures Runs(cfg, s, run, t) && Shaped(t) && t.h == s.h && t.hg == s.hg
    ensures MayRead(t.g) && t.g.seat == 1 && t.g.ep == 0
  {
    hide ReadCells, TickEvents, PushFrames, Check.Cksum;
    if cfg.d == 16 {
      run, t := [], s;
    } else {
      var st := Run(false, None);
      t := Apply(cfg, s, st);
      RunOne(cfg, s, st);
      run := [st];
    }
  }

  /** After the rebase, a guest still inside its gate runs tick R; then it is at the top of a pass. */
  lemma GuestResumes(cfg: Config, s: Sys, c: Console) returns (run: seq<Step>, t: Sys)
    requires 16 <= cfg.d < 256 && Shaped(s) && c.seat == 1 && c.ep == 0 && Adopted(cfg.d, c, s.g, 18)
    ensures Runs(cfg, s, run, t) && Shaped(t) && t.h == s.h && t.hg == s.hg
    ensures Ready(t.g) && t.g.seat == 1 && t.g.ep == 1 && t.g.own == IdleRing() && t.g.wm == 17 + cfg.d && 18 <= t.g.tick <= 19
  {
    hide ReadCells, TickEvents, PushFrames, Check.Cksum;
    if s.g.pc.Top? {
      run, t := [], s;
    } else {
      var st := Run(false, None);
      t := Apply(cfg, s, st);
      RunOne(cfg, s, st);
      run := [st];
    }
  }

  lemma GuestPlaysIdle(cfg: Config, s: Sys, img: Img, rest: seq<Frame>) returns (run: seq<Step>, t: Sys)
    requires 16 <= cfg.d < 256 && Shaped(s) && s.hg == PushFrames(1, 18, img) + rest
    requires rest != [] && rest[0] == Input(1, 0, 18 + cfg.d, IDLE)
    requires s.g.seat == 1 && s.g.pc.Gate? && !s.g.hold && s.g.got == 0 && s.g.tick == 18 && s.g.wm == cfg.d + 1 && s.g.ep == 0
    ensures Runs(cfg, s, run, t) && t.h == s.h
    ensures (1, 18 + cfg.d) in t.g.log && t.g.log[(1, 18 + cfg.d)].cells.seat1.cur == IDLE
  {
    hide Runs, PushFrames, Adopted;
    var a, s1 := GuestFreed(cfg, s);
    var b, s2 := GuestReadsPush(cfg, s1, 1, 18, img, rest);
    var c, s3 := GuestResumes(cfg, s2, s1.g);
    var e := GuestReadsHead(cfg, s3);
    var s4 := DeliverG(cfg.d, s3);
    TakesG(cfg.d, s3);
    var f;
    f, t := GuestLaps(cfg, s4, 19 + cfg.d - s4.g.tick);
    RunsConcat(cfg, s, a, s1, b, s2);
    RunsConcat(cfg, s, a + b, s2, c, s3);
    RunsConcat(cfg, s, a + b + c, s3, e, s4);
    RunsConcat(cfg, s, a + b + c + e, s4, f, t);
    run := a + b + c + e + f;
  }

  /** With a delay of 16 or more, a stale input outruns the lead of 16 ticks and the two sides disagree. */
  lemma LongDelayDisagrees(cfg: Config, img: Img) returns (run: seq<Step>, t: Sys)
    requires 16 <= cfg.d < 256
    ensures Runs(cfg, Init(cfg.d, img), run, t)
    ensures (1, 18 + cfg.d) in t.h.log && (1, 18 + cfg.d) in t.g.log
    ensures t.h.log[(1, 18 + cfg.d)].cells != t.g.log[(1, 18 + cfg.d)].cells
  {
    hide Runs, Opened, Init, PushFrames, Inputs;
    var s := Init(cfg.d, img);
    var a, s1 := HostOpens(cfg, img);
    var b, s2 := GuestOpens(cfg, s1, img);
    var c, s3 := HostPushes(cfg, s2);
    var e, s4 := GuestStrays(cfg, s3);
    var f, s5, sent := HostTakesStray(cfg, s4);
    var g;
    g, t := GuestPlaysIdle(cfg, s5, Over(), sent);
    RunsConcat(cfg, s, a, s1, b, s2);
    RunsConcat(cfg, s, a + b, s2, c, s3);
    RunsConcat(cfg, s, a + b + c, s3, e, s4);
    RunsConcat(cfg, s, a + b + c + e, s4, f, s5);
    RunsConcat(cfg, s, a + b + c + e + f, s5, g, t);
    run := a + b + c + e + f + g;
  }

  // ---- d >= 128: the ring is overrun --------------------------------------

  /** What reading input and checksums leaves of the host. */
  ghost predicate HeldStill(c: Console, c': Console) {
    && Ready(c') && c'.seat == c.seat && c'.tick == c.tick && c'.ep == c.ep && c'.log == c.log
    && c'.ptmo == c.ptmo && c'.own == c.own
  }

  lemma HostHandles(d: nat, s: Sys)
    requires Shaped(s) && s.h.seat == 0 && Ready(s.h) && s.h.ptmo == 0 && s.gh != []
    requires s.gh[0].Crc? || (s.gh[0].Input? && s.gh[0].seat == 1 && s.gh[0].tick == s.h.wm + 1)
    ensures var t := DeliverH(d, s);
            && HeldStill(s.h, t.h) && t.h.wm == (if s.gh[0].Crc? then s.h.wm else s.h.wm + 1)
            && t.g == s.g && t.bs == s.bs && t.gh == s.gh[1..]
  {
    hide Mismatch;
  }

  lemma {:induction false} HostReadsSent(cfg: Config, s: Sys, x: int, y: int, rest: seq<Frame>, q: seq<Frame>)
    returns (run: seq<Step>, t: Sys)
    requires Shaped(s) && s.h.seat == 0 && Ready(s.h) && s.h.ptmo == 0 && s.h.wm + 1 == x
    requires s.gh == q + rest && Sent(q, x, y)
    ensures Runs(cfg, s, run, t) && Shaped(t) && HeldStill(s.h, t.h) && t.h.wm + 1 == y
    ensures t.g == s.g && t.bs == s.bs && t.gh == rest
    decreases |q|
  {
    hide Runs, DeliverH;
    if q == [] {
      run, t := [], s;
      NoSteps(cfg, s);
      assert s.gh == rest;
    } else {
      var a := HostReadsInput(cfg, s);
      var m := DeliverH(cfg.d, s);
      HostHandles(cfg.d, s);
      assert m.gh == q[1..] + rest;
      var b;
      b, t := HostReadsSent(cfg, m, if q[0].Crc? then x else x + 1, y, rest, q[1..]);
      RunsConcat(cfg, s, a, m, b, t);
      run := a + b;
    }
  }

  /** A host that has just run tick 0, on an image that is not quiet. */
  lemma HostBegins(cfg: Config, img: Img) returns (run: seq<Step>, t: Sys)
    requires 128 <= cfg.d < 256
    ensures Runs(cfg, Init(cfg.d, img), run, t) && Shaped(t)
    ensures t.h.seat == 0 && Ready(t.h) && t.h.tick == 1 && t.h.wm == cfg.d - 1 && t.h.ep == 0 && t.h.ptmo == 0
    ensures t.g == Fresh(1, cfg.d, img) && t.gh == [] && |t.bs| == 1
    ensures t.hg != [] && t.hg[0] == Input(0, 0, cfg.d, IDLE)
  {
    hide Check.Cksum, PushFrames, ReadCells;
    var s, a, b := Init(cfg.d, img), Start(true, 0, IDLE), Run(true, Some(Zeros()));
    var s1 := Apply(cfg, s, a);
    assert s1 == CaptureH(cfg.d, s, IDLE);
    t := Apply(cfg, s1, b);
    RunOne(cfg, s, a);
    RunOne(cfg, s1, b);
    RunsConcat(cfg, s, [a], s1, [b], t);
    run := [a] + [b];
  }

  /** The guest, fed that one input, plays on until it captures a live cell for tick 257. */
  lemma GuestOutruns(cfg: Config, s: Sys, img: Img) returns (run: seq<Step>, t: Sys, q: seq<Frame>)
    requires 128 <= cfg.d < 256 && Shaped(s) && s.g == Fresh(1, cfg.d, img) && s.gh == []
    requires s.hg != [] && s.hg[0] == Input(0, 0, cfg.d, IDLE)
    ensures Runs(cfg, s, run, t) && Shaped(t) && t.h == s.h && t.bs == s.bs
    ensures t.gh == q + [Input(0, 1, 257, STRAY)] && Sent(q, cfg.d, 257)
    ensures (0, 1) in t.g.log && t.g.log[(0, 1)].cells.seat1.cur == IDLE
  {
    hide Runs, Check.Cksum, ReadCells, TickEvents;
    var a := GuestReadsHead(cfg, s);
    var s1 := DeliverG(cfg.d, s);
    TakesG(cfg.d, s);
    var b, s2 := GuestLaps(cfg, s1, 2);
    var c, s3 := GuestLaps(cfg, s2, 255 - cfg.d);
    q := s3.gh;
    var y, z := s1.g.tick + cfg.d, s1.g.tick + cfg.d + 2;
    assert Sent(s1.gh, cfg.d, y);
    assert Sent(s2.gh, cfg.d, z);
    var st := Start(false, 0, STRAY);
    assert PumpG(cfg.d, s3, 0) == s3;
    t := Apply(cfg, s3, st);
    assert t == CaptureG(cfg.d, s3, STRAY);
    RunOne(cfg, s3, st);
    RunsConcat(cfg, s, a, s1, b, s2);
    RunsConcat(cfg, s, a + b, s2, c, s3);
    RunsConcat(cfg, s, a + b + c, s3, [st], t);
    run := a + b + c + [st];
  }

  /** The host reads it all at the top of its second pass: tick 257 lands on the slot of tick 1. */
  lemma HostOverrun(cfg: Config, s: Sys, q: seq<Frame>) returns (run: seq<Step>, t: Sys)
    requires 128 <= cfg.d < 256 && Shaped(s)
    requires s.h.seat == 0 && Ready(s.h) && s.h.tick == 1 && s.h.wm == cfg.d - 1 && s.h.ep == 0 && s.h.ptmo == 0
    requires s.gh == q + [Input(0, 1, 257, STRAY)] && Sent(q, cfg.d, 257)
    ensures Runs(cfg, s, run, t) && t.g == s.g && |t.bs| == |s.bs|
    ensures (0, 1) in t.h.log && t.h.log[(0, 1)].cells.seat1.cur == STRAY
  {
    hide Runs, Check.Cksum, TickEvents, PushFrames;
    var a, s1 := HostReadsSent(cfg, s, cfg.d, 257, [Input(0, 1, 257, STRAY)], q);
    var b := HostReadsInput(cfg, s1);
    var s2 := DeliverH(cfg.d, s1);
    TakesH(cfg.d, s1);
    var c, e := Start(true, 0, IDLE), Run(true, Some(Zeros()));
    assert PumpH(cfg.d, s2, 0) == s2;
    var s3 := Apply(cfg, s2, c);
    assert s3 == CaptureH(cfg.d, s2, IDLE);
    t := Apply(cfg, s3, e);
    RunOne(cfg, s2, c);
    RunOne(cfg, s3, e);
    RunsConcat(cfg, s, a, s1, b, s2);
    RunsConcat(cfg, s, a + b, s2, [c], s3);
    RunsConcat(cfg, s, a + b + [c], s3, [e], t);
    run := a + b + [c] + [e];
  }

  /** From a delay of 128 on, input for a tick to come overwrites the cell of a tick not yet run, with no push at all. */
  lemma RingOverrun(cfg: Config, img: Img) returns (run: seq<Step>, t: Sys)
    requires 128 <= cfg.d < 256
    ensures Runs(cfg, Init(cfg.d, img), run, t) && |t.bs| == 1
    ensures (0, 1) in t.h.log && (0, 1) in t.g.log && t.h.log[(0, 1)].cells != t.g.log[(0, 1)].cells
  {
    hide Runs, Init;
    var s := Init(cfg.d, img);
    var a, s1 := HostBegins(cfg, img);
    var b, s2, q := GuestOutruns(cfg, s1, img);
    var c;
    c, t := HostOverrun(cfg, s2, q);
    RunsConcat(cfg, s, a, s1, b, s2);
    RunsConcat(cfg, s, a + b, s2, c, t);
    run := a + b + c;
  }

  // ---- the exact range ----------------------------------------------------

  /** In every run from START, every tick both consoles executed read the same cells. */
  ghost predicate AlwaysAgrees(cfg: Config, img: Img) {
    forall run, t, k :: Runs(cfg, Init(cfg.d, img), run, t) && k in t.h.log && k in t.g.log ==>
      t.h.log[k].cells == t.g.log[k].cells
  }

  /** Agreement across every run, resyncs included, holds for exactly the delays 1 to 15 of a delay byte. */
  lemma DelayRange(cfg: Config, img: Img)
    requires cfg.d < 256
    ensures AlwaysAgrees(cfg, img) <==> 1 <= cfg.d < LEAD
  {
    hide Runs, Init;
    if cfg.d == 0 {
      var run, t := ZeroDelayDisagrees(cfg, img);
    } else if cfg.d < LEAD {
      forall run, t, k | Runs(cfg, Init(cfg.d, img), run, t) && k in t.h.log && k in t.g.log
        ensures t.h.log[k].cells == t.g.log[k].cells
      {
        assert k == (k.0, k.1);
        Agreement(cfg, img, run, t, k.0, k.1);
      }
    } else {
      var run, t := LongDelayDisagrees(cfg, img);
    }
  }

  /** The same for the runs in which no push happens. */
  ghost predicate AgreesUnpushed(cfg: Config, img: Img) {
    forall run, t, k :: Runs(cfg, Init(cfg.d, img), run, t) && |t.bs| == 1 && k in t.h.log && k in t.g.log ==>
      t.h.log[k].cells == t.g.log[k].cells
  }

  /** Without a push, the two sides agree for exactly the delays 1 to 127. */
  lemma UnpushedRange(cfg: Config, img: Img)
    requires cfg.d < 256
    ensures AgreesUnpushed(cfg, img) <==> 1 <= cfg.d <= DELAY_MAX
  {
    hide Runs, Init;
    if cfg.d == 0 {
      var run, t := ZeroDelayDisagrees(cfg, img);
    } else if cfg.d <= DELAY_MAX {
      forall run, t, k | Runs(cfg, Init(cfg.d, img), run, t) && |t.bs| == 1 && k in t.h.log && k in t.g.log
        ensures t.h.log[k].cells == t.g.log[k].cells
      {
        assert k == (k.0, k.1);
        Agreement(cfg, img, run, t, k.0, k.1);
      }
    } else {
      var run, t := RingOverrun(cfg, img);
    }
  }
}
