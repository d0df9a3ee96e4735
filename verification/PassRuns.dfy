/**
 A pass of the byte-level console is a run of the match: Start, a Stall for each
 gate round, Run.
 */
module PassRuns {
  import opened Basics
  import opened Console
  import opened Match
  import opened Invariant
  import opened Framing
  import opened Wire
  import opened Cells
  import opened Station
  import opened Refinement
  import opened Dispatch
  import opened Image
  import opened Memory
  import S = Safety
  import L = Limits
  import Check = Checksum
  import CellRep

  function Stream(q: seq<Frame>): seq<byte>
    requires AllSendable(q)
  {
    Flat(EncodeAll(q))
  }

  // ---- the buffered count is nobody's business ------------------------------

  lemma HandledGotOne(d: nat, c: Console, n: nat, f: seq<byte>, e: nat)
    requires Fits(f) && |c.recs| == 8
    ensures var r := Handled(d, c, f, e); Handled(d, c.(got := n), f, e) == (r.0.(got := n), r.1)
  {
    hide OnFrame, Idled;
    IdledGot(c, n);
    match CellRep.Meaning(f, e, c.tick)
    case None =>
    case Some(g) => L.SameFrame(d, c, g, n);
  }

  lemma IdledGot(c: Console, n: nat)
    ensures Idled(c.(got := n)) == Idled(c).(got := n)
  {
  }

  lemma {:induction false} HandledGot(d: nat, c: Console, n: nat, fs: seq<seq<byte>>, tags: nat -> nat, k: nat)
    requires AllFit(fs) && |c.recs| == 8
    ensures var r := HandledAll(d, c, fs, tags, k); HandledAll(d, c.(got := n), fs, tags, k) == (r.0.(got := n), r.1)
    decreases |fs|
  {
    hide Handled, Fits;
    if fs != [] {
      var m := |fs| - 1;
      HandledGot(d, c, n, fs[..m], tags, k);
      KeepsShape(d, c, fs[..m], tags, k);
      HandledGotOne(d, HandledAll(d, c, fs[..m], tags, k).0, n, fs[m], tags(k + m));
    }
  }

  lemma SameHandled(d: nat, g: Console, c: Console, fs: seq<seq<byte>>, tags: nat -> nat)
    requires Same(g, c) && AllFit(fs) && |c.recs| == 8
    ensures |g.recs| == 8
    ensures Same(HandledAll(d, g, fs, tags, 0).0, HandledAll(d, c, fs, tags, 0).0)
    ensures HandledAll(d, g, fs, tags, 0).1 == HandledAll(d, c, fs, tags, 0).1
  {
    hide HandledAll;
    HandledGot(d, c, g.got, fs, tags, 0);
  }

  lemma SameTrans(a: Console, b: Console, c: Console)
    requires Same(a, b) && Same(b, c)
    ensures Same(a, c)
  {
  }

  // ---- streams ------------------------------------------------------------

  lemma StreamSplit(q: seq<Frame>, k: nat)
    requires AllSendable(q) && k <= |q|
    ensures AllSendable(q[..k]) && AllSendable(q[k..]) && Stream(q) == Flat(EncodeAll(q[..k])) + Stream(q[k..])
    ensures EncodeAll(q) == EncodeAll(q[..k]) + EncodeAll(q[k..])
  {
    hide Sendable, Encode, Flat;
    var a, b := q[..k], q[k..];
    assert q == a + b;
    EncodeSplit(a, b);
    FlatConcat(EncodeAll(a), EncodeAll(b));
  }

  lemma EncodeSplit(a: seq<Frame>, b: seq<Frame>)
    requires AllSendable(a + b)
    ensures AllSendable(a) && AllSendable(b) && EncodeAll(a + b) == EncodeAll(a) + EncodeAll(b)
  {
    hide Sendable, Encode;
    forall i | 0 <= i < |a|
      ensures Sendable(a[i])
    {
      assert (a + b)[i] == a[i];
    }
    forall i | 0 <= i < |b|
      ensures Sendable(b[i])
    {
      assert (a + b)[|a| + i] == b[i];
    }
    assert EncodeAll(a + b) == EncodeAll(a) + EncodeAll(b);
  }

  lemma EncodeParts(q: seq<Frame>, j: nat, k: nat)
    requires AllSendable(q) && j + k <= |q|
    ensures AllSendable(q[..j]) && AllSendable(q[j..][..k]) && AllSendable(q[..j + k])
    ensures EncodeAll(q[..j + k]) == EncodeAll(q[..j]) + EncodeAll(q[j..][..k])
  {
    hide Sendable, Encode;
    assert q[..j + k][..j] == q[..j] && q[..j + k][j..] == q[j..][..k];
    StreamSplit(q[..j + k], j);
  }

  /** The epochs of the frames of `q`, from the first on. */
  ghost predicate TagsOf(tags: nat -> nat, q: seq<Frame>, k: nat) {
    forall j: nat :: j < |q| ==> SameTag(tags, k, Tags(q), 0, j)
  }

  lemma TagsLater(tags: nat -> nat, q: seq<Frame>, j: nat)
    requires TagsOf(tags, q, 0) && j <= |q|
    ensures TagsOf(tags, q[j..], j)
  {
    var r := q[j..];
    forall i: nat | i < |r|
      ensures SameTag(tags, j, Tags(r), 0, i)
    {
      assert SameTag(tags, 0, Tags(q), 0, j + i);
    }
  }

  /** What has been read so far lies at the front of the stream. */
  ghost predicate Front(x: seq<byte>, s: seq<byte>) {
    |x| <= |s| && s[..|x|] == x
  }

  lemma FrontRest(x: seq<byte>, y: seq<byte>, f: seq<byte>, r: seq<byte>, s: seq<byte>)
    requires Front(x + y, f + s) && x == f + r
    ensures Front(r + y, s)
  {
    assert x + y == f + (r + y);
    assert (f + s)[..|f| + |r + y|] == f + s[..|r + y|];
    assert (f + (r + y))[|f|..] == r + y;
    assert (f + s[..|r + y|])[|f|..] == s[..|r + y|];
  }

  lemma FrontLess(x: seq<byte>, y: seq<byte>, s: seq<byte>)
    requires Front(x + y, s)
    ensures Front(x, s)
  {
    assert (x + y)[..|x|] == x;
    assert s[..|x + y|][..|x|] == s[..|x|];
  }

  // ---- one side of the match ------------------------------------------------

  ghost function Me(s: Sys, host: bool): Console { if host then s.h else s.g }

  ghost function Peer(s: Sys, host: bool): Console { if host then s.g else s.h }

  /** The frames on their way to it, and those it has sent. */
  ghost function In(s: Sys, host: bool): seq<Frame> { if host then s.gh else s.hg }

  ghost function Out(s: Sys, host: bool): seq<Frame> { if host then s.hg else s.gh }

  ghost function Pumped(d: nat, s: Sys, host: bool, b: nat): Sys
    requires Shaped(s)
  {
    if host then PumpH(d, s, b) else PumpG(d, s, b)
  }

  /** The epochs once console `x` has come to RS_PENDING. */
  ghost function Epochs(bs: seq<Base>, host: bool, x: Console): seq<Base> {
    if host && Pushes(x) then bs + [Base(x.tick + LEAD, x.img, Clamp(x.img))] else bs
  }

  /** The receiver of a console holds what the match says it holds. */
  ghost predicate Holds(s: Sys, host: bool, c: Console, b: seq<byte>) {
    && Shaped(s) && AllSendable(In(s, host)) && Same(Me(s, host), c) && |c.recs| == 8
    && Me(s, host).got <= |Stream(In(s, host))| && b == Stream(In(s, host))[..Me(s, host).got]
  }

  lemma HoldsShaped(s: Sys, host: bool, c: Console, b: seq<byte>)
    requires Holds(s, host, c, b)
    ensures Shaped(s) && AllSendable(In(s, host)) && |c.recs| == 8 && |Me(s, host).recs| == 8
  {
  }

  /** What the bytes `x` make of a console, and what it sends meanwhile. */
  ghost function Took(d: nat, c: Console, x: seq<byte>, tags: nat -> nat): (r: (Console, seq<Frame>))
    requires |c.recs| == 8
    ensures |r.0.recs| == 8
  {
    ParseShape(x);
    KeepsShape(d, c, Parse(x).frames, tags, 0);
    HandledAll(d, c, Parse(x).frames, tags, 0)
  }

  lemma TookIs(d: nat, c: Console, x: seq<byte>, tags: nat -> nat)
    requires |c.recs| == 8
    ensures AllFit(Parse(x).frames) && Took(d, c, x, tags) == HandledAll(d, c, Parse(x).frames, tags, 0)
  {
    hide Parse, HandledAll;
    ParseShape(x);
  }

  /** One read: the bytes do to the cells what the pump does in the match. */
  lemma Read(cfg: Config, s: Sys, host: bool, c: Console, b: seq<byte>, r: seq<byte>, tags: nat -> nat)
    requires Inv(cfg, s) && Holds(s, host, c, b) && TagsOf(tags, In(s, host), 0)
    requires |r| <= READ_MAX && Front(b + r, Stream(In(s, host))) && (Me(s, host).pc.Gate? ==> !GateOpen(Me(s, host)))
    ensures CanRead(Me(s, host), In(s, host), |r|)
    ensures var u, q := Pumped(cfg.d, s, host, Me(s, host).got + |r|), Parse(b + r);
            && AllFit(q.frames) && q.slips == 0
            && var w := HandledAll(cfg.d, c, q.frames, tags, 0);
            && |q.frames| <= |In(s, host)| && AllSendable(In(s, host)[..|q.frames|]) && q.frames == EncodeAll(In(s, host)[..|q.frames|])
            && In(u, host) == In(s, host)[|q.frames|..] && Out(u, host) == Out(s, host) + w.1
            && Holds(u, host, w.0, q.rest) && Peer(u, host) == Peer(s, host) && u.bs == s.bs && Me(u, host).pc == Me(s, host).pc
  {
    hide Core, Pumped, HandledAll, EncodeAll, Sendable, Parse, GateOpen, Same, Fits, Me, Peer, In, Out, CanRead;
    HoldsShaped(s, host, c, b);
    var k := PumpIs(cfg, s, host, b, r);
    var u, q := Pumped(cfg.d, s, host, Me(s, host).got + |r|), Parse(b + r);
    ParseShape(b + r);
    EncodedCount(In(s, host), k);
    DoneIs(cfg.d, Me(s, host), In(s, host), k, tags);
    SameHandled(cfg.d, Me(s, host), c, q.frames, tags);
    SameTrans(Me(u, host), HandledAll(cfg.d, Me(s, host), q.frames, tags, 0).0, HandledAll(cfg.d, c, q.frames, tags, 0).0);
    KeepsShape(cfg.d, c, q.frames, tags, 0);
  }

  /** The pump of either side, as frames, bytes and cells. */
  lemma PumpIs(cfg: Config, s: Sys, host: bool, b: seq<byte>, r: seq<byte>) returns (k: nat)
    requires Inv(cfg, s) && Shaped(s) && AllSendable(In(s, host)) && Me(s, host).got <= |Stream(In(s, host))|
    requires b == Stream(In(s, host))[..Me(s, host).got]
    requires |r| <= READ_MAX && Front(b + r, Stream(In(s, host))) && (Me(s, host).pc.Gate? ==> !GateOpen(Me(s, host)))
    ensures CanRead(Me(s, host), In(s, host), |r|) && k <= |In(s, host)| && AllSendable(In(s, host)[..k])
    ensures var u := Pumped(cfg.d, s, host, Me(s, host).got + |r|);
            var done := Done(cfg.d, Me(s, host), In(s, host), k);
            && Shaped(u) && AllSendable(In(u, host)) && Me(u, host).got <= |Stream(In(u, host))|
            && Parse(b + r) == Parsed(EncodeAll(In(s, host)[..k]), Stream(In(u, host))[..Me(u, host).got], 0)
            && In(u, host) == In(s, host)[k..] && Same(Me(u, host), done.0) && Out(u, host) == Out(s, host) + done.1
            && Peer(u, host) == Peer(s, host) && u.bs == s.bs && Me(u, host).pc == Me(s, host).pc
  {
    hide Core, PumpG, PumpH, Done, EncodeAll, Sendable, Parse, GateOpen, Same, Roomy, CanRead, Bytes, Complete, FrameLen, Inv, Flat;
    var q := In(s, host);
    var m := Me(s, host).got + |r|;
    BytesEncoded(q);
    FrontRead(b, r, Stream(q), Me(s, host).got);
    S.RoomyNow(cfg, s);
    InvCore(cfg, s);
    CompleteBound(q, m);
    ReadFits(Me(s, host), q, |r|);
    k := Complete(q, m);
    if host { HostPumpIs(cfg, s, b + r, |r|); } else { GuestPumpIs(cfg, s, b + r, |r|); }
  }

  lemma InvCore(cfg: Config, s: Sys)
    requires Inv(cfg, s)
    ensures Core(cfg, s)
  {
    hide Core;
  }

  lemma FrontRead(b: seq<byte>, r: seq<byte>, x: seq<byte>, n: nat)
    requires n <= |x| && b == x[..n] && Front(b + r, x)
    ensures n + |r| <= |x| && b + r == x[..n + |r|]
  {
  }

  lemma ReadFits(c: Console, q: seq<Frame>, n: nat)
    requires n <= READ_MAX && c.got + n <= Bytes(q)
    ensures CanRead(c, q, n)
  {
  }

  lemma HostPumpIs(cfg: Config, s: Sys, x: seq<byte>, n: nat)
    requires Shaped(s) && Core(cfg, s) && Roomy(cfg.d, s.h, s.h.got + n)
    requires AllSendable(s.gh) && s.h.got + n <= Bytes(s.gh) == |Stream(s.gh)| && x == Stream(s.gh)[..s.h.got + n]
    ensures var u, k := PumpH(cfg.d, s, s.h.got + n), Complete(s.gh, s.h.got + n);
            && k <= |s.gh| && AllSendable(s.gh[..k]) && AllSendable(u.gh) && u.h.got <= |Stream(u.gh)|
            && Parse(x) == Parsed(EncodeAll(s.gh[..k]), Stream(u.gh)[..u.h.got], 0)
            && var done := Done(cfg.d, s.h, s.gh, k);
            && u.gh == s.gh[k..] && Same(u.h, done.0) && u.hg == s.hg + done.1
            && u.g == s.g && u.bs == s.bs && u.h.pc == s.h.pc
  {
    hide Core, PumpH, Done, EncodeAll, Sendable, Parse, Same, Roomy, Bytes, Complete, FrameLen, Flat;
    CompleteBound(s.gh, s.h.got + n);
    HostPumpRefines(cfg, s, s.h.got + n);
    HostPumpBytes(cfg.d, s, n, x);
    HostPumpCount(cfg.d, s, s.h.got + n);
    PumpKeepsPcH(cfg.d, s, s.h.got + n);
  }

  lemma GuestPumpIs(cfg: Config, s: Sys, x: seq<byte>, n: nat)
    requires Shaped(s) && Core(cfg, s) && Roomy(cfg.d, s.g, s.g.got + n)
    requires AllSendable(s.hg) && s.g.got + n <= Bytes(s.hg) == |Stream(s.hg)| && x == Stream(s.hg)[..s.g.got + n]
    ensures var u, k := PumpG(cfg.d, s, s.g.got + n), Complete(s.hg, s.g.got + n);
            && k <= |s.hg| && AllSendable(s.hg[..k]) && AllSendable(u.hg) && u.g.got <= |Stream(u.hg)|
            && Parse(x) == Parsed(EncodeAll(s.hg[..k]), Stream(u.hg)[..u.g.got], 0)
            && var done := Done(cfg.d, s.g, s.hg, k);
            && u.hg == s.hg[k..] && Same(u.g, done.0) && u.gh == s.gh + done.1
            && u.h == s.h && u.bs == s.bs && u.g.pc == s.g.pc
  {
    hide Core, PumpG, Done, EncodeAll, Sendable, Parse, Same, Roomy, Bytes, Complete, FrameLen, Flat;
    CompleteBound(s.hg, s.g.got + n);
    GuestPumpRefines(cfg, s, s.g.got + n);
    GuestPumpBytes(cfg.d, s, n, x);
    GuestPumpCount(cfg.d, s, s.g.got + n);
    PumpKeepsPcG(cfg.d, s, s.g.got + n);
  }

  /** The gate rounds of a pass, each finding the gate closed, are stalls of the match. */
  lemma {:induction false} Stalls(cfg: Config, s: Sys, host: bool, c: Console, b: seq<byte>, rounds: seq<seq<byte>>, n: nat, tags: nat -> nat)
    returns (run: seq<Step>, t: Sys)
    requires Inv(cfg, s) && Holds(s, host, c, b) && TagsOf(tags, In(s, host), 0) && Me(s, host).pc.Gate? && Parse(b) == Parsed([], b, 0)
    requires n <= |rounds| && forall i :: 0 <= i < n ==> |rounds[i]| <= READ_MAX
    requires Front(b + Flat(rounds[..n]), Stream(In(s, host))) && Waited(cfg.d, c, b, rounds, n, tags)
    ensures Runs(cfg, s, run, t) && |run| == n && forall i :: 0 <= i < n ==> run[i] == Stall(host, |rounds[i]|)
    ensures Inv(cfg, t) && Me(t, host).pc.Gate? && Peer(t, host) == Peer(s, host) && t.bs == s.bs
    ensures var p := Parse(b + Flat(rounds[..n]));
            && AllFit(p.frames) && p.slips == 0
            && var w := HandledAll(cfg.d, c, p.frames, tags, 0);
            && |p.frames| <= |In(s, host)| && AllSendable(In(s, host)[..|p.frames|]) && p.frames == EncodeAll(In(s, host)[..|p.frames|])
            && In(t, host) == In(s, host)[|p.frames|..] && Out(t, host) == Out(s, host) + w.1 && Holds(t, host, w.0, p.rest)
    decreases n
  {
    hide Inv, Runs, HandledAll, EncodeAll, Sendable, Parse, GateOpen, Same, Fits, Flat, Pumped, Enabled, Apply, Holds, Front, Me, Peer, In, Out, Epochs;
    HoldsShaped(s, host, c, b);
    if n == 0 {
      run, t := [], s;
      L.NoSteps(cfg, s);
      NoneRead(cfg.d, Me(s, host), c, In(s, host), b, rounds, tags);
      assert Out(s, host) + [] == Out(s, host) && In(s, host)[0..] == In(s, host);
    } else {
      var r, x := rounds[n - 1], b + Flat(rounds[..n - 1]);
      FlatMore(rounds, n - 1);
      assert b + Flat(rounds[..n]) == x + r;
      FrontLess(x, r, Stream(In(s, host)));
      WaitedLess(cfg.d, c, b, rounds, n, tags);
      var a, m := Stalls(cfg, s, host, c, b, rounds, n - 1, tags);
      var p := Parse(x);
      var j := |p.frames|;
      var w := HandledAll(cfg.d, c, p.frames, tags, 0);
      HoldsShaped(m, host, w.0, p.rest);
      NextFront(In(s, host), j, x, r);
      TagsLater(tags, In(s, host), j);
      ShiftTags(tags, In(m, host), j);
      LastWait(cfg.d, c, b, rounds, n, tags);
      ViewIs(cfg.d, c, b, rounds[..n - 1], tags);
      Closed(m, host, w.0, p.rest);
      Read(cfg, m, host, w.0, p.rest, r, Later(tags, j));
      var st := Stall(host, |r|);
      StallIs(cfg, m, host, |r|);
      t := Pumped(cfg.d, m, host, Me(m, host).got + |r|);
      S.StepInv(cfg, m, st);
      RunOne(cfg, m, st);
      RunsConcat(cfg, s, a, m, [st], t);
      run := a + [st];
      RoundJoins(cfg.d, c, x, r, In(s, host), j, tags);
      assert Out(s, host) + w.1 + HandledAll(cfg.d, w.0, Parse(p.rest + r).frames, Later(tags, j), 0).1 ==
             Out(s, host) + (w.1 + HandledAll(cfg.d, w.0, Parse(p.rest + r).frames, Later(tags, j), 0).1);
    }
  }

  lemma Closed(m: Sys, host: bool, w: Console, b: seq<byte>)
    requires Holds(m, host, w, b) && !GateOpen(w)
    ensures !GateOpen(Me(m, host))
  {
  }

  lemma StallIs(cfg: Config, m: Sys, host: bool, n: nat)
    requires Shaped(m) && Me(m, host).pc.Gate? && !GateOpen(Me(m, host)) && CanRead(Me(m, host), In(m, host), n)
    ensures Enabled(m, Stall(host, n)) && Apply(cfg, m, Stall(host, n)) == Pumped(cfg.d, m, host, Me(m, host).got + n)
    ensures Apply(cfg, m, Stall(host, n)).bs == m.bs
  {
    hide GateOpen;
    PumpKeepsPc(cfg.d, m, Me(m, host).got + n);
  }

  // ---- one round joined to those before it ------------------------------------

  function Later(tags: nat -> nat, j: nat): nat -> nat {
    (i: nat) => tags(j + i)
  }

  lemma ShiftTags(tags: nat -> nat, q: seq<Frame>, j: nat)
    requires TagsOf(tags, q, j)
    ensures TagsOf(Later(tags, j), q, 0)
  {
    forall i: nat | i < |q|
      ensures SameTag(Later(tags, j), 0, Tags(q), 0, i)
    {
      assert SameTag(tags, j, Tags(q), 0, i);
    }
  }

  lemma DoneIs(d: nat, c: Console, q: seq<Frame>, k: nat, tags: nat -> nat)
    requires AllSendable(q) && k <= |q| && |c.recs| == 8 && TagsOf(tags, q, 0)
    ensures AllSendable(q[..k]) && Done(d, c, q, k) == HandledAll(d, c, EncodeAll(q[..k]), tags, 0)
  {
    hide HandledAll, Sendable;
    var fs := EncodeAll(q[..k]);
    forall i: nat | i < |fs|
      ensures SameTag(Tags(q), 0, tags, 0, i)
    {
      assert SameTag(tags, 0, Tags(q), 0, i);
    }
    TagsFrom(d, c, fs, Tags(q), 0, tags, 0);
  }

  lemma EncodedCount(q: seq<Frame>, k: nat)
    requires AllSendable(q) && k <= |q|
    ensures AllSendable(q[..k]) && |EncodeAll(q[..k])| == k
  {
    hide Sendable;
  }

  lemma NoneRead(d: nat, g: Console, c: Console, q: seq<Frame>, b: seq<byte>, rounds: seq<seq<byte>>, tags: nat -> nat)
    requires Parse(b) == Parsed([], b, 0) && |c.recs| == 8 && AllSendable(q)
    ensures Parse(b + Flat(rounds[..0])) == Parsed([], b, 0) && AllFit([])
    ensures HandledAll(d, c, [], tags, 0) == (c, []) && AllSendable(q[..0]) && EncodeAll(q[..0]) == []
  {
    hide Sendable;
    assert rounds[..0] == [] && b + [] == b && q[..0] == [];
  }

  lemma WaitedLess(d: nat, c: Console, b: seq<byte>, rounds: seq<seq<byte>>, n: nat, tags: nat -> nat)
    requires 0 < n && Waited(d, c, b, rounds, n, tags)
    ensures Waited(d, c, b, rounds, n - 1, tags)
  {
  }

  lemma LastWait(d: nat, c: Console, b: seq<byte>, rounds: seq<seq<byte>>, n: nat, tags: nat -> nat)
    requires 0 < n && Waited(d, c, b, rounds, n, tags)
    ensures |c.recs| == 8 && !GateOpen(ViewAfter(d, c, b, rounds[..n - 1], tags))
  {
    hide GateOpen, ViewAfter;
  }

  lemma ViewIs(d: nat, c: Console, b: seq<byte>, rounds: seq<seq<byte>>, tags: nat -> nat)
    requires |c.recs| == 8
    ensures AllFit(Parse(b + Flat(rounds)).frames)
    ensures ViewAfter(d, c, b, rounds, tags) == HandledAll(d, c, Parse(b + Flat(rounds)).frames, tags, 0).0
  {
    hide Parse, HandledAll, Flat;
    ParseShape(b + Flat(rounds));
  }

  /** The frames read are off the stream, the next bytes at its front. */
  lemma NextFront(q: seq<Frame>, j: nat, x: seq<byte>, r: seq<byte>)
    requires AllSendable(q) && j <= |q| && AllSendable(q[..j]) && Front(x + r, Stream(q))
    requires Parse(x).slips == 0 && Parse(x).frames == EncodeAll(q[..j])
    ensures AllSendable(q[j..]) && Front(Parse(x).rest + r, Stream(q[j..]))
  {
    hide Sendable, EncodeAll, Parse, Front;
    StreamSplit(q, j);
    ParseConserves(x);
    FrontRest(x, r, Flat(EncodeAll(q[..j])), Parse(x).rest, Stream(q[j..]));
  }

  lemma RoundJoins(d: nat, c: Console, x: seq<byte>, r: seq<byte>, q: seq<Frame>, j: nat, tags: nat -> nat)
    requires |c.recs| == 8 && AllSendable(q) && j <= |q| && AllSendable(q[..j])
    requires var p := Parse(x); AllFit(p.frames) && p.slips == 0 && p.frames == EncodeAll(q[..j]) && |p.frames| == j
    requires var k := Parse(Parse(x).rest + r);
             AllFit(k.frames) && k.slips == 0 && |k.frames| <= |q| - j && AllSendable(q[j..][..|k.frames|])
             && k.frames == EncodeAll(q[j..][..|k.frames|])
    ensures var p, k, all := Parse(x), Parse(Parse(x).rest + r), Parse(x + r);
            var w := HandledAll(d, c, p.frames, tags, 0);
            && |w.0.recs| == 8
            && var v := HandledAll(d, w.0, k.frames, Later(tags, j), 0);
            && AllFit(all.frames) && all.slips == 0 && all.rest == k.rest && |all.frames| == j + |k.frames|
            && AllSendable(q[..|all.frames|]) && all.frames == EncodeAll(q[..|all.frames|])
            && HandledAll(d, c, all.frames, tags, 0) == (v.0, w.1 + v.1)
            && q[j..][|k.frames|..] == q[|all.frames|..]
  {
    hide Parse, HandledAll, EncodeAll, Sendable, Fits;
    var p, k := Parse(x), Parse(Parse(x).rest + r);
    ParseSplit(x, r);
    EncodeParts(q, j, |k.frames|);
    HandledConcat(d, c, p.frames, k.frames, tags);
    KeepsShape(d, c, p.frames, tags, 0);
    var w := HandledAll(d, c, p.frames, tags, 0);
    forall i: nat | i < |k.frames|
      ensures SameTag(tags, j, Later(tags, j), 0, i)
    {
    }
    TagsFrom(d, w.0, k.frames, tags, j, Later(tags, j), 0);
  }

  /** The gate is closed before each round of the pass and open after them. */
  ghost predicate PassMade(d: nat, c: Console, b: seq<byte>, read: seq<byte>, cell: Cell, rounds: seq<seq<byte>>,
                           tags: nat -> nat, gateTags: nat -> nat) {
    && |c.recs| == 8
    && var top := Took(d, c, b + read, tags).0;
    && top.pc.Top?
    && Waited(d, Capture(d, top, cell), Parse(b + read).rest, rounds, |rounds|, gateTags)
    && GateOpen(Took(d, Capture(d, top, cell), Parse(b + read).rest + Flat(rounds), gateTags).0)
  }

  /** What such a pass leaves: the console and the bytes it keeps, the other console untouched, and the frames sent. */
  ghost predicate PassTook(cfg: Config, c: Console, b: seq<byte>, read: seq<byte>, cell: Cell, rounds: seq<seq<byte>>,
                           tags: nat -> nat, gateTags: nat -> nat, glitch: Option<Img>, s: Sys, host: bool, t: Sys) {
    && PassMade(cfg.d, c, b, read, cell, rounds, tags, gateTags)
    && var top, x := Took(cfg.d, c, b + read, tags), Parse(b + read).rest + Flat(rounds);
    && var gate := Took(cfg.d, Capture(cfg.d, top.0, cell), x, gateTags);
    && var img := NextImg(cfg, gate.0, glitch);
    && var end := Pending(cfg.d, RunTick(gate.0, img, glitch.None?));
    && Holds(t, host, end.0, Parse(x).rest) && Peer(t, host) == Peer(s, host)
    && t.bs == Epochs(s.bs, host, RunTick(gate.0, img, glitch.None?))
    && Out(t, host) == Out(s, host) + top.1 + [CaptureFrame(cfg.d, top.0, cell)] + gate.1 + ReportFrames(gate.0, img) + end.1
  }

  /** What the device feeds the pass is the head of the stream to the console. */
  ghost predicate Fed(s: Sys, host: bool, c: Console, b: seq<byte>, read: seq<byte>, rounds: seq<seq<byte>>,
                      tags: nat -> nat, gateTags: nat -> nat) {
    && Holds(s, host, c, b) && TagsOf(tags, In(s, host), 0) && |read| <= READ_MAX
    && (forall i :: 0 <= i < |rounds| ==> |rounds[i]| <= READ_MAX)
    && Front((b + read) + Flat(rounds), Stream(In(s, host)))
    && TagsOf(gateTags, In(s, host)[Min(|In(s, host)|, |Parse(b + read).frames|)..], 0)
  }

  /** Start, a Stall for each gate round, Run. */
  ghost predicate PassSteps(run: seq<Step>, host: bool, read: seq<byte>, cell: Cell, rounds: seq<seq<byte>>, glitch: Option<Img>) {
    && |run| == |rounds| + 2
    && run[0] == Start(host, |read|, cell) && run[|rounds| + 1] == Run(host, glitch)
    && forall i :: 0 <= i < |rounds| ==> run[i + 1] == Stall(host, |rounds[i]|)
  }

  /**
   A pass, whole: what Station.Pass promises of its cells and bytes is
   what the match makes of Start, a Stall a round, and Run, in the state it is in
   and on the bytes in flight to it.
   */
  lemma PassRuns(cfg: Config, s: Sys, host: bool, c: Console, b: seq<byte>, read: seq<byte>, cell: Cell,
                      rounds: seq<seq<byte>>, tags: nat -> nat, gateTags: nat -> nat, glitch: Option<Img>)
    returns (run: seq<Step>, t: Sys)
    requires Fed(s, host, c, b, read, rounds, tags, gateTags) && PassMade(cfg.d, c, b, read, cell, rounds, tags, gateTags)
    requires Me(s, host).pc.Top? && !Me(s, host).hold && Inv(cfg, s)
    ensures PassSteps(run, host, read, cell, rounds, glitch)
    ensures PassTook(cfg, c, b, read, cell, rounds, tags, gateTags, glitch, s, host, t)
    ensures Runs(cfg, s, run, t) && StillInv(cfg, s, t)
  {
    hide Inv, Runs, HandledAll, EncodeAll, Sendable, Parse, GateOpen, Same, Fits, Flat, Pumped, Enabled, Apply, Holds, Front, Me, Peer, In, Out, Epochs, Capture, NextImg, RunTick, Pending, ReportFrames, Took;
    var d, n, first := cfg.d, |rounds|, Start(host, |read|, cell);
    assert rounds[..n] == rounds;
    TookIs(d, c, b + read, tags);
    var m := Top(cfg, s, host, c, b, read, cell, Flat(rounds), tags);
    var c1, b1 := Capture(d, Took(d, c, b + read, tags).0, cell), Parse(b + read).rest;
    TookIs(d, c1, b1 + Flat(rounds), gateTags);
    var stalls, e := Stalls(cfg, m, host, c1, b1, rounds, n, gateTags);
    RunsConcat(cfg, s, [first], m, stalls, e);
    t := Ends(cfg, e, host, Took(d, c1, b1 + Flat(rounds), gateTags).0, Parse(b1 + Flat(rounds)).rest, glitch);
    RunsConcat(cfg, s, [first] + stalls, e, [Run(host, glitch)], t);
    run := [first] + stalls + [Run(host, glitch)];
  }

  ghost predicate TopDone(d: nat, c: Console, p: Parsed, cell: Cell, tags: nat -> nat, s: Sys, host: bool, m: Sys)
    requires AllFit(p.frames) && |c.recs| == 8 && HandledAll(d, c, p.frames, tags, 0).0.pc.Top?
  {
    var top := HandledAll(d, c, p.frames, tags, 0);
    && |p.frames| <= |In(s, host)| && In(m, host) == In(s, host)[|p.frames|..]
    && Out(m, host) == Out(s, host) + top.1 + [CaptureFrame(d, top.0, cell)]
    && Holds(m, host, Capture(d, top.0, cell), p.rest)
  }

  /** The top of the pass: the pump, the capture, and its INPUT. */
  lemma Top(cfg: Config, s: Sys, host: bool, c: Console, b: seq<byte>, read: seq<byte>, cell: Cell, more: seq<byte>, tags: nat -> nat)
    returns (m: Sys)
    requires Inv(cfg, s) && Holds(s, host, c, b) && TagsOf(tags, In(s, host), 0) && Me(s, host).pc.Top? && !Me(s, host).hold && |read| <= READ_MAX
    requires Front((b + read) + more, Stream(In(s, host)))
    requires var p := Parse(b + read); AllFit(p.frames) && HandledAll(cfg.d, c, p.frames, tags, 0).0.pc.Top?
    ensures Runs(cfg, s, [Start(host, |read|, cell)], m) && Inv(cfg, m) && Me(m, host).pc.Gate? && Peer(m, host) == Peer(s, host) && m.bs == s.bs
    ensures AllFit(Parse(b + read).frames) && TopDone(cfg.d, c, Parse(b + read), cell, tags, s, host, m)
    ensures Parse(Parse(b + read).rest) == Parsed([], Parse(b + read).rest, 0)
    ensures AllSendable(In(m, host)) && Front(Parse(b + read).rest + more, Stream(In(m, host)))
  {
    hide Inv, Runs, HandledAll, EncodeAll, Sendable, Parse, GateOpen, Same, Fits, Pumped, Enabled, Apply, Holds, Front, Me, Peer, In, Out, CanRead, Capture;
    var p, first := Parse(b + read), Start(host, |read|, cell);
    HoldsShaped(s, host, c, b);
    FrontLess(b + read, more, Stream(In(s, host)));
    Read(cfg, s, host, c, b, read, tags);
    m := Starts(cfg, s, host, |read|, cell, HandledAll(cfg.d, c, p.frames, tags, 0).0, p.rest);
    S.StepInv(cfg, s, first);
    RunOne(cfg, s, first);
    NextFront(In(s, host), |p.frames|, b + read, more);
    ParseRest(b + read);
  }

  lemma Starts(cfg: Config, s: Sys, host: bool, n: nat, cell: Cell, top: Console, b: seq<byte>) returns (m: Sys)
    requires Shaped(s) && Me(s, host).pc.Top? && !Me(s, host).hold && CanRead(Me(s, host), In(s, host), n) && top.pc.Top?
    requires var u := Pumped(cfg.d, s, host, Me(s, host).got + n); Holds(u, host, top, b) && Me(u, host).pc == Me(s, host).pc
    ensures Enabled(s, Start(host, n, cell)) && m == Apply(cfg, s, Start(host, n, cell)) && m.bs == s.bs
    ensures var u := Pumped(cfg.d, s, host, Me(s, host).got + n);
            && Holds(m, host, Capture(cfg.d, top, cell), b) && Me(m, host).pc.Gate? && Peer(m, host) == Peer(u, host) && In(m, host) == In(u, host)
            && Out(m, host) == Out(u, host) + [CaptureFrame(cfg.d, top, cell)]
  {
    hide Pumped, EncodeAll, Sendable, Apply, Same, CaptureFrame;
    m := StartIs(cfg, s, host, n, cell);
    SameCapture(cfg.d, Me(Pumped(cfg.d, s, host, Me(s, host).got + n), host), top, cell);
  }

  lemma StartIs(cfg: Config, s: Sys, host: bool, n: nat, cell: Cell) returns (m: Sys)
    requires Shaped(s) && Me(s, host).pc.Top? && !Me(s, host).hold && CanRead(Me(s, host), In(s, host), n)
    ensures Enabled(s, Start(host, n, cell)) && m == Apply(cfg, s, Start(host, n, cell)) && m.bs == s.bs
    ensures var u := Pumped(cfg.d, s, host, Me(s, host).got + n);
            && Me(u, host).pc.Top? && Me(m, host) == Capture(cfg.d, Me(u, host), cell) && Peer(m, host) == Peer(u, host)
            && In(m, host) == In(u, host) && Out(m, host) == Out(u, host) + [CaptureFrame(cfg.d, Me(u, host), cell)]
  {
    hide PumpG, PumpH, CaptureFrame, CanRead, Capture;
    PumpKeepsPc(cfg.d, s, Me(s, host).got + n);
    m := Apply(cfg, s, Start(host, n, cell));
  }

  lemma SameCapture(d: nat, a: Console, c: Console, cell: Cell)
    requires Same(a, c) && a.pc.Top?
    ensures c.pc.Top? && Same(Capture(d, a, cell), Capture(d, c, cell)) && CaptureFrame(d, a, cell) == CaptureFrame(d, c, cell)
    ensures Capture(d, a, cell).got == a.got && Capture(d, c, cell).recs == c.recs && Capture(d, a, cell).pc.Gate?
    ensures Capture(d, a, cell).recs == a.recs
  {
  }

  ghost predicate EndDone(cfg: Config, gate: Console, b: seq<byte>, glitch: Option<Img>, e: Sys, host: bool, t: Sys)
    requires |gate.recs| == 8
  {
    var img := NextImg(cfg, gate, glitch);
    var x := RunTick(gate, img, glitch.None?);
    && Holds(t, host, Pending(cfg.d, x).0, b) && Peer(t, host) == Peer(e, host) && In(t, host) == In(e, host)
    && t.bs == Epochs(e.bs, host, x)
    && Out(t, host) == Out(e, host) + ReportFrames(gate, img) + Pending(cfg.d, x).1
  }

  /** The invariant, as far as it is promised: a push needs a delay below 16. */
  ghost predicate StillInv(cfg: Config, s: Sys, t: Sys) {
    cfg.d < LEAD || |t.bs| == |s.bs| ==> Inv(cfg, t)
  }

  /** The bottom of the pass: the tick, its report and a pending push. */
  lemma Ends(cfg: Config, e: Sys, host: bool, gate: Console, b: seq<byte>, glitch: Option<Img>) returns (t: Sys)
    requires Inv(cfg, e) && Me(e, host).pc.Gate? && Holds(e, host, gate, b) && GateOpen(gate)
    ensures Runs(cfg, e, [Run(host, glitch)], t) && StillInv(cfg, e, t)
    ensures EndDone(cfg, gate, b, glitch, e, host, t)
  {
    hide Inv, Runs, GateOpen, Pending, NextImg, RunTick, ReportFrames, Enabled, Apply, Holds;
    HoldsShaped(e, host, gate, b);
    t := Ticks(cfg, e, host, gate, b, glitch);
    if cfg.d < LEAD || |t.bs| == |e.bs| { S.StepInv(cfg, e, Run(host, glitch)); }
    RunOne(cfg, e, Run(host, glitch));
  }

  lemma Ticks(cfg: Config, e: Sys, host: bool, gate: Console, b: seq<byte>, glitch: Option<Img>) returns (t: Sys)
    requires Shaped(e) && Me(e, host).pc.Gate? && Holds(e, host, gate, b) && GateOpen(gate)
    ensures Enabled(e, Run(host, glitch)) && t == Apply(cfg, e, Run(host, glitch))
    ensures EndDone(cfg, gate, b, glitch, e, host, t)
  {
    hide Enabled, Apply, EncodeAll, Sendable, Check.Cksum, Pending, ReadCells, GateOpen, NextImg, RunTick, ReportFrames, Pushes, Flat, Me, Peer, In, Out, Same, Epochs;
    HoldsShaped(e, host, gate, b);
    SameGate(cfg, Me(e, host), gate, glitch);
    t := RunIs(cfg, e, host, glitch);
    var img := NextImg(cfg, gate, glitch);
    var x, y := RunTick(Me(e, host), img, glitch.None?), RunTick(gate, img, glitch.None?);
    SamePending(cfg.d, x, y);
    SameEpochs(e.bs, host, x, y);
    HoldsOn(e, t, host, gate, Pending(cfg.d, y).0, b);
  }

  lemma HoldsOn(e: Sys, t: Sys, host: bool, c: Console, w: Console, b: seq<byte>)
    requires Holds(e, host, c, b) && Peer(t, host) == Peer(e, host) && In(t, host) == In(e, host)
    requires Same(Me(t, host), w) && |Me(t, host).recs| == |w.recs| == 8 && Me(t, host).got == Me(e, host).got
    ensures Holds(t, host, w, b)
  {
    hide Sendable, Flat;
  }

  lemma SameEpochs(bs: seq<Base>, host: bool, x: Console, y: Console)
    requires Pushes(x) == Pushes(y) && x.img == y.img && x.tick == y.tick
    ensures Epochs(bs, host, x) == Epochs(bs, host, y)
  {
    hide Pushes, Clamp;
  }

  lemma RunIs(cfg: Config, e: Sys, host: bool, glitch: Option<Img>) returns (t: Sys)
    requires Shaped(e) && Me(e, host).pc.Gate? && GateOpen(Me(e, host))
    ensures Enabled(e, Run(host, glitch)) && t == Apply(cfg, e, Run(host, glitch))
    ensures var img := NextImg(cfg, Me(e, host), glitch);
            var x := RunTick(Me(e, host), img, glitch.None?);
            && Me(t, host) == Pending(cfg.d, x).0 && Peer(t, host) == Peer(e, host) && In(t, host) == In(e, host)
            && Out(t, host) == Out(e, host) + ReportFrames(Me(e, host), img) + Pending(cfg.d, x).1
            && t.bs == Epochs(e.bs, host, x)
  {
    hide Pending, RunTick, GateOpen, NextImg, ReportFrames, Pushes, Clamp;
    t := Apply(cfg, e, Run(host, glitch));
  }

  lemma SameGate(cfg: Config, a: Console, c: Console, glitch: Option<Img>)
    requires Same(a, c) && |a.recs| == 8 && |c.recs| == 8
    ensures GateOpen(a) == GateOpen(c) && a.pc == c.pc && NextImg(cfg, a, glitch) == NextImg(cfg, c, glitch)
    ensures var img := NextImg(cfg, c, glitch);
            var x, y := RunTick(a, img, glitch.None?), RunTick(c, img, glitch.None?);
            && ReportFrames(a, img) == ReportFrames(c, img) && Same(x, y) && x.got == a.got
            && |x.recs| == 8 && |y.recs| == 8
  {
    hide Check.Cksum, ReadCells, GateOpen, TickEvents;
    SameCellsRead(a, c);
    assert GateOpen(a) == GateOpen(c) by { SameOpen(a, c); }
  }

  lemma SameOpen(a: Console, c: Console)
    requires Same(a, c)
    ensures GateOpen(a) == GateOpen(c)
  {
  }

  lemma SameCellsRead(a: Console, c: Console)
    requires Same(a, c)
    ensures ReadCells(a) == ReadCells(c)
  {
  }

  lemma SamePending(d: nat, a: Console, c: Console)
    requires Same(a, c)
    ensures Same(Pending(d, a).0, Pending(d, c).0) && Pending(d, a).1 == Pending(d, c).1 && Pending(d, a).0.got == a.got
    ensures Pushes(a) == Pushes(c) && a.img == c.img && a.tick == c.tick && |Pending(d, c).0.recs| == |Pending(d, a).0.recs|
    ensures |a.recs| == 8 ==> |Pending(d, a).0.recs| == 8
  {
    hide PushFrames, Clamp, IdleRing, Quiet;
  }

  // ---- the device and the match together ------------------------------------

  /** Nothing that comes down a stream is a START. */
  lemma FedMatch(s: Sys, host: bool, c: Console, b: seq<byte>, read: seq<byte>, rounds: seq<seq<byte>>,
                 tags: nat -> nat, gateTags: nat -> nat)
    requires Fed(s, host, c, b, read, rounds, tags, gateTags)
    ensures AllMatch(Parse(b + read).frames) && AllMatch(Parse(Parse(b + read).rest + Flat(rounds)).frames)
  {
    hide Parse, Flat, EncodeAll, Sendable, Me, In, AllMatch, Same, Shaped;
    var q, x := In(s, host), (b + read) + Flat(rounds);
    BytesEncoded(q);
    BytesAreFrames(q, |x|);
    CompleteBound(q, |x|);
    EncodedMatch(q, Complete(q, |x|));
    ParseSplit(b + read, Flat(rounds));
    MatchParts(Parse(b + read).frames, Parse(Parse(b + read).rest + Flat(rounds)).frames);
  }

  lemma EncodedMatch(q: seq<Frame>, k: nat)
    requires AllSendable(q) && k <= |q|
    ensures AllSendable(q[..k]) && AllMatch(EncodeAll(q[..k]))
  {
    hide Sendable, Fits;
    var fs := EncodeAll(q[..k]);
    forall i | 0 <= i < |fs|
      ensures MatchFrame(fs[i])
    {
      NoStart(q[i]);
    }
  }

  lemma NoStart(f: Frame)
    requires Sendable(f)
    ensures MatchFrame(Encode(f))
  {
  }

  lemma FedLess(s: Sys, host: bool, c: Console, b: seq<byte>, read: seq<byte>, rounds: seq<seq<byte>>, n: nat,
                tags: nat -> nat, gateTags: nat -> nat)
    requires Fed(s, host, c, b, read, rounds, tags, gateTags) && n <= |rounds|
    ensures Fed(s, host, c, b, read, rounds[..n], tags, gateTags)
  {
    hide Parse, Flat, Holds, TagsOf, In, Stream, Front;
    var x, y, z := b + read, Flat(rounds[..n]), Flat(rounds[n..]);
    FlatSplit(rounds, n);
    assert x + Flat(rounds) == (x + y) + z;
    HoldsShaped(s, host, c, b);
    FrontLess(x + y, z, Stream(In(s, host)));
  }

  /** The game code of the console is the game of the match. */
  ghost predicate Plays(game: (seq<word>, seq<Event>) -> seq<word>, cfg: Config) {
    forall m, ev :: MemOk(m) && MemOk(game(m, ev)) ==> ImageOf(Mirrored(game(m, ev))) == cfg.step(ImageOf(m), ev)
  }

  lemma WaitedFront(d: nat, c: Console, b: seq<byte>, rounds: seq<seq<byte>>, n: nat, tags: nat -> nat)
    requires Waited(d, c, b, rounds, n, tags)
    ensures Waited(d, c, b, rounds[..n], n, tags)
  {
    hide GateOpen, ViewAfter;
    forall j | 0 <= j < n
      ensures !GateOpen(ViewAfter(d, c, b, rounds[..n][..j], tags))
    {
      assert rounds[..n][..j] == rounds[..j];
    }
  }

  /** What Station.Pass says of a pass that ticked: `v` at the open gate, `w` and `tx` at the end. */
  ghost predicate Ticked(d: nat, c: Console, b: seq<byte>, read: seq<byte>, cell: Cell, rounds: seq<seq<byte>>,
                         tags: nat -> nat, gateTags: nat -> nat, v: Console, img: Img, exact: bool, w: Console, tx: seq<byte>) {
    && |c.recs| == 8
    && var top := Took(d, c, b + read, tags);
    && top.0.pc.Top? && AllSendable(top.1) && Sendable(CaptureFrame(d, top.0, cell))
    && var c1, b1 := Capture(d, top.0, cell), Parse(b + read).rest;
    && Waited(d, c1, b1, rounds, |rounds|, gateTags)
    && var gate := Took(d, c1, b1 + Flat(rounds), gateTags);
    && v == gate.0 && GateOpen(v) && AllSendable(gate.1) && AllSendable(ReportFrames(v, img))
    && var end := Pending(d, RunTick(v, img, exact));
    && w == end.0 && AllSendable(end.1)
    && tx == Stream(top.1) + Encode(CaptureFrame(d, top.0, cell)) + Stream(gate.1) + Stream(ReportFrames(v, img)) + Stream(end.1)
  }

  lemma StreamMore(a: seq<Frame>, b: seq<Frame>)
    requires AllSendable(a) && AllSendable(b)
    ensures AllSendable(a + b) && Stream(a + b) == Stream(a) + Stream(b)
  {
    EncodeConcat(a, b);
  }

  lemma StreamOne(f: Frame)
    requires Sendable(f)
    ensures AllSendable([f]) && Stream([f]) == Encode(f)
  {
    hide Sendable, Encode;
    FlatOne(Encode(f));
    assert EncodeAll([f]) == [Encode(f)];
  }

  lemma StreamParts(a: seq<Frame>, f: Frame, b: seq<Frame>, c: seq<Frame>, e: seq<Frame>)
    requires AllSendable(a) && Sendable(f) && AllSendable(b) && AllSendable(c) && AllSendable(e)
    ensures AllSendable(a + [f] + b + c + e)
    ensures Stream(a + [f] + b + c + e) == Stream(a) + Encode(f) + Stream(b) + Stream(c) + Stream(e)
  {
    hide Sendable, Encode, Stream, AllSendable;
    StreamOne(f);
    StreamMore(a, [f]);
    StreamMore(a + [f], b);
    StreamMore(a + [f] + b, c);
    StreamMore(a + [f] + b + c, e);
  }

  /** A pass that ticked, taken in the match. */
  lemma TickedRuns(cfg: Config, s: Sys, host: bool, c: Console, b: seq<byte>, read: seq<byte>, cell: Cell, rounds: seq<seq<byte>>,
                   tags: nat -> nat, gateTags: nat -> nat, v: Console, glitch: Option<Img>, img: Img, w: Console, tx: seq<byte>)
    returns (run: seq<Step>, t: Sys)
    requires Fed(s, host, c, b, read, rounds, tags, gateTags)
    requires Ticked(cfg.d, c, b, read, cell, rounds, tags, gateTags, v, img, glitch.None?, w, tx) && img == NextImg(cfg, v, glitch)
    requires Me(s, host).pc.Top? && !Me(s, host).hold && Inv(cfg, s)
    ensures PassSteps(run, host, read, cell, rounds, glitch)
    ensures Tracks(s, t, host, w, Parse(Parse(b + read).rest + Flat(rounds)).rest, tx)
    ensures Runs(cfg, s, run, t) && StillInv(cfg, s, t)
  {
    hide Inv, Runs, HandledAll, EncodeAll, Sendable, Parse, GateOpen, Flat, Holds, NextImg, RunTick, Pending, ReportFrames, Took,
      Fed, Waited, Me, Peer, In, Out, Stream, AllSendable, Encode, CaptureFrame, PassSteps;
    run, t := PassRuns(cfg, s, host, c, b, read, cell, rounds, tags, gateTags, glitch);
    var top, x := Took(cfg.d, c, b + read, tags), Parse(b + read).rest + Flat(rounds);
    var gate := Took(cfg.d, Capture(cfg.d, top.0, cell), x, gateTags);
    var end := Pending(cfg.d, RunTick(v, img, glitch.None?));
    var f, rep := CaptureFrame(cfg.d, top.0, cell), ReportFrames(v, img);
    StreamParts(top.1, f, gate.1, rep, end.1);
    Sent(Out(s, host), top.1, [f], gate.1, rep, end.1, Out(t, host));
  }

  lemma Sent(before: seq<Frame>, a: seq<Frame>, f: seq<Frame>, b: seq<Frame>, c: seq<Frame>, e: seq<Frame>, after: seq<Frame>)
    requires after == before + a + f + b + c + e
    ensures before <= after && after[|before|..] == a + f + b + c + e
  {
  }

  /** The console at `w` with bytes `b` is the match's, the other console is untouched, and `tx` is what it added to its stream. */
  ghost predicate Tracks(s: Sys, t: Sys, host: bool, w: Console, b: seq<byte>, tx: seq<byte>) {
    && Holds(t, host, w, b) && Peer(t, host) == Peer(s, host)
    && Out(s, host) <= Out(t, host)
    && var sent := Out(t, host)[|Out(s, host)|..];
    && AllSendable(sent) && tx == Stream(sent)
  }

  lemma TickedIs(d: nat, c: Console, b: seq<byte>, read: seq<byte>, cell: Cell, rounds: seq<seq<byte>>, n: nat,
                 tags: nat -> nat, gateTags: nat -> nat, v: Console, img: Img, exact: bool, w: Console,
                 txTop: seq<byte>, txInput: seq<byte>, txGate: seq<byte>, txTick: seq<byte>)
    requires |c.recs| == 8 && n <= |rounds| && AllFit(Parse(b + read).frames)
    requires var top := HandledAll(d, c, Parse(b + read).frames, tags, 0);
             && top.0.pc.Top? && AllSendable(top.1) && txTop == Flat(EncodeAll(top.1))
             && Sendable(CaptureFrame(d, top.0, cell)) && txInput == Encode(CaptureFrame(d, top.0, cell))
             && Progressed(d, Capture(d, top.0, cell), Parse(b + read).rest, rounds[..n], gateTags, v, txGate)
             && Waited(d, Capture(d, top.0, cell), Parse(b + read).rest, rounds, n, gateTags)
    requires GateOpen(v) && Played(d, v, img, exact, w, txTick)
    ensures Ticked(d, c, b, read, cell, rounds[..n], tags, gateTags, v, img, exact, w, txTop + txInput + txGate + txTick)
  {
    hide Parse, HandledAll, EncodeAll, Sendable, GateOpen, Flat, RunTick, Pending, ReportFrames, Took, Waited, Encode, CaptureFrame, Capture;
    TookIs(d, c, b + read, tags);
    var c1, b1 := Capture(d, Took(d, c, b + read, tags).0, cell), Parse(b + read).rest;
    TookIs(d, c1, b1 + Flat(rounds[..n]), gateTags);
    WaitedFront(d, c1, b1, rounds, n, gateTags);
    var x, y := Flat(EncodeAll(ReportFrames(v, img))), Flat(EncodeAll(Pending(d, RunTick(v, img, exact)).1));
    assert txTop + txInput + txGate + (x + y) == txTop + txInput + txGate + x + y;
  }

  /**
   Station.Pass beside the match, from any state a match can be in and on any
   cut of the bytes in flight: a pass that ticks without the match being over is
   Start, Stall*, Run, and leaves console, buffer and stream as the match has them.
   `exact` is a tick of the game; otherwise the image is whatever `game` made it.
   */
  method PassBeside(st: Station, read: seq<byte>, cell: Cell, rounds: seq<seq<byte>>, game: (seq<word>, seq<Event>) -> seq<word>,
                    ghost exact: bool, ghost cfg: Config, ghost s: Sys, ghost host: bool, ghost tags: nat -> nat, ghost gateTags: nat -> nat)
    returns (ticked: bool, n: nat, events: seq<Event>, tx: seq<byte>, ghost run: seq<Step>, ghost t: Sys, ghost glitch: Option<Img>)
    requires st.Valid() && st.cells.hold == 0 && st.cells.dropped == 0 && st.cells.netDelay == cfg.d
    requires Me(s, host).pc.Top? && Inv(cfg, s) && Fed(s, host, st.cells.view, st.rx.Contents(), read, rounds, tags, gateTags)
    requires forall m, ev :: MemOk(m) ==> MemOk(game(m, ev))
    requires exact ==> Plays(game, cfg)
    modifies st.cells, st.cells.ring, st.cells.kp, st.cells.wm, st.cells.crc, st.cells.ram.mem, st.rx, st.rx.rxacc, st.rx.frmbuf
    ensures st.Valid() && n <= |rounds| && (exact ==> glitch.None?)
    ensures ticked && st.cells.dropped == 0 ==>
              && PassSteps(run, host, read, cell, rounds[..n], glitch) && Runs(cfg, s, run, t)
              && Tracks(s, t, host, st.cells.view, st.rx.Contents(), tx)
              && StillInv(cfg, s, t)
    ensures !ticked ==> n == |rounds|
  {
    hide Inv, Runs, HandledAll, EncodeAll, Sendable, Parse, GateOpen, Flat, Holds, Capture, RunTick, Pending, ReportFrames, Took,
      Fed, Waited, Peer, In, Out, Stream, AllSendable, Encode, CaptureFrame, PassSteps, Progressed, Played, AllMatch, Ticked, Tracks,
      ImageOf, MemOk, Mirrored, ReadCells, TickEvents;
    ghost var c, b, d := st.cells.view, st.rx.Contents(), st.cells.netDelay;
    ParseShape(b + read);
    FedMatch(s, host, c, b, read, rounds, tags, gateTags);
    FedHolds(s, host, c, b, read, rounds, tags, gateTags);
    ghost var v, mid, img, mem;
    var txTop, txInput, txGate, txTick;
    ticked, n, events, txTop, txInput, txGate, txTick, v, mid, img, mem := st.Pass(read, cell, rounds, game, exact, tags, gateTags);
    tx := txTop + txInput + txGate + txTick;
    glitch := if exact then None else Some(img);
    run, t := [], s;
    if ticked && st.cells.dropped == 0 {
      FedLess(s, host, c, b, read, rounds, n, tags, gateTags);
      TickedIs(d, c, b, read, cell, rounds, n, tags, gateTags, v, img, exact, st.cells.view, txTop, txInput, txGate, txTick);
      run, t := TickedRuns(cfg, s, host, c, b, read, cell, rounds[..n], tags, gateTags, v, glitch, img, st.cells.view, tx);
    }
  }

  lemma FedHolds(s: Sys, host: bool, c: Console, b: seq<byte>, read: seq<byte>, rounds: seq<seq<byte>>,
                 tags: nat -> nat, gateTags: nat -> nat)
    requires Fed(s, host, c, b, read, rounds, tags, gateTags)
    ensures |read| <= READ_MAX && |c.recs| == 8 && Me(s, host).pc == c.pc && Me(s, host).hold == c.hold
    ensures forall i :: 0 <= i < |rounds| ==> |rounds[i]| <= READ_MAX
  {
    hide Stream, Front, TagsOf, Parse, Flat;
  }
}
