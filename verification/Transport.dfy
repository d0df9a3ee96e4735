/** In every run, the frames in flight are well-formed bytes, and each pump parses exactly the frames it delivers. */
module Transport {
  import opened Basics
  import opened Console
  import opened Match
  import opened Invariant
  import opened Lockstep
  import opened Framing
  import opened Wire
  import Check = Checksum

  lemma GenuineSendable(f: Frame, sender: nat, caps: Caps, log: Log)
    requires Genuine(f, sender, caps, log) && sender < 2 && !f.Data?
    ensures Sendable(f)
  {
    if f.Crc? { Check.FoldRange(0, Check.Covered(log[(f.ep, f.tick)].img)); }
  }

  lemma {:induction false} ScriptChunks(q: seq<Frame>, bs: seq<Base>, d: nat, ep: nat, hold: bool, pos: nat, x: int, end: int, i: nat)
    requires Script(q, bs, d, ep, hold, pos, x, end) && i < |q| && q[i].Data?
    ensures Sendable(q[i])
    decreases |q|
  {
    if i > 0 {
      match q[0]
      case Input(_, _, _, _) => ScriptChunks(q[1..], bs, d, ep, hold, pos, x + 1, end, i - 1);
      case Crc(_, _, _, _) => ScriptChunks(q[1..], bs, d, ep, hold, pos, x, end, i - 1);
      case Begin(_, _) => ScriptChunks(q[1..], bs, d, ep, true, 0, x, end, i - 1);
      case Data(_, _, b) => ScriptChunks(q[1..], bs, d, ep, true, pos + |b|, x, end, i - 1);
      case End(_) => ScriptChunks(q[1..], bs, d, ep + 1, false, 0, bs[ep + 1].r + d, end, i - 1);
    }
  }

  lemma CoreSendable(cfg: Config, s: Sys)
    requires Core(cfg, s)
    ensures AllSendable(s.hg) && AllSendable(s.gh)
  {
    hide BasesOk, Histories, OwnOk, RmtOk, HoldOk, SkewOk, StaleOk, StreamOk, AskedOnce, RequestsOk, Genuine, Script, Sendable;
    forall i | 0 <= i < |s.hg|
      ensures Sendable(s.hg[i])
    {
      if s.hg[i].Data? {
        ScriptChunks(s.hg, s.bs, cfg.d, s.g.ep, s.g.hold, s.g.pos, s.g.wm + 1, NextCap(cfg.d, s.h), i);
      } else {
        GenuineSendable(s.hg[i], s.h.seat, s.h.caps, s.h.log);
      }
    }
    forall i | 0 <= i < |s.gh|
      ensures Sendable(s.gh[i])
    {
      GenuineSendable(s.gh[i], s.g.seat, s.g.caps, s.g.log);
    }
  }

  /** Every read of every run, at the byte level: no byte is ever dropped, and frames arrive as they were sent. */
  lemma {:induction false} ReadsAreExact(cfg: Config, img: Img, run: seq<Step>, t: Sys, n: nat)
    requires Runs(cfg, Init(cfg.d, img), run, t) && Promised(cfg.d, t)
    ensures AllSendable(t.hg) && AllSendable(t.gh) && Shaped(t)
    ensures CanRead(t.g, t.hg, n) ==>
              var u := PumpG(cfg.d, t, t.g.got + n);
              && |u.hg| <= |t.hg| && AllSendable(u.hg)
              && t.g.got + n <= |Flat(EncodeAll(t.hg))| && u.g.got <= |Flat(EncodeAll(u.hg))|
              && Parse(Flat(EncodeAll(t.hg))[..t.g.got + n]) ==
                 Parsed(EncodeAll(t.hg[..|t.hg| - |u.hg|]), Flat(EncodeAll(u.hg))[..u.g.got], 0)
    ensures CanRead(t.h, t.gh, n) ==>
              var u := PumpH(cfg.d, t, t.h.got + n);
              && |u.gh| <= |t.gh| && AllSendable(u.gh)
              && t.h.got + n <= |Flat(EncodeAll(t.gh))| && u.h.got <= |Flat(EncodeAll(u.gh))|
              && Parse(Flat(EncodeAll(t.gh))[..t.h.got + n]) ==
                 Parsed(EncodeAll(t.gh[..|t.gh| - |u.gh|]), Flat(EncodeAll(u.gh))[..u.h.got], 0)
  {
    hide Core, Runs, PumpG, PumpH, EncodeAll, Sendable, Parse;
    Reachable(cfg, img, run, t);
    CoreSendable(cfg, t);
    BytesEncoded(t.hg);
    BytesEncoded(t.gh);
    if CanRead(t.g, t.hg, n) { GuestPumpBytes(cfg.d, t, n, Flat(EncodeAll(t.hg))[..t.g.got + n]); }
    if CanRead(t.h, t.gh, n) { HostPumpBytes(cfg.d, t, n, Flat(EncodeAll(t.gh))[..t.h.got + n]); }
  }
}
