/** The bytes of the match frames, and that reading bytes is reading frames. */
module Wire {
  import opened Basics
  import opened Console
  import opened Match
  import opened Framing

  const FT_INPUT := 6
  const FT_CRC := 7
  const FT_STATE := 8
  const FT_RESYNC := 9
  const FT_START := 5
  const FT_PEER_LEFT := 11

  /** What a console puts on the wire: a real seat, a chunk of 1 to 96 image bytes. */
  predicate Sendable(f: Frame) {
    match f
    case Input(_, seat, _, _) => seat < 2
    case Crc(_, seat, _, crc) => seat < 2 && 0 <= crc < 0x1_0000
    case Data(_, pos, b) => 0 < |b| <= RS_CHUNK && pos + |b| <= IMG_TOTAL
    case _ => true
  }

  /** The frame's bytes; the epoch tag is history and is not among them. */
  function Encode(f: Frame): (b: seq<byte>)
    requires Sendable(f)
    ensures |b| == FrameLen(f) && Fits(b)
  {
    match f
    case Input(_, seat, x, cell) => [6, FT_INPUT, seat, Low(x), High(x), cell.dec, cell.kp]
    case Crc(_, seat, x, crc) => [6, FT_CRC, seat, Low(x), High(x), Low(crc), High(crc)]
    case Resync(_, x) => [3, FT_RESYNC, Low(x), High(x)]
    case Begin(_, r) => [5, FT_STATE, 0, 0xFF, Low(r), High(r)]
    case Data(_, pos, data) => [|data| + 3, FT_STATE, Low(pos), High(pos)] + data
    case End(_) => [3, FT_STATE, 1, 0xFF]
  }

  predicate AllSendable(q: seq<Frame>) {
    forall i :: 0 <= i < |q| ==> Sendable(q[i])
  }

  function EncodeAll(q: seq<Frame>): (b: seq<seq<byte>>)
    requires AllSendable(q)
    ensures |b| == |q| && AllFit(b) && forall i :: 0 <= i < |q| ==> b[i] == Encode(q[i])
  {
    seq(|q|, i requires 0 <= i < |q| => Encode(q[i]))
  }

  lemma EncodeCons(q: seq<Frame>)
    requires AllSendable(q) && q != []
    ensures Flat(EncodeAll(q)) == Encode(q[0]) + Flat(EncodeAll(q[1..]))
  {
    hide Encode, Sendable;
    assert EncodeAll(q)[1..] == EncodeAll(q[1..]);
  }

  lemma {:induction false} BytesEncoded(q: seq<Frame>)
    requires AllSendable(q)
    ensures |Flat(EncodeAll(q))| == Bytes(q)
    decreases |q|
  {
    hide Sendable, FrameLen, EncodeAll;
    if q == [] {
      assert Flat(EncodeAll(q)) == [];
    } else {
      EncodeCons(q);
      BytesEncoded(q[1..]);
      EncodeLen(q[0]);
    }
  }

  lemma EncodeLen(f: Frame)
    requires Sendable(f)
    ensures |Encode(f)| == FrameLen(f)
  {
  }

  /** How many frames the first `b` bytes complete: what a pump hands over. */
  function Complete(q: seq<Frame>, b: nat): (k: nat)
    ensures k <= |q|
  {
    if q != [] && FrameLen(q[0]) <= b then 1 + Complete(q[1..], b - FrameLen(q[0])) else 0
  }

  /** Bytes of the frames that `b` bytes leave incomplete. */
  function Partial(q: seq<Frame>, b: nat): nat {
    if q != [] && FrameLen(q[0]) <= b then Partial(q[1..], b - FrameLen(q[0])) else b
  }

  /** The first `b` bytes of a stream of frames parse to the frames they complete, and nothing is dropped. */
  lemma {:induction false} BytesAreFrames(q: seq<Frame>, b: nat)
    requires AllSendable(q) && b <= Bytes(q)
    ensures b <= |Flat(EncodeAll(q))|
    ensures var p := Parse(Flat(EncodeAll(q))[..b]);
            && p.frames == EncodeAll(q[..Complete(q, b)])
            && Partial(q, b) <= |Flat(EncodeAll(q[Complete(q, b)..]))|
            && p.rest == Flat(EncodeAll(q[Complete(q, b)..]))[..Partial(q, b)]
            && p.slips == 0
    decreases |q|
  {
    hide Sendable, FrameLen, EncodeAll, Encode, Parse, Known;
    BytesEncoded(q);
    var s := Flat(EncodeAll(q));
    if q == [] {
      NothingYet(s, 0);
      NoFrames();
    } else {
      var f, n := Encode(q[0]), FrameLen(q[0]);
      EncodeLen(q[0]);
      EncodeCons(q);
      if n <= b {
        BytesAreFrames(q[1..], b - n);
        var rest := Flat(EncodeAll(q[1..]))[..b - n];
        assert s[..b] == f + rest;
        FrameStep(f, rest);
        HeadFrames(q, Complete(q[1..], b - n));
        assert q[1..][Complete(q[1..], b - n)..] == q[Complete(q, b)..];
      } else {
        assert s[..b] == f[..b];
        NothingYet(f, b);
        assert q[..0] == [];
        NoFrames();
      }
    }
  }

  lemma NoFrames()
    ensures EncodeAll([]) == []
  {
  }

  lemma HeadFrames(q: seq<Frame>, k: nat)
    requires AllSendable(q) && q != [] && k < |q|
    ensures EncodeAll(q[..k + 1]) == [Encode(q[0])] + EncodeAll(q[1..][..k])
  {
    hide Sendable, Encode;
  }

  /** A proper part of a frame waits. */
  lemma NothingYet(f: seq<byte>, b: nat)
    requires b <= |f| && (b == 0 || (Fits(f) && b < |f|))
    ensures Parse(f[..b]) == Parsed([], f[..b], 0)
  {
  }

  // ---- the pump of a match is the byte-level pump -------------------------

  /** The frames a pump hands to the guest are those its bytes parse to; what it keeps is their remainder. */
  lemma {:induction false} GuestPumpCount(d: nat, s: Sys, b: nat)
    requires Shaped(s)
    ensures var t := PumpG(d, s, b);
            t.hg == s.hg[Complete(s.hg, b)..] && t.g.got == Partial(s.hg, b)
    decreases |s.hg|
  {
    hide OnFrame;
    if s.hg != [] && FrameLen(s.hg[0]) <= b {
      GuestPumpCount(d, DeliverG(d, s), b - FrameLen(s.hg[0]));
    }
  }

  lemma {:induction false} HostPumpCount(d: nat, s: Sys, b: nat)
    requires Shaped(s)
    ensures var t := PumpH(d, s, b);
            t.gh == s.gh[Complete(s.gh, b)..] && t.h.got == Partial(s.gh, b)
    decreases |s.gh|
  {
    hide OnFrame;
    if s.gh != [] && FrameLen(s.gh[0]) <= b {
      HostPumpCount(d, DeliverH(d, s), b - FrameLen(s.gh[0]));
    }
  }

  /**
   A pump of a match, on its bytes: when the receiver holds the first `got`
   bytes of the stream and reads `n` more, it dispatches exactly the frames the
   match delivers, and then holds the first `got` bytes of what is still to come.
   */
  lemma GuestPumpBytes(d: nat, s: Sys, n: nat, b: seq<byte>)
    requires Shaped(s) && AllSendable(s.hg) && s.g.got + n <= Bytes(s.hg) == |Flat(EncodeAll(s.hg))|
    requires b == Flat(EncodeAll(s.hg))[..s.g.got + n]
    ensures var t := PumpG(d, s, s.g.got + n);
            && |t.hg| <= |s.hg| && AllSendable(t.hg) && t.g.got <= |Flat(EncodeAll(t.hg))|
            && Parse(b) == Parsed(EncodeAll(s.hg[..|s.hg| - |t.hg|]), Flat(EncodeAll(t.hg))[..t.g.got], 0)
  {
    hide Sendable, FrameLen, EncodeAll, Encode, Parse, PumpG;
    BytesAreFrames(s.hg, s.g.got + n);
    GuestPumpCount(d, s, s.g.got + n);
  }

  lemma HostPumpBytes(d: nat, s: Sys, n: nat, b: seq<byte>)
    requires Shaped(s) && AllSendable(s.gh) && s.h.got + n <= Bytes(s.gh) == |Flat(EncodeAll(s.gh))|
    requires b == Flat(EncodeAll(s.gh))[..s.h.got + n]
    ensures var t := PumpH(d, s, s.h.got + n);
            && |t.gh| <= |s.gh| && AllSendable(t.gh) && t.h.got <= |Flat(EncodeAll(t.gh))|
            && Parse(b) == Parsed(EncodeAll(s.gh[..|s.gh| - |t.gh|]), Flat(EncodeAll(t.gh))[..t.h.got], 0)
  {
    hide Sendable, FrameLen, EncodeAll, Encode, Parse, PumpH;
    BytesAreFrames(s.gh, s.h.got + n);
    HostPumpCount(d, s, s.h.got + n);
  }
}
