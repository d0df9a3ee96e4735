/**
 The console's view of the relay stream: bare length-prefixed frames, checked
 against the table of what a server may send, one byte dropped on a mismatch.
 */
module Framing {
  import opened Basics

  /** SES_FLEN: (max << 8 | min) body length by frame type; 0 for types that never arrive. */
  const SES_FLEN: seq<int> := [
    0, 0, 0, 0x4A02, 0, 0x2626, 0x0606, 0x0606, 0x6303, 0x0303, 0, 0x0A0A, 0, 0x0101, 0x2222, 0]

  const FRAME_MAX := 100

  predicate Known(len: byte, kind: byte) {
    kind < 0x10 && SES_FLEN[kind] != 0 && SES_FLEN[kind] % 256 <= len <= SES_FLEN[kind] / 256
  }

  /** A frame the server may send: length byte, type, payload. */
  predicate Fits(f: seq<byte>) {
    |f| >= 2 && |f| - 1 == f[0] && Known(f[0], f[1])
  }

  predicate AllFit(fs: seq<seq<byte>>) {
    forall i :: 0 <= i < |fs| ==> Fits(fs[i])
  }

  lemma KnownShort(len: byte, kind: byte)
    requires Known(len, kind)
    ensures 1 <= len < FRAME_MAX
  {
    assert kind in {3, 5, 6, 7, 8, 9, 11, 13, 14};
  }

  function Flat(parts: seq<seq<byte>>): seq<byte> {
    if parts == [] then [] else parts[0] + Flat(parts[1..])
  }

  /** Frames dispatched in order, bytes left over, bytes dropped. */
  datatype Parsed = Parsed(frames: seq<seq<byte>>, rest: seq<byte>, slips: nat)

  /** The parse loop of SES_PUMP on the buffered bytes. */
  function Parse(b: seq<byte>): (p: Parsed)
    decreases |b|
  {
    if |b| < 2 then Parsed([], b, 0)
    else if !Known(b[0], b[1]) then
      var p := Parse(b[1..]);
      p.(slips := p.slips + 1)
    else if |b| < b[0] + 1 then Parsed([], b, 0)
    else
      var p := Parse(b[b[0] + 1..]);
      p.(frames := [b[..b[0] + 1]] + p.frames)
  }

  /** Two stretches of one stream, the second parsed with what the first left over. */
  function Then(p: Parsed, q: Parsed): Parsed {
    Parsed(p.frames + q.frames, q.rest, p.slips + q.slips)
  }

  /** At most 99 bytes wait for the rest of their frame; everything dispatched is a frame the table allows. */
  lemma {:induction false} ParseShape(b: seq<byte>)
    ensures |Parse(b).rest| < FRAME_MAX && AllFit(Parse(b).frames)
    decreases |b|
  {
    if |b| >= 2 {
      if !Known(b[0], b[1]) {
        ParseShape(b[1..]);
      } else {
        KnownShort(b[0], b[1]);
        if |b| >= b[0] + 1 {
          ParseShape(b[b[0] + 1..]);
        }
      }
    }
  }

  lemma SlipStep(x: byte, b: seq<byte>)
    requires b != [] && !Known(x, b[0])
    ensures Parse([x] + b) == Parse(b).(slips := Parse(b).slips + 1)
  {
    assert ([x] + b)[1..] == b;
  }

  lemma FrameStep(f: seq<byte>, b: seq<byte>)
    requires Fits(f)
    ensures Parse(f + b) == Parse(b).(frames := [f] + Parse(b).frames)
  {
    hide Known;
    assert (f + b)[..|f|] == f && (f + b)[|f|..] == b;
  }

  /** The head of a buffer: too short to tell, a byte to drop, a frame, or part of one. */
  datatype Head = Short | Bad | Whole(n: nat) | Part

  function HeadOf(b: seq<byte>): (h: Head)
    ensures h.Whole? ==> 2 <= h.n <= |b| && Fits(b[..h.n])
  {
    if |b| < 2 then Short
    else if !Known(b[0], b[1]) then Bad
    else
      KnownShort(b[0], b[1]);
      if |b| < b[0] + 1 then Part else Whole(b[0] + 1)
  }

  lemma ByHead(b: seq<byte>)
    ensures HeadOf(b).Short? || HeadOf(b).Part? ==> Parse(b) == Parsed([], b, 0)
    ensures HeadOf(b).Bad? ==> b == [b[0]] + b[1..] && Parse(b) == Parse(b[1..]).(slips := Parse(b[1..]).slips + 1)
    ensures HeadOf(b).Whole? ==>
              var n := HeadOf(b).n;
              b == b[..n] + b[n..] && Parse(b) == Parse(b[n..]).(frames := [b[..n]] + Parse(b[n..]).frames)
  {
    hide Known;
  }

  /** Every byte is dispatched in one frame, dropped, or still waiting. */
  lemma {:induction false} ParseConserves(b: seq<byte>)
    ensures |Flat(Parse(b).frames)| + Parse(b).slips + |Parse(b).rest| == |b|
    ensures Parse(b).slips == 0 ==> b == Flat(Parse(b).frames) + Parse(b).rest
    decreases |b|
  {
    hide Known, Parse, HeadOf;
    ByHead(b);
    match HeadOf(b)
    case Whole(n) =>
      ParseConserves(b[n..]);
      FlatCons(b[..n], Parse(b[n..]).frames);
    case Bad => ParseConserves(b[1..]);
    case Short =>
    case Part =>
  }

  lemma FlatCons(f: seq<byte>, fs: seq<seq<byte>>)
    ensures Flat([f] + fs) == f + Flat(fs)
  {
    assert ([f] + fs)[1..] == fs;
  }

  /** Cutting the stream anywhere changes nothing, whatever its bytes are. */
  lemma {:induction false} ParseSplit(a: seq<byte>, b: seq<byte>)
    ensures Parse(a + b) == Then(Parse(a), Parse(Parse(a).rest + b))
    decreases |a|
  {
    hide Known, Parse, HeadOf;
    ByHead(a);
    match HeadOf(a)
    case Whole(n) =>
      ParseSplit(a[n..], b);
      assert a + b == a[..n] + (a[n..] + b);
      FrameStep(a[..n], a[n..] + b);
    case Bad =>
      ParseSplit(a[1..], b);
      assert a + b == [a[0]] + (a[1..] + b);
      BadHead(a);
      SlipStep(a[0], a[1..] + b);
    case Short =>
    case Part =>
  }

  lemma BadHead(a: seq<byte>)
    requires HeadOf(a).Bad?
    ensures |a| >= 2 && !Known(a[0], a[1])
  {
  }

  /** Whole frames in front are dispatched as they are. */
  lemma {:induction false} ParseFrames(fs: seq<seq<byte>>, b: seq<byte>)
    requires AllFit(fs)
    ensures Parse(Flat(fs) + b) == Parse(b).(frames := fs + Parse(b).frames)
    decreases |fs|
  {
    hide Known, Parse;
    if fs == [] {
      assert Flat(fs) + b == b && fs + Parse(b).frames == Parse(b).frames;
    } else {
      assert Flat(fs) + b == fs[0] + (Flat(fs[1..]) + b);
      ParseFrames(fs[1..], b);
      FrameStep(fs[0], Flat(fs[1..]) + b);
      assert fs == [fs[0]] + fs[1..];
    }
  }

  // ---- any number of reads ------------------------------------------------

  /** Successive pumps: each parses what was left over with what was read. */
  function Pumps(b: seq<byte>, cuts: seq<seq<byte>>): (p: Parsed)
    decreases |cuts|
  {
    if cuts == [] then Parsed([], b, 0)
    else
      var p := Parse(b + cuts[0]);
      Then(p, Pumps(p.rest, cuts[1..]))
  }

  lemma ParseRest(b: seq<byte>)
    ensures Parse(Parse(b).rest) == Parsed([], Parse(b).rest, 0)
  {
    hide Known, Parse;
    ParseSplit(b, []);
    assert b + [] == b && Parse(b).rest + [] == Parse(b).rest;
    var p, q := Parse(b), Parse(Parse(b).rest);
    assert |p.frames| == |p.frames + q.frames|;
  }

  /** However a stream is cut into reads, the frames, the drops and what is left are those of the whole. */
  lemma {:induction false} Segmentation(b: seq<byte>, cuts: seq<seq<byte>>)
    requires Parse(b) == Parsed([], b, 0)
    ensures Pumps(b, cuts) == Parse(b + Flat(cuts))
    decreases |cuts|
  {
    hide Known, Parse;
    if cuts == [] {
      assert b + Flat(cuts) == b;
    } else {
      var p := Parse(b + cuts[0]);
      ParseRest(b + cuts[0]);
      Segmentation(p.rest, cuts[1..]);
      assert b + Flat(cuts) == (b + cuts[0]) + Flat(cuts[1..]);
      ParseSplit(b + cuts[0], Flat(cuts[1..]));
    }
  }

  /** Frames that fit the table, cut into any reads at all, are dispatched once each, in order, with no byte dropped. */
  lemma StreamRoundTrip(fs: seq<seq<byte>>, cuts: seq<seq<byte>>)
    requires AllFit(fs) && Flat(cuts) == Flat(fs)
    ensures Pumps([], cuts) == Parsed(fs, [], 0)
  {
    Segmentation([], cuts);
    assert [] + Flat(cuts) == Flat(fs) + [];
    ParseFrames(fs, []);
    assert fs + [] == fs;
  }

  /** So is every prefix of such a stream: whole frames are dispatched, a partial one waits. */
  lemma PrefixRoundTrip(fs: seq<seq<byte>>, f: seq<byte>, n: nat)
    requires AllFit(fs) && Fits(f) && n < |f|
    ensures Parse(Flat(fs) + f[..n]) == Parsed(fs, f[..n], 0)
  {
    ParseFrames(fs, f[..n]);
    assert fs + [] == fs;
  }
}
