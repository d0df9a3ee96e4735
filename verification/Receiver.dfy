/** SES_PUMP: the 256-byte circular accumulator and the frame buffer. */
module Receiver {
  import opened Basics
  import opened Framing

  const RX_CELLS := 256
  const FRM_CELLS := 128         // FRMBUF runs up to LOBBY_CACHE
  const READ_MAX := 64

  /** `n` bytes of a ring from index `rd` on. */
  function Window(ring: seq<byte>, rd: byte, n: nat): (s: seq<byte>)
    requires |ring| == RX_CELLS
    ensures |s| == n
  {
    seq(n, i requires 0 <= i < n => ring[At(rd, i)])
  }

  /** The index `k` places on, wrapping. */
  function At(rd: byte, k: nat): (i: byte) {
    (rd + k) % 256
  }

  lemma AtNext(rd: byte, k: nat)
    ensures At(rd, 0) == rd && (At(rd, k) + 1) % 256 == At(rd, k + 1)
  {
  }

  lemma AtTwice(rd: byte, k: nat, i: nat)
    ensures At(At(rd, k), i) == At(rd, k + i)
  {
  }

  lemma AtApart(rd: byte, i: nat, j: nat)
    requires i < j < RX_CELLS
    ensures At(rd, i) != At(rd, j)
  {
  }

  lemma AtSize(wr: byte, rd: byte)
    ensures At(rd, (wr - rd) % 256) == wr
  {
  }

  lemma SizeAt(rd: byte, n: nat)
    requires n < RX_CELLS
    ensures (At(rd, n) - rd) % 256 == n
  {
  }

  lemma WindowPush(ring: seq<byte>, rd: byte, n: nat, x: byte)
    requires |ring| == RX_CELLS && n < RX_CELLS
    ensures Window(ring[At(rd, n) := x], rd, n + 1) == Window(ring, rd, n) + [x]
  {
    hide At;
    forall i | 0 <= i < n ensures At(rd, i) != At(rd, n) { AtApart(rd, i, n); }
  }

  lemma WindowDrop(ring: seq<byte>, rd: byte, n: nat, k: nat)
    requires |ring| == RX_CELLS && k <= n
    ensures Window(ring, At(rd, k), n - k) == Window(ring, rd, n)[k..]
  {
    hide At;
    var a, b := Window(ring, At(rd, k), n - k), Window(ring, rd, n)[k..];
    forall i | 0 <= i < n - k
      ensures a[i] == b[i]
    {
      AtTwice(rd, k, i);
    }
  }

  lemma WindowAt(ring: seq<byte>, rd: byte, n: nat, i: nat)
    requires |ring| == RX_CELLS && i < n
    ensures Window(ring, rd, n)[i] == ring[At(rd, i)]
  {
  }

  lemma LeftOver(wr: byte, rd: byte, n: nat)
    requires n <= (wr - rd) % 256
    ensures (wr - At(rd, n)) % 256 == (wr - rd) % 256 - n
  {
    var m := (wr - rd) % 256;
    AtSize(wr, rd);
    AtTwice(rd, n, m - n);
    SizeAt(At(rd, n), m - n);
  }

  class Receiver {
    const rxacc: array<byte>
    const frmbuf: array<byte>
    var wr: byte
    var rd: byte
    var slips: byte              // DIAG_SLIP, saturating

    ghost predicate Shape()
      reads this
    {
      rxacc.Length == RX_CELLS && frmbuf.Length == FRM_CELLS && rxacc != frmbuf
    }

    /** The bytes buffered: (wr - rd) & $FF of them. */
    ghost function Contents(): seq<byte>
      requires Shape()
      reads this, rxacc
    {
      Window(rxacc[..], rd, (wr - rd) % 256)
    }

    /** Between pumps at most 99 bytes wait, so a read of 64 never overruns the ring. */
    ghost predicate Valid()
      reads this, rxacc
    {
      Shape() && |Contents()| < FRAME_MAX
    }

    constructor ()
      ensures Valid() && Contents() == [] && slips == 0 && fresh(rxacc) && fresh(frmbuf)
    {
      rxacc := new byte[RX_CELLS](_ => 0);
      frmbuf := new byte[FRM_CELLS](_ => 0);
      wr, rd, slips := 0, 0, 0;
    }

    /** Copy one read into the ring at `wr`, wrapping. */
    method Accumulate(read: seq<byte>)
      requires Valid() && |read| <= READ_MAX
      modifies this`wr, rxacc
      ensures Shape() && Contents() == old(Contents()) + read
    {
      hide Window, At;
      ghost var n := |Contents()|;
      AtSize(wr, rd);
      var i := 0;
      while i < |read|
        invariant 0 <= i <= |read| && Shape()
        invariant wr == At(rd, n + i)
        invariant Window(rxacc[..], rd, n + i) == old(Contents()) + read[..i]
      {
        WindowPush(rxacc[..], rd, n + i, read[i]);
        AtNext(rd, n + i);
        rxacc[wr] := read[i];
        wr := (wr + 1) % 256;
        i := i + 1;
        assert read[..i] == read[..i - 1] + [read[i - 1]];
      }
      SizeAt(rd, n + i);
      assert read[..i] == read;
    }

    /** Move `n` bytes from the ring into the frame buffer. */
    method Extract(n: nat) returns (frame: seq<byte>)
      requires Shape() && n <= |Contents()| && n <= FRM_CELLS
      modifies this`rd, frmbuf
      ensures Shape() && frame == old(Contents())[..n] && frmbuf[..n] == frame
      ensures Contents() == old(Contents())[n..]
    {
      hide Window, At;
      ghost var ring, rd0, c := rxacc[..], rd, Contents();
      AtNext(rd0, 0);
      var i := 0;
      while i < n
        invariant 0 <= i <= n && rxacc[..] == ring
        invariant rd == At(rd0, i)
        invariant forall k :: 0 <= k < i ==> frmbuf[k] == c[k]
      {
        WindowAt(ring, rd0, |c|, i);
        AtNext(rd0, i);
        frmbuf[i] := rxacc[rd];
        rd := (rd + 1) % 256;
        i := i + 1;
      }
      WindowDrop(ring, rd0, |c|, n);
      LeftOver(wr, rd0, n);
      frame := frmbuf[..n];
      assert frame == c[..n];
    }

    method Slip()
      requires Shape() && |Contents()| > 0
      modifies this`rd, this`slips
      ensures Shape() && Contents() == old(Contents())[1..] && slips == Min(255, old(slips) + 1)
    {
      hide Window, At;
      WindowDrop(rxacc[..], rd, (wr - rd) % 256, 1);
      LeftOver(wr, rd, 1);
      AtNext(rd, 0);
      rd := (rd + 1) % 256;
      if slips != 0xFF { slips := slips + 1; }
    }

    /**
     One pump: a read of at most 64 bytes, then the parse loop.  The frames are
     handed to SES_ONFRAME in the order returned.
     */
    method Pump(read: seq<byte>) returns (frames: seq<seq<byte>>)
      requires Valid() && |read| <= READ_MAX
      modifies this`wr, this`rd, this`slips, rxacc, frmbuf
      ensures Valid()
      ensures frames == Parse(old(Contents()) + read).frames
      ensures Contents() == Parse(old(Contents()) + read).rest
      ensures slips == Min(255, old(slips) + Parse(old(Contents()) + read).slips)
    {
      hide Window, Parse, Known, At;
      Accumulate(read);
      ghost var all, done, before := Contents(), 0, slips;
      frames := [];
      while true
        invariant Shape()
        invariant Parse(all) == Parse(Contents()).(frames := frames + Parse(Contents()).frames, slips := done + Parse(Contents()).slips)
        invariant slips == Min(255, before + done)
        decreases |Contents()|
      {
        ghost var b := Contents();
        ByHead(b);
        var n := (wr - rd) % 256;
        if n < 2 { break; }
        var len, kind := rxacc[rd], rxacc[(rd + 1) % 256];
        WindowAt(rxacc[..], rd, n, 0);
        WindowAt(rxacc[..], rd, n, 1);
        AtNext(rd, 0);
        if !Known(len, kind) {
          Slip();
          done := done + 1;
        } else {
          KnownShort(len, kind);
          if n < len + 1 { break; }
          var f := Extract(len + 1);
          frames := frames + [f];
        }
      }
      ParseShape(all);
      assert frames + [] == frames;
    }
  }
}
