/**
 Reassembly of client frames, twice: the unbounded buffer of the Python server
 and the 256-byte buffer of the C relay, against one reading of the stream.
 */
module Feed {
  import opened Basics

  const RX_CAP := 256
  const LEN_MAX := 200

  /** Where a connection stands: still open, hung up on a bad length byte, or dropped by a frame's side effects. */
  datatype End = Open | BadLength(len: byte) | Died

  /** Frame bodies handled in order, bytes not consumed, and how it ended. */
  datatype Fed = Fed(bodies: seq<seq<byte>>, rest: seq<byte>, end: End)

  /** What a stretch of stream amounts to; `lives(k)`: handling frame number `k` leaves the client alive. */
  function Split(b: seq<byte>, lives: nat -> bool, k: nat): (f: Fed)
    decreases |b|
  {
    if b == [] then Fed([], b, Open)
    else if b[0] == 0 || b[0] > LEN_MAX then Fed([], b, BadLength(b[0]))
    else if |b| < b[0] + 1 then Fed([], b, Open)
    else
      var n := b[0] + 1;
      if !lives(k) then Fed([b[1..n]], b[n..], Died)
      else
        var f := Split(b[n..], lives, k + 1);
        f.(bodies := [b[1..n]] + f.bodies)
  }

  /** A second stretch after a first: it only matters if the connection is still open. */
  function After(f: Fed, b: seq<byte>, lives: nat -> bool, k: nat): Fed {
    if f.end.Open? then
      var g := Split(f.rest + b, lives, k + |f.bodies|);
      Fed(f.bodies + g.bodies, g.rest, g.end)
    else f.(rest := f.rest + b)
  }

  /** Where the stream is cut does not matter, whatever it carries. */
  lemma {:induction false} SplitSplit(a: seq<byte>, b: seq<byte>, lives: nat -> bool, k: nat)
    ensures Split(a + b, lives, k) == After(Split(a, lives, k), b, lives, k)
    decreases |a|
  {
    var s := a + b;
    if a == [] {
      assert s == b && a + b == b;
      NoBodies(Split(b, lives, k));
    } else if a[0] == 0 || a[0] > LEN_MAX {
      assert s[0] == a[0];
    } else if |a| < a[0] + 1 {
      NoBodies(Split(s, lives, k));
    } else {
      var n := a[0] + 1;
      assert s[0] == a[0] && s[1..n] == a[1..n] && s[n..] == a[n..] + b;
      if lives(k) {
        SplitSplit(a[n..], b, lives, k + 1);
        BodiesFirst(a[1..n], Split(a[n..], lives, k + 1), b, lives, k);
      }
    }
  }

  lemma NoBodies(f: Fed)
    ensures [] + f.bodies == f.bodies
  {
  }

  lemma BodiesFirst(x: seq<byte>, f: Fed, b: seq<byte>, lives: nat -> bool, k: nat)
    ensures var g := After(f, b, lives, k + 1);
            After(f.(bodies := [x] + f.bodies), b, lives, k) == g.(bodies := [x] + g.bodies)
  {
    if f.end.Open? {
      var g := Split(f.rest + b, lives, k + 1 + |f.bodies|);
      assert [x] + (f.bodies + g.bodies) == ([x] + f.bodies) + g.bodies;
    }
  }

  /** An open connection waits with less than one frame, at most 200 bytes: the C buffer never fills. */
  lemma {:induction false} OpenRest(b: seq<byte>, lives: nat -> bool, k: nat)
    requires Split(b, lives, k).end.Open?
    ensures var r := Split(b, lives, k).rest;
            |r| <= LEN_MAX && forall j: nat :: Split(r, lives, j) == Fed([], r, Open)
    decreases |b|
  {
    if b != [] && |b| >= b[0] + 1 {
      OpenRest(b[b[0] + 1..], lives, k + 1);
    }
  }

  // ---- the reading, from the frames -----------------------------------------

  predicate Sized(bodies: seq<seq<byte>>) {
    forall i :: 0 <= i < |bodies| ==> 1 <= |bodies[i]| <= 200
  }

  /** The frames a client sends for these bodies: each behind its length. */
  function Framed(bodies: seq<seq<byte>>): seq<byte>
    requires Sized(bodies)
  {
    if bodies == [] then [] else [|bodies[0]|] + bodies[0] + Framed(bodies[1..])
  }

  /** Where handling stops: a bad length, part of a frame, or the death of the client. */
  ghost predicate EndsAt(f: Fed, lives: nat -> bool, k: nat) {
    match f.end
    case Open => f.rest == [] || (1 <= f.rest[0] <= 200 && |f.rest| <= f.rest[0])
    case BadLength(len) => f.rest != [] && f.rest[0] == len && !(1 <= len <= 200)
    case Died => f.bodies != [] && !lives(k + |f.bodies| - 1)
  }

  predicate AllLive(lives: nat -> bool, k: nat, n: nat) {
    forall j: nat :: k <= j < k + n ==> lives(j)
  }

  lemma SplitOne(x: seq<byte>, more: seq<byte>, lives: nat -> bool, k: nat)
    requires 1 <= |x| <= 200
    ensures var g := Split(more, lives, k + 1);
            Split([|x|] + x + more, lives, k) == if lives(k) then g.(bodies := [x] + g.bodies) else Fed([x], more, Died)
  {
    var b, n := [|x|] + x + more, |x| + 1;
    assert b[0] == |x| && b[1..n] == x && b[n..] == more;
  }

  lemma FramedFirst(x: seq<byte>, bodies: seq<seq<byte>>)
    requires Sized(bodies) && 1 <= |x| <= 200
    ensures Sized([x] + bodies) && Framed([x] + bodies) == [|x|] + x + Framed(bodies)
  {
    assert ([x] + bodies)[1..] == bodies;
  }

  /**
   The reading takes any stream apart without losing or inventing a byte: the
   frames handled, one behind the other, and then exactly what was not consumed;
   every frame but perhaps the last leaves the client alive.
   */
  ghost predicate Taken(b: seq<byte>, f: Fed, lives: nat -> bool, k: nat) {
    && Sized(f.bodies) && b == Framed(f.bodies) + f.rest && EndsAt(f, lives, k)
    && AllLive(lives, k, if f.end.Died? then |f.bodies| - 1 else |f.bodies|)
  }

  lemma {:induction false} SplitExact(b: seq<byte>, lives: nat -> bool, k: nat)
    ensures Taken(b, Split(b, lives, k), lives, k)
    decreases |b|
  {
    if b == [] || b[0] == 0 || b[0] > LEN_MAX || |b| < b[0] + 1 {
      assert Framed([]) + b == b;
    } else {
      var x, more := b[1..b[0] + 1], b[b[0] + 1..];
      assert b == [|x|] + x + more;
      SplitOne(x, more, lives, k);
      SplitExact(more, lives, k + 1);
      TakenFirst(x, more, Split(more, lives, k + 1), lives, k);
    }
  }

  lemma TakenFirst(x: seq<byte>, more: seq<byte>, g: Fed, lives: nat -> bool, k: nat)
    requires 1 <= |x| <= 200 && Taken(more, g, lives, k + 1)
    ensures Taken([|x|] + x + more, if lives(k) then g.(bodies := [x] + g.bodies) else Fed([x], more, Died), lives, k)
  {
    hide Framed;
    if lives(k) {
      FramedFirst(x, g.bodies);
      assert [|x|] + x + (Framed(g.bodies) + g.rest) == ([|x|] + x + Framed(g.bodies)) + g.rest;
    } else {
      FramedFirst(x, []);
      NoFrames();
      assert [|x|] + x + [] == [|x|] + x && [x] + [] == [x];
    }
  }

  lemma NoFrames()
    ensures Framed([]) == []
  {
  }

  /** What a client sends is handled frame by frame, once each and in order, whatever follows. */
  lemma {:induction false} FramesHandled(bodies: seq<seq<byte>>, tail: seq<byte>, lives: nat -> bool, k: nat)
    requires Sized(bodies) && AllLive(lives, k, |bodies|)
    ensures var g := Split(tail, lives, k + |bodies|);
            Split(Framed(bodies) + tail, lives, k) == g.(bodies := bodies + g.bodies)
    decreases |bodies|
  {
    hide Split, Framed;
    NoFrames();
    if bodies == [] {
      assert [] + tail == tail;
      NoBodies(Split(tail, lives, k));
    } else {
      var x, rest := bodies[0], bodies[1..];
      assert bodies == [x] + rest && lives(k);
      FramedFirst(x, rest);
      var more := Framed(rest) + tail;
      assert [|x|] + x + Framed(rest) + tail == [|x|] + x + more;
      SplitOne(x, more, lives, k);
      FramesHandled(rest, tail, lives, k + 1);
      InFront(x, rest, Split(tail, lives, k + |bodies|));
    }
  }

  lemma InFront(x: seq<byte>, rest: seq<seq<byte>>, g: Fed)
    ensures g.(bodies := [x] + (rest + g.bodies)) == g.(bodies := ([x] + rest) + g.bodies)
  {
    assert [x] + (rest + g.bodies) == ([x] + rest) + g.bodies;
  }

  /** Successive reads until the connection ends. */
  function Reads(f: Fed, cuts: seq<seq<byte>>, lives: nat -> bool, k: nat): Fed
    decreases |cuts|
  {
    if cuts == [] then f else Reads(After(f, cuts[0], lives, k), cuts[1..], lives, k)
  }

  function Joined(cuts: seq<seq<byte>>): seq<byte> {
    if cuts == [] then [] else cuts[0] + Joined(cuts[1..])
  }

  lemma {:induction false} ReadsWhole(b: seq<byte>, cuts: seq<seq<byte>>, lives: nat -> bool, k: nat)
    ensures Reads(Split(b, lives, k), cuts, lives, k) == Split(b + Joined(cuts), lives, k)
    decreases |cuts|
  {
    hide Split, After;
    if cuts == [] {
      assert b + Joined(cuts) == b;
    } else {
      SplitSplit(b, cuts[0], lives, k);
      ReadsWhole(b + cuts[0], cuts[1..], lives, k);
      assert (b + cuts[0]) + Joined(cuts[1..]) == b + Joined(cuts);
    }
  }

  /** Two segmentations of one stream: the same frames handled, the same drop at the same point. */
  lemma SameStream(a: seq<seq<byte>>, b: seq<seq<byte>>, lives: nat -> bool)
    requires Joined(a) == Joined(b)
    ensures Reads(Fed([], [], Open), a, lives, 0) == Reads(Fed([], [], Open), b, lives, 0)
  {
    ReadsWhole([], a, lives, 0);
    ReadsWhole([], b, lives, 0);
    assert Split([], lives, 0) == Fed([], [], Open);
  }

  // ---- the Python server ----------------------------------------------------

  class Buffer {
    var rx: seq<byte>

    ghost predicate Valid(lives: nat -> bool)
      reads this
    {
      forall j: nat :: Split(rx, lives, j) == Fed([], rx, Open)
    }

    constructor ()
      ensures rx == []
    {
      rx := [];
    }

    /** Server.service on one received chunk; `k` frames were handled before. */
    method Service(data: seq<byte>, lives: nat -> bool, k: nat) returns (bodies: seq<seq<byte>>, end: End)
      requires Valid(lives)
      modifies this
      ensures Fed(bodies, rx, end) == Split(old(rx) + data, lives, k)
      ensures end.Open? ==> Valid(lives)
    {
      hide Split, Ahead;
      rx := rx + data;
      ghost var all := rx;
      bodies, end := [], Open;
      FromHere(Split(all, lives, k));
      Stops([], all, lives, k);
      while rx != []
        invariant Split(all, lives, k) == Ahead(bodies, Split(rx, lives, k + |bodies|))
        invariant end.Open?
        decreases |rx|
      {
        Stops(bodies, rx, lives, k + |bodies|);
        var need := rx[0] as int + 1;
        if need < 2 || rx[0] > LEN_MAX {
          end := BadLength(rx[0]);
          break;
        }
        if |rx| < need { break; }
        var body := rx[1..need];
        OneMore(bodies, rx, lives, k);
        var alive := lives(k + |bodies|);
        rx := rx[need..];
        bodies := bodies + [body];
        if !alive {
          end := Died;
          return;
        }
      }
      Stops(bodies, rx, lives, k + |bodies|);
      if end.Open? { OpenRest(all, lives, k); }
    }
  }

  lemma FromHere(f: Fed)
    ensures Ahead([], f) == f
  {
    assert [] + f.bodies == f.bodies;
  }

  function Ahead(bodies: seq<seq<byte>>, f: Fed): Fed {
    f.(bodies := bodies + f.bodies)
  }

  /** Where the loop stops: nothing left, part of a frame, or a length no frame has. */
  lemma Stops(bodies: seq<seq<byte>>, b: seq<byte>, lives: nat -> bool, k: nat)
    ensures b == [] || (0 < b[0] <= LEN_MAX && |b| < b[0] + 1) ==> Ahead(bodies, Split(b, lives, k)) == Fed(bodies, b, Open)
    ensures b != [] && (b[0] == 0 || b[0] > LEN_MAX) ==> Ahead(bodies, Split(b, lives, k)) == Fed(bodies, b, BadLength(b[0]))
  {
    assert bodies + [] == bodies;
  }

  lemma OneMore(bodies: seq<seq<byte>>, b: seq<byte>, lives: nat -> bool, k: nat)
    requires b != [] && 0 < b[0] <= LEN_MAX && |b| >= b[0] + 1
    ensures var n := b[0] + 1;
            Ahead(bodies, Split(b, lives, k + |bodies|)) ==
            if lives(k + |bodies|) then Ahead(bodies + [b[1..n]], Split(b[n..], lives, k + |bodies| + 1))
            else Fed(bodies + [b[1..n]], b[n..], Died)
  {
    var n := b[0] + 1;
    var f := Split(b[n..], lives, k + |bodies| + 1);
    assert bodies + ([b[1..n]] + f.bodies) == (bodies + [b[1..n]]) + f.bodies;
  }

  lemma BodyOf(cells: seq<byte>, len: nat, need: nat)
    requires 1 <= need <= len <= |cells|
    ensures cells[..len][1..need] == cells[1..need]
  {
  }

  // ---- the C relay ------------------------------------------------------------

  class FixedBuffer {
    const rx: array<byte>
    var rxLen: nat

    ghost predicate Shape()
      reads this
    {
      rx.Length == RX_CAP && rxLen <= RX_CAP
    }

    ghost function Contents(): seq<byte>
      requires Shape()
      reads this, rx
    {
      rx[..rxLen]
    }

    ghost predicate Valid(lives: nat -> bool)
      reads this, rx
    {
      Shape() && rxLen <= LEN_MAX && forall j: nat :: Split(Contents(), lives, j) == Fed([], Contents(), Open)
    }

    constructor ()
      ensures Shape() && Contents() == []
    {
      rx := new byte[RX_CAP](_ => 0);
      rxLen := 0;
    }

    /** Take what fits of `p`. */
    method Take(p: seq<byte>) returns (n: nat)
      requires Shape()
      modifies rx, this`rxLen
      ensures n == Min(|p|, RX_CAP - old(rxLen))
      ensures Shape() && Contents() == old(Contents()) + p[..n]
    {
      var space := RX_CAP - rxLen;
      n := if |p| < space then |p| else space;
      forall i | 0 <= i < n { rx[rxLen + i] := p[i]; }
      rxLen := rxLen + n;
    }

    /** Remove the frame at the front. */
    method Remove(need: nat)
      requires Shape() && need <= rxLen
      modifies rx, this`rxLen
      ensures Shape() && Contents() == old(Contents())[need..]
    {
      forall i | 0 <= i < rxLen - need { rx[i] := rx[i + need]; }
      rxLen := rxLen - need;
    }

    /** The inner loop of feed: every whole frame in the buffer. */
    method Drain(lives: nat -> bool, k: nat) returns (bodies: seq<seq<byte>>, end: End)
      requires Shape()
      modifies rx, this`rxLen
      ensures Shape() && Fed(bodies, Contents(), end) == Split(old(Contents()), lives, k)
    {
      hide Split, Ahead;
      ghost var all := Contents();
      bodies, end := [], Open;
      FromHere(Split(all, lives, k));
      while rxLen != 0
        invariant Shape() && end.Open?
        invariant Split(all, lives, k) == Ahead(bodies, Split(Contents(), lives, k + |bodies|))
        decreases rxLen
      {
        Stops(bodies, Contents(), lives, k + |bodies|);
        var lenb := rx[0];
        var need := lenb as int + 1;
        if need < 2 || lenb > LEN_MAX {
          end := BadLength(lenb);
          break;
        }
        if rxLen < need { break; }
        ghost var b := Contents();
        var body := rx[1..need];
        BodyOf(rx[..], rxLen, need);
        assert body == b[1..need];
        OneMore(bodies, b, lives, k);
        var alive := lives(k + |bodies|);
        Remove(need);
        bodies := bodies + [body];
        if !alive {
          end := Died;
          return;
        }
      }
      Stops(bodies, Contents(), lives, k + |bodies|);
    }

    /**
     feed on one received chunk: the 256-byte buffer is refilled as it drains, the
     overflow drop is never reached, and the outcome is that of the unbounded buffer.
     */
    method Feed(p: seq<byte>, lives: nat -> bool, k: nat) returns (bodies: seq<seq<byte>>, end: End, overflow: bool)
      requires Valid(lives)
      modifies rx, this`rxLen
      ensures Shape() && !overflow
      ensures var f := Split(old(Contents()) + p, lives, k);
              bodies == f.bodies && end == f.end && (end.Open? ==> Valid(lives) && Contents() == f.rest)
    {
      hide Split;
      ghost var before := Contents();
      bodies, end, overflow := [], Open, false;
      var n := 0;
      NothingFed(before, p, lives, k);
      while n < |p|
        invariant 0 <= n <= |p| && !overflow && end.Open? && Valid(lives)
        invariant Split(before + p[..n], lives, k) == Fed(bodies, Contents(), Open)
      {
        if RX_CAP - rxLen == 0 { assert false; }
        var took := Take(p[n..]);
        ghost var filled := Contents();
        var more, e := Drain(lives, k + |bodies|);
        MoreFed(before, p, n, took, bodies, lives, k);
        n := n + took;
        bodies, end := bodies + more, e;
        if !end.Open? {
          EarlyEnd(before, p, n, lives, k);
          return;
        }
        OpenRest(before + p[..n], lives, k);
      }
      assert p[..n] == p;
    }
  }

  lemma NothingFed(b: seq<byte>, p: seq<byte>, lives: nat -> bool, k: nat)
    requires forall j: nat :: Split(b, lives, j) == Fed([], b, Open)
    ensures Split(b + p[..0], lives, k) == Fed([], b, Open)
  {
    assert b + p[..0] == b;
  }

  lemma SliceMore(b: seq<byte>, p: seq<byte>, n: nat, took: nat)
    requires n + took <= |p|
    ensures b + p[..n + took] == (b + p[..n]) + p[n..][..took]
  {
    assert p[..n + took] == p[..n] + p[n..][..took];
  }

  /** One refill of the buffer. */
  lemma MoreFed(b: seq<byte>, p: seq<byte>, n: nat, took: nat, bodies: seq<seq<byte>>, lives: nat -> bool, k: nat)
    requires n + took <= |p|
    requires Split(b + p[..n], lives, k).bodies == bodies && Split(b + p[..n], lives, k).end.Open?
    ensures var f := Split(b + p[..n], lives, k);
            var g := Split(f.rest + p[n..][..took], lives, k + |bodies|);
            Split(b + p[..n + took], lives, k) == Fed(bodies + g.bodies, g.rest, g.end)
  {
    hide Split;
    var x := p[n..][..took];
    SliceMore(b, p, n, took);
    SplitSplit(b + p[..n], x, lives, k);
  }

  /** A connection that ended early ended as the whole chunk would have ended it. */
  lemma EarlyEnd(b: seq<byte>, p: seq<byte>, n: nat, lives: nat -> bool, k: nat)
    requires n <= |p| && !Split(b + p[..n], lives, k).end.Open?
    ensures var f, g := Split(b + p[..n], lives, k), Split(b + p, lives, k);
            g.bodies == f.bodies && g.end == f.end
  {
    hide Split;
    assert b + p == (b + p[..n]) + p[n..];
    SplitSplit(b + p[..n], p[n..], lives, k);
  }
}
