/** The two in-flight descriptions under pop, append and concatenation. */
module Streams {
  import opened Basics
  import opened Console
  import opened Match
  import opened Invariant

  // ---- Script -------------------------------------------------------------

  /** What is in flight in the guest's own epoch never runs past the host. */
  lemma {:induction false} ScriptBound(q: seq<Frame>, bs: seq<Base>, d: nat, ep: nat, hold: bool, pos: nat, x: int, end: int)
    requires Script(q, bs, d, ep, hold, pos, x, end)
    ensures ep < |bs|
    ensures ep + 1 == |bs| ==> !hold && x <= end
    ensures ep + 1 < |bs| ==> x <= bs[ep + 1].r - LEAD + d
    decreases |q|
  {
    if q != [] {
      match q[0]
      case Input(_, _, _, _) => ScriptBound(q[1..], bs, d, ep, hold, pos, x + 1, end);
      case Crc(_, _, _, _) => ScriptBound(q[1..], bs, d, ep, hold, pos, x, end);
      case Begin(_, _) =>
      case Data(_, _, _) =>
      case End(_) =>
    }
  }

  /** Frames that continue the script from where the host stood extend it, new epochs included. */
  lemma {:induction false} ScriptConcat(q: seq<Frame>, t: seq<Frame>, bs: seq<Base>, bs': seq<Base>, d: nat,
                                        ep: nat, hold: bool, pos: nat, x: int, mid: int, end: int)
    requires Script(q, bs, d, ep, hold, pos, x, mid)
    requires |bs| > 0 && bs <= bs'
    requires Script(t, bs', d, |bs| - 1, false, 0, mid, end)
    ensures Script(q + t, bs', d, ep, hold, pos, x, end)
    decreases |q|
  {
    if q == [] {
      assert q + t == t;
    } else {
      assert (q + t)[0] == q[0] && (q + t)[1..] == q[1..] + t;
      match q[0]
      case Input(_, _, _, _) => ScriptConcat(q[1..], t, bs, bs', d, ep, hold, pos, x + 1, mid, end);
      case Crc(_, _, _, _) => ScriptConcat(q[1..], t, bs, bs', d, ep, hold, pos, x, mid, end);
      case Begin(_, _) => ScriptConcat(q[1..], t, bs, bs', d, ep, true, 0, x, mid, end);
      case Data(_, _, b) => ScriptConcat(q[1..], t, bs, bs', d, ep, true, pos + |b|, x, mid, end);
      case End(_) => ScriptConcat(q[1..], t, bs, bs', d, ep + 1, false, 0, bs[ep + 1].r + d, mid, end);
    }
  }

  /** The chunk loop: from any chunk position on, the rest of the image and END. */
  lemma {:induction false} ScriptChunks(bs: seq<Base>, d: nat, pos: nat, x: int)
    requires |bs| > 1 && pos <= IMG_TOTAL
    requires x == bs[|bs| - 1].r - LEAD + d
    ensures Script(Chunks(|bs| - 1, bs[|bs| - 1].img, pos), bs, d, |bs| - 2, true, pos, x, bs[|bs| - 1].r + d)
    decreases IMG_TOTAL - pos
  {
    var img := bs[|bs| - 1].img;
    var q := Chunks(|bs| - 1, img, pos);
    if pos == IMG_TOTAL {
      assert q[1..] == [];
    } else {
      ScriptChunks(bs, d, pos + ChunkLen(pos), x);
      assert q[1..] == Chunks(|bs| - 1, img, pos + ChunkLen(pos));
    }
  }

  lemma ScriptPush(bs: seq<Base>, d: nat, x: int)
    requires |bs| > 1
    requires x == bs[|bs| - 1].r - LEAD + d
    ensures Script(PushFrames(|bs| - 1, bs[|bs| - 1].r, bs[|bs| - 1].img), bs, d, |bs| - 2, false, 0, x, bs[|bs| - 1].r + d)
  {
    var q := PushFrames(|bs| - 1, bs[|bs| - 1].r, bs[|bs| - 1].img);
    ScriptChunks(bs, d, 0, x);
    assert q[1..] == Chunks(|bs| - 1, bs[|bs| - 1].img, 0);
  }

  // ---- Stream -------------------------------------------------------------

  lemma {:induction false} StreamRange(q: seq<Frame>, d: nat, e: nat, x: int, end: int)
    requires Stream(q, d, e, x, end)
    ensures x <= end
    ensures forall i :: 0 <= i < |q| && q[i].ep == e && q[i].Input? ==> x <= q[i].tick < end
    ensures forall i :: 0 <= i < |q| && q[i].ep == e && q[i].Crc? ==> x - d - 1 <= q[i].tick <= end - d - 1
    decreases |q|
  {
    if q != [] {
      var y := if q[0].ep == e && q[0].Input? then x + 1 else x;
      StreamRange(q[1..], d, e, y, end);
      assert forall i :: 0 < i < |q| ==> q[i] == q[1..][i - 1];
    }
  }

  /** No frame of the epoch in flight: nothing is expected. */
  lemma {:induction false} StreamNone(q: seq<Frame>, d: nat, e: nat, x: int)
    requires forall i :: 0 <= i < |q| ==> q[i].ep != e
    ensures Stream(q, d, e, x, x)
    decreases |q|
  {
    if q != [] {
      StreamNone(q[1..], d, e, x);
    }
  }

  lemma {:induction false} StreamConcat(q: seq<Frame>, t: seq<Frame>, d: nat, e: nat, x: int, mid: int, end: int)
    requires Stream(q, d, e, x, mid) && Stream(t, d, e, mid, end)
    ensures Stream(q + t, d, e, x, end)
    decreases |q|
  {
    if q == [] {
      assert q + t == t;
    } else {
      assert (q + t)[0] == q[0] && (q + t)[1..] == q[1..] + t;
      StreamConcat(q[1..], t, d, e, if q[0].ep == e && q[0].Input? then x + 1 else x, mid, end);
    }
  }

  // ---- Requests -----------------------------------------------------------

  lemma {:induction false} RequestsConcat(q: seq<Frame>, t: seq<Frame>)
    ensures Requests(q + t) == Requests(q) + Requests(t)
    decreases |q|
  {
    if q == [] {
      assert q + t == t;
    } else {
      assert (q + t)[0] == q[0] && (q + t)[1..] == q[1..] + t;
      RequestsConcat(q[1..], t);
    }
  }

  lemma {:induction false} NoRequests(q: seq<Frame>)
    requires forall i :: 0 <= i < |q| ==> !q[i].Resync?
    ensures Requests(q) == 0
    decreases |q|
  {
    if q != [] {
      NoRequests(q[1..]);
    }
  }

  /** One request per epoch: frames of a single epoch hold at most one, and only if it was sent. */
  lemma {:induction false} OneRequest(q: seq<Frame>, e: nat)
    requires forall i :: 0 <= i < |q| ==> q[i].ep == e
    requires forall i, j :: 0 <= i < j < |q| && q[i].Resync? && q[j].Resync? ==> q[i].ep < q[j].ep
    ensures Requests(q) <= 1
    ensures Requests(q) == 1 ==> exists i :: 0 <= i < |q| && q[i].Resync?
    decreases |q|
  {
    if q != [] {
      var t := q[1..];
      assert forall i :: 0 <= i < |t| ==> t[i] == q[i + 1];
      if q[0].Resync? {
        NoRequests(t);
      } else {
        OneRequest(t, e);
        if Requests(t) == 1 {
          var i :| 0 <= i < |t| && t[i].Resync?;
          assert q[i + 1].Resync?;
        }
      }
    }
  }

  lemma PrefixPop(q: seq<Frame>, i: nat)
    requires i < |q|
    ensures Requests(q[..i + 1]) == Bit(q[0].Resync?) + Requests(q[1..][..i])
  {
    assert q[..i + 1][1..] == q[1..][..i];
  }
}
