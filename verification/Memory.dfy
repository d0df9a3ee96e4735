/** Console memory in place: IMG_GET/IMG_PUT, the chunk loops of a push, the cells a rebase restores, LS_CKSUM. */
module Memory {
  import opened Basics
  import opened Console
  import opened Wire
  import opened Image
  import opened CellRep
  import Check = Checksum

  // ---- cells outside the image that a rebase sets -------------------------

  const ISR_SAVE := 0x1A8
  const ISR_LIVE := 0x100
  const MIRRORS := 0x8196        // SC_CNT2..SC_CNT7
  const COUNTDOWNS := 0x129      // BX_CNT2_LO..BX_CNT4_HI
  const QUIESCENT := 0x81AF
  const MATCHOVER := 0x17C

  /** RS_CLAMP_ISR: saved and live interrupt vector back to the EXEC default $1126. */
  function Clamped(m: seq<word>): (r: seq<word>)
    requires MemOk(m)
    ensures MemOk(r)
  {
    m[ISR_SAVE := 0x26][ISR_LIVE := 0x26][ISR_SAVE + 1 := 0x11][ISR_LIVE + 1 := 0x11]
  }

  /** `n` cells from `src` on copied to `dst`. */
  function Copied(m: seq<word>, src: nat, dst: nat, n: nat): (r: seq<word>)
    requires |m| == MEM_SIZE && src + n <= MEM_SIZE && dst + n <= MEM_SIZE
    ensures |r| == MEM_SIZE
    ensures forall a :: 0 <= a < MEM_SIZE ==> r[a] == if dst <= a < dst + n then m[src + (a - dst)] else m[a]
  {
    m[..dst] + m[src..src + n] + m[dst + n..]
  }

  /** BX_REBASE_HOOK: the three native countdowns from their mirrors. */
  function Restored(m: seq<word>): (r: seq<word>)
    requires MemOk(m)
    ensures MemOk(r)
  {
    Copied(m, MIRRORS, COUNTDOWNS, 6)
  }

  /** The mirror half of BX_GAME_TICK. */
  function Mirrored(m: seq<word>): (r: seq<word>)
    requires MemOk(m)
    ensures MemOk(r)
  {
    Copied(m, COUNTDOWNS, MIRRORS, 6)[QUIESCENT := if m[MATCHOVER] == 0 then 0 else 1]
  }

  /** Right after a tick the mirrors are current: restoring from them is a no-op. */
  lemma MirrorRestore(m: seq<word>)
    requires MemOk(m)
    ensures Restored(Mirrored(m)) == Mirrored(m)
  {
    assert forall a :: 0 <= a < MEM_SIZE ==> Restored(Mirrored(m))[a] == Mirrored(m)[a];
  }

  lemma GetSame(m: seq<word>, m': seq<word>, p: nat)
    requires MemOk(m) && MemOk(m') && p < IMG_TOTAL && m'[LaneOf(p).addr] == m[LaneOf(p).addr]
    ensures Get(m', p) == Get(m, p)
  {
  }

  lemma ClampImage(m: seq<word>)
    requires MemOk(m)
    ensures ImageOf(Clamped(m)) == Clamp(ImageOf(m))
  {
    hide Get;
    forall p | 0 <= p < IMG_TOTAL
      ensures ImageOf(Clamped(m))[p] == Clamp(ImageOf(m))[p]
    {
      if p != ISR_POS && p != ISR_POS + 1 {
        LanesDisjoint(p, ISR_POS);
        LanesDisjoint(p, ISR_POS + 1);
        GetSame(m, Clamped(m), p);
      } else {
        ClampedIsr(m);
      }
    }
  }

  lemma ClampedIsr(m: seq<word>)
    requires MemOk(m)
    ensures Get(Clamped(m), ISR_POS) == 0x26 && Get(Clamped(m), ISR_POS + 1) == 0x11
  {
  }

  lemma RestoreImage(m: seq<word>)
    requires MemOk(m)
    ensures ImageOf(Restored(m)) == ImageOf(m)
  {
    hide Get;
    forall p | 0 <= p < IMG_TOTAL
      ensures ImageOf(Restored(m))[p] == ImageOf(m)[p]
    {
      NotNative(p);
      GetSame(m, Restored(m), p);
    }
  }

  /** No image position lives in a native countdown or in the live vector. */
  lemma NotNative(p: nat)
    requires p < IMG_TOTAL
    ensures !(COUNTDOWNS <= LaneOf(p).addr < COUNTDOWNS + 6)
  {
    if p >= IMG_S3 { assert RS_TAILTBL[p - IMG_S3] in RS_TAILTBL; }
  }

  /** What RS_REBASE does to memory, on both sides. */
  function Rebased(m: seq<word>): (r: seq<word>)
    requires MemOk(m)
    ensures MemOk(r)
  {
    Restored(Clamped(m))
  }

  lemma RebasedImage(m: seq<word>)
    requires MemOk(m)
    ensures ImageOf(Rebased(m)) == Clamp(ImageOf(m))
  {
    hide ImageOf, Clamped, Restored;
    ClampImage(m);
    RestoreImage(Clamped(m));
  }

  /**
   Resync equality in memory: a guest with anything at all in memory that has
   applied the host's image and rebased agrees with the rebased host on every
   image position, on the live interrupt vector and on the three countdowns.
   */
  lemma ResyncMemory(h: seq<word>, g: seq<word>)
    requires MemOk(h) && MemOk(g) && ImageOf(g) == ImageOf(h)
    ensures ImageOf(Rebased(g)) == ImageOf(Rebased(h)) == Clamp(ImageOf(h))
    ensures forall a :: a in {ISR_LIVE, ISR_LIVE + 1} || COUNTDOWNS <= a < COUNTDOWNS + 6 ==> Rebased(g)[a] == Rebased(h)[a]
  {
    hide Get;
    RebasedImage(h);
    RebasedImage(g);
    LiveVector(h);
    LiveVector(g);
    forall a | COUNTDOWNS <= a < COUNTDOWNS + 6
      ensures Rebased(g)[a] == Rebased(h)[a]
    {
      MirrorAt(h, a - COUNTDOWNS);
      MirrorAt(g, a - COUNTDOWNS);
    }
  }

  lemma LiveVector(m: seq<word>)
    requires MemOk(m)
    ensures Rebased(m)[ISR_LIVE] == 0x26 && Rebased(m)[ISR_LIVE + 1] == 0x11
  {
  }

  lemma MirrorAt(m: seq<word>, i: nat)
    requires MemOk(m) && i < 6
    ensures Rebased(m)[COUNTDOWNS + i] == ImageOf(m)[IMG_S3 + 4 + i]
  {
    assert RS_TAILTBL[4 + i] == MIRRORS + i;
  }

  /** A rebase, cell by cell: the vector $1126 in both places, the six countdown cells, and nothing else. */
  lemma RebasedCells(m: seq<word>, a: nat)
    requires MemOk(m) && a < 0x1_0000
    ensures Rebased(m)[a] ==
            if a in {0x100, 0x1A8} then 0x26
            else if a in {0x101, 0x1A9} then 0x11
            else if 0x129 <= a < 0x12F then m[a - 0x129 + 0x8196]
            else m[a]
  {
  }

  /** The end of a tick, cell by cell: six mirrors, the quiescent flag, and nothing else. */
  lemma MirroredCells(m: seq<word>, a: nat)
    requires MemOk(m) && a < 0x1_0000
    ensures Mirrored(m)[a] ==
            if 0x8196 <= a < 0x819C then m[a - 0x8196 + 0x129]
            else if a == 0x81AF then Bit(m[0x17C] != 0)
            else m[a]
  {
  }

  /** The image is quiet exactly when the match-over cell $017C is set. */
  lemma QuietCell(m: seq<word>)
    requires MemOk(m)
    ensures Quiet(ImageOf(m)) <==> m[0x17C] != 0
  {
    hide Get;
    ByteAt(m, 0x17C - 0x15D);
  }

  lemma ConfinedSelf(m: seq<word>)
    ensures Confined(m, m)
  {
  }

  // ---- the memory itself --------------------------------------------------

  class Ram {
    const mem: array<word>

    ghost predicate Valid()
      reads this, mem
    {
      mem.Length == MEM_SIZE && MemOk(mem[..])
    }

    constructor ()
      ensures Valid() && fresh(mem)
    {
      mem := new word[MEM_SIZE](_ => 0);
    }

    method ImgGet(p: nat) returns (b: byte)
      requires Valid() && p < IMG_TOTAL
      ensures b == Get(mem[..], p)
    {
      if p < IMG_S1 {
        b := mem[p + SCRATCH];
      } else if p < IMG_S3 {
        var addr, odd;
        if p < IMG_S2 {
          addr, odd := (p - IMG_S1) / 2 + BACKTAB, (p - IMG_S1) % 2;
        } else {
          addr, odd := (p - IMG_S2) / 2 + OBJECTS, (p - IMG_S2) % 2;
        }
        b := if odd == 0 then mem[addr] % 256 else mem[addr] / 256;
      } else {
        b := mem[RS_TAILTBL[p - IMG_S3]];
      }
    }

    method ImgPut(p: nat, b: byte)
      requires Valid() && p < IMG_TOTAL
      modifies mem
      ensures Valid() && mem[..] == Put(old(mem[..]), p, b)
    {
      if p < IMG_S1 {
        mem[p + SCRATCH] := b;
      } else if p < IMG_S3 {
        var addr, odd;
        if p < IMG_S2 {
          addr, odd := (p - IMG_S1) / 2 + BACKTAB, (p - IMG_S1) % 2;
        } else {
          addr, odd := (p - IMG_S2) / 2 + OBJECTS, (p - IMG_S2) % 2;
        }
        mem[addr] := if odd == 0 then mem[addr] / 256 * 256 + b else mem[addr] % 256 + 256 * b;
      } else {
        mem[RS_TAILTBL[p - IMG_S3]] := b;
      }
    }

    /**
     The data path of RS_ON_STATE on whatever is in the frame buffer: a chunk
     inside a hold that lies wholly in the image is applied, anything else is
     refused, and in neither case is a cell outside the image written.
     */
    method Apply(hold: bool, f: seq<byte>) returns (refused: bool)
      requires Valid() && |f| >= 4 && f[0] < |f|
      modifies mem
      ensures Valid()
      ensures refused <==> !hold || f[0] <= 3 || f[3] >= 4 || Word(f[2], f[3]) + f[0] - 3 > IMG_TOTAL
      ensures refused ==> mem[..] == old(mem[..])
      ensures !refused ==> mem[..] == PutAll(old(mem[..]), Word(f[2], f[3]), f[4..f[0] + 1])
      ensures Confined(old(mem[..]), mem[..])
    {
      hide Put, PutAll, MemOk, Confined, ImageOf, Get, Word;
      ConfinedSelf(mem[..]);
      refused := true;
      if f[0] < 3 || !hold { return; }
      var n := f[0] - 3;
      if n <= 0 || f[3] >= 4 { return; }
      var p := Word(f[2], f[3]);
      if p + n >= IMG_TOTAL + 1 { return; }
      refused := false;
      ghost var data := f[4..f[0] + 1];
      var i := 0;
      while i < n
        invariant 0 <= i <= n == |data| && Valid()
        invariant PutAll(mem[..], p + i, data[i..]) == PutAll(old(mem[..]), p, data)
      {
        PutStep(mem[..], p + i, data, i);
        ImgPut(p + i, f[4 + i]);
        i := i + 1;
      }
      PutNone(mem[..], p + n);
      assert data[n..] == [];
      PutAllConfined(old(mem[..]), p, data);
    }

    /** The payload loop of RS_PUSH: `n` image bytes from `pos` on. */
    method Payload(pos: nat, n: nat) returns (b: seq<byte>)
      requires Valid() && pos + n <= IMG_TOTAL
      ensures b == ImageOf(mem[..])[pos..pos + n]
    {
      hide Get;
      b := [];
      var i := 0;
      while i < n
        invariant 0 <= i <= n && b == ImageOf(mem[..])[pos..pos + i]
      {
        var x := ImgGet(pos + i);
        b := b + [x];
        i := i + 1;
      }
    }

    /** The frames RS_PUSH writes, in order: BEGIN, every image byte once, END. */
    method PushAll(lo: byte, hi: byte, ghost r: int, ghost e: nat) returns (out: seq<seq<byte>>)
      requires Valid() && WordRep(lo, hi, r)
      ensures PushSendable(e, r, ImageOf(mem[..])) && out == EncodeAll(PushFrames(e, r, ImageOf(mem[..])))
    {
      hide Get, MemOk, ImageOf, Chunks, EncodeAll, Encode, Sendable;
      ghost var img := ImageOf(mem[..]);
      ghost var sent := [Begin(e, r)];
      out := [[5, FT_STATE, 0, 0xFF, lo, hi]];
      BeginBytes(e, r);
      var pos := 0;
      while pos != IMG_TOTAL
        invariant pos <= IMG_TOTAL
        invariant sent + Chunks(e, img, pos) == PushFrames(e, r, img)
        invariant AllSendable(sent) && out == EncodeAll(sent)
        decreases IMG_TOTAL - pos
      {
        var n := IMG_TOTAL - pos;
        if n >= RS_CHUNK { n := RS_CHUNK; }
        var b := Payload(pos, n);
        out := out + [[n + 3, FT_STATE, Low(pos), High(pos)] + b];
        ChunkBytes(e, img, sent, pos);
        sent := sent + [Data(e, pos, b)];
        pos := pos + n;
      }
      EndBytes(e, img, sent);
      out := out + [[3, FT_STATE, 1, 0xFF]];
    }

    /** RS_CLAMP_ISR and BX_REBASE_HOOK. */
    method Rebase()
      requires Valid()
      modifies mem
      ensures Valid() && mem[..] == Rebased(old(mem[..]))
    {
      mem[ISR_SAVE] := 0x26;
      mem[ISR_LIVE] := 0x26;
      mem[ISR_SAVE + 1] := 0x11;
      mem[ISR_LIVE + 1] := 0x11;
      Restore();
    }

    method Restore()
      requires Valid()
      modifies mem
      ensures Valid() && mem[..] == Restored(old(mem[..]))
    {
      var i := 0;
      while i < 6
        invariant 0 <= i <= 6 && mem[..] == Copied(old(mem[..]), MIRRORS, COUNTDOWNS, i)
      {
        mem[COUNTDOWNS + i] := mem[MIRRORS + i];
        i := i + 1;
      }
    }

    /** BX_GAME_TICK: the cart's tick leaves memory as `next`, then the countdowns are mirrored. */
    method GameTick(next: seq<word>)
      requires Valid() && MemOk(next)
      modifies mem
      ensures Valid() && mem[..] == Mirrored(next)
    {
      hide Mirrored;
      forall a | 0 <= a < MEM_SIZE { mem[a] := next[a]; }
      assert mem[..] == next;
      Mirror();
    }

    method Mirror()
      requires Valid()
      modifies mem
      ensures Valid() && mem[..] == Mirrored(old(mem[..]))
    {
      var i := 0;
      while i < 6
        invariant 0 <= i <= 6 && mem[..] == Copied(old(mem[..]), COUNTDOWNS, MIRRORS, i)
      {
        mem[MIRRORS + i] := mem[COUNTDOWNS + i];
        i := i + 1;
      }
      mem[QUIESCENT] := if mem[MATCHOVER] == 0 then 0 else 1;
    }

    /** LS_CKSUM: the loop over game scratch, then the tail cells one by one. */
    method Cksum() returns (sum: int)
      requires Valid()
      ensures sum == Check.Cksum(ImageOf(mem[..]))
    {
      hide Get, Check.Fold, Check.RotAdd, MemOk, ImageOf;
      ghost var all := Check.Covered(ImageOf(mem[..]));
      sum := 0;
      var i := 0;
      while i < 147
        invariant 0 <= i <= 147 && Check.Fold(0, all) == Check.Fold(sum, all[i..])
      {
        CoveredAt(mem[..], i);
        FoldStep(sum, all, i);
        sum := Check.RotAdd(sum, mem[0x15D + i]);
        i := i + 1;
      }
      var tail := [0x8106, 0x8107, 0x8102, 0x810F, 0x8196, 0x8197, 0x8198, 0x8199, 0x819A, 0x819B, 0x819F];
      while i < 158
        invariant 147 <= i <= 158 && Check.Fold(0, all) == Check.Fold(sum, all[i..])
      {
        CoveredAt(mem[..], i);
        FoldStep(sum, all, i);
        sum := Check.RotAdd(sum, mem[tail[i - 147]]);
        i := i + 1;
      }
      FoldNone(sum, all[158..]);
    }
  }

  lemma PutStep(m: seq<word>, p: nat, data: seq<byte>, i: nat)
    requires MemOk(m) && i < |data| && p + |data| - i <= IMG_TOTAL
    ensures PutAll(m, p, data[i..]) == PutAll(Put(m, p, data[i]), p + 1, data[i + 1..])
  {
    assert data[i..][1..] == data[i + 1..];
  }

  lemma PutNone(m: seq<word>, p: nat)
    requires MemOk(m) && p <= IMG_TOTAL
    ensures PutAll(m, p, []) == m
  {
  }

  // ---- the bytes of a push ------------------------------------------------

  lemma EncodeMore(q: seq<Frame>, f: Frame)
    requires AllSendable(q) && Sendable(f)
    ensures AllSendable(q + [f]) && EncodeAll(q + [f]) == EncodeAll(q) + [Encode(f)]
  {
    hide Sendable, Encode;
  }

  lemma BeginBytes(e: nat, r: int)
    ensures AllSendable([Begin(e, r)])
    ensures EncodeAll([Begin(e, r)]) == [[5, FT_STATE, 0, 0xFF, Low(r), High(r)]]
  {
  }

  lemma ChunkBytes(e: nat, img: Img, sent: seq<Frame>, pos: nat)
    requires pos < IMG_TOTAL && AllSendable(sent)
    ensures var n := ChunkLen(pos);
            var f := Data(e, pos, img[pos..pos + n]);
            && sent + Chunks(e, img, pos) == sent + [f] + Chunks(e, img, pos + n)
            && AllSendable(sent + [f])
            && EncodeAll(sent + [f]) == EncodeAll(sent) + [[n + 3, FT_STATE, Low(pos), High(pos)] + img[pos..pos + n]]
  {
    hide EncodeAll;
    EncodeMore(sent, Data(e, pos, img[pos..pos + ChunkLen(pos)]));
  }

  lemma EndBytes(e: nat, img: Img, sent: seq<Frame>)
    requires AllSendable(sent)
    ensures sent + Chunks(e, img, IMG_TOTAL) == sent + [End(e)]
    ensures AllSendable(sent + [End(e)])
    ensures EncodeAll(sent + [End(e)]) == EncodeAll(sent) + [[3, FT_STATE, 1, 0xFF]]
  {
    hide EncodeAll;
    EncodeMore(sent, End(e));
  }

  ghost predicate PushSendable(e: nat, r: int, img: Img) {
    AllSendable(PushFrames(e, r, img))
  }

  // ---- the checksum loop --------------------------------------------------

  lemma CoveredAt(m: seq<word>, i: nat)
    requires MemOk(m) && i < 158
    ensures |Check.Covered(ImageOf(m))| == 158
    ensures Check.Covered(ImageOf(m))[i] == m[LaneOf(if i < 147 then i else 608 + i).addr]
  {
  }

  lemma FoldStep(sum: int, s: seq<byte>, i: nat)
    requires i < |s|
    ensures Check.Fold(sum, s[i..]) == Check.Fold(Check.RotAdd(sum, s[i]), s[i + 1..])
  {
    assert s[i..][1..] == s[i + 1..];
  }

  lemma FoldNone(sum: int, s: seq<byte>)
    requires s == []
    ensures Check.Fold(sum, s) == sum
  {
  }

  // ---- a whole push applied -----------------------------------------------

  /** What the data path makes of the chunks of a push, in order. */
  function Applied(m: seq<word>, q: seq<Frame>): (r: seq<word>)
    requires MemOk(m)
    ensures MemOk(r)
    decreases |q|
  {
    if q == [] then m
    else if q[0].Data? && q[0].pos + |q[0].bytes| <= IMG_TOTAL
    then Applied(PutAll(m, q[0].pos, q[0].bytes), q[1..])
    else Applied(m, q[1..])
  }

  lemma {:induction false} ChunksApplied(g: seq<word>, e: nat, img: Img, pos: nat)
    requires MemOk(g) && pos <= IMG_TOTAL
    ensures ImageOf(Applied(g, Chunks(e, img, pos))) == ImageOf(g)[..pos] + img[pos..]
    ensures Confined(g, Applied(g, Chunks(e, img, pos)))
    decreases IMG_TOTAL - pos
  {
    hide MemOk, Get, Put, PutAll, ImageOf, ImageCell;
    var q := Chunks(e, img, pos);
    if pos == IMG_TOTAL {
      assert Applied(g, q) == Applied(g, q[1..]) == g;
      assert img[pos..] == [] && ImageOf(g)[..pos] == ImageOf(g);
    } else {
      var n := ChunkLen(pos);
      var b := img[pos..pos + n];
      var m := PutAll(g, pos, b);
      assert q[1..] == Chunks(e, img, pos + n);
      PutAllImage(g, pos, b);
      PutAllConfined(g, pos, b);
      ChunksApplied(m, e, img, pos + n);
      assert ImageOf(m)[..pos + n] == ImageOf(g)[..pos] + b;
      assert b + img[pos + n..] == img[pos..];
    }
  }

  /** A push carries every image position to the guest, whatever was there before, and touches nothing else. */
  lemma PushApplied(h: seq<word>, g: seq<word>, e: nat, r: int)
    requires MemOk(h) && MemOk(g)
    ensures ImageOf(Applied(g, PushFrames(e, r, ImageOf(h)))) == ImageOf(h)
    ensures Confined(g, Applied(g, PushFrames(e, r, ImageOf(h))))
  {
    hide MemOk, Get, Put, PutAll, ImageOf, ImageCell, Chunks;
    var img := ImageOf(h);
    ChunksApplied(g, e, img, 0);
    assert PushFrames(e, r, img)[1..] == Chunks(e, img, 0);
    assert ImageOf(g)[..0] + img[0..] == img;
  }
}
