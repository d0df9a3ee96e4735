/**
 The resync image in console memory: 769 positions scattered over game scratch
 (bytes), BACKTAB and the object table (16-bit words, low byte first) and a
 table of single cells.
 */
module Image {
  import opened Basics

  const MEM_SIZE := 0x1_0000
  const IMG_S1 := 147
  const IMG_S2 := 627
  const IMG_S3 := 755

  const SCRATCH := 0x15D
  const BACKTAB := 0x200
  const OBJECTS := 0x31D

  /** RNG, spares, countdown mirrors, spare, pass length, handler table. */
  const RS_TAILTBL: seq<nat> := [
    0x8106, 0x8107, 0x8102, 0x810F, 0x8196, 0x8197, 0x8198, 0x8199, 0x819A, 0x819B, 0x819F, 0x0103, 0x80C0, 0x80C1]

  /** Scratch RAM and cart RAM are 8 bits wide. */
  predicate ByteCell(a: int) {
    0x100 <= a < 0x1F0 || 0x8000 <= a < 0x9C00
  }

  type word = w: int | 0 <= w < 0x1_0000

  ghost predicate MemOk(m: seq<word>) {
    |m| == MEM_SIZE && forall a :: 0 <= a < MEM_SIZE && ByteCell(a) ==> m[a] < 256
  }

  // ---- positions and byte lanes -------------------------------------------

  datatype Part = Cell8 | LoByte | HiByte

  datatype Lane = Lane(addr: nat, part: Part)

  function HalfOf(base: nat, k: nat): Lane {
    Lane(base + k / 2, if k % 2 == 0 then LoByte else HiByte)
  }

  /** Where image position `p` lives. */
  function LaneOf(p: nat): (l: Lane)
    requires p < IMG_TOTAL
    ensures l.addr < MEM_SIZE
    ensures l.part.Cell8? <==> ByteCell(l.addr)
  {
    if p < IMG_S1 then Lane(SCRATCH + p, Cell8)
    else if p < IMG_S2 then HalfOf(BACKTAB, p - IMG_S1)
    else if p < IMG_S3 then HalfOf(OBJECTS, p - IMG_S2)
    else Lane(RS_TAILTBL[p - IMG_S3], Cell8)
  }

  lemma TailDistinct(i: nat, j: nat)
    requires i < j < 14
    ensures RS_TAILTBL[i] != RS_TAILTBL[j]
  {
  }

  /** No two positions share a byte. */
  lemma LanesDisjoint(p: nat, q: nat)
    requires p < IMG_TOTAL && q < IMG_TOTAL && p != q
    ensures LaneOf(p) != LaneOf(q)
    ensures LaneOf(p).addr == LaneOf(q).addr ==> !LaneOf(p).part.Cell8? && !LaneOf(q).part.Cell8?
  {
    if p >= IMG_S3 && q >= IMG_S3 {
      TailDistinct(Min(p, q) - IMG_S3, Max(p, q) - IMG_S3);
    }
  }

  function Get(m: seq<word>, p: nat): (b: byte)
    requires MemOk(m) && p < IMG_TOTAL
  {
    var l := LaneOf(p);
    match l.part
    case Cell8 => m[l.addr]
    case LoByte => m[l.addr] % 256
    case HiByte => m[l.addr] / 256
  }

  function Merge(w: word, part: Part, b: byte): (r: word)
    ensures part.Cell8? ==> r == b
    ensures part.LoByte? ==> r % 256 == b && r / 256 == w / 256
    ensures part.HiByte? ==> r / 256 == b && r % 256 == w % 256
  {
    match part
    case Cell8 => b
    case LoByte => w - w % 256 + b
    case HiByte => w % 256 + 256 * b
  }

  function Put(m: seq<word>, p: nat, b: byte): (m': seq<word>)
    requires MemOk(m) && p < IMG_TOTAL
    ensures MemOk(m')
  {
    var l := LaneOf(p);
    m[l.addr := Merge(m[l.addr], l.part, b)]
  }

  lemma PutGet(m: seq<word>, p: nat, b: byte, q: nat)
    requires MemOk(m) && p < IMG_TOTAL && q < IMG_TOTAL
    ensures Get(Put(m, p, b), q) == if q == p then b else Get(m, q)
  {
    if p != q { LanesDisjoint(p, q); }
  }

  /** Writing back what is there, and the second of two writes, change nothing more. */
  lemma PutAlgebra(m: seq<word>, p: nat, b: byte, c: byte)
    requires MemOk(m) && p < IMG_TOTAL
    ensures Put(m, p, Get(m, p)) == m
    ensures Put(Put(m, p, b), p, c) == Put(m, p, c)
  {
    var a := LaneOf(p).addr;
    assert Put(m, p, Get(m, p))[a] == m[a];
    assert Put(Put(m, p, b), p, c)[a] == Put(m, p, c)[a];
  }

  // ---- the image as a value -----------------------------------------------

  function ImageOf(m: seq<word>): (img: Img)
    requires MemOk(m)
    ensures forall p :: 0 <= p < IMG_TOTAL ==> img[p] == Get(m, p)
  {
    seq(IMG_TOTAL, p requires 0 <= p < IMG_TOTAL => Get(m, p))
  }

  /**
   The image against memory, address by address: the scratch bytes, the words of
   BACKTAB and of the object table low byte first, and the fourteen cells of the tail.
   */
  lemma ImageBytes(m: seq<word>)
    requires MemOk(m)
    ensures forall p :: 0 <= p < 147 ==> ImageOf(m)[p] == m[0x15D + p]
    ensures forall k :: 0 <= k < 240 ==> ImageOf(m)[147 + 2 * k] == m[0x200 + k] % 256 && ImageOf(m)[148 + 2 * k] == m[0x200 + k] / 256
    ensures forall k :: 0 <= k < 64 ==> ImageOf(m)[627 + 2 * k] == m[0x31D + k] % 256 && ImageOf(m)[628 + 2 * k] == m[0x31D + k] / 256
    ensures ImageOf(m)[755..] == [m[0x8106], m[0x8107], m[0x8102], m[0x810F], m[0x8196], m[0x8197], m[0x8198],
                                  m[0x8199], m[0x819A], m[0x819B], m[0x819F], m[0x0103], m[0x80C0], m[0x80C1]]
  {
    hide Get;
    var img := ImageOf(m);
    forall p | 0 <= p < 147
      ensures img[p] == m[0x15D + p]
    {
      ByteAt(m, p);
    }
    forall k | 0 <= k < 240
      ensures img[147 + 2 * k] == m[0x200 + k] % 256 && img[148 + 2 * k] == m[0x200 + k] / 256
    {
      WordAt(m, 147 + 2 * k);
    }
    forall k | 0 <= k < 64
      ensures img[627 + 2 * k] == m[0x31D + k] % 256 && img[628 + 2 * k] == m[0x31D + k] / 256
    {
      WordAt(m, 627 + 2 * k);
    }
    forall i | 0 <= i < 14
      ensures img[755 + i] == m[RS_TAILTBL[i]]
    {
      ByteAt(m, 755 + i);
    }
    TailCells(m);
    assert img[755..] == seq(14, i requires 0 <= i < 14 => m[RS_TAILTBL[i]]);
  }

  lemma ByteAt(m: seq<word>, p: nat)
    requires MemOk(m) && (p < IMG_S1 || IMG_S3 <= p < IMG_TOTAL)
    ensures Get(m, p) == if p < IMG_S1 then m[SCRATCH + p] else m[RS_TAILTBL[p - IMG_S3]]
  {
  }

  lemma WordAt(m: seq<word>, p: nat)
    requires MemOk(m) && IMG_S1 <= p < IMG_S3 && (p - if p < IMG_S2 then IMG_S1 else IMG_S2) % 2 == 0
    ensures var w := m[if p < IMG_S2 then BACKTAB + (p - IMG_S1) / 2 else OBJECTS + (p - IMG_S2) / 2];
            Get(m, p) == w % 256 && Get(m, p + 1) == w / 256
  {
  }

  lemma TailCells(m: seq<word>)
    requires MemOk(m)
    ensures seq(14, i requires 0 <= i < 14 => m[RS_TAILTBL[i]]) ==
            [m[0x8106], m[0x8107], m[0x8102], m[0x810F], m[0x8196], m[0x8197], m[0x8198],
             m[0x8199], m[0x819A], m[0x819B], m[0x819F], m[0x0103], m[0x80C0], m[0x80C1]]
  {
  }

  lemma PutImage(m: seq<word>, p: nat, b: byte)
    requires MemOk(m) && p < IMG_TOTAL
    ensures ImageOf(Put(m, p, b)) == ImageOf(m)[p := b]
  {
    hide Get, Put;
    forall q | 0 <= q < IMG_TOTAL
      ensures ImageOf(Put(m, p, b))[q] == ImageOf(m)[p := b][q]
    {
      PutGet(m, p, b, q);
    }
  }

  /** A cell that holds part of the image. */
  predicate ImageCell(a: int) {
    0x15D <= a < 0x1F0 || 0x200 <= a < 0x2F0 || 0x31D <= a < 0x35D || a in RS_TAILTBL
  }

  /** The image cells are exactly the cells some position lives in. */
  lemma ImageCells(a: nat)
    ensures ImageCell(a) <==> exists p: nat :: p < IMG_TOTAL && LaneOf(p).addr == a
  {
    if ImageCell(a) {
      var p :=
        if 0x15D <= a < 0x1F0 then a - 0x15D
        else if 0x200 <= a < 0x2F0 then IMG_S1 + 2 * (a - 0x200)
        else if 0x31D <= a < 0x35D then IMG_S2 + 2 * (a - 0x31D)
        else (var i :| 0 <= i < |RS_TAILTBL| && RS_TAILTBL[i] == a; IMG_S3 + i);
      assert p < IMG_TOTAL && LaneOf(p).addr == a;
    }
  }

  /** Nothing outside the image cells differs. */
  ghost predicate Confined(m: seq<word>, m': seq<word>) {
    |m'| == |m| && forall a :: 0 <= a < |m| && !ImageCell(a) ==> m'[a] == m[a]
  }

  lemma PutConfined(m: seq<word>, p: nat, b: byte)
    requires MemOk(m) && p < IMG_TOTAL
    ensures Confined(m, Put(m, p, b))
  {
    ImageCells(LaneOf(p).addr);
  }

  /** A chunk applied byte by byte from `pos` on. */
  function PutAll(m: seq<word>, pos: nat, data: seq<byte>): (m': seq<word>)
    requires MemOk(m) && pos + |data| <= IMG_TOTAL
    ensures MemOk(m')
    decreases |data|
  {
    if data == [] then m else PutAll(Put(m, pos, data[0]), pos + 1, data[1..])
  }

  lemma {:induction false} PutAllConfined(m: seq<word>, pos: nat, data: seq<byte>)
    requires MemOk(m) && pos + |data| <= IMG_TOTAL
    ensures Confined(m, PutAll(m, pos, data))
    decreases |data|
  {
    hide Put, ImageCell;
    if data != [] {
      PutConfined(m, pos, data[0]);
      PutAllConfined(Put(m, pos, data[0]), pos + 1, data[1..]);
    }
  }

  /** Applying a chunk overwrites exactly its stretch of the image. */
  lemma {:induction false} PutAllImage(m: seq<word>, pos: nat, data: seq<byte>)
    requires MemOk(m) && pos + |data| <= IMG_TOTAL
    ensures ImageOf(PutAll(m, pos, data)) == ImageOf(m)[..pos] + data + ImageOf(m)[pos + |data|..]
    decreases |data|
  {
    hide Get, Put, MemOk, ImageOf;
    var img := ImageOf(m);
    if data == [] {
      assert img == img[..pos] + data + img[pos..];
    } else {
      PutImage(m, pos, data[0]);
      PutAllImage(Put(m, pos, data[0]), pos + 1, data[1..]);
      var was := img[pos := data[0]];
      assert was[..pos + 1] == img[..pos] + [data[0]];
      assert was[pos + |data|..] == img[pos + |data|..];
      assert data == [data[0]] + data[1..];
    }
  }
}
