/** LS_CKSUM over the resync image. */
module Checksum {
  import opened Basics

  /** Positions of the image that LS_CKSUM covers after the game scratch: RNG, spares, countdown mirrors. */
  const SCRATCH_END := 147
  const TAIL_FROM := 755
  const TAIL_END := 766

  /** SLLC/ADCR: a 16-bit word rotated left by one, the bit that falls out coming back at the bottom. */
  function Rotated(m: int): (r: int)
    requires 0 <= m < 0x1_0000
    ensures 0 <= r < 0x1_0000 && (m < 0x8000 ==> r % 2 == 0) && (m >= 0x8000 ==> r % 2 == 1)
  {
    if m < 0x8000 then 2 * m else 2 * m - 0xFFFF
  }

  /** And ADD, which wraps around. */
  function RotAdd(sum: int, b: byte): (r: int)
    ensures 0 <= r < 0x1_0000
  {
    var r := Rotated(sum % 0x1_0000) + b;
    if r < 0x1_0000 then r else r - 0x1_0000
  }

  function Fold(sum: int, s: seq<byte>): int
    decreases |s|
  {
    if s == [] then sum else Fold(RotAdd(sum, s[0]), s[1..])
  }

  /** The cells the checksum reads, in order. */
  function Covered(img: Img): seq<byte> {
    img[..SCRATCH_END] + img[TAIL_FROM..TAIL_END]
  }

  function Cksum(img: Img): int {
    Fold(0, Covered(img))
  }

  // ---- what the sum can tell apart ----------------------------------------

  /** A step is one-to-one in the sum before it, and in the cell added. */
  lemma RotInjective(a: int, b: int, x: byte, y: byte)
    requires 0 <= a < 0x1_0000 && 0 <= b < 0x1_0000 && RotAdd(a, x) == RotAdd(b, y)
    ensures x == y ==> a == b
    ensures a == b ==> x == y
  {
  }

  lemma {:induction false} FoldRange(sum: int, s: seq<byte>)
    requires 0 <= sum < 0x1_0000
    ensures 0 <= Fold(sum, s) < 0x1_0000
    decreases |s|
  {
    if s != [] { FoldRange(RotAdd(sum, s[0]), s[1..]); }
  }

  lemma {:induction false} FoldInjective(a: int, b: int, s: seq<byte>)
    requires 0 <= a < 0x1_0000 && 0 <= b < 0x1_0000 && Fold(a, s) == Fold(b, s)
    ensures a == b
    decreases |s|
  {
    hide RotAdd;
    if s != [] {
      RotRange(a, s[0]);
      RotRange(b, s[0]);
      FoldInjective(RotAdd(a, s[0]), RotAdd(b, s[0]), s[1..]);
      RotInjective(a, b, s[0], s[0]);
    }
  }

  lemma RotRange(sum: int, b: byte)
    ensures 0 <= RotAdd(sum, b) < 0x1_0000
  {
  }

  lemma {:induction false} FoldSplit(sum: int, a: seq<byte>, b: seq<byte>)
    ensures Fold(sum, a + b) == Fold(Fold(sum, a), b)
    decreases |a|
  {
    if a == [] {
      assert a + b == b;
    } else {
      assert (a + b)[0] == a[0] && (a + b)[1..] == a[1..] + b;
      FoldSplit(RotAdd(sum, a[0]), a[1..], b);
    }
  }

  lemma FoldAt(sum: int, s: seq<byte>, i: nat)
    requires i < |s|
    ensures Fold(sum, s) == Fold(RotAdd(Fold(sum, s[..i]), s[i]), s[i + 1..])
  {
    assert s == s[..i] + s[i..];
    FoldSplit(sum, s[..i], s[i..]);
    assert s[i..][1..] == s[i + 1..];
  }

  /** Two images that differ in exactly one covered cell never have the same checksum. */
  lemma OneCell(x: Img, y: Img, i: nat)
    requires i < |Covered(x)| && i < |Covered(y)|
    requires Covered(x)[..i] == Covered(y)[..i] && Covered(x)[i + 1..] == Covered(y)[i + 1..]
    ensures Cksum(x) == Cksum(y) <==> Covered(x)[i] == Covered(y)[i]
  {
    hide Fold, RotAdd, Covered;
    var a, b := Covered(x), Covered(y);
    FoldAt(0, a, i);
    FoldAt(0, b, i);
    FoldRange(0, a[..i]);
    var sum := Fold(0, a[..i]);
    RotRange(sum, a[i]);
    RotRange(sum, b[i]);
    if Cksum(x) == Cksum(y) {
      FoldInjective(RotAdd(sum, a[i]), RotAdd(sum, b[i]), a[i + 1..]);
      RotInjective(sum, sum, a[i], b[i]);
    }
  }

  // ---- what one cell adds -----------------------------------------------------

  /** An image that is zero but for position `p`. */
  function OnlyAt(p: nat, b: byte): (img: Img)
    requires p < IMG_TOTAL
    ensures forall i :: 0 <= i < IMG_TOTAL ==> img[i] == if i == p then b else 0
  {
    seq(IMG_TOTAL, i requires 0 <= i < IMG_TOTAL => if i == p then b else 0)
  }

  function Zeros(n: nat): (z: seq<byte>)
    ensures |z| == n && forall i :: 0 <= i < n ==> z[i] == 0
  {
    seq(n, _ => 0)
  }

  lemma {:induction false} FoldZeros(n: nat)
    ensures Fold(0, Zeros(n)) == 0
    decreases n
  {
    if n > 0 {
      assert Zeros(n)[1..] == Zeros(n - 1);
      FoldZeros(n - 1);
    }
  }

  lemma RotDoubles(sum: int)
    requires 0 <= sum < 0x8000
    ensures RotAdd(sum, 0) == 2 * sum
  {
  }

  lemma Halves(sum: int, p: nat)
    requires 0 <= sum && p >= 1 && sum * (2 * p) < 0x1_0000
    ensures sum * (2 * p) == (2 * sum) * p && sum < 0x8000
  {
    assert 2 * sum <= (2 * sum) * p;
  }

  /** Every zero cell after it doubles a sum that still fits. */
  lemma {:induction false} FoldDoubles(sum: int, n: nat)
    requires 0 <= sum && sum * Pow2(n) < 0x1_0000
    ensures Fold(sum, Zeros(n)) == sum * Pow2(n)
    decreases n
  {
    hide RotAdd;
    if n > 0 {
      assert Zeros(n)[1..] == Zeros(n - 1);
      Halves(sum, Pow2(n - 1));
      RotDoubles(sum);
      FoldDoubles(2 * sum, n - 1);
    }
  }

  function Pow2(n: nat): (r: nat)
    ensures r >= 1
  {
    if n == 0 then 1 else 2 * Pow2(n - 1)
  }

  /** Where the sum reads position `p`, if it does. */
  function Place(p: nat): int {
    if p < 147 then p else if 755 <= p < 766 then p - 608 else -1
  }

  lemma CoveredAt(p: nat, b: byte)
    requires p < IMG_TOTAL
    ensures var i := Place(p);
            Covered(OnlyAt(p, b)) == if i < 0 then Zeros(158) else Zeros(i) + [b] + Zeros(157 - i)
  {
  }

  /**
   The sum is the cells it reads, each rotated left by one for every cell read
   after it: a single byte `b` in an otherwise empty image sums to itself in the
   last cell read, to twice, four times ... that in the cells before, and to
   zero in a position that is not read.
   */
  lemma OneByte(p: nat, b: byte)
    requires p < IMG_TOTAL
    ensures 758 <= p < 766 ==> Cksum(OnlyAt(p, b)) == b * Pow2(765 - p)
    ensures Cksum(OnlyAt(p, b)) == 0 <==> b == 0 || !(p < 147 || 755 <= p < 766)
  {
    hide Fold, Covered, RotAdd;
    CoveredAt(p, b);
    var i := Place(p);
    FoldZeros(158);
    if i >= 0 {
      var n := 157 - i;
      var front, all := Zeros(i), Zeros(i) + [b] + Zeros(n);
      FoldSplit(0, front + [b], Zeros(n));
      FoldSplit(0, front, [b]);
      FoldZeros(i);
      FoldOnce(b);
      FoldZeros(n);
      if b != 0 && Fold(b, Zeros(n)) == 0 { FoldInjective(b, 0, Zeros(n)); }
      if p >= 758 {
        Small(b, n);
        FoldDoubles(b, n);
      }
    }
  }

  lemma FoldOnce(b: byte)
    ensures Fold(0, [b]) == b
  {
    assert [b][1..] == [];
  }

  lemma Small(b: byte, n: nat)
    requires n <= 7
    ensures b * Pow2(n) < 0x1_0000
  {
    assert Pow2(7) == 128 by { assert Pow2(3) == 8; }
    Pow2Grows(n, 7);
    assert b * Pow2(n) <= b * 128;
  }

  lemma Pow2Grows(m: nat, n: nat)
    requires m <= n
    ensures Pow2(m) <= Pow2(n)
    decreases n - m
  {
    if m < n { Pow2Grows(m + 1, n); }
  }
}
