/**
 Byte cells, 16-bit wrap-around and the constants shared by the console modules.
 */
module Basics {

  type byte = b: int | 0 <= b < 256

  const IMG_TOTAL := 769
  const RS_CHUNK := 96

  /** The resync image: every byte of game state that a push transfers. */
  type Img = s: seq<byte> | |s| == IMG_TOTAL witness seq(IMG_TOTAL, _ => 0)

  /** One tick of one seat: the decoded-input cell and the keypad cell. */
  datatype Cell = Cell(dec: byte, kp: byte)

  /** What LS_RING_INIT fills the ring pages with. */
  const IDLE := Cell(0x40, 0)

  type Ring = s: seq<Cell> | |s| == 256 witness seq(256, _ => IDLE)

  function IdleRing(): (r: Ring)
    ensures forall i :: 0 <= i < 256 ==> r[i] == IDLE
  {
    seq(256, _ => IDLE)
  }

  /** The ring slot of a tick: its low byte. */
  function Slot(x: int): (s: nat)
    ensures s < 256
  {
    x % 256
  }

  /** The 16-bit register value of `x`, read as a signed number (BMI/BEQ after SUBR). */
  function Signed16(x: int): (r: int)
    ensures -0x8000 <= r < 0x8000
    ensures -0x8000 <= x < 0x8000 ==> r == x
  {
    var m := x % 0x1_0000;
    if m < 0x8000 then m else m - 0x1_0000
  }

  function Low(x: int): byte { x % 256 }

  function High(x: int): byte { (x / 256) % 256 }

  function Max(a: int, b: int): int { if a < b then b else a }

  function Min(a: int, b: int): int { if a < b then a else b }

  function Bit(b: bool): nat { if b then 1 else 0 }

  /** Two ticks closer than one ring turn never share a slot. */
  lemma SlotsDiffer(x: int, y: int)
    requires x != y && -256 < x - y < 256
    ensures Slot(x) != Slot(y)
  {
  }

  /** Ticks closer than one turn of the 16-bit counter have different cell pairs. */
  lemma ResiduesDiffer(x: int, y: int)
    requires 0 < x - y < 0x1_0000
    ensures x % 0x1_0000 != y % 0x1_0000
  {
  }

  /** A tick on a 64-tick boundary never reads as the cleared record's $FFFF. */
  lemma BoundaryResidue(x: int)
    requires x % 64 == 0
    ensures x % 0x1_0000 != 0xFFFF
  {
    assert x % 0x1_0000 == 64 * (x / 64 - 1024 * (x / 0x1_0000));
  }
}
