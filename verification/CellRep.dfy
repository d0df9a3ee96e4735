/** How the byte cells of a console represent its netcode state. */
module CellRep {
  import opened Basics
  import opened Console
  import opened Framing
  import opened Wire

  /** A register value of two cells, low byte first. */
  function Word(lo: byte, hi: byte): (w: int)
    ensures 0 <= w < 0x1_0000 && Low(w) == lo && High(w) == hi
  {
    lo + 256 * hi
  }

  predicate WordRep(lo: byte, hi: byte, x: int) {
    lo == Low(x) && hi == High(x)
  }

  lemma WordResidue(lo: byte, hi: byte, x: int)
    requires WordRep(lo, hi, x)
    ensures Word(lo, hi) == x % 0x1_0000
  {
  }

  /** Equal residues have equal cell pairs, and the other way round. */
  lemma SameWord(x: int, y: int)
    ensures (Low(x) == Low(y) && High(x) == High(y)) <==> x % 0x1_0000 == y % 0x1_0000
  {
    WordResidue(Low(x), High(x), x);
    WordResidue(Low(y), High(y), y);
  }

  /** A signed difference of registers is that of the ticks they stand for. */
  lemma SignedResidue(x: int, y: int, a: int, b: int)
    requires a % 0x1_0000 == x % 0x1_0000 && b % 0x1_0000 == y % 0x1_0000
    ensures Signed16(a - b) == Signed16(x - y)
  {
    var k := x / 0x1_0000 - y / 0x1_0000 - a / 0x1_0000 + b / 0x1_0000;
    assert x - y == (a - b) + 0x1_0000 * k;
    assert (x - y) % 0x1_0000 == (a - b) % 0x1_0000;
  }

  /** The tick closest to `base` with the register value `w`. */
  function Near(w: int, base: int): (x: int)
    ensures x % 0x1_0000 == w % 0x1_0000
    ensures base - 0x8000 <= x < base + 0x8000
  {
    var x := base + Signed16(w - base);
    assert exists k: int :: Signed16(w - base) == w - base + 0x1_0000 * k by {
      var m := (w - base) / 0x1_0000;
      assert Signed16(w - base) == w - base + 0x1_0000 * (-m) || Signed16(w - base) == w - base + 0x1_0000 * (-m - 1);
    }
    x
  }

  lemma NearIs(x: int, base: int)
    requires base - 0x8000 <= x < base + 0x8000
    ensures Near(x % 0x1_0000, base) == x
  {
    SignedResidue(x, base, x % 0x1_0000, base);
  }

  /** A tick read back from its cells. */
  lemma NearBack(x: int, base: int)
    requires base - 0x8000 <= x < base + 0x8000
    ensures Near(Word(Low(x), High(x)), base) == x
  {
    hide Near;
    WordResidue(Low(x), High(x), x);
    NearIs(x, base);
  }

  lemma WordSmall(x: int)
    requires 0 <= x < 0x1_0000
    ensures Word(Low(x), High(x)) == x
  {
    WordResidue(Low(x), High(x), x);
  }

  // ---- rings --------------------------------------------------------------

  const PAGES := 1024

  /** Page `seat` of the decoded and keypad rings holds `r`. */
  ghost predicate RingRep(ring: seq<byte>, kp: seq<byte>, seat: nat, r: Ring) {
    && |ring| == PAGES && |kp| == PAGES && seat < 4
    && forall i :: 0 <= i < 256 ==> r[i] == Cell(ring[256 * seat + i], kp[256 * seat + i])
  }

  lemma StoreRep(ring: seq<byte>, kp: seq<byte>, seat: nat, r: Ring, i: nat, cell: Cell)
    requires RingRep(ring, kp, seat, r) && i < 256
    ensures RingRep(ring[256 * seat + i := cell.dec], kp[256 * seat + i := cell.kp], seat, r[i := cell])
  {
  }

  lemma StoreOther(ring: seq<byte>, kp: seq<byte>, seat: nat, r: Ring, other: nat, i: nat, a: byte, b: byte)
    requires RingRep(ring, kp, seat, r) && i < 256 && other < 4 && other != seat
    ensures RingRep(ring[256 * other + i := a], kp[256 * other + i := b], seat, r)
  {
  }

  lemma IdleRep(ring: seq<byte>, kp: seq<byte>, seat: nat)
    requires |ring| == PAGES && |kp| == PAGES && seat < 4
    requires forall i :: 0 <= i < PAGES ==> ring[i] == IDLE.dec && kp[i] == IDLE.kp
    ensures RingRep(ring, kp, seat, IdleRing())
  {
  }

  // ---- watermarks ---------------------------------------------------------

  predicate WmRep(wm: seq<byte>, seat: nat, x: int) {
    |wm| == 8 && seat < 4 && WordRep(wm[2 * seat], wm[2 * seat + 1], x)
  }

  // ---- checksum records ---------------------------------------------------

  predicate RecRep(crc: seq<byte>, i: nat, rec: Rec)
    requires |crc| == 32 && i < 8
  {
    && 0 <= rec.crc < 0x1_0000
    && WordRep(crc[4 * i], crc[4 * i + 1], rec.tick) && WordRep(crc[4 * i + 2], crc[4 * i + 3], rec.crc)
  }

  ghost predicate CrcRep(crc: seq<byte>, recs: seq<Rec>) {
    |crc| == 32 && |recs| == 8 && forall i :: 0 <= i < 8 ==> RecRep(crc, i, recs[i])
  }

  lemma ClearedRep(crc: seq<byte>)
    requires |crc| == 32 && forall i :: 0 <= i < 32 ==> crc[i] == 0xFF
    ensures CrcRep(crc, NO_RECS)
  {
  }

  lemma RecordRep(crc: seq<byte>, recs: seq<Rec>, i: nat, rec: Rec)
    requires CrcRep(crc, recs) && i < 8 && 0 <= rec.crc < 0x1_0000
    ensures CrcRep(crc[4 * i := Low(rec.tick)][4 * i + 1 := High(rec.tick)][4 * i + 2 := Low(rec.crc)][4 * i + 3 := High(rec.crc)],
                   recs[i := rec])
  {
    var c := crc[4 * i := Low(rec.tick)][4 * i + 1 := High(rec.tick)][4 * i + 2 := Low(rec.crc)][4 * i + 3 := High(rec.crc)];
    var after := recs[i := rec];
    forall j | 0 <= j < 8
      ensures RecRep(c, j, after[j])
    {
      assert RecRep(crc, j, recs[j]);
    }
  }

  // ---- flags and counters -------------------------------------------------

  predicate FlagRep(hold: byte, pend: byte, ptmo: byte, rLo: byte, rHi: byte, held: bool, wanted: bool, waited: nat, r: int) {
    && hold == Bit(held) && pend == Bit(wanted) && ptmo == waited < RS_PEND_MAX
    && (held ==> WordRep(rLo, rHi, r))
  }

  /** The gate's round counter runs only during a stall, and a stall is inside a pass. */
  predicate CountRep(froze: byte, top: bool, lo: byte, hi: byte) {
    froze == 0 || top ==> lo == 0 && hi == 0
  }

  // ---- frames -------------------------------------------------------------

  /**
   What a frame's bytes say to a console at tick `tick`; `e` is the epoch it was
   sent in.  None for STATE control frames that are neither BEGIN nor END and
   for types that carry nothing for the match.
   */
  function Meaning(f: seq<byte>, e: nat, tick: int): Option<Frame>
    requires Fits(f)
  {
    if f[1] == FT_INPUT then Some(Input(e, f[2], Near(Word(f[3], f[4]), tick), Cell(f[5], f[6])))
    else if f[1] == FT_CRC then Some(Crc(e, f[2], Near(Word(f[3], f[4]), tick), Word(f[5], f[6])))
    else if f[1] == FT_RESYNC then Some(Resync(e, Near(Word(f[2], f[3]), tick)))
    else if f[1] == FT_STATE then
      if f[3] != 0xFF then Some(Data(e, Word(f[2], f[3]), f[4..]))
      else if f[2] == 0 then if f[0] < 5 then None else Some(Begin(e, Near(Word(f[4], f[5]), tick)))
      else if f[2] == 1 then Some(End(e))
      else None
    else None
  }

  /** The tick a frame names, if it names one. */
  predicate Timely(f: Frame, tick: int) {
    match f
    case Input(_, _, x, _) => tick - 0x8000 <= x < tick + 0x8000
    case Crc(_, _, x, _) => tick - 0x8000 <= x < tick + 0x8000
    case Resync(_, x) => tick - 0x8000 <= x < tick + 0x8000
    case Begin(_, r) => tick - 0x8000 <= r < tick + 0x8000
    case _ => true
  }

  /** A frame from a peer within half a turn of the 16-bit counter is understood as it was meant. */
  lemma MeaningRoundTrip(f: Frame, tick: int)
    requires Sendable(f) && Timely(f, tick)
    ensures Meaning(Encode(f), f.ep, tick) == Some(f)
  {
    hide Near, Word, Low, High, Fits;
    FitsEncoded(f);
    match f
    case Input(_, _, x, _) => NearBack(x, tick);
    case Crc(_, _, x, crc) => NearBack(x, tick); WordSmall(crc);
    case Resync(_, x) => NearBack(x, tick);
    case Begin(_, r) => NearBack(r, tick);
    case Data(_, pos, data) => WordSmall(pos); HighSmall(pos); assert Encode(f)[4..] == data;
    case End(_) =>
  }

  lemma FitsEncoded(f: Frame)
    requires Sendable(f)
    ensures Fits(Encode(f))
  {
  }

  lemma HighSmall(pos: nat)
    requires pos <= IMG_TOTAL
    ensures High(pos) < 0xFF
  {
  }
}
