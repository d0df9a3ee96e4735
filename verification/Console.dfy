/**
 One console of a match: what LS_PASS, SES_ONFRAME and the RS_* routines do to
 the netcode state.  Ticks are unbounded here, but every decision and every
 ring index is taken from the 16-bit (or 8-bit) residue that the cells hold.
 `ep`, `first`, `pos`, `caps`, `log`, `early` and the `ep` tag of a frame are
 history: no decision reads them.
 */
module Console {
  import opened Basics
  import opened Dispatch
  import Check = Checksum

  const RS_PEND_MAX := 60
  const LEAD := 16               // R = tick + 16

  /** The delay from START and the game itself: one deterministic tick. */
  datatype Config = Config(d: nat, step: (Img, seq<Event>) -> Img)

  datatype Frame =
    | Input(ep: nat, seat: nat, tick: int, cell: Cell)
    | Crc(ep: nat, seat: nat, tick: int, crc: int)
    | Resync(ep: nat, tick: int)
    | Begin(ep: nat, r: int)
    | Data(ep: nat, pos: nat, bytes: seq<byte>)
    | End(ep: nat)

  /** Bytes on the wire, length byte included. */
  function FrameLen(f: Frame): (n: nat)
    ensures n > 0
  {
    match f
    case Input(_, _, _, _) => 7
    case Crc(_, _, _, _) => 7
    case Resync(_, _) => 4
    case Begin(_, _) => 6
    case Data(_, _, b) => 4 + |b|
    case End(_) => 4
  }

  datatype Pc = Top | Gate

  /** One OWN_CRC record. */
  datatype Rec = Rec(tick: int, crc: int)

  /** RS_CLR_CRC fills the records with $FF bytes. */
  const NO_REC := Rec(0xFFFF, 0xFFFF)
  const NO_RECS: seq<Rec> := [NO_REC, NO_REC, NO_REC, NO_REC, NO_REC, NO_REC, NO_REC, NO_REC]

  function RecSlot(x: int): (s: nat)
    ensures s < 4
  {
    (x % 256) / 64
  }

  /** A tick as it ran: the cells it read, the image it left, and whether the game was deterministic. */
  datatype Entry = Entry(cells: TickCells, img: Img, exact: bool)

  type Caps = map<(nat, int), Cell>
  type Log = map<(nat, int), Entry>

  datatype Console = Console(
    seat: nat, pc: Pc, tick: int, own: Ring, rmt: Ring, wm: int,
    hold: bool, r: int, pend: bool, ptmo: nat, recs: seq<Rec>, img: Img, got: nat,
    ep: nat, first: int, pos: nat, caps: Caps, log: Log, early: set<(nat, int)>)

  predicate Host(c: Console) { c.seat == 0 }

  /** The tick the next capture is for. */
  function NextCap(d: nat, c: Console): int {
    c.tick + d + (if c.pc.Gate? then 1 else 0)
  }

  // ---- frames -------------------------------------------------------------

  function OnInput(c: Console, f: Frame): Console
    requires f.Input?
  {
    if f.seat != c.seat && f.seat < 2 && Signed16(f.tick - c.wm) > 0
    then c.(rmt := c.rmt[Slot(f.tick) := f.cell], wm := f.tick)
    else c
  }

  /** The record a CRC frame is compared with, if it is for the same 16-bit tick. */
  predicate HasRec(c: Console, x: int)
    requires |c.recs| == 8
  {
    c.recs[RecSlot(x)].tick % 0x1_0000 == x % 0x1_0000
  }

  predicate Mismatch(c: Console, f: Frame)
    requires f.Crc? && |c.recs| == 8
  {
    !c.hold && !c.pend && HasRec(c, f.tick) && c.recs[RecSlot(f.tick)].crc != f.crc
  }

  function OnCrc(c: Console, f: Frame): (Console, seq<Frame>)
    requires f.Crc? && |c.recs| == 8
  {
    var c1 := if (f.ep, f.tick) in c.log then c else c.(early := c.early + {(f.ep, f.tick)});
    if Mismatch(c, f)
    then (c1.(pend := true, ptmo := 0), if Host(c) then [] else [Resync(c.ep, f.tick)])
    else (c1, [])
  }

  function OnReq(c: Console): Console {
    if Host(c) && !c.hold && !c.pend then c.(pend := true, ptmo := 0) else c
  }

  function EnterHold(c: Console, r: int): Console {
    c.(hold := true, r := r, recs := NO_RECS, pos := 0)
  }

  /** The data path of RS_ON_STATE: a chunk is applied whole or refused. */
  predicate ChunkOk(c: Console, pos: nat, n: nat) {
    c.hold && n > 0 && pos + n <= IMG_TOTAL
  }

  function Splice(img: Img, pos: nat, b: seq<byte>): (r: Img)
    requires pos + |b| <= IMG_TOTAL
    ensures forall i :: 0 <= i < IMG_TOTAL ==> r[i] == if pos <= i < pos + |b| then b[i - pos] else img[i]
  {
    img[..pos] + b + img[pos + |b|..]
  }

  function OnData(c: Console, pos: nat, b: seq<byte>): Console {
    if ChunkOk(c, pos, |b|) then c.(img := Splice(c.img, pos, b), pos := pos + |b|) else c
  }

  /** RS_CLAMP_ISR on the image: the saved interrupt vector is forced to $1126. */
  const ISR_POS := 0x1A8 - 0x15D

  function Clamp(img: Img): Img {
    img[ISR_POS := 0x26][ISR_POS + 1 := 0x11]
  }

  function Rebase(d: nat, c: Console): Console {
    c.(pend := false, ptmo := 0, img := Clamp(c.img), tick := c.r, own := IdleRing(), rmt := IdleRing(),
       wm := c.r + d - 1, recs := NO_RECS, hold := false,
       ep := c.ep + 1, pos := 0, first := NextCap(d, c.(tick := c.r)))
  }

  /** LS_IDLE_RMT, when the match is over: idle rings, the watermark 16k ticks ahead. */
  function Idled(c: Console): Console {
    c.(own := IdleRing(), rmt := IdleRing(), wm := c.tick + 0x4000)
  }

  function OnFrame(d: nat, c: Console, f: Frame): (Console, seq<Frame>)
    requires |c.recs| == 8
  {
    match f
    case Input(_, _, _, _) => (OnInput(c, f), [])
    case Crc(_, _, _, _) => OnCrc(c, f)
    case Resync(_, _) => (OnReq(c), [])
    case Begin(_, r) => (EnterHold(c, r), [])
    case Data(_, pos, b) => (OnData(c, pos, b), [])
    case End(_) => (if c.hold then Rebase(d, c) else c, [])
  }

  // ---- LS_PASS ------------------------------------------------------------

  function Capture(d: nat, c: Console, cell: Cell): Console
    requires c.pc.Top?
  {
    c.(own := c.own[Slot(c.tick + d) := cell], pc := Gate, caps := c.caps[(c.ep, c.tick + d) := cell])
  }

  function CaptureFrame(d: nat, c: Console, cell: Cell): Frame {
    Input(c.ep, c.seat, c.tick + d, cell)
  }

  /** The gate: the remote watermark has reached this tick. */
  predicate GateOpen(c: Console) {
    Signed16(c.wm - c.tick) >= 0
  }

  function ReadRing(ring: Ring, x: int): SeatCells {
    SeatCells(ring[Slot(x)], ring[Slot(x - 1)])
  }

  function ReadCells(c: Console): TickCells {
    if Host(c) then TickCells(ReadRing(c.own, c.tick), ReadRing(c.rmt, c.tick))
    else TickCells(ReadRing(c.rmt, c.tick), ReadRing(c.own, c.tick))
  }

  datatype Option<T> = None | Some(value: T)

  /** The image after this tick: what the game computes, or anything at all when it glitches. */
  function NextImg(cfg: Config, c: Console, glitch: Option<Img>): Img {
    match glitch
    case None => cfg.step(c.img, TickEvents(ReadCells(c)))
    case Some(img) => img
  }

  predicate Reports(x: int) { x % 64 == 0 }

  /** The game tick itself: the image, the tick counter and the history entry. */
  function Ticked(c: Console, img: Img, exact: bool): Console {
    c.(pc := Top, img := img, tick := c.tick + 1, log := c.log[(c.ep, c.tick) := Entry(ReadCells(c), img, exact)])
  }

  /** RS_RECORD_CRC on a 64-tick boundary. */
  function Recorded(c: Console, x: int, img: Img): Console
    requires |c.recs| == 8
  {
    if Reports(x) then c.(recs := c.recs[RecSlot(x) := Rec(x, Check.Cksum(img))]) else c
  }

  function ReportFrames(c: Console, img: Img): seq<Frame> {
    if Reports(c.tick) then [Crc(c.ep, c.seat, c.tick, Check.Cksum(img))] else []
  }

  /** Run tick T, record and report its checksum on a 64-tick boundary, tick++. */
  function RunTick(c: Console, img: Img, exact: bool): Console
    requires |c.recs| == 8
  {
    Recorded(Ticked(c, img, exact), c.tick, img)
  }

  /** BX_QUIESCENT: the cart's match-over cell $017C is set. */
  const QUIET_POS := 0x17C - 0x15D

  predicate Quiet(img: Img) { img[QUIET_POS] != 0 }

  /** RS_PENDING decides to push after this tick. */
  predicate Pushes(c: Console) {
    c.pend && Host(c) && !c.hold && (Quiet(c.img) || c.ptmo + 1 >= RS_PEND_MAX)
  }

  function Wait(c: Console): Console {
    if c.pend && Host(c) && !c.hold then c.(ptmo := c.ptmo + 1) else c
  }

  function ChunkLen(pos: nat): nat
    requires pos <= IMG_TOTAL
  {
    Min(RS_CHUNK, IMG_TOTAL - pos)
  }

  /** The chunk loop of RS_PUSH from position `pos` on, with the closing END. */
  function Chunks(ep: nat, img: Img, pos: nat): seq<Frame>
    requires pos <= IMG_TOTAL
    decreases IMG_TOTAL - pos
  {
    if pos == IMG_TOTAL then [End(ep)]
    else [Data(ep, pos, img[pos..pos + ChunkLen(pos)])] + Chunks(ep, img, pos + ChunkLen(pos))
  }

  function PushFrames(ep: nat, r: int, img: Img): seq<Frame> {
    [Begin(ep, r)] + Chunks(ep, img, 0)
  }

  /** RS_PENDING after the tick: wait, or push the image and re-baseline. */
  function Pending(d: nat, c: Console): (Console, seq<Frame>) {
    if Pushes(c) then
      var r := c.tick + LEAD;
      (Rebase(d, EnterHold(c, r)), PushFrames(c.ep + 1, r, c.img))
    else (Wait(c), [])
  }
}
