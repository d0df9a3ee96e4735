# Boxing netplay: verified model

Two consoles play one match of *Boxing* over a relay.  Each captures its input
for tick T+d, keeps it in a 256-cell ring, sends it, and runs tick T only when
the other side's input has reached T.  Every 64 ticks they compare checksums; on
a mismatch the host pushes the whole 769-byte game image while old input is
still in flight, and both resume at tick R = T+16.  The relay pairs the players
and forwards their frames.  This project models the protocol, the console code
that carries it out on byte cells, and the relay, and proves what they promise.

How the parts fit:

- **The match.** `Console`, `Match`: one console's state and two consoles joined
  by two byte streams, with every interleaving of pump, capture, stall and tick,
  arbitrary captured input, and ticks at which the game may glitch arbitrarily.
  Ticks are unbounded numbers, but every decision is taken on the 16-bit or
  8-bit residue the cells hold.  A resync opens a new *epoch*.  `Invariant` is
  what every reachable state satisfies; `Streams`, `GuestDeliver`, `HostDeliver`,
  `Passes`, `Ticks`, `Pushing` and `Safety` prove it step by step.
- **What follows for every run.** `Lockstep` (agreement, skew, wrap-around, no
  deadlock, no torn image, resync equality), `Progress` (another tick is always
  possible, on both sides), `Detection` and `Ledger` (checksum comparison is
  sound, complete and bounded: a divergence both sides have passed is wanted, and
  then pushed, within sixty ticks), `Limits` (the exact ranges of d, each with
  the runs that fail outside it), `Checksum` (what the sum can tell apart).
- **Down to bytes.** `Framing` and `Receiver` (SES_PUMP), `Wire` and `Transport`
  (frames as bytes), `Image` and `Memory` (image positions in memory, IMG_GET,
  IMG_PUT, push, apply, checksum), `CellRep`, `Cells` and `Station` (the console
  routines in place, each proved against the `Console` function it carries out),
  `Refinement` (the byte-level pump is the match's pump), `PassRuns` (a whole
  byte-level pass, of host or guest, is a run of the match), `Dispatch` (events).
- **The relay.** `RelayState`, `RelayTables`, `RelayFrames`, `RelayEffects`, `Relay`
  (clients, rooms, registry and the cascade of drops: what each frame does, and
  who cannot be touched by it), `RelayRuns` (whole runs: what reaches a member of
  a match), `Eviction` (a name taken over), `JoinNames` (a name looked up),
  `RelayWire` (the frames byte by byte, and what the console reads in them), `Feed`
  (both reassemblers against one reading of the stream), `Slots`, `CrcTable`,
  `V1Log` (the two checksum comparators), `CrcRuns` (what they count over a match).

Where the code and its own text disagree, the code is followed:

- The delay range.  Agreement without resyncs is exact for 1 to 127 and with
  resyncs for 1 to 15.  The delay byte admits 0 to 255; at 0 the initial
  watermark wraps to 255 and the gate never waits.
- `server/c/src/intv-relay.c:851` calls the death of a newcomer during an
  eviction impossible.  It is not: the two can share a room, and the notice to
  the newcomer can fail.  `Eviction.DeadAlias` is the input, and
  `Eviction.UncheckedSafe` the exact condition under which the Python server,
  which does not look again, registers no dead client: the two share no room.
- A JOIN's name with a NUL inside.  The C server ends the name there
  (`server/c/src/intv-relay.c:923-931`), the Python server compares all of it
  (`server/intv_relay_server.py:424-425`).  `Relay` follows the C server;
  `JoinNames.ServersDiffer` is an input on which the two answer differently, and
  `JoinNames.LookupsAgree` says exactly when they find the same client.
- `server/c/src/intv-relay.c:706-711` says the Python server lacks the
  whole-frame guard; `server/intv_relay_server.py:338-339` has it, and the two
  agree.
- Records are indexed by `tick_lo >> 6`, so only four of the eight are ever used.

What is assumed: one game tick is a function of image and events where a theorem
says the game is deterministic, and arbitrary elsewhere; the device returns at
most the bytes asked for, in order; a socket takes any number of bytes, would
block, or fails, as it likes.

## Model

| member | source | states |
|---|---|---|
| Lockstep.Agreement | src/netcode/lockstep.asm:73-294 | In every run from START (any captures, any scheduling, any reads of up to 64 bytes, any number of resyncs for d up to 15, none for d up to 127), a tick both consoles executed in an epoch read the same four cells on both and raised the same events. |
| Lockstep.StateAgreement | src/netcode/lockstep.asm:246-294 | If the game step was deterministic on both sides since the epoch began, equal ticks leave equal images. |
| Lockstep.Skew | src/netcode/lockstep.asm:131-142 | Tick counters of one epoch differ by at most d+1, and the ticks a remote ring still serves span less than its 256 cells. |
| Lockstep.WrapSafe | src/netcode/session.asm:601-628 | The 16-bit signed tests at the gate and on the next INPUT decide as unbounded ticks would, and an INPUT is taken exactly when it was sent in the receiver's epoch: nothing sent before a rebase is taken after it. |
| Lockstep.NoDeadlock | src/netcode/lockstep.asm:163-245 | With nothing in flight the two consoles are never both stalled, and no hold is open. |
| Progress.AlwaysCanTick | src/netcode/lockstep.asm:62-348 | From every reachable state finitely many steps without a drop end in another tick. |
| Progress.BothCanTick | src/netcode/lockstep.asm:62-348 | From every reachable state, and for every tick, some continuation takes both consoles there or further, or, with a delay of 16 or more, to a push. |
| Progress.StepTicks | src/netcode/lockstep.asm:62-348 | No step of either console takes a tick counter back, a resync included, and each tick run takes one on. |
| Progress.NeverFar | src/netcode/resync.asm:163-256 | In one epoch or across a push the two tick counters are never more than 128 apart. |
| Progress.CanTick | src/netcode/lockstep.asm:62-348 | The schedule itself: each step makes a four-part measure smaller until a gate opens. |
| Lockstep.NoTornImage | src/netcode/session.asm:458-474 | Whenever the guest may tick, no image byte of an unfinished push has been applied. |
| Lockstep.FewPushes | src/netcode/resync.asm:142-158 | At most two pushes are outstanding, so a stale INPUT is at most 100 ticks behind the watermark it is compared with. |
| Lockstep.ResyncEquality | src/netcode/resync.asm:370-419 | A guest that takes END has the tick, image, rings, watermark, records and flags the host resumed with, however long ago that was. |
| Lockstep.ResyncArrives | src/netcode/resync.asm:163-419 | Wherever in a run the host pushes, and however the run goes on, the guest that takes the END of that push stands in tick, image, rings, watermark, records and flags where the host stood right after sending it. |
| Safety.StepInv | src/netcode/lockstep.asm:8-349 | Every step of either console keeps the invariant behind all of the above. |
| Lockstep.Reachable | src/netcode/session.asm:681-725 | START establishes the invariant and every run keeps it. |
| Limits.DelayRange | src/netcode/resync.asm:166-173 | Agreement over all runs, resyncs included, holds if and only if 1 <= d <= 15: the lead of 16 ticks is the bound. |
| Limits.UnpushedRange | src/netcode/lockstep.asm:131-142 | Agreement over all runs without a push holds if and only if 1 <= d <= 127. |
| Limits.ZeroDelayDisagrees | src/netcode/session.asm:693-712 | The run that disagrees at d = 0: the initial watermark d-1 is the byte 255, so the gate never waits. |
| Limits.LongDelayDisagrees | src/netcode/session.asm:615-628 | For every d from 16 to 255 a run in which the host takes an INPUT of the old epoch and the two sides play tick R+d on different cells. |
| Limits.RingOverrun | src/netcode/session.asm:615-624 | For every d from 128 to 255 a push-free run in which input for tick 257 overwrites the unread cell of tick 1. |
| GuestDeliver.GuestDelivers | src/netcode/session.asm:558-636 | Whatever frame the guest reads next, the invariant survives. |
| HostDeliver.HostDelivers | src/netcode/session.asm:558-636 | Whatever frame the host reads next, stale ones included, the invariant survives. |
| HostDeliver.StaleTick | src/netcode/session.asm:607-614 | A frame of an epoch the host has left lies behind the watermark by less than 100 ticks, so the signed test refuses it. |
| GuestDeliver.AcceptKeepsRmt | src/netcode/session.asm:615-634 | Storing an accepted cell overwrites none that is still to be read; an INPUT the guest never sent for R+d is idle on both sides. |
| Passes.LateCapture | src/netcode/resync.asm:166-173 | A guest left behind by a push captures nothing the host could take for input of the new epoch. |
| Passes.CaptureOwn | src/netcode/lockstep.asm:131-142 | A capture overwrites no own cell that is still to be read. |
| Ticks.GateExact | src/netcode/lockstep.asm:171-194 | The wrap-around gate test is the comparison of unbounded ticks. |
| Ticks.GuestReads | src/vdispatch.asm:379-411 | The guest's gate opens only on cells both sides have settled. |
| Pushing.HostPushes | src/netcode/resync.asm:163-256 | A push opens a new epoch and keeps the invariant, with old guest frames still in flight. |
| Detection.Detects | src/netcode/resync.asm:76-137 | Of the two CRC reports for a tick at most one reaches its receiver before that tick was run there; one that comes after is flagged exactly when the two executed ticks have different checksums and no resync is wanted already, and a cleared or overwritten record is never taken for one. (That no difference stays unflagged is `Ledger.Noticed`.) |
| Detection.GuestDetects | src/netcode/resync.asm:76-137 | The guest's comparison is exact: mismatch if and only if its own executed tick has another checksum. |
| Detection.HostDetects | src/netcode/resync.asm:76-137 | The same for the host, for frames of its epoch; frames of an older epoch never alarm. |
| Detection.PushDue | src/netcode/resync.asm:438-470 | A wanted resync is pushed within 60 host ticks. |
| Ledger.Noticed | src/netcode/resync.asm:76-158 | In every run: a 64-tick boundary that both consoles ran in their common epoch with different checksums leaves a resync wanted once its reports are no longer in flight, and wanted by the host once no request is in flight either. |
| Ledger.Repaired | src/netcode/resync.asm:438-470 | From there on the host pushes before it has run sixty more ticks, whatever either console does meanwhile. |
| Ledger.StepLedgers | src/netcode/resync.asm:76-158 | Every step keeps the account behind it: each reported tick's frame is in flight, was too early, or was compared, and then equal unless a resync is wanted. |
| Detection.NoFalseAlarm | src/netcode/resync.asm:38-45 | With a deterministic game no run ever asks for, schedules or makes a push, and both logs are equal. |
| Checksum.OneCell | src/netcode/lockstep.asm:465-501 | Two images that differ in exactly one covered cell always have different checksums. |
| Checksum.FoldInjective | src/netcode/lockstep.asm:469-474 | Over the same bytes the rotate-add step loses nothing of the sum. |
| Checksum.OneByte | src/netcode/lockstep.asm:465-501 | One byte in an otherwise empty image sums to itself in the last cell read and doubles with every cell before that; it sums to zero exactly where nothing is read. |
| Framing.ParseSplit | src/netcode/session.asm:488-553 | Cutting any byte stream anywhere changes neither the frames dispatched, nor the bytes dropped, nor what is left. |
| Framing.Segmentation | src/netcode/session.asm:452-553 | Any sequence of reads parses as their concatenation. |
| Framing.StreamRoundTrip | src/netcode/session.asm:1064-1081 | Frames that fit the length table, cut into any reads, are dispatched once each, in order, with no slip. |
| Framing.PrefixRoundTrip | src/netcode/session.asm:528-531 | A partial frame at the end waits. |
| Framing.ParseShape | src/netcode/session.asm:495-531 | At most 99 bytes remain after a pump, and only frames the table allows are dispatched. |
| Framing.ParseConserves | src/netcode/session.asm:488-553 | Every byte is dispatched in one frame, dropped, or still waiting. |
| Receiver.Receiver.Pump | src/netcode/session.asm:452-553 | SES_PUMP on the 256-byte ring does what the parse of buffered plus read bytes says, and terminates on any bytes. |
| Receiver.Receiver.Accumulate | src/netcode/session.asm:477-487 | A read of at most 64 bytes is appended without overrunning the ring. |
| Receiver.Receiver.Extract | src/netcode/session.asm:531-543 | A frame is moved across the wrap into the frame buffer, which is long enough. |
| Receiver.Receiver.Slip | src/netcode/session.asm:544-551 | One byte is discarded and the saturating counter moves. |
| Wire.BytesAreFrames | src/netcode/lockstep.asm:144-162 | The first b bytes of a stream of match frames parse to exactly the frames they complete. |
| RelayWire.MatchBytes | src/netcode/lockstep.asm:144-162 | The match frames byte by byte, 16-bit fields low byte first. |
| Wire.GuestPumpBytes | src/netcode/session.asm:452-553 | A pump of the match delivers exactly the frames its bytes parse to. |
| Transport.ReadsAreExact | src/netcode/session.asm:452-553 | In every reachable state every read at either console parses to exactly the frames delivered, with no slip. |
| Transport.CoreSendable | src/netcode/resync.asm:197-238 | Every frame ever in flight has a length its receiver's table allows. |
| CellRep.MeaningRoundTrip | src/netcode/session.asm:587-613 | A frame naming a tick within half a turn of the 16-bit counter is understood as it was meant. |
| CellRep.SignedResidue | src/netcode/lockstep.asm:176-187 | A signed register difference is that of the ticks the registers stand for. |
| Cells.Cells.constructor | src/netcode/session.asm:681-725 | START for seat 0 or 1 of two: idle rings, cleared records, watermarks at the byte d-1, tick 0. |
| Cells.Cells.OnInput | src/netcode/session.asm:587-636 | On the cells, what taking or refusing an INPUT does to the state they stand for. |
| Cells.Cells.OnCrc | src/netcode/resync.asm:76-137 | RS_ON_CRC on the record cells, with the guest's one RESYNC frame. |
| Cells.CrcDecision | src/netcode/resync.asm:87-107 | The four cell comparisons are the comparison of tick and checksum. |
| Cells.Cells.OnReq | src/netcode/resync.asm:142-158 | A request counts on the host only, and only when nothing is pending or held. |
| Cells.Cells.OnState | src/netcode/resync.asm:267-355 | BEGIN, chunk, END and every refusal leave the cells standing for what the frame means, for any STATE frame the parser lets through. |
| Cells.Cells.EnterHold | src/netcode/resync.asm:360-368 | The hold is open at R, no checksum record survives, the pass counter restarts. |
| Cells.Cells.Rebase | src/netcode/resync.asm:370-419 | All cells together stand for the re-baselined console: tick R, idle rings, watermark R+d-1, cleared records, clamped image, no hold. |
| Cells.Cells.ResetInputs | src/netcode/resync.asm:392-411 | Both rings idle and every watermark at R+d-1, wrap-around included. |
| Cells.Cells.RingInit | src/vdispatch.asm:528-541 | After both loops every cell of every page is idle. |
| Cells.Cells.ClrCrc | src/netcode/resync.asm:532-540 | The cleared records stand for no tick. |
| Cells.Cells.OnFrame | src/netcode/session.asm:558-586 | SES_ONFRAME for every frame but a second START, PEER_LEFT included, on any payload. |
| Cells.Cells.Capture | src/netcode/lockstep.asm:76-162 | Own ring cell for T+d and the INPUT frame's bytes. |
| Cells.Cells.GateScan | src/netcode/lockstep.asm:166-203 | The seat scan opens the gate exactly when the remote watermark has reached T. |
| Cells.Cells.CountRound | src/netcode/lockstep.asm:229-238 | The round count over two cells is over at 768. |
| Cells.Cells.CountHold | src/netcode/lockstep.asm:42-51 | The hold count over two cells is over at 1536, and then the match is given up as by PEER_LEFT. |
| Cells.Cells.IdleRemote | src/netcode/lockstep.asm:444-459 | LS_IDLE_RMT: idle rings, watermarks 16k ticks ahead. |
| Cells.Cells.PeerGone | src/netcode/session.asm:788-792 | The match is over: dropped flag, idle rings, watermarks 16k ticks ahead, and the console state that stands for this. |
| Cells.Cells.Dispatch | src/vdispatch.asm:379-482 | LS_VDISPATCH raises the events that the seat's current and previous cells determine: each handler is called with each value exactly when the two cells say so, and at most once. |
| Cells.Cells.Events | src/netcode/lockstep.asm:276-289 | The events are those of the four cells this tick reads, by the state the cells stand for: controller 0's first, then controller 1's, each seat's release before its press before its disc or keypad. |
| Cells.Cells.RecordCrc | src/netcode/resync.asm:50-68 | The four cells written stand for the record of this tick at its slot, and no other record changes. |
| Cells.Cells.Report | src/netcode/lockstep.asm:295-329 | The 64-tick report: record and CRC frame. |
| Cells.Cells.TickUp | src/netcode/lockstep.asm:330-339 | The carry over two 8-bit cells is the next tick, also at the wrap of the 16-bit counter. |
| Cells.Cells.Push | src/netcode/resync.asm:163-256 | RS_PUSH: the bytes sent are BEGIN(T+16), every image byte once, END; then the rebase. |
| Cells.Cells.Pending | src/netcode/resync.asm:438-470 | RS_PENDING: wait for a quiet image or 60 ticks, host only. |
| Cells.Cells.RunTick | src/netcode/lockstep.asm:246-349 | Image, record, report, tick counter, pending push: the cells and the bytes sent are those of the tick and of RS_PENDING, in order. |
| Dispatch.PressesBalance | src/vdispatch.asm:413-451 | Over any run of ticks the fresh presses less the releases of an action button are its change from up to down. |
| Dispatch.RunExact | src/vdispatch.asm:413-482 | Over any run of ticks and for every slot and value, the number of calls, counted from the cells alone: a disc direction or keypad code once when it is new, the settled disc once, a button's press, release and every tick it is held, and nothing else. |
| Dispatch.SeatExact | src/vdispatch.asm:409-482 | The same for one tick of one seat. |
| Dispatch.TickExact | src/netcode/lockstep.asm:276-289 | What a tick of the match raises, in which order, from the four cells alone. |
| Station.Station.Pump | src/netcode/session.asm:452-586 | SES_PUMP with SES_ONFRAME behind it: frames handled in order, replies sent in order, for any read whose frames are not a second START; the match is over exactly if one of them is PEER_LEFT. |
| Station.Station.Gate | src/netcode/lockstep.asm:163-245 | The gate wait ends within 768 pump rounds of the last rebase in it (of its begin, if there is none), by opening, by PEER_LEFT or by giving the match up, which happens at exactly 768; on any reads without a second START; it reads on exactly while the gate is closed. |
| Station.Station.HoldPass | src/netcode/lockstep.asm:17-61 | A hold pass pumps and never ticks, on any read without a second START; the match is given up exactly when 1536 passes are counted. |
| Station.Station.Pass | src/netcode/lockstep.asm:62-349 | LS_PASS as a whole, on any reads without a second START: what it sends, the events it raises and the state it leaves; it ticks exactly when the gate opened or the match is over, and a match given up leaves the gate open. |
| Station.HandledConcat | src/netcode/session.asm:488-553 | Handling frames in two groups is handling them in one. |
| Refinement.GuestPumpRefines | src/netcode/session.asm:452-636 | In every state of the invariant the byte-level guest ends a pump standing for the guest the match has, and sends the same. |
| Refinement.HostPumpRefines | src/netcode/session.asm:452-636 | The same for the host. |
| Refinement.HandledIs | src/netcode/session.asm:558-636 | A frame's bytes do what the frame does. |
| PassRuns.PassRuns | src/netcode/lockstep.asm:62-349 | On the bytes in flight, cut anywhere, a pass of host or guest is Start, a Stall for each gate round, and Run of the match, from every state of the invariant: same console, same buffered bytes, same frames sent. |
| PassRuns.PassBeside | src/netcode/lockstep.asm:62-349 | Station.Pass run beside the match: if it ticks and the match is not over, the console cells, the receive buffer and the bytes sent are those of that run. |
| PassRuns.Stalls | src/netcode/lockstep.asm:206-245 | The gate rounds alone: each closed round is a Stall. |
| Image.LanesDisjoint | src/netcode/resync.asm:550-595 | No two of the 769 image positions share a byte of memory. |
| Image.ImageBytes | src/netcode/resync.asm:15-33 | The image against memory, by literal addresses: scratch bytes, BACKTAB and object-table words low byte first, and the fourteen tail cells. |
| Image.PutGet | src/netcode/resync.asm:558-647 | Writing a position and reading any position back. |
| Image.PutAlgebra | src/netcode/resync.asm:597-647 | Writing back what is there changes nothing; of two writes the second stands. |
| Image.ImageCells | src/netcode/resync.asm:15-33 | The image cells are exactly the cells some position lives in. |
| Image.PutAllImage | src/netcode/resync.asm:306-326 | A chunk overwrites exactly its stretch of the image. |
| Image.PutAllConfined | src/netcode/resync.asm:287-326 | A chunk writes no cell outside the image. |
| Memory.Ram.ImgGet | src/netcode/resync.asm:558-595 | IMG_GET reads the position's lane: for a word the low byte at the even position, the high byte at the odd one (`Image.ImageBytes`). |
| Memory.Ram.ImgPut | src/netcode/resync.asm:597-647 | IMG_PUT writes the position's lane and nothing else. |
| Memory.Ram.Apply | src/netcode/resync.asm:269-327 | For any frame buffer contents: applied exactly inside a hold and inside the image, and confined to image cells. |
| Memory.Ram.PushAll | src/netcode/resync.asm:174-254 | The push loop emits each position exactly once, as frames the applier accepts. |
| Memory.Ram.Rebase | src/netcode/resync.asm:383-387 | Afterwards the interrupt vector is $1126 in both places and the countdowns are the mirrors. |
| Memory.RebasedCells | src/hook.asm:385-398 | A rebase cell by cell: $1126 in both places, six countdown cells from their mirrors, nothing else. |
| Memory.Ram.Cksum | src/netcode/lockstep.asm:465-501 | LS_CKSUM's loops compute the rotate-add sum over the covered positions. |
| Memory.Ram.GameTick | src/hook.asm:233-262 | The countdown mirrors and the quiescent flag after a tick. |
| Memory.MirroredCells | src/hook.asm:233-262 | The end of a tick cell by cell: six mirrors, the quiescent flag, nothing else. |
| Memory.QuietCell | src/hook.asm:249-262 | The image is quiet exactly when $017C is set. |
| Memory.PushApplied | src/netcode/resync.asm:193-238 | A whole push carries every image position into any memory and touches nothing else. |
| Memory.ResyncMemory | src/hook.asm:385-398 | After a push and both rebases: equal images, clamped interrupt vectors, equal native countdowns. |
| Memory.ClampImage | src/netcode/resync.asm:512-521 | The clamp in memory is the clamp of the image. |
| Memory.MirrorRestore | src/hook.asm:233-262 | Restoring countdowns from fresh mirrors is a no-op. |
| Relay.Server.Drop | server/c/src/intv-relay.c:603-698 | A drop and everything it sets off keep the invariant and only take away; the client is dead, a started room it was in is gone; clients that shared no room with it, their queues and their rooms are untouched; room-mates with broken sockets go too, and if nobody else goes the state is exactly the client's removal and what its room was told. |
| Relay.Server.Leave | server/c/src/intv-relay.c:608-648 | Death, deletion of every alias, seat given up: those behind it move up one seat, those before it stay; only the size of its own room can suffer. |
| Relay.Server.Vacated | server/c/src/intv-relay.c:650-696 | Whether the room ends, is dissolved or reseats, the invariant holds again and a started room is gone; live clients outside it and all other rooms are untouched; if its members survive, each got the one notice that applies and nothing else. |
| RelayWire.MatesTold | server/c/src/intv-relay.c:650-696 | A drop that costs nobody else, byte by byte: in a match every room-mate is told the seat and the name and is in the lobby; in a forming room that loses its host or has one left everybody is in the lobby; else the room goes on under the new roster. |
| Relay.Server.Dissolve | server/c/src/intv-relay.c:591-601 | Every member back to the lobby, the slot released, with drops nested inside its sends; clients and rooms outside it untouched; if those told survive, each queue grew by the notice and nothing else. |
| Relay.Server.Broadcast | server/c/src/intv-relay.c:578-588 | Sent from a snapshot while nested drops may reseat or dissolve the room; outsiders untouched; if all members survive, each got the roster and nothing else changed. |
| Relay.Server.SendRaw | server/c/src/intv-relay.c:439-455 | A client that survives has exactly this frame more in its queue and nothing else changed; else it was dropped, which touches only its room-mates; one with a broken socket does not survive. |
| Relay.Server.SendAll | server/c/src/intv-relay.c:578-588 | One frame to each of a snapshot: if all survive, each queue grew by exactly it and nothing else changed; whatever happens, clients that share no room with any of them are untouched. |
| Relay.Server.Flush | server/c/src/intv-relay.c:415-437 | Bytes sent and bytes buffered stay the bytes queued, whatever the socket takes; a failure drops the client and touches only its room-mates. |
| Relay.Server.Close | server/c/src/intv-relay.c:545-555 | End of stream, error or timeout: the drop, with all that it promises, room-mates alone affected; the address limit and the registered names stay in order. |
| Relay.Server.RelayFrame | server/c/src/intv-relay.c:1249-1274 | As long as the match survives the call, every other member's queue grew by exactly the frame and nothing else changed; outside a started room nothing happens; no other room is ever touched. |
| RelayRuns.InOrder | server/c/src/intv-relay.c:1249-1274 | Over any run of the server's loop: while a match plays, a member's queue grows by exactly the match frames the other members sent, verbatim, once each and in order, interleaved with the answers to its own LIST, PING and HELLO only. |
| RelayRuns.OneEvent | server/c/src/intv-relay.c:1249-1291 | For one event of any client, member or not, and any kind: what it adds to the queue of a member of a match that goes on. |
| RelayRuns.Serve | server/c/src/intv-relay.c:1537-1579 | The loop over connections, frames, writable sockets and hang-ups goes through states each of which follows from the one before; the invariants hold throughout. |
| Relay.Server.Handle | server/c/src/intv-relay.c:1249-1291 | Whatever frame a live client sends, the invariant, the address limit and the form of registered names hold, and nobody is touched but the clients it concerns and their room-mates; and what it does, by type: match frames relayed, HELLO names, answers or drops, LIST and PING answered, JOIN seats and announces or starts, or is refused with the lobby list, GO starts and deals the START frames, everything else drops. |
| Relay.Server.Accept | server/c/src/intv-relay.c:464-543 | A connection is refused exactly when all 64 slots are in use or its address has eight already; else the first free slot gets a client without name, room or queue; no address ever has more than eight. |
| Relay.Server.OnHello | server/c/src/intv-relay.c:799-867 | A good name is registered for the client, certainly if it was free, its own, or held outside the client's room, and else exactly if the client outlives the eviction; a bad HELLO drops it; then the registry is renamed, the lobby list queued, and nobody else touched. |
| Relay.Server.Evict | server/c/src/intv-relay.c:848-853 | The holder's drop frees the name. The newcomer is untouched unless it shares a room with the holder; with a broken socket it survives if and only if it does not. |
| Relay.Server.Rename | server/c/src/intv-relay.c:854-863 | The registry keeps its order: the entry stays where it was under the same name, and under a new one the old entry is gone and the new one comes last. |
| Relay.Server.NameSet | server/c/src/intv-relay.c:340-352 | In place or appended; the capacity return is never taken. |
| Relay.Server.DeleteNames | server/c/src/intv-relay.c:623-635 | The backward deletion loop removes a client's entries and keeps the order of the rest. |
| Relay.Server.OnList | server/c/src/intv-relay.c:885-904 | The frame queued lists the first eight other registered clients in registry order, with their room status. |
| RelayWire.LobbyRowSaid | server/c/src/intv-relay.c:885-904 | Row k of the lobby list is the k-th other client of the registry: its name, and its status by its room. |
| RelayWire.LobbyHonest | server/c/src/intv-relay.c:869-883 | A JOIN of a listed name finds the client listed, and is let in if and only if the row's status byte says so. |
| Relay.Server.OnJoin | server/c/src/intv-relay.c:909-976 | A JOIN succeeds if and only if the client whose name its payload holds, read as a C string, can be joined; then the joiner has the last seat of the target's room, a new one if it had none, the match is started where v1 or the auto-go count says, members hear of it (in v1 each their role and the other's name), and beyond that clients are only lost, the survivors sitting in the order they sat in with the joiner last; a refused JOIN is answered by the lobby list at most. |
| JoinNames.LookupsAgree | server/c/src/intv-relay.c:923-931 | The C and the Python server find the same client unless the stripped payload, of at most eight bytes, holds a NUL and what precedes it is a registered name. |
| JoinNames.AlwaysAgree | server/intv_relay_server.py:424-425 | They do so whoever is registered if and only if no possible name ends at a NUL of the payload. |
| JoinNames.JoinsAgree | server/intv_relay_server.py:424-436 | Where they find the same client they also agree on whether it can be joined. |
| JoinNames.ServersDiffer | server/c/src/intv-relay.c:332-338 | The input: JOIN of `ANN`, NUL, `X` pairs the sender with ANN in the C server and finds nobody in the Python server. |
| Relay.Server.Seat | server/c/src/intv-relay.c:955-970 | Every member keeps its seat, the joiner has the next one, a waiting target has seat 0; never fails for want of a room. |
| Relay.Server.Open | server/c/src/intv-relay.c:958-969 | A room slot is always free for a pairing. |
| Relay.Server.OnGo | server/c/src/intv-relay.c:978-987 | GO starts the match if and only if the sender hosts a forming room: then the room is started and every member that match keeps has its START; else nothing changes at all. |
| RelayWire.HostKnows | src/netcode/session.asm:750-768 | Who may say GO is exactly who finds its own name in the first place of the roster, which is how a console knows it is the host. |
| RelayWire.RelayFits | src/netcode/session.asm:1064-1081 | Every frame a v2 relay makes has a length the console's table lets through. |
| RelayWire.CrcHeard | server/c/src/intv-relay.c:1136-1142 | What the relay reads in a console's CRC frame is the console's seat, its tick's 16 bits and its checksum. |
| Relay.Server.StartRoom | server/c/src/intv-relay.c:989-1016 | The room is started and nothing but losses follows; as long as the match survives the sends, each member's queue grew by a START whose bytes are its own seat, the number of players, one common seed, the delay and all names by seat, and nothing else changed; other rooms are untouched. |
| Relay.Server.StartPair | server/c/src/intv-relay.c:1022-1063 | Two waiting players always get a room; as long as it survives the sends, the host's queue grew by a START whose bytes are role 0, the seed, the delay and the guest's name, the guest's by role 1, the same seed and delay and the host's name. |
| RelayFrames.PadStrips | server/c/src/intv-relay.c:242-249 | A name a client can have, padded to eight bytes, reads back as the name. |
| RelayFrames.RoomBytes | server/c/src/intv-relay.c:578-601 | ROOM byte by byte: the number of members and their names by seat, or all NUL for back to the lobby. |
| RelayState.RemovedBase | server/c/src/intv-relay.c:608-648 | Removing a client keeps membership, registry and queues consistent and makes the live count smaller. |
| RelayState.UnroomedBase | server/c/src/intv-relay.c:595-596 | Clearing the members' rooms leaves a room nobody is in. |
| RelayState.ClosedBase | server/c/src/intv-relay.c:599-600 | Releasing the slot ends the dissolution. |
| RelayState.ShrunkTrans | server/c/src/intv-relay.c:603-698 | Cascades compose: the registry ends as the old one without the dead, in order. |
| RelayEffects.OrderKept | server/c/src/intv-relay.c:608-648 | Whatever a cascade costs a room that lasts, those left sit in the order they sat in. |
| RelayEffects.ShrunkOrderly | server/c/src/intv-relay.c:603-698 | No cascade of drops raises any address above eight connections or leaves a name in the registry that a HELLO could not carry. |
| RelayTables.RoomFree | server/c/src/intv-relay.c:363-375 | With a live client outside every room some room slot is free. |
| RelayTables.RoomForName | server/c/src/intv-relay.c:340-352 | An unregistered client finds room in the registry. |
| RelayTables.RenamedInv | server/c/src/intv-relay.c:854-863 | Registering keeps the bijection of names and live identified clients. |
| RelayTables.RecheckNeeded | server/intv_relay_server.py:387-396 | In a state where nobody else holds the name, registering keeps the registry consistent if and only if the client lives. |
| Eviction.UncheckedSafe | server/intv_relay_server.py:387-396 | Registering without looking again is safe in every outcome of the eviction if and only if the two share no room, which the server can see beforehand. |
| Eviction.DeadAlias | server/c/src/intv-relay.c:848-853 | The concrete input: the joiner of a forming room of two takes its host's name with a broken socket; in the state the drops leave, slots freed, registering it all the same leaves a dead client with a name. |
| Eviction.ChainShrinks | server/c/src/intv-relay.c:591-698 | For the two members of a forming room the state after drop, dissolve, failed notice, drop and both slots freed; from any pair in one room that state keeps the invariant, only takes away, and has both dead. |
| RelayEffects.EvictFate | server/c/src/intv-relay.c:848-853 | Whether a newcomer outlives the eviction is decided by rooms and socket beforehand. |
| RelayEffects.GroupSpared | server/c/src/intv-relay.c:578-601 | Sends to former members of one room touch nobody outside it, however the drops nest. |
| RelayEffects.SparedStep | server/c/src/intv-relay.c:603-698 | Isolation composes over cascades. |
| RelayTables.JoinedInv | server/c/src/intv-relay.c:966-968 | A client without a room that joins one with a seat left is listed once, and no other room, name or queue suffers. |
| Feed.SplitSplit | server/intv_relay_server.py:331-349 | Where a client's stream is cut does not matter. |
| Feed.SameStream | server/intv_relay_server.py:320-349 | Two segmentations of one stream: the same frames handled, the same drop point. |
| Feed.OpenRest | server/c/src/intv-relay.c:713-716 | An open connection waits with at most 200 bytes. |
| Feed.SplitExact | server/intv_relay_server.py:331-349 | The reading of any stream is exactly its frames, one behind the other, and what was not consumed; it stops at a bad length, at part of a frame, or at the first frame that costs the client its connection. |
| Feed.FramesHandled | server/c/src/intv-relay.c:735-757 | Any frames of 1 to 200 bytes a client sends are handled once each and in order, whatever follows them. |
| Feed.Buffer.Service | server/intv_relay_server.py:331-349 | The unbounded buffer handles what the stream says. |
| Feed.FixedBuffer.Feed | server/c/src/intv-relay.c:717-759 | The 256-byte buffer does the same, and the overflow drop is never reached. |
| Feed.FixedBuffer.Drain | server/c/src/intv-relay.c:735-757 | Whole frames are handled until the buffer holds part of one, a bad length or a dead client: the reading of the buffered bytes. |
| CrcTable.Comparator.Log | server/c/src/intv-relay.c:1136-1247 | The 65 x 8 table goes where the dictionary goes, eviction of the row just touched included, with the same verdict; the full-table and seat-cap returns are never taken. |
| CrcTable.LoggedOk | server/intv_relay_server.py:469-490 | Between calls at most 64 ticks are stored, each with fewer votes than players. |
| CrcTable.LastVote | server/intv_relay_server.py:477-490 | The last vote settles a tick, agreed exactly if all checksums are equal. |
| CrcTable.Verdicts | server/intv_relay_server.py:477-490 | A verdict falls if and only if the seats stored for the tick, with this one, are all the players, and it is agreement if and only if all their checksums are equal. |
| CrcTable.Stored | server/intv_relay_server.py:469-479 | What is stored after a vote: every open tick but the lowest of 65, each with exactly the votes given. |
| CrcRuns.CountsRounds | server/c/src/intv-relay.c:1136-1247 | Over any run of votes, once a tick and seat, with at most 64 ticks open: the counter is the number of ticks everybody has voted for with equal checksums, the mismatches are the others, and the dictionary holds exactly the rest. |
| CrcTable.RowFree | server/c/src/intv-relay.c:1151-1163 | With at most 64 ticks stored one of the 65 rows is free. |
| Slots.SlotFree | server/c/src/intv-relay.c:1179-1190 | With fewer entries than slots one is free. |
| CrcTable.Comparator.Evict | server/c/src/intv-relay.c:1199-1209 | Exactly the lowest tick leaves the dictionary, and only its row is released. |
| V1Log.Pair.Report | server/c/src/intv-relay.c:1069-1134 | The two logs go where the dictionaries go; the two counters stay equal; the spare cell exists. |
| V1Log.ReportedOk | server/c/src/intv-relay.c:1069-1134 | No tick is ever in both logs, and neither exceeds 64 entries. |
| V1Log.SecondSettles | server/c/src/intv-relay.c:1085-1103 | The second report of a tick settles it correctly, unless 64 later ticks pushed the first out. |

## Left out

- The EXEC, the cart ROM, the interrupt routine, the `$0102` freeze and the natively dispatched timer slots: the game tick is a parameter, and the three countdowns are only copied.
- The mailbox driver and echo spike: a read is a parameter of at most 64 bytes.
- Play after a drop: the parked screen. `Station.Pass` makes the one further tick against idle rings.
- A second START during a match, LOBBY and ROOM screens, HUD counters, display reset, username app key: session user interface.
- Handler-table adoption (`LS_TBL_ADOPT`) and handler calls: `Cells.Events` ends at the list of events.
- `NET_FUZZ`, `SPIKE_*`, `AUTO_JOIN` and script tables: captured input is an arbitrary byte pair.
- Relay logging, statistics, lobby publishing, argument parsing, signals, epoll, clocks: plumbing. The HELLO timeout is `Relay.Server.Close`.
- Eviction.ChainShrinks: in a room of three or more, or a started one, the server tells the other members something first; the lemma's state then stands for the newcomer's fate only, which `Relay.Server.Evict` promises for every room.
- Relay.Server.Handle: checksum frames reach the comparators of `CrcTable` and `V1Log` beside the relaying, and the two are modelled separately.
- Relay.Server.RelayFrame: says nothing of what is queued to whom once the frame has cost the room a member; the order of frames to ex-members differs between the two servers.
- Relay.Server.Flush: an interrupted send that is retried at once is not a step of its own.
- CrcTable.Comparator.Log: the mismatch line with its sorted seats is not built.
- Cells.Cells.OnFrame: not for a second START, which would begin another match.
- Cells.Cells.constructor: only for seats 0 and 1 of two; the code stores whatever START says, but this cart always plays two (`src/ram.asm:134`).
- PassRuns.PassBeside: nothing of a pass after which the match is over, or whose reads ran out before the gate opened; the match has no step for giving up.
- Console fields `ep`, `first`, `pos`, `caps`, `log`, `early` and the epoch tag of a frame are history; no decision reads them.
