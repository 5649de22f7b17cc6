# A verified model of the VoodooPS2 driver stack

The repository is a set of macOS kernel drivers for PS/2 keyboards, mice and touchpads. This project models its
hard core in Dafny and proves what the code is meant to guarantee:

- **The 8042 request engine.** Drivers submit lists of commands; the controller runs them against one port that mixes
  keyboard and mouse bytes, told apart by a status bit. `Port` is the port and the two polling reads, `Ledger` the
  books of where each byte went, `RequestEngine` the command processor, `RequestQueue` the queue, `Power` the interrupt
  gate, and `Controller` the object whose methods change in place and are tied to these specifications.
- **The packet ring.** `RingBuffer` is the object over a raw array; `ConcurrentRing` is the same protocol as a state
  machine whose steps are single shared-memory accesses, so that a run is any interleaving of interrupt and work loop;
  `ConcurrentFraming` puts an interrupt handler on top of that machine, and `InterleavedDrivers` shows that the
  Synaptics and the ALPS handler are of that kind.
- **Packet framing.** `SynapticsFraming` (six bytes, with markers for lost synchronisation) and `AlpsFraming` (three or
  six bytes in slots of six).
- **The Synaptics gesture machine.** `Gesture` is the specification, `GestureDriver` the object, `GestureProperties` the
  invariants over every run, `GestureMotion` the conservation laws and the double tap, `GestureBehaviour` what each kind
  of packet does, said in the fields of packet and pad; `MomentumScroll` is the coast after two fingers have left.
- **The middle-button simulation** in `MiddleButton`, **the sample filters** in `Filters`, and **the RMCF configuration
  decoder** in `Rmcf`. `CInt` is C's truncating division, `Options` the optional value.

The shipped configuration is modelled: no debugger support, second-chance reordering on, interrupt data handled at
interrupt time, no watchdog, clocks switched off before sleep, and a full reset after wake.

## How to read it

A run of the driver sees a finite sequence of status polls, each "not ready" or "ready with a byte of this stream", and
after that only "not ready"; whatever a device does in answer to writes yields one such sequence, so a statement about
all sequences covers all devices. Each object method states its whole effect as a function of the old state; what the
design promises is then proved about those functions over every input and every run. The dispatch log records the
driver whose interrupt handler was called, computed as the code computes it, and not the stream of the byte; that the two
agree is part of what `Traced` says. Ghost parameters named `since` carry that statement through a run. The ghost log
`steps` records, in order, each command byte that a power change settles on and each driver's power callback.
`dafny verify dfyconfig.toml` checks everything.

Some naive claims are false of the code. Each has its exact condition and an input that shows it:

- A compare with 0 succeeds on a silent port, because a timeout returns 0 (`CompareSucceedsIff`, `TimeoutMatchesZero`).
- The source comments call the composite mouse command equivalent to its three-command form. It is, if and only if no
  transmit-to-mouse prefix is pending (`ExpansionIff`, `PendingPrefixDiffers`). The model follows the code.
- The pair AA 00 inside a legitimate packet aborts that packet (`SynapticsFraming.RoundTripIff`, `ResetPairAborts`).
- The byte 0x80 inside a legitimate ALPS packet drops what there was of it (`AlpsFraming.RoundTripIff`, `BreakDrops`).
- An undeclared power ordinal is stored as the current state, and one that arrives during sleep leaves interrupts off for
  good (`GateSoundIff`, `LeakIsForever`, `UndeclaredWakeLeaks`).
- Packets skipped by the typing guard or the off switch leave the touch mode standing, whether or not it agrees with the
  finger (`ParityIff`, `SkippedPacketLosesParity`).
- The ring can refuse a packet although there is room, if the reader releases two packets between the writer's two looks
  at the tail and the look with the old head comes first; the language leaves that order open (`CommitIff`,
  `RefusedWhenEmpty`).

## Model

| member | source | states |
|---|---|---|
| `RequestEngine.SecondChanceTransparency` | VoodooPS2Controller/VoodooPS2Controller.cpp:1126-1279 | Second chance is transparent: for every list of writes and compares, if each awaited answer is preceded by any other-stream bytes, at most one different own-stream byte and fewer than 10000 empty polls, the request ends with the count, commands, port writes and consumed bytes of the run on a port that carries the answers alone, and the handler of each stream's own driver is called with exactly the strays that the status marked for it, in arrival order |
| `RequestEngine.ProcessThroughNoise` | VoodooPS2Controller/VoodooPS2Controller.cpp:1156-1254 | On such a port no command fails, exactly the awaited answers are consumed, exactly the list's writes are made, and exactly the strays are dispatched, per stream in order |
| `RequestEngine.ExecuteThroughNoise` | VoodooPS2Controller/VoodooPS2Controller.cpp:1164-1227 | The same for one command, with the stream mode and transmit prefix that the next command sees |
| `Port.ReadThroughNoise` | VoodooPS2Controller/VoodooPS2Controller.cpp:1524-1582 | A comparing read returns the answer behind noise, leaves the rest of the port alone, and dispatches held and foreign bytes in per-stream arrival order |
| `Port.CompareSucceedsIff` | VoodooPS2Controller/VoodooPS2Controller.cpp:1414-1584 | For every port: a comparing read returns the expected byte if and only if it is the first or second own-stream byte before the budget runs out, or there is none and 0 is expected |
| `Port.SecondChanceIff` | VoodooPS2Controller/VoodooPS2Controller.cpp:1524-1571 | With a mismatch put aside, the read succeeds if and only if the next own-stream byte in sight is the expected one |
| `RequestEngine.TimeoutMatchesZero` | VoodooPS2Controller/VoodooPS2Controller.cpp:1481-1492 | The input that limits compares: on a dead port a compare with 0 succeeds and every other compare fails |
| `RequestEngine.ProcessConserves` | VoodooPS2Controller/VoodooPS2Controller.cpp:1126-1279 | Byte conservation for every list and every port: the polls used are a prefix, and per stream the bytes that the status marks for it are an order-preserving merge of bytes consumed (at most one per reading command), bytes handed to that stream's driver, and bytes flushed; none lost, doubled, misrouted or overtaken |
| `RequestEngine.ExecuteConserves` | VoodooPS2Controller/VoodooPS2Controller.cpp:1158-1251 | The same for each of the ten commands, with the number of bytes that command may take |
| `RequestEngine.FlushConserves` | VoodooPS2Controller/VoodooPS2Controller.cpp:1229-1238 | A flush discards exactly the ready bytes in front, and nothing goes to a reader or a driver |
| `Ledger.TracedTransitive` | VoodooPS2Controller/VoodooPS2Controller.cpp:1126-1279 | Conservation composes: traced from one point to the next and from there on is traced all the way |
| `Ledger.ReadTraced` | VoodooPS2Controller/VoodooPS2Controller.cpp:1312-1584 | Any read that accounts for its bytes is traced in the books |
| `Ledger.InterruptTraced` | VoodooPS2Controller/VoodooPS2Controller.cpp:174-230 | So is an interrupt, which consumes and discards nothing |
| `Ledger.ReadyStep` | VoodooPS2Controller/VoodooPS2Controller.cpp:1229-1238 | One turn of a loop that reads while something is ready leaves the outcome of the loop unchanged |
| `RequestEngine.ServeAllConserves` | VoodooPS2Controller/VoodooPS2Controller.cpp:1126-1308 | Conservation over any number of requests one after the other, with the number of bytes they may take |
| `Port.PlainAccounted` | VoodooPS2Controller/VoodooPS2Controller.cpp:1312-1408 | A plain read takes at most one byte, of the requested stream outside startup mode; the others it passed went to the other device's driver, which is the one their status marked, in order |
| `Port.ExpectingAccounted` | VoodooPS2Controller/VoodooPS2Controller.cpp:1414-1584 | A comparing read accounts for every byte it passed: at most one taken, the others handed to the drivers of their own streams, in per-stream order |
| `Port.HeldAccounted` | VoodooPS2Controller/VoodooPS2Controller.cpp:1548-1571 | The byte put aside is itself taken or dispatched, never lost, on a match, a second mismatch and a timeout alike |
| `Port.PlainReturns` | VoodooPS2Controller/VoodooPS2Controller.cpp:1312-1408 | For every port and budget: a plain read returns the first byte of its own stream in sight, in startup mode the first of either stream, and 0 if there is none; a byte is taken exactly if there is one, and it is the one returned |
| `Port.ExpectingReturns` | VoodooPS2Controller/VoodooPS2Controller.cpp:1414-1584 | What a comparing read returns and what it hands to its own driver: the first own byte if it matches or is alone; the second if that one matches, and then the first is dispatched; of two that do not match, the first is returned and the second dispatched |
| `Port.HeldReturns` | VoodooPS2Controller/VoodooPS2Controller.cpp:1524-1571 | The same once a byte is put aside |
| `RequestEngine.ReadsBringBack` | VoodooPS2Controller/VoodooPS2Controller.cpp:1160-1217 | A read command brings back the first byte of its stream in sight, or 0: the mouse stream for a mouse read, which makes it the current one, and the current stream otherwise |
| `RequestEngine.NewCommandByteBits` | VoodooPS2Controller/VoodooPS2Controller.cpp:1244-1250 | The new command byte has none of the bits to clear, all of the bits to set if nothing clears them, and every other bit as it was |
| `RequestEngine.ModifyBringsBack` | VoodooPS2Controller/VoodooPS2Controller.cpp:1244-1250 | Modifying the command byte brings back the byte that the keyboard stream had in sight, and writes one back in which the bits to set are set and the bits to clear are clear |
| `RequestEngine.ComparesFailIff` | VoodooPS2Controller/VoodooPS2Controller.cpp:1164-1227 | A comparing command fails exactly if its answer is neither the first nor the second byte of its stream in sight and no timeout stands in for it; a compare on the current stream that fails brings back the first byte in sight instead |
| `RequestEngine.FlushBringsBack` | VoodooPS2Controller/VoodooPS2Controller.cpp:1229-1242 | A flush brings back the number of bytes it discarded |
| `RequestEngine.StopsAtFailure` | VoodooPS2Controller/VoodooPS2Controller.cpp:1253-1265 | A list that fails did exactly the commands before the count, then the failing one, and left the rest alone |
| `RequestEngine.ServeOnline` | VoodooPS2Controller/VoodooPS2Controller.cpp:1126-1279 | Online, a request runs its first commands, as many as its count says, from the keyboard stream with no prefix; its new count is below the old one exactly if one failed |
| `RequestEngine.Process` | VoodooPS2Controller/VoodooPS2Controller.cpp:1156-1254 | The count left behind is below the length if and only if a command failed; the list keeps its length |
| `RequestEngine.ServeOneMore` | VoodooPS2Controller/VoodooPS2Controller.cpp:1283-1308 | Serving a list of requests and then one more is serving the longer list |
| `RequestEngine.OfflineServesNothing` | VoodooPS2Controller/VoodooPS2Controller.cpp:1142-1147 | Offline, any list of requests ends at count 0 each, commands untouched, without a port access |
| `RequestEngine.ExpansionRefines` | VoodooPS2Controller/VoodooPS2Controller.cpp:1193-1212 | Expanding every composite mouse command, when none is reached with a transmit prefix pending, preserves writes, bytes read, dispatched and flushed, stream mode and success for every list and port, and reports a failure at the corresponding index |
| `RequestEngine.ExpansionIff` | VoodooPS2Controller/VoodooPS2Controller.cpp:1193-1212 | One composite command and its expansion agree on success, writes, port and logs, and leave the same processor state if and only if no prefix was pending |
| `RequestEngine.PendingPrefixDiffers` | VoodooPS2Controller/VoodooPS2Controller.cpp:1174-1212 | The concrete request and port on which the documented equivalence fails: with a prefix pending, a later keyboard compare fails in one form and succeeds in the other |
| `RequestEngine.ProcessConcat` | VoodooPS2Controller/VoodooPS2Controller.cpp:1156-1254 | A list of commands runs like its first part followed by the second from where the first ended, unless the first failed |
| `Port.Await` | VoodooPS2Controller/VoodooPS2Controller.cpp:1347-1351 | The polling loop ends with budget left only when a byte is ready |
| `Port.AwaitThenPlain` | VoodooPS2Controller/VoodooPS2Controller.cpp:1331-1351 | Factoring the polling loop out of a plain read changes nothing |
| `Port.AwaitThenExpecting` | VoodooPS2Controller/VoodooPS2Controller.cpp:1453-1473 | The same for the comparing read |
| `Controller.Controller.constructor` | VoodooPS2Controller/VoodooPS2Controller.cpp:322-354 | A controller starts awake, online, with interrupts on and an empty queue |
| `Controller.Controller.AwaitOutput` | VoodooPS2Controller/VoodooPS2Controller.cpp:1347-1351 | The loop leaves the budget and port that `Await` gives |
| `Controller.Controller.ReadDataPort` | VoodooPS2Controller/VoodooPS2Controller.cpp:1312-1408 | The nested loops return, consume and hand to the other device's driver what the recursive read does, which `PlainReturns` pins to the first byte in sight; they terminate because each round uses up polls |
| `Controller.Controller.ReadExpectedByte` | VoodooPS2Controller/VoodooPS2Controller.cpp:1414-1584 | The same for the comparing read, with the byte put aside going to the requested device's own driver; `ExpectingReturns` says which byte is returned |
| `Controller.Controller.FlushPort` | VoodooPS2Controller/VoodooPS2Controller.cpp:1229-1238 | The flush loop discards exactly the ready bytes in front of the port, counts them, and uses the poll that ends it |
| `Controller.Controller.HandleInterrupt` | VoodooPS2Controller/VoodooPS2Controller.cpp:174-230 | An interrupt hands every ready byte, in arrival order, to the driver selected by the mouse bit of its status, and nothing else |
| `Controller.Controller.InterruptHandler` | VoodooPS2Controller/VoodooPS2Controller.cpp:63-154 | While interrupts are ignored a handler touches neither port nor drivers |
| `Controller.Controller.ExecuteCommand` | VoodooPS2Controller/VoodooPS2Controller.cpp:1158-1251 | One command on the object does what `Execute` says to port, logs, stream mode and prefix |
| `Controller.Controller.RunCommands` | VoodooPS2Controller/VoodooPS2Controller.cpp:1154-1254 | The command loop ends at the index, commands and port state of `Process`; commands beyond the count are untouched |
| `Controller.Controller.ServeRequest` | VoodooPS2Controller/VoodooPS2Controller.cpp:1142-1265 | Offline: count 0 and no port access; online: what `Process` says, with the ignore counter as before |
| `Controller.Controller.ProcessRequest` | VoodooPS2Controller/VoodooPS2Controller.cpp:1126-1279 | The request is served as `Serve` says and let go of as its completion target and action say; the log gains one entry, and the record of services exactly this one, with the offline flag, bodies and port states of this call; every byte is traced |
| `Controller.Controller.LetGo` | VoodooPS2Controller/VoodooPS2Controller.cpp:1267-1278 | The completion branch comes to one callback, one free, or nothing for a request on a stack |
| `Controller.EndsOncePerRun` | VoodooPS2Controller/VoodooPS2Controller.cpp:1267-1278 | Over any log, a request ends exactly as often as it was processed, and never if it is on a stack |
| `Controller.EndingCases` | VoodooPS2Controller/VoodooPS2Controller.cpp:1267-1278 | A request is completed exactly if it has a target object and an action, freed if it has no target or no action, and neither if it is on a stack |
| `Controller.Controller.SetCommandByte` | VoodooPS2Controller/VoodooPS2Controller.cpp:950-979 | Returns the byte that a plain read of the keyboard stream finds, writes the new one only if it differs, enters it in the record of power steps, and leaves the ignore counter balanced |
| `Controller.Controller.ResetController` | VoodooPS2Controller/VoodooPS2Controller.cpp:446-509 | Leaves startup mode off, makes exactly the documented writes, reads, dispatches and flushes exactly what its flushes and its seven reads do, and sets the command byte found by the read after the first flush with interrupts and mouse clock bit cleared and translation set |
| `Controller.ResetTakesAnswers` | VoodooPS2Controller/VoodooPS2Controller.cpp:446-509 | On a port that is empty at first and then answers, with the command byte and four test results on either stream and an acknowledge of each device, a reset consumes exactly those seven answers, dispatches none, and then flushes what is ready |
| `Controller.BehindStep` | VoodooPS2Controller/VoodooPS2Controller.cpp:1156-1254 | One turn of the command loop moves one command from "to do" to "done" without changing the outcome |
| `RequestQueue.ProcessedOnceInOrder` | VoodooPS2Controller/VoodooPS2Controller.cpp:983-1308 | Over every interleaving of submissions, drains and blocking requests: processed followed by waiting requests are exactly the submitted ones, in submission order |
| `RequestQueue.BlockingRunsLast` | VoodooPS2Controller/VoodooPS2Controller.cpp:1000-1011 | From start-up, a blocking request is processed right after every request submitted before it; what lands during its drain is still queued |
| `RequestQueue.ApplyKeepsOrder` | VoodooPS2Controller/VoodooPS2Controller.cpp:1283-1308 | One operation moves requests from submission to queue to log without loss, copy or reordering |
| `Controller.Controller.SubmitRequest` | VoodooPS2Controller/VoodooPS2Controller.cpp:983-996 | A submission enters at the back of the queue |
| `Controller.Controller.ProcessRequestQueue` | VoodooPS2Controller/VoodooPS2Controller.cpp:1283-1308 | A drain serves exactly the requests that were queued when it began, one after the other: for a queue without repeats their bodies and the port end as the fold of `Serve` over them; offline, for any queue, every one ends at count 0 and the port is untouched; the gate is kept and what landed meanwhile waits for the next drain |
| `Controller.Controller.ProcessNext` | VoodooPS2Controller/VoodooPS2Controller.cpp:1302-1307 | One turn of the drain extends the fold by one request and leaves the bodies of the others alone |
| `Controller.Controller.SubmitRequestAndBlock` | VoodooPS2Controller/VoodooPS2Controller.cpp:1000-1011 | The same for the queue followed by the caller's request |
| `Power.GateSoundIff` | VoodooPS2Controller/VoodooPS2Controller.cpp:1873-1986 | Over every sequence of power-state changes: counter 1 asleep and 0 awake and offline exactly when asleep hold at the end if and only if sleep was never left for an undeclared ordinal; otherwise one ignore count is leaked. `PerformAll` carries this to runs with requests in between |
| `Power.LeakIsForever` | VoodooPS2Controller/VoodooPS2Controller.cpp:1971-1977 | Once leaked, no later sequence of power states lets interrupts through again |
| `Power.UndeclaredWakeLeaks` | VoodooPS2Controller/VoodooPS2Controller.cpp:1971-1977 | The shortest failing sequence: sleep, then ordinal 3; going back to normal does not repair it |
| `Power.DeclaredStatesKeepGate` | VoodooPS2Controller/VoodooPS2Controller.cpp:1873-1969 | For the three declared states the gate is always sound |
| `Controller.Controller.SetPowerState` | VoodooPS2Controller/VoodooPS2Controller.cpp:1873-1986 | With any blocking requests from the drivers' callbacks, and any submissions landing meanwhile, a power change moves the gate as `Power.SetPower` says, runs exactly the callbacks due, in order, online for a wake-up and as before otherwise, and traces every byte. The command byte, bit by bit: both interrupt bits are clear before the sleep callbacks and both clock-off bits set after them; on a wake-up the reset leaves translation set, both clock-off and both interrupt bits are clear before the callbacks, and both interrupt bits and the system flag are set at the end |
| `Controller.Controller.DispatchPowerControl` | VoodooPS2Controller/VoodooPS2Controller.cpp:1990-1997 | A callback's requests leave the gate alone, run in order, and are all served with the present offline flag: offline they make no port access |
| `Controller.Controller.Perform` | VoodooPS2Controller/VoodooPS2Controller.cpp:950-1997 | One power change, submission, drain, blocking request, command-byte change or interrupt moves gate and queue as specified, serves its requests offline exactly if it should, keeps the record of earlier ones, and traces every byte |
| `Controller.Controller.PerformAll` | VoodooPS2Controller/VoodooPS2Controller.cpp:950-1997 | Over every run that mixes these: the gate ends as the power changes alone would leave it, and so is sound if and only if sleep was never left for an undeclared ordinal; each request processed, also from the drivers' power callbacks, has one service in the record, which is what `Serve` says, flagged offline exactly where the run says, and then at count 0 with the port untouched; each ended as it should; asynchronous ones in submission order; every byte of the port is traced |
| `ConcurrentRing.RingSafe` | VoodooPS2Controller/ApplePS2Device.h:187-246 | In every interleaving of one writer and one reader, down to single tail reads and the moment between adding to the tail and wrapping it, delivered packets are a prefix of committed ones, unmodified and in order; unread ones are intact in their slots; at most 31 wait |
| `ConcurrentRing.StepKeeps` | VoodooPS2Controller/ApplePS2Device.h:229-246 | Every single shared-memory step keeps that invariant |
| `ConcurrentRing.RunKeeps` | VoodooPS2Controller/ApplePS2Device.h:229-246 | So does every run |
| `ConcurrentRing.PutKeepsUnread` | VoodooPS2Controller/ApplePS2Device.h:229 | Filling the head slot, before any overflow check, touches no unread packet |
| `ConcurrentRing.CommitLeavesRoom` | VoodooPS2Controller/ApplePS2Device.h:231-239 | Whatever the reader did between the two reads of the tail, an accepted packet leaves at least one slot free |
| `ConcurrentRing.CommitIffRoom` | VoodooPS2Controller/ApplePS2Device.h:231-239 | If the reader stood still, a packet is accepted if and only if fewer than 31 wait |
| `ConcurrentRing.CommitIff` | VoodooPS2Controller/ApplePS2Device.h:231-239 | In general: with 31 waiting at the look with the new head the packet is accepted if and only if none waited at the other look, otherwise if and only if the reader released at most one packet from the old-head look to the new-head look |
| `ConcurrentRing.RefusedWhenEmpty` | VoodooPS2Controller/ApplePS2Device.h:231-239 | For every packet length, a run from the start that ends with a packet refused although nothing is unread, because the reader released two packets between the looks |
| `ConcurrentRing.UninterruptedAdvance` | VoodooPS2Controller/ApplePS2Device.h:231-239 | The four steps with nothing in between, in either order of the looks, are `RingBuffer.AdvanceHead` |
| `ConcurrentRing.UninterruptedAccepts` | VoodooPS2Controller/ApplePS2Device.h:231-239 | They accept the packet if and only if fewer than 31 wait |
| `ConcurrentRing.UninterruptedRelease` | VoodooPS2Controller/ApplePS2Device.h:240-246 | The reader's two steps are `RingBuffer.AdvanceTail` |
| `ConcurrentRing.CheckIffUnread` | VoodooPS2Controller/ApplePS2Device.h:208 | The reader takes up a packet if and only if one is unread |
| `ConcurrentRing.NeverOutOfBounds` | VoodooPS2Controller/ApplePS2Device.h:229-230 | No byte access of writer or reader leaves the buffer |
| `ConcurrentRing.CountOfSlots` | VoodooPS2Controller/ApplePS2Device.h:193-199 | The count of slots that are 0 to 31 apart is their distance, at 32 it reads as empty, and a tail not yet wrapped makes no difference |
| `ConcurrentRing.SlotsDisjoint` | VoodooPS2Controller/ApplePS2Device.h:187-199 | Packets fewer than 32 apart never share a cell |
| `RingBuffer.RingBuffer.Push` | VoodooPS2Controller/ApplePS2Device.h:209-220 | Appends, or, with one free cell left, changes nothing |
| `RingBuffer.RingBuffer.Fetch` | VoodooPS2Controller/ApplePS2Device.h:221-228 | Takes the oldest element and keeps the others |
| `RingBuffer.RingBuffer.Count` | VoodooPS2Controller/ApplePS2Device.h:208 | Is the number of elements |
| `RingBuffer.RingBuffer.Reset` | VoodooPS2Controller/ApplePS2Device.h:203-207 | Empties the ring |
| `RingBuffer.RingBuffer.PutAtHead` | VoodooPS2Controller/ApplePS2Device.h:229 | A raw write behind the head changes nothing that is in the ring |
| `RingBuffer.RingBuffer.AdvanceHead` | VoodooPS2Controller/ApplePS2Device.h:231-239 | Appends the cells written from the head on, around the end if need be, if they fit with one to spare; otherwise the head stays |
| `RingBuffer.RingBuffer.AdvanceTail` | VoodooPS2Controller/ApplePS2Device.h:240-246 | Drops that many oldest elements |
| `RingBuffer.PacketRing.Close` | VoodooPS2Trackpad/VoodooPS2SynapticsTouchPad.cpp:914-919 | A full slot joins the queue of whole packets, or, with 31 waiting, is refused without damage to them |
| `RingBuffer.PacketRing.Take` | VoodooPS2Trackpad/VoodooPS2SynapticsTouchPad.cpp:928-939 | The oldest whole packet comes out unmodified |
| `RingBuffer.PacketRing.Drain` | VoodooPS2Trackpad/VoodooPS2SynapticsTouchPad.cpp:923-941 | The reader's loop takes every waiting packet, oldest first, and leaves the ring empty |
| `RingBuffer.ChunksAppend` | VoodooPS2Controller/ApplePS2Device.h:231-239 | A slot behind whole packets is one more packet |
| `SynapticsFraming.FrameSafe` | VoodooPS2Trackpad/VoodooPS2SynapticsTouchPad.cpp:854-941 | For every byte stream, each packet is six consecutive stream bytes that pass both header masks, and packets and markers come in stream order without overlap |
| `SynapticsFraming.StepSafe` | VoodooPS2Trackpad/VoodooPS2SynapticsTouchPad.cpp:854-921 | One byte keeps the unfinished packet a valid piece of the stream |
| `SynapticsFraming.HeaderIsNotZero` | VoodooPS2Trackpad/VoodooPS2SynapticsTouchPad.cpp:926-938 | A packet can never be taken for a marker |
| `SynapticsFraming.RoundTripIff` | VoodooPS2Trackpad/VoodooPS2SynapticsTouchPad.cpp:862-921 | A concatenation of well-formed packets frames into exactly those packets if and only if none of them contains the pair AA 00 |
| `SynapticsFraming.ResetPairAborts` | VoodooPS2Trackpad/VoodooPS2SynapticsTouchPad.cpp:865-875 | The packet 80 AA 00 C0 00 00 is well-formed and frames to a reset marker |
| `SynapticsFraming.FramePacket` | VoodooPS2Trackpad/VoodooPS2SynapticsTouchPad.cpp:862-921 | From inside a packet: without the pair it comes out whole and the rest is framed from a boundary; with it, a reset marker comes first |
| `SynapticsFraming.StepInside` | VoodooPS2Trackpad/VoodooPS2SynapticsTouchPad.cpp:862-921 | The next byte of a packet continues it, completes it, or aborts it on the reset pair, and on nothing else |
| `SynapticsFraming.BadByteMarked` | VoodooPS2Trackpad/VoodooPS2SynapticsTouchPad.cpp:864-898 | Every byte that cannot stand where it arrives, and every completed reset pair, queues one marker with its reason, and framing goes on from a boundary |
| `SynapticsFraming.LinkDelivers` | VoodooPS2Trackpad/VoodooPS2SynapticsTouchPad.cpp:854-941 | Under every schedule of interrupts and drains the work loop sees the slots of the stream in order, each at most once, never more than 31 waiting; and all of them if the ring never overflows |
| `SynapticsFraming.PacketsGetThrough` | VoodooPS2Trackpad/VoodooPS2SynapticsTouchPad.cpp:854-941 | End to end: well-formed packets without the pair, under any schedule that never has a slot arrive while 31 wait, are delivered exactly |
| `ConcurrentFraming.EndToEnd` | VoodooPS2Trackpad/VoodooPS2SynapticsTouchPad.cpp:854-941 | For every handler that fills the head slot and closes it, under every interleaving of its and the work loop's single memory accesses: the slots closed and pending are exactly those of framing the bytes that arrived; the work loop reads, unmodified and in order, a prefix of those accepted; a slot is accepted exactly as its two looks at the tail say, and if the look with the new head came first it is refused only if 31 waited at that look |
| `ConcurrentFraming.EventKeeps` | VoodooPS2Trackpad/VoodooPS2SynapticsTouchPad.cpp:854-941 | Every single access keeps the link between framing state, head slot, ring, looks and stream |
| `ConcurrentFraming.RunKeeps` | VoodooPS2Trackpad/VoodooPS2SynapticsTouchPad.cpp:854-941 | So does every run |
| `InterleavedDrivers.SynapticsIsSound` | VoodooPS2Trackpad/VoodooPS2SynapticsTouchPad.cpp:854-921 | The Synaptics handler is such a handler: its stores, in their order, make the head slot read as the slot it closes |
| `InterleavedDrivers.SynapticsWindows` | VoodooPS2Trackpad/VoodooPS2SynapticsTouchPad.cpp:854-941 | Under every interleaving, each Synaptics packet read is six consecutive stream bytes with valid headers |
| `InterleavedDrivers.AlpsIsSound` | VoodooPS2Trackpad/VoodooPS2ALPSGlidePoint.cpp:326-375 | So is the ALPS handler, whatever stale bytes are behind a packet of three |
| `InterleavedDrivers.AlpsWindows` | VoodooPS2Trackpad/VoodooPS2ALPSGlidePoint.cpp:326-375 | Under every interleaving, each ALPS report is three or six consecutive stream bytes with the header of that length, read as what the writer closed it as |
| `SynapticsFraming.TouchPad.InterruptOccurred` | VoodooPS2Trackpad/VoodooPS2SynapticsTouchPad.cpp:854-921 | The handler on the raw ring does what `Step` says, with overflow dropping the newest slot |
| `SynapticsFraming.TouchPad.PutMarker` | VoodooPS2Trackpad/VoodooPS2SynapticsTouchPad.cpp:870-897 | A marker discards the unfinished packet and queues the reason |
| `SynapticsFraming.TouchPad.AddByte` | VoodooPS2Trackpad/VoodooPS2SynapticsTouchPad.cpp:913-920 | The sixth byte queues the packet, any other only extends it |
| `SynapticsFraming.TouchPad.PacketReady` | VoodooPS2Trackpad/VoodooPS2SynapticsTouchPad.cpp:923-941 | Dispatches exactly the waiting packets in order, skips the markers, and leaves the ring empty and the unfinished packet alone |
| `SynapticsFraming.DispatchAll` | VoodooPS2Trackpad/VoodooPS2SynapticsTouchPad.cpp:926-940 | Of the slots read, exactly the packets are dispatched, in order |
| `AlpsFraming.LengthsAgree` | VoodooPS2Trackpad/VoodooPS2ALPSGlidePoint.cpp:326-375 | Whatever stale bytes are behind it, the reader takes a slot as relative or absolute exactly as the writer closed it, at three or six bytes |
| `AlpsFraming.FrameSafe` | VoodooPS2Trackpad/VoodooPS2ALPSGlidePoint.cpp:326-360 | For every byte stream, each packet is three or six consecutive stream bytes with the header of that length, disjoint and in order |
| `AlpsFraming.StepSafe` | VoodooPS2Trackpad/VoodooPS2ALPSGlidePoint.cpp:326-360 | One byte keeps the unfinished packet a valid piece of the stream |
| `AlpsFraming.RoundTripIff` | VoodooPS2Trackpad/VoodooPS2ALPSGlidePoint.cpp:326-360 | The concatenation of packets, each of three bytes with a relative header or six with an absolute one, frames from a boundary into exactly those packets if and only if none has the byte 0x80 behind its first |
| `AlpsFraming.FramePacket` | VoodooPS2Trackpad/VoodooPS2ALPSGlidePoint.cpp:326-360 | From any point inside an unbroken packet, that packet comes out whole at its last byte, and what follows is framed from a boundary |
| `AlpsFraming.BreakDrops` | VoodooPS2Trackpad/VoodooPS2ALPSGlidePoint.cpp:342-347 | A byte 0x80 inside a packet drops what there was of it, and nothing else |
| `AlpsFraming.BreakLoses` | VoodooPS2Trackpad/VoodooPS2ALPSGlidePoint.cpp:342-347 | A packet with such a byte is lost for good: fewer bytes are framed than arrived |
| `AlpsFraming.GarbagePassedOver` | VoodooPS2Trackpad/VoodooPS2ALPSGlidePoint.cpp:337-341 | At a boundary, a byte that starts no packet is passed over |
| `AlpsFraming.GlidePoint.InterruptOccurred` | VoodooPS2Trackpad/VoodooPS2ALPSGlidePoint.cpp:326-360 | The handler on the raw ring queues what the writer closed, as the reader will see it; which packets those are, `RoundTripIff` and `BreakDrops` say |
| `AlpsFraming.GlidePoint.AddByte` | VoodooPS2Trackpad/VoodooPS2ALPSGlidePoint.cpp:349-359 | A byte that fits extends the packet or closes it at its own length; that a third byte closes a relative packet and a sixth an absolute one, `FramePacket` says |
| `AlpsFraming.GlidePoint.PacketReady` | VoodooPS2Trackpad/VoodooPS2ALPSGlidePoint.cpp:362-375 | Every waiting packet is dispatched as what it was closed as, in order |
| `AlpsFraming.DispatchAll` | VoodooPS2Trackpad/VoodooPS2ALPSGlidePoint.cpp:362-375 | The reader's choice is made packet by packet, in order |
| `MiddleButton.RunKeepsInv` | VoodooPS2Trackpad/VoodooPS2SynapticsTouchPad.cpp:945-1071 | In every run, buttons are pending and the timer is armed exactly in the two waiting states, and what waits for a second button is a single left or right |
| `MiddleButton.EventKeepsInv` | VoodooPS2Trackpad/VoodooPS2SynapticsTouchPad.cpp:953-1071 | Every packet, timer event and cancel keeps that |
| `MiddleButton.TimerEndsWait` | VoodooPS2Trackpad/VoodooPS2SynapticsTouchPad.cpp:945-1050 | A timer event always ends the wait, disarms the timer, and reports what was pending |
| `MiddleButton.PressIsNotLost` | VoodooPS2Trackpad/VoodooPS2SynapticsTouchPad.cpp:990-1009 | Whatever run follows, a press that is held back is held back throughout, or up to one event that makes it part of a chord or puts it in a dispatched or returned report; a timer event never leaves it held |
| `MiddleButton.PressAccounted` | VoodooPS2Trackpad/VoodooPS2SynapticsTouchPad.cpp:990-1009 | The same for one packet, cancel or timer event |
| `MiddleButton.ChordReportsMiddle` | VoodooPS2Trackpad/VoodooPS2SynapticsTouchPad.cpp:953-1071 | Any chord pressed and released inside the window, with any number of repeated packets of touchpad and pass-through device in any mixture, reports middle down and up and never a single button, and ends at rest |
| `MiddleButton.ReleaseRests` | VoodooPS2Trackpad/VoodooPS2SynapticsTouchPad.cpp:945-1071 | From every machine that meets the invariant, a plain packet without buttons leads to rest and reports none |
| `MiddleButton.ChordWorksAgain` | VoodooPS2Trackpad/VoodooPS2SynapticsTouchPad.cpp:945-1071 | After any run at all, once a packet without buttons was seen, a chord reports middle down and up and nothing else |
| `MiddleButton.LonePressShows` | VoodooPS2Trackpad/VoodooPS2SynapticsTouchPad.cpp:972-1068 | A single press held past the window: silent until the timer, which reports that button, and from then on every packet reports its buttons as they are until all are up |
| `MiddleButton.NoopPasses` | VoodooPS2Trackpad/VoodooPS2SynapticsTouchPad.cpp:1046-1068 | After a settled press, every packet with a button passes unchanged |
| `MiddleButton.LateSecondButton` | VoodooPS2Trackpad/VoodooPS2SynapticsTouchPad.cpp:991-1009 | A second button after the window shows as two buttons, not as the middle one |
| `MiddleButton.HeldAfterChordShows` | VoodooPS2Trackpad/VoodooPS2SynapticsTouchPad.cpp:1026-1044 | A button left of a chord and held past the window shows again |
| `MiddleButton.ChangedAfterChordShows` | VoodooPS2Trackpad/VoodooPS2SynapticsTouchPad.cpp:1026-1044 | Buttons that change while one of a chord is still down show as they are |
| `MiddleButton.CancelEndsWait` | VoodooPS2Trackpad/VoodooPS2SynapticsTouchPad.cpp:972-1009 | A finger coming down ends the wait for a second button, and the press shows; at rest it changes nothing |
| `MiddleButton.OthersPass` | VoodooPS2Trackpad/VoodooPS2SynapticsTouchPad.cpp:953-976 | A real middle button, and a simulation that is switched off, change nothing |
| `MiddleButton.PressPhase` | VoodooPS2Trackpad/VoodooPS2SynapticsTouchPad.cpp:971-1009 | A first press, repeated within the window, reports nothing and waits |
| `MiddleButton.ChordPhase` | VoodooPS2Trackpad/VoodooPS2SynapticsTouchPad.cpp:971-1023 | Both buttons down report middle, for as long as they last |
| `MiddleButton.ReleasePhase` | VoodooPS2Trackpad/VoodooPS2SynapticsTouchPad.cpp:1011-1044 | One button left within the window reports nothing |
| `MiddleButton.Simulator.ChangePhase` | VoodooPS2Trackpad/VoodooPS2SynapticsTouchPad.cpp:960-1050 | The switch on the object is the phase change that the lemmas are about; the lemmas above say where each phase leads, back to rest included |
| `MiddleButton.Simulator.MiddleButton` | VoodooPS2Trackpad/VoodooPS2SynapticsTouchPad.cpp:953-1071 | The whole call, with the buttons it returns |
| `MiddleButton.Simulator.OnPacket` | VoodooPS2Trackpad/VoodooPS2SynapticsTouchPad.cpp:1156-1177 | A packet remembers pass-through buttons and the unfiltered sum of both, which the timer will see, and reports the filtered one |
| `MiddleButton.Simulator.OnFingerDown` | VoodooPS2Trackpad/VoodooPS2SynapticsTouchPad.cpp:1261-1263 | A finger coming down cancels a wait with the buttons of both sources |
| `MiddleButton.Simulator.OnButtonTimer` | VoodooPS2Trackpad/VoodooPS2SynapticsTouchPad.cpp:945-951 | The timer sees the buttons that the last packet left, and what the call returns is thrown away |
| `Filters.WindowIsLast` | VoodooPS2Trackpad/VoodooPS2SynapticsTouchPad.h:35-101 | After any samples the window is exactly the last N of all samples since the reset |
| `Filters.AverageBounded` | VoodooPS2Trackpad/VoodooPS2SynapticsTouchPad.h:95-100 | The average of a window lies between any bounds of its samples, with C division, negative samples included |
| `Filters.SumAfterPush` | VoodooPS2Trackpad/VoodooPS2SynapticsTouchPad.h:46-63 | Adding the new sample and subtracting the overwritten one keeps the sum of the window |
| `Filters.SimpleAverage.Filter` | VoodooPS2Trackpad/VoodooPS2SynapticsTouchPad.h:46-63 | The incremental buffer, sum and index represent the sliding window, and the result is its average |
| `Filters.SimpleAverage.Oldest` | VoodooPS2Trackpad/VoodooPS2SynapticsTouchPad.h:72-83 | Is the first sample of the window, or 0 |
| `Filters.SimpleAverage.Newest` | VoodooPS2Trackpad/VoodooPS2SynapticsTouchPad.h:84-94 | Is the last sample of the window, or 0 |
| `Filters.SimpleAverage.Average` | VoodooPS2Trackpad/VoodooPS2SynapticsTouchPad.h:95-100 | Is the average of the window, or 0 |
| `Filters.SimpleAverage.Reset` | VoodooPS2Trackpad/VoodooPS2SynapticsTouchPad.h:64-69 | Empties the window |
| `Filters.UndecayRecovers` | VoodooPS2Trackpad/VoodooPS2SynapticsTouchPad.h:107-155 | Undecay after decay recovers every sample within 2, for every sequence, without accumulation |
| `Filters.DecayIsHalfway` | VoodooPS2Trackpad/VoodooPS2SynapticsTouchPad.h:116-125 | A decayed sample lies halfway between the sample and the last result, within rounding; the first one is itself |
| `Filters.DecayingAverage.Filter` | VoodooPS2Trackpad/VoodooPS2SynapticsTouchPad.h:116-125 | The object keeps its last result, as the specification of the round trip does |
| `Filters.UndecayAverage.Filter` | VoodooPS2Trackpad/VoodooPS2SynapticsTouchPad.h:141-150 | The object keeps its last sample, as the specification of the round trip does |
| `MomentumScroll.CoastBounded` | VoodooPS2Trackpad/VoodooPS2SynapticsTouchPad.cpp:816-850 | From any start value: the coast ends, all deltas have its sign, and the dispatched distance times interval times (divisor - multiplier) is at most the start value times the divisor |
| `MomentumScroll.TickLosesEnergy` | VoodooPS2Trackpad/VoodooPS2SynapticsTouchPad.cpp:823-849 | Each active tick strictly decreases the momentum times the divisor plus its remainder, keeps one direction, and never scrolls back |
| `MomentumScroll.ForwardTick` | VoodooPS2Trackpad/VoodooPS2SynapticsTouchPad.cpp:829-840 | The loss is exactly the decayed part of the momentum, and the scroll plus remainder is exactly what the momentum gives in one interval |
| `MomentumScroll.ForwardBound` | VoodooPS2Trackpad/VoodooPS2SynapticsTouchPad.cpp:816-850 | The distance bound for any remainders carried in |
| `MomentumScroll.CoastStops` | VoodooPS2Trackpad/VoodooPS2SynapticsTouchPad.cpp:816-850 | The timer stops only with the momentum at 0 |
| `MomentumScroll.CoastGoesOnIff` | VoodooPS2Trackpad/VoodooPS2SynapticsTouchPad.cpp:823-849 | A coast has a further timer tick if and only if, that many ticks on, the momentum is not zero and the last step exceeded the threshold: it neither stops early nor goes on |
| `MomentumScroll.CoastNegated` | VoodooPS2Trackpad/VoodooPS2SynapticsTouchPad.cpp:816-850 | Scrolling up is the mirror image of scrolling down, tick by tick |
| `GestureProperties.ParityTracksFinger` | VoodooPS2Trackpad/VoodooPS2SynapticsTouchPad.cpp:1397-1934 | After every packet that passes the typing guard and the off switch, z below the finger threshold leaves an even mode, and z between it and the limit an odd one, through all mode and disable-zone transitions |
| `GestureProperties.ParityIff` | VoodooPS2Trackpad/VoodooPS2SynapticsTouchPad.cpp:1397-1934 | For every packet: the mode agrees with the finger afterwards if and only if the packet is not skipped by one of the two guards, or the mode it leaves standing agrees already |
| `GestureProperties.SkippedPacketLosesParity` | VoodooPS2Trackpad/VoodooPS2SynapticsTouchPad.cpp:1507-1511 | The run that loses it: two fingers touch, the pad is switched off, the fingers leave, and two-finger mode stays |
| `GestureProperties.HandleParity` | VoodooPS2Trackpad/VoodooPS2SynapticsTouchPad.cpp:1517-1934 | The same past the zone, where no zone mode is ever entered |
| `GestureProperties.ZoneParity` | VoodooPS2Trackpad/VoodooPS2SynapticsTouchPad.cpp:1409-1504 | The zone's own modes obey the odd and even rule |
| `GestureProperties.RunKeeps` | VoodooPS2Trackpad/VoodooPS2SynapticsTouchPad.cpp:816-1966 | Over every run of packets, timers, keys and settings: a non-zero momentum has a non-zero interval and one direction, two-finger mode means no momentum, the histories have equal counts and never mix signs, scroll modes have divisors |
| `GestureProperties.DispatchKeeps` | VoodooPS2Trackpad/VoodooPS2SynapticsTouchPad.cpp:1265-1966 | Every packet keeps that invariant |
| `GestureProperties.TickKeeps` | VoodooPS2Trackpad/VoodooPS2SynapticsTouchPad.cpp:816-850 | So does the momentum timer, which therefore never divides by zero |
| `GestureProperties.NextKeeps` | VoodooPS2Trackpad/VoodooPS2SynapticsTouchPad.cpp:816-1966 | So does every other event |
| `GestureProperties.StartIsSound` | VoodooPS2Trackpad/VoodooPS2SynapticsTouchPad.cpp:186-242 | It holds at the start |
| `GestureProperties.StartMomentumOk` | VoodooPS2Trackpad/VoodooPS2SynapticsTouchPad.cpp:1533-1545 | Momentum starts with a time base and one direction, or not at all |
| `GestureProperties.MomentumFollowsHistory` | VoodooPS2Trackpad/VoodooPS2SynapticsTouchPad.cpp:1533-1545 | Momentum goes on in the direction of every movement in the history |
| `GestureProperties.HistoryOk` | VoodooPS2Trackpad/VoodooPS2SynapticsTouchPad.cpp:1704-1717 | Two-finger motion keeps the histories paired and one-sided |
| `GestureProperties.AfterMotionMomentum` | VoodooPS2Trackpad/VoodooPS2SynapticsTouchPad.cpp:1861-1934 | A touch stops momentum before two-finger mode is entered |
| `GestureProperties.SwitchNeedsDoubleTap` | VoodooPS2Trackpad/VoodooPS2SynapticsTouchPad.cpp:1409-1505 | In every run from start-up, a packet flips the off switch only at the end of two touches that both start in the zone with w 4 or 5, are never seen outside it while down, last under the tap time each, and are less than the drag time apart |
| `GestureProperties.RunExplained` | VoodooPS2Trackpad/VoodooPS2SynapticsTouchPad.cpp:1409-1505 | In every run each zone mode is explained by the packets seen so far |
| `GestureProperties.ZoneExplained` | VoodooPS2Trackpad/VoodooPS2SynapticsTouchPad.cpp:1409-1505 | One packet extends that explanation, and a flip completes a double tap |
| `GestureMotion.DoubleTapSwitches` | VoodooPS2Trackpad/VoodooPS2SynapticsTouchPad.cpp:1409-1505 | Conversely, from rest, every double tap whose packets pass the typing guard, with any packets without a finger between the taps, flips the switch, off or on |
| `GestureMotion.HoldKeeps` | VoodooPS2Trackpad/VoodooPS2SynapticsTouchPad.cpp:1439-1499 | Any number of packets inside the zone keep a tap going, and any number without a finger keep the wait for the second |
| `GestureMotion.MotionConserved` | VoodooPS2Trackpad/VoodooPS2SynapticsTouchPad.cpp:1652-1664 | Over any run of moves, the units dispatched times the divisor plus the final remainder equal the way of the finger plus the initial remainder on both axes, and the remainder stays below the divisor |
| `GestureMotion.MoveStep` | VoodooPS2Trackpad/VoodooPS2SynapticsTouchPad.cpp:1652-1664 | The same for one packet, through all stages around the move |
| `GestureMotion.ScrollConserved` | VoodooPS2Trackpad/VoodooPS2SynapticsTouchPad.cpp:1702-1735 | The same for two-finger scrolling on both axes; the remainder stays below the divisor or the small-movement threshold |
| `GestureMotion.ScrollStep` | VoodooPS2Trackpad/VoodooPS2SynapticsTouchPad.cpp:1702-1735 | The same for one packet |
| `GestureMotion.AxisConserves` | VoodooPS2Trackpad/VoodooPS2SynapticsTouchPad.cpp:1704-1734 | What an axis reports and carries is what it was given, small movements included |
| `GestureBehaviour.TwoFingersScroll` | VoodooPS2Trackpad/VoodooPS2SynapticsTouchPad.cpp:1666-1735 | Said of packet and pad alone: two fingers, their number unchanged, scroll exactly if w is not 1 and no palm or width guard holds; then on each axis the units reported times the divisor plus the new remainder equal the way of the finger plus the old one, small ways are carried whole, and the histories take the movement; otherwise nothing is reported and remainders stay |
| `GestureBehaviour.FingerMovesPointer` | VoodooPS2Trackpad/VoodooPS2SynapticsTouchPad.cpp:1645-1664 | A finger in a moving mode moves the pointer exactly if it is not waiting for a tap, no palm guard holds and the jump is not bogus; the same balance on both axes |
| `GestureBehaviour.EdgeScrolls` | VoodooPS2Trackpad/VoodooPS2SynapticsTouchPad.cpp:1776-1932 | On its edge, up the right edge, left along the bottom edge or around the centre counts as scrolling, with the same balance; off the edge nothing scrolls; the corner leads from one edge to the other |
| `GestureBehaviour.TouchBegins` | VoodooPS2Trackpad/VoodooPS2SynapticsTouchPad.cpp:1861-1934 | A first touch stops momentum, notes time and place, and leads to two-finger mode, circular scrolling, an edge or moving, as width and position say; it reports nothing |
| `GestureBehaviour.TouchNotes` | VoodooPS2Trackpad/VoodooPS2SynapticsTouchPad.cpp:1861-1881 | What a touch notes, and that two and three fingers are remembered |
| `GestureBehaviour.TouchDrags` | VoodooPS2Trackpad/VoodooPS2SynapticsTouchPad.cpp:1884-1900 | A touch soon after a tap becomes a drag, one during a drag kept going takes it up again, and two fingers make it two-finger mode instead |
| `GestureBehaviour.TouchEnds` | VoodooPS2Trackpad/VoodooPS2SynapticsTouchPad.cpp:1517-1619 | Lifting the finger clears remainders, histories and finger memory, notes the time, and leads to the mode that its length and the tap and drag settings call for; momentum starts from the sum of the history, the timer and the time between its newest and oldest sample |
| `GestureBehaviour.TapThenTouchDrags` | VoodooPS2Trackpad/VoodooPS2SynapticsTouchPad.cpp:1517-1900 | A tap and a touch soon after it make a drag |
| `GestureBehaviour.TypingDrops` | VoodooPS2Trackpad/VoodooPS2SynapticsTouchPad.cpp:1396-1403 | Shortly after a key, a finger outside the typing zone is dropped |
| `GestureBehaviour.TypingStopsScrolling` | VoodooPS2Trackpad/VoodooPS2SynapticsTouchPad.cpp:1702-1782 | Shortly after a key, if palms are ignored then, neither fingers nor edges scroll |
| `GestureBehaviour.OffReportsNothing` | VoodooPS2Trackpad/VoodooPS2SynapticsTouchPad.cpp:1507-1511 | A pad that is off reports nothing and stays off, outside the zone's modes |
| `GestureBehaviour.FingerChangeFreezes` | VoodooPS2Trackpad/VoodooPS2SynapticsTouchPad.cpp:1265-1307 | A change of the number of fingers moves and scrolls nothing in that packet, and takes the position anew |
| `GestureBehaviour.IgnoredPacket` | VoodooPS2Trackpad/VoodooPS2SynapticsTouchPad.cpp:1265-1307 | While deltas are ignored, a packet acts as one that has not moved |
| `GestureDriver.TouchPad.DispatchEvents` | VoodooPS2Trackpad/VoodooPS2SynapticsTouchPad.cpp:1265-1966 | A packet on the driver object has the fate, reports and state of `Gesture.Dispatch` |
| `GestureDriver.TouchPad.HandlePacket` | VoodooPS2Trackpad/VoodooPS2SynapticsTouchPad.cpp:1517-1966 | Past the off switch, release, motion and mode switches in the order of the source do what `Gesture.Handle` says |
| `GestureDriver.TouchPad.BeginMomentum` | VoodooPS2Trackpad/VoodooPS2SynapticsTouchPad.cpp:1533-1545 | The sum that one filter keeps incrementally and the oldest and newest sample of the other start the momentum that the whole histories call for |
| `GestureDriver.TouchPad.AddToHistory` | VoodooPS2Trackpad/VoodooPS2SynapticsTouchPad.cpp:1708-1717 | Resetting and filtering on the two circular buffers keeps exactly the paired sliding windows of the specification |
| `GestureDriver.TouchPad.ReleaseTouch` | VoodooPS2Trackpad/VoodooPS2SynapticsTouchPad.cpp:1517-1619 | Lifting the finger starts momentum from the filters, clears them and the remainders, and leaves the mode of the specification |
| `GestureDriver.TouchPad.MoveOrScroll` | VoodooPS2Trackpad/VoodooPS2SynapticsTouchPad.cpp:1645-1859 | The switch on the mode, with every guard, does what `Gesture.Motion` says |
| `GestureDriver.TouchPad.MoveManyFingers` | VoodooPS2Trackpad/VoodooPS2SynapticsTouchPad.cpp:1666-1735 | The early exits of the two-finger branch agree with the condition under which it scrolls, which `TwoFingersScroll` states in the fields of packet and pad |
| `GestureDriver.TouchPad.ScrollWithFingers` | VoodooPS2Trackpad/VoodooPS2SynapticsTouchPad.cpp:1702-1735 | Two-finger scrolling with carried remainders and histories |
| `GestureDriver.TouchPad.ScrollInEdgeMode` | VoodooPS2Trackpad/VoodooPS2SynapticsTouchPad.cpp:1776-1846 | Edge and circular scrolling with one carried remainder |
| `GestureDriver.TouchPad.SwitchMode` | VoodooPS2Trackpad/VoodooPS2SynapticsTouchPad.cpp:1883-1934 | The mode switches in the order of the source |
| `GestureDriver.ScrollAxis` | VoodooPS2Trackpad/VoodooPS2SynapticsTouchPad.cpp:1706-1734 | Remainder first, small-movement filter second, gives the report and carry of an axis |
| `Gesture.ZoneKeepsDivisors` | VoodooPS2Trackpad/VoodooPS2SynapticsTouchPad.cpp:1409-1505 | The zone never enters a scroll mode whose divisor is 0 |
| `Gesture.ReleaseKeepsDivisors` | VoodooPS2Trackpad/VoodooPS2SynapticsTouchPad.cpp:1517-1638 | Neither do release and tap cancelling |
| `Rmcf.RoundTripIff` | VoodooPS2Controller/VoodooPS2Controller.cpp:2279-2373 | For every tree, decoding its encoding returns it if and only if no string in it is ">>y" or ">>n", no dictionary is empty and keys are distinct; both recursions end with the nesting |
| `Rmcf.ItemsRoundTripIff` | VoodooPS2Controller/VoodooPS2Controller.cpp:2317-2337 | The same for the items of an array |
| `Rmcf.DictRoundTripIff` | VoodooPS2Controller/VoodooPS2Controller.cpp:2338-2369 | The same for a dictionary: an empty one comes back as an array, a repeated key shortens it |
| `Rmcf.ValuesRoundTripIff` | VoodooPS2Controller/VoodooPS2Controller.cpp:2359-2367 | The same for the values of a dictionary |
| `Rmcf.SetAllIff` | VoodooPS2Controller/VoodooPS2Controller.cpp:2351-2367 | Filling a dictionary entry by entry keeps all entries in order if and only if their keys are new and distinct |
| `Rmcf.PairsReturn` | VoodooPS2Controller/VoodooPS2Controller.cpp:2351-2367 | Encoded pairs decode into the dictionary of the values sent through the encoding and back |
| `Rmcf.SetThenLookup` | VoodooPS2Controller/VoodooPS2Controller.cpp:2351-2367 | A dictionary answers with the value last set for a key, and setting one key leaves the others |
| `Rmcf.ArrayDecodes` | VoodooPS2Controller/VoodooPS2Controller.cpp:2317-2337 | An array with its leading mark loses the mark, and each item is decoded in its place |
| `Rmcf.OddStays` | VoodooPS2Controller/VoodooPS2Controller.cpp:2307-2373 | An array of odd length without the mark, and an empty one, decode to themselves |
| `Rmcf.BadKeyStays` | VoodooPS2Controller/VoodooPS2Controller.cpp:2338-2367 | So does one of even length whose first key is not a string |
| `Rmcf.RunTranslateEntry` | VoodooPS2Controller/VoodooPS2Controller.cpp:2279-2305 | The recursive decoder returns the translation and leaves the edited object that the specification gives |
| `Rmcf.RunTranslateArray` | VoodooPS2Controller/VoodooPS2Controller.cpp:2307-2373 | The same for arrays, with the source's three ways to give up |
| `Rmcf.RunTranslateItems` | VoodooPS2Controller/VoodooPS2Controller.cpp:2328-2336 | The editing loop translates every item in place |
| `Rmcf.RunTranslatePairs` | VoodooPS2Controller/VoodooPS2Controller.cpp:2350-2367 | The pair loop builds the dictionary and gives up at the first key that is not a string, with the values before it already edited |

## Left out

- IOKit lifecycle, work loops, locks and retain counts; clocks, timers and the command gate are parameters or events.
- Real port timing: waits for an empty input buffer before a write, and delays, do not appear.
- Debugger escape queue, watchdog timer, deferred interrupt handling and the setting that drops out-of-order bytes, all
  off in the shipped configuration.
- A byte dispatched to a driver that is not installed: the log records the call either way.
- Integer widths: the 8-bit command count, and 32-bit and 64-bit overflow in filters, momentum, remainders and tick
  deltas. Time differences do wrap at 64 bits. Port bytes are integers, since no claim depends on their range.
- Controller.Controller.ProcessRequestQueue: for a queue that holds the same request twice, which would corrupt the
  source's linked list, the contract gives order, endings and the offline case, but not the final bodies.
- Completion routines that issue blocking requests from inside a drain; submissions from completions and from other
  threads are covered, as requests that land while a drain runs.
- Gestures: ClickPad and ThinkPad branches, pass-through and secondary-finger packets, three-finger swipes, button bits
  and tap clicks, and the LED. Packets carry their coordinates already filtered, and the pressure both before and after
  the width bit is taken out of it. Momentum settings are taken to satisfy 0 <= multiplier < divisor, and the vertical
  scroll divisor is not negative; the pointer divisors are not zero.
- GestureDriver.TouchPad.DispatchEvents: the driver's scalar fields are one record that the methods replace, not separate
  fields; the two history filters are objects.
- GestureMotion.DoubleTapSwitches: is stated for taps whose packets pass the typing guard, which otherwise drops them.
- Middle button: a non-ClickPad touchpad with three button bits; the mouse driver's own version is not modelled.
- RMCF: objects are values, so the edit in place of an array is tracked but sharing of one array between two places is
  not; alias lookup and merging of profiles are not modelled.
- Mouse-driver framing: the touchpad's framing again with a bounded count of markers.
- Keyboard driver, Sentelic driver and ALPS absolute dispatch.
- Daemon, preference pane, configuration loader, ACPI nub, plists and build files.
