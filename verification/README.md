# Jumperless firmware: verified models

Models of the parts of the Jumperless firmware and its tools where a mistake is hard to see, with
proofs of what they promise. `dafny verify dfyconfig.toml` checks everything.

* **The UART-USB passthrough.** `TxStaging` is the transmit ring that DMA drains while the main
  thread pushes; `RxBridge` the receive ring that DMA fills and the loop that passes it on under
  back-pressure. `TagParser` and `TagRoundTrip` are the byte-at-a-time parser of `<j>` and `<p>`
  commands, as the firmware's struct and as a function of whole streams. `ResponseQueue` is the
  eight-slot queue of answers that resumes where the transmit ring stalled it. `FlashSession` and
  `FlashControl` are the protocol of an Arduino upload: edge, reset pulse, transparent pipe,
  farewell, timeouts; `FlashHistory` is that protocol as seen from outside. `BoundedQueue` is the
  queue of answers without its records.
* **Fake GPIO on the crossbar.** `Crosspoints` is chip K with its command and the protection in it;
  `Wiring` what its columns lead to; `Router` the paths of a refresh and the searches through them; `FakeGpioOutput` the outputs that
  switch between two voltage sources there; `FakeGpioInput` the table of inputs that share one ADC,
  `FakeGpioScan` what any run of reads does to their samples, and `RoundRobin` the order of those in
  the background; `DacAllocation` the choice of sources by voltage.
* **The PIO assembler.** `PioEncoding` has the words of the instruction methods and, independently,
  a decoder written from section 3.4 of the RP2040 datasheet; `PioAssembler` the two passes;
  `PioMeaning` the theorem that connects them; `PioAcceptance` which programs are accepted, and
  `PioNames` what the names of registers and conditions come to.
* **Smaller cores.** `Calibration` (least squares in one pass, over the reals), `RawString` (a
  Python file as a C++ raw string literal, section 2.14.5 of ISO C++11), `CArray` (a bitmap as a C
  array and back), `Mcp4728` (millivolts to DAC codes and back). `Bytes`, `Ring` and `Wrappers` are
  shared.

DMA is its own step, one byte at a time, interleaved with the main thread; an entry point of the
firmware runs to completion. Code that updates state in place is a class whose methods are proved
against functions on values, and the lemmas about runs are about those functions. EXECCTRL, into
which the assembler ORs unbounded integers, is the set of its one bits.

Some of what the source does is not what one would expect, and is proved as it is:

* A response that is dropped half-sent leaves its prefix on the wire (`src/AsyncPassthrough.cpp:2478-2482`).
* `connectFakeGpioInput` clears the old input's mark before it validates the new slot, so its check
  for an input that is connected already never holds (`CodeDocs/newerFakeGpio.cpp:405-432`).
* `fakeGpioWriteBatch` counts the fast writes twice when a slow one is among them.
* A refresh may leave several inputs on the ADC column, and a read closes its own row beside them: the
  sample mixes them. Every read takes its row out of that for the reads after it, so a lap of
  background reads clears up the rows of ready inputs; no read clears up any other row.
* The search that caches an output's row takes the node's first path through chip K. With a second
  path over another row, later writes switch that one.
* Two output levels that both need a DAC are refused even with both DACs free: the second search
  does not exclude the DAC the first one took, although the comment says so
  (`CodeDocs/newerFakeGpio.cpp:2178`). A call refused for its low level has moved the high level's DAC.
* A refused command leaves its tag open, so a stray closing tag is taken for its end; and a refused
  `<p>` whose body is blank leaves its prefix to the next command, whatever that is.
* `out(osr, n)` assembles as a write to EXEC and `mov(pindirs, x)` too: the assembler does not check
  which registers an instruction has.
* `side()` lets one bit too many through when side-set is optional, and with five optional pins an odd
  value sets bit 7 of the instruction.
* `sendXYraw` itself keeps two voltage sources off a row, so the claim that no row is ever shorted
  holds for every sequence of commands on the chip, not only for those of the outputs. A command with
  coordinates off the chip is masked and sent without that protection.
* A calibration whose slope is too small overwrites the coefficients although it reports that the
  defaults are kept (`src/Apps.cpp:1809-1817` and `1860-1863`), and channel 4 drops the intercept.
* A python file is refused when three to twelve equal signs are all taken, without a look at thirteen.
* On the external reference `getVout` applies a gain that `writeVout` leaves out, so nearly every
  request reads back above itself with gain 2.

## Model

| member | source | states |
|---|---|---|
| TxStaging.RunConserves | src/AsyncPassthrough.cpp:495-550 | over every interleaving of pushes, pumps, single-byte DMA steps and clears: the bytes on the wire followed by what is pending are exactly the bytes accepted since the last clear, and the span in flight stays inside the buffer |
| TxStaging.WireIsPrefixOfAccepted | src/AsyncPassthrough.cpp:495-550 | the wire is at every moment a prefix, in order, of the accepted bytes, and the rest is what the ring still holds |
| TxStaging.DrainsInTwoMoreTransfers | src/AsyncPassthrough.cpp:529-550 | once pushes stop, a run starts at most two more transfers after the current one; with no transfer left to start and the DMA idle, everything accepted is on the wire |
| TxStaging.DrainMakesProgress | src/AsyncPassthrough.cpp:529-550 | until the ring is drained a busy DMA always moves a byte and an idle one is started by the next pump |
| TxStaging.SecondTransferCanBeNeeded | src/AsyncPassthrough.cpp:539-545 | a content that wraps around the end of the buffer needs two transfers |
| TxStaging.TxRing.Setup | src/AsyncPassthrough.cpp:577-595 | the channel is claimed once and the ring starts empty |
| TxStaging.TxRing.PushByte | src/AsyncPassthrough.cpp:495-504 | accepts a byte unless the ring is full; on acceptance it becomes the last pending byte, on refusal nothing changes |
| TxStaging.TxRing.RetireSpan | src/AsyncPassthrough.cpp:531-537 | the bytes of a finished transfer leave the ring, and no others |
| TxStaging.TxRing.PumpDma | src/AsyncPassthrough.cpp:529-550 | the ring after a pump: a finished span retired, the next contiguous one in flight, nothing while the DMA is busy |
| TxStaging.TxRing.MoveByte | src/AsyncPassthrough.cpp:539-550 | the byte the DMA reads from memory now is the one that was staged: the span in flight is never overwritten |
| TxStaging.TxRing.ClearRing | src/AsyncPassthrough.cpp:517-527 | an aborted ring starts over from nothing |
| BoundedQueue.QueueIsPlain | src/AsyncPassthrough.cpp:2474-2532 | over any mix of queueing and sending the queue is a plain sequence of at most eight texts, each the first 255 bytes of what was asked: the same texts wait, the same bytes went out, and the responses lost are exactly those that were the oldest of eight when one more came |
| ResponseQueue.HandsKeptResponsesInOrder | src/AsyncPassthrough.cpp:2474-2532 | and the bytes handed over are one prefix of each response asked for, in order; a response before the queue's head gave all of itself or was dropped, one behind the head gave nothing |
| ResponseQueue.NoDropIsLossless | src/AsyncPassthrough.cpp:2474-2532 | if nothing had to be dropped, what was handed over followed by what waits is the concatenation of the responses asked for |
| ResponseQueue.HandMovesBytes | src/AsyncPassthrough.cpp:2513-2531 | handing over bytes takes them from the front of what waits and appends them to what was handed, none lost or repeated |
| ResponseQueue.HandedOverTwice | src/AsyncPassthrough.cpp:2511-2532 | two stretches of one call hand over what one stretch of the summed length would |
| ResponseQueue.Responses.QueueResponse | src/AsyncPassthrough.cpp:2474-2495 | refuses an empty text, and otherwise is one request of the queue that `BoundedQueue` shows to be the plain one: cut at the end, the oldest dropped if eight wait |
| ResponseQueue.Responses.PushRest | src/AsyncPassthrough.cpp:2514-2523 | the inner loop stops at the end of the response, of the budget or of the room in the transmit ring, having handed over exactly that many bytes |
| ResponseQueue.Responses.SendOldest | src/AsyncPassthrough.cpp:2511-2531 | one round hands over part of the oldest response and frees its slot exactly when it is finished |
| ResponseQueue.Responses.SendQueued | src/AsyncPassthrough.cpp:2511-2532 | the loop over the queue ends, and leaves off only at the budget, at an empty queue or at a full transmit ring |
| ResponseQueue.Responses.SendOutgoing | src/AsyncPassthrough.cpp:2534-2546 | the command buffer's bytes follow in order, as many as budget and room allow |
| ResponseQueue.Responses.Send | src/AsyncPassthrough.cpp:2501-2550 | one call accepts exactly min(64, room, waiting) bytes: the queue's first, then the command buffer's, in order |
| TagParser.StepKeepsBounds | src/AsyncPassthrough.cpp:1025-1260 | for every byte and environment: tag index at most 31, command index at most 255, the open tag empty or supported; a dispatch comes from a nonempty buffer, has at most 255 bytes, and needs startup complete, no flashing, no cooldown, a free filesystem and a free slot; only strip mode withholds a byte |
| TagParser.DispatchesIff | src/AsyncPassthrough.cpp:1064-1180 | a byte dispatches exactly when it ends in time the closing tag of the open command, something is in the body, and all five conditions hold |
| TagParser.StreamKeepsBounds | src/AsyncPassthrough.cpp:1025-1260 | the bounds hold after every stream |
| TagParser.DispatchIsNonempty | src/AsyncPassthrough.cpp:1084-1180 | the dispatched text is empty exactly when the buffer begins with a NUL |
| TagParser.NeverStuck | src/AsyncPassthrough.cpp:1033-1049 | among any 513 consecutive bytes outside flashing, one completes an opening tag or leaves the parser searching |
| TagParser.TagParserState.CloseCommand | src/AsyncPassthrough.cpp:1069-1186 | a closing tag: mismatch, guard refusal, empty body and dispatch, each with its whole new state |
| TagParser.TagParserState.CloseTag | src/AsyncPassthrough.cpp:1064-1209 | a '>' that ends a name: closing, opening or unknown |
| TagParser.TagParserState.InBody | src/AsyncPassthrough.cpp:1230-1254 | a body byte, with the python prefix before the first non-blank one |
| TagParser.TagParserState.CountByte | src/AsyncPassthrough.cpp:1033-1049 | the counter of the timeout; past 512 the parser is reset |
| TagParser.TagParserState.ProcessByte | src/AsyncPassthrough.cpp:1025-1260 | the struct, its C buffers and indices, refines the parser of the lemmas byte by byte |
| TagParser.TagParserState.Clear | src/AsyncPassthrough.cpp:2435-2455 | a cleared parser is the reset one |
| TagRoundTrip.RoundTrip | src/AsyncPassthrough.cpp:1025-1260 | printing any list of texts, other tags and commands and feeding it, with its own surroundings at every byte: exactly the nonempty commands are dispatched that close within 512 bytes and at whose last byte all five conditions hold, in order, prefixed and cut; exactly what it says goes on, with strip mode at any bytes; and a refused command leaves its tag open, and the prefix flag exactly if it was due and the body all blank |
| TagRoundTrip.RoundTripAroundFlashing | src/AsyncPassthrough.cpp:1029-1032 | the same with flashing at any bytes in between: the bytes outside it count |
| TagRoundTrip.FlashingIsDeaf | src/AsyncPassthrough.cpp:1029-1032 | bytes that come while the Arduino is flashed change nothing in the parser |
| TagRoundTrip.ServedIsComplete | src/AsyncPassthrough.cpp:1083-1180 | if nothing is refused, every command in time is dispatched and nothing is left behind |
| TagRoundTrip.PassesEverything | src/AsyncPassthrough.cpp:1025-1260 | without strip mode every byte of the stream goes on |
| TagRoundTrip.TagsParse | src/AsyncPassthrough.cpp:1025-1260 | the parser satisfies the seven step laws that the round trip rests on, in any surroundings outside flashing |
| TagRoundTrip.FeedInTime | src/AsyncPassthrough.cpp:1063-1254 | a command that closes in time is dispatched with its payload if it is served, and otherwise leaves its tag open |
| TagRoundTrip.FeedTooLate | src/AsyncPassthrough.cpp:1037-1048 | a command that does not close in time is not dispatched and leaves nothing behind, and which of its bytes go on |
| TagRoundTrip.FeedOther | src/AsyncPassthrough.cpp:1064-1209 | a tag that is none of the parser's, or a closing one without its command: the latter closes what a refused command left open |
| TagRoundTrip.BodyFillsPayload | src/AsyncPassthrough.cpp:1230-1254 | after a whole body the buffer holds the body, with '>' before the first non-blank if a prefix is due, cut to 255 bytes; the prefix stays due exactly if the body is all blank |
| RxBridge.HostGetsTheStream | src/AsyncPassthrough.cpp:1359-1490 | while nothing is discarded the host gets exactly the DMA stream from where it stood, in order, for every schedule |
| RxBridge.NeverRepeatsOrReorders | src/AsyncPassthrough.cpp:458-492 | whatever is captured, passed on and discarded, no byte is passed on twice or out of order |
| RxBridge.RxRing.CaptureByte | src/AsyncPassthrough.cpp:458-468 | one DMA write; the ring counts as overrun from the moment it gets a whole ring ahead of the consumer |
| RxBridge.RxRing.SyncHead | src/AsyncPassthrough.cpp:458-468 | the snapshot moves up to the DMA's write position |
| RxBridge.RxRing.PopByte | src/AsyncPassthrough.cpp:470-475 | without an overrun the popped byte is the next captured one, and a pop fails exactly when the snapshot is used up |
| RxBridge.RxRing.Clear | src/AsyncPassthrough.cpp:489-492 | everything captured is discarded, and nothing else |
| RxBridge.CdcFifo.WriteByte | src/AsyncPassthrough.cpp:1465-1468 | the FIFO takes a byte while it has room, in order |
| RxBridge.Bridge.PassByte | src/AsyncPassthrough.cpp:1441-1489 | a byte that is popped goes to the host whatever the parser makes of it, the parser hears the same byte while it is enabled, and back-pressure leaves it in the ring |
| RxBridge.Bridge.Drain | src/AsyncPassthrough.cpp:1440-1490 | the loop ends at an empty ring, a full FIFO or a used-up burst, delivers without gap or repetition, and tells the parser exactly the delivered bytes that came while parsing was on, in order |
| RxBridge.Bridge.UartToUsb | src/AsyncPassthrough.cpp:1359-1490 | connected and not suppressed, the captured bytes go to the host in order, each once, and the parser hears the same; otherwise the ring is dropped |
| RxBridge.HearsMore | src/AsyncPassthrough.cpp:1440-1490 | what the parser hears in two calls it hears as one stream |
| RxBridge.BridgeDispatches | src/AsyncPassthrough.cpp:1440-1490 | a list of texts, tags and commands is dispatched on its way to the host as the round trip says, wherever the calls cut it |
| FlashSession.SessionFollowsEvents | src/AsyncPassthrough.cpp:1771-2384 | in every reachable state the session, tag parsing, startup and the suppression of the stream are what the events alone say, with none of the firmware's variables: edges accepted and ignored, farewell, silences, cap, lockouts, boot delay, timers, pulse |
| FlashSession.FlashingIsTransparent | src/AsyncPassthrough.cpp:2224-2249 | in every reachable state flashingArduino is true exactly while flash mode is active, and tag parsing is off throughout, though three places can turn it on |
| FlashSession.RunKeeps | src/AsyncPassthrough.cpp:1771-2384 | every event keeps the whole invariant: pipe, clock, data, farewell scanner and pulse |
| FlashSession.PollEndsSession | src/ArduinoStuff.cpp:406-427 | the first poll at or past 15 s after the last accepted edge finds or leaves the session over |
| FlashSession.OverUntilNextEdge | src/AsyncPassthrough.cpp:2251-2297 | a session that is over stays over until another edge is accepted |
| FlashSession.HardTimeout | src/AsyncPassthrough.cpp:2378-2381 | past the cap a poll always ends an active session |
| FlashSession.EndsOnlyWhenQuiet | src/AsyncPassthrough.cpp:2345-2384 | before the cap a poll ends a session only after 500 ms without host data, or 4000 ms with none at all; and always after 1500 ms of silence |
| FlashSession.PollEndsIff | src/AsyncPassthrough.cpp:2345-2384 | in every reachable session a poll ends it exactly half a second or more after a farewell that nothing followed, after 1.5 s of silence, after 4 s without any data, or after 15 s |
| FlashSession.FarewellEnds | src/AsyncPassthrough.cpp:2351-2362 | a farewell that completes in a chunk of host data ends the session at the first poll half a second later or more, whatever else goes on, if the host sends nothing after it |
| FlashSession.ParsingStartsFresh | src/AsyncPassthrough.cpp:1840-1983 | whenever parsing comes on by itself, or startup completes, nothing captured before is left in the ring |
| FlashSession.ResetStartsFresh | src/ArduinoStuff.cpp:406-416 | the poll that takes notice of an edge on an ESP32 empties the ring before its reset |
| FlashHistory.ParsingWaitsForBoot | src/AsyncPassthrough.cpp:1903-1915 | without a command that turns it on, parsing never starts before 700 ms after the startup signal, over every run |
| FlashHistory.FarewellStands | src/AsyncPassthrough.cpp:2345-2362 | a farewell stands while nothing follows it |
| FlashSession.ScanFindsLeave | src/AsyncPassthrough.cpp:1283-1300 | however the stream is cut into chunks, the flag is set exactly when 0x51 0x20 occurred adjacently, and its time is that of the chunk that completed it |
| FlashSession.FlagMeansFarewell | src/AsyncPassthrough.cpp:1283-1300 | in every reachable active state the flag says whether the farewell occurred in the bytes since the scanner was last reset |
| FlashSession.NothingStaleReachesHost | src/AsyncPassthrough.cpp:1792-1803 | suppression is on exactly while a pulse release is pending, and no byte captured before a release reaches the host after it, with repeated edges and late releases |
| FlashSession.LinesKeeps | src/AsyncPassthrough.cpp:2251-2297 | a line change, accepted or ignored, keeps the invariant |
| FlashSession.BootCheckKeeps | src/AsyncPassthrough.cpp:1840-1896 | the two startup paths of task() keep it |
| FlashSession.ReenableKeeps | src/AsyncPassthrough.cpp:1903-1983 | so does the timed re-enabling of tag parsing |
| FlashSession.RuntimeCommandKeeps | src/AsyncPassthrough.cpp:912-922 | so does a runtime command, which turns parsing on only outside a session |
| FlashControl.Flasher.CheckDtrState | src/AsyncPassthrough.cpp:2251-2297 | one line-change event of the session: the state follows, the history grows by it, and its invariant holds again |
| FlashControl.Flasher.TriggerArduinoFlashReset | src/AsyncPassthrough.cpp:2224-2249 | whatever the state was, afterwards flashingArduino and flash mode agree, the session is on and parsing is off |
| FlashControl.Parsing.Disable | src/AsyncPassthrough.cpp:2117-2146 | afterwards the timers let parsing back at time t, if no data arrives, exactly when the absolute time is up, or the inactivity time is, given that a timer was running before: a fresh disabling never comes back by inactivity alone |
| FlashControl.Parsing.ShouldReenable | src/AsyncPassthrough.cpp:1903-1941 | the nested timer checks, with the boot delay in front, are the one predicate |
| FlashControl.Parsing.Resume | src/AsyncPassthrough.cpp:1972-1976 | once parsing is back no timer can turn it on again |
| FlashControl.Detector.Enter | src/AsyncPassthrough.cpp:2316-2324 | a new session has forgotten every byte seen before and is not over yet |
| FlashControl.Detector.Exit | src/AsyncPassthrough.cpp:2326-2331 | an ended session is not reported as done again, at any time |
| FlashControl.Detector.Sniff | src/AsyncPassthrough.cpp:1283-1300 | the loop over a chunk, which breaks off, is the scanner of the lemmas |
| FlashControl.Detector.CheckDone | src/AsyncPassthrough.cpp:2345-2384 | the prioritised checks are the completion predicate, and forget a false alarm |
| FlashControl.Lines.Note | src/AsyncPassthrough.cpp:2251-2290 | the early returns accept exactly the rising edges outside boot, lockout and debounce |
| FlashControl.ResetPulse.Start | src/AsyncPassthrough.cpp:2236-2247 | from the pulse on nothing captured so far is on its way to the host, whatever was before |
| FlashControl.ResetPulse.End | src/AsyncPassthrough.cpp:1792-1803 | once its time is up, everything still on its way was captured after the release |
| FlashControl.Flasher.ReleaseReset | src/AsyncPassthrough.cpp:1792-1803 | suppression ends exactly when the pulse is due, and nothing captured before the release reaches the host after it |
| FlashControl.Flasher.HostDataArrived | src/AsyncPassthrough.cpp:1272-1300 | a chunk of host data is one event of the session and keeps its invariant |
| FlashControl.Flasher.SecondSerialHandler | src/ArduinoStuff.cpp:406-427 | the poll, its one-time connection and the end of the session are one event and keep the invariant |
| FlashControl.Flasher.ReenableTagParsing | src/AsyncPassthrough.cpp:1903-1983 | parsing comes back exactly when startup is complete, no session is on and a timer is up; the invariant holds again |
| FlashControl.Flasher.EnableAfterBoot | src/AsyncPassthrough.cpp:1859-1896 | in a session it changes nothing, though it looks at the timers alone |
| FlashControl.Flasher.CheckBoot | src/AsyncPassthrough.cpp:1840-1896 | the startup checks are one event of the session and keep its invariant |
| FlashControl.Flasher.SetTagParsing | src/AsyncPassthrough.cpp:912-922 | a runtime command is one event of the session and keeps its invariant |
| FlashControl.Flasher.SignalStartupComplete | src/AsyncPassthrough.cpp:2152-2184 | the first signal completes startup and holds parsing off for the boot delay, a later one changes nothing; the invariant holds again |
| PioMeaning.AssemblyKeepsMeaning | include/rp2_py_content.h:67-181 | for every accepted program with at most five side-set bits: the word at the line's index decodes (RP2040 datasheet, section 3.4) to the instruction asked for, its label being the index of the instruction after it, forward or backward, and to the line's delay; and it reads back the side value exactly when that fits the pins |
| PioAcceptance.AcceptedIff | include/rp2_py_content.h:67-127 | a program is accepted exactly when its labels differ, no wrap() precedes the first instruction, shift counts are 1 to 32, every label jumped to has its line, and side values and delays fit the bits they have, said of the lines alone |
| PioMeaning.TargetsResolve | include/rp2_py_content.h:111-127 | a label that is used has its line in an accepted program |
| PioMeaning.LabelIsNextInstruction | include/rp2_py_content.h:111-127 | a label is the number of instructions before it |
| PioMeaning.WrapTargetIs | include/rp2_py_content.h:103-104 | EXECCTRL's wrap bottom is the instruction after the one wrap_target(), or 0 |
| PioMeaning.WrapIs | include/rp2_py_content.h:106-109 | EXECCTRL's wrap top is the instruction before the one wrap() |
| PioMeaning.WrapIsLast | include/rp2_py_content.h:69-70 | without wrap() it is the last instruction |
| PioMeaning.FlagsAre | include/rp2_py_content.h:72-76 | the side-set enable and pin-direction flags are as configured |
| PioAssembler.AsmPio | include/rp2_py_content.h:246-273 | the decorator succeeds exactly on the accepted programs, and then returns their words and EXECCTRL |
| PioAssembler.RepeatedWrapsChangeNothing | include/rp2_py_content.h:103-109 | running the wrap directives again in the second pass leaves EXECCTRL as it is |
| PioAssembler.PioAsmEmit.StartPass | include/rp2_py_content.h:67-80 | between the passes: the default wrap, whether side-set is optional, the room left for delays |
| PioAssembler.PioAsmEmit.RunBody | include/rp2_py_content.h:262-266 | a pass goes through exactly the lines it accepts and leaves what they collect |
| PioAssembler.PioAsmEmit.EmitWord | include/rp2_py_content.h:117-127 | counts in both passes, emits in the second, fails on an unknown label |
| PioAssembler.PioAsmEmit.Side | include/rp2_py_content.h:92-101 | counts, then checks the value against the side-set bits and ORs it in |
| PioAssembler.PioAsmEmit.Delay | include/rp2_py_content.h:85-90 | checks the delay against the bits left and ORs it in |
| PioAssembler.PioAsmEmit.LabelHere | include/rp2_py_content.h:111-115 | records a label in the first pass, refusing a duplicate |
| PioAssembler.PioAsmEmit.Wrap | include/rp2_py_content.h:106-109 | fails before the first instruction, otherwise adds the index of the last one |
| PioEncoding.BaseMeans | include/rp2_py_content.h:129-181 | every instruction method's word, without delay and side-set, leaves their field clear and decodes to what was asked for; the sources of wait() are the datasheet's own on one side and the programmer's arguments on the other |
| PioNames.WaitNames | include/rp2_py_content.h:138-143 | "gpio", "pin" and "irq" wait for a GPIO, a pin and an IRQ flag |
| PioNames.OutNames | include/rp2_py_content.h:150-155 | out() writes the register named, but STATUS is PC to it and OSR is EXEC |
| PioNames.InNames | include/rp2_py_content.h:145-148 | in_() reads the register named, exactly for those IN has |
| PioNames.MovNames | include/rp2_py_content.h:169-172 | mov() moves between the registers named, exactly for those MOV has, plainly, inverted or reversed |
| PioNames.SetNames | include/rp2_py_content.h:180-181 | set() sets the register named, exactly for those SET has |
| PioNames.JumpNames | include/rp2_py_content.h:132-136 | jmp() jumps on the condition named |
| PioNames.FifoNames | include/rp2_py_content.h:157-167 | push() and pull() block unless told not to, and wait for the threshold only when told to |
| PioEncoding.FieldsDecode | include/rp2_py_content.h:85-101 | delay and side-set read back from any packed word, beside an unchanged instruction |
| PioEncoding.OptionalSideOverflow | include/rp2_py_content.h:97-100 | with optional side-set a value that passes the check reads back exactly when it has one bit less than the check allows |
| PioEncoding.CheckedFieldsDecode | include/rp2_py_content.h:85-101 | of any word whose side value passed the check, delay and instruction read back, and the side value exactly when it fits the pins |
| PioEncoding.SixSideBitsCorruptOperand | include/rp2_py_content.h:74-100 | with five optional pins, for every instruction and every value: the instruction survives exactly when the value is even, or bit 7 is set in it already, or it is an irq, whose bit 7 is not looked at |
| Crosspoints.ChipK.SendXYraw | src/CH446Q.cpp:985-1050 | a command on the chip keeps chip K and its bit field in step, replaces other voltage sources of the row, and leaves no moment with two of them on one row; one off the chip goes to the masked address, unrecorded and unprotected |
| Crosspoints.OffChipIsSafeIff | src/CH446Q.cpp:1022-1041 | a command off the chip shorts no row exactly when it does not put a source beside another one |
| Crosspoints.OffChipIsRecordedIff | src/CH446Q.cpp:990-997 | it leaves the bit field right exactly when the crosspoint was that way already |
| Crosspoints.ChipK.ClearConflicts | src/CH446Q.cpp:1005-1020 | the protection takes exactly the other voltage sources off the row, one command at a time, before the new one joins |
| Crosspoints.ChipK.ApplyChipXYState | src/CH446Q.cpp:1148-1173 | applying a snapshot reaches it exactly when no row of it has two voltage sources, and never shorts a row on the way |
| Crosspoints.ChipK.GetConnectionBit | src/CH446Q.h:35-38 | the bit test is membership in the crosspoint matrix, false off the chip |
| Crosspoints.ChipK.SetConnectionBit | src/CH446Q.h:40-47 | changes exactly one crosspoint, none off the chip |
| Crosspoints.ColumnsAfterSet | src/CH446Q.h:42-43 | ORing a mask in adds that column to the row's set |
| Crosspoints.ColumnsAfterClear | src/CH446Q.h:44-45 | masking one out removes it |
| Crosspoints.ConflictColumns | src/CH446Q.cpp:1007-1010 | the protection's mask selects the row's other voltage sources |
| Crosspoints.BetweenStep | src/CH446Q.cpp:1157-1168 | each column sent brings the row closer to the snapshot, even when the protection has put sources off early |
| Wiring.GuardedColumnsAreSupplies | src/MatrixState.cpp:143-147 | the guarded columns are those wired to a power supply |
| Wiring.SafeIffOneSupply | src/CH446Q.cpp:999-1020 | a row is safe exactly when it is connected to at most one supply |
| FakeGpioOutput.Outputs.WriteNew | CodeDocs/newerFakeGpio.cpp:2208-2325 | sets exactly the named output's state; its row, and that of every other output, is connected to one power supply, the high node's when on and the low node's when off, on the fast and on the slow path |
| FakeGpioOutput.Outputs.SwitchFast | CodeDocs/newerFakeGpio.cpp:2235-2263 | the fast path's two commands: the output's row has no voltage source in between, and no other row changes |
| FakeGpioOutput.Outputs.FastSwitchChipK | CodeDocs/newerFakeGpio.cpp:337-349 | disconnects the old source, then connects the new one |
| FakeGpioOutput.Outputs.WriteBatch | CodeDocs/newerFakeGpio.cpp:2333-2411 | leaves every output in the state that writing the pairs one by one would, duplicates included, with the supply for it on its row, and returns the doubly counted total |
| FakeGpioOutput.TwoPassesAreOneByOne | CodeDocs/newerFakeGpio.cpp:2337-2380 | the pass over ready outputs and the pass over the others, in this order, come to the pairs one by one |
| FakeGpioOutput.FastPassIsAll | CodeDocs/newerFakeGpio.cpp:2363-2364 | when no pair is slow the second pass would change nothing |
| FakeGpioOutput.ReportedIsRightIff | CodeDocs/newerFakeGpio.cpp:2347-2409 | the return value is the number of writes exactly when the pairs all go the same way |
| FakeGpioOutput.FastAgreesWithRouter | CodeDocs/newerFakeGpio.cpp:2235-2301 | what the fast path left on a ready output's row is what a refresh would put there |
| FakeGpioOutput.SwitchSettles | CodeDocs/newerFakeGpio.cpp:320-349 | switching one ready output settles its row and disturbs no other |
| FakeGpioOutput.Outputs.EnableFast | CodeDocs/newerFakeGpio.cpp:2286-2303 | caches exactly what the search finds, for any paths; the outputs stay settled exactly when that is nothing or the router's row |
| FakeGpioOutput.CachedSettledIff | CodeDocs/newerFakeGpio.cpp:2286-2303 | the condition of the above, for any settled outputs: a second path over another row would break it |
| Router.SearchPaths | CodeDocs/newerFakeGpio.cpp:2287-2303 | the search of a write finds the first of the node's paths that goes through chip K |
| Router.SearchFirstPath | CodeDocs/newerFakeGpio.cpp:1707-1722 | the search of a configuration stops at the node's first path, through chip K or not |
| Router.RowIsFirst | CodeDocs/newerFakeGpio.cpp:2290-2299 | a path's row is that of its first hop on chip K |
| Router.FirstRowIs | CodeDocs/newerFakeGpio.cpp:2287-2303 | the wider search ends at the first path that is the node's and goes through chip K |
| Router.FirstPathRowIs | CodeDocs/newerFakeGpio.cpp:1705-1719 | the narrower one ends at the first path that is the node's |
| Router.SearchesAgree | CodeDocs/newerFakeGpio.cpp:1707-1722 | where the narrower search finds a row, the wider one finds the same |
| FakeGpioOutput.Outputs.ConfigOutput | CodeDocs/newerFakeGpio.cpp:1976-2124 | accepts exactly a breadboard node with two different supplies and a slot of its own or a free one, starts it low with its row on the low supply, and leaves the other outputs powered |
| FakeGpioOutput.Outputs.RemoveOutput | CodeDocs/newerFakeGpio.cpp:2418-2464 | frees exactly the node's slot, the others staying powered |
| FakeGpioOutput.SettledIsPowered | CodeDocs/newerFakeGpio.cpp:313-349 | a row with the column for the output's state is connected to the supply for it and to no other |
| FakeGpioOutput.Outputs.FindOutputSlot | CodeDocs/newerFakeGpio.cpp:273-280 | the first slot of a node, or -1 |
| FakeGpioOutput.ColumnsOfSources | CodeDocs/newerFakeGpio.cpp:313-329 | the column of every voltage source is wired to it, and different ones have different columns, all guarded |
| FakeGpioInput.Table.ConnectSlot | CodeDocs/newerFakeGpio.cpp:392-443 | connects exactly a ready slot with a channel assigned, moves the mark, and changes the ADC column by the old row and the new one only |
| FakeGpioInput.Table.DisconnectAll | CodeDocs/newerFakeGpio.cpp:414-422 | opens the row connected last, and touches no other |
| FakeGpioInput.Table.FastSwitchInputChipK | CodeDocs/newerFakeGpio.cpp:357-386 | opens the old row and closes the new one on the shared column, for any rows; without a new one it opens the old one and fails |
| FakeGpioInput.AdcColumnIsWired | CodeDocs/newerFakeGpio.cpp:452-457 | the shared column is wired to the ADC channel, channel 0 without one |
| FakeGpioInput.Table.Read | CodeDocs/newerFakeGpio.cpp:1525-1597 | an output's state, -1, or a reading with hysteresis; inputs, marks, closed rows and samples become what the bank of the lemmas says, for any rows left closed |
| FakeGpioInput.Table.ReadBackground | CodeDocs/newerFakeGpio.cpp:1901-1963 | one background read is that of the bank: the next ready input, with the rows closed, the sample and the place in the round |
| FakeGpioInput.Table.NextReady | CodeDocs/newerFakeGpio.cpp:1911-1926 | the search finds the ready slot closest after the last one read, or none |
| FakeGpioInput.Table.RemoveInput | CodeDocs/newerFakeGpio.cpp:1766-1831 | disconnects and frees exactly the node's slot, gives the channel back after the last one, and ends with the refresh's rows on the chip |
| FakeGpioInput.Table.ConfigInput | CodeDocs/newerFakeGpio.cpp:1617-1760 | accepts exactly a breadboard node with a channel and a slot of its own or a free one, with its thresholds and an unknown reading; a node configured before keeps its slot and is disconnected first; the row found is taken off the ADC column, all others stay as the refresh left them |
| FakeGpioScan.LastDecisiveSampleStands | CodeDocs/newerFakeGpio.cpp:1577-1596 | hysteresis over any run: an input's reading is what its last sample said that was not between the thresholds |
| FakeGpioScan.UndecidedKeepsReading | CodeDocs/newerFakeGpio.cpp:1577-1596 | until such a sample the reading stays what it was, but that a foreground read makes an unknown one low |
| FakeGpioScan.SampleIsSingleIff | CodeDocs/newerFakeGpio.cpp:357-386 | a sample is of one row exactly when nothing but the row connected last and its own was closed before |
| FakeGpioScan.RunSampleIsSingleIff | CodeDocs/newerFakeGpio.cpp:357-386 | in any run of foreground and background reads, sample k is of one row exactly when every row left closed at the start has been read by then |
| FakeGpioScan.LapReadsEachOnce | CodeDocs/newerFakeGpio.cpp:1901-1963 | any n background reads of n ready inputs, whatever foreground reads are between them, take each input exactly once |
| FakeGpioScan.LapReadsAllRows | CodeDocs/newerFakeGpio.cpp:1901-1963 | after such a lap exactly the rows of the ready inputs have been read |
| FakeGpioScan.FromLapOnSingleIff | CodeDocs/newerFakeGpio.cpp:1901-1963 | from the lap on every sample until the next refresh is of one row, exactly if the rows left closed at the start were all of ready inputs |
| FakeGpioScan.FirstSampleMixes | CodeDocs/newerFakeGpio.cpp:1525-1597 | two rows left closed and a third one read: the sample is of all three |
| RoundRobin.EveryInputOnce | CodeDocs/newerFakeGpio.cpp:1911-1962 | any n consecutive choices of the search among n ready inputs take each exactly once, wherever they start |
| RoundRobin.LapSoFar | CodeDocs/newerFakeGpio.cpp:1911-1926 | after k of them, the slots read are the k ready ones closest after the start |
| DacAllocation.Power.ConfigOutputVoltage | CodeDocs/newerFakeGpio.cpp:2132-2200 | for any two levels: succeeds exactly under the stated condition on the DACs and their use, with the rail, the ground or the DAC that supplies each level; never moves a DAC on another node's path by 0.1 V or more, and sets each at most once; the DAC for the high level is moved first, even when the low one is refused |
| DacAllocation.Power.FindAvailableDac | CodeDocs/newerFakeGpio.cpp:135-156 | a DAC already within 0.1 V, else one not used elsewhere, else -1 |
| DacAllocation.Power.IsDacConnected | CodeDocs/newerFakeGpio.cpp:120-131 | whether a path has the DAC and not the excluded node |
| DacAllocation.FreeDacsAreNotEnough | CodeDocs/newerFakeGpio.cpp:2178-2188 | with both DACs free and away from their levels the call is refused: the second search returns the DAC just taken |
| Calibration.BestLine | src/Apps.cpp:1801-1802 | for two different readings the one-pass line is defined, no line has a smaller sum of squared errors, and only itself has as small a one |
| Calibration.DefinedIff | src/Apps.cpp:1801 | the denominator is positive exactly when two raw readings differ, and never negative |
| Calibration.KeptAre | src/Apps.cpp:1755-1795 | the points used are those above 0.1 V, as often as measured |
| Calibration.Accumulate | src/Apps.cpp:1755-1795 | the loop's five sums are those of the points above 0.1 V |
| Calibration.Adc.Calibrate | src/Apps.cpp:1798-1867 | stores exactly the calibrated coefficients of one channel, and touches no other; fewer than two points change nothing, and points all at one reading store no number |
| Calibration.StoredIsLine | src/Apps.cpp:1805-1818 | before clamping, the stored coefficients read out the fitted line on every channel but 4, and on channel 4 exactly when its intercept is zero |
| Calibration.FittedReadsOut | src/Apps.cpp:1805-1850 | what every channel reads out after a fit: the fitted line, on channel 4 through zero, if it is stored as it is; the defaults, or the fitted slope with the default zero, otherwise |
| Calibration.InRangeIff | src/Apps.cpp:1820-1864 | the stored coefficients are in range exactly when the slope passes the gate |
| Calibration.CalibratedReadsBestLine | src/Apps.cpp:1755-1850 | a fit within range is read out unchanged, and no other line beats it |
| Calibration.Cramer | src/Apps.cpp:1801-1802 | slope and intercept solve the normal equations |
| Calibration.SumIsLinear | src/Apps.cpp:1780-1783 | sums of a linear combination are the combination of the sums |
| RawString.PyToCString | scripts/generate_micropython_examples.py:13-34 | whatever it returns lexes back to the content with nothing left over, and it raises exactly when the plain form and all ten delimiters occur in the content |
| RawString.LexLiteral | scripts/generate_micropython_examples.py:29-34 | with a delimiter whose closing sequence is not in the content, the first one lexed is the appended one |
| RawString.NoClosingBefore | scripts/generate_micropython_examples.py:22-29 | no closing sequence begins in the content and ends behind it |
| CArray.PrintedParsesBack | scripts/cpp_array_to_bin.py:19-56 | whatever match the parser's search takes on a printed array, it returns the printed bytes, for every length |
| CArray.FormatCppArray | scripts/bin_to_cpp_arrays.py:124-144 | the loop over chunks of twelve prints the array as specified |
| CArray.DecimalReads | scripts/bin_to_cpp_arrays.py:143 | the printed length reads back, in digits alone and without a leading zero |
| CArray.BodyReads | scripts/cpp_array_to_bin.py:48-56 | the hex values found in the printed lines are the bytes, in order |
| CArray.OneGroup | scripts/cpp_array_to_bin.py:34-44 | in a text with one opening brace every match of the pattern has the same group |
| CArray.OnlyCommentGoes | scripts/cpp_array_to_bin.py:28-30 | removing comments from a printed array removes its first line and nothing else |
| Mcp4728.InternalRoundTrip | CodeDocs/mcp4728.cpp:250-265 | internal reference, below full scale and up to the supply: the request reads back rounded down to a multiple of the gain factor, and the code has 12 bits |
| Mcp4728.ExternalRoundTrip | CodeDocs/mcp4728.cpp:250-265 | external reference at gain 1: never above the request, below it by less than vdd/4096 + 1 mV, and the code has 12 bits |
| Mcp4728.CodeFitsIff | CodeDocs/mcp4728.cpp:401-412 | short of the 16-bit wrap, the code has 12 bits exactly when the request is below full scale (below the supply on the external reference) |
| Mcp4728.ExternalGainDoubles | CodeDocs/mcp4728.cpp:250-265 | with gain 2 on the external reference every request below the supply reads back twice what its code stands for, up to the supply, and above the request from 2 vdd / 4096 + 1 mV on |
| Mcp4728.NeverAboveRequestIff | CodeDocs/mcp4728.cpp:250-265 | on the external reference no request below the supply reads back above itself exactly when the gain is 1 or the supply a single millivolt |
| Mcp4728.Dac.WriteVout | CodeDocs/mcp4728.cpp:401-412 | every channel's code is recomputed from its request |
| Mcp4728.Dac.VoutWrite | CodeDocs/mcp4728.cpp:269-273 | stores one request and recomputes the codes |
| Mcp4728.Dac.GetVout | CodeDocs/mcp4728.cpp:250-265 | the stored code as millivolts, at most the supply |

## Left out

- TinyUSB, the PL011 UART, DMA control registers, GPIO pin modes, LEDs, displays and serial prints: kept only as abstract steps (a byte captured, moved, taken by the host; a FIFO cleared).
- The router, Core 2's sending of paths and the state of bridges: a refresh comes back with any bit field and paths. That it gives outputs rows of their own, and that the search through its paths finds the row it routed an output over, is assumed where an output is written; what breaks otherwise is `FakeGpioOutput.CachedSettledIff`: the wrong row is cached and every later write of that output switches it.
- `CommandBuffer`: its pending slot is a guard of the parser and its outgoing bytes a list.
- The search for a free ADC channel, whose result is a parameter of `FakeGpioInput.Table.ConfigInput`; that a row of the router is a row of chip K.
- The re-arming of the receive DMA after 2^32 bytes, and the UART's suspension by MicroPython, with the re-entrancy guard of `task()` that it leaves set.
- The wrap of `millis()` after 49 days: time is unbounded.
- `process_runtime_command` but for its writing of the tag-parsing flag; the forwarding prefixes, none of which is registered; the disabled interrupt handler.
- The overflow counters, snapshots for the user interface, and the flag that a command came from the UART.
- The session's static variables are grouped into one object per concern (`FlashControl.Detector`, `Parsing`, `Lines`, `ResetPulse`); the source has them side by side.
- Instruction operands beyond 16 bits and programs of more than 65535 lines, which overflow the assembler's array; more than one `side` or delay on an instruction; SHIFTCTRL and the pin fields, which are copied from the arguments.
- `asm_pio_encode`: one instruction of the second pass alone.
- Chips other than K, whose commands have no protection, and the build for the original Jumperless, which has none at all (the outputs' own break before make does not rely on it).
- The legacy `fakeGpioPins`, the fast toggles and the display arrays.
- Calibration's prompts, DAC steps and measurements: the model begins with the pairs measured. Single-precision rounding.
- Character encodings in the scripts; whitespace beyond ASCII in the array parser's patterns; file access and image headers.
- The driver's I2C transfers, EEPROM values and power-down bits.
