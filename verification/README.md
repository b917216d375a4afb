# Verification of the UDP shaper, the continuity monitor and the input failover

TVStreamer5 sends MPEG transport streams over UDP through an in-process shaper. It watches streams
with a continuity-counter monitor and fails over between a primary and a backup input. This project
models those parts and two smaller byte-stream parsers in Dafny. `dafny verify dfyconfig.toml` checks
all of it.

- **The shaper** (`StableUdpSender` in `src/StableUdpOutput.cpp`). A producer pushes chunks of bytes;
  a sender thread cuts them into 188-byte packets, measures the input rate, steers a reservoir and
  fills datagrams of seven slots on an integer timeline. A slot holds a queued packet (token bucket),
  a generated PCR packet (every 20 ms) or a null packet.
- **The monitor** (`countContinuityErrors` in `src/StreamManager.cpp`) counts continuity errors per
  PID over buffers cut anywhere.
- **The failover machine** (`monitorBus`, `restartPipelineWithInput` in `src/StreamManager.cpp`).
- **The PAT parser** (`src/MpegTsServiceDetector.cpp`) and **the older datagram aligner**
  (`src/UdpTsOutput.cpp`).

Code that works step by step is a class or a method with loops, proved equal to a function of the old
state (`QueueView`, `SlotView`, `ControlView`, `View`). The theorems are about those functions, over
every run. How the layers fit, for the shaper:

1. `Slots.RunSlots` is any number of slots with any times, rates and arrivals. Clock, token, FIFO and
   transparency theorems are proved there under stated conditions on the slots.
2. `SendLoop.RunLoop` is any number of loop iterations with any clock readings. It discharges those
   conditions (spacing, reserve, classified packets) for every run.
3. `Serving.Serve` adds the producer: any pushes, waits and a stop, between any wake-ups.
   `StableUdpSender.SendLoop` is proved to do exactly that, and its socket to receive exactly those bytes.
4. `Drift` follows the schedule of a run at constant bitrate; `EndToEnd` puts the pieces together, up to
   a monitor behind the socket; `Transmission` goes from the constructor through the startup reservoir
   to the loop, and establishes what the theorems about runs ask of their first state.
5. `Interleaving` takes the steps apart again: every update of the queue and of its two byte counters is
   a step of its own, and producer and sender interleave as the queue mutex allows.
6. `LossDetection` says what the monitor counts, of the packets alone, and `PatCarriage` writes the tables
   the PAT parser has to read; `UpdateSteers`, `PaceInNumbers` and other lemmas with the constants written
   out say in numbers what the operations compute.
7. `WordRange` shows that no intermediate result leaves its 64-bit word.

A run is in time when every clock reading is at most four datagram intervals past the due time it was made
for (`SendLoop.InTime`, written out in clock readings); such runs have no late reset.

## Where the code and what is said about it differ

- `src/StableUdpOutput.cpp:696-699` says the occupancy error is drained over four seconds; the code
  uses a horizon of six. The model has six.
- Below the low watermark the pace is capped at 85 % of the estimate. The cap never binds, for any
  estimate and occupancy (`Controller.LowCapIsRedundant`).
- The repository's README promises an automatic return to the primary source. One turn returns exactly
  under the condition of `Failover.ReturnsIff`. With a looped backup file and a primary that is available
  all along, the machine leaves the backup if and only if some turn starts ten seconds or more after the
  last restart of the file (`Failover.StaysOnBackupIff`). A file of five seconds never lets it
  (`Failover.AvailablePrimaryIsNeverUsed`).
- The branch at `src/StreamManager.cpp:4218-4228` is never reached, because an earlier guard is weaker.
  The function `Failover.SwitchInput` keeps it, the method `CheckFailover` leaves it out, and the two
  are proved equal.
- `countContinuityErrors` counts a legal duplicate packet of ISO/IEC 13818-1 as an error if and only if
  the packet announces no discontinuity (`Transparency.DuplicateIsAnErrorIff`). Its own fold is taken
  as the specification.
- A comment at `src/StableUdpOutput.cpp:844-845` says generated packets reuse the last payload counter of
  the PCR PID. The code has seen that counter only since the clock was locked. When the lock packet
  has no payload, packets generated before the next payload packet carry 0
  (`LockWithoutPayload.GeneratedCounterCanDiffer`, with the exact condition in
  `PcrTimeline.GeneratedRepeatsIff`).
- The repository's README says the shaper waits for a five-second startup reservoir. The wait for the first
  chunk gives up after 10 ms, and the arrival time may then be read as 0. Five packets with PCRs that
  arrive right after that start the output at once (`Transmission.StartsWithoutWaiting`). The five
  seconds are kept whenever a chunk had been queued before the arrival time was read
  (`Transmission.WaitIsKept`), and only then (`Transmission.WaitIsKeptIff`).
- A PAT section may end in front of the pointer of a packet in which the next one begins (ISO/IEC
  13818-1, section 2.4.4.2). The parser drops those bytes and forgets the section
  (`Pat.SplitSectionIsLost`). It reports a section if and only if all of it came in the opening packet
  and in packets without a unit start (`Pat.SectionIsFoundIff`).

## Model

| member | source | states |
|---|---|---|
| TransportStream.HeaderBits | src/StableUdpOutput.cpp:213-223 | PID, adaptation field control, continuity counter and payload flag in bits of bytes 1 to 3 |
| Pcr.FoundInBytes | src/StableUdpOutput.cpp:161-197 | which packets a PCR or a discontinuity is found in, in bytes, if and only if |
| Pcr.WritePcr | src/StableUdpOutput.cpp:199-211 | writes the 33-bit base, reserved ones and the 9-bit extension into bytes 6 to 11, in place, and nothing else |
| Pcr.ClearPcrFlag | src/StableUdpOutput.cpp:225-241 | clears the PCR flag in place, only in a packet with an adaptation field of legal length |
| Pcr.WrittenFields | src/StableUdpOutput.cpp:199-211 | the written base and extension are quotient and remainder by 300 of the ticks modulo 300 * 2^33; all other bytes stay |
| Pcr.PcrRoundTrip | src/StableUdpOutput.cpp:161-211 | for every packet and every t: parsing after writing returns t modulo 300 * 2^33, exactly when the packet carries a PCR |
| Pcr.PcrRewriteIsIdentityIff | src/StableUdpOutput.cpp:161-211 | writing back a parsed PCR keeps its ticks, and keeps the packet if and only if the extension is below 300 and the reserved bits are ones |
| Pcr.StrippedPcr | src/StableUdpOutput.cpp:225-241 | after stripping no PCR parses, only the flag bit changed, stripping twice is stripping once |
| GreedyScan.StartsIffGreedy | src/StableUdpOutput.cpp:558-605 | the walk of the resynchronisers finds the one choice of windows that is leftmost, greedy, non-overlapping and misses none |
| Resync.ParsedIsGreedy | src/StableUdpOutput.cpp:558-605 | the packets queued from a chunk are its slices at the greedy choice of the positions with a sync byte, and a second one 188 bytes on when a further packet fits |
| Resync.SliceIsQueued | src/StableUdpOutput.cpp:593-597 | what is queued of a slice: bytes, PID and the PCR a parser finds |
| Resync.ParsedExactly | src/StableUdpOutput.cpp:558-605 | sync-led packets behind any prefix without a sync byte are queued exactly, and exactly the prefix is discarded |
| Resync.ParsedBehindStraySyncs | src/StableUdpOutput.cpp:572-599 | two packets or more behind any bytes in which no sync byte has another one 188 bytes on are queued exactly, and exactly those bytes discarded |
| Resync.ParsedOrDiscarded | src/StableUdpOutput.cpp:558-605 | from every offset of a chunk, the bytes skipped one by one, the short tail and 188 for each packet add up to the rest of the chunk |
| Resync.EveryByteIsAccountedFor | src/StableUdpOutput.cpp:558-605 | every byte of every chunk is in a queued packet or counted as discarded |
| Slots.SentUnchangedOutsidePcr | src/StableUdpOutput.cpp:791-821 | a queued packet leaves unchanged but for PCR flag and PCR bytes, and unchanged when it has no PCR |
| Slots.SlotsAreFifo | src/StableUdpOutput.cpp:742-827 | over every run, packets sent then packets still queued are those queued at the start then all that arrived, in order |
| Slots.SlotsAreCounted | src/StableUdpOutput.cpp:742-827 | every slot is exactly one of queued packet, generated packet, null packet, and generated packets are counted |
| Slots.NullPacketsCountUp | src/StableUdpOutput.cpp:863-870 | the null packets of a run are on PID 8191 and carry counters modulo 16 without a gap, however they are spread |
| Slots.NullPacketInBytes | src/StableUdpOutput.cpp:863-870 | a null packet byte by byte |
| Slots.SlotUse | src/StableUdpOutput.cpp:757-789 | which of the three uses a slot has, if and only if, and the tokens and underflows it leaves |
| PcrTimeline.ReceiverTimeline | src/StableUdpOutput.cpp:742-861 | re-parsing the emitted bytes finds a PCR in a packet if and only if it was generated or is the first one sent that came with a PCR; it is on the PCR PID and is origin + floor(27 * elapsed / 1000) modulo 300 * 2^33 |
| PcrTimeline.PcrAccuracy | src/StableUdpOutput.cpp:141-143 | the unwrapped PCR is at most one 27 MHz tick behind its slot time, and never ahead |
| PcrTimeline.RunOnCadence | src/StableUdpOutput.cpp:762-776 | in every reachable state the next deadline is origin + 20 ms * (1 + inserted + missed), and inserted + missed are the intervals passed |
| PcrTimeline.RunOnTime | src/StableUdpOutput.cpp:762-776 | while slots come at most 20 ms apart no interval is missed and generated packet k is less than one gap behind its deadline |
| PcrTimeline.PcrSpacing | src/StableUdpOutput.cpp:762-807 | neighbouring PCRs, the lock included, are less than 20 ms and one slot gap apart |
| PcrTimeline.GeneratedCounter | src/StableUdpOutput.cpp:829-861 | a generated packet has no payload and carries the counter of the last payload packet on its PID since the lock, 0 without one |
| PcrTimeline.GeneratedPacketInBytes | src/StableUdpOutput.cpp:838-861 | a generated packet byte by byte, but for counter and PCR |
| PcrTimeline.GeneratedRepeatsIff | src/StableUdpOutput.cpp:829-861 | that is the last payload counter of the whole run on the PID if and only if a payload packet went out since the lock, or the last one before it had counter 0 or there was none |
| PcrTimeline.LockWithPayloadRepeats | src/StableUdpOutput.cpp:794-861 | it always is when the packet that locks the clock has payload |
| LockWithoutPayload.GeneratedCounterCanDiffer | src/StableUdpOutput.cpp:829-861 | an iteration of the send loop in which it is not: 0 after 5 |
| TokenBucket.ReservePaysForPcr | src/StableUdpOutput.cpp:607-617 | above 100 kbit/s, the reserve over 20 ms buys more than the slot a PCR packet takes |
| TokenBucket.RunSolvent | src/StableUdpOutput.cpp:751-789 | at a constant rate above 100 kbit/s, with the reserve kept, the accumulator stays below twice the rate at every slot of every run |
| TokenBucket.TokenLedger | src/StableUdpOutput.cpp:751-789 | packets sent at their price plus tokens left are never more than the paces added up, and equal to them while there is something to send |
| TokenBucket.NoBurstAfterGap | src/StableUdpOutput.cpp:778-788 | behind a slot with tokens and no packet, any number of slots send less than their paces and one packet more: no catch-up burst |
| TokenBucket.RealPaceIsAccurate | src/StableUdpOutput.cpp:751-789 | over any window with something to send, packets sent times the rate and the sum of the paces differ by less than two packets |
| Controller.PaceInNumbers | src/StableUdpOutput.cpp:673-724 | for every estimate and occupancy the pace is the estimate plus or minus four thirds of the bytes above or below the target, between 0 and the maximum |
| Controller.PaceSteersToTarget | src/StableUdpOutput.cpp:684-724 | above the target the reservoir drains faster than it fills, below it more slowly, as far as the maximum allows |
| Controller.MaximumIs | src/StableUdpOutput.cpp:607-617 | the maximum of each configuration in numbers |
| Controller.UpdateSteers | src/StableUdpOutput.cpp:666-727 | pace and rate stay for 100 ms, then follow estimate and occupancy; low watermarks are counted |
| Controller.SampleInNumbers | src/StableUdpOutput.cpp:637-664 | a sample every 500 ms is the bits received over the time passed, rounded down |
| Controller.SmoothInEighths | src/StableUdpOutput.cpp:652-659 | the average keeps seven eighths and takes one eighth of a positive sample |
| Controller.StartupInNumbers | src/StableUdpOutput.cpp:512-530 | the first estimate is the bits held over the time passed, or its default; pace and sampling start from there |
| Controller.LowCapIsRedundant | src/StableUdpOutput.cpp:710-716 | below the low watermark the pace is already at most 85 % of the estimate: the cap changes nothing |
| Controller.PaceIsMonotone | src/StableUdpOutput.cpp:673-724 | a fuller reservoir is never drained more slowly |
| Controller.PaceAtTarget | src/StableUdpOutput.cpp:673-724 | at the target occupancy the pace is the lesser of estimate and maximum |
| Controller.EmptyReservoirPaceIff | src/StableUdpOutput.cpp:673-724 | an empty reservoir drains at 7/12 of the estimate or more if and only if the estimate is at least 134,758 bit/s |
| Controller.PaceFloor | src/StableUdpOutput.cpp:673-724 | from there on the pace is at least the maximum or 7/12 of the estimate, whatever the occupancy |
| Controller.StartupKeepsReserve | src/StableUdpOutput.cpp:512-530 | the unclamped startup estimate is at most 53,687,091 bit/s when measured, or the default, and leaves the reserve |
| Controller.UpdateKeepsReserve | src/StableUdpOutput.cpp:607-727 | every update keeps pace + reserve within the transport rate: 100 kbit/s for CBR above 100 kbit/s, 120 kbit/s for VBR; a VBR rate is the least one allowed, 500 kbit/s or the pace plus 120 kbit/s |
| Controller.RunStaysWithin | src/StableUdpOutput.cpp:642-664 | over every run the averaged estimate stays within the range of the startup estimate and the positive samples, and the reserve is kept |
| Schedule.AdvanceStaysIdeal | src/StableUdpOutput.cpp:467-472 | carrying the remainder keeps due time * rate + remainder on the ideal line |
| Schedule.SlotTimeIdeal | src/StableUdpOutput.cpp:753-755 | slot j of datagram k is due at the ideal time of slot 7k + j rounded down, or one nanosecond earlier |
| Schedule.NextDatagramSpacing | src/StableUdpOutput.cpp:467-472 | the next datagram starts one slot spacing behind the last slot, within two nanoseconds |
| Drift.LoopDoesNotDrift | src/StableUdpOutput.cpp:421-472 | any run at constant bitrate and in time, CBR or VBR, from any point of its ideal line on: datagram k is due at start + floor(k * 10528 * 10^9 / rate), its slots at their ideal times or 1 ns earlier |
| Drift.LateResetStartsLine | src/StableUdpOutput.cpp:442-449 | a late reset begins a new ideal line at the clock reading, with its own datagram as number 0 |
| Drift.CbrIsConstant | src/StableUdpOutput.cpp:423-425 | every CBR run has a constant bitrate |
| Drift.LoopWindowCount | src/StableUdpOutput.cpp:467-472 | the datagrams of such a run due in any window, counted, exceed the ideal count by less than one, and fall short of it by less than one when the run spans the window |
| SendLoop.LoopIsSlotRun | src/StableUdpOutput.cpp:399-473 | every run of the loop is a run of slots |
| SendLoop.LoopSpacing | src/StableUdpOutput.cpp:421-472 | over every run, rate changes and late resets included, slot times strictly increase, by 7,520 ns or more |
| SendLoop.IterateTiming | src/StableUdpOutput.cpp:436-472 | the datagram of an iteration is due at its due time if the clock reads no more than four intervals past it, and at the clock reading otherwise |
| SendLoop.IterationOrder | src/StableUdpOutput.cpp:416-451 | the controller is updated first, and its new pace and rate hold for all seven slots |
| SendLoop.VbrRateIsLeast | src/StableUdpOutput.cpp:619-630 | a VBR iteration works at 500 kbit/s or at its pace plus 120 kbit/s |
| SendLoop.LoopKeepsReserve | src/StableUdpOutput.cpp:417-429 | in every slot of every run, pace + reserve is within the transport rate, the rate in range, and a VBR rate the least allowed |
| SendLoop.LoopIsFifo | src/StableUdpOutput.cpp:399-473 | packets leave the loop in the order in which they arrived |
| SendLoop.LoopTimeline | src/StableUdpOutput.cpp:399-473 | every run, every slot: a PCR parses if and only if the packet was generated or is the lock packet, it is the clock of its slot, and every later PCR is ahead of it |
| SendLoop.LoopCadence | src/StableUdpOutput.cpp:762-807 | in time and with slots at most 20 ms apart no PCR interval is missed, each is met within one slot gap of the run's rates, and neighbouring PCRs are less than 20 ms and one such gap apart |
| SendLoop.LoopMeetsPcrLimit | src/StableUdpOutput.cpp:762-807 | VBR, and CBR from 100 kbit/s on, in time: neighbouring PCRs are less than 36 ms apart |
| SendLoop.LoopTokens | src/StableUdpOutput.cpp:751-789 | CBR above 100 kbit/s, in time: the accumulator is below twice the target at every slot |
| SendLoop.LoopPaceIsAccurate | src/StableUdpOutput.cpp:751-789 | the same runs send, in any window of slots with something to send, what the pace allows give or take less than two packets |
| Serving.ServedIsLoop | src/StableUdpOutput.cpp:336-474 | whatever is pushed and whenever the sender wakes or stops, what is served is a run of the loop over well-classified packets |
| Serving.PushOutcome | src/StableUdpOutput.cpp:336-386 | what every push comes to, if and only if, and what its caller is told, with 32 MiB in numbers |
| Serving.TickSeesReservoir | src/StableUdpOutput.cpp:416-418 | the controller sees the occupancy as it is when everything queued has been parsed |
| Serving.PushesAreQueued | src/StableUdpOutput.cpp:368-384 | pushes append exactly the accepted chunks, count exactly their bytes and never pass 32 MiB |
| EndToEnd.ServedIsExact | src/StableUdpOutput.cpp:336-605 | every run: bytes counted are bytes held, within 32 MiB; bytes accepted are held, discarded or sent; packets sent then held are the parse of the accepted chunks in push order |
| EndToEnd.MonitorBehindShaper | src/StableUdpOutput.cpp:742-870 | a continuity monitor behind the socket, fed with the sent bytes in any pieces, has the errors and the state of one pass over the first m packets offered to the shaper, and m is at most one short of the packets sent |
| WordRange.TokensPerPcr | src/StableUdpOutput.cpp:760-789 | over every run, any rates, the accumulator is at most 200 Mbit * (1 + PCR packets inserted) |
| WordRange.IterationFits | src/StableUdpOutput.cpp:636-727 | in every run of 2^60 ns and 2^53 bytes, whose sender wakes no earlier than it asked, no 64-bit value of controller or schedule overflows |
| WordRange.EverySlotFits | src/StableUdpOutput.cpp:742-861 | nor does one in any slot: accumulator, deadlines and clock |
| Sender.StableUdpSender.constructor | src/StableUdpOutput.cpp:245-320 | ready if and only if the configuration is supported and the socket opens; the initial state |
| Sender.StableUdpSender.Enqueue | src/StableUdpOutput.cpp:368-385 | flushing, waiting or queueing, with the byte bound, as the specification says |
| Sender.StableUdpSender.PushBuffer | src/StableUdpOutput.cpp:336-386 | the producer's flow result and the new shared state, for every buffer and state |
| Sender.StableUdpSender.QueueChunk | src/StableUdpOutput.cpp:558-605 | appends exactly the parse of the chunk and moves exactly the discarded bytes from one counter to the other |
| Sender.StableUdpSender.MoveAvailableChunks | src/StableUdpOutput.cpp:542-556 | takes and parses everything queued, in order |
| Sender.StableUdpSender.UpdateRateController | src/StableUdpOutput.cpp:636-727 | the new controller state is that of the specification |
| Sender.StableUdpSender.UpdateTransportBitrate | src/StableUdpOutput.cpp:619-630 | the transport rate of the mode |
| Sender.StableUdpSender.MakeNullPacket | src/StableUdpOutput.cpp:863-870 | the null packet in its place in the datagram, the counter one up, the rest untouched |
| Sender.StableUdpSender.MakePeriodicPcrPacket | src/StableUdpOutput.cpp:838-861 | the generated packet of the clock at the slot time, in its place, the rest untouched |
| Sender.StableUdpSender.LockOrStripPcr | src/StableUdpOutput.cpp:794-816 | the first PCR locks the clock and is kept, later ones are stripped, in place |
| Sender.StableUdpSender.SkipPcrIntervals | src/StableUdpOutput.cpp:766-775 | the deadline moves behind the slot time by the least number of intervals, all but one counted as missed |
| Sender.StableUdpSender.SpendTokens | src/StableUdpOutput.cpp:778-789 | a slot carries a queued packet if and only if the tokens allow one and there is one; what is left of the tokens |
| Sender.StableUdpSender.FillSlotAt | src/StableUdpOutput.cpp:748-824 | one slot: bytes, queue, tokens, clock and counters as specified, the rest of the datagram untouched |
| Sender.StableUdpSender.FillDatagram | src/StableUdpOutput.cpp:742-827 | the datagram is the seven packets of a run of slots; counts and byte counter agree with it |
| Sender.StableUdpSender.PrepareTimeline | src/StableUdpOutput.cpp:426-449 | new bitrate and late reset |
| Sender.StableUdpSender.AdvanceTimeline | src/StableUdpOutput.cpp:467-472 | interval and carried remainder |
| Sender.StableUdpSender.SendDatagram | src/StableUdpOutput.cpp:453-460 | 7 * datagrams = real + null + generated packets holds again after each datagram |
| Sender.StableUdpSender.SendOne | src/StableUdpOutput.cpp:416-472 | one iteration: queue drained, state and datagram those of the specification |
| Sender.StableUdpSender.PollStartup | src/StableUdpOutput.cpp:476-540 | with the first arrival as read from its field, or still 0: sending starts if and only if five seconds have passed since and five PCR packets are held; the estimate and pace it starts with |
| Sender.StableUdpSender.StartSending | src/StableUdpOutput.cpp:399-410 | the state the loop starts from is running: configuration supported, reserve kept, timeline fresh |
| Sender.StableUdpSender.WakeUp | src/StableUdpOutput.cpp:399-472 | one wake-up with the pushes before it and a possible stop |
| Sender.StableUdpSender.SendLoop | src/StableUdpOutput.cpp:394-474 | any sequence of wake-ups: the whole state is the specification's and the socket has received exactly the packets it emits |
| Transmission.StartsAtInNumbers | src/StableUdpOutput.cpp:497-512 | sending starts at a look if and only if five seconds have passed since the arrival time read, five packets with a PCR are held, and nothing stops it |
| Transmission.WaitIsKept | src/StableUdpOutput.cpp:476-505 | sending that starts after a chunk had been queued when the arrival time was read starts five seconds after the first chunk or later |
| Transmission.WaitIsKeptIff | src/StableUdpOutput.cpp:476-505 | otherwise it does not, when the look comes less than five seconds after the pushes before it |
| Transmission.StartsWithoutWaiting | src/StableUdpOutput.cpp:476-537 | an instance: five PCR packets pushed after the arrival time was read as 0 start the output at that very moment |
| Transmission.Poll | src/StableUdpOutput.cpp:476-540 | one look at the reservoir with the pushes around it: it starts if and only if the wait since the time read is over and five PCR packets are held; what it leaves queued and parsed |
| Transmission.Transmit | src/StableUdpOutput.cpp:245-474 | from the constructor to the end: sending starts at the first look that allows it, with the reservoir all looks so far have left, in a state all theorems about runs apply to, and the socket receives exactly what is served from there |
| Interleaving.StepKeepsBytes | src/StableUdpOutput.cpp:368-605 | every atomic step of either side keeps the byte counter equal to what is held, within the bound, and bytes conserved |
| Interleaving.EveryInterleaving | src/StableUdpOutput.cpp:368-605 | after every interleaving: counter exact, never negative, at most 32 MiB; bytes conserved; packets in push order |
| Interleaving.QuietStateIsFifo | src/StableUdpOutput.cpp:542-605 | with nothing under way, packets sent and queued are the parse of the chunks pushed |
| LossDetection.MonitorCountsErrors | src/StreamManager.cpp:610-658 | the pass over any packets counts exactly the errors of an independent definition: transport errors, illegal adaptation field controls, and payload packets that do not follow the last one of their PID |
| LossDetection.FedMonitorCountsErrors | src/StreamManager.cpp:580-667 | so does the monitor fed in any buffers, for all packets but at most the last |
| LossDetection.NextPacketErrs | src/StreamManager.cpp:649-657 | in every state: after a payload packet and any packets that leave its PID alone, the next payload packet adds one error if and only if its counter is not one more |
| LossDetection.LossIsCounted | src/StreamManager.cpp:649-657 | packets that count up have no error, and leaving out some of them gives one if and only if their number is no multiple of 16 |
| LossDetection.DiscontinuityIsNoError | src/StreamManager.cpp:636-642 | a packet that announces a discontinuity adds no counter error |
| LossDetection.FirstIsNoError | src/StreamManager.cpp:649-657 | nor does the first packet of a PID |
| Continuity.IndicatorBits | src/StreamManager.cpp:620-639 | transport error and discontinuity in bytes, if and only if |
| Continuity.AlignedInBytes | src/StreamManager.cpp:555-575 | an alignment in bytes: two sync bytes, and a third and a fourth as far as the data goes |
| Continuity.AlignmentIsFirst | src/StreamManager.cpp:549-578 | the alignment found is the first one among 188 positions, if there is one |
| Continuity.RunIsMaximal | src/StreamManager.cpp:612-618 | the packets counted are as many as follow one another with a sync byte each |
| Continuity.FeedOnAnyBytes | src/StreamManager.cpp:596-665 | on any bytes: what a buffer counts, and which bytes are kept, 751 without an alignment and at most 752 with one |
| Continuity.RemainderBounded | src/StreamManager.cpp:602-665 | the carried remainder never exceeds four packets, whatever the bytes |
| Continuity.SplitIndependence | src/StreamManager.cpp:549-667 | however a stream of sync-led packets is cut, errors and per-PID state are one fold over all packets but at most the last; the remainder starts on a packet boundary and is under 376 bytes |
| Continuity.DivisionMatters | src/StreamManager.cpp:549-667 | on other streams the division matters: the same bytes count two errors in two buffers and none in one |
| ContinuityMonitor.FindTsAlignment | src/StreamManager.cpp:549-578 | the first of 188 offsets with two to four confirming sync bytes, if any |
| ContinuityMonitor.TsContinuity.CountPacketCounter | src/StreamManager.cpp:629-657 | one packet on the per-PID arrays, in place |
| ContinuityMonitor.TsContinuity.CountRun | src/StreamManager.cpp:610-658 | the loop over packets is the fold over the run of sync-led packets |
| ContinuityMonitor.TsContinuity.CountContinuityErrors | src/StreamManager.cpp:580-667 | one buffer: errors, arrays and remainder |
| ContinuityMonitor.TsContinuity.CountAll | src/StreamManager.cpp:580-667 | any number of buffers |
| Transparency.CheckIgnoresPcr | src/StreamManager.cpp:620-657 | packets that differ only in PCR flag and PCR bytes count the same |
| Transparency.DuplicateIsAnErrorIff | src/StreamManager.cpp:620-657 | a payload packet and its duplicate, other PIDs' packets in between and a PCR of its own: it counts one error if and only if it announces no discontinuity, and changes no state |
| Transparency.StepTransparent | src/StableUdpOutput.cpp:742-870 | a slot counts as its source packet, or not at all |
| Transparency.ShaperIsTransparent | src/StableUdpOutput.cpp:742-870 | for every run the fold over the emitted packets has the error count and state of the fold over the queued packets among them |
| Transparency.OutputMonitorSeesSources | src/StreamManager.cpp:580-667 | the same for the monitor fed with the emitted bytes in any pieces |
| Failover.RestartIsAllOrNothing | src/StreamManager.cpp:2447-2526 | a restart changes input, flags and timers together, or only the configured URI |
| Failover.AlwaysConsistent | src/StreamManager.cpp:4145-4296 | after every run the active URI is the backup's exactly with usingBackup, backupAttempted equals usingBackup, and a pending retry excludes it |
| Failover.FailsOverIff | src/StreamManager.cpp:4145-4196 | a turn on primary ends on backup if and only if five seconds passed without input, a backup is configured and its pipeline can be built |
| Failover.ReturnsIff | src/StreamManager.cpp:4197-4217 | a turn on backup ends on primary if and only if ten seconds passed since the last retry or restart and the primary is configured, found by the probe and can be built |
| Failover.EndsIff | src/StreamManager.cpp:4242-4303 | monitoring ends, the stream inactive, if and only if there is an error, or an end of stream that is no looped backup file or cannot be started again |
| Failover.ActivityIsNoted | src/StreamManager.cpp:4145-4168 | the byte counter seen and the time it last moved, or of a restart |
| Failover.RetryIsTimed | src/StreamManager.cpp:4197-4199 | a due retry that does not return puts the next one off by ten seconds |
| Failover.LossIsNoted | src/StreamManager.cpp:4229-4239 | without a backup, a loss is noted if and only if there was no input for five seconds, until it comes back |
| Failover.FailedFailoverIsNoted | src/StreamManager.cpp:4172-4196 | with one, while the failover does not succeed |
| Failover.PendingUntilInput | src/StreamManager.cpp:4158-4167 | after a return the retry is pending until the primary delivers |
| Failover.FailsOverAfterSilence | src/StreamManager.cpp:4145-4172 | over every run, a failover comes five seconds or more after every turn that met input |
| Failover.StaysAreLong | src/StreamManager.cpp:4145-4296 | over every run each stay on backup lasts ten seconds before a return, each stay on primary five before a failover |
| Failover.SwitchRateIsLimited | src/StreamManager.cpp:4145-4296 | any window of W seconds has at most 2 * (W / 15) + 2 switches |
| Failover.ShortFileLoopNeverReturns | src/StreamManager.cpp:2508-2509 | whatever turns come while it plays: a backup file restarted within ten seconds each time keeps the machine on backup, however available the primary is |
| Failover.StaysOnBackupIff | src/StreamManager.cpp:4197-4282 | with a looped file and an available primary, the backup is left if and only if a turn starts ten seconds or more after the last restart |
| Failover.AvailablePrimaryIsNeverUsed | src/StreamManager.cpp:4197-4217 | an instance for every length: a file of five seconds, the bus polled every 500 ms and quiet until the file ends, the primary available at every turn, and no return |
| Failover.StreamMonitor.RestartPipelineWithInput | src/StreamManager.cpp:2447-2526 | the fields after a restart, for every outcome |
| Failover.StreamMonitor.CheckFailover | src/StreamManager.cpp:4170-4240 | the failover decision, for every state and environment |
| Failover.StreamMonitor.ReadBus | src/StreamManager.cpp:4242-4302 | errors, end of stream and the backup file loop |
| Failover.StreamMonitor.MonitorBus | src/StreamManager.cpp:4106-4305 | any sequence of turns |
| WindowScan.ScanIsComplete | src/UdpTsOutput.cpp:329-353 | when less than a window is left, the windows found piece by piece are the greedy ones of the whole stream |
| DatagramAligner.AlignedInBytes | src/UdpTsOutput.cpp:406-413 | aligned means a sync byte at the seven packet starts, in numbers |
| DatagramAligner.UdpTsSender.PacketsAreGrouped | src/UdpTsOutput.cpp:329-353 | a stream of sync-led packets, in any chunks, goes out in its groups of seven from the first packet on |
| DatagramAligner.UdpTsSender.ResyncPending | src/UdpTsOutput.cpp:399-404 | dropping bytes up to a sync byte loses no datagram; it terminates |
| DatagramAligner.UdpTsSender.IsAlignedDatagram | src/UdpTsOutput.cpp:406-413 | true if and only if all seven packet starts hold a sync byte |
| DatagramAligner.UdpTsSender.AppendAndSend | src/UdpTsOutput.cpp:337-353 | for any chunking the datagrams sent are the greedy leftmost aligned windows of the whole stream, limited to complete ones |
| Pat.ProgramsOfIsDistinct | src/MpegTsServiceDetector.cpp:102-121 | the programs listed are exactly the distinct non-zero ones, in the order of their first entry |
| Pat.SectionIsFound | src/MpegTsServiceDetector.cpp:78-151 | a fresh parser reads exactly those programs out of a packet that opens a well-formed section and packets without a unit start that carry it on, other packets in between and any that begin no section before |
| Pat.SectionIsFoundIff | src/MpegTsServiceDetector.cpp:78-151 | as far as such packets go, the parser is complete if and only if they hold all of the section; if not, the next unit start leaves it as if the section had never been sent |
| Pat.SplitSectionIsLost | src/MpegTsServiceDetector.cpp:133-142 | two packets that carry a well-formed section legally, its end in front of a pointer, and leave the parser as new |
| PatCarriage.WrittenPatIsRead | src/MpegTsServiceDetector.cpp:78-151 | programs written into a section, and the section into packets with any adaptation fields, pointers and packets of other PIDs, are what a fresh parser lists: the distinct non-zero numbers in order |
| PatCarriage.IllegalSectionIsForgotten | src/MpegTsServiceDetector.cpp:81-95 | another table, or a length below 12 or above 1024 bytes, leaves the parser as new |
| PatParser.PatParser.ParsePatSection | src/MpegTsServiceDetector.cpp:102-121 | the loop with its set of seen numbers is the specification's list |
| PatParser.PatParser.ParseOnePacket | src/MpegTsServiceDetector.cpp:123-151 | one packet, for every header, adaptation field and pointer |
| PatParser.PatParser.Feed | src/MpegTsServiceDetector.cpp:56-76 | however a stream, garbage included, is divided into feeds, programs and completeness are those of the whole stream |
| PatParser.PatParser.ReportsSection | src/MpegTsServiceDetector.cpp:54-158 | once such packets have been fed, in any pieces and with anything behind them, the parser is complete and lists the section's programs |
| PatParser.PatParser.ReportsSectionIff | src/MpegTsServiceDetector.cpp:54-158 | and before that, with no more than part of a packet behind them, it is complete if and only if they hold all of the section |

## Left out

- GStreamer pipelines, pads and buses: pipeline builds, playback starts, probes and bus messages are arbitrary values of the model.
- Sockets, logging, statistics and thread wake-ups: a socket is the list of datagrams handed to it, and send errors are ignored as the source ignores them. Nothing is claimed about when a sleeping thread wakes.
- Clocks: arbitrary readings. `WordRange` and the failover's dwell times assume no more than is stated there: a sleep does not end early, and the steady clock does not go back.
- Waiting loops: `FlowWaits` is one look of a waiting producer and `PollStartup` one look at the startup reservoir; `Transmission.Transmit` repeats the second over any sequence of looks, without the sleeps in between.
- StableUdpSender: its methods run one after another, and what the two threads can do between each other's steps is the subject of `Interleaving`, whose steps are atomic and sequentially consistent.
- Interleaving: ends at the queue of packets; pacing and slots are not part of its steps, and each of its sent packets is popped and then subtracted as in `fillDatagram`.
- Media timestamps of chunks and `dueNanoseconds`: recorded by the source, never used for sending.
- MultiplyDivide: the 128-bit branch; the `long double` branch for compilers without 128-bit integers is not modelled.
- Statistics counters (`totalDatagrams`, `realUnderflowSlots` and the like) are unbounded in the model.
- TokenBucket.RunSolvent: for a constant transport rate above 100 kbit/s; up to there the source keeps no reserve, and every PCR packet can leave tokens behind for good (`WordRange.TokensPerPcr` bounds them).
- SendLoop.LoopCadence: for runs in time, because a reset jumps over intervals and the source counts them as missed (`RunOnCadence` covers those runs).
- Continuity.SplitIndependence: for streams of sync-led packets; on other bytes the source realigns at each buffer and the result can depend on the division (`Continuity.DivisionMatters`).
- Failover with an external transcoder (`restartTranscodedInput`, the process watchdog): it switches at once when the process exits.
- Eventual return to the primary is not claimed beyond `ReturnsIff`, and nothing is claimed about the configured URI after a failed rebuild.
- `UdpTsSender` keeps only the unpaced path; its strict CBR loop, its pacing from PCRs and `src/WisiCbrOutput.cpp` are not modelled.
- HTTP server, web pages, configuration files, notifications, transcoding, HLS and the other protocols: input and output, or bookkeeping without an algorithm.
