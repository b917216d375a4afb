/** The shaper as the object it is: its fields, updated step by step by the producer's pushes and by
    the sender's loop, each step proved to be the step of the specification functions. */
module Sender {
  import opened TransportStream
  import opened Pcr
  import opened Resync
  import opened Slots
  import opened PcrTimeline
  import opened Controller
  import opened Schedule
  import opened SendLoop
  import opened Serving
  import Continuity

  function CountPcrs(packets: seq<TimedTsPacket>): nat {
    if packets == [] then 0
    else CountPcrs(packets[..|packets| - 1]) + if packets[|packets| - 1].hasPcr then 1 else 0
  }

  /** The packets that count are those with a PCR. */
  lemma {:induction false} CountPcrsIs(packets: seq<TimedTsPacket>)
    ensures CountPcrs(packets) == |set i | 0 <= i < |packets| && packets[i].hasPcr|
    decreases |packets|
  {
    if packets != [] {
      var n := |packets| - 1;
      CountPcrsIs(packets[..n]);
      var earlier := set i | 0 <= i < n && packets[..n][i].hasPcr;
      var all := set i | 0 <= i < |packets| && packets[i].hasPcr;
      assert all == if packets[n].hasPcr then earlier + {n} else earlier;
      assert n !in earlier;
    }
  }

  lemma {:induction false} OneSlot(s: SlotState, input: SlotInput)
    requires input.rate > 0
    ensures PositiveRates([input])
    ensures RunSlots(s, [input]) == SlotRun(Step(s, input).state, [Step(s, input).emission])
  {
    assert [input][..0] == [];
  }

  /** Moving the arrivals of a run's first slot into the queue before the run changes nothing. */
  lemma {:induction false} ArrivalsEarly(s: SlotState, inputs: seq<SlotInput>)
    requires inputs != [] && PositiveRates(inputs)
    ensures var queued := s.(packets := s.packets + inputs[0].arrivals);
            var rest := [inputs[0].(arrivals := [])] + inputs[1..];
            PositiveRates(rest) && RunSlots(queued, rest) == RunSlots(s, inputs)
  {
    var queued := s.(packets := s.packets + inputs[0].arrivals);
    var first := inputs[0].(arrivals := []);
    assert queued.packets + [] == queued.packets;
    assert Step(queued, first) == Step(s, inputs[0]);
    hide Step, RunSlots;
    OneSlot(s, inputs[0]);
    OneSlot(queued, first);
    assert inputs == [inputs[0]] + inputs[1..];
    RunSlotsAppend(s, [inputs[0]], inputs[1..]);
    RunSlotsAppend(queued, [first], inputs[1..]);
  }

  class StableUdpSender {
    const cfg: Config

    var ready: bool
    var stopping: bool

    // shared with the producer
    var queuedChunks: seq<seq<Byte>>
    var bufferedBytes: nat
    var inputBytesReceived: nat
    var resyncDiscardedBytes: nat
    var firstChunkArrivalNanoseconds: nat

    // rate controller
    var estimatedInputBitrate: nat
    var realPaceBitrate: nat
    var transportBitrate: nat
    var lastRateSampleNanoseconds: nat
    var lastRateSampleBytes: nat
    var lastControllerUpdateNanoseconds: nat
    var lowWatermarkEvents: nat

    // slots
    var realPackets: seq<TimedTsPacket>
    var realTokenAccumulator: nat
    var periodicPcrInitialized: bool
    var periodicPcrPid: nat
    var periodicPcrOriginTicks: nat
    var periodicPcrOriginNanoseconds: nat
    var nextPeriodicPcrNanoseconds: nat
    var pcrPidContinuityCounter: nat
    var pcrPidContinuityValid: bool
    var nullContinuityCounter: nat
    var rewrittenPcrPackets: nat
    var strippedSourcePcrPackets: nat
    var insertedPeriodicPcrPackets: nat
    var missedPeriodicPcrIntervals: nat
    var realUnderflowSlots: nat

    // totals, and what went to the socket
    var totalDatagrams: nat
    var totalRealPackets: nat
    var totalNullPackets: nat
    var socket: seq<seq<Byte>>

    function QueueView(): Queue
      reads `queuedChunks, `bufferedBytes, `inputBytesReceived, `resyncDiscardedBytes, `firstChunkArrivalNanoseconds,
        `stopping
    {
      Queue(queuedChunks, bufferedBytes, inputBytesReceived, resyncDiscardedBytes, firstChunkArrivalNanoseconds,
        stopping)
    }

    function ControlView(): ControllerState
      reads `estimatedInputBitrate, `realPaceBitrate, `transportBitrate, `lastRateSampleNanoseconds,
            `lastRateSampleBytes, `lastControllerUpdateNanoseconds, `lowWatermarkEvents
    {
      ControllerState(estimatedInputBitrate, realPaceBitrate, transportBitrate, lastRateSampleNanoseconds,
                      lastRateSampleBytes, lastControllerUpdateNanoseconds, lowWatermarkEvents)
    }

    function SlotView(): (s: SlotState)
      reads `realPackets, `realTokenAccumulator, `periodicPcrInitialized, `periodicPcrPid, `periodicPcrOriginTicks,
            `periodicPcrOriginNanoseconds, `nextPeriodicPcrNanoseconds, `pcrPidContinuityCounter,
            `pcrPidContinuityValid, `nullContinuityCounter, `rewrittenPcrPackets, `strippedSourcePcrPackets,
            `insertedPeriodicPcrPackets, `missedPeriodicPcrIntervals, `realUnderflowSlots
      ensures s.packets == realPackets
    {
      SlotState(realPackets, realTokenAccumulator, periodicPcrInitialized, periodicPcrPid, periodicPcrOriginTicks,
                periodicPcrOriginNanoseconds, nextPeriodicPcrNanoseconds, pcrPidContinuityCounter,
                pcrPidContinuityValid, nullContinuityCounter, rewrittenPcrPackets, strippedSourcePcrPackets,
                insertedPeriodicPcrPackets, missedPeriodicPcrIntervals, realUnderflowSlots)
    }

    /** Bytes are counted where they are, within the bound. */
    ghost predicate BytesCounted()
      reads `queuedChunks, `bufferedBytes, `realPackets
    {
      && bufferedBytes == ByteCount(queuedChunks) + TS_PACKET_SIZE * |realPackets|
      && bufferedBytes <= MAX_BUFFERED_BYTES
    }

    /** Every slot sent is accounted for. */
    ghost predicate SlotsCounted()
      reads `totalDatagrams, `totalRealPackets, `totalNullPackets, `insertedPeriodicPcrPackets, `socket
    {
      && TS_PACKETS_PER_DATAGRAM * totalDatagrams == totalRealPackets + totalNullPackets + insertedPeriodicPcrPackets
      && |socket| == totalDatagrams
    }

    ghost predicate Valid()
      reads this
    {
      (ready ==> Supported(cfg)) && BytesCounted() && SlotsCounted() && Classified(realPackets)
    }

    constructor (cfg: Config, socketOpens: bool)
      ensures Valid() && this.cfg == cfg
      ensures ready == (Supported(cfg) && socketOpens)
      ensures SlotView() == FRESH_SLOTS && Unlocked(SlotView())
      ensures QueueView() == Queue([], 0, 0, 0, 0, false)
      ensures totalDatagrams == 0 && socket == []
      ensures transportBitrate == if cfg.mode == Cbr then cfg.target
                                  else if cfg.target == 0 then 1_000_000
                                  else if cfg.target < 500_000 then 500_000 else cfg.target
    {
      this.cfg := cfg;
      stopping := false;
      queuedChunks, bufferedBytes, inputBytesReceived, resyncDiscardedBytes := [], 0, 0, 0;
      firstChunkArrivalNanoseconds := 0;
      estimatedInputBitrate, realPaceBitrate, lastRateSampleNanoseconds := 0, 0, 0;
      lastRateSampleBytes, lastControllerUpdateNanoseconds, lowWatermarkEvents := 0, 0, 0;
      realPackets, realTokenAccumulator := [], 0;
      periodicPcrInitialized, periodicPcrPid, periodicPcrOriginTicks := false, NULL_PID, 0;
      periodicPcrOriginNanoseconds, nextPeriodicPcrNanoseconds := 0, 0;
      pcrPidContinuityCounter, pcrPidContinuityValid, nullContinuityCounter := 0, false, 0;
      rewrittenPcrPackets, strippedSourcePcrPackets, insertedPeriodicPcrPackets := 0, 0, 0;
      missedPeriodicPcrIntervals, realUnderflowSlots := 0, 0;
      totalDatagrams, totalRealPackets, totalNullPackets, socket := 0, 0, 0, [];
      var initial := if cfg.mode == Cbr then cfg.target
                     else Max(MINIMUM_VBR_RATE, if cfg.target > 0 then cfg.target else 1_000_000);
      transportBitrate := initial;
      ready := !(cfg.mode == Cbr && cfg.target == 0) && !(initial == 0 || initial > MAXIMUM_RATE) && socketOpens;
    }

    /** The end of a push: the chunk is queued, unless the sender is stopping or there is no space yet.
        `FlowWaits` stands for a caller that waits on, and looks again when it is woken. */
    method Enqueue(chunk: seq<Byte>, arrival: nat) returns (flow: Flow)
      requires Valid()
      modifies `queuedChunks, `bufferedBytes, `firstChunkArrivalNanoseconds
      ensures Valid()
      ensures PushResult(QueueView(), flow) == Enqueued(old(QueueView()), chunk, arrival)
    {
      hide Classified;
      if stopping { return FlowFlushing; }
      if bufferedBytes + |chunk| > MAX_BUFFERED_BYTES { return FlowWaits; }
      bufferedBytes := bufferedBytes + |chunk|;
      if firstChunkArrivalNanoseconds == 0 {
        firstChunkArrivalNanoseconds := arrival;
      }
      ByteCountAppend(queuedChunks, [chunk]);
      assert ByteCount([chunk]) == |chunk| + ByteCount([]);
      queuedChunks := queuedChunks + [chunk];
      return FlowOk;
    }

    /** The producer. */
    method PushBuffer(bytes: seq<Byte>, now: nat) returns (flow: Flow)
      requires Valid()
      modifies `queuedChunks, `bufferedBytes, `inputBytesReceived, `firstChunkArrivalNanoseconds
      ensures Valid()
      ensures PushResult(QueueView(), flow) == Pushed(old(QueueView()), old(ready), Push(bytes, now, false))
    {
      if !ready { return FlowError; }
      if |bytes| == 0 { return FlowOk; }
      inputBytesReceived := inputBytesReceived + |bytes|;
      flow := Enqueue(bytes, now);
    }

    /** The destructor's part in the protocol. */
    method Stop()
      requires Valid()
      modifies `stopping
      ensures Valid() && QueueView() == old(QueueView()).(stopping := true)
    {
      stopping := true;
    }

    /** Cuts a chunk into packets; what is not a packet is discarded, byte by byte. */
    method QueueChunk(chunk: seq<Byte>)
      requires |chunk| <= bufferedBytes
      modifies `bufferedBytes, `resyncDiscardedBytes, `realPackets
      ensures realPackets == old(realPackets) + Parsed(chunk)
      ensures bufferedBytes == old(bufferedBytes) - DiscardedFrom(chunk, 0)
      ensures resyncDiscardedBytes == old(resyncDiscardedBytes) + DiscardedFrom(chunk, 0)
    {
      hide ParsePcr, Pid, Classified, ParsedFrom, DiscardedFrom;
      if |chunk| == 0 {
        NothingMore(chunk, 0);
        assert realPackets + [] == realPackets;
        return;
      }
      var offset := 0;
      while offset < |chunk| && chunk[offset] != SYNC_BYTE
        invariant offset <= |chunk|
        invariant ParsedFrom(chunk, offset) == Parsed(chunk)
        invariant DiscardedFrom(chunk, 0) == DiscardedFrom(chunk, offset) + offset
        modifies {}
      {
        DropOne(chunk, offset);
        offset := offset + 1;
      }
      if offset > 0 {
        bufferedBytes := bufferedBytes - offset;
        resyncDiscardedBytes := resyncDiscardedBytes + offset;
      }
      while offset + TS_PACKET_SIZE <= |chunk|
        invariant offset <= |chunk|
        invariant realPackets + ParsedFrom(chunk, offset) == old(realPackets) + Parsed(chunk)
        invariant bufferedBytes == old(bufferedBytes) - DiscardedFrom(chunk, 0) + DiscardedFrom(chunk, offset)
        invariant resyncDiscardedBytes
          == old(resyncDiscardedBytes) + DiscardedFrom(chunk, 0) - DiscardedFrom(chunk, offset)
      {
        if chunk[offset] != SYNC_BYTE {
          DropOne(chunk, offset);
          offset := offset + 1;
          bufferedBytes := bufferedBytes - 1;
          resyncDiscardedBytes := resyncDiscardedBytes + 1;
        } else if offset + 2 * TS_PACKET_SIZE <= |chunk| && chunk[offset + TS_PACKET_SIZE] != SYNC_BYTE {
          DropOne(chunk, offset);
          offset := offset + 1;
          bufferedBytes := bufferedBytes - 1;
          resyncDiscardedBytes := resyncDiscardedBytes + 1;
        } else {
          var packet: Packet := chunk[offset..offset + TS_PACKET_SIZE];
          var pcr := ParsePcr(packet);
          TakeOne(realPackets, chunk, offset);
          realPackets := realPackets + [TimedTsPacket(packet, Pid(packet), pcr.found, pcr.discontinuity, pcr.ticks)];
          offset := offset + TS_PACKET_SIZE;
        }
      }
      NothingMore(chunk, offset);
      if offset < |chunk| {
        var trailing := |chunk| - offset;
        bufferedBytes := bufferedBytes - trailing;
        resyncDiscardedBytes := resyncDiscardedBytes + trailing;
      }
      assert realPackets + [] == realPackets;
    }

    /** Under the queue's mutex: the sender takes everything queued. */
    method TakeChunks() returns (available: seq<seq<Byte>>)
      modifies `queuedChunks
      ensures available == old(queuedChunks) && queuedChunks == []
    {
      available := [];
      while queuedChunks != []
        invariant available + queuedChunks == old(queuedChunks)
        decreases |queuedChunks|
      {
        available := available + [queuedChunks[0]];
        queuedChunks := queuedChunks[1..];
      }
    }

    /** Parses the chunks taken, one after another. */
    method ParseChunks(chunks: seq<seq<Byte>>)
      requires bufferedBytes == ByteCount(chunks) + TS_PACKET_SIZE * |realPackets|
      modifies `bufferedBytes, `resyncDiscardedBytes, `realPackets
      ensures realPackets == old(realPackets) + ParsedAll(chunks)
      ensures bufferedBytes == TS_PACKET_SIZE * |realPackets| <= old(bufferedBytes)
      ensures resyncDiscardedBytes == old(resyncDiscardedBytes) + DiscardedAll(chunks)
    {
      hide Classify, Classified, ParsedFrom, Parsed, ParsedAll, DiscardedFrom;
      var available := chunks;
      while available != []
        invariant realPackets + ParsedAll(available) == old(realPackets) + ParsedAll(chunks)
        invariant bufferedBytes == ByteCount(available) + TS_PACKET_SIZE * |realPackets| <= old(bufferedBytes)
        invariant resyncDiscardedBytes + DiscardedAll(available) == old(resyncDiscardedBytes) + DiscardedAll(chunks)
        decreases |available|
      {
        ParseFirst(realPackets, available);
        QueueChunk(available[0]);
        available := available[1..];
      }
      NothingToParse(realPackets);
    }

    /** The sender takes everything queued and parses it in order. */
    method MoveAvailableChunks()
      requires Valid()
      modifies `queuedChunks, `bufferedBytes, `resyncDiscardedBytes, `realPackets
      ensures Valid() && realPackets == old(realPackets) + ParsedAll(old(queuedChunks))
      ensures QueueView() == Drained(old(QueueView()), |realPackets|)
      ensures SlotView() == old(SlotView()).(packets := realPackets)
    {
      hide Classified, ParsedAll, DiscardedAll, ByteCount;
      NothingToParse(realPackets);
      var available := TakeChunks();
      ParseChunks(available);
      ClassifiedAppend(old(realPackets), ParsedAll(available));
    }

    method UpdateTransportBitrate()
      requires Supported(cfg)
      modifies `transportBitrate
      ensures transportBitrate == TransportFor(cfg, realPaceBitrate)
    {
      if cfg.mode == Cbr {
        transportBitrate := cfg.target;
        return;
      }
      var desired := realPaceBitrate + VBR_HEADROOM;
      if desired < MINIMUM_VBR_RATE { desired := MINIMUM_VBR_RATE; }
      if desired > MAXIMUM_RATE { desired := MAXIMUM_RATE; }
      transportBitrate := desired;
    }

    method SampleInputRate(now: nat)
      modifies `estimatedInputBitrate, `lastRateSampleNanoseconds, `lastRateSampleBytes
      ensures ControlView() == TakeSample(old(ControlView()), now, inputBytesReceived)
    {
      if lastRateSampleNanoseconds == 0 {
        lastRateSampleNanoseconds := now;
        lastRateSampleBytes := inputBytesReceived;
      }
      if now >= lastRateSampleNanoseconds && now - lastRateSampleNanoseconds >= RATE_SAMPLE_NS {
        var bytesNow := inputBytesReceived;
        var deltaBytes := if bytesNow >= lastRateSampleBytes then bytesNow - lastRateSampleBytes else 0;
        var deltaTime := now - lastRateSampleNanoseconds;
        var instantBitrate := if deltaTime > 0 then MultiplyDivide(deltaBytes * 8, 1_000_000_000, deltaTime) else 0;
        if instantBitrate > 0 {
          if estimatedInputBitrate == 0 {
            estimatedInputBitrate := instantBitrate;
          } else {
            estimatedInputBitrate := (estimatedInputBitrate * 7 + instantBitrate) / 8;
          }
        }
        lastRateSampleNanoseconds := now;
        lastRateSampleBytes := bytesNow;
      }
    }

    method SteerPace(now: nat)
      requires Supported(cfg)
      modifies `realPaceBitrate, `transportBitrate, `lastControllerUpdateNanoseconds, `lowWatermarkEvents
      ensures ControlView() == Steer(cfg, old(ControlView()), now, bufferedBytes)
    {
      hide TargetBytes, LowBytes, Correction, TransportFor, MaxRealPace;
      // the source's unsigned difference is huge when the clock reads before the last update
      if lastControllerUpdateNanoseconds != 0 && now >= lastControllerUpdateNanoseconds
         && now - lastControllerUpdateNanoseconds < CONTROLLER_UPDATE_NS {
        return;
      }
      lastControllerUpdateNanoseconds := now;
      var estimate: nat := Max(1, estimatedInputBitrate);
      var targetBufferBytes := TargetBytes(estimate);
      var lowBufferBytes := LowBytes(estimate);
      var errorBytes: int;
      if bufferedBytes >= targetBufferBytes {
        errorBytes := bufferedBytes - targetBufferBytes;
      } else {
        errorBytes := -(targetBufferBytes - bufferedBytes);
      }
      var desired: int := estimate + Correction(errorBytes);
      if bufferedBytes < lowBufferBytes {
        desired := Min(desired, estimate * 85 / 100);
        lowWatermarkEvents := lowWatermarkEvents + 1;
      }
      if desired < 0 {
        desired := 0;
      }
      realPaceBitrate := Min(desired, MaxRealPace(cfg));
      UpdateTransportBitrate();
    }

    method UpdateRateController(now: nat)
      requires Supported(cfg)
      modifies `estimatedInputBitrate, `lastRateSampleNanoseconds, `lastRateSampleBytes,
               `realPaceBitrate, `transportBitrate, `lastControllerUpdateNanoseconds, `lowWatermarkEvents
      ensures ControlView() == Update(cfg, old(ControlView()), now, inputBytesReceived, bufferedBytes)
    {
      SampleInputRate(now);
      SteerPace(now);
    }

    // Slots

    method MakeNullPacket(destination: array<Byte>, at: nat)
      requires at + TS_PACKET_SIZE <= destination.Length
      modifies destination, `nullContinuityCounter
      ensures destination[at..at + TS_PACKET_SIZE] == NullPacket(old(nullContinuityCounter))
      ensures Untouched(old(destination[..]), destination[..], at)
      ensures nullContinuityCounter == (old(nullContinuityCounter) + 1) % 16
    {
      destination[at] := SYNC_BYTE;
      destination[at + 1] := 0x1F;
      destination[at + 2] := 0xFF;
      destination[at + 3] := 0x10 + nullContinuityCounter % 16;
      forall i | at + 4 <= i < at + TS_PACKET_SIZE {
        destination[i] := 0xFF;
      }
      assert destination[at] == SYNC_BYTE && destination[at + 1] == 0x1F && destination[at + 2] == 0xFF;
      assert destination[at + 3] == 0x10 + nullContinuityCounter % 16;
      assert destination[at..at + 4] == [SYNC_BYTE, 0x1F, 0xFF, 0x10 + nullContinuityCounter % 16];
      assert destination[at + 4..at + TS_PACKET_SIZE] == seq(TS_PACKET_SIZE - 4, _ => 0xFF);
      assert destination[at..at + TS_PACKET_SIZE] == destination[at..at + 4] + destination[at + 4..at + TS_PACKET_SIZE];
      nullContinuityCounter := (nullContinuityCounter + 1) % 16;
    }

    method MakePeriodicPcrPacket(destination: array<Byte>, at: nat, slotTime: nat)
      requires at + TS_PACKET_SIZE <= destination.Length
      modifies destination, `insertedPeriodicPcrPackets
      ensures destination[at..at + TS_PACKET_SIZE] == PcrPacketAt(old(SlotView()), slotTime)
      ensures Untouched(old(destination[..]), destination[..], at)
      ensures insertedPeriodicPcrPackets == old(insertedPeriodicPcrPackets) + 1
    {
      hide PcrPacketFrame, PcrAt, WithPcr;
      var packet := PcrFrame(periodicPcrPid, if pcrPidContinuityValid then pcrPidContinuityCounter else 0);
      var elapsed := if slotTime >= periodicPcrOriginNanoseconds then slotTime - periodicPcrOriginNanoseconds else 0;
      var pcrTicks := (periodicPcrOriginTicks + NanosecondsToPcrTicks(elapsed)) % PCR_TICKS_MODULUS;
      PcrAtIs(SlotView(), slotTime);
      WritePcr(packet, pcrTicks);
      CopyPacket(packet, destination, at);
      insertedPeriodicPcrPackets := insertedPeriodicPcrPackets + 1;
    }

    method ObservePcrPidContinuity(pid: nat, bytes: Packet)
      modifies `pcrPidContinuityCounter, `pcrPidContinuityValid
      ensures SlotView() == ObserveContinuity(old(SlotView()), pid, bytes)
    {
      if !periodicPcrInitialized || pid != periodicPcrPid || !HasPayload(bytes) {
        return;
      }
      pcrPidContinuityCounter := ContinuityCounter(bytes);
      pcrPidContinuityValid := true;
    }

    /** The first PCR packet locks the clock, later ones are stripped, in place. */
    method LockOrStripPcr(packet: TimedTsPacket, bytes: array<Byte>, slotTime: nat)
      requires bytes.Length == TS_PACKET_SIZE && bytes[..] == packet.bytes
      modifies bytes, `periodicPcrInitialized, `periodicPcrPid, `periodicPcrOriginTicks, `periodicPcrOriginNanoseconds,
               `nextPeriodicPcrNanoseconds, `rewrittenPcrPackets, `strippedSourcePcrPackets
      ensures bytes[..] == SentBytes(old(periodicPcrInitialized), packet)
      ensures SlotView() == LockOrStrip(old(SlotView()), packet, slotTime)
    {
      hide WithPcr, WithoutPcrFlag;
      if !packet.hasPcr { return; }
      if !periodicPcrInitialized {
        periodicPcrPid := packet.pid;
        periodicPcrOriginTicks := packet.sourcePcrTicks;
        periodicPcrOriginNanoseconds := slotTime;
        nextPeriodicPcrNanoseconds := slotTime + PERIODIC_PCR_INTERVAL_NS;
        periodicPcrInitialized := true;
        WritePcr(bytes, periodicPcrOriginTicks);
        rewrittenPcrPackets := rewrittenPcrPackets + 1;
      } else {
        ClearPcrFlag(bytes);
        strippedSourcePcrPackets := strippedSourcePcrPackets + 1;
      }
    }

    /** The packet a slot sends for real: the lock, or a stripped PCR, or the bytes as they are. */
    method SendRealPacket(destination: array<Byte>, at: nat, slotTime: nat) returns (packet: TimedTsPacket)
      requires at + TS_PACKET_SIZE <= destination.Length
      requires realPackets != [] && TS_PACKET_SIZE <= bufferedBytes
      modifies destination, `realPackets, `bufferedBytes, `periodicPcrInitialized, `periodicPcrPid,
               `periodicPcrOriginTicks, `periodicPcrOriginNanoseconds, `nextPeriodicPcrNanoseconds,
               `rewrittenPcrPackets, `strippedSourcePcrPackets, `pcrPidContinuityCounter, `pcrPidContinuityValid
      ensures packet == old(realPackets)[0]
      ensures SlotView() == SendReal(old(SlotView()), slotTime).state
      ensures destination[at..at + TS_PACKET_SIZE] == SendReal(old(SlotView()), slotTime).emission.bytes
      ensures Untouched(old(destination[..]), destination[..], at)
      ensures bufferedBytes == old(bufferedBytes) - TS_PACKET_SIZE
    {
      hide SentBytes, LockOrStrip, ObserveContinuity, Untouched;
      var front := realPackets[0];
      packet := front;
      realPackets := realPackets[1..];
      var bytes := PacketArray(front.bytes);
      LockOrStripPcr(front, bytes, slotTime);
      ObservePcrPidContinuity(front.pid, bytes[..]);
      CopyPacket(bytes, destination, at);
      bufferedBytes := bufferedBytes - TS_PACKET_SIZE;
    }

    /** Moves the PCR deadline behind the slot, counting the intervals it jumps over. */
    method SkipPcrIntervals(slotTime: nat)
      requires nextPeriodicPcrNanoseconds <= slotTime
      modifies `nextPeriodicPcrNanoseconds, `missedPeriodicPcrIntervals
      ensures var due := IntervalsDue(old(nextPeriodicPcrNanoseconds), slotTime);
              && nextPeriodicPcrNanoseconds == old(nextPeriodicPcrNanoseconds) + due * PERIODIC_PCR_INTERVAL_NS
              && missedPeriodicPcrIntervals == old(missedPeriodicPcrIntervals) + (due - 1)
    {
      var skipped := 0;
      nextPeriodicPcrNanoseconds := nextPeriodicPcrNanoseconds + PERIODIC_PCR_INTERVAL_NS;
      while nextPeriodicPcrNanoseconds <= slotTime
        invariant nextPeriodicPcrNanoseconds
                  == old(nextPeriodicPcrNanoseconds) + (skipped + 1) * PERIODIC_PCR_INTERVAL_NS
        invariant nextPeriodicPcrNanoseconds <= slotTime + PERIODIC_PCR_INTERVAL_NS
        modifies `nextPeriodicPcrNanoseconds
        decreases slotTime + PERIODIC_PCR_INTERVAL_NS - nextPeriodicPcrNanoseconds
      {
        skipped := skipped + 1;
        nextPeriodicPcrNanoseconds := nextPeriodicPcrNanoseconds + PERIODIC_PCR_INTERVAL_NS;
      }
      if skipped > 0 {
        missedPeriodicPcrIntervals := missedPeriodicPcrIntervals + skipped;
      }
    }

    /** A slot given to a generated packet. */
    method GeneratePcrAt(destination: array<Byte>, at: nat, slotTime: nat)
      requires at + TS_PACKET_SIZE <= destination.Length && nextPeriodicPcrNanoseconds <= slotTime
      modifies destination, `nextPeriodicPcrNanoseconds, `missedPeriodicPcrIntervals, `insertedPeriodicPcrPackets
      ensures SlotView() == GeneratePcr(old(SlotView()), slotTime)
      ensures destination[at..at + TS_PACKET_SIZE] == PcrPacketAt(old(SlotView()), slotTime)
      ensures Untouched(old(destination[..]), destination[..], at)
    {
      hide PcrPacketAt, Untouched;
      MakePeriodicPcrPacket(destination, at, slotTime);
      SkipPcrIntervals(slotTime);
    }

    /** Whether a slot not given to a PCR packet carries a queued one, and what it pays for that. */
    method SpendTokens(rate: nat) returns (sendReal: bool)
      requires rate > 0
      modifies `realTokenAccumulator, `realUnderflowSlots
      ensures sendReal == (old(realTokenAccumulator) >= rate && realPackets != [])
      ensures old(realTokenAccumulator) < rate ==>
                realTokenAccumulator == old(realTokenAccumulator) && realUnderflowSlots == old(realUnderflowSlots)
      ensures sendReal ==>
                realTokenAccumulator == old(realTokenAccumulator) - rate
                  && realUnderflowSlots == old(realUnderflowSlots)
      ensures old(realTokenAccumulator) >= rate && !sendReal ==>
                && realTokenAccumulator == Min(old(realTokenAccumulator) - rate, rate - 1)
                && realUnderflowSlots == old(realUnderflowSlots) + 1
    {
      sendReal := false;
      if realTokenAccumulator >= rate {
        realTokenAccumulator := realTokenAccumulator - rate;
        sendReal := realPackets != [];
        if !sendReal {
          realUnderflowSlots := realUnderflowSlots + 1;
          realTokenAccumulator := if realTokenAccumulator < rate - 1 then realTokenAccumulator else rate - 1;
        }
      }
    }

    /** One slot of a datagram. */
    method FillSlotAt(destination: array<Byte>, at: nat, slotTime: nat, pace: nat, rate: nat) returns (origin: Origin)
      requires at + TS_PACKET_SIZE <= destination.Length && rate > 0
      requires TS_PACKET_SIZE * |realPackets| <= bufferedBytes
      modifies destination, `realPackets, `bufferedBytes, `realTokenAccumulator, `periodicPcrInitialized,
               `periodicPcrPid, `periodicPcrOriginTicks, `periodicPcrOriginNanoseconds, `nextPeriodicPcrNanoseconds,
               `rewrittenPcrPackets, `strippedSourcePcrPackets, `pcrPidContinuityCounter, `pcrPidContinuityValid,
               `nullContinuityCounter, `insertedPeriodicPcrPackets, `missedPeriodicPcrIntervals, `realUnderflowSlots
      ensures SlotView() == FillSlot(old(SlotView()), slotTime, pace, rate).state
      ensures Emission(slotTime, destination[at..at + TS_PACKET_SIZE], origin)
              == FillSlot(old(SlotView()), slotTime, pace, rate).emission
      ensures bufferedBytes == old(bufferedBytes) - if origin.Real? then TS_PACKET_SIZE else 0
      ensures SlotView().packets == realPackets
      ensures Untouched(old(destination[..]), destination[..], at)
    {
      hide NullPacket, PcrPacketAt, SentBytes, LockOrStrip, ObserveContinuity, Untouched, GeneratePcr, IntervalsDue;
      realTokenAccumulator := realTokenAccumulator + pace;
      if periodicPcrInitialized && slotTime >= nextPeriodicPcrNanoseconds {
        PcrPacketIgnoresTokens(old(SlotView()), SlotView(), slotTime);
        GeneratePcrAt(destination, at, slotTime);
        return Generated;
      }
      var sendReal := SpendTokens(rate);
      if sendReal {
        var packet := SendRealPacket(destination, at, slotTime);
        return Real(packet);
      }
      MakeNullPacket(destination, at);
      return Null;
    }

    /** The slots filled so far are a run of the specification, and lie in the datagram one by one. */
    ghost predicate FilledSoFar(start: SlotState, inputs: seq<SlotInput>, slot: nat, wire: seq<Emission>,
                                filled: seq<Byte>)
      requires PositiveRates(inputs) && slot <= |inputs|
      reads this
    {
      && RunSlots(start, inputs[..slot]) == SlotRun(SlotView(), wire)
      && filled == Join(Wire(wire))
      && TS_PACKET_SIZE * |realPackets| <= bufferedBytes
      && |Sources(wire)| <= |start.packets| && SlotView().packets == realPackets == start.packets[|Sources(wire)|..]
    }

    /** Slot after slot of a datagram: one more is filled behind those filled already. */
    method FillNextSlot(destination: array<Byte>, deadline: nat, pace: nat, rate: nat, slot: nat,
                        ghost start: SlotState, ghost wire: seq<Emission>)
      returns (origin: Origin, ghost more: seq<Emission>)
      requires destination.Length == UDP_PAYLOAD_SIZE && rate > 0 && slot < TS_PACKETS_PER_DATAGRAM
      requires PositiveRates(DatagramSlots([], deadline, pace, rate))
      requires FilledSoFar(start, DatagramSlots([], deadline, pace, rate), slot, wire,
        destination[..TS_PACKET_SIZE * slot])
      modifies destination, `realPackets, `bufferedBytes, `realTokenAccumulator, `periodicPcrInitialized,
               `periodicPcrPid, `periodicPcrOriginTicks, `periodicPcrOriginNanoseconds, `nextPeriodicPcrNanoseconds,
               `rewrittenPcrPackets, `strippedSourcePcrPackets, `pcrPidContinuityCounter, `pcrPidContinuityValid,
               `nullContinuityCounter, `insertedPeriodicPcrPackets, `missedPeriodicPcrIntervals, `realUnderflowSlots
      ensures FilledSoFar(start, DatagramSlots([], deadline, pace, rate), slot + 1, more,
        destination[..TS_PACKET_SIZE * (slot + 1)])
      ensures |Sources(more)| == |Sources(wire)| + (if origin.Real? then 1 else 0)
      ensures |GeneratedTimes(more)| == |GeneratedTimes(wire)| + (if origin.Generated? then 1 else 0)
      ensures bufferedBytes == old(bufferedBytes) - if origin.Real? then TS_PACKET_SIZE else 0
    {
      hide FillSlot, SlotOffset, Untouched, Join, RunSlots, SlotView;
      hide Wire, Sources, GeneratedTimes, DatagramSlots, SlotInputAt, PositiveRates;
      var slotTime := deadline + SlotOffset(slot, rate);
      var at := slot * TS_PACKET_SIZE;
      ghost var before, filled := SlotView(), destination[..];
      DatagramInput(deadline, pace, rate, slot);
      origin := FillSlotAt(destination, at, slotTime, pace, rate);
      ghost var emission := Emission(slotTime, destination[at..at + TS_PACKET_SIZE], origin);
      FilledOneMore(filled, destination[..], at);
      RunOneMoreSlot(start, DatagramSlots([], deadline, pace, rate), slot, SlotRun(before, wire),
        SlotResult(SlotView(), emission));
      WireOneMore(wire, emission);
      more := wire + [emission];
    }

    /** The seven slots of a datagram, in place. */
    method FillDatagram(destination: array<Byte>, deadline: nat, rate: nat)
      returns (realCount: nat, pcrCount: nat, ghost wire: seq<Emission>)
      requires destination.Length == UDP_PAYLOAD_SIZE && rate > 0
      requires TS_PACKET_SIZE * |realPackets| <= bufferedBytes
      modifies destination, `realPackets, `bufferedBytes, `realTokenAccumulator, `periodicPcrInitialized,
               `periodicPcrPid, `periodicPcrOriginTicks, `periodicPcrOriginNanoseconds, `nextPeriodicPcrNanoseconds,
               `rewrittenPcrPackets, `strippedSourcePcrPackets, `pcrPidContinuityCounter, `pcrPidContinuityValid,
               `nullContinuityCounter, `insertedPeriodicPcrPackets, `missedPeriodicPcrIntervals, `realUnderflowSlots
      ensures RunSlots(old(SlotView()), DatagramSlots([], deadline, realPaceBitrate, rate)) == SlotRun(SlotView(), wire)
      ensures destination[..] == Join(Wire(wire))
      ensures realCount == |Sources(wire)| && pcrCount == |GeneratedTimes(wire)|
      ensures bufferedBytes == old(bufferedBytes) - TS_PACKET_SIZE * realCount
      ensures realCount <= |old(realPackets)| && realPackets == old(realPackets)[realCount..]
    {
      hide Join, RunSlots, Wire, Sources, GeneratedTimes, DatagramSlots, PositiveRates;
      var pace := realPaceBitrate;
      ghost var start := SlotView();
      ghost var inputs := DatagramSlots([], deadline, pace, rate);
      realCount, pcrCount, wire := 0, 0, [];
      DatagramInput(deadline, pace, rate, 0);
      RunNoSlots(start, inputs);
      for slot := 0 to TS_PACKETS_PER_DATAGRAM
        invariant FilledSoFar(start, inputs, slot, wire, destination[..TS_PACKET_SIZE * slot])
        invariant realCount == |Sources(wire)| && pcrCount == |GeneratedTimes(wire)|
        invariant bufferedBytes == old(bufferedBytes) - TS_PACKET_SIZE * realCount
      {
        var origin;
        origin, wire := FillNextSlot(destination, deadline, pace, rate, slot, start, wire);
        if origin.Real? {
          realCount := realCount + 1;
        } else if origin.Generated? {
          pcrCount := pcrCount + 1;
        }
      }
      assert inputs[..TS_PACKETS_PER_DATAGRAM] == inputs;
    }

    /** The loop's schedule before a datagram: a new bitrate drops the carried remainder, lateness
        drops remainder and backlog. */
    method PrepareTimeline(timeline: Timeline, now: nat, activeBitrate: nat) returns (prepared: Timeline)
      requires activeBitrate > 0
      ensures prepared == Prepare(timeline, now, activeBitrate)
    {
      var nextSend, scheduleRemainder, scheduleBitrate := timeline.next, timeline.remainder, timeline.bitrate;
      if scheduleBitrate != activeBitrate {
        scheduleBitrate := activeBitrate;
        scheduleRemainder := 0;
      }
      var interval := DATAGRAM_NUMERATOR / activeBitrate;
      if now > nextSend && now - nextSend > interval * LATE_RESET_INTERVALS {
        nextSend := now;
        scheduleRemainder := 0;
      }
      prepared := Timeline(nextSend, scheduleRemainder, scheduleBitrate);
    }

    method AdvanceTimeline(timeline: Timeline, activeBitrate: nat) returns (advanced: Timeline)
      requires activeBitrate > 0
      ensures advanced == Advance(timeline, activeBitrate)
    {
      var nextSend, scheduleRemainder := timeline.next, timeline.remainder;
      nextSend := nextSend + DATAGRAM_NUMERATOR / activeBitrate;
      scheduleRemainder := scheduleRemainder + DATAGRAM_NUMERATOR % activeBitrate;
      if scheduleRemainder >= activeBitrate {
        nextSend := nextSend + scheduleRemainder / activeBitrate;
        scheduleRemainder := scheduleRemainder % activeBitrate;
      }
      advanced := Timeline(nextSend, scheduleRemainder, timeline.bitrate);
    }

    /** A datagram filled from the queue, with the bytes and packets held counted again. */
    method FillAndCount(destination: array<Byte>, deadline: nat, rate: nat)
      returns (realCount: nat, pcrCount: nat, ghost wire: seq<Emission>)
      requires destination.Length == UDP_PAYLOAD_SIZE && rate > 0
      requires BytesCounted() && Classified(realPackets)
      modifies destination, `realPackets, `bufferedBytes, `realTokenAccumulator, `periodicPcrInitialized,
               `periodicPcrPid, `periodicPcrOriginTicks, `periodicPcrOriginNanoseconds, `nextPeriodicPcrNanoseconds,
               `rewrittenPcrPackets, `strippedSourcePcrPackets, `pcrPidContinuityCounter, `pcrPidContinuityValid,
               `nullContinuityCounter, `insertedPeriodicPcrPackets, `missedPeriodicPcrIntervals, `realUnderflowSlots
      ensures BytesCounted() && Classified(realPackets)
      ensures RunSlots(old(SlotView()), DatagramSlots([], deadline, realPaceBitrate, rate)) == SlotRun(SlotView(), wire)
      ensures destination[..] == Join(Wire(wire))
      ensures insertedPeriodicPcrPackets == old(insertedPeriodicPcrPackets) + pcrCount
      ensures realCount + pcrCount <= TS_PACKETS_PER_DATAGRAM
    {
      hide RunSlots, DatagramSlots, Join, Wire, Sources, GeneratedTimes, Classified, ByteCount;
      realCount, pcrCount, wire := FillDatagram(destination, deadline, rate);
      DatagramIsCounted(old(SlotView()), deadline, realPaceBitrate, rate);
      SuffixClassified(old(realPackets), realCount);
    }

    /** Sends a filled datagram and counts what is in it. */
    method SendDatagram(datagram: array<Byte>, realCount: nat, pcrCount: nat)
      requires realCount + pcrCount <= TS_PACKETS_PER_DATAGRAM
      requires pcrCount <= insertedPeriodicPcrPackets
      requires TS_PACKETS_PER_DATAGRAM * totalDatagrams
               == totalRealPackets + totalNullPackets + (insertedPeriodicPcrPackets - pcrCount)
      requires |socket| == totalDatagrams
      modifies `socket, `totalDatagrams, `totalRealPackets, `totalNullPackets
      ensures SlotsCounted()
      ensures socket == old(socket) + [datagram[..]]
      ensures totalRealPackets == old(totalRealPackets) + realCount
      ensures totalNullPackets == old(totalNullPackets) + (TS_PACKETS_PER_DATAGRAM - (realCount + pcrCount))
    {
      socket := socket + [datagram[..]];
      totalDatagrams := totalDatagrams + 1;
      totalRealPackets := totalRealPackets + realCount;
      var occupied := realCount + pcrCount;
      totalNullPackets := totalNullPackets
        + if occupied < TS_PACKETS_PER_DATAGRAM then TS_PACKETS_PER_DATAGRAM - occupied else 0;
    }

    /** The first half of an iteration: take what was pushed, then steer. */
    method ReceiveAndSteer(now: nat) returns (ghost tick: Tick)
      requires Valid() && Supported(cfg)
      modifies `queuedChunks, `bufferedBytes, `resyncDiscardedBytes, `realPackets,
               `estimatedInputBitrate, `lastRateSampleNanoseconds, `lastRateSampleBytes,
               `realPaceBitrate, `transportBitrate, `lastControllerUpdateNanoseconds, `lowWatermarkEvents
      ensures Valid() && QueueView() == Drained(old(QueueView()), |realPackets|)
      ensures tick == TickOf(old(QueueView()), old(realPackets), now) && tick.now == now
      ensures SlotView() == old(SlotView()).(packets := old(SlotView()).packets + tick.arrivals)
      ensures ControlView() == Update(cfg, old(ControlView()), tick.now, tick.received, tick.buffered)
      ensures realPaceBitrate == ControlView().pace && transportBitrate == ControlView().transport
    {
      hide Update, Classified, ParsedAll, DiscardedAll;
      MoveAvailableChunks();
      tick := Tick(now, ParsedAll(old(queuedChunks)), bufferedBytes, inputBytesReceived);
      UpdateRateController(now);
    }

    /** A datagram due at `deadline`, filled and sent. */
    method FillAndSend(deadline: nat, rate: nat) returns (ghost wire: seq<Emission>)
      requires Valid() && rate > 0
      modifies `realPackets, `bufferedBytes, `realTokenAccumulator, `periodicPcrInitialized, `periodicPcrPid,
               `periodicPcrOriginTicks, `periodicPcrOriginNanoseconds, `nextPeriodicPcrNanoseconds,
               `rewrittenPcrPackets, `strippedSourcePcrPackets, `pcrPidContinuityCounter, `pcrPidContinuityValid,
               `nullContinuityCounter, `insertedPeriodicPcrPackets, `missedPeriodicPcrIntervals, `realUnderflowSlots,
               `socket, `totalDatagrams, `totalRealPackets, `totalNullPackets
      ensures Valid()
      ensures RunSlots(old(SlotView()), DatagramSlots([], deadline, realPaceBitrate, rate)) == SlotRun(SlotView(), wire)
      ensures socket == old(socket) + [Join(Wire(wire))]
      ensures old(queuedChunks) == [] ==> bufferedBytes == TS_PACKET_SIZE * |realPackets|
    {
      hide RunSlots, DatagramSlots, Join, Wire, Sources, GeneratedTimes, Classified, ByteCount, SlotView;
      var datagram := new Byte[UDP_PAYLOAD_SIZE](_ => 0);
      var realCount, pcrCount;
      realCount, pcrCount, wire := FillAndCount(datagram, deadline, rate);
      SendDatagram(datagram, realCount, pcrCount);
      NothingToParse(realPackets);
    }

    /** The second half: prepare the timeline, fill and send a datagram, advance. */
    method SendScheduled(timeline: Timeline, now: nat) returns (next: Timeline, ghost wire: seq<Emission>)
      requires Valid() && InRange(ActiveBitrate(cfg, transportBitrate))
      modifies `realPackets, `bufferedBytes, `realTokenAccumulator, `periodicPcrInitialized, `periodicPcrPid,
               `periodicPcrOriginTicks, `periodicPcrOriginNanoseconds, `nextPeriodicPcrNanoseconds,
               `rewrittenPcrPackets, `strippedSourcePcrPackets, `pcrPidContinuityCounter, `pcrPidContinuityValid,
               `nullContinuityCounter, `insertedPeriodicPcrPackets, `missedPeriodicPcrIntervals, `realUnderflowSlots,
               `socket, `totalDatagrams, `totalRealPackets, `totalNullPackets
      ensures Valid()
      ensures var rate := ActiveBitrate(cfg, transportBitrate);
              var prepared := Prepare(timeline, now, rate);
              && next == Advance(prepared, rate)
              && RunSlots(old(SlotView()), DatagramSlots([], prepared.next, realPaceBitrate, rate))
                   == SlotRun(SlotView(), wire)
      ensures socket == old(socket) + [Join(Wire(wire))]
      ensures old(QueueView()).chunks == [] ==>
        QueueView() == old(QueueView()).(buffered := TS_PACKET_SIZE * |realPackets|)
    {
      hide Prepare, Advance, RunSlots, DatagramSlots, Join, Wire, ActiveBitrate, SlotView, Valid;
      var activeBitrate := ActiveBitrate(cfg, transportBitrate);
      var current := PrepareTimeline(timeline, now, activeBitrate);
      wire := FillAndSend(current.next, activeBitrate);
      next := AdvanceTimeline(current, activeBitrate);
    }

    /** One iteration of the send loop; `timeline` is the loop's own state. */
    method SendOne(timeline: Timeline, now: nat) returns (next: Timeline, ghost tick: Tick)
      requires Valid() && Running(cfg, LoopState(SlotView(), ControlView(), timeline))
      modifies `queuedChunks, `bufferedBytes, `resyncDiscardedBytes, `realPackets,
               `estimatedInputBitrate, `lastRateSampleNanoseconds, `lastRateSampleBytes,
               `realPaceBitrate, `transportBitrate, `lastControllerUpdateNanoseconds, `lowWatermarkEvents,
               `realTokenAccumulator, `periodicPcrInitialized, `periodicPcrPid,
               `periodicPcrOriginTicks, `periodicPcrOriginNanoseconds, `nextPeriodicPcrNanoseconds,
               `rewrittenPcrPackets, `strippedSourcePcrPackets, `pcrPidContinuityCounter, `pcrPidContinuityValid,
               `nullContinuityCounter, `insertedPeriodicPcrPackets, `missedPeriodicPcrIntervals, `realUnderflowSlots,
               `socket, `totalDatagrams, `totalRealPackets, `totalNullPackets
      ensures Valid() && QueueView() == Drained(old(QueueView()), |realPackets|)
      ensures tick == TickOf(old(QueueView()), old(realPackets), now)
      ensures LoopState(SlotView(), ControlView(), next)
              == Iterate(cfg, old(LoopState(SlotView(), ControlView(), timeline)), tick).state
      ensures socket
              == old(socket)
                 + [Join(Wire(Iterate(cfg, old(LoopState(SlotView(), ControlView(), timeline)), tick).wire))]
    {
      hide Running, Prepare, Advance, Update, Iterate, RunSlots;
      hide Classified, ActiveBitrate, DatagramSlots, Join, ParsedAll, Wire;
      hide SlotView, ControlView, Valid, QueueView, Drained, TickOf;
      ghost var before := LoopState(SlotView(), ControlView(), timeline);
      RunningIsSupported(cfg, before);
      tick := ReceiveAndSteer(now);
      ghost var taken := |realPackets|;
      IterationRate(cfg, before, tick);
      ghost var wire;
      next, wire := SendScheduled(timeline, now);
      DrainedAgain(old(QueueView()), taken, |realPackets|);
      IterationIs(cfg, before, tick, SlotRun(SlotView(), wire));
    }

    /** Five PCR packets among those held; counting stops at five. */
    method HasStartupPcrs() returns (enough: bool)
      ensures enough <==> CountPcrs(realPackets) >= 5
    {
      var startupPcrPackets := 0;
      var i := 0;
      while i < |realPackets| && startupPcrPackets < 5
        invariant i <= |realPackets|
        invariant startupPcrPackets == CountPcrs(realPackets[..i])
      {
        assert realPackets[..i + 1][..i] == realPackets[..i];
        if realPackets[i].hasPcr {
          startupPcrPackets := startupPcrPackets + 1;
        }
        i := i + 1;
      }
      CountPcrsPrefix(realPackets, i);
      assert realPackets[..|realPackets|] == realPackets;
      enough := startupPcrPackets >= 5;
    }

    /** The first estimate and pace, from the bytes held and the time they took to arrive. */
    method EstimateStartup(elapsed: nat)
      requires Supported(cfg)
      modifies `estimatedInputBitrate, `realPaceBitrate, `transportBitrate
      ensures estimatedInputBitrate == StartupEstimate(cfg, bufferedBytes, elapsed)
      ensures realPaceBitrate
        == (if cfg.mode == Cbr then Min(estimatedInputBitrate, MaxRealPace(cfg)) else estimatedInputBitrate)
      ensures transportBitrate == TransportFor(cfg, realPaceBitrate)
    {
      hide TransportFor, MaxRealPace, MultiplyDivide;
      var atLeastOne := if elapsed > 1 then elapsed else 1;
      estimatedInputBitrate := MultiplyDivide(bufferedBytes * 8, 1_000_000_000, atLeastOne);
      if estimatedInputBitrate == 0 {
        estimatedInputBitrate := if cfg.mode == Cbr then Min(cfg.target, 1_000_000) else 1_000_000;
      }
      realPaceBitrate :=
        if cfg.mode == Cbr then Min(estimatedInputBitrate, MaxRealPace(cfg)) else estimatedInputBitrate;
      UpdateTransportBitrate();
    }

    /** The arrival time of the first chunk is what the sender read of it, or was still 0 when it looked:
        the wait for a first chunk gives up after 10 ms. */
    predicate ArrivalRead(firstArrival: nat)
      reads `firstChunkArrivalNanoseconds
    {
      firstArrival == firstChunkArrivalNanoseconds || firstArrival == 0
    }

    /** One look at the startup reservoir: five seconds since the first chunk, and five PCR packets
        held. With an arrival time of 0 the five seconds count from the clock's zero. */
    method PollStartup(firstArrival: nat, now: nat) returns (started: bool)
      requires Valid() && ready && ArrivalRead(firstArrival)
      modifies `queuedChunks, `bufferedBytes, `resyncDiscardedBytes, `realPackets,
               `estimatedInputBitrate, `realPaceBitrate, `transportBitrate
      ensures Valid()
      ensures var waited := !stopping && now >= firstArrival + STARTUP_RESERVOIR_NS;
              && realPackets == old(realPackets) + (if waited then ParsedAll(old(queuedChunks)) else [])
              && QueueView() == (if waited then Drained(old(QueueView()), |realPackets|) else old(QueueView()))
              && (started <==> waited && CountPcrs(realPackets) >= 5)
      ensures started ==>
                && estimatedInputBitrate == StartupEstimate(cfg, bufferedBytes, now - firstArrival)
                && realPaceBitrate
                   == (if cfg.mode == Cbr then Min(estimatedInputBitrate, MaxRealPace(cfg)) else estimatedInputBitrate)
                && transportBitrate == TransportFor(cfg, realPaceBitrate)
      ensures !started ==> ControlView() == old(ControlView())
      ensures SlotView() == old(SlotView()).(packets := realPackets)
    {
      hide Classified, ParsedAll, CountPcrs, StartupEstimate, TransportFor, MaxRealPace, SlotView, QueueView, Drained;
      assert old(realPackets) + [] == old(realPackets);
      if stopping || now < firstArrival + STARTUP_RESERVOIR_NS {
        return false;
      }
      MoveAvailableChunks();
      started := HasStartupPcrs();
      if started {
        EstimateStartup(now - firstArrival);
      }
    }

    /** Sending starts: the wait succeeded at `now`, the loop's first clock reading is `start`. */
    method StartSending(firstArrival: nat, now: nat, start: nat) returns (started: bool, timeline: Timeline)
      requires Valid() && ready && ArrivalRead(firstArrival)
      modifies `queuedChunks, `bufferedBytes, `resyncDiscardedBytes, `realPackets,
               `estimatedInputBitrate, `realPaceBitrate, `transportBitrate,
               `lastRateSampleNanoseconds, `lastRateSampleBytes, `lastControllerUpdateNanoseconds
      ensures Valid() && timeline == Timeline(start, 0, 0)
      ensures var waited := !stopping && now >= firstArrival + STARTUP_RESERVOIR_NS;
              && realPackets == old(realPackets) + (if waited then ParsedAll(old(queuedChunks)) else [])
              && QueueView() == (if waited then Drained(old(QueueView()), |realPackets|) else old(QueueView()))
              && (started <==> waited && CountPcrs(realPackets) >= 5)
      ensures started ==>
                && ControlView() == Startup(cfg, bufferedBytes, now - firstArrival, start, inputBytesReceived)
                                    .(lowWatermarks := lowWatermarkEvents)
                && KeepsReserve(cfg, ControlView())
                && Running(cfg, LoopState(SlotView(), ControlView(), timeline))
      ensures SlotView() == old(SlotView()).(packets := realPackets)
      ensures ArrivalRead(firstArrival)
    {
      hide Classified, CountPcrs, ParsedAll, TransportFor, MaxRealPace;
      hide StartupEstimate, SlotView, KeepsReserve, QueueView, Drained;
      timeline := Timeline(start, 0, 0);
      started := PollStartup(firstArrival, now);
      if started {
        lastRateSampleNanoseconds := start;
        lastRateSampleBytes := inputBytesReceived;
        lastControllerUpdateNanoseconds := start;
        StartupKeepsReserve(cfg, bufferedBytes, now - firstArrival, start, inputBytesReceived);
        ReserveIgnoresEvents(cfg, Startup(cfg, bufferedBytes, now - firstArrival, start, inputBytesReceived),
          lowWatermarkEvents);
      }
    }

    /** The producer's pushes since the last wake-up, new ones and ones that waited. */
    method PushAll(pushes: seq<Push>)
      requires Valid()
      modifies `queuedChunks, `bufferedBytes, `inputBytesReceived, `firstChunkArrivalNanoseconds
      ensures Valid() && QueueView() == PushedAll(old(QueueView()), ready, pushes)
    {
      hide Valid, Pushed, Enqueued;
      assert pushes[..0] == [];
      for i := 0 to |pushes|
        invariant Valid() && QueueView() == PushedAll(old(QueueView()), ready, pushes[..i])
        modifies `queuedChunks, `bufferedBytes, `inputBytesReceived, `firstChunkArrivalNanoseconds
      {
        assert pushes[..i + 1][..i] == pushes[..i];
        var flow := PushOne(pushes[i]);
      }
      assert pushes[..|pushes|] == pushes;
    }

    method PushOne(push: Push) returns (flow: Flow)
      requires Valid()
      modifies `queuedChunks, `bufferedBytes, `inputBytesReceived, `firstChunkArrivalNanoseconds
      ensures Valid() && PushResult(QueueView(), flow) == Pushed(old(QueueView()), ready, push)
    {
      hide Valid;
      if push.waiting {
        flow := Enqueue(push.bytes, push.now);
      } else {
        flow := PushBuffer(push.bytes, push.now);
      }
    }

    ghost function WholeView(timeline: Timeline): SenderState
      reads this
    {
      SenderState(QueueView(), LoopState(SlotView(), ControlView(), timeline))
    }

    /** One wake-up of the send loop. */
    method WakeUp(timeline: Timeline, reading: LoopReading) returns (next: Timeline, ghost ticks: seq<Tick>)
      requires Valid() && Running(cfg, LoopState(SlotView(), ControlView(), timeline))
      modifies this
      ensures Valid() && ready == old(ready)
      ensures var run := ServeOne(cfg, ready, old(WholeView(timeline)), reading);
              && WholeView(next) == run.state && ticks == run.ticks
              && socket == old(socket) + (if ticks == [] then []
                   else [Join(Wire(Iterate(cfg, old(WholeView(timeline)).loop, ticks[0]).wire))])
    {
      hide Running, Iterate, Wire, ControlView, Valid, PushedAll, DiscardedAll, ParsedAll, SlotView, Accepted;
      hide Drained, TickOf, Join;
      PushAll(reading.pushes);
      if reading.stop {
        Stop();
      }
      next, ticks := timeline, [];
      if !stopping {
        ghost var tick;
        next, tick := SendOne(timeline, reading.now);
        ticks := [tick];
      }
    }

    /** The send loop over any sequence of wake-ups, with any pushes in between: its state is the
        specification's, and the socket has received exactly the packets the specification emits. */
    method SendLoop(timeline: Timeline, readings: seq<LoopReading>) returns (next: Timeline, ghost ticks: seq<Tick>)
      requires Valid() && Running(cfg, LoopState(SlotView(), ControlView(), timeline))
      modifies this
      ensures Valid()
      ensures var run := Serve(cfg, old(ready), old(WholeView(timeline)), readings);
              && WholeView(next) == run.state && ticks == run.ticks
              && Continuity.Flatten(socket)
                 == Continuity.Flatten(old(socket))
                   + Join(Wire(RunLoop(cfg, old(WholeView(timeline)).loop, ticks).wire))
    {
      hide Running, Iterate, Join, Wire, SlotView, ControlView, Valid, Continuity.Flatten, RunLoop, ServeOne;
      ghost var start := WholeView(timeline);
      next, ticks := timeline, [];
      NoIterations(cfg, start.loop, socket);
      assert readings[..0] == [];
      var i := 0;
      while i < |readings|
        invariant i <= |readings| && ready == old(ready) && Valid()
        invariant WholeView(next) == Serve(cfg, ready, start, readings[..i]).state
        invariant ticks == Serve(cfg, ready, start, readings[..i]).ticks
        invariant Continuity.Flatten(socket)
                  == Continuity.Flatten(old(socket)) + Join(Wire(RunLoop(cfg, start.loop, ticks).wire))
      {
        ghost var sent, before := socket, ticks;
        ghost var current;
        ServeOneMore(cfg, ready, start, readings, i);
        next, current := WakeUp(next, readings[i]);
        ticks := ticks + current;
        OneMoreWakeUp(cfg, start.loop, before, current, sent, socket, old(socket));
        i := i + 1;
      }
      assert readings[..i] == readings;
    }
  }

  lemma {:induction false} ReserveIgnoresEvents(cfg: Config, c: ControllerState, events: nat)
    ensures KeepsReserve(cfg, c.(lowWatermarks := events)) == KeepsReserve(cfg, c)
  {
  }

  lemma {:induction false} CountPcrsPrefix(packets: seq<TimedTsPacket>, i: nat)
    requires i <= |packets|
    ensures CountPcrs(packets[..i]) <= CountPcrs(packets)
    decreases |packets|
  {
    if i < |packets| {
      CountPcrsPrefix(packets[..|packets| - 1], i);
      assert packets[..|packets| - 1][..i] == packets[..i];
    } else {
      assert packets[..i] == packets;
    }
  }

  lemma {:induction false} NoIterations(cfg: Config, l: LoopState, socket: seq<seq<Byte>>)
    requires Running(cfg, l)
    ensures RunLoop(cfg, l, []) == LoopRun(l, [], [])
    ensures Continuity.Flatten(socket) == Continuity.Flatten(socket) + Join(Wire([]))
  {
  }

  lemma {:induction false} JoinedWires(a: seq<Emission>, b: seq<Emission>)
    ensures Join(Wire(a + b)) == Join(Wire(a)) + Join(Wire(b))
  {
    assert Wire(a + b) == Wire(a) + Wire(b);
    JoinAppend(Wire(a), Wire(b));
  }

  lemma {:induction false} FlattenOneMore(sent: seq<seq<Byte>>, datagram: seq<Byte>)
    ensures Continuity.Flatten(sent + [datagram]) == Continuity.Flatten(sent) + datagram
  {
    assert (sent + [datagram])[..|sent|] == sent;
  }

  lemma {:induction false} OneMoreIteration(cfg: Config, l: LoopState, ticks: seq<Tick>, tick: Tick,
                                            sent: seq<seq<Byte>>, socket: seq<seq<Byte>>, atStart: seq<seq<Byte>>)
    requires Running(cfg, l)
    requires socket == sent + [Join(Wire(Iterate(cfg, RunLoop(cfg, l, ticks).state, tick).wire))]
    requires Continuity.Flatten(sent) == Continuity.Flatten(atStart) + Join(Wire(RunLoop(cfg, l, ticks).wire))
    ensures RunLoop(cfg, l, ticks + [tick]).state == Iterate(cfg, RunLoop(cfg, l, ticks).state, tick).state
    ensures Continuity.Flatten(socket)
            == Continuity.Flatten(atStart) + Join(Wire(RunLoop(cfg, l, ticks + [tick]).wire))
  {
    hide RunLoop, Iterate, Running, Join, Wire, Continuity.Flatten;
    var before, last := RunLoop(cfg, l, ticks), Iterate(cfg, RunLoop(cfg, l, ticks).state, tick);
    RunLoopOneMore(cfg, l, ticks, tick);
    JoinedWires(before.wire, last.wire);
    FlattenOneMore(sent, Join(Wire(last.wire)));
  }

  lemma {:induction false} OneMoreWakeUp(cfg: Config, l: LoopState, ticks: seq<Tick>, current: seq<Tick>,
                                         sent: seq<seq<Byte>>, socket: seq<seq<Byte>>, atStart: seq<seq<Byte>>)
    requires Running(cfg, l) && |current| <= 1
    requires socket == sent + if current == [] then []
             else [Join(Wire(Iterate(cfg, RunLoop(cfg, l, ticks).state, current[0]).wire))]
    requires Continuity.Flatten(sent) == Continuity.Flatten(atStart) + Join(Wire(RunLoop(cfg, l, ticks).wire))
    ensures Continuity.Flatten(socket)
            == Continuity.Flatten(atStart) + Join(Wire(RunLoop(cfg, l, ticks + current).wire))
  {
    hide RunLoop, Iterate, Running, Join, Wire, Continuity.Flatten;
    if current == [] {
      assert ticks + current == ticks && socket == sent;
    } else {
      assert current == [current[0]];
      OneMoreIteration(cfg, l, ticks, current[0], sent, socket, atStart);
    }
  }

  lemma {:induction false} ServeOneMore(cfg: Config, ready: bool, s: SenderState, readings: seq<LoopReading>, i: nat)
    requires Running(cfg, s.loop) && i < |readings|
    ensures var before := Serve(cfg, ready, s, readings[..i]);
            var last := ServeOne(cfg, ready, before.state, readings[i]);
            && Serve(cfg, ready, s, readings[..i + 1]).state == last.state
            && Serve(cfg, ready, s, readings[..i + 1]).ticks == before.ticks + last.ticks
            && |last.ticks| <= 1
            && before.state.loop == RunLoop(cfg, s.loop, before.ticks).state
  {
    assert readings[..i + 1][..i] == readings[..i];
    ServedIsLoop(cfg, ready, s, readings[..i]);
    hide Iterate, Running, RunLoop;
  }

  lemma {:induction false} NothingToParse(packets: seq<TimedTsPacket>)
    ensures packets + ParsedAll([]) == packets && ByteCount([]) == 0 && DiscardedAll([]) == 0
  {
  }

  lemma {:induction false} DrainedAgain(q: Queue, taken: nat, left: nat)
    ensures Drained(q, taken).chunks == []
    ensures Drained(q, taken).(buffered := TS_PACKET_SIZE * left) == Drained(q, left)
  {
  }

  lemma {:induction false} RunningIsSupported(cfg: Config, l: LoopState)
    requires Running(cfg, l)
    ensures Supported(cfg)
  {
  }

  lemma {:induction false} ClassifiedAppend(a: seq<TimedTsPacket>, b: seq<TimedTsPacket>)
    requires Classified(a) && Classified(b)
    ensures Classified(a + b)
  {
    hide Classify;
  }

  lemma {:induction false} SuffixClassified(packets: seq<TimedTsPacket>, count: nat)
    requires Classified(packets) && count <= |packets|
    ensures Classified(packets[count..])
  {
    hide Classify;
  }

  lemma {:induction false} DatagramIsCounted(s: SlotState, due: nat, pace: nat, rate: nat)
    requires rate > 0
    ensures PositiveRates(DatagramSlots([], due, pace, rate))
    ensures var run := RunSlots(s, DatagramSlots([], due, pace, rate));
            && |Sources(run.wire)| + |GeneratedTimes(run.wire)| <= TS_PACKETS_PER_DATAGRAM
            && run.state.inserted == s.inserted + |GeneratedTimes(run.wire)|
  {
    hide RunSlots, SlotOffset;
    SlotsAreCounted(s, DatagramSlots([], due, pace, rate));
  }

  /** The rate an iteration works at is one the schedule can divide by. */
  lemma {:induction false} IterationRate(cfg: Config, l: LoopState, tick: Tick)
    requires Running(cfg, l)
    ensures Supported(cfg)
    ensures InRange(ActiveBitrate(cfg, Update(cfg, l.control, tick.now, tick.received, tick.buffered).transport))
  {
    UpdateKeepsReserve(cfg, l.control, tick.now, tick.received, tick.buffered);
    ActiveRateInRange(cfg, Update(cfg, l.control, tick.now, tick.received, tick.buffered));
  }

  /** The pieces of an iteration, put together. */
  lemma {:induction false} IterationIs(cfg: Config, l: LoopState, tick: Tick, filled: SlotRun)
    requires Running(cfg, l)
    requires var control := Update(cfg, l.control, tick.now, tick.received, tick.buffered);
             var rate := ActiveBitrate(cfg, control.transport);
             && InRange(rate)
             && RunSlots(l.slots.(packets := l.slots.packets + tick.arrivals),
                         DatagramSlots([], Prepare(l.timeline, tick.now, rate).next, control.pace, rate)) == filled
    ensures var control := Update(cfg, l.control, tick.now, tick.received, tick.buffered);
            var rate := ActiveBitrate(cfg, control.transport);
            var run := Iterate(cfg, l, tick);
            && run.state == LoopState(filled.state, control, Advance(Prepare(l.timeline, tick.now, rate), rate))
            && run.wire == filled.wire
  {
    var control := Update(cfg, l.control, tick.now, tick.received, tick.buffered);
    var rate := ActiveBitrate(cfg, control.transport);
    var due := Prepare(l.timeline, tick.now, rate).next;
    var inputs := DatagramSlots(tick.arrivals, due, control.pace, rate);
    var queued := l.slots.(packets := l.slots.packets + tick.arrivals);
    assert DatagramSlots([], due, control.pace, rate) == [inputs[0].(arrivals := [])] + inputs[1..];
    hide RunSlots, Update, Prepare, Advance, SlotOffset, KeepsReserve;
    ArrivalsEarly(l.slots, inputs);
  }

  lemma {:induction false} RunNoSlots(s: SlotState, inputs: seq<SlotInput>)
    ensures PositiveRates(inputs[..0]) && RunSlots(s, inputs[..0]) == SlotRun(s, [])
    ensures Join(Wire([])) == [] && Sources([]) == [] && GeneratedTimes([]) == []
  {
  }

  lemma {:induction false} DatagramInput(due: nat, pace: nat, rate: nat, slot: nat)
    requires rate > 0 && slot < TS_PACKETS_PER_DATAGRAM
    ensures PositiveRates(DatagramSlots([], due, pace, rate))
    ensures DatagramSlots([], due, pace, rate)[slot] == SlotInput([], due + SlotOffset(slot, rate), pace, rate)
  {
  }

  lemma {:induction false} FilledOneMore(before: seq<Byte>, after: seq<Byte>, at: nat)
    requires Untouched(before, after, at) && at + TS_PACKET_SIZE <= |before|
    ensures after[..at + TS_PACKET_SIZE] == before[..at] + after[at..at + TS_PACKET_SIZE]
  {
  }

  lemma {:induction false} StepIsFill(s: SlotState, input: SlotInput)
    requires input.rate > 0 && input.arrivals == []
    ensures Step(s, input) == FillSlot(s, input.time, input.pace, input.rate)
  {
    assert s.packets + [] == s.packets;
  }

  lemma {:induction false} WireOneMore(wire: seq<Emission>, e: Emission)
    ensures Join(Wire(wire + [e])) == Join(Wire(wire)) + e.bytes
    ensures |Sources(wire + [e])| == |Sources(wire)| + if e.origin.Real? then 1 else 0
    ensures |GeneratedTimes(wire + [e])| == |GeneratedTimes(wire)| + if e.origin.Generated? then 1 else 0
  {
    assert (wire + [e])[..|wire|] == wire;
    assert Wire(wire + [e]) == Wire(wire) + [e.bytes];
    JoinAppend(Wire(wire), [e.bytes]);
    assert Join([e.bytes]) == e.bytes + Join([]) == e.bytes;
  }

  lemma {:induction false} RunOneMoreSlot(start: SlotState, inputs: seq<SlotInput>, slot: nat, before: SlotRun,
                                          after: SlotResult)
    requires slot < |inputs| && PositiveRates(inputs)
    requires RunSlots(start, inputs[..slot]) == before
    requires inputs[slot].arrivals == []
    requires after == FillSlot(before.state, inputs[slot].time, inputs[slot].pace, inputs[slot].rate)
    ensures PositiveRates(inputs[..slot + 1])
    ensures RunSlots(start, inputs[..slot + 1]) == SlotRun(after.state, before.wire + [after.emission])
    ensures after.emission.origin.Real? ==>
      before.state.packets != [] && after.state.packets == before.state.packets[1..]
    ensures !after.emission.origin.Real? ==> after.state.packets == before.state.packets
  {
    var so := inputs[..slot + 1];
    assert so[..|so| - 1] == inputs[..slot];
    StepIsFill(before.state, inputs[slot]);
    StepQueue(before.state, inputs[slot]);
    hide FillSlot, RunSlots, Step;
    var b, input := LastSlot(start, so);
  }

  method PacketArray(p: Packet) returns (bytes: array<Byte>)
    ensures fresh(bytes) && bytes.Length == TS_PACKET_SIZE && bytes[..] == p
  {
    bytes := new Byte[TS_PACKET_SIZE](i requires 0 <= i < TS_PACKET_SIZE => p[i]);
  }

  lemma {:induction false} PcrPacketIgnoresTokens(a: SlotState, b: SlotState, time: nat)
    requires b == a.(tokens := b.tokens)
    ensures PcrPacketAt(a, time) == PcrPacketAt(b, time)
  {
  }

  lemma {:induction false} PcrAtIs(s: SlotState, time: nat)
    ensures PcrAt(s, time)
            == (s.originTicks
              + NanosecondsToPcrTicks(if time >= s.originNs then time - s.originNs else 0)) % PCR_TICKS_MODULUS
  {
  }

  /** The fixed part of a generated packet: header, adaptation field length and flag, stuffing. */
  method PcrFrame(pid: nat, cc: nat) returns (packet: array<Byte>)
    ensures fresh(packet) && packet.Length == TS_PACKET_SIZE
    ensures packet[..] == PcrPacketFrame(pid, cc)
  {
    packet := new Byte[TS_PACKET_SIZE](_ => 0xFF);
    packet[0] := SYNC_BYTE;
    packet[1] := (pid / 256) % 32;
    packet[2] := pid % 256;
    packet[3] := 0x20 + cc % 16;
    packet[4] := 183;
    packet[5] := 0x10;
    assert packet[..6] == [SYNC_BYTE, (pid / 256) % 32, pid % 256, 0x20 + cc % 16, 183, 0x10];
    assert packet[6..] == seq(TS_PACKET_SIZE - 6, _ => 0xFF);
    assert packet[..] == packet[..6] + packet[6..];
  }

  /** All of an array but one packet's place is as it was. */
  ghost predicate Untouched(before: seq<Byte>, after: seq<Byte>, at: nat) {
    && |before| == |after|
    && forall i :: 0 <= i < |before| && !(at <= i < at + TS_PACKET_SIZE) ==> after[i] == before[i]
  }

  method CopyPacket(packet: array<Byte>, destination: array<Byte>, at: nat)
    requires packet.Length == TS_PACKET_SIZE && at + TS_PACKET_SIZE <= destination.Length
    requires packet != destination
    modifies destination
    ensures destination[at..at + TS_PACKET_SIZE] == packet[..]
    ensures Untouched(old(destination[..]), destination[..], at)
  {
    forall i | 0 <= i < TS_PACKET_SIZE {
      destination[at + i] := packet[i];
    }
  }

  lemma {:induction false} ParseFirst(before: seq<TimedTsPacket>, available: seq<seq<Byte>>)
    requires available != []
    ensures before + ParsedAll(available) == (before + Parsed(available[0])) + ParsedAll(available[1..])
    ensures ByteCount(available) == |available[0]| + ByteCount(available[1..])
    ensures DiscardedAll(available) == DiscardedFrom(available[0], 0) + DiscardedAll(available[1..])
    ensures |available[0]| == TS_PACKET_SIZE * |Parsed(available[0])| + DiscardedFrom(available[0], 0)
  {
    hide Classified, ParsedFrom, DiscardedFrom;
    ParsedOrDiscarded(available[0], 0);
  }

  lemma {:induction false} DropOne(chunk: seq<Byte>, offset: nat)
    requires offset < |chunk|
    requires chunk[offset] != SYNC_BYTE || (offset + TS_PACKET_SIZE <= |chunk| && !StartsPacket(chunk, offset))
    ensures ParsedFrom(chunk, offset) == ParsedFrom(chunk, offset + 1)
    ensures DiscardedFrom(chunk, offset) == DiscardedFrom(chunk, offset + 1) + 1
  {
    hide Classify, Classified;
  }

  lemma {:induction false} NothingMore(chunk: seq<Byte>, offset: nat)
    requires offset <= |chunk| < offset + TS_PACKET_SIZE
    ensures ParsedFrom(chunk, offset) == [] && DiscardedFrom(chunk, offset) == |chunk| - offset
  {
  }

  lemma {:induction false} TakeOne(before: seq<TimedTsPacket>, chunk: seq<Byte>, offset: nat)
    requires offset + TS_PACKET_SIZE <= |chunk| && StartsPacket(chunk, offset)
    ensures var packet := Classify(chunk[offset..offset + TS_PACKET_SIZE]);
            && before + [packet] + ParsedFrom(chunk, offset + TS_PACKET_SIZE) == before + ParsedFrom(chunk, offset)
            && DiscardedFrom(chunk, offset) == DiscardedFrom(chunk, offset + TS_PACKET_SIZE)
  {
    hide Classify, Classified;
  }
}
