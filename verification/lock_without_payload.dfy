/** A run of the send loop in which a generated PCR packet does not repeat the last payload counter of its
    PID: the packet that locks the clock has no payload, and the payload packet before it is forgotten. */
module LockWithoutPayload {
  import opened TransportStream
  import opened Pcr
  import opened Resync
  import opened Slots
  import opened PcrTimeline
  import opened Controller
  import opened Schedule
  import opened SendLoop

  const START := 3_600_000_000_000
  const CBR_50K := Config(Cbr, 50_000)

  /** A controller at the pace of the target, just updated. */
  const AT_PACE := ControllerState(50_000, 50_000, 50_000, START, 0, START, 0)
  const AT_START := LoopState(FRESH_SLOTS, AT_PACE, Timeline(START, 0, 0))

  /** A payload packet with counter 5 on PID 256, then the first PCR on that PID, without payload. */
  const BOTH_ARRIVE := Tick(START, [Classify(PAYLOAD_PACKET), Classify(PCR_ONLY_PACKET)], 376, 376)

  const SLOT_TIME := 30_080_000

  lemma {:induction false} StartsRunning()
    ensures Running(CBR_50K, AT_START) && Unlocked(AT_START.slots) && InTime(CBR_50K, AT_START, BOTH_ARRIVE)
    ensures ClassifiedTicks([BOTH_ARRIVE])
  {
    hide ParsePcr, Pid;
  }

  lemma {:induction false} OffsetsAre()
    ensures SlotOffset(0, 50_000) == 0 && SlotOffset(1, 50_000) == SLOT_TIME && SlotOffset(2, 50_000) == 2 * SLOT_TIME
  {
  }

  /** The first three slots of the iteration. */
  lemma {:induction false} FirstSlots()
    requires Running(CBR_50K, AT_START)
    ensures var run := Iterate(CBR_50K, AT_START, BOTH_ARRIVE);
            && run.inputs[..3] == [SlotInput(BOTH_ARRIVE.arrivals, START, 50_000, 50_000),
                                   SlotInput([], START + SLOT_TIME, 50_000, 50_000),
                                   SlotInput([], START + 2 * SLOT_TIME, 50_000, 50_000)]
            && RunSlots(FRESH_SLOTS, run.inputs) == SlotRun(run.state.slots, run.wire)
  {
    OffsetsAre();
    assert Update(CBR_50K, AT_PACE, START, 376, 376) == AT_PACE by { hide *; NothingToUpdate(); }
    hide RunSlots, Update, SlotOffset, Advance, Classify;
  }

  lemma {:induction false} NothingToUpdate()
    ensures Update(CBR_50K, AT_PACE, START, 376, 376) == AT_PACE
  {
  }

  lemma {:induction false} PayloadSlot(input: SlotInput)
    requires input == SlotInput(BOTH_ARRIVE.arrivals, START, 50_000, 50_000)
    ensures var r := Step(FRESH_SLOTS, input);
            && r.state == FRESH_SLOTS.(packets := [Classify(PCR_ONLY_PACKET)])
            && PayloadOn(r.emission, 256) && ContinuityCounter(r.emission.bytes) == 5
  {
    WitnessPackets();
    hide ParsePcr, Pid, HasPayload, ContinuityCounter;
    assert [] + input.arrivals == input.arrivals && input.arrivals[1..] == [Classify(PCR_ONLY_PACKET)];
  }

  lemma {:induction false} LockSlot(s: SlotState, input: SlotInput)
    requires s == FRESH_SLOTS.(packets := [Classify(PCR_ONLY_PACKET)])
    requires input == SlotInput([], START + SLOT_TIME, 50_000, 50_000)
    ensures var r := Step(s, input);
            && r.state.locked && r.state.pcrPid == 256 && !r.state.pcrCcValid
            && r.state.nextPcrNs == START + SLOT_TIME + PERIODIC_PCR_INTERVAL_NS && !PayloadOn(r.emission, 256)
  {
    WitnessPackets();
    var packet := Classify(PCR_ONLY_PACKET);
    HeaderKept(PCR_ONLY_PACKET, packet.sourcePcrTicks);
    hide ParsePcr, Pid, HasPayload, ContinuityCounter, WithPcr;
    assert s.packets + input.arrivals == [packet];
  }

  /** What the three slots send. */
  lemma {:induction false} ThreeSlotsSend(inputs: seq<SlotInput>)
    requires inputs == [SlotInput(BOTH_ARRIVE.arrivals, START, 50_000, 50_000),
                        SlotInput([], START + SLOT_TIME, 50_000, 50_000),
                        SlotInput([], START + 2 * SLOT_TIME, 50_000, 50_000)]
    ensures PositiveRates(inputs)
    ensures var run := RunSlots(FRESH_SLOTS, inputs);
            && run.wire[2].origin.Generated? && ContinuityCounter(run.wire[2].bytes) == 0
            && Pid(run.wire[2].bytes) == 256
            && LastPayloadCounter(run.wire[..2], 256) == Sent(5)
  {
    var a := Step(FRESH_SLOTS, inputs[0]);
    var b := Step(a.state, inputs[1]);
    ThreeSlots(FRESH_SLOTS, inputs);
    PayloadSlot(inputs[0]);
    LockSlot(a.state, inputs[1]);
    StepLock(b.state, inputs[2]);
    StepGenerated(b.state, inputs[2]);
    StepDue(b.state, inputs[2]);
    hide Step, RunSlots, PayloadOn, ContinuityCounter, Classify;
    var sent := [a.emission, b.emission];
    assert RunSlots(FRESH_SLOTS, inputs).wire[..2] == sent;
    assert sent[..1] == [a.emission];
    assert LastPayloadCounter(sent[..1], 256) == Sent(5);
  }

  /** The third packet of that datagram is generated and has counter 0, where the last payload packet on
      its PID had 5. */
  lemma {:induction false} GeneratedCounterCanDiffer()
    ensures Running(CBR_50K, AT_START) && Unlocked(AT_START.slots) && ClassifiedTicks([BOTH_ARRIVE])
    ensures var wire := Iterate(CBR_50K, AT_START, BOTH_ARRIVE).wire;
            && wire[2].origin.Generated? && Pid(wire[2].bytes) == 256 && ContinuityCounter(wire[2].bytes) == 0
            && LastPayloadCounter(wire[..2], 256) == Sent(5)
            && !Repeats(wire[..2], 256, ContinuityCounter(wire[2].bytes))
  {
    hide Iterate, Running, RunSlots, Classify, Pid, ContinuityCounter, LastPayloadCounter, Unlocked, InTime;
    hide ClassifiedTicks;
    StartsRunning();
    FirstSlots();
    var run := Iterate(CBR_50K, AT_START, BOTH_ARRIVE);
    ThreeSlotsSend(run.inputs[..3]);
    RunSlotsPrefix(FRESH_SLOTS, run.inputs, 3);
    assert run.wire[..3][..2] == run.wire[..2] && run.wire[..3][2] == run.wire[2];
  }
}
