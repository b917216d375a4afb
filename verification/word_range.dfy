/** The source computes in 64-bit words where the model computes in integers. This module discharges
    the difference for the shaper: in every run of at most 36 years of uptime and 9 petabytes of
    input, in which the sender wakes when it asked to, no intermediate result leaves its word. */
module WordRange {
  import opened Arithmetic
  import opened TransportStream
  import opened Pcr
  import opened Resync
  import opened Slots
  import opened PcrTimeline
  import opened TokenBucket
  import opened Controller
  import opened Schedule
  import opened SendLoop

  const WORD := 0x1_0000_0000_0000_0000         // uint64_t holds less than this
  const HALF_WORD := 0x8000_0000_0000_0000      // int64_t holds less than this, and from minus this on
  const LONGEST_CLOCK := 0x1000_0000_0000_0000  // 2^60 ns since boot
  const LATEST_SLOT := LONGEST_CLOCK + DATAGRAM_NUMERATOR
  const MOST_BYTES := 0x20_0000_0000_0000       // 2^53
  const MOST_ESTIMATE := 0x200_0000_0000_0000   // 2^57 bit/s

  // The controller

  /** Everything `updateRateController` computes: products of the sample, the average, the cap, and
      the correction in signed arithmetic (its numerator in 128 bits). */
  predicate ControlFits(c: ControllerState, tick: Tick) {
    var estimate := Max(1, TakeSample(c, tick.now, tick.received).estimate);
    var error := tick.buffered - TargetBytes(estimate);
    && tick.received * 8 < WORD
    && c.estimate * 7 + SampleTaken(c, tick.now, tick.received) < WORD
    && estimate * 85 < WORD && TargetBytes(estimate) < HALF_WORD
    && -HALF_WORD * WORD < error * 8 * 1_000_000_000 < HALF_WORD * WORD
    && -HALF_WORD < Correction(error) < HALF_WORD
    && -HALF_WORD < estimate + Correction(error) < HALF_WORD
  }

  lemma {:induction false} SampleIsBounded(c: ControllerState, now: nat, received: nat)
    requires received <= MOST_BYTES
    ensures SampleTaken(c, now, received) <= MOST_ESTIMATE
  {
    if c.lastSampleNs != 0 && now >= c.lastSampleNs + RATE_SAMPLE_NS {
      var delta := if received >= c.lastSampleBytes then received - c.lastSampleBytes else 0;
      var elapsed := now - c.lastSampleNs;
      var rate := delta * 8 * 1_000_000_000 / elapsed;
      assert rate * elapsed <= delta * 8 * 1_000_000_000;
      TimesAtMost(rate, RATE_SAMPLE_NS, elapsed);
    }
  }

  lemma {:induction false} ControlIsBounded(cfg: Config, c: ControllerState, tick: Tick)
    requires c.estimate <= MOST_ESTIMATE && tick.received <= MOST_BYTES && tick.buffered <= MAX_BUFFERED_BYTES
    ensures ControlFits(c, tick)
    ensures Update(cfg, c, tick.now, tick.received, tick.buffered).estimate <= MOST_ESTIMATE
  {
    SampleIsBounded(c, tick.now, tick.received);
    UpdateSmooths(cfg, c, tick.now, tick.received, tick.buffered);
    SmoothStaysBetween(c.estimate, SampleTaken(c, tick.now, tick.received), 0, MOST_ESTIMATE);
    SampleSmooths(c, tick.now, tick.received);
    var estimate := Max(1, TakeSample(c, tick.now, tick.received).estimate);
    ReservoirBytes(estimate);
    CorrectionIsFourThirds(tick.buffered - TargetBytes(estimate));
    hide Update, TakeSample, SampleTaken, TargetBytes, LowBytes, Correction, Smooth;
  }

  lemma {:induction false} SampleSmooths(c: ControllerState, now: nat, received: nat)
    ensures TakeSample(c, now, received).estimate == Smooth(c.estimate, SampleTaken(c, now, received))
  {
    hide InstantRate;
  }

  // Slots

  predicate BoundedRates(inputs: seq<SlotInput>) {
    forall i :: 0 <= i < |inputs| ==> inputs[i].pace <= inputs[i].rate <= MAXIMUM_RATE
  }

  /** Whatever the rates do, every PCR packet can leave one slot's worth of tokens behind, and nothing
      else can. */
  lemma {:induction false} TokensPerPcr(s: SlotState, inputs: seq<SlotInput>)
    requires s.tokens == 0 && s.inserted == 0 && PositiveRates(inputs) && BoundedRates(inputs)
    ensures var state := RunSlots(s, inputs).state;
            state.tokens <= MAXIMUM_RATE * (1 + state.inserted)
    decreases |inputs|
  {
    hide Step;
    if inputs != [] {
      var before, input := LastSlot(s, inputs);
      TokensPerPcr(s, inputs[..|inputs| - 1]);
      StepTokens(before.state, input);
      StepCounters(before.state, input);
      hide RunSlots;
    }
  }

  lemma {:induction false} OriginIsReduced(s: SlotState, inputs: seq<SlotInput>)
    requires Unlocked(s)
    requires PositiveRates(inputs) && Increasing(inputs) && ClassifiedArrivals(inputs)
    ensures var state := RunSlots(s, inputs).state;
            state.locked ==> state.originTicks < PCR_TICKS_MODULUS
    decreases |inputs|
  {
    hide Step, ParsePcr, FieldTicks;
    if inputs != [] {
      var before, input := LastSlot(s, inputs);
      OriginIsReduced(s, inputs[..|inputs| - 1]);
      RunOnClock(s, inputs[..|inputs| - 1]);
      StepLock(before.state, input);
      StepClassified(before.state, input);
      hide RunSlots, Classified, AllOnClock, NoPcrSource;
      var origin := Step(before.state, input).emission.origin;
      if origin.Real? {
        TicksAreReduced(origin.source.bytes);
      }
    }
  }

  lemma {:induction false} TicksAreReduced(p: Packet)
    ensures Classify(p).sourcePcrTicks < PCR_TICKS_MODULUS
  {
  }

  /** Everything a slot computes: the accumulator, the deadline, the clock before it is reduced. */
  predicate SlotFits(s: SlotState, input: SlotInput) {
    && s.tokens + input.pace < WORD
    && input.time + PERIODIC_PCR_INTERVAL_NS < WORD
    && (s.locked ==> s.nextPcrNs + PERIODIC_PCR_INTERVAL_NS < WORD)
    && (s.locked && s.originNs <= input.time ==> UnwrappedPcr(s, input.time) < WORD)
  }

  lemma {:induction false} SlotsFit(s: SlotState, inputs: seq<SlotInput>, i: nat)
    requires Unlocked(s)
    requires PositiveRates(inputs) && Increasing(inputs) && ClassifiedArrivals(inputs) && BoundedRates(inputs)
    requires i < |inputs| && LastTime(inputs) <= LATEST_SLOT
    ensures SlotFits(RunSlots(s, inputs[..i]).state, inputs[i])
  {
    var earlier, state := inputs[..i], RunSlots(s, inputs[..i]).state;
    TokensPerPcr(s, earlier);
    RunOnCadence(s, earlier);
    OriginIsReduced(s, earlier);
    hide RunSlots, Unlocked, Classified;
    assert LastTime(earlier) <= inputs[i].time <= LATEST_SLOT;
    assert state.inserted <= LATEST_SLOT / PERIODIC_PCR_INTERVAL_NS by {
      if state.locked { DivisionMonotone(LastTime(earlier) - state.originNs, LATEST_SLOT, PERIODIC_PCR_INTERVAL_NS); }
    }
  }

  // The loop

  /** The environment of a run: the sender wakes at or after the time it asked for, the clock and the
      byte counter stay within their bounds, the queue within its own. */
  predicate Awake(l: LoopState, tick: Tick) {
    && l.timeline.next <= tick.now <= LONGEST_CLOCK
    && tick.received <= MOST_BYTES && tick.buffered <= MAX_BUFFERED_BYTES
  }

  ghost predicate AlwaysAwake(cfg: Config, l: LoopState, ticks: seq<Tick>)
    requires Running(cfg, l)
  {
    forall k :: 0 <= k < |ticks| ==> Awake(RunLoop(cfg, l, ticks[..k]).state, ticks[k])
  }

  /** Everything the loop itself computes: the late threshold, the slot times, the carried remainder,
      the next due time. */
  predicate ScheduleFits(cfg: Config, l: LoopState, tick: Tick)
    requires Running(cfg, l)
  {
    var rate, run := RateAt(cfg, l, tick), Iterate(cfg, l, tick);
    && Interval(rate) * LATE_RESET_INTERVALS < WORD
    && LastTime(run.inputs) <= LATEST_SLOT
    && Prepare(l.timeline, tick.now, rate).remainder + DATAGRAM_NUMERATOR % rate < WORD
    && run.state.timeline.next < HALF_WORD
  }

  lemma {:induction false} ScheduleIsBounded(cfg: Config, l: LoopState, tick: Tick)
    requires Running(cfg, l) && l.timeline.next <= tick.now <= LONGEST_CLOCK
    ensures ScheduleFits(cfg, l, tick)
  {
    var rate := RateAt(cfg, l, tick);
    var timeline := Prepare(l.timeline, tick.now, rate);
    PrepareTiming(l.timeline, tick.now, rate);
    assert timeline.next <= tick.now;
    NextDatagramSpacing(timeline, rate);
    SlotsAreSpaced(6, rate);
    IntervalIsBounded(rate);
    var control := Update(cfg, l.control, tick.now, tick.received, tick.buffered);
    DatagramTiming(tick.arrivals, timeline.next, control.pace, rate);
    hide RunSlots, Update, Prepare, Advance, SlotOffset, KeepsReserve, Interval, SpacingBelow;
  }

  lemma {:induction false} IntervalIsBounded(rate: nat)
    requires rate > 0
    ensures Interval(rate) <= DATAGRAM_NUMERATOR && SpacingBelow(rate) <= SLOT_NUMERATOR
  {
    var interval, spacing := Interval(rate), SpacingBelow(rate);
    TimesAtMost(interval, 1, rate);
    TimesAtMost(spacing, 1, rate);
  }

  lemma {:induction false} LoopIsBounded(cfg: Config, l: LoopState, ticks: seq<Tick>)
    requires Running(cfg, l) && l.control.estimate <= MOST_ESTIMATE && AlwaysAwake(cfg, l, ticks)
    ensures var run := RunLoop(cfg, l, ticks);
            LastTime(run.inputs) <= LATEST_SLOT && run.state.control.estimate <= MOST_ESTIMATE
    decreases |ticks|
  {
    hide Running, Iterate, Awake, AlwaysAwake;
    if ticks != [] {
      var n := |ticks| - 1;
      AwakeEarlier(cfg, l, ticks, n);
      LoopIsBounded(cfg, l, ticks[..n]);
      LastIsBounded(cfg, RunLoop(cfg, l, ticks[..n]).state, ticks[n]);
    }
  }

  lemma {:induction false} LastIsBounded(cfg: Config, l: LoopState, tick: Tick)
    requires Running(cfg, l) && l.control.estimate <= MOST_ESTIMATE && Awake(l, tick)
    ensures var run := Iterate(cfg, l, tick);
            LastTime(run.inputs) <= LATEST_SLOT && run.state.control.estimate <= MOST_ESTIMATE
    ensures ControlFits(l.control, tick) && ScheduleFits(cfg, l, tick)
  {
    ControlIsBounded(cfg, l.control, tick);
    ScheduleIsBounded(cfg, l, tick);
    hide RunSlots, Update, Prepare, Advance, ControlFits, DatagramSlots;
  }

  lemma {:induction false} AwakeEarlier(cfg: Config, l: LoopState, ticks: seq<Tick>, k: nat)
    requires Running(cfg, l) && AlwaysAwake(cfg, l, ticks) && k < |ticks|
    ensures AlwaysAwake(cfg, l, ticks[..k]) && Awake(RunLoop(cfg, l, ticks[..k]).state, ticks[k])
  {
    hide Awake, RunLoop, Running;
    forall i | 0 <= i < k ensures Awake(RunLoop(cfg, l, ticks[..k][..i]).state, ticks[..k][i]) {
      assert ticks[..k][..i] == ticks[..i];
    }
  }

  lemma {:induction false} RatesAreBounded(cfg: Config, inputs: seq<SlotInput>)
    requires AllKeepReserve(cfg, inputs)
    ensures BoundedRates(inputs)
  {
    forall i | 0 <= i < |inputs| ensures inputs[i].pace <= inputs[i].rate <= MAXIMUM_RATE {
      assert InputKeepsReserve(cfg, inputs[i]);
    }
  }

  /** No word overflows in iteration k of a run: not in its controller, not in its schedule. */
  lemma {:induction false} IterationFits(cfg: Config, l: LoopState, ticks: seq<Tick>, k: nat)
    requires Running(cfg, l) && l.control.estimate <= MOST_ESTIMATE && AlwaysAwake(cfg, l, ticks) && k < |ticks|
    ensures var before := RunLoop(cfg, l, ticks[..k]).state;
            ControlFits(before.control, ticks[k]) && ScheduleFits(cfg, before, ticks[k])
  {
    hide Running, Iterate, RunLoop, AlwaysAwake, Awake, ControlFits, ScheduleFits;
    AwakeEarlier(cfg, l, ticks, k);
    LoopIsBounded(cfg, l, ticks[..k]);
    LastIsBounded(cfg, RunLoop(cfg, l, ticks[..k]).state, ticks[k]);
  }

  /** Nor in any slot of a run, the accumulator that PCR packets leave tokens in included. */
  lemma {:induction false} EverySlotFits(cfg: Config, l: LoopState, ticks: seq<Tick>, i: nat)
    requires Running(cfg, l) && l.control.estimate <= MOST_ESTIMATE && AlwaysAwake(cfg, l, ticks)
    requires Unlocked(l.slots) && ClassifiedTicks(ticks)
    requires i < TS_PACKETS_PER_DATAGRAM * |ticks|
    ensures var inputs := RunLoop(cfg, l, ticks).inputs;
            SlotFits(RunSlots(l.slots, inputs[..i]).state, inputs[i])
  {
    hide Running, RunLoop, RunSlots, AlwaysAwake, Unlocked, SlotFits, ClassifiedTicks;
    var inputs := RunLoop(cfg, l, ticks).inputs;
    LoopIsBounded(cfg, l, ticks);
    LoopSpacing(cfg, l, ticks);
    LoopClassified(cfg, l, ticks);
    LoopKeepsReserve(cfg, l, ticks);
    RatesAreBounded(cfg, inputs);
    SlotsFit(l.slots, inputs, i);
  }
}
