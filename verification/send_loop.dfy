/** The send loop: every iteration updates the controller, picks the transport rate, prepares the
    timeline, fills the seven slots of a datagram and advances the timeline. What the producer does
    in between shows as arbitrary arrivals, byte counts and clock readings. */
module SendLoop {
  import opened TransportStream
  import opened Resync
  import opened Slots
  import opened PcrTimeline
  import opened TokenBucket
  import opened Controller
  import opened Schedule

  datatype LoopState = LoopState(slots: SlotState, control: ControllerState, timeline: Timeline)

  /** One iteration as the environment sets it: clock, newly parsed packets, bytes held, bytes received. */
  datatype Tick = Tick(now: nat, arrivals: seq<TimedTsPacket>, buffered: nat, received: nat)

  datatype LoopRun = LoopRun(state: LoopState, inputs: seq<SlotInput>, wire: seq<Emission>)

  function SlotInputAt(arrivals: seq<TimedTsPacket>, due: nat, pace: nat, rate: nat, j: nat): SlotInput {
    SlotInput(if j == 0 then arrivals else [], due + SlotOffset(j, rate), pace, rate)
  }

  /** The seven slots of a datagram due at `due`. */
  function DatagramSlots(arrivals: seq<TimedTsPacket>, due: nat, pace: nat, rate: nat): (inputs: seq<SlotInput>)
    ensures |inputs| == TS_PACKETS_PER_DATAGRAM
    ensures forall j :: 0 <= j < |inputs| ==> inputs[j] == SlotInputAt(arrivals, due, pace, rate, j)
  {
    seq(TS_PACKETS_PER_DATAGRAM,
        j requires 0 <= j < TS_PACKETS_PER_DATAGRAM => SlotInputAt(arrivals, due, pace, rate, j))
  }

  /** What every iteration starts from: a supported configuration and a controller with its reserve. */
  predicate Running(cfg: Config, l: LoopState) {
    Supported(cfg) && KeepsReserve(cfg, l.control) && Sound(l.timeline)
  }

  lemma {:induction false} ActiveRateInRange(cfg: Config, c: ControllerState)
    requires Supported(cfg) && KeepsReserve(cfg, c)
    ensures InRange(ActiveBitrate(cfg, c.transport)) && ActiveBitrate(cfg, c.transport) == c.transport
  {
  }

  function Iterate(cfg: Config, l: LoopState, tick: Tick): (run: LoopRun)
    requires Running(cfg, l)
    ensures Running(cfg, run.state)
    ensures PositiveRates(run.inputs) && |run.wire| == |run.inputs| == TS_PACKETS_PER_DATAGRAM
  {
    var control := Update(cfg, l.control, tick.now, tick.received, tick.buffered);
    UpdateKeepsReserve(cfg, l.control, tick.now, tick.received, tick.buffered);
    ActiveRateInRange(cfg, control);
    var rate := ActiveBitrate(cfg, control.transport);
    var timeline := Prepare(l.timeline, tick.now, rate);
    var inputs := DatagramSlots(tick.arrivals, timeline.next, control.pace, rate);
    var filled := RunSlots(l.slots, inputs);
    NextDatagramSpacing(timeline, rate);
    LoopRun(LoopState(filled.state, control, Advance(timeline, rate)), inputs, filled.wire)
  }

  function RunLoop(cfg: Config, l: LoopState, ticks: seq<Tick>): (run: LoopRun)
    requires Running(cfg, l)
    ensures Running(cfg, run.state) && PositiveRates(run.inputs)
    ensures |run.wire| == |run.inputs| == TS_PACKETS_PER_DATAGRAM * |ticks|
  {
    if ticks == [] then LoopRun(l, [], [])
    else
      var n := |ticks| - 1;
      var before := RunLoop(cfg, l, ticks[..n]);
      var last := Iterate(cfg, before.state, ticks[n]);
      LoopRun(last.state, before.inputs + last.inputs, before.wire + last.wire)
  }

  /** The loop is a run of slots: what holds of all slot runs holds of what the loop emits. */
  lemma {:induction false} LoopIsSlotRun(cfg: Config, l: LoopState, ticks: seq<Tick>)
    requires Running(cfg, l)
    ensures var run := RunLoop(cfg, l, ticks);
            RunSlots(l.slots, run.inputs) == SlotRun(run.state.slots, run.wire)
    decreases |ticks|
  {
    if ticks != [] {
      var n := |ticks| - 1;
      LoopIsSlotRun(cfg, l, ticks[..n]);
      var before := RunLoop(cfg, l, ticks[..n]);
      var last := Iterate(cfg, before.state, ticks[n]);
      RunSlotsAppend(l.slots, before.inputs, last.inputs);
      hide RunSlots, Update, Prepare, Advance, Running;
    }
  }

  // Timing of the slots of every run

  const MINIMUM_SPACING := 7_520

  /** Any two slots are at least `spacing` apart. */
  predicate SpacedAtLeast(inputs: seq<SlotInput>, spacing: nat) {
    forall i, j :: 0 <= i < j < |inputs| ==> inputs[i].time + spacing <= inputs[j].time
  }

  lemma {:induction false} SpacedAppend(a: seq<SlotInput>, b: seq<SlotInput>, spacing: nat)
    requires SpacedAtLeast(a, spacing) && SpacedAtLeast(b, spacing)
    requires a != [] && b != [] ==> LastTime(a) + spacing <= b[0].time
    ensures SpacedAtLeast(a + b, spacing)
  {
    forall i, j | 0 <= i < j < |a + b| ensures (a + b)[i].time + spacing <= (a + b)[j].time {
      if i < |a| <= j {
        assert a[i].time <= LastTime(a) && b[0].time <= b[j - |a|].time;
      }
    }
  }

  lemma {:induction false} GapsAppend(a: seq<SlotInput>, b: seq<SlotInput>, gap: nat)
    requires GapsAtMost(a, gap) && GapsAtMost(b, gap)
    requires a != [] && b != [] ==> b[0].time <= LastTime(a) + gap
    ensures GapsAtMost(a + b, gap)
  {
  }

  /** The seven slots of a datagram: their first, last and mutual distances. */
  lemma {:induction false} DatagramTiming(arrivals: seq<TimedTsPacket>, due: nat, pace: nat, rate: nat)
    requires InRange(rate)
    ensures var inputs := DatagramSlots(arrivals, due, pace, rate);
            && inputs[0].time == due && LastTime(inputs) == due + SlotOffset(6, rate)
            && SpacedAtLeast(inputs, SpacingBelow(rate))
            && GapsAtMost(inputs, SpacingBelow(rate) + 2)
  {
    hide SlotOffset, SpacingBelow;
    SlotsAreSpaced(0, rate);
    SlotsAreSpaced(1, rate);
    SlotsAreSpaced(2, rate);
    SlotsAreSpaced(3, rate);
    SlotsAreSpaced(4, rate);
    SlotsAreSpaced(5, rate);
    var inputs := DatagramSlots(arrivals, due, pace, rate);
    assert inputs[6] == SlotInputAt(arrivals, due, pace, rate, 6);
  }

  /** The rate of an iteration, and whether its datagram is late beyond the threshold. */
  function RateAt(cfg: Config, l: LoopState, tick: Tick): (rate: nat)
    requires Running(cfg, l)
    ensures InRange(rate) && rate == Iterate(cfg, l, tick).state.control.transport
  {
    UpdateKeepsReserve(cfg, l.control, tick.now, tick.received, tick.buffered);
    var control := Update(cfg, l.control, tick.now, tick.received, tick.buffered);
    ActiveRateInRange(cfg, control);
    ActiveBitrate(cfg, control.transport)
  }

  /** The clock reads no more than four datagram intervals past the due time. */
  predicate InTime(cfg: Config, l: LoopState, tick: Tick)
    requires Running(cfg, l)
  {
    tick.now <= l.timeline.next + 4 * (10_528_000_000_000 / RateAt(cfg, l, tick))
  }

  /** A VBR iteration works at 500 kbit/s or at 120 kbit/s above its pace, whichever is more. */
  lemma {:induction false} VbrRateIsLeast(cfg: Config, l: LoopState, tick: Tick)
    requires Running(cfg, l) && cfg.mode == Vbr
    ensures LeastVbrRate(RateAt(cfg, l, tick), Iterate(cfg, l, tick).state.control.pace)
  {
    hide Update, Prepare, Advance, RunSlots, LeastVbrRate;
  }

  /** An iteration: the controller is updated first, from the clock, the bytes received and the bytes held;
      its new pace and rate hold for all seven slots, and what arrived is there for the first. */
  lemma {:induction false} IterationOrder(cfg: Config, l: LoopState, tick: Tick)
    requires Running(cfg, l)
    ensures var r := Iterate(cfg, l, tick);
            && r.state.control == Update(cfg, l.control, tick.now, tick.received, tick.buffered)
            && |r.inputs| == 7 && r.inputs[0].arrivals == tick.arrivals
            && forall j :: 0 <= j < 7 ==>
                 && r.inputs[j].pace == r.state.control.pace && r.inputs[j].rate == r.state.control.transport
                 && (j > 0 ==> r.inputs[j].arrivals == [])
  {
    UpdateKeepsReserve(cfg, l.control, tick.now, tick.received, tick.buffered);
    ActiveRateInRange(cfg, Update(cfg, l.control, tick.now, tick.received, tick.buffered));
    hide Update, Prepare, Advance, RunSlots, SlotOffset, KeepsReserve;
  }

  lemma {:induction false} PrepareTiming(t: Timeline, now: nat, rate: nat)
    requires rate > 0 && Sound(t)
    ensures var p := Prepare(t, now, rate);
            && p.next >= t.next && p.bitrate == rate && p.remainder < rate
            && p.next == (if now <= t.next + 4 * (10_528_000_000_000 / rate) then t.next else now)
            && (p.next == t.next && t.bitrate == rate && now <= t.next ==> p == t)
  {
  }

  /** One iteration: its slots follow those before it, and the next datagram follows its slots. */
  lemma {:induction false} IterateTiming(cfg: Config, l: LoopState, tick: Tick)
    requires Running(cfg, l)
    ensures var r := Iterate(cfg, l, tick);
            var rate := RateAt(cfg, l, tick);
            && r.inputs[0].time >= l.timeline.next
            && r.inputs[0].time == (if InTime(cfg, l, tick) then l.timeline.next else tick.now)
            && SpacedAtLeast(r.inputs, MINIMUM_SPACING)
            && GapsAtMost(r.inputs, SpacingBelow(rate) + 2)
            && LastTime(r.inputs) + MINIMUM_SPACING <= r.state.timeline.next
                 <= LastTime(r.inputs) + SpacingBelow(rate) + 2
  {
    var rate := RateAt(cfg, l, tick);
    var timeline := Prepare(l.timeline, tick.now, rate);
    PrepareTiming(l.timeline, tick.now, rate);
    SpacingBounds(rate);
    NextDatagramSpacing(timeline, rate);
    var control := Update(cfg, l.control, tick.now, tick.received, tick.buffered);
    DatagramTiming(tick.arrivals, timeline.next, control.pace, rate);
    hide RunSlots, Update, Prepare, Advance, SpacingBelow, SlotOffset, SlotGap, Late, KeepsReserve;
  }

  predicate ClassifiedTicks(ticks: seq<Tick>) {
    forall k :: 0 <= k < |ticks| ==> Classified(ticks[k].arrivals)
  }

  /** Over every run of the loop, rate changes and late resets included, any two slots are at least
      7,520 ns apart, in order; the next datagram is due behind them all. */
  lemma {:induction false} LoopSpacing(cfg: Config, l: LoopState, ticks: seq<Tick>)
    requires Running(cfg, l)
    ensures var run := RunLoop(cfg, l, ticks);
            && SpacedAtLeast(run.inputs, MINIMUM_SPACING)
            && Increasing(run.inputs)
            && (ticks != [] ==> LastTime(run.inputs) + MINIMUM_SPACING <= run.state.timeline.next)
    decreases |ticks|
  {
    if ticks != [] {
      var n := |ticks| - 1;
      LoopSpacing(cfg, l, ticks[..n]);
      var before := RunLoop(cfg, l, ticks[..n]);
      IterateTiming(cfg, before.state, ticks[n]);
      hide Iterate, Running, SpacingBelow, InTime, RateAt;
      SpacedAppend(before.inputs, Iterate(cfg, before.state, ticks[n]).inputs, MINIMUM_SPACING);
    }
  }

  /** What every slot input of a run keeps: the rate in range, the pace below it, the reserve of the mode. */
  predicate InputKeepsReserve(cfg: Config, input: SlotInput) {
    && InRange(input.rate) && input.pace <= input.rate
    && match cfg.mode
       case Cbr => input.rate == cfg.target && (cfg.target > 100_000 ==> input.pace + CBR_RESERVE <= input.rate)
       case Vbr => LeastVbrRate(input.rate, input.pace)
  }

  predicate AllKeepReserve(cfg: Config, inputs: seq<SlotInput>) {
    forall i :: 0 <= i < |inputs| ==> InputKeepsReserve(cfg, inputs[i])
  }

  lemma {:induction false} IterateKeepsReserve(cfg: Config, l: LoopState, tick: Tick)
    requires Running(cfg, l)
    ensures AllKeepReserve(cfg, Iterate(cfg, l, tick).inputs)
  {
    var control := Update(cfg, l.control, tick.now, tick.received, tick.buffered);
    UpdateKeepsReserve(cfg, l.control, tick.now, tick.received, tick.buffered);
    ActiveRateInRange(cfg, control);
    hide RunSlots, Update, Prepare, Advance, SlotOffset, Classified;
  }

  /** In every run, every slot leaves the PCR packets their share of the transport rate. */
  lemma {:induction false} LoopKeepsReserve(cfg: Config, l: LoopState, ticks: seq<Tick>)
    requires Running(cfg, l)
    ensures AllKeepReserve(cfg, RunLoop(cfg, l, ticks).inputs)
    decreases |ticks|
  {
    if ticks != [] {
      var n := |ticks| - 1;
      LoopKeepsReserve(cfg, l, ticks[..n]);
      hide Iterate, Running, InputKeepsReserve;
      IterateKeepsReserve(cfg, RunLoop(cfg, l, ticks[..n]).state, ticks[n]);
    }
  }

  lemma {:induction false} IterateClassified(cfg: Config, l: LoopState, tick: Tick)
    requires Running(cfg, l) && Classified(tick.arrivals)
    ensures ClassifiedArrivals(Iterate(cfg, l, tick).inputs)
  {
    hide RunSlots, Update, Prepare, Advance, SlotOffset, Classify, KeepsReserve;
  }

  lemma {:induction false} LoopClassified(cfg: Config, l: LoopState, ticks: seq<Tick>)
    requires Running(cfg, l) && ClassifiedTicks(ticks)
    ensures ClassifiedArrivals(RunLoop(cfg, l, ticks).inputs)
    decreases |ticks|
  {
    hide Iterate, Running, Classified;
    if ticks != [] {
      var n := |ticks| - 1;
      LoopClassified(cfg, l, ticks[..n]);
      IterateClassified(cfg, RunLoop(cfg, l, ticks[..n]).state, ticks[n]);
    }
  }

  function TickArrivals(ticks: seq<Tick>): seq<TimedTsPacket> {
    if ticks == [] then [] else TickArrivals(ticks[..|ticks| - 1]) + ticks[|ticks| - 1].arrivals
  }

  lemma {:induction false} ArrivalsAppend(a: seq<SlotInput>, b: seq<SlotInput>)
    ensures Arrivals(a + b) == Arrivals(a) + Arrivals(b)
    decreases |b|
  {
    if b == [] {
      assert a + b == a;
    } else {
      assert (a + b)[..|a + b| - 1] == a + b[..|b| - 1];
      ArrivalsAppend(a, b[..|b| - 1]);
    }
  }

  lemma {:induction false} NoArrivals(inputs: seq<SlotInput>)
    requires inputs != [] && forall j :: 0 < j < |inputs| ==> inputs[j].arrivals == []
    ensures Arrivals(inputs) == inputs[0].arrivals
    decreases |inputs|
  {
    if |inputs| > 1 {
      NoArrivals(inputs[..|inputs| - 1]);
    } else {
      assert Arrivals(inputs[..0]) == [];
    }
  }

  /** First in, first out through the whole loop. */
  lemma {:induction false} LoopIsFifo(cfg: Config, l: LoopState, ticks: seq<Tick>)
    requires Running(cfg, l)
    ensures var run := RunLoop(cfg, l, ticks);
            Sources(run.wire) + run.state.slots.packets == l.slots.packets + TickArrivals(ticks)
  {
    LoopIsSlotRun(cfg, l, ticks);
    SlotsAreFifo(l.slots, RunLoop(cfg, l, ticks).inputs);
    LoopArrivals(cfg, l, ticks);
    hide RunSlots, RunLoop;
  }

  lemma {:induction false} LoopArrivals(cfg: Config, l: LoopState, ticks: seq<Tick>)
    requires Running(cfg, l)
    ensures Arrivals(RunLoop(cfg, l, ticks).inputs) == TickArrivals(ticks)
    decreases |ticks|
  {
    if ticks != [] {
      var n := |ticks| - 1;
      LoopArrivals(cfg, l, ticks[..n]);
      var before := RunLoop(cfg, l, ticks[..n]);
      var last := Iterate(cfg, before.state, ticks[n]).inputs;
      NoArrivals(last);
      ArrivalsAppend(before.inputs, last);
      hide RunSlots, Update, Prepare, Advance, SlotOffset, Running;
    }
  }

  // Runs without a late reset

  ghost predicate AlwaysInTime(cfg: Config, l: LoopState, ticks: seq<Tick>)
    requires Running(cfg, l)
  {
    forall k :: 0 <= k < |ticks| ==> InTime(cfg, RunLoop(cfg, l, ticks[..k]).state, ticks[k])
  }

  lemma {:induction false} AlwaysInTimeEarlier(cfg: Config, l: LoopState, ticks: seq<Tick>)
    requires Running(cfg, l) && ticks != [] && AlwaysInTime(cfg, l, ticks)
    ensures AlwaysInTime(cfg, l, ticks[..|ticks| - 1])
    ensures InTime(cfg, RunLoop(cfg, l, ticks[..|ticks| - 1]).state, ticks[|ticks| - 1])
  {
    hide InTime, RunLoop;
    var earlier := ticks[..|ticks| - 1];
    forall k | 0 <= k < |earlier| ensures InTime(cfg, RunLoop(cfg, l, earlier[..k]).state, earlier[k]) {
      assert earlier[..k] == ticks[..k];
    }
  }

  /** A slot spacing no rate of the configuration exceeds. */
  predicate GapFor(cfg: Config, gap: nat)
    requires Supported(cfg)
  {
    if cfg.mode == Cbr then SpacingBelow(cfg.target) + 2 <= gap else SpacingBelow(MINIMUM_VBR_RATE) + 2 <= gap
  }

  lemma {:induction false} GapCoversRate(cfg: Config, l: LoopState, tick: Tick, gap: nat)
    requires Running(cfg, l) && GapFor(cfg, gap)
    ensures SpacingBelow(RateAt(cfg, l, tick)) + 2 <= gap
  {
    var control := Update(cfg, l.control, tick.now, tick.received, tick.buffered);
    UpdateKeepsReserve(cfg, l.control, tick.now, tick.received, tick.buffered);
    var rate := RateAt(cfg, l, tick);
    hide Update;
    if cfg.mode == Vbr {
      SlowerIsWider(MINIMUM_VBR_RATE, rate);
    }
  }

  lemma {:induction false} SlowerIsWider(slow: nat, fast: nat)
    requires 0 < slow <= fast
    ensures SpacingBelow(fast) <= SpacingBelow(slow)
  {
    Arithmetic.TimesAtMost(SpacingBelow(fast), slow, fast);
    Arithmetic.DivisionAtLeast(SLOT_NUMERATOR, slow, SpacingBelow(fast));
  }

  /** A slot spacing no rate of the run exceeds, rounding included. */
  ghost predicate GapOfRun(cfg: Config, l: LoopState, ticks: seq<Tick>, gap: nat)
    requires Running(cfg, l)
  {
    forall k :: 0 <= k < |ticks| ==> SpacingBelow(RateAt(cfg, RunLoop(cfg, l, ticks[..k]).state, ticks[k])) + 2 <= gap
  }

  lemma {:induction false} GapOfConfig(cfg: Config, l: LoopState, ticks: seq<Tick>, gap: nat)
    requires Running(cfg, l) && GapFor(cfg, gap)
    ensures GapOfRun(cfg, l, ticks, gap)
  {
    hide RunLoop, SpacingBelow, RateAt, GapFor;
    forall k | 0 <= k < |ticks|
      ensures SpacingBelow(RateAt(cfg, RunLoop(cfg, l, ticks[..k]).state, ticks[k])) + 2 <= gap
    {
      GapCoversRate(cfg, RunLoop(cfg, l, ticks[..k]).state, ticks[k], gap);
    }
  }

  lemma {:induction false} GapOfRunEarlier(cfg: Config, l: LoopState, ticks: seq<Tick>, gap: nat)
    requires Running(cfg, l) && ticks != [] && GapOfRun(cfg, l, ticks, gap)
    ensures var n := |ticks| - 1;
            && GapOfRun(cfg, l, ticks[..n], gap)
            && SpacingBelow(RateAt(cfg, RunLoop(cfg, l, ticks[..n]).state, ticks[n])) + 2 <= gap
  {
    hide RunLoop, SpacingBelow, RateAt, Running;
    var earlier := ticks[..|ticks| - 1];
    forall k | 0 <= k < |earlier|
      ensures SpacingBelow(RateAt(cfg, RunLoop(cfg, l, earlier[..k]).state, earlier[k])) + 2 <= gap
    {
      assert earlier[..k] == ticks[..k];
    }
  }

  lemma {:induction false} LoopGaps(cfg: Config, l: LoopState, ticks: seq<Tick>, gap: nat)
    requires Running(cfg, l) && AlwaysInTime(cfg, l, ticks) && GapOfRun(cfg, l, ticks, gap)
    ensures var run := RunLoop(cfg, l, ticks);
            && GapsAtMost(run.inputs, gap)
            && (ticks != [] ==> run.state.timeline.next <= LastTime(run.inputs) + gap)
    decreases |ticks|
  {
    hide Iterate, Running, SpacingBelow, InTime, RateAt, AlwaysInTime, GapOfRun;
    if ticks != [] {
      var n := |ticks| - 1;
      AlwaysInTimeEarlier(cfg, l, ticks);
      GapOfRunEarlier(cfg, l, ticks, gap);
      LoopGaps(cfg, l, ticks[..n], gap);
      var before := RunLoop(cfg, l, ticks[..n]);
      IterateTiming(cfg, before.state, ticks[n]);
      GapsAppend(before.inputs, Iterate(cfg, before.state, ticks[n]).inputs, gap);
    }
  }

  // What the receiver gets

  /** Slot i of a run, as the receiver sees it: a PCR is found if and only if its packet was generated
      or is the first one sent that came with a PCR, and it is the clock of its slot. */
  ghost predicate PcrAsExpected(run: LoopRun, i: nat)
    requires i < |run.wire|
  {
    var e := run.wire[i];
    && (Pcr.ParsePcr(e.bytes).found <==> e.origin.Generated? || (PcrSource(e) && NoPcrSource(run.wire[..i])))
    && (Pcr.ParsePcr(e.bytes).found ==> OnClock(e, run.state.slots))
  }

  predicate PcrsFound(run: LoopRun, i: nat, j: nat)
    requires i < |run.wire| && j < |run.wire|
  {
    Pcr.ParsePcr(run.wire[i].bytes).found && Pcr.ParsePcr(run.wire[j].bytes).found
  }

  /** Every run of the loop: a PCR is found in exactly the lock packet and the generated packets, it
      is the clock of its slot, and of any two the later one is ahead. */
  lemma {:induction false} LoopTimeline(cfg: Config, l: LoopState, ticks: seq<Tick>, i: nat)
    requires Running(cfg, l) && Unlocked(l.slots) && ClassifiedTicks(ticks)
    requires i < TS_PACKETS_PER_DATAGRAM * |ticks|
    ensures var run := RunLoop(cfg, l, ticks);
            && PcrAsExpected(run, i)
            && forall j | i < j < |run.wire| && PcrsFound(run, i, j) ::
                 && run.state.slots.originNs <= run.wire[i].time && run.state.slots.originNs <= run.wire[j].time
                 && UnwrappedPcr(run.state.slots, run.wire[i].time) < UnwrappedPcr(run.state.slots, run.wire[j].time)
  {
    var run := RunLoop(cfg, l, ticks);
    LoopIsSlotRun(cfg, l, ticks);
    LoopSpacing(cfg, l, ticks);
    LoopClassified(cfg, l, ticks);
    hide RunLoop, RunSlots, NoPcrSource, Unlocked, Running, Pcr.ParsePcr;
    ReceiverTimeline(l.slots, run.inputs, i);
    hide UnwrappedPcr;
    forall j | i < j < |run.wire| && PcrsFound(run, i, j)
      ensures run.state.slots.originNs <= run.wire[i].time && run.state.slots.originNs <= run.wire[j].time
      ensures UnwrappedPcr(run.state.slots, run.wire[i].time) < UnwrappedPcr(run.state.slots, run.wire[j].time)
    {
      TimesIncrease(run, i, j);
    }
  }

  lemma {:induction false} TimesIncrease(run: LoopRun, i: nat, j: nat)
    requires |run.wire| == |run.inputs| && SpacedAtLeast(run.inputs, MINIMUM_SPACING)
    requires forall k :: 0 <= k < |run.wire| ==> run.wire[k].time == run.inputs[k].time
    requires i < j < |run.wire|
    ensures OnClock(run.wire[i], run.state.slots) ==>
              && run.state.slots.originNs <= run.wire[j].time
              && UnwrappedPcr(run.state.slots, run.wire[i].time) < UnwrappedPcr(run.state.slots, run.wire[j].time)
  {
    assert run.inputs[i].time + MINIMUM_SPACING <= run.inputs[j].time;
    if OnClock(run.wire[i], run.state.slots) {
      PcrsIncrease(run.state.slots, run.wire[i].time, run.wire[j].time);
    }
  }

  const WIDEST_SLOT_GAP := 15_040_002

  lemma {:induction false} WidestGap(cfg: Config)
    requires Supported(cfg) && (cfg.mode == Cbr ==> cfg.target >= 100_000)
    ensures GapFor(cfg, WIDEST_SLOT_GAP)
  {
    if cfg.mode == Cbr { SpacingBounds(cfg.target); } else { SpacingBounds(MINIMUM_VBR_RATE); }
  }

  /** Neighbouring times increase, by less than `bound`. */
  predicate Within(times: seq<nat>, bound: nat) {
    forall k :: 0 <= k < |times| - 1 ==> times[k] < times[k + 1] < times[k] + bound
  }

  /** Without a late reset, and with slots no more than 20 ms apart, no PCR interval is missed: generated
      packet k goes out less than one slot gap of the run after 20 ms * (k + 1) from the lock, and
      neighbouring PCRs are less than 20 ms and one such gap apart. */
  lemma {:induction false} LoopCadence(cfg: Config, l: LoopState, ticks: seq<Tick>, gap: nat)
    requires Running(cfg, l) && Unlocked(l.slots)
    requires AlwaysInTime(cfg, l, ticks)
    requires GapOfRun(cfg, l, ticks, gap) && 0 < gap <= PERIODIC_PCR_INTERVAL_NS
    ensures var run := RunLoop(cfg, l, ticks);
            && (run.state.slots.locked ==> AllOnTime(run.state.slots, gap, GeneratedTimes(run.wire)))
            && Within([run.state.slots.originNs] + GeneratedTimes(run.wire), PERIODIC_PCR_INTERVAL_NS + gap)
  {
    hide RunLoop, RunSlots, AllOnTime, Running, Unlocked;
    hide AlwaysInTime, GapOfRun, GapsAtMost, GeneratedTimes, SpacedAtLeast, Increasing;
    LoopIsSlotRun(cfg, l, ticks);
    LoopSpacing(cfg, l, ticks);
    LoopGaps(cfg, l, ticks, gap);
    var run := RunLoop(cfg, l, ticks);
    RunOnTime(l.slots, run.inputs, gap);
    var times := [run.state.slots.originNs] + GeneratedTimes(run.wire);
    forall k | 0 <= k < |times| - 1 ensures times[k] < times[k + 1] < times[k] + PERIODIC_PCR_INTERVAL_NS + gap {
      PcrSpacing(l.slots, run.inputs, gap, k);
    }
  }

  /** Every VBR configuration, and every CBR one from 100 kbit/s on: without a late reset neighbouring
      PCRs are less than 36 ms apart, where ISO/IEC 13818-1, section 2.7.2, allows 100 ms. */
  lemma {:induction false} LoopMeetsPcrLimit(cfg: Config, l: LoopState, ticks: seq<Tick>)
    requires Running(cfg, l) && Unlocked(l.slots)
    requires cfg.mode == Cbr ==> cfg.target >= 100_000
    requires AlwaysInTime(cfg, l, ticks)
    ensures var run := RunLoop(cfg, l, ticks);
            && (run.state.slots.locked ==> run.state.slots.missed == 0)
            && Within([run.state.slots.originNs] + GeneratedTimes(run.wire), 36_000_000)
  {
    WidestGap(cfg);
    GapOfConfig(cfg, l, ticks, WIDEST_SLOT_GAP);
    LoopCadence(cfg, l, ticks, WIDEST_SLOT_GAP);
    hide RunLoop, GapOfRun, AlwaysInTime;
  }

  lemma {:induction false} CbrInputs(cfg: Config, inputs: seq<SlotInput>)
    requires cfg.mode == Cbr && cfg.target > 100_000 && AllKeepReserve(cfg, inputs)
    ensures ConstantRate(inputs, cfg.target) && Reserved(inputs, cfg.target)
  {
    forall i | 0 <= i < |inputs| ensures inputs[i].rate == cfg.target && inputs[i].pace + CBR_RESERVE <= cfg.target {
      assert InputKeepsReserve(cfg, inputs[i]);
    }
  }

  /** CBR above 100 kbit/s, without a late reset, meets what the token bound asks of slot inputs. */
  ghost predicate TokenBoundApplies(l: LoopState, inputs: seq<SlotInput>, rate: nat, gap: nat) {
    && Unlocked(l.slots) && PositiveRates(inputs) && Increasing(inputs) && GapsAtMost(inputs, gap)
    && AboveReserve(rate) && SlotGap(rate, gap)
    && ConstantRate(inputs, rate) && Reserved(inputs, rate)
  }

  lemma {:induction false} LoopMeetsTokenBound(cfg: Config, l: LoopState, ticks: seq<Tick>)
    requires Running(cfg, l) && Unlocked(l.slots)
    requires cfg.mode == Cbr && cfg.target > 100_000
    requires AlwaysInTime(cfg, l, ticks)
    ensures TokenBoundApplies(l, RunLoop(cfg, l, ticks).inputs, cfg.target, SpacingBelow(cfg.target) + 2)
  {
    hide RunLoop, AlwaysInTime, Unlocked, SpacingBelow, Increasing;
    hide GapsAtMost, SlotGap, ConstantRate, Reserved, SpacedAtLeast;
    SpacingBounds(cfg.target);
    LoopSpacing(cfg, l, ticks);
    GapOfConfig(cfg, l, ticks, SpacingBelow(cfg.target) + 2);
    LoopGaps(cfg, l, ticks, SpacingBelow(cfg.target) + 2);
    LoopKeepsReserve(cfg, l, ticks);
    CbrInputs(cfg, RunLoop(cfg, l, ticks).inputs);
  }

  /** CBR above 100 kbit/s, without a late reset: the accumulator stays below twice the target at
      every slot. */
  lemma {:induction false} LoopTokens(cfg: Config, l: LoopState, ticks: seq<Tick>, k: nat)
    requires Running(cfg, l) && Unlocked(l.slots)
    requires cfg.mode == Cbr && cfg.target > 100_000
    requires AlwaysInTime(cfg, l, ticks)
    requires k <= TS_PACKETS_PER_DATAGRAM * |ticks|
    ensures RunSlots(l.slots, RunLoop(cfg, l, ticks).inputs[..k]).state.tokens < 2 * cfg.target
  {
    LoopMeetsTokenBound(cfg, l, ticks);
    hide RunLoop, RunSlots, Running, Unlocked, AlwaysInTime, SpacingBelow, SlotGap, Increasing, GapsAtMost, Reserved;
    WindowIsSolvent(l.slots, RunLoop(cfg, l, ticks).inputs, k, cfg.target, SpacingBelow(cfg.target) + 2);
  }

  lemma {:induction false} TokenBoundPrefix(l: LoopState, inputs: seq<SlotInput>, rate: nat, gap: nat, m: nat)
    requires TokenBoundApplies(l, inputs, rate, gap) && m <= |inputs|
    ensures TokenBoundApplies(l, inputs[..m], rate, gap)
  {
  }

  /** And over any window of slots, k to m, with something to send, the packets sent are those the pace
      allows, give or take less than two. */
  lemma {:induction false} LoopPaceIsAccurate(cfg: Config, l: LoopState, ticks: seq<Tick>, k: nat, m: nat)
    requires Running(cfg, l) && Unlocked(l.slots)
    requires cfg.mode == Cbr && cfg.target > 100_000
    requires AlwaysInTime(cfg, l, ticks)
    requires k <= m <= TS_PACKETS_PER_DATAGRAM * |ticks|
    ensures var inputs := RunLoop(cfg, l, ticks).inputs;
            var before := RunSlots(l.slots, inputs[..k]).state;
            var window := RunSlots(before, inputs[k..m]);
            Backlogged(before, inputs[k..m]) ==>
              -2 * cfg.target < cfg.target * |Sources(window.wire)| - SumPace(inputs[k..m]) < 2 * cfg.target
  {
    var inputs, gap := RunLoop(cfg, l, ticks).inputs, SpacingBelow(cfg.target) + 2;
    LoopMeetsTokenBound(cfg, l, ticks);
    TokenBoundPrefix(l, inputs, cfg.target, gap, m);
    hide RunLoop, RunSlots, Running, Unlocked, AlwaysInTime, Backlogged;
    hide SpacingBelow, SlotGap, Increasing, GapsAtMost, Reserved, ConstantRate;
    assert inputs[..m][..k] == inputs[..k] && inputs[..m][k..] == inputs[k..m];
    if Backlogged(RunSlots(l.slots, inputs[..k]).state, inputs[k..m]) {
      RealPaceIsAccurate(l.slots, inputs[..m], k, cfg.target, gap);
    }
  }

  lemma {:induction false} AlwaysInTimePrefix(cfg: Config, l: LoopState, ticks: seq<Tick>, k: nat)
    requires Running(cfg, l) && k < |ticks| && AlwaysInTime(cfg, l, ticks)
    ensures AlwaysInTime(cfg, l, ticks[..k]) && InTime(cfg, RunLoop(cfg, l, ticks[..k]).state, ticks[k])
  {
    hide InTime, RunLoop, Running;
    forall i | 0 <= i < k ensures InTime(cfg, RunLoop(cfg, l, ticks[..k][..i]).state, ticks[..k][i]) {
      assert ticks[..k][..i] == ticks[..i];
    }
  }
}
