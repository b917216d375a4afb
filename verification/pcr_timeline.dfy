/** What a receiver that parses the emitted packets sees of the program clock, over every run. */
module PcrTimeline {
  import opened TransportStream
  import opened Pcr
  import opened Resync
  import opened Slots

  /** A run starts before the clock is locked, with packets queued as `queueChunk` queues them. */
  predicate Unlocked(s: SlotState) {
    && !s.locked && s.inserted == 0 && s.missed == 0 && s.tokens == 0
    && !s.pcrCcValid && s.nullCc == 0 && s.pcrPid < 8192
    && Classified(s.packets)
  }

  predicate ClassifiedArrivals(inputs: seq<SlotInput>) {
    forall i :: 0 <= i < |inputs| ==> Classified(inputs[i].arrivals)
  }

  /** A queued packet that came with a PCR of its own. */
  predicate PcrSource(e: Emission) {
    e.origin.Real? && e.origin.source.hasPcr
  }

  ghost predicate NoPcrSource(wire: seq<Emission>) {
    forall j :: 0 <= j < |wire| ==> !PcrSource(wire[j])
  }

  predicate SameClock(a: SlotState, b: SlotState) {
    b.locked && a.originTicks == b.originTicks && a.originNs == b.originNs && a.pcrPid == b.pcrPid
  }

  /** The clock value at a slot time, not reduced modulo 300 * 2^33. */
  function UnwrappedPcr(s: SlotState, time: nat): nat
    requires s.originNs <= time
  {
    s.originTicks + NanosecondsToPcrTicks(time - s.originNs)
  }

  /** What a receiver reads from a packet: a PCR, on the PCR PID, of the clock the state describes. */
  ghost predicate OnClock(e: Emission, s: SlotState) {
    && s.locked && s.originNs <= e.time && Pid(e.bytes) == s.pcrPid
    && ParsePcr(e.bytes).ticks == UnwrappedPcr(s, e.time) % PCR_TICKS_MODULUS
  }

  lemma {:induction false} FrameParses(pid: nat, cc: nat)
    requires pid < 8192
    ensures var frame := PcrPacketFrame(pid, cc);
            && CarriesPcr(frame) && !ParsePcr(frame).discontinuity && Pid(frame) == pid
            && !HasPayload(frame) && ContinuityCounter(frame) == cc % 16
  {
  }

  /** Writing a PCR leaves the packet header alone. */
  lemma {:induction false} HeaderKept(p: Packet, t: nat)
    ensures var q := WithPcr(p, t);
            && q[0] == p[0] && Pid(q) == Pid(p)
            && HasPayload(q) == HasPayload(p) && ContinuityCounter(q) == ContinuityCounter(p)
  {
    hide PcrBytes;
    assert forall i :: 0 <= i < 6 ==> WithPcr(p, t)[i] == p[i];
  }

  lemma {:induction false} PcrAtReduced(s: SlotState, time: nat)
    ensures PcrAt(s, time) % PCR_TICKS_MODULUS == PcrAt(s, time)
  {
  }

  lemma {:induction false} GeneratedPacketParses(s: SlotState, time: nat)
    requires s.pcrPid < 8192
    ensures ParsePcr(PcrPacketAt(s, time)).found
    ensures ParsePcr(PcrPacketAt(s, time)).ticks == PcrAt(s, time)
    ensures !ParsePcr(PcrPacketAt(s, time)).discontinuity
    ensures Pid(PcrPacketAt(s, time)) == s.pcrPid
    ensures !HasPayload(PcrPacketAt(s, time))
    ensures ContinuityCounter(PcrPacketAt(s, time)) == if s.pcrCcValid then s.pcrCc % 16 else 0
  {
    var cc := if s.pcrCcValid then s.pcrCc else 0;
    var frame := PcrPacketFrame(s.pcrPid, cc);
    FrameParses(s.pcrPid, cc);
    PcrAtReduced(s, time);
    hide PcrPacketFrame, WithPcr, ParsePcr, CarriesPcr, Pid, HasPayload, ContinuityCounter, PcrAt;
    PcrRoundTrip(frame, PcrAt(s, time));
    HeaderKept(frame, PcrAt(s, time));
  }

  lemma {:induction false} NullPacketParses(cc: nat)
    ensures !ParsePcr(NullPacket(cc)).found && Pid(NullPacket(cc)) == NULL_PID
    ensures NullPacket(cc)[0] == SYNC_BYTE && NullPacket(cc)[1] == 0x1F
  {
  }

  /** A generated packet, byte by byte: header without indicators, an adaptation field over all of the rest
      with nothing but the PCR flag, the PCR, stuffing. */
  lemma {:induction false} GeneratedPacketInBytes(s: SlotState, time: nat)
    requires s.pcrPid < 8192
    ensures var p := PcrPacketAt(s, time);
            && p[0] == 0x47 && p[1] < 0x20 && 256 * p[1] as int + p[2] as int == s.pcrPid
            && p[3] / 16 == 2 && p[4] == 183 && p[5] == 0x10
            && forall i :: 12 <= i < TS_PACKET_SIZE ==> p[i] == 0xFF
  {
    var cc := if s.pcrCcValid then s.pcrCc else 0;
    var frame := PcrPacketFrame(s.pcrPid, cc);
    WrittenFields(frame, PcrAt(s, time));
    hide PcrAt, WithPcr;
  }

  /** The bytes a queued packet leaves with: its PCR is kept, exactly, by the packet that locks the
      clock, and gone from every other. */
  lemma {:induction false} SentPacketParses(locked: bool, packet: TimedTsPacket)
    requires packet == Classify(packet.bytes)
    ensures ParsePcr(SentBytes(locked, packet)).found <==> packet.hasPcr && !locked
    ensures packet.hasPcr && !locked ==>
              ParsePcr(SentBytes(locked, packet)).ticks == packet.sourcePcrTicks
                == packet.sourcePcrTicks % PCR_TICKS_MODULUS
    ensures Pid(SentBytes(locked, packet)) == packet.pid
  {
    PcrRoundTrip(packet.bytes, packet.sourcePcrTicks);
    StrippedPcr(packet.bytes);
    SentUnchangedOutsidePcr(locked, packet);
    if packet.hasPcr {
      FieldTicksReduced(packet.bytes);
    }
  }

  lemma {:induction false} FieldTicksReduced(p: Packet)
    ensures ParsePcr(p).ticks % PCR_TICKS_MODULUS == ParsePcr(p).ticks
  {
  }

  /** What a slot does to the generated clock. */
  lemma {:induction false} StepLock(s: SlotState, input: SlotInput)
    requires input.rate > 0
    ensures var r := Step(s, input);
            && (r.state.locked <==> s.locked || PcrSource(r.emission))
            && (s.locked ==> SameClock(s, r.state))
            && (r.emission.origin.Generated? ==> s.locked)
            && (PcrSource(r.emission) && !s.locked ==>
                  && r.state.pcrPid == r.emission.origin.source.pid
                  && r.state.originTicks == r.emission.origin.source.sourcePcrTicks
                  && r.state.originNs == input.time)
            && (!s.locked && !PcrSource(r.emission) ==> r.state.pcrPid == s.pcrPid)
  {
  }

  /** PCRs of queued packets are counted: one rewritten to lock the clock, every other stripped. */
  lemma {:induction false} StepCountsPcrs(s: SlotState, input: SlotInput)
    requires input.rate > 0
    ensures var r := Step(s, input);
            && r.state.rewritten == s.rewritten + (if PcrSource(r.emission) && !s.locked then 1 else 0)
            && r.state.stripped == s.stripped + (if PcrSource(r.emission) && s.locked then 1 else 0)
  {
    hide PcrPacketAt, NullPacket, SentBytes;
  }

  lemma {:induction false} StepBytes(s: SlotState, input: SlotInput)
    requires input.rate > 0
    ensures var e := Step(s, input).emission;
            && e.time == input.time
            && e.bytes == match e.origin
                          case Real(source) => SentBytes(s.locked, source)
                          case Generated => PcrPacketAt(s, input.time)
                          case Null => NullPacket(s.nullCc)
  {
  }

  lemma {:induction false} StepClassified(s: SlotState, input: SlotInput)
    requires input.rate > 0
    requires Classified(s.packets) && Classified(input.arrivals)
    ensures Classified(Step(s, input).state.packets)
    ensures var origin := Step(s, input).emission.origin;
            origin.Real? ==> origin.source == Classify(origin.source.bytes) && origin.source.bytes[0] == SYNC_BYTE
  {
    hide Step, Classify;
    StepQueue(s, input);
    var queue := s.packets + input.arrivals;
    assert Classified(queue);
  }

  /** The state part of what every slot keeps. */
  ghost predicate ClockInvariant(s: SlotState, time: nat) {
    s.pcrPid < 8192 && Classified(s.packets) && (s.locked ==> s.originNs <= time)
  }

  /** One slot, as the receiver sees it. */
  lemma {:induction false} StepOnClock(s: SlotState, input: SlotInput)
    requires input.rate > 0
    requires ClockInvariant(s, input.time) && Classified(input.arrivals)
    ensures var r := Step(s, input);
            && (ParsePcr(r.emission.bytes).found <==>
                 r.emission.origin.Generated? || (PcrSource(r.emission) && !s.locked))
            && (ParsePcr(r.emission.bytes).found ==> OnClock(r.emission, r.state))
            && ClockInvariant(r.state, input.time)
  {
    hide Step, ParsePcr, SentBytes, Classify, Pid, PcrPacketAt, NullPacket;
    StepLock(s, input);
    StepBytes(s, input);
    StepClassified(s, input);
    match Step(s, input).emission.origin {
      case Real(source) =>
        SentPacketParses(s.locked, source);
        OriginIsZero(Step(s, input).state);
      case Generated =>
        GeneratedPacketParses(s, input.time);
      case Null =>
        NullPacketParses(s.nullCc);
    }
  }

  lemma {:induction false} OriginIsZero(s: SlotState)
    ensures UnwrappedPcr(s, s.originNs) == s.originTicks
  {
  }

  ghost predicate AllOnClock(wire: seq<Emission>, s: SlotState) {
    forall i :: 0 <= i < |wire| && ParsePcr(wire[i].bytes).found ==> OnClock(wire[i], s)
  }

  lemma {:induction false} ClockKept(wire: seq<Emission>, a: SlotState, b: SlotState)
    requires AllOnClock(wire, a)
    requires a.locked ==> SameClock(a, b)
    ensures AllOnClock(wire, b)
  {
    hide ParsePcr, Pid;
  }

  function LastTime(inputs: seq<SlotInput>): nat {
    if inputs == [] then 0 else inputs[|inputs| - 1].time
  }

  /** Over every run: a clock exists exactly when a packet with a PCR of its own has been sent, and
      every PCR sent so far is one of that clock. */
  lemma {:induction false} RunOnClock(s: SlotState, inputs: seq<SlotInput>)
    requires Unlocked(s)
    requires PositiveRates(inputs) && Increasing(inputs) && ClassifiedArrivals(inputs)
    ensures var run := RunSlots(s, inputs);
            && (run.state.locked <==> !NoPcrSource(run.wire))
            && ClockInvariant(run.state, LastTime(inputs))
            && AllOnClock(run.wire, run.state)
    decreases |inputs|
  {
    if inputs != [] {
      var earlier := inputs[..|inputs| - 1];
      RunOnClock(s, earlier);
      var before, input := LastSlot(s, inputs);
      assert LastTime(earlier) <= input.time by {
        if earlier != [] { assert earlier[|earlier| - 1] == inputs[|inputs| - 2]; }
      }
      hide Step, ParsePcr, Pid, RunSlots, OnClock, Classified, PcrSource, Unlocked, Increasing, PositiveRates;
      StepOnClock(before.state, input);
      StepLock(before.state, input);
      var run := RunSlots(s, inputs);
      ClockKept(before.wire, before.state, run.state);
      assert run.wire[|before.wire|] == Step(before.state, input).emission;
    }
  }

  /** The receiver-visible timeline of every run. A PCR is found in the packet of slot i exactly
      when that packet was generated, or is the first packet sent that came with a PCR; it is then
      on the PCR PID and carries the clock of its slot time. */
  lemma {:induction false} ReceiverTimeline(s: SlotState, inputs: seq<SlotInput>, i: nat)
    requires Unlocked(s)
    requires PositiveRates(inputs) && Increasing(inputs) && ClassifiedArrivals(inputs)
    requires i < |inputs|
    ensures var run := RunSlots(s, inputs);
            var e := run.wire[i];
            && (ParsePcr(e.bytes).found <==> e.origin.Generated? || (PcrSource(e) && NoPcrSource(run.wire[..i])))
            && (ParsePcr(e.bytes).found ==> OnClock(e, run.state))
  {
    var before := SlotAt(s, inputs, i);
    var earlier := inputs[..i];
    RunOnClock(s, earlier);
    RunOnClock(s, inputs);
    assert LastTime(earlier) <= inputs[i].time by {
      if earlier != [] { assert earlier[i - 1] == inputs[i - 1]; }
    }
    hide Step, ParsePcr, Pid, RunSlots, UnwrappedPcr, Classified, NoPcrSource;
    StepOnClock(before.state, inputs[i]);
  }

  /** The tick count of a slot time is within one 27 MHz tick of the slot time, from below. */
  lemma {:induction false} PcrAccuracy(s: SlotState, time: nat)
    requires s.originNs <= time
    ensures 0 <= 27 * (time - s.originNs) - 1000 * (UnwrappedPcr(s, time) - s.originTicks) < 1000
  {
    assert NanosecondsToPcrTicks(time - s.originNs) == 27 * (time - s.originNs) / 1000;
  }

  /** Any two PCRs a receiver finds, 38 ns or more apart on the slot clock, strictly increase. */
  lemma {:induction false} PcrsIncrease(s: SlotState, earlier: nat, later: nat)
    requires s.originNs <= earlier && earlier + 38 <= later
    ensures UnwrappedPcr(s, earlier) < UnwrappedPcr(s, later)
  {
    PcrAccuracy(s, earlier);
    PcrAccuracy(s, later);
  }

  // Cadence

  /** The next deadline is the first multiple of the interval, counted from the lock, that lies
      behind the last slot; generated and missed intervals together are the multiples passed. */
  ghost predicate OnCadence(s: SlotState, time: nat) {
    if s.locked then
      && s.nextPcrNs == s.originNs + PERIODIC_PCR_INTERVAL_NS * (1 + s.inserted + s.missed)
      && s.nextPcrNs - PERIODIC_PCR_INTERVAL_NS <= time < s.nextPcrNs
    else s.inserted == 0 && s.missed == 0
  }

  lemma {:induction false} StepCadence(s: SlotState, input: SlotInput, time: nat)
    requires input.rate > 0 && time <= input.time
    requires OnCadence(s, time)
    ensures OnCadence(Step(s, input).state, input.time)
  {
    hide PcrPacketAt, NullPacket, SentBytes;
    if s.locked && s.nextPcrNs <= input.time {
      var due := IntervalsDue(s.nextPcrNs, input.time);
    }
  }

  /** Over every run, late resets and rate changes included: after the lock, the PCR packets
      generated and the intervals missed are together the 20 ms intervals that have passed. */
  lemma {:induction false} RunOnCadence(s: SlotState, inputs: seq<SlotInput>)
    requires Unlocked(s) && PositiveRates(inputs) && Increasing(inputs)
    ensures var state := RunSlots(s, inputs).state;
            && OnCadence(state, LastTime(inputs))
            && (state.locked ==>
                  state.inserted + state.missed == (LastTime(inputs) - state.originNs) / PERIODIC_PCR_INTERVAL_NS)
    decreases |inputs|
  {
    if inputs != [] {
      var earlier := inputs[..|inputs| - 1];
      RunOnCadence(s, earlier);
      var before, input := LastSlot(s, inputs);
      assert LastTime(earlier) <= input.time by {
        if earlier != [] { assert earlier[|earlier| - 1] == inputs[|inputs| - 2]; }
      }
      hide Step, RunSlots;
      StepCadence(before.state, input, LastTime(earlier));
    }
  }

  /** No two neighbouring slots are more than `gap` apart. */
  predicate GapsAtMost(inputs: seq<SlotInput>, gap: nat) {
    forall i :: 0 < i < |inputs| ==> inputs[i].time <= inputs[i - 1].time + gap
  }

  /** Deadline k + 1 of the clock is met, less than `gap` late. */
  predicate OnTime(s: SlotState, gap: nat, k: nat, time: nat) {
    s.originNs + PERIODIC_PCR_INTERVAL_NS * (k + 1) <= time < s.originNs + PERIODIC_PCR_INTERVAL_NS * (k + 1) + gap
  }

  ghost predicate AllOnTime(s: SlotState, gap: nat, times: seq<nat>) {
    && s.missed == 0
    && |times| == s.inserted
    && forall k :: 0 <= k < |times| ==> OnTime(s, gap, k, times[k])
  }

  lemma {:induction false} StepOnTime(s: SlotState, input: SlotInput, time: nat, gap: nat, times: seq<nat>)
    requires input.rate > 0 && time <= input.time <= time + gap
    requires 0 < gap <= PERIODIC_PCR_INTERVAL_NS
    requires OnCadence(s, time)
    requires s.locked ==> AllOnTime(s, gap, times)
    requires !s.locked ==> times == []
    ensures var r := Step(s, input);
            var now := if r.emission.origin.Generated? then times + [input.time] else times;
            && (r.state.locked ==> AllOnTime(r.state, gap, now))
            && (!r.state.locked ==> now == [])
  {
    hide PcrPacketAt, NullPacket, SentBytes;
  }

  lemma {:induction false} OneOnTime(s: SlotState, inputs: seq<SlotInput>, gap: nat)
    requires Unlocked(s) && PositiveRates(inputs) && |inputs| == 1
    ensures var run := RunSlots(s, inputs);
            && (run.state.locked ==> AllOnTime(run.state, gap, GeneratedTimes(run.wire)))
            && (!run.state.locked ==> GeneratedTimes(run.wire) == [])
  {
    hide Step, Classified;
    assert inputs[..0] == [];
    var before, input := LastSlot(s, inputs);
    StepFirst(s, input);
    hide RunSlots;
    assert before.wire + [Step(s, input).emission] == [Step(s, input).emission];
    assert [Step(s, input).emission][..0] == [];
  }

  /** Nothing is generated, and nothing missed, in a slot before the lock. */
  lemma {:induction false} StepFirst(s: SlotState, input: SlotInput)
    requires input.rate > 0 && !s.locked
    ensures var r := Step(s, input);
            !r.emission.origin.Generated? && r.state.inserted == s.inserted && r.state.missed == s.missed
  {
    hide SentBytes, NullPacket;
  }

  /** While slots come at most `gap` <= 20 ms apart, no interval is missed and generated packet k
      goes out in the first `gap` nanoseconds after its deadline, 20 ms * (k + 1) after the lock. */
  lemma {:induction false} RunOnTime(s: SlotState, inputs: seq<SlotInput>, gap: nat)
    requires Unlocked(s) && PositiveRates(inputs) && Increasing(inputs)
    requires 0 < gap <= PERIODIC_PCR_INTERVAL_NS && GapsAtMost(inputs, gap)
    ensures var run := RunSlots(s, inputs);
            && (run.state.locked ==> AllOnTime(run.state, gap, GeneratedTimes(run.wire)))
            && (!run.state.locked ==> GeneratedTimes(run.wire) == [])
    decreases |inputs|
  {
    if |inputs| == 1 {
      OneOnTime(s, inputs, gap);
    } else if inputs != [] {
      var earlier := inputs[..|inputs| - 1];
      RunOnTime(s, earlier, gap);
      RunOnCadence(s, earlier);
      var before, input := LastSlot(s, inputs);
      assert earlier[|earlier| - 1] == inputs[|inputs| - 2];
      hide Step, RunSlots, AllOnTime;
      StepOnTime(before.state, input, LastTime(earlier), gap, GeneratedTimes(before.wire));
    }
  }

  /** Hence the time between neighbouring PCRs, the one that locks the clock included, is less than
      20 ms + `gap`: far inside the 100 ms of ISO/IEC 13818-1, section 2.7.2. */
  lemma {:induction false} PcrSpacing(s: SlotState, inputs: seq<SlotInput>, gap: nat, k: nat)
    requires Unlocked(s) && PositiveRates(inputs) && Increasing(inputs)
    requires 0 < gap <= PERIODIC_PCR_INTERVAL_NS && GapsAtMost(inputs, gap)
    ensures var run := RunSlots(s, inputs);
            var pcrTimes := [run.state.originNs] + GeneratedTimes(run.wire);
            k + 1 < |pcrTimes| ==> pcrTimes[k] < pcrTimes[k + 1] < pcrTimes[k] + PERIODIC_PCR_INTERVAL_NS + gap
  {
    RunOnTime(s, inputs, gap);
    var run := RunSlots(s, inputs);
    var times := GeneratedTimes(run.wire);
    hide RunSlots, GeneratedTimes;
    if k < |times| {
      assert OnTime(run.state, gap, k, times[k]);
      if k > 0 {
        assert OnTime(run.state, gap, k - 1, times[k - 1]);
      }
    }
  }

  // The continuity counter of the generated packets

  predicate PayloadOn(e: Emission, pid: nat) {
    e.origin.Real? && Pid(e.bytes) == pid && HasPayload(e.bytes)
  }

  /** The counter of the last packet with payload sent on a PID since (and including) the packet
      that locked the clock; 0 when there is none. */
  ghost function CounterSinceLock(wire: seq<Emission>, pid: nat): (cc: nat)
    ensures cc < 16
  {
    if NoPcrSource(wire) then 0
    else
      var n := |wire| - 1;
      if PayloadOn(wire[n], pid) then ContinuityCounter(wire[n].bytes) else CounterSinceLock(wire[..n], pid)
  }

  function HeldCounter(s: SlotState): nat {
    if s.pcrCcValid then s.pcrCc else 0
  }

  lemma {:induction false} StepObserve(s: SlotState, input: SlotInput)
    requires input.rate > 0 && !s.locked ==> !s.pcrCcValid
    requires input.rate > 0
    ensures var r := Step(s, input);
            && HeldCounter(r.state) ==
                 (if r.state.locked && r.emission.origin.Real? && r.emission.origin.source.pid == r.state.pcrPid
                     && HasPayload(r.emission.bytes)
                  then ContinuityCounter(r.emission.bytes) else HeldCounter(s))
            && (!r.state.locked ==> !r.state.pcrCcValid)
  {
    hide PcrPacketAt, NullPacket, SentBytes;
  }

  lemma {:induction false} SourcePidIsSent(s: SlotState, input: SlotInput)
    requires input.rate > 0
    requires Classified(s.packets) && Classified(input.arrivals)
    ensures var e := Step(s, input).emission;
            e.origin.Real? ==> Pid(e.bytes) == e.origin.source.pid
  {
    hide Step, ParsePcr, SentBytes, Classify, Pid, PcrPacketAt, NullPacket;
    StepBytes(s, input);
    StepClassified(s, input);
    var e := Step(s, input).emission;
    if e.origin.Real? {
      SentPacketParses(s.locked, e.origin.source);
    }
  }

  lemma {:induction false} RunObserves(s: SlotState, inputs: seq<SlotInput>)
    requires Unlocked(s)
    requires PositiveRates(inputs) && Increasing(inputs) && ClassifiedArrivals(inputs)
    ensures var run := RunSlots(s, inputs);
            && (!run.state.locked ==> !run.state.pcrCcValid)
            && (run.state.locked ==> HeldCounter(run.state) == CounterSinceLock(run.wire, run.state.pcrPid))
    decreases |inputs|
  {
    if inputs != [] {
      var earlier := inputs[..|inputs| - 1];
      RunObserves(s, earlier);
      RunOnClock(s, earlier);
      RunOnClock(s, inputs);
      var before, input := LastSlot(s, inputs);
      hide Step, RunSlots, Classified, ParsePcr, Pid, HasPayload, ContinuityCounter, UnwrappedPcr, AllOnClock;
      StepObserve(before.state, input);
      StepLock(before.state, input);
      SourcePidIsSent(before.state, input);
      var run := RunSlots(s, inputs);
      assert run.wire[..|before.wire|] == before.wire;
      assert run.wire[|before.wire|] == Step(before.state, input).emission;
      hide NoPcrSource, PcrSource;
      if run.state.locked && !before.state.locked {
        assert CounterSinceLock(before.wire, run.state.pcrPid) == 0;
      }
    }
  }

  lemma {:induction false} StepGenerated(s: SlotState, input: SlotInput)
    requires input.rate > 0 && s.pcrPid < 8192
    ensures var e := Step(s, input).emission;
            e.origin.Generated? ==>
              && s.locked && ParsePcr(e.bytes).found && Pid(e.bytes) == s.pcrPid && !HasPayload(e.bytes)
              && ContinuityCounter(e.bytes) == HeldCounter(s) % 16
  {
    hide Step, ParsePcr, Pid, HasPayload, ContinuityCounter, PcrPacketAt;
    StepBytes(s, input);
    StepLock(s, input);
    GeneratedPacketParses(s, input.time);
  }

  /** A generated packet has no payload and carries the continuity counter of the last payload packet
      sent on its PID since the lock, 0 when there is none. */
  lemma {:induction false} GeneratedCounter(s: SlotState, inputs: seq<SlotInput>, i: nat)
    requires Unlocked(s)
    requires PositiveRates(inputs) && Increasing(inputs) && ClassifiedArrivals(inputs)
    requires i < |inputs|
    ensures var run := RunSlots(s, inputs);
            run.wire[i].origin.Generated? ==>
              && !HasPayload(run.wire[i].bytes)
              && ContinuityCounter(run.wire[i].bytes) == CounterSinceLock(run.wire[..i], run.state.pcrPid) % 16
  {
    var before := SlotAt(s, inputs, i);
    RunObserves(s, inputs[..i]);
    RunOnClock(s, inputs[..i]);
    hide *;
    ReceiverPid(s, inputs, i);
    StepGenerated(before.state, inputs[i]);
  }

  lemma {:induction false} ReceiverPid(s: SlotState, inputs: seq<SlotInput>, i: nat)
    requires Unlocked(s)
    requires PositiveRates(inputs) && Increasing(inputs) && ClassifiedArrivals(inputs)
    requires i < |inputs|
    ensures inputs[i].rate > 0 && RunSlots(s, inputs[..i]).state.pcrPid < 8192
    ensures var run := RunSlots(s, inputs);
            ParsePcr(run.wire[i].bytes).found ==> Pid(run.wire[i].bytes) == run.state.pcrPid
  {
    ReceiverTimeline(s, inputs, i);
    RunOnClock(s, inputs[..i]);
  }

  // What ISO/IEC 13818-1, section 2.4.3.3, asks of that counter

  datatype LastCounter = NoneSent | Sent(cc: nat)

  /** The counter of the last payload packet sent on a PID, since the lock or before it. */
  function LastPayloadCounter(wire: seq<Emission>, pid: nat): LastCounter {
    if wire == [] then NoneSent
    else
      var n := |wire| - 1;
      if PayloadOn(wire[n], pid) then Sent(ContinuityCounter(wire[n].bytes)) else LastPayloadCounter(wire[..n], pid)
  }

  /** A packet without payload repeats the counter of the last payload packet on its PID, if any. */
  predicate Repeats(wire: seq<Emission>, pid: nat, cc: nat) {
    LastPayloadCounter(wire, pid).Sent? ==> cc == LastPayloadCounter(wire, pid).cc
  }

  /** What was sent before the packet that locked the clock. */
  ghost function BeforeLock(wire: seq<Emission>): seq<Emission> {
    if NoPcrSource(wire) then wire
    else if NoPcrSource(wire[..|wire| - 1]) then wire[..|wire| - 1]
    else BeforeLock(wire[..|wire| - 1])
  }

  /** A payload packet on the PID has gone out since the lock, the lock packet included. */
  ghost predicate PayloadSinceLock(wire: seq<Emission>, pid: nat) {
    exists i :: |BeforeLock(wire)| <= i < |wire| && PayloadOn(wire[i], pid)
  }

  lemma {:induction false} BeforeLockIsPrefix(wire: seq<Emission>)
    ensures BeforeLock(wire) <= wire && (!NoPcrSource(wire) ==> |BeforeLock(wire)| < |wire|)
    decreases |wire|
  {
    if !NoPcrSource(wire) && !NoPcrSource(wire[..|wire| - 1]) {
      BeforeLockIsPrefix(wire[..|wire| - 1]);
    }
  }

  /** One packet more after the lock. */
  lemma {:induction false} PayloadSinceLockGrows(wire: seq<Emission>, pid: nat)
    requires !NoPcrSource(wire)
    ensures var n := |wire| - 1;
            PayloadSinceLock(wire, pid)
            <==> PayloadOn(wire[n], pid) || (!NoPcrSource(wire[..n]) && PayloadSinceLock(wire[..n], pid))
  {
    hide PayloadOn;
    var n := |wire| - 1;
    BeforeLockIsPrefix(wire);
    BeforeLockIsPrefix(wire[..n]);
    if PayloadOn(wire[n], pid) {
      assert |BeforeLock(wire)| <= n < |wire|;
    }
    if !NoPcrSource(wire[..n]) && PayloadSinceLock(wire[..n], pid) {
      var i :| |BeforeLock(wire[..n])| <= i < n && PayloadOn(wire[..n][i], pid);
      assert wire[i] == wire[..n][i];
    }
    if PayloadSinceLock(wire, pid) && !PayloadOn(wire[n], pid) {
      var i :| |BeforeLock(wire)| <= i < |wire| && PayloadOn(wire[i], pid);
      assert i < n && wire[..n][i] == wire[i];
    }
  }

  lemma {:induction false} CountersSinceLock(wire: seq<Emission>, pid: nat)
    requires !NoPcrSource(wire)
    ensures if PayloadSinceLock(wire, pid)
            then LastPayloadCounter(wire, pid) == Sent(CounterSinceLock(wire, pid))
            else CounterSinceLock(wire, pid) == 0
                 && LastPayloadCounter(wire, pid) == LastPayloadCounter(BeforeLock(wire), pid)
    decreases |wire|
  {
    var n := |wire| - 1;
    PayloadSinceLockGrows(wire, pid);
    hide PayloadOn, PayloadSinceLock;
    if !PayloadOn(wire[n], pid) && !NoPcrSource(wire[..n]) {
      CountersSinceLock(wire[..n], pid);
      hide NoPcrSource;
    }
  }

  /** Exactly when the generated counter is the one asked for: a payload packet on the PCR PID has gone
      out since the lock, or none had gone out before it, or the last one before it had counter 0. */
  lemma {:induction false} GeneratedRepeatsIff(s: SlotState, inputs: seq<SlotInput>, i: nat)
    requires Unlocked(s)
    requires PositiveRates(inputs) && Increasing(inputs) && ClassifiedArrivals(inputs)
    requires i < |inputs|
    ensures var run := RunSlots(s, inputs);
            var sent, pid := run.wire[..i], run.state.pcrPid;
            run.wire[i].origin.Generated? ==>
              (Repeats(sent, pid, ContinuityCounter(run.wire[i].bytes))
               <==> PayloadSinceLock(sent, pid) || LastPayloadCounter(BeforeLock(sent), pid) in {NoneSent, Sent(0)})
  {
    hide RunSlots, CounterSinceLock, LastPayloadCounter, PayloadSinceLock, BeforeLock, NoPcrSource, ContinuityCounter;
    hide Unlocked, Increasing, PositiveRates, ClassifiedArrivals, HasPayload;
    if RunSlots(s, inputs).wire[i].origin.Generated? {
      GeneratedCounter(s, inputs, i);
      LockedBeforeGenerated(s, inputs, i);
      CountersSinceLock(RunSlots(s, inputs).wire[..i], RunSlots(s, inputs).state.pcrPid);
    }
  }

  lemma {:induction false} LockedBeforeGenerated(s: SlotState, inputs: seq<SlotInput>, i: nat)
    requires Unlocked(s)
    requires PositiveRates(inputs) && Increasing(inputs) && ClassifiedArrivals(inputs)
    requires i < |inputs|
    ensures var wire := RunSlots(s, inputs).wire;
            wire[i].origin.Generated? ==> !NoPcrSource(wire[..i])
  {
    var before := SlotAt(s, inputs, i);
    RunOnClock(s, inputs[..i]);
    hide Step, RunSlots, NoPcrSource, Classified;
    StepLock(before.state, inputs[i]);
  }

  lemma {:induction false} LockPacketAt(wire: seq<Emission>)
    requires !NoPcrSource(wire)
    ensures var b := |BeforeLock(wire)|;
            b < |wire| && BeforeLock(wire) == wire[..b] && PcrSource(wire[b]) && NoPcrSource(wire[..b])
    decreases |wire|
  {
    var n := |wire| - 1;
    if NoPcrSource(wire[..n]) {
      assert forall j :: 0 <= j < n ==> wire[..n][j] == wire[j];
    } else {
      LockPacketAt(wire[..n]);
      var b := |BeforeLock(wire)|;
      assert wire[..n][..b] == wire[..b] && wire[..n][b] == wire[b];
    }
  }

  /** In particular always when the packet that locks the clock has payload. */
  lemma {:induction false} LockWithPayloadRepeats(s: SlotState, inputs: seq<SlotInput>, i: nat)
    requires Unlocked(s)
    requires PositiveRates(inputs) && Increasing(inputs) && ClassifiedArrivals(inputs)
    requires i < |inputs|
    ensures var run := RunSlots(s, inputs);
            var sent := run.wire[..i];
            run.wire[i].origin.Generated? ==>
              && |BeforeLock(sent)| < i && PcrSource(run.wire[|BeforeLock(sent)|])
              && (HasPayload(run.wire[|BeforeLock(sent)|].bytes) ==>
                    Repeats(sent, run.state.pcrPid, ContinuityCounter(run.wire[i].bytes)))
  {
    var run := RunSlots(s, inputs);
    if run.wire[i].origin.Generated? {
      var sent, b := run.wire[..i], |BeforeLock(run.wire[..i])|;
      LockedBeforeGenerated(s, inputs, i);
      LockPacketAt(sent);
      assert sent[..b] == run.wire[..b] && sent[b] == run.wire[b];
      ReceiverTimeline(s, inputs, b);
      GeneratedRepeatsIff(s, inputs, i);
      hide RunSlots, BeforeLock, NoPcrSource, Repeats, LastPayloadCounter, ParsePcr, Pid, HasPayload;
      assert HasPayload(run.wire[b].bytes) ==> PayloadOn(sent[b], run.state.pcrPid);
    }
  }

  // Packets and steps of a run in which it is not

  const PAYLOAD_PACKET: Packet := [SYNC_BYTE, 1, 0, 0x15] + seq(TS_PACKET_SIZE - 4, _ => 0)
  const PCR_ONLY_PACKET: Packet := [SYNC_BYTE, 1, 0, 0x25, 183, 0x10] + seq(TS_PACKET_SIZE - 6, _ => 0)

  lemma {:induction false} WitnessPackets()
    ensures !ParsePcr(PAYLOAD_PACKET).found && Pid(PAYLOAD_PACKET) == 256
    ensures HasPayload(PAYLOAD_PACKET) && ContinuityCounter(PAYLOAD_PACKET) == 5
    ensures ParsePcr(PCR_ONLY_PACKET).found && Pid(PCR_ONLY_PACKET) == 256
    ensures !HasPayload(PCR_ONLY_PACKET)
  {
  }

  /** Three slots, one after another. */
  lemma {:induction false} ThreeSlots(s: SlotState, inputs: seq<SlotInput>)
    requires PositiveRates(inputs) && |inputs| == 3
    ensures var a := Step(s, inputs[0]);
            var b := Step(a.state, inputs[1]);
            var c := Step(b.state, inputs[2]);
            RunSlots(s, inputs) == SlotRun(c.state, [a.emission, b.emission, c.emission])
  {
    hide Step;
    assert inputs[..2][..1][..0] == [] && inputs[..2][..1] == inputs[..1];
    var two, third := LastSlot(s, inputs);
    var one, second := LastSlot(s, inputs[..2]);
    var none, first := LastSlot(s, inputs[..1]);
  }

  lemma {:induction false} StepDue(s: SlotState, input: SlotInput)
    requires input.rate > 0 && s.locked && s.nextPcrNs <= input.time
    ensures Step(s, input).emission.origin.Generated?
  {
    hide PcrPacketAt;
  }
}
