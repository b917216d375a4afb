/** One transport slot of the shaper after another (StableUdpSender::fillDatagram): a slot holds a
    generated PCR packet when one is due, else a queued packet when the token bucket allows it,
    else a null packet. */
module Slots {
  import opened TransportStream
  import opened Pcr
  import opened Resync

  const PERIODIC_PCR_INTERVAL_NS := 20_000_000

  function MultiplyDivide(value: nat, multiplier: nat, divisor: nat): nat {
    if divisor == 0 then 0 else value * multiplier / divisor
  }

  function NanosecondsToPcrTicks(nanoseconds: nat): nat {
    MultiplyDivide(nanoseconds, 27_000_000, 1_000_000_000)
  }

  datatype SlotState = SlotState(
    packets: seq<TimedTsPacket>,  // realPackets
    tokens: nat,                  // realTokenAccumulator
    locked: bool,                 // periodicPcrInitialized
    pcrPid: nat,
    originTicks: nat,
    originNs: nat,
    nextPcrNs: nat,
    pcrCc: nat,
    pcrCcValid: bool,
    nullCc: nat,
    rewritten: nat,
    stripped: nat,
    inserted: nat,
    missed: nat,
    underflows: nat)

  const FRESH_SLOTS :=
    SlotState([], 0, false, NULL_PID, 0, 0, 0, 0, false, 0, 0, 0, 0, 0, 0)

  datatype Origin = Real(source: TimedTsPacket) | Generated | Null

  datatype Emission = Emission(time: nat, bytes: Packet, origin: Origin)

  datatype SlotInput = SlotInput(arrivals: seq<TimedTsPacket>, time: nat, pace: nat, rate: nat)

  datatype SlotResult = SlotResult(state: SlotState, emission: Emission)

  datatype SlotRun = SlotRun(state: SlotState, wire: seq<Emission>)

  function NullPacket(cc: nat): Packet {
    [SYNC_BYTE, 0x1F, 0xFF, 0x10 + cc % 16] + seq(TS_PACKET_SIZE - 4, _ => 0xFF)
  }

  /** An adaptation-only packet; its PCR field is still to be written. */
  function PcrPacketFrame(pid: nat, cc: nat): Packet {
    [SYNC_BYTE, (pid / 256) % 32, pid % 256, 0x20 + cc % 16, 183, 0x10] + seq(TS_PACKET_SIZE - 6, _ => 0xFF)
  }

  /** The clock value a generated PCR carries at a slot time. */
  function PcrAt(s: SlotState, time: nat): nat {
    (s.originTicks + NanosecondsToPcrTicks(if time >= s.originNs then time - s.originNs else 0)) % PCR_TICKS_MODULUS
  }

  function PcrPacketAt(s: SlotState, time: nat): Packet {
    WithPcr(PcrPacketFrame(s.pcrPid, if s.pcrCcValid then s.pcrCc else 0), PcrAt(s, time))
  }

  /** How many PCR intervals the deadline has to move to lie behind the slot time. */
  function IntervalsDue(next: nat, time: nat): (due: nat)
    requires next <= time
    ensures due >= 1
    ensures next + (due - 1) * PERIODIC_PCR_INTERVAL_NS <= time < next + due * PERIODIC_PCR_INTERVAL_NS
  {
    (time - next) / PERIODIC_PCR_INTERVAL_NS + 1
  }

  function GeneratePcr(s: SlotState, time: nat): SlotState
    requires s.nextPcrNs <= time
  {
    var due := IntervalsDue(s.nextPcrNs, time);
    s.(nextPcrNs := s.nextPcrNs + due * PERIODIC_PCR_INTERVAL_NS,
       inserted := s.inserted + 1,
       missed := s.missed + (due - 1))
  }

  /** The first PCR packet sent locks the generated clock; later ones lose their PCR. */
  function LockOrStrip(s: SlotState, packet: TimedTsPacket, time: nat): SlotState {
    if !packet.hasPcr then s
    else if !s.locked then
      s.(locked := true, pcrPid := packet.pid, originTicks := packet.sourcePcrTicks, originNs := time,
         nextPcrNs := time + PERIODIC_PCR_INTERVAL_NS, rewritten := s.rewritten + 1)
    else s.(stripped := s.stripped + 1)
  }

  function SentBytes(locked: bool, packet: TimedTsPacket): Packet {
    if !packet.hasPcr then packet.bytes
    else if !locked then WithPcr(packet.bytes, packet.sourcePcrTicks)
    else WithoutPcrFlag(packet.bytes)
  }

  function ObserveContinuity(s: SlotState, pid: nat, bytes: Packet): SlotState {
    if s.locked && pid == s.pcrPid && HasPayload(bytes) then
      s.(pcrCc := ContinuityCounter(bytes), pcrCcValid := true)
    else s
  }

  function SendReal(s: SlotState, time: nat): SlotResult
    requires s.packets != []
  {
    var packet := s.packets[0];
    var bytes := SentBytes(s.locked, packet);
    SlotResult(ObserveContinuity(LockOrStrip(s.(packets := s.packets[1..]), packet, time), packet.pid, bytes),
               Emission(time, bytes, Real(packet)))
  }

  function SendNull(s: SlotState, time: nat): SlotResult {
    SlotResult(s.(nullCc := (s.nullCc + 1) % 16), Emission(time, NullPacket(s.nullCc), Null))
  }

  function FillSlot(s: SlotState, time: nat, pace: nat, rate: nat): SlotResult
    requires rate > 0
  {
    var tokens := s.tokens + pace;
    if s.locked && time >= s.nextPcrNs then
      SlotResult(GeneratePcr(s.(tokens := tokens), time), Emission(time, PcrPacketAt(s, time), Generated))
    else if tokens < rate then SendNull(s.(tokens := tokens), time)
    else if s.packets == [] then
      // no catch-up burst after an upstream gap
      SendNull(s.(tokens := if tokens - rate < rate - 1 then tokens - rate else rate - 1,
                  underflows := s.underflows + 1), time)
    else SendReal(s.(tokens := tokens - rate), time)
  }

  function Step(s: SlotState, input: SlotInput): SlotResult
    requires input.rate > 0
  {
    FillSlot(s.(packets := s.packets + input.arrivals), input.time, input.pace, input.rate)
  }

  predicate PositiveRates(inputs: seq<SlotInput>) {
    forall i :: 0 <= i < |inputs| ==> inputs[i].rate > 0
  }

  /** Any number of slots, one after another, with packets arriving in between. */
  function RunSlots(s: SlotState, inputs: seq<SlotInput>): (run: SlotRun)
    requires PositiveRates(inputs)
    ensures |run.wire| == |inputs|
    ensures forall i :: 0 <= i < |inputs| ==> run.wire[i].time == inputs[i].time
  {
    if inputs == [] then SlotRun(s, [])
    else
      var n := |inputs| - 1;
      var before := RunSlots(s, inputs[..n]);
      var result := Step(before.state, inputs[n]);
      SlotRun(result.state, before.wire + [result.emission])
  }

  lemma {:induction false} RunSlotsAppend(s: SlotState, a: seq<SlotInput>, b: seq<SlotInput>)
    requires PositiveRates(a) && PositiveRates(b)
    ensures RunSlots(s, a + b).state == RunSlots(RunSlots(s, a).state, b).state
    ensures RunSlots(s, a + b).wire == RunSlots(s, a).wire + RunSlots(RunSlots(s, a).state, b).wire
    decreases |b|
  {
    if b == [] {
      assert a + b == a;
    } else {
      var n := |b| - 1;
      assert (a + b)[..|a + b| - 1] == a + b[..n];
      RunSlotsAppend(s, a, b[..n]);
    }
  }

  function Arrivals(inputs: seq<SlotInput>): seq<TimedTsPacket> {
    if inputs == [] then [] else Arrivals(inputs[..|inputs| - 1]) + inputs[|inputs| - 1].arrivals
  }

  function Sources(wire: seq<Emission>): seq<TimedTsPacket> {
    if wire == [] then []
    else
      var n := |wire| - 1;
      Sources(wire[..n]) + if wire[n].origin.Real? then [wire[n].origin.source] else []
  }

  function Wire(wire: seq<Emission>): (packets: seq<Packet>)
    ensures |packets| == |wire|
    ensures forall i :: 0 <= i < |wire| ==> packets[i] == wire[i].bytes
  {
    seq(|wire|, i requires 0 <= i < |wire| => wire[i].bytes)
  }

  function GeneratedTimes(wire: seq<Emission>): seq<nat> {
    if wire == [] then []
    else
      var n := |wire| - 1;
      GeneratedTimes(wire[..n]) + if wire[n].origin.Generated? then [wire[n].time] else []
  }

  function CountNulls(wire: seq<Emission>): nat {
    if wire == [] then 0
    else CountNulls(wire[..|wire| - 1]) + if wire[|wire| - 1].origin.Null? then 1 else 0
  }

  predicate Increasing(inputs: seq<SlotInput>) {
    forall i, j :: 0 <= i < j < |inputs| ==> inputs[i].time < inputs[j].time
  }

  /** Equal but for the PCR flag (bit 4 of byte 5) and the PCR field (bytes 6 to 11). */
  ghost predicate EqualOutsidePcr(a: Packet, b: Packet) {
    && (forall i :: 0 <= i < TS_PACKET_SIZE && !(5 <= i < 12) ==> a[i] == b[i])
    && a[5] / 0x20 == b[5] / 0x20 && a[5] % 0x10 == b[5] % 0x10
  }

  /** A queued packet leaves unchanged up to PCR flag and PCR bytes, and unchanged altogether
      when it has no PCR. */
  lemma {:induction false} SentUnchangedOutsidePcr(locked: bool, packet: TimedTsPacket)
    ensures EqualOutsidePcr(SentBytes(locked, packet), packet.bytes)
    ensures !packet.hasPcr ==> SentBytes(locked, packet) == packet.bytes
  {
    WrittenFields(packet.bytes, packet.sourcePcrTicks);
    StrippedPcr(packet.bytes);
  }

  /** What one slot does to the queue, and which packet it sends. */
  lemma {:induction false} StepQueue(s: SlotState, input: SlotInput)
    requires input.rate > 0
    ensures var r := Step(s, input);
            var queue := s.packets + input.arrivals;
            if r.emission.origin.Real?
            then queue != [] && r.emission.origin.source == queue[0] && r.state.packets == queue[1..]
            else r.state.packets == queue
  {
  }

  /** How a slot is used, and what it leaves of the tokens: a generated packet when one is due, at no charge;
      else a queued packet, for the price of the rate, when the tokens reach for it and there is one; else
      a null packet, and what tokens there were for a packet that was not there are cut below the price. */
  lemma {:induction false} SlotUse(s: SlotState, input: SlotInput)
    requires input.rate > 0
    ensures var r := Step(s, input);
            var tokens := s.tokens + input.pace;
            && (r.emission.origin.Generated? <==> s.locked && s.nextPcrNs <= input.time)
            && (r.emission.origin.Real? <==>
                  !r.emission.origin.Generated? && tokens >= input.rate && s.packets + input.arrivals != [])
            && (r.emission.origin.Generated? || tokens < input.rate ==> r.state.tokens == tokens)
            && (r.emission.origin.Real? ==> r.state.tokens == tokens - input.rate)
            && (r.emission.origin.Null? && tokens >= input.rate ==>
                  && r.state.underflows == s.underflows + 1
                  && (tokens < 2 * input.rate ==> r.state.tokens == tokens - input.rate)
                  && (tokens >= 2 * input.rate ==> r.state.tokens == input.rate - 1))
            && (!r.emission.origin.Null? || tokens < input.rate ==> r.state.underflows == s.underflows)
  {
    hide PcrPacketAt, NullPacket, SentBytes;
  }

  lemma {:induction false} StepCounters(s: SlotState, input: SlotInput)
    requires input.rate > 0
    ensures var r := Step(s, input);
            && r.state.inserted == s.inserted + (if r.emission.origin.Generated? then 1 else 0)
            && r.state.nullCc == (if r.emission.origin.Null? then (s.nullCc + 1) % 16 else s.nullCc)
            && (r.emission.origin.Null? ==> r.emission.bytes == NullPacket(s.nullCc))
  {
  }

  /** The run up to slot k is the start of the run. */
  lemma {:induction false} RunSlotsPrefix(s: SlotState, inputs: seq<SlotInput>, k: nat)
    requires PositiveRates(inputs) && k <= |inputs|
    ensures RunSlots(s, inputs[..k]).wire == RunSlots(s, inputs).wire[..k]
  {
    assert inputs == inputs[..k] + inputs[k..];
    RunSlotsAppend(s, inputs[..k], inputs[k..]);
  }

  /** Slot i of a run: the run before it, and what the slot does. */
  lemma {:induction false} SlotAt(s: SlotState, inputs: seq<SlotInput>, i: nat) returns (before: SlotRun)
    requires PositiveRates(inputs) && i < |inputs|
    ensures before == RunSlots(s, inputs[..i])
    ensures before.wire == RunSlots(s, inputs).wire[..i]
    ensures Step(before.state, inputs[i]).emission == RunSlots(s, inputs).wire[i]
    ensures Step(before.state, inputs[i]).state == RunSlots(s, inputs[..i + 1]).state
  {
    before := RunSlots(s, inputs[..i]);
    RunSlotsPrefix(s, inputs, i);
    RunSlotsPrefix(s, inputs, i + 1);
    assert inputs[..i + 1][..i] == inputs[..i];
    assert RunSlots(s, inputs).wire[..i + 1][i] == Step(before.state, inputs[i]).emission;
  }

  /** The last slot of a run. */
  lemma {:induction false} LastSlot(s: SlotState, inputs: seq<SlotInput>) returns (before: SlotRun, input: SlotInput)
    requires PositiveRates(inputs) && inputs != []
    ensures before == RunSlots(s, inputs[..|inputs| - 1])
    ensures input == inputs[|inputs| - 1] && input.rate > 0
    ensures RunSlots(s, inputs)
      == SlotRun(Step(before.state, input).state, before.wire + [Step(before.state, input).emission])
    ensures RunSlots(s, inputs).wire[..|inputs| - 1] == before.wire
  {
    before := RunSlots(s, inputs[..|inputs| - 1]);
    input := inputs[|inputs| - 1];
  }

  /** A queue that grows at the back and shrinks at the front only moves the border. */
  lemma {:induction false} PassThrough<T>(sent: seq<T>, held: seq<T>, arrivals: seq<T>, start: seq<T>, arrived: seq<T>)
    requires sent + held == start + arrived
    ensures var queue := held + arrivals;
            && sent + queue == start + (arrived + arrivals)
            && (queue != [] ==> (sent + [queue[0]]) + queue[1..] == start + (arrived + arrivals))
  {
    var queue := held + arrivals;
    assert sent + queue == (sent + held) + arrivals;
    assert queue != [] ==> (sent + [queue[0]]) + queue[1..] == sent + queue;
  }

  /** First in, first out, over every run: the packets sent, then those still queued, are those
      queued at the start and all that arrived, in order. */
  lemma {:induction false} SlotsAreFifo(s: SlotState, inputs: seq<SlotInput>)
    requires PositiveRates(inputs)
    ensures Sources(RunSlots(s, inputs).wire) + RunSlots(s, inputs).state.packets
            == s.packets + Arrivals(inputs)
    decreases |inputs|
  {
    hide Step;
    if inputs != [] {
      var before, input := LastSlot(s, inputs);
      SlotsAreFifo(s, inputs[..|inputs| - 1]);
      StepQueue(before.state, input);
      hide RunSlots;
      PassThrough(Sources(before.wire), before.state.packets, input.arrivals, s.packets,
        Arrivals(inputs[..|inputs| - 1]));
    }
  }

  /** Every slot is counted once, as a queued packet, a generated PCR packet or a null packet. */
  lemma {:induction false} SlotsAreCounted(s: SlotState, inputs: seq<SlotInput>)
    requires PositiveRates(inputs)
    ensures var run := RunSlots(s, inputs);
            && |inputs| == |Sources(run.wire)| + |GeneratedTimes(run.wire)| + CountNulls(run.wire)
            && run.state.inserted == s.inserted + |GeneratedTimes(run.wire)|
    decreases |inputs|
  {
    hide Step;
    if inputs != [] {
      var before, input := LastSlot(s, inputs);
      SlotsAreCounted(s, inputs[..|inputs| - 1]);
      StepCounters(before.state, input);
      hide RunSlots;
    }
  }

  lemma {:induction false} CountUpModulo(a: nat, b: nat, count: nat)
    requires a == (b + count) % 16
    ensures (a + 1) % 16 == (b + (count + 1)) % 16
  {
  }

  lemma {:induction false} NullCounter(s: SlotState, inputs: seq<SlotInput>)
    requires PositiveRates(inputs) && s.nullCc < 16
    ensures RunSlots(s, inputs).state.nullCc == (s.nullCc + CountNulls(RunSlots(s, inputs).wire)) % 16
    decreases |inputs|
  {
    hide Step;
    if inputs != [] {
      var before, input := LastSlot(s, inputs);
      NullCounter(s, inputs[..|inputs| - 1]);
      StepCounters(before.state, input);
      hide RunSlots;
      CountUpModulo(before.state.nullCc, s.nullCc, CountNulls(before.wire));
    }
  }

  /** A null packet, byte by byte. */
  lemma {:induction false} NullPacketInBytes(cc: nat)
    ensures var p := NullPacket(cc);
            && p[0] == 0x47 && p[1] == 0x1F && p[2] == 0xFF && p[3] == 16 + cc % 16
            && Pid(p) == 8191 && HasPayload(p) && ContinuityCounter(p) == cc % 16
            && forall i :: 4 <= i < TS_PACKET_SIZE ==> p[i] == 0xFF
  {
  }

  /** The null packets of a run count modulo 16 without a gap, however they are spread. */
  lemma {:induction false} NullPacketsCountUp(s: SlotState, inputs: seq<SlotInput>, i: nat)
    requires PositiveRates(inputs) && s.nullCc < 16 && i < |inputs|
    ensures var wire := RunSlots(s, inputs).wire;
            wire[i].origin.Null? ==>
              && wire[i].bytes == NullPacket((s.nullCc + CountNulls(wire[..i])) % 16)
              && Pid(wire[i].bytes) == 8191
              && ContinuityCounter(wire[i].bytes) == (s.nullCc + CountNulls(wire[..i])) % 16
  {
    hide Step, CountNulls, NullPacket, Pid, ContinuityCounter;
    NullPacketInBytes((s.nullCc + CountNulls(RunSlots(s, inputs).wire[..i])) % 16);
    var before := SlotAt(s, inputs, i);
    StepCounters(before.state, inputs[i]);
    NullCounter(s, inputs[..i]);
  }
}
