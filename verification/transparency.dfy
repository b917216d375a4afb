/** The shaper as the continuity-counter monitor sees it: null packets, generated PCR packets and
    rewritten PCR fields make no difference to any count. */
module Transparency {
  import opened TransportStream
  import opened Pcr
  import opened Resync
  import opened Slots
  import opened PcrTimeline
  import opened Continuity

  lemma {:induction false} CheckIgnoresPcr(c: Counters, a: Packet, b: Packet)
    requires c.Valid() && EqualOutsidePcr(a, b)
    ensures CheckPacket(c, a) == CheckPacket(c, b)
  {
    assert a[1] == b[1] && a[2] == b[2] && a[3] == b[3] && a[4] == b[4];
    assert a[5] / 0x80 == b[5] / 0x80;
  }

  /** A duplicate as ISO/IEC 13818-1, section 2.4.3.3, allows it: any packets of other PIDs after the
      first, and a PCR of its own. It changes no state, and the monitor counts it as an error if and
      only if the packet announces no discontinuity. */
  lemma {:induction false} DuplicateIsAnErrorIff(c: Counters, p: Packet, others: seq<Packet>, q: Packet)
    requires c.Valid() && Pid(p) != NULL_PID && HasPayload(p) && !TransportError(p)
    requires forall i :: 0 <= i < |others| ==> Pid(others[i]) != Pid(p)
    requires EqualOutsidePcr(q, p)
    ensures var once := CheckAll(c, [p] + others);
            CheckAll(c, [p] + others + [q]) == Tally(once.counters, once.errors + if Discontinuity(p) then 0 else 1)
  {
    var first, once := CheckPacket(c, p), CheckAll(c, [p] + others);
    PayloadIsSeen(c, p);
    assert [] + [p] == [p];
    CheckOneMore(c, [], p);
    CheckAllAppend(c, [p], others);
    OthersKeepLastSeen(first.counters, others, Pid(p), ContinuityCounter(p));
    CheckOneMore(c, [p] + others, q);
    CheckIgnoresPcr(once.counters, q, p);
    hide CheckPacket;
    assert CheckAll(c, []) == Tally(c, 0);
    hide CheckAll;
    RepeatIsCounted(once.counters, p);
  }

  lemma {:induction false} CheckIgnoresNull(c: Counters, cc: nat)
    requires c.Valid()
    ensures CheckPacket(c, NullPacket(cc)) == Tally(c, 0)
  {
  }

  lemma {:induction false} CheckIgnoresFrame(c: Counters, pid: nat, cc: nat)
    requires c.Valid() && pid < 8192
    ensures CheckPacket(c, PcrPacketFrame(pid, cc)) == Tally(c, 0)
  {
    FrameParses(pid, cc);
    var frame := PcrPacketFrame(pid, cc);
    assert frame[4] == 183 && frame[5] == 0x10 && frame[1] < 0x80;
    assert AdaptationControl(frame) == 2;
  }

  lemma {:induction false} CheckIgnoresGenerated(c: Counters, s: SlotState, time: nat)
    requires c.Valid() && s.pcrPid < 8192
    ensures CheckPacket(c, PcrPacketAt(s, time)) == Tally(c, 0)
  {
    hide CheckPacket, PcrPacketFrame, PcrAt;
    var cc := if s.pcrCcValid then s.pcrCc else 0;
    var frame := PcrPacketFrame(s.pcrPid, cc);
    CheckIgnoresFrame(c, s.pcrPid, cc);
    WrittenIsEqualOutside(frame, PcrAt(s, time));
    CheckIgnoresPcr(c, PcrPacketAt(s, time), frame);
  }

  lemma {:induction false} WrittenIsEqualOutside(p: Packet, t: nat)
    ensures EqualOutsidePcr(WithPcr(p, t), p)
  {
    WrittenFields(p, t);
  }

  /** One slot: a queued packet counts as its source, anything else does not count. */
  lemma {:induction false} StepTransparent(c: Counters, s: SlotState, input: SlotInput)
    requires c.Valid() && input.rate > 0 && s.pcrPid < 8192
    ensures var e := Step(s, input).emission;
            CheckPacket(c, e.bytes) == if e.origin.Real? then CheckPacket(c, e.origin.source.bytes) else Tally(c, 0)
  {
    hide Step, CheckPacket, SentBytes, PcrPacketAt, NullPacket, EqualOutsidePcr;
    StepBytes(s, input);
    match Step(s, input).emission.origin {
      case Real(source) =>
        SentUnchangedOutsidePcr(s.locked, source);
        CheckIgnoresPcr(c, SentBytes(s.locked, source), source.bytes);
      case Generated => CheckIgnoresGenerated(c, s, input.time);
      case Null => CheckIgnoresNull(c, s.nullCc);
    }
  }

  function SourceBytes(packets: seq<TimedTsPacket>): (bytes: seq<Packet>)
    ensures |bytes| == |packets|
    ensures forall i :: 0 <= i < |bytes| ==> bytes[i] == packets[i].bytes
  {
    seq(|packets|, i requires 0 <= i < |packets| => packets[i].bytes)
  }

  lemma {:induction false} WireGrows(wire: seq<Emission>, e: Emission)
    ensures Wire(wire + [e]) == Wire(wire) + [e.bytes]
    ensures SourceBytes(Sources(wire + [e]))
            == SourceBytes(Sources(wire)) + if e.origin.Real? then [e.origin.source.bytes] else []
  {
    assert (wire + [e])[..|wire|] == wire;
    assert Sources(wire + [e]) == Sources(wire) + if e.origin.Real? then [e.origin.source] else [];
  }

  /** A longer run keeps the two passes equal. */
  lemma {:induction false} TransparentGrows(c: Counters, wire: seq<Emission>, e: Emission)
    requires c.Valid()
    requires CheckAll(c, Wire(wire)) == CheckAll(c, SourceBytes(Sources(wire)))
    requires var now := CheckAll(c, Wire(wire)).counters;
             CheckPacket(now, e.bytes) == if e.origin.Real? then CheckPacket(now, e.origin.source.bytes)
               else Tally(now, 0)
    ensures CheckAll(c, Wire(wire + [e])) == CheckAll(c, SourceBytes(Sources(wire + [e])))
  {
    hide CheckPacket, CheckAll, Wire, Sources, SourceBytes;
    WireGrows(wire, e);
    CheckOneMore(c, Wire(wire), e.bytes);
    if e.origin.Real? {
      CheckOneMore(c, SourceBytes(Sources(wire)), e.origin.source.bytes);
    } else {
      assert SourceBytes(Sources(wire)) + [] == SourceBytes(Sources(wire));
    }
  }

  /** For every run, the monitor's pass over the emitted packets gives the same error count and the
      same per-PID state as its pass over the queued packets among them, as they were queued. */
  lemma {:induction false} ShaperIsTransparent(c: Counters, s: SlotState, inputs: seq<SlotInput>)
    requires c.Valid() && Unlocked(s)
    requires PositiveRates(inputs) && Increasing(inputs) && ClassifiedArrivals(inputs)
    ensures var wire := RunSlots(s, inputs).wire;
            CheckAll(c, Wire(wire)) == CheckAll(c, SourceBytes(Sources(wire)))
    decreases |inputs|
  {
    if inputs != [] {
      var earlier := inputs[..|inputs| - 1];
      ShaperIsTransparent(c, s, earlier);
      RunOnClock(s, earlier);
      var before, input := LastSlot(s, inputs);
      hide CheckPacket, CheckAll, RunSlots, Step, Wire, Sources, SourceBytes;
      StepTransparent(CheckAll(c, Wire(before.wire)).counters, before.state, input);
      TransparentGrows(c, before.wire, Step(before.state, input).emission);
    }
  }

  /** Every emitted packet starts with a sync byte. */
  lemma {:induction false} WireIsSyncLed(s: SlotState, inputs: seq<SlotInput>)
    requires Unlocked(s)
    requires PositiveRates(inputs) && Increasing(inputs) && ClassifiedArrivals(inputs)
    ensures SyncLed(Wire(RunSlots(s, inputs).wire))
  {
    var wire := RunSlots(s, inputs).wire;
    forall i | 0 <= i < |wire| ensures wire[i].bytes[0] == SYNC_BYTE {
      var before := SlotAt(s, inputs, i);
      RunOnClock(s, inputs[..i]);
      assert Classified(inputs[i].arrivals);
      hide Step, RunSlots, Classified;
      StepIsSyncLed(before.state, inputs[i]);
    }
  }

  lemma {:induction false} StepIsSyncLed(s: SlotState, input: SlotInput)
    requires input.rate > 0 && s.pcrPid < 8192
    requires Classified(s.packets) && Classified(input.arrivals)
    ensures Step(s, input).emission.bytes[0] == SYNC_BYTE
  {
    hide Step, SentBytes, PcrPacketAt, NullPacket, Classify;
    StepBytes(s, input);
    StepClassified(s, input);
    match Step(s, input).emission.origin {
      case Real(source) => SentUnchangedOutsidePcr(s.locked, source);
      case Generated => GeneratedPacketParses(s, input.time);
      case Null => NullPacketParses(s.nullCc);
    }
  }

  /** The monitor at the output socket: however the emitted bytes are cut into buffers, its errors and
      state are those of one pass over the source packets among the first k packets emitted. */
  lemma {:induction false} OutputMonitorSeesSources(c: Counters, s: SlotState, inputs: seq<SlotInput>,
                                                    buffers: seq<seq<Byte>>)
    returns (k: nat)
    requires c.Valid() && Unlocked(s)
    requires PositiveRates(inputs) && Increasing(inputs) && ClassifiedArrivals(inputs)
    requires Flatten(buffers) <= Join(Wire(RunSlots(s, inputs).wire))
    ensures k <= |inputs| && |Flatten(buffers)| / TS_PACKET_SIZE <= k + 1
    ensures var r := FeedAll(Monitor(c, []), buffers);
            CheckAll(c, SourceBytes(Sources(RunSlots(s, inputs).wire[..k]))) == Tally(r.monitor.counters, r.errors)
  {
    var wire := RunSlots(s, inputs).wire;
    WireIsSyncLed(s, inputs);
    k := SplitIndependence(c, Wire(wire), buffers);
    RunSlotsPrefix(s, inputs, k);
    ShaperIsTransparent(c, s, inputs[..k]);
    assert Wire(wire)[..k] == Wire(wire[..k]);
  }
}
