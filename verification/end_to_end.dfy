/** From the producer's push to the monitor behind the socket: what a whole run of the shaper, with
    any pushes, clock readings and stops, does to bytes, packets and continuity counters. */
module EndToEnd {
  import opened TransportStream
  import opened Resync
  import opened Slots
  import opened PcrTimeline
  import opened Controller
  import opened SendLoop
  import opened Serving
  import opened Continuity
  import opened Transparency

  /** What a run has sent. */
  function SentBy(cfg: Config, s: SenderState, ticks: seq<Tick>): seq<Emission>
    requires Running(cfg, s.loop)
  {
    RunLoop(cfg, s.loop, ticks).wire
  }

  lemma {:induction false} SourcesAppend(a: seq<Emission>, b: seq<Emission>)
    ensures Sources(a + b) == Sources(a) + Sources(b)
    decreases |b|
  {
    if b == [] {
      assert a + b == a;
    } else {
      assert (a + b)[..|a + b| - 1] == a + b[..|b| - 1];
      SourcesAppend(a, b[..|b| - 1]);
    }
  }

  /** One iteration on its own. */
  lemma {:induction false} SingleTick(cfg: Config, s: SenderState, tick: Tick)
    requires Running(cfg, s.loop)
    ensures SentBy(cfg, s, [tick]) == Iterate(cfg, s.loop, tick).wire
    ensures Sources(SentBy(cfg, s, [tick])) + Iterate(cfg, s.loop, tick).state.slots.packets
            == s.loop.slots.packets + tick.arrivals
  {
    hide Iterate, Running;
    RunLoopOneMore(cfg, s.loop, [], tick);
    LoopIsFifo(cfg, s.loop, [tick]);
    assert [] + [tick] == [tick] && [tick][..0] == [];
    assert TickArrivals([tick]) == tick.arrivals;
  }

  /** What one wake-up keeps. */
  ghost predicate ExactRun(cfg: Config, start: SenderState, run: ServedRun)
    requires Running(cfg, start.loop)
  {
    var sent := Sources(SentBy(cfg, start, run.ticks));
    && BytesHeld(run.state.queue, |run.state.loop.slots.packets|)
    && InPushOrder(start, run, sent)
    && Conserved(start, run, |sent|)
  }

  lemma {:induction false} OneIsExact(cfg: Config, ready: bool, s: SenderState, reading: LoopReading)
    requires Running(cfg, s.loop) && BytesHeld(s.queue, |s.loop.slots.packets|)
    ensures ExactRun(cfg, s, ServeOne(cfg, ready, s, reading))
  {
    hide Iterate, Running, PushedAll, Accepted, RunLoop, Sources, Classified, Parsed;
    var held := s.loop.slots.packets;
    PushesAreQueued(s.queue, ready, reading.pushes, |held|);
    var q := PushedAll(s.queue, ready, reading.pushes);
    ByteCountAppend(s.queue.chunks, Accepted(s.queue, ready, reading.pushes));
    if q.stopping || reading.stop {
      NothingSent(cfg, s);
      assert [] + held + ParsedAll(q.chunks) == held + ParsedAll(q.chunks);
    } else {
      var tick := TickOf(q, held, reading.now);
      SingleTick(cfg, s, tick);
      EveryByteIsAccountedFor(q.chunks);
      var sent, left := Sources(SentBy(cfg, s, [tick])), Iterate(cfg, s.loop, tick).state.slots.packets;
      assert |sent| + |left| == |sent + left| == |held| + |tick.arrivals|;
      assert ParsedAll([]) == [] && ByteCount([]) == 0;
      assert sent + left + [] == sent + left;
    }
  }

  lemma {:induction false} NothingSent(cfg: Config, s: SenderState)
    requires Running(cfg, s.loop)
    ensures SentBy(cfg, s, []) == [] && Sources([]) == []
  {
  }

  /** Two runs, one after the other. */
  lemma {:induction false} OrderComposes(start: SenderState, first: ServedRun, second: ServedRun, both: ServedRun,
                                         sentFirst: seq<TimedTsPacket>, sentSecond: seq<TimedTsPacket>)
    requires InPushOrder(start, first, sentFirst) && InPushOrder(first.state, second, sentSecond)
    requires both.state == second.state && both.accepted == first.accepted + second.accepted
    ensures InPushOrder(start, both, sentFirst + sentSecond)
  {
    hide Classified, Parsed, ParsedAll;
    var middle, q := first.state.loop.slots.packets, first.state.queue.chunks;
    ParsedAllAppend(q, second.accepted);
    ParsedAllAppend(start.queue.chunks + first.accepted, second.accepted);
    assert start.queue.chunks + both.accepted == (start.queue.chunks + first.accepted) + second.accepted;
    var held, rest := both.state.loop.slots.packets, ParsedAll(both.state.queue.chunks);
    calc {
      sentFirst + sentSecond + held + rest;
      sentFirst + (sentSecond + held + rest);
      sentFirst + (middle + (ParsedAll(q) + ParsedAll(second.accepted)));
      sentFirst + middle + ParsedAll(q) + ParsedAll(second.accepted);
    }
  }

  lemma {:induction false} SentInPieces(cfg: Config, s: SenderState, before: ServedRun, last: ServedRun)
    requires Running(cfg, s.loop) && Running(cfg, before.state.loop)
    requires before.state.loop == RunLoop(cfg, s.loop, before.ticks).state && |last.ticks| <= 1
    ensures Sources(SentBy(cfg, s, before.ticks + last.ticks))
            == Sources(SentBy(cfg, s, before.ticks)) + Sources(SentBy(cfg, before.state, last.ticks))
  {
    hide Iterate, Running, Sources;
    if last.ticks == [] {
      NothingSent(cfg, before.state);
      assert before.ticks + [] == before.ticks;
      assert Sources(SentBy(cfg, s, before.ticks)) + [] == Sources(SentBy(cfg, s, before.ticks));
    } else {
      assert last.ticks == [last.ticks[0]];
      RunLoopOneMore(cfg, s.loop, before.ticks, last.ticks[0]);
      SingleTick(cfg, before.state, last.ticks[0]);
      SourcesAppend(SentBy(cfg, s, before.ticks), SentBy(cfg, before.state, last.ticks));
    }
  }

  lemma {:induction false} ExactComposes(cfg: Config, s: SenderState, before: ServedRun, last: ServedRun)
    requires Running(cfg, s.loop) && Running(cfg, before.state.loop)
    requires before.state.loop == RunLoop(cfg, s.loop, before.ticks).state && |last.ticks| <= 1
    requires ExactRun(cfg, s, before) && ExactRun(cfg, before.state, last)
    ensures ExactRun(cfg, s, ServedRun(last.state, before.ticks + last.ticks, before.accepted + last.accepted))
  {
    hide Iterate, Running, RunLoop, Sources, InPushOrder, ByteCount, SentBy;
    SentInPieces(cfg, s, before, last);
    var run := ServedRun(last.state, before.ticks + last.ticks, before.accepted + last.accepted);
    OrderComposes(s, before, last, run, Sources(SentBy(cfg, s, before.ticks)),
      Sources(SentBy(cfg, before.state, last.ticks)));
    ByteCountAppend(before.accepted, last.accepted);
  }

  lemma {:induction false} NothingServed(cfg: Config, ready: bool, s: SenderState)
    requires Running(cfg, s.loop) && BytesHeld(s.queue, |s.loop.slots.packets|)
    ensures ExactRun(cfg, s, Serve(cfg, ready, s, []))
  {
    NothingSent(cfg, s);
    hide Running, RunLoop, SentBy, ParsedAll, Sources;
    assert Serve(cfg, ready, s, []) == ServedRun(s, [], []);
    assert s.queue.chunks + [] == s.queue.chunks;
    assert [] + s.loop.slots.packets + ParsedAll(s.queue.chunks) == s.loop.slots.packets + ParsedAll(s.queue.chunks);
  }

  /** The last wake-up of a run. */
  lemma {:induction false} LastServed(cfg: Config, ready: bool, s: SenderState, readings: seq<LoopReading>)
    requires Running(cfg, s.loop) && readings != []
    ensures var n := |readings| - 1;
            var before := Serve(cfg, ready, s, readings[..n]);
            var last := ServeOne(cfg, ready, before.state, readings[n]);
            && Serve(cfg, ready, s, readings)
               == ServedRun(last.state, before.ticks + last.ticks, before.accepted + last.accepted)
            && |last.ticks| <= 1
            && before.state.loop == RunLoop(cfg, s.loop, before.ticks).state
  {
    hide Running, RunLoop, PushedAll, Accepted, Drained, TickOf, Iterate, ClassifiedTicks;
    ServedIsLoop(cfg, ready, s, readings[..|readings| - 1]);
  }

  lemma {:induction false} ExactHoldsBytes(cfg: Config, start: SenderState, run: ServedRun)
    requires Running(cfg, start.loop) && ExactRun(cfg, start, run)
    ensures BytesHeld(run.state.queue, |run.state.loop.slots.packets|)
  {
  }

  /** Every run of the whole shaper, from any state that counts its bytes: the byte counter is what is
      held and never above 32 MiB; every byte accepted is held, discarded or sent; the packets sent,
      then those held, are the parse of what was accepted, in the order of the pushes. */
  lemma {:induction false} ServedIsExact(cfg: Config, ready: bool, s: SenderState, readings: seq<LoopReading>)
    requires Running(cfg, s.loop) && BytesHeld(s.queue, |s.loop.slots.packets|)
    ensures ExactRun(cfg, s, Serve(cfg, ready, s, readings))
    decreases |readings|
  {
    hide ExactRun, Serve, ServeOne, Running, RunLoop, BytesHeld;
    if readings == [] {
      NothingServed(cfg, ready, s);
    } else {
      var n := |readings| - 1;
      var before := Serve(cfg, ready, s, readings[..n]);
      ServedIsExact(cfg, ready, s, readings[..n]);
      LastServed(cfg, ready, s, readings);
      ExactHoldsBytes(cfg, s, before);
      OneIsExact(cfg, ready, before.state, readings[n]);
      ExactComposes(cfg, s, before, ServeOne(cfg, ready, before.state, readings[n]));
    }
  }

  lemma {:induction false} SourcesOfPrefix(wire: seq<Emission>, k: nat)
    requires k <= |wire|
    ensures Sources(wire[..k]) <= Sources(wire)
    ensures |Sources(wire)| <= |Sources(wire[..k])| + (|wire| - k)
  {
    assert wire == wire[..k] + wire[k..];
    SourcesAppend(wire[..k], wire[k..]);
    FewSources(wire[k..]);
  }

  lemma {:induction false} FewSources(wire: seq<Emission>)
    ensures |Sources(wire)| <= |wire|
    decreases |wire|
  {
    if wire != [] {
      FewSources(wire[..|wire| - 1]);
    }
  }

  /** The packets a run was offered: those held, and those in the chunks queued or accepted. */
  function Offered(start: SenderState, run: ServedRun): seq<TimedTsPacket> {
    start.loop.slots.packets + ParsedAll(start.queue.chunks + run.accepted)
  }

  /** A monitor behind the socket counts what a monitor in front of the shaper counts: however the sent
      bytes are cut into buffers, its errors and its state are those of one pass over the first m
      packets offered to the shaper, and m is short of the packets sent by one at most. Stuffing,
      generated packets, rewritten PCRs, rate changes and late resets cause no error and hide none. */
  lemma {:induction false} MonitorBehindShaper(cfg: Config, ready: bool, s: SenderState, readings: seq<LoopReading>,
                                               c: Counters, buffers: seq<seq<Byte>>)
    returns (m: nat)
    requires Running(cfg, s.loop) && BytesHeld(s.queue, |s.loop.slots.packets|) && Unlocked(s.loop.slots)
    requires c.Valid()
    requires Flatten(buffers) == Join(Wire(SentBy(cfg, s, Serve(cfg, ready, s, readings).ticks)))
    ensures var run := Serve(cfg, ready, s, readings);
            var r := FeedAll(Monitor(c, []), buffers);
            && m <= |Offered(s, run)| && |Sources(SentBy(cfg, s, run.ticks))| <= m + 1
            && CheckAll(c, SourceBytes(Offered(s, run)[..m])) == Tally(r.monitor.counters, r.errors)
  {
    hide Running, Unlocked, Serve, RunLoop, RunSlots, Sources, CheckAll, Feed, FeedAll, Flatten, Join, Wire;
    var run := Serve(cfg, ready, s, readings);
    var wire := SentBy(cfg, s, run.ticks);
    ServedIsExact(cfg, ready, s, readings);
    ServedIsLoop(cfg, ready, s, readings);
    LoopIsSlotRun(cfg, s.loop, run.ticks);
    LoopSpacing(cfg, s.loop, run.ticks);
    LoopClassified(cfg, s.loop, run.ticks);
    var k := OutputMonitorSeesSources(c, s.loop.slots, RunLoop(cfg, s.loop, run.ticks).inputs, buffers);
    SourcesOfPrefix(wire, k);
    m := |Sources(wire[..k])|;
    assert Sources(wire) <= Offered(s, run);
    assert Sources(wire[..k]) == Offered(s, run)[..m];
  }
}
