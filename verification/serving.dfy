/** The producer's pushes and the sender's loop together: what a whole run of the shaper does, as a
    function of the pushes, the clock readings and the moment it is stopped. */
module Serving {
  import opened TransportStream
  import opened Resync
  import opened Controller
  import opened SendLoop

  datatype Flow = FlowOk | FlowFlushing | FlowError | FlowWaits

  /** The part of the state the producer shares with the sender. */
  datatype Queue = Queue(
    chunks: seq<seq<Byte>>,
    buffered: nat,
    received: nat,
    discarded: nat,
    firstArrivalNs: nat,
    stopping: bool)

  /** A push; `waiting` when its caller was found waiting for space and looks again. */
  datatype Push = Push(bytes: seq<Byte>, now: nat, waiting: bool)

  datatype PushResult = PushResult(queue: Queue, flow: Flow)

  /** Once a chunk has been counted as received: queued, still waiting, or turned away. */
  function Enqueued(q: Queue, bytes: seq<Byte>, arrival: nat): PushResult {
    if q.stopping then PushResult(q, FlowFlushing)
    else if q.buffered + |bytes| > MAX_BUFFERED_BYTES then PushResult(q, FlowWaits)
    else PushResult(q.(chunks := q.chunks + [bytes], buffered := q.buffered + |bytes|,
                       firstArrivalNs := if q.firstArrivalNs == 0 then arrival else q.firstArrivalNs), FlowOk)
  }

  /** What a push does to the shared state, and what the producer is told. */
  function Pushed(q: Queue, ready: bool, push: Push): PushResult {
    if push.waiting then Enqueued(q, push.bytes, push.now)
    else if !ready then PushResult(q, FlowError)
    else if push.bytes == [] then PushResult(q, FlowOk)
    else Enqueued(q.(received := q.received + |push.bytes|), push.bytes, push.now)
  }

  function PushedAll(q: Queue, ready: bool, pushes: seq<Push>): Queue {
    if pushes == [] then q
    else Pushed(PushedAll(q, ready, pushes[..|pushes| - 1]), ready, pushes[|pushes| - 1]).queue
  }

  /** Whether a push gets its chunk into the queue. */
  predicate Enqueues(q: Queue, ready: bool, push: Push) {
    (push.waiting || (ready && push.bytes != [])) && !q.stopping && q.buffered + |push.bytes| <= MAX_BUFFERED_BYTES
  }

  /** The chunks among the pushes that were queued. */
  function Accepted(q: Queue, ready: bool, pushes: seq<Push>): seq<seq<Byte>> {
    if pushes == [] then []
    else
      var n := |pushes| - 1;
      Accepted(q, ready, pushes[..n])
      + if Enqueues(PushedAll(q, ready, pushes[..n]), ready, pushes[n]) then [pushes[n].bytes] else []
  }

  /** The queue after the sender took all of it, with `left` packets still to be sent. */
  function Drained(q: Queue, left: nat): Queue {
    q.(chunks := [], buffered := TS_PACKET_SIZE * left, discarded := q.discarded + DiscardedAll(q.chunks))
  }

  /** The iteration the sender makes of a queue and a clock reading. */
  function TickOf(q: Queue, held: seq<TimedTsPacket>, now: nat): Tick {
    var arrivals := ParsedAll(q.chunks);
    Tick(now, arrivals, TS_PACKET_SIZE * (|held| + |arrivals|), q.received)
  }

  datatype SenderState = SenderState(queue: Queue, loop: LoopState)

  /** One wake-up of the sender: the pushes since the last one, the clock, whether it is to stop. */
  datatype LoopReading = LoopReading(now: nat, pushes: seq<Push>, stop: bool)

  datatype ServedRun = ServedRun(state: SenderState, ticks: seq<Tick>, accepted: seq<seq<Byte>>)

  function ServeOne(cfg: Config, ready: bool, s: SenderState, reading: LoopReading): (run: ServedRun)
    requires Running(cfg, s.loop)
    ensures Running(cfg, run.state.loop)
  {
    var q := PushedAll(s.queue, ready, reading.pushes);
    var accepted := Accepted(s.queue, ready, reading.pushes);
    if q.stopping || reading.stop then ServedRun(SenderState(q.(stopping := true), s.loop), [], accepted)
    else
      var tick := TickOf(q, s.loop.slots.packets, reading.now);
      var next := Iterate(cfg, s.loop, tick).state;
      ServedRun(SenderState(Drained(q, |next.slots.packets|), next), [tick], accepted)
  }

  /** Wake-up after wake-up. */
  function Serve(cfg: Config, ready: bool, s: SenderState, readings: seq<LoopReading>): (run: ServedRun)
    requires Running(cfg, s.loop)
    ensures Running(cfg, run.state.loop)
  {
    if readings == [] then ServedRun(s, [], [])
    else
      var n := |readings| - 1;
      var before := Serve(cfg, ready, s, readings[..n]);
      var last := ServeOne(cfg, ready, before.state, readings[n]);
      ServedRun(last.state, before.ticks + last.ticks, before.accepted + last.accepted)
  }

  lemma {:induction false} RunLoopOneMore(cfg: Config, l: LoopState, ticks: seq<Tick>, tick: Tick)
    requires Running(cfg, l)
    ensures var before := RunLoop(cfg, l, ticks);
            var last := Iterate(cfg, before.state, tick);
            && RunLoop(cfg, l, ticks + [tick]).state == last.state
            && RunLoop(cfg, l, ticks + [tick]).wire == before.wire + last.wire
  {
    hide Iterate, Running;
    assert (ticks + [tick])[..|ticks|] == ticks;
  }

  /** What is served is a run of the send loop: everything proved of those holds. */
  lemma {:induction false} ServedIsLoop(cfg: Config, ready: bool, s: SenderState, readings: seq<LoopReading>)
    requires Running(cfg, s.loop)
    ensures var run := Serve(cfg, ready, s, readings);
            && run.state.loop == RunLoop(cfg, s.loop, run.ticks).state
            && ClassifiedTicks(run.ticks)
            && |run.ticks| <= |readings|
    decreases |readings|
  {
    hide Iterate, Running, Classified, ParsedAll, PushedAll, Accepted, DiscardedAll;
    if readings != [] {
      var n := |readings| - 1;
      var before := Serve(cfg, ready, s, readings[..n]);
      ServedIsLoop(cfg, ready, s, readings[..n]);
      var last := ServeOne(cfg, ready, before.state, readings[n]);
      if last.ticks == [] {
        assert before.ticks + [] == before.ticks;
      } else {
        RunLoopOneMore(cfg, s.loop, before.ticks, last.ticks[0]);
      }
    }
  }

  /** What a push comes to, with the bound of 32 MiB in numbers, and what its caller is told. Only a new push
      counts its bytes as received, and it does so before it is known whether they can be queued. */
  lemma {:induction false} PushOutcome(q: Queue, ready: bool, push: Push)
    requires !push.waiting
    ensures var r := Pushed(q, ready, push);
            var fits := q.buffered + |push.bytes| <= 33_554_432;
            && (r.flow == FlowError <==> !ready)
            && (r.flow == FlowFlushing <==> ready && push.bytes != [] && q.stopping)
            && (r.flow == FlowWaits <==> ready && push.bytes != [] && !q.stopping && !fits)
            && r.queue.received == q.received + (if ready then |push.bytes| else 0)
            && r.queue.chunks == (if r.flow == FlowOk && push.bytes != [] then q.chunks + [push.bytes] else q.chunks)
            && r.queue.firstArrivalNs
               == (if r.flow == FlowOk && push.bytes != [] && q.firstArrivalNs == 0 then push.now else q.firstArrivalNs)
            && r.queue.stopping == q.stopping
  {
  }

  /** A caller that waited and looks again: the same, but nothing is received anew. */
  lemma {:induction false} WaitOutcome(q: Queue, ready: bool, push: Push)
    requires push.waiting && ready && push.bytes != []
    ensures var again := Pushed(q, ready, push.(waiting := false));
            Pushed(q, ready, push) == PushResult(again.queue.(received := q.received), again.flow)
  {
  }

  /** The iteration of a wake-up sees the reservoir as it is when everything queued has been parsed: its
      occupancy is the bytes then held, and the bytes received are those counted by then. */
  lemma {:induction false} TickSeesReservoir(q: Queue, held: seq<TimedTsPacket>, now: nat)
    requires BytesHeld(q, |held|)
    ensures var tick := TickOf(q, held, now);
            && tick.buffered == q.buffered - DiscardedAll(q.chunks)
            && tick.buffered == TS_PACKET_SIZE * |held + tick.arrivals|
            && tick.now == now && tick.received == q.received
  {
    hide ParsedAll, DiscardedAll;
    EveryByteIsAccountedFor(q.chunks);
  }

  // What was accepted

  /** The bytes counted as buffered are those held, within the bound. */
  predicate BytesHeld(q: Queue, held: nat) {
    q.buffered == ByteCount(q.chunks) + TS_PACKET_SIZE * held && q.buffered <= MAX_BUFFERED_BYTES
  }

  lemma {:induction false} PushesAreQueued(q: Queue, ready: bool, pushes: seq<Push>, held: nat)
    requires BytesHeld(q, held)
    ensures var r := PushedAll(q, ready, pushes);
            && r.chunks == q.chunks + Accepted(q, ready, pushes)
            && BytesHeld(r, held) && r.discarded == q.discarded
    decreases |pushes|
  {
    if pushes != [] {
      var n := |pushes| - 1;
      PushesAreQueued(q, ready, pushes[..n], held);
      var before, chunk := PushedAll(q, ready, pushes[..n]), [pushes[n].bytes];
      assert ByteCount(chunk) == |pushes[n].bytes| + ByteCount([]);
      ByteCountAppend(before.chunks, chunk);
      hide ByteCount;
    }
  }

  /** First in, first out, from push to socket: the packets sent, those held, and those of the chunks
      not taken yet, are the packets held at the start and the parse of the chunks accepted, in the
      order of the pushes. */
  ghost predicate InPushOrder(start: SenderState, run: ServedRun, sent: seq<TimedTsPacket>) {
    sent + run.state.loop.slots.packets + ParsedAll(run.state.queue.chunks)
    == start.loop.slots.packets + ParsedAll(start.queue.chunks + run.accepted)
  }

  /** Every byte accepted is still held, was discarded, or was sent. */
  ghost predicate Conserved(start: SenderState, run: ServedRun, sent: nat) {
    start.queue.buffered + start.queue.discarded + ByteCount(run.accepted)
    == run.state.queue.buffered + run.state.queue.discarded + TS_PACKET_SIZE * sent
  }
}
