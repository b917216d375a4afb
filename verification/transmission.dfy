/** The shaper from its construction to its end: the constructor, the wait for the startup reservoir with
    pushes coming in, and the send loop. What the theorems about runs ask of their first state is what
    starting leaves behind. */
module Transmission {
  import opened TransportStream
  import opened Pcr
  import opened Resync
  import opened Slots
  import opened PcrTimeline
  import opened Controller
  import opened Schedule
  import opened SendLoop
  import opened Serving
  import opened EndToEnd
  import opened Sender

  /** One look at the reservoir: what is pushed before the arrival time of the first chunk is read, and
      between that and the parsing; the clock then and at the start of the loop; whether to stop. */
  datatype StartupPoll = StartupPoll(early: seq<Push>, late: seq<Push>, now: nat, start: nat, stop: bool)

  /** The first state of a run, as the theorems about runs take it. */
  ghost predicate Begins(cfg: Config, s: SenderState) {
    && Running(cfg, s.loop) && Unlocked(s.loop.slots)
    && BytesHeld(s.queue, |s.loop.slots.packets|)
    && s.loop.timeline == Timeline(s.loop.timeline.next, 0, 0)
  }

  lemma {:induction false} FirstArrivalStays(q: Queue, ready: bool, pushes: seq<Push>)
    ensures q.firstArrivalNs != 0 ==> PushedAll(q, ready, pushes).firstArrivalNs == q.firstArrivalNs
    ensures q.firstArrivalNs == 0 ==>
              var now := PushedAll(q, ready, pushes).firstArrivalNs;
              now == 0 || exists i :: 0 <= i < |pushes| && pushes[i].now == now
    decreases |pushes|
  {
    if pushes != [] {
      FirstArrivalStays(q, ready, pushes[..|pushes| - 1]);
    }
  }

  // The startup reservoir

  /** What is held while the sender waits: the queue, and the packets parsed. */
  datatype Reservoir = Reservoir(queue: Queue, packets: seq<TimedTsPacket>)

  const EMPTY := Reservoir(Queue([], 0, 0, 0, 0, false), [])

  /** The queue when the arrival time of the first chunk is read. */
  function WhenRead(r: Reservoir, poll: StartupPoll): Queue {
    PushedAll(r.queue, true, poll.early)
  }

  /** The queue when the sender then decides. */
  function WhenDecided(r: Reservoir, poll: StartupPoll): Queue {
    var q := PushedAll(WhenRead(r, poll), true, poll.late);
    if poll.stop then q.(stopping := true) else q
  }

  /** Five seconds since the arrival time read. */
  predicate Waited(r: Reservoir, poll: StartupPoll) {
    !WhenDecided(r, poll).stopping && poll.now >= WhenRead(r, poll).firstArrivalNs + STARTUP_RESERVOIR_NS
  }

  /** What a look leaves: everything queued is parsed if the wait is over. */
  function Looked(r: Reservoir, poll: StartupPoll): Reservoir {
    var q := WhenDecided(r, poll);
    if !Waited(r, poll) then Reservoir(q, r.packets)
    else
      var packets := r.packets + ParsedAll(q.chunks);
      Reservoir(Drained(q, |packets|), packets)
  }

  /** Sending starts when the wait is over and five PCR packets are held. */
  predicate StartsAt(r: Reservoir, poll: StartupPoll) {
    Waited(r, poll) && CountPcrs(Looked(r, poll).packets) >= 5
  }

  /** Both conditions in numbers. */
  lemma {:induction false} StartsAtInNumbers(r: Reservoir, poll: StartupPoll)
    ensures var held := Looked(r, poll).packets;
            StartsAt(r, poll)
            <==> !WhenDecided(r, poll).stopping && poll.now >= WhenRead(r, poll).firstArrivalNs + 5_000_000_000
                 && |set i | 0 <= i < |held| && held[i].hasPcr| >= 5
  {
    CountPcrsIs(Looked(r, poll).packets);
    hide Looked, CountPcrs, PushedAll;
  }

  function LookedAll(r: Reservoir, polls: seq<StartupPoll>): Reservoir {
    if polls == [] then r else Looked(LookedAll(r, polls[..|polls| - 1]), polls[|polls| - 1])
  }

  /** The first look at which sending starts. */
  ghost predicate StartsFirstAt(polls: seq<StartupPoll>, k: nat) {
    && k < |polls| && StartsAt(LookedAll(EMPTY, polls[..k]), polls[k])
    && NoStart(polls, k)
  }

  ghost predicate NoStart(polls: seq<StartupPoll>, k: nat)
    requires k <= |polls|
  {
    forall i :: 0 <= i < k ==> !StartsAt(LookedAll(EMPTY, polls[..i]), polls[i])
  }

  /** Five seconds have passed since the first chunk arrived. */
  predicate WaitKept(r: Reservoir, poll: StartupPoll) {
    poll.now >= Looked(r, poll).queue.firstArrivalNs + STARTUP_RESERVOIR_NS
  }

  /** The five seconds are kept whenever a chunk had been queued before the arrival time was read. And
      only then: when the first chunk is queued after that, and the look comes less than five seconds
      after the pushes it follows, sending starts without the wait, if it starts. */
  lemma {:induction false} WaitIsKeptIff(r: Reservoir, poll: StartupPoll)
    requires StartsAt(r, poll) && Looked(r, poll).queue.firstArrivalNs != 0
    requires forall i :: 0 <= i < |poll.late| ==> poll.now < poll.late[i].now + STARTUP_RESERVOIR_NS
    ensures WaitKept(r, poll) <==> WhenRead(r, poll).firstArrivalNs != 0
  {
    FirstArrivalStays(WhenRead(r, poll), true, poll.late);
    hide PushedAll, CountPcrs, ParsedAll, DiscardedAll;
  }

  lemma {:induction false} WaitIsKept(r: Reservoir, poll: StartupPoll)
    requires StartsAt(r, poll) && WhenRead(r, poll).firstArrivalNs != 0
    ensures WaitKept(r, poll)
  {
    FirstArrivalStays(WhenRead(r, poll), true, poll.late);
    hide PushedAll, CountPcrs, ParsedAll, DiscardedAll;
  }

  // A start without the wait

  const FIVE_PCRS := [PCR_ONLY_PACKET, PCR_ONLY_PACKET, PCR_ONLY_PACKET, PCR_ONLY_PACKET, PCR_ONLY_PACKET]

  /** An hour after boot, nothing is queued when the arrival time is read; then five packets arrive, all
      at once, before the sender looks. */
  const HURRIED :=
    StartupPoll([], [Push(Join(FIVE_PCRS), 3_600_000_000_000, false)], 3_600_000_000_000, 3_600_000_000_000, false)

  lemma {:induction false} AllAreCounted(packets: seq<TimedTsPacket>)
    requires forall i :: 0 <= i < |packets| ==> packets[i].hasPcr
    ensures CountPcrs(packets) == |packets|
  {
    if packets != [] {
      AllAreCounted(packets[..|packets| - 1]);
    }
  }

  lemma {:induction false} PcrOnlyHasPcr()
    ensures Classify(PCR_ONLY_PACKET).hasPcr && PCR_ONLY_PACKET[0] == SYNC_BYTE
  {
    WitnessPackets();
    hide ParsePcr, Pid;
  }

  lemma {:induction false} ParsedOne(chunk: seq<Byte>)
    ensures ParsedAll([chunk]) == Parsed(chunk)
  {
    hide Parsed;
    assert Parsed(chunk) + [] == Parsed(chunk);
  }

  lemma {:induction false} FivePcrsCount()
    ensures CountPcrs(ParsedAll([Join(FIVE_PCRS)])) == 5
  {
    hide Classify, Join, Parsed, ParsedAll, CountPcrs, DiscardedFrom;
    PcrOnlyHasPcr();
    assert SYNC_BYTE !in [] && [] + Join(FIVE_PCRS) == Join(FIVE_PCRS);
    assert SyncLed(FIVE_PCRS) && forall i :: 0 <= i < 5 ==> FIVE_PCRS[i] == PCR_ONLY_PACKET;
    ParsedExactly([], FIVE_PCRS);
    ParsedOne(Join(FIVE_PCRS));
    var queued := ClassifyAll(FIVE_PCRS);
    hide ClassifyAll, SyncLed;
    AllAreCounted(queued);
  }

  /** Sending starts at the very moment the first chunk arrives. */
  lemma {:induction false} StartsWithoutWaiting()
    ensures StartsFirstAt([HURRIED], 0) && !WaitKept(EMPTY, HURRIED)
    ensures Looked(EMPTY, HURRIED).queue.firstArrivalNs == HURRIED.now
  {
    FivePcrsCount();
    assert HURRIED.late[..0] == [] && [HURRIED][..0] == [];
    hide ParsedAll, CountPcrs, DiscardedAll;
    assert |Join(FIVE_PCRS)| == 5 * TS_PACKET_SIZE;
    hide Join;
    assert [] + [Join(FIVE_PCRS)] == [Join(FIVE_PCRS)];
    assert EMPTY.packets + ParsedAll([Join(FIVE_PCRS)]) == ParsedAll([Join(FIVE_PCRS)]);
  }

  // The methods

  ghost function ReservoirOf(sender: StableUdpSender): Reservoir
    reads sender
  {
    Reservoir(sender.QueueView(), sender.realPackets)
  }

  /** One look, with the pushes around it. */
  method Poll(sender: StableUdpSender, poll: StartupPoll) returns (started: bool, timeline: Timeline)
    requires sender.Valid() && sender.ready && Unlocked(sender.SlotView())
    modifies sender
    ensures sender.Valid() && sender.ready && sender.socket == old(sender.socket)
    ensures Unlocked(sender.SlotView())
    ensures started <==> StartsAt(old(ReservoirOf(sender)), poll)
    ensures ReservoirOf(sender) == Looked(old(ReservoirOf(sender)), poll)
    ensures started ==> Begins(sender.cfg, sender.WholeView(timeline)) && timeline == Timeline(poll.start, 0, 0)
  {
    hide Running, PushedAll, KeepsReserve, Startup, CountPcrs, TransportFor, MaxRealPace, Classify, Drained, ParsedAll;
    hide StableUdpSender.ControlView, StableUdpSender.SlotView;
    sender.PushAll(poll.early);
    var firstArrival := sender.firstChunkArrivalNanoseconds;
    FirstArrivalStays(sender.QueueView(), sender.ready, poll.late);
    sender.PushAll(poll.late);
    if poll.stop {
      sender.Stop();
    }
    started, timeline := sender.StartSending(firstArrival, poll.now, poll.start);
  }

  /** A whole transmission. Sending starts at the first look that finds the wait over and five PCR packets
      held, with the reservoir as it then is, and in a state all theorems about runs apply to. What the
      socket receives is what `Serve` sends from there, byte for byte. */
  method Transmit(cfg: Config, socketOpens: bool, polls: seq<StartupPoll>, readings: seq<LoopReading>)
    returns (socket: seq<seq<Byte>>, started: bool, looks: nat, ghost begun: SenderState)
    ensures !Supported(cfg) || !socketOpens ==> !started
    ensures !started ==> socket == []
    ensures Supported(cfg) && socketOpens && !started ==> NoStart(polls, |polls|)
    ensures started ==>
      && looks > 0 && StartsFirstAt(polls, looks - 1)
      && Reservoir(begun.queue, begun.loop.slots.packets) == LookedAll(EMPTY, polls[..looks])
      && Begins(cfg, begun)
      && Continuity.Flatten(socket) == Join(Wire(SentBy(cfg, begun, Serve(cfg, true, begun, readings).ticks)))
  {
    hide Running, Unlocked, Begins, Serve, RunLoop, Join, Wire, Looked, StartsAt;
    var sender := new StableUdpSender(cfg, socketOpens);
    var timeline := Timeline(0, 0, 0);
    started, looks := false, 0;
    assert polls[..0] == [];
    while looks < |polls| && sender.ready && !started
      invariant looks <= |polls|
      invariant sender.Valid() && fresh(sender) && sender.cfg == cfg && sender.socket == []
      invariant sender.ready == (Supported(cfg) && socketOpens) && (started ==> sender.ready)
      invariant Unlocked(sender.SlotView())
      invariant ReservoirOf(sender) == LookedAll(EMPTY, polls[..looks])
      invariant if started then looks > 0 && StartsFirstAt(polls, looks - 1) else NoStart(polls, looks)
      invariant started ==> Begins(cfg, sender.WholeView(timeline))
    {
      assert polls[..looks + 1][..looks] == polls[..looks];
      started, timeline := Poll(sender, polls[looks]);
      looks := looks + 1;
    }
    begun := sender.WholeView(timeline);
    if started {
      ghost var ticks;
      BeginsRunning(cfg, begun);
      timeline, ticks := sender.SendLoop(timeline, readings);
      assert [] + Join(Wire(RunLoop(cfg, begun.loop, ticks).wire)) == Join(Wire(RunLoop(cfg, begun.loop, ticks).wire));
    }
    socket := sender.socket;
  }

  lemma {:induction false} BeginsRunning(cfg: Config, s: SenderState)
    requires Begins(cfg, s)
    ensures Running(cfg, s.loop)
  {
  }
}
