/** The producer and the sender thread as a transition system: every update of the queue, of
    `bufferedBytes` and of `resyncDiscardedBytes` is a step of its own, and steps of the two sides
    interleave in any order the queue mutex allows. */
module Interleaving {
  import opened TransportStream
  import opened Resync
  import opened Controller

  datatype Producer =
    | Outside                     // nobody holds the mutex
    | Admitted(chunk: seq<Byte>)  // space was found; the mutex is held until the chunk is queued
    | Counted(chunk: seq<Byte>)   // bufferedBytes already includes the chunk

  /** `pushed` and `sent` are histories: all chunks queued, all packets sent. */
  datatype Shared = Shared(
    queued: seq<seq<Byte>>,            // queuedChunks
    producer: Producer,
    buffered: int,                     // bufferedBytes
    discarded: nat,                    // resyncDiscardedBytes
    dropped: nat,                      // subtracted from `buffered`, not yet added to `discarded`
    available: seq<seq<Byte>>,         // chunks the sender has taken, not yet parsed
    current: seq<Byte>,                // the chunk being parsed
    offset: nat,
    scanned: bool,                     // the leading bytes without a sync byte are dropped
    packets: seq<TimedTsPacket>,       // realPackets
    inHand: seq<TimedTsPacket>,        // taken from the queue, not yet subtracted
    pushed: seq<seq<Byte>>,
    sent: seq<TimedTsPacket>)

  datatype Step =
    | Admit(chunk: seq<Byte>)
    | Count
    | Publish
    | Take
    | Begin
    | DropPrefix
    | DropByte
    | ParsePacket
    | DropTail
    | CountDropped
    | Finish
    | Pop
    | Release

  const INITIAL := Shared([], Outside, 0, 0, 0, [], [], 0, false, [], [], [], [])

  /** The length of a chunk's beginning without a sync byte. */
  function PrefixLength(chunk: seq<Byte>): (length: nat)
    ensures length <= |chunk|
    ensures length < |chunk| ==> chunk[length] == SYNC_BYTE
    ensures SYNC_BYTE !in chunk[..length]
  {
    if chunk == [] || chunk[0] == SYNC_BYTE then 0
    else
      var rest := PrefixLength(chunk[1..]);
      assert chunk[..1 + rest] == [chunk[0]] + chunk[1..][..rest];
      1 + rest
  }

  predicate Parsing(s: Shared) {
    s.current != [] && s.scanned && s.dropped == 0
  }

  predicate Enabled(s: Shared, step: Step) {
    match step
    case Admit(chunk) => s.producer.Outside? && chunk != [] && s.buffered + |chunk| <= MAX_BUFFERED_BYTES
    case Count => s.producer.Admitted?
    case Publish => s.producer.Counted?
    case Take => s.producer.Outside? && s.available == [] && s.current == [] && s.inHand == []
    case Begin => s.available != [] && s.current == []
    case DropPrefix => s.current != [] && !s.scanned
    case DropByte => Parsing(s) && s.offset + TS_PACKET_SIZE <= |s.current| && !StartsPacket(s.current, s.offset)
    case ParsePacket => Parsing(s) && s.offset + TS_PACKET_SIZE <= |s.current| && StartsPacket(s.current, s.offset)
    case DropTail => Parsing(s) && s.offset < |s.current| < s.offset + TS_PACKET_SIZE
    case CountDropped => s.dropped > 0
    case Finish => Parsing(s) && s.offset == |s.current|
    case Pop => s.available == [] && s.current == [] && s.inHand == [] && s.packets != []
    case Release => s.inHand != []
  }

  function Apply(s: Shared, step: Step): Shared
    requires Enabled(s, step)
  {
    match step
    case Admit(chunk) => s.(producer := Admitted(chunk))
    case Count => s.(producer := Counted(s.producer.chunk), buffered := s.buffered + |s.producer.chunk|)
    case Publish =>
      s.(producer := Outside, queued := s.queued + [s.producer.chunk], pushed := s.pushed + [s.producer.chunk])
    case Take => s.(available := s.queued, queued := [])
    case Begin => s.(current := s.available[0], available := s.available[1..], offset := 0, scanned := false)
    case DropPrefix =>
      var length := PrefixLength(s.current);
      s.(offset := length, scanned := true, buffered := s.buffered - length, dropped := length)
    case DropByte => s.(offset := s.offset + 1, buffered := s.buffered - 1, dropped := 1)
    case ParsePacket =>
      s.(packets := s.packets + [Classify(s.current[s.offset..s.offset + TS_PACKET_SIZE])],
         offset := s.offset + TS_PACKET_SIZE)
    case DropTail =>
      var length := |s.current| - s.offset;
      s.(offset := |s.current|, buffered := s.buffered - length, dropped := length)
    case CountDropped => s.(discarded := s.discarded + s.dropped, dropped := 0)
    case Finish => s.(current := [], offset := 0, scanned := false)
    case Pop => s.(inHand := [s.packets[0]], packets := s.packets[1..])
    case Release =>
      s.(buffered := s.buffered - TS_PACKET_SIZE, sent := s.sent + s.inHand, inHand := [])
  }

  /** The part of the current chunk not yet parsed or dropped. */
  function Unparsed(s: Shared): int {
    |s.current| - s.offset
  }

  function InFlight(p: Producer): nat {
    if p.Counted? then |p.chunk| else 0
  }

  predicate WellFormed(s: Shared) {
    && s.offset <= |s.current| && (!s.scanned ==> s.offset == 0)
    && (s.dropped > 0 ==> s.current != [] && s.scanned)
    && |s.inHand| <= 1
    && (s.inHand != [] ==> s.current == [] && s.available == [])
    && (s.producer.Admitted? ==> s.buffered + |s.producer.chunk| <= MAX_BUFFERED_BYTES)
  }

  /** `bufferedBytes` is what is held, wherever it is held, and within the bound. */
  predicate BufferedIsHeld(s: Shared) {
    && s.buffered == ByteCount(s.queued) + InFlight(s.producer) + ByteCount(s.available) + Unparsed(s)
                     + TS_PACKET_SIZE * (|s.packets| + |s.inHand|)
    && s.buffered <= MAX_BUFFERED_BYTES
  }

  /** What was accepted is held, or discarded (counted as such or about to be), or sent. */
  predicate BytesConserved(s: Shared) {
    ByteCount(s.pushed) + InFlight(s.producer) == s.buffered + s.dropped + s.discarded + TS_PACKET_SIZE * |s.sent|
  }

  /** The packets of all chunks pushed, in order: sent, then held, then still to be parsed. */
  predicate PacketsInOrder(s: Shared) {
    ParsedAll(s.pushed)
    == s.sent + s.inHand + s.packets + ParsedFrom(s.current, s.offset) + ParsedAll(s.available) + ParsedAll(s.queued)
  }

  predicate Invariant(s: Shared) {
    WellFormed(s) && BufferedIsHeld(s) && BytesConserved(s) && PacketsInOrder(s)
  }

  lemma {:induction false} StepKeepsBytes(s: Shared, step: Step)
    requires Enabled(s, step) && WellFormed(s) && BufferedIsHeld(s) && BytesConserved(s)
    ensures var t := Apply(s, step);
            WellFormed(t) && BufferedIsHeld(t) && BytesConserved(t)
  {
    hide Classify, StartsPacket, ParsedFrom, ParsedAll;
    match step {
      case Publish =>
        ByteCountAppend(s.queued, [s.producer.chunk]);
        ByteCountAppend(s.pushed, [s.producer.chunk]);
        assert ByteCount([s.producer.chunk]) == |s.producer.chunk| + ByteCount([]);
      case _ =>
    }
  }

  lemma {:induction false} PrefixHasNoPackets(chunk: seq<Byte>, at: nat)
    requires at <= PrefixLength(chunk)
    ensures ParsedFrom(chunk, at) == ParsedFrom(chunk, PrefixLength(chunk))
    decreases PrefixLength(chunk) - at
  {
    hide Classify;
    var length := PrefixLength(chunk);
    if at < length {
      assert chunk[..length][at] == chunk[at];
      PrefixHasNoPackets(chunk, at + 1);
    }
  }

  lemma {:induction false} PublishKeepsOrder(s: Shared)
    requires s.producer.Counted? && PacketsInOrder(s)
    ensures PacketsInOrder(Apply(s, Publish))
  {
    hide ParsedFrom, Parsed, Classified;
    var chunk := [s.producer.chunk];
    ParsedAllAppend(s.queued, chunk);
    ParsedAllAppend(s.pushed, chunk);
    var before := s.sent + s.inHand + s.packets + ParsedFrom(s.current, s.offset) + ParsedAll(s.available);
    assert before + ParsedAll(s.queued + chunk) == (before + ParsedAll(s.queued)) + ParsedAll(chunk);
  }

  lemma {:induction false} TakeKeepsOrder(s: Shared)
    requires Enabled(s, Take) && PacketsInOrder(s)
    ensures PacketsInOrder(Apply(s, Take))
  {
    hide ParsedFrom, Parsed, Classified;
    var before := s.sent + s.inHand + s.packets + ParsedFrom(s.current, s.offset);
    assert ParsedAll([]) == [];
    assert before + [] == before && before + ParsedAll(s.queued) + [] == before + ParsedAll(s.queued);
  }

  lemma {:induction false} BeginKeepsOrder(s: Shared)
    requires Enabled(s, Begin) && PacketsInOrder(s)
    ensures PacketsInOrder(Apply(s, Begin))
  {
    NothingToParse(s);
    hide ParsedFrom, Classified;
    var t := Apply(s, Begin);
    var before := s.sent + s.inHand + s.packets;
    assert ParsedAll(s.available) == Parsed(t.current) + ParsedAll(t.available);
    assert before + [] == before;
    assert before + (Parsed(t.current) + ParsedAll(t.available)) == before + Parsed(t.current) + ParsedAll(t.available);
  }

  lemma {:induction false} ParseKeepsOrder(s: Shared)
    requires Enabled(s, ParsePacket) && PacketsInOrder(s)
    ensures PacketsInOrder(Apply(s, ParsePacket))
  {
    hide Classify, Classified, ParsedAll;
    var t := Apply(s, ParsePacket);
    var packet := [Classify(s.current[s.offset..s.offset + TS_PACKET_SIZE])];
    var rest := ParsedFrom(t.current, t.offset);
    assert ParsedFrom(s.current, s.offset) == packet + rest;
    hide ParsedFrom;
    assert (s.sent + s.inHand + s.packets) + (packet + rest) == (s.sent + s.inHand + (s.packets + packet)) + rest;
  }

  lemma {:induction false} PopKeepsOrder(s: Shared)
    requires Enabled(s, Pop) && PacketsInOrder(s)
    ensures PacketsInOrder(Apply(s, Pop))
  {
    hide Classify, Classified, ParsedFrom, ParsedAll;
    var t := Apply(s, Pop);
    assert s.sent + s.inHand + s.packets == t.sent + t.inHand + t.packets by {
      assert s.packets == [s.packets[0]] + s.packets[1..];
      assert s.sent + s.inHand == s.sent;
    }
  }

  /** A step that moves no packet and drops only what is not one. */
  lemma {:induction false} DropKeepsOrder(s: Shared, step: Step)
    requires Enabled(s, step) && WellFormed(s) && PacketsInOrder(s)
    requires step in {DropPrefix, DropByte, DropTail, CountDropped, Finish, Release, Count} || step.Admit?
    ensures PacketsInOrder(Apply(s, step))
  {
    hide Classify, Classified, ParsedAll;
    var t := Apply(s, step);
    if step == DropPrefix { PrefixHasNoPackets(s.current, 0); }
    assert ParsedFrom(t.current, t.offset) == ParsedFrom(s.current, s.offset);
    assert t.sent + t.inHand == s.sent + s.inHand;
  }

  lemma {:induction false} StepKeepsOrder(s: Shared, step: Step)
    requires Enabled(s, step) && WellFormed(s) && PacketsInOrder(s)
    ensures PacketsInOrder(Apply(s, step))
  {
    hide PacketsInOrder;
    match step {
      case Publish => PublishKeepsOrder(s);
      case Take => TakeKeepsOrder(s);
      case Begin => BeginKeepsOrder(s);
      case ParsePacket => ParseKeepsOrder(s);
      case Pop => PopKeepsOrder(s);
      case _ => DropKeepsOrder(s, step);
    }
  }

  /** Any interleaving: a sequence of enabled steps. */
  predicate Executable(s: Shared, steps: seq<Step>)
    decreases |steps|
  {
    steps != [] ==> Enabled(s, steps[0]) && Executable(Apply(s, steps[0]), steps[1..])
  }

  function Execute(s: Shared, steps: seq<Step>): Shared
    requires Executable(s, steps)
    decreases |steps|
  {
    if steps == [] then s else Execute(Apply(s, steps[0]), steps[1..])
  }

  lemma {:induction false} ExecutionKeepsInvariant(s: Shared, steps: seq<Step>)
    requires Invariant(s) && Executable(s, steps)
    ensures Invariant(Execute(s, steps))
    decreases |steps|
  {
    hide WellFormed, BufferedIsHeld, BytesConserved, PacketsInOrder, Apply, Enabled;
    if steps != [] {
      StepKeepsBytes(s, steps[0]);
      StepKeepsOrder(s, steps[0]);
      ExecutionKeepsInvariant(Apply(s, steps[0]), steps[1..]);
    }
  }

  /** After every interleaving from the empty state: the byte counter is what is held, never negative
      and never above 32 MiB; every byte accepted is held, discarded or sent; and packets leave in
      the order in which their chunks were pushed. */
  lemma {:induction false} EveryInterleaving(steps: seq<Step>)
    requires Executable(INITIAL, steps)
    ensures var s := Execute(INITIAL, steps);
            && 0 <= s.buffered <= MAX_BUFFERED_BYTES && BufferedIsHeld(s) && BytesConserved(s) && PacketsInOrder(s)
  {
    assert ParsedFrom([], 0) == [] && ParsedAll([]) == [];
    assert Invariant(INITIAL);
    hide Execute, Executable, PacketsInOrder;
    ExecutionKeepsInvariant(INITIAL, steps);
  }

  /** Once the sender has parsed all it took and nothing is under way, what left and what is queued
      for sending is exactly the parse of what was pushed and taken. */
  lemma {:induction false} QuietStateIsFifo(steps: seq<Step>)
    requires Executable(INITIAL, steps)
    requires var s := Execute(INITIAL, steps);
             s.current == [] && s.available == [] && s.queued == [] && s.inHand == []
    ensures var s := Execute(INITIAL, steps);
            s.sent + s.packets == ParsedAll(s.pushed)
  {
    var s := Execute(INITIAL, steps);
    EveryInterleaving(steps);
    NothingToParse(s);
    hide Execute, Executable;
    assert ParsedAll([]) == [];
    assert s.sent + [] + s.packets + [] + [] + [] == s.sent + s.packets;
  }

  lemma {:induction false} NothingToParse(s: Shared)
    requires s.current == []
    ensures ParsedFrom(s.current, s.offset) == []
  {
  }
}
