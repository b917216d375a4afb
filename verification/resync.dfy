/** Cutting a pushed chunk of bytes into transport packets (StableUdpSender::queueChunk). */
module Resync {
  import opened TransportStream
  import opened Pcr
  import GreedyScan

  datatype TimedTsPacket = TimedTsPacket(
    bytes: Packet,
    pid: nat,
    hasPcr: bool,
    discontinuity: bool,
    sourcePcrTicks: nat)

  /** A packet as it is queued: its bytes and what is read out of them. */
  function Classify(p: Packet): TimedTsPacket {
    var pcr := ParsePcr(p);
    TimedTsPacket(p, Pid(p), pcr.found, pcr.discontinuity, pcr.ticks)
  }

  /** Queued packets start with a sync byte and say of themselves what their bytes say. */
  predicate Classified(packets: seq<TimedTsPacket>) {
    forall i :: 0 <= i < |packets| ==> packets[i] == Classify(packets[i].bytes) && packets[i].bytes[0] == SYNC_BYTE
  }

  predicate SyncLed(packets: seq<Packet>) {
    forall i :: 0 <= i < |packets| ==> packets[i][0] == SYNC_BYTE
  }

  /** A packet starts here: a sync byte, and a second one behind it when a whole further packet follows. */
  predicate StartsPacket(chunk: seq<Byte>, at: nat)
    requires at + TS_PACKET_SIZE <= |chunk|
  {
    && chunk[at] == SYNC_BYTE
    && (at + 2 * TS_PACKET_SIZE <= |chunk| ==> chunk[at + TS_PACKET_SIZE] == SYNC_BYTE)
  }

  /** The packets queued from offset `at` of a chunk on. */
  function ParsedFrom(chunk: seq<Byte>, at: nat): (packets: seq<TimedTsPacket>)
    ensures Classified(packets)
    ensures at <= |chunk| ==> TS_PACKET_SIZE * |packets| <= |chunk| - at
    decreases |chunk| - at
  {
    if at + TS_PACKET_SIZE > |chunk| then []
    else if StartsPacket(chunk, at) then
      [Classify(chunk[at..at + TS_PACKET_SIZE])] + ParsedFrom(chunk, at + TS_PACKET_SIZE)
    else ParsedFrom(chunk, at + 1)
  }

  function Parsed(chunk: seq<Byte>): seq<TimedTsPacket> {
    ParsedFrom(chunk, 0)
  }

  /** How many bytes of a chunk are thrown away from offset `at` on: the bytes at which no packet
      starts, one by one, and the tail too short for a packet. */
  function DiscardedFrom(chunk: seq<Byte>, at: nat): (count: nat)
    requires at <= |chunk|
    ensures count <= |chunk| - at
    decreases |chunk| - at
  {
    if at + TS_PACKET_SIZE > |chunk| then |chunk| - at
    else if StartsPacket(chunk, at) then DiscardedFrom(chunk, at + TS_PACKET_SIZE)
    else 1 + DiscardedFrom(chunk, at + 1)
  }

  /** Every byte of a chunk ends up in exactly one packet or is discarded. */
  lemma {:induction false} ParsedOrDiscarded(chunk: seq<Byte>, at: nat)
    requires at <= |chunk|
    ensures |chunk| - at == TS_PACKET_SIZE * |ParsedFrom(chunk, at)| + DiscardedFrom(chunk, at)
    decreases |chunk| - at
  {
    hide Classify, Classified;
    if at + TS_PACKET_SIZE <= |chunk| {
      ParsedOrDiscarded(chunk, if StartsPacket(chunk, at) then at + TS_PACKET_SIZE else at + 1);
    }
  }

  function ParsedAll(chunks: seq<seq<Byte>>): (packets: seq<TimedTsPacket>)
    ensures Classified(packets)
  {
    if chunks == [] then [] else Parsed(chunks[0]) + ParsedAll(chunks[1..])
  }

  lemma {:induction false} ParsedAllAppend(a: seq<seq<Byte>>, b: seq<seq<Byte>>)
    ensures ParsedAll(a + b) == ParsedAll(a) + ParsedAll(b)
  {
    hide Classified, Parsed;
    if a == [] {
      assert a + b == b;
    } else {
      assert (a + b)[1..] == a[1..] + b;
      ParsedAllAppend(a[1..], b);
    }
  }

  function ByteCount(chunks: seq<seq<Byte>>): nat {
    if chunks == [] then 0 else |chunks[0]| + ByteCount(chunks[1..])
  }

  function DiscardedAll(chunks: seq<seq<Byte>>): nat {
    if chunks == [] then 0 else DiscardedFrom(chunks[0], 0) + DiscardedAll(chunks[1..])
  }

  /** The same for any number of chunks. */
  lemma {:induction false} EveryByteIsAccountedFor(chunks: seq<seq<Byte>>)
    ensures ByteCount(chunks) == TS_PACKET_SIZE * |ParsedAll(chunks)| + DiscardedAll(chunks)
  {
    if chunks != [] {
      EveryByteIsAccountedFor(chunks[1..]);
      ParsedOrDiscarded(chunks[0], 0);
    }
    hide ParsedFrom, Classified;
  }

  lemma {:induction false} ByteCountAppend(a: seq<seq<Byte>>, b: seq<seq<Byte>>)
    ensures ByteCount(a + b) == ByteCount(a) + ByteCount(b)
  {
    if a == [] {
      assert a + b == b;
    } else {
      assert (a + b)[1..] == a[1..] + b;
      ByteCountAppend(a[1..], b);
    }
  }

  /** The verdicts `StartsPacket` gives at the positions where a whole packet fits. */
  function Verdicts(chunk: seq<Byte>): (ok: seq<bool>)
    ensures |ok| == if |chunk| < TS_PACKET_SIZE then 0 else |chunk| - TS_PACKET_SIZE + 1
    ensures forall at :: 0 <= at < |ok| ==> ok[at] == StartsPacket(chunk, at)
  {
    if |chunk| < TS_PACKET_SIZE then []
    else seq(|chunk| - TS_PACKET_SIZE + 1, at requires 0 <= at <= |chunk| - TS_PACKET_SIZE => StartsPacket(chunk, at))
  }

  predicate IsSliceAt(chunk: seq<Byte>, at: nat, packet: TimedTsPacket) {
    at + TS_PACKET_SIZE <= |chunk| && packet == Classify(chunk[at..at + TS_PACKET_SIZE])
  }

  lemma {:induction false} ParsedAreSlices(chunk: seq<Byte>, at: nat)
    ensures var starts := GreedyScan.Starts(Verdicts(chunk), TS_PACKET_SIZE, at);
            && |starts| == |ParsedFrom(chunk, at)|
            && forall i :: 0 <= i < |starts| ==> IsSliceAt(chunk, starts[i], ParsedFrom(chunk, at)[i])
    decreases |chunk| - at
  {
    hide Classify, Classified;
    if at + TS_PACKET_SIZE <= |chunk| {
      ParsedAreSlices(chunk, if StartsPacket(chunk, at) then at + TS_PACKET_SIZE else at + 1);
    }
  }

  /** What is queued of a slice: its bytes, its PID, and the PCR a parser finds in it. */
  lemma {:induction false} SliceIsQueued(chunk: seq<Byte>, at: nat, packet: TimedTsPacket)
    requires IsSliceAt(chunk, at, packet)
    ensures packet.bytes == chunk[at..at + 188]
    ensures packet.pid == (chunk[at + 1] as int % 32) * 256 + chunk[at + 2] as int
    ensures packet.hasPcr == ParsePcr(chunk[at..at + 188]).found
    ensures packet.hasPcr ==> packet.sourcePcrTicks == ParsePcr(chunk[at..at + 188]).ticks
  {
    hide ParsePcr;
  }

  lemma {:induction false} VerdictsInBytes(chunk: seq<Byte>, ok: seq<bool>)
    requires |ok| == if |chunk| < 188 then 0 else |chunk| - 187
    requires forall i {:trigger ok[i]} :: 0 <= i < |ok| ==>
               ok[i] == (chunk[i] == 0x47 && (i + 376 <= |chunk| ==> chunk[i + 188] == 0x47))
    ensures ok == Verdicts(chunk)
  {
    forall i | 0 <= i < |ok| ensures ok[i] == Verdicts(chunk)[i] {
      assert Verdicts(chunk)[i] == StartsPacket(chunk, i);
    }
  }

  /** The queued packets are slices of the chunk, and their starts are the greedy choice (ordered,
      non-overlapping, none missed) of the positions at which there is a sync byte, and a second one
      188 bytes on when a whole further packet fits behind. */
  lemma {:induction false} ParsedIsGreedy(chunk: seq<Byte>, ok: seq<bool>, at: nat, starts: seq<nat>)
    requires |ok| == if |chunk| < 188 then 0 else |chunk| - 187
    requires forall i {:trigger ok[i]} :: 0 <= i < |ok| ==>
               ok[i] == (chunk[i] == 0x47 && (i + 376 <= |chunk| ==> chunk[i + 188] == 0x47))
    requires GreedyScan.Greedy(ok, 188, at, starts)
    ensures |starts| == |ParsedFrom(chunk, at)|
    ensures forall i :: 0 <= i < |starts| ==> IsSliceAt(chunk, starts[i], ParsedFrom(chunk, at)[i])
  {
    VerdictsInBytes(chunk, ok);
    hide Verdicts, ParsedFrom, IsSliceAt, StartsPacket, GreedyScan.Greedy;
    GreedyScan.StartsIffGreedy(ok, TS_PACKET_SIZE, at, starts);
    ParsedAreSlices(chunk, at);
  }

  function ClassifyAll(packets: seq<Packet>): (queued: seq<TimedTsPacket>)
    ensures |queued| == |packets|
    ensures forall i :: 0 <= i < |packets| ==> queued[i] == Classify(packets[i])
  {
    seq(|packets|, i requires 0 <= i < |packets| => Classify(packets[i]))
  }

  /** Bytes in front of packets that are not taken for a packet: each sync byte among them is followed, 188
      bytes on, by another byte. */
  predicate NoPacketIn(prefix: seq<Byte>, chunk: seq<Byte>) {
    forall i :: 0 <= i < |prefix| && prefix[i] == 0x47 ==> i + 376 <= |chunk| && chunk[i + 188] != 0x47
  }

  lemma {:induction false} ParsedAfterPrefix(prefix: seq<Byte>, packets: seq<Packet>, at: nat)
    requires SyncLed(packets)
    requires NoPacketIn(prefix, prefix + Join(packets))
    requires at <= |prefix|
    ensures ParsedFrom(prefix + Join(packets), at) == ClassifyAll(packets)
    decreases |prefix| - at, |packets|
  {
    var chunk := prefix + Join(packets);
    if at < |prefix| {
      assert chunk[at] == prefix[at];
      if at + TS_PACKET_SIZE > |chunk| {
        assert packets == [];
      } else {
        ParsedAfterPrefix(prefix, packets, at + 1);
      }
    } else if packets != [] {
      ParsedOfPackets(chunk, packets, at);
    }
  }

  lemma {:induction false} ParsedOfPackets(chunk: seq<Byte>, packets: seq<Packet>, at: nat)
    requires SyncLed(packets)
    requires at <= |chunk| && chunk[at..] == Join(packets)
    ensures ParsedFrom(chunk, at) == ClassifyAll(packets)
    decreases packets
  {
    if packets != [] {
      var next := at + TS_PACKET_SIZE;
      assert chunk[at..] == packets[0] + Join(packets[1..]);
      assert chunk[at..next] == chunk[at..][..TS_PACKET_SIZE] == packets[0];
      assert chunk[next..] == chunk[at..][TS_PACKET_SIZE..] == Join(packets[1..]);
      assert chunk[at] == packets[0][0];
      if at + 2 * TS_PACKET_SIZE <= |chunk| {
        assert chunk[next] == chunk[next..][0] == packets[1][0];
      }
      ParsedOfPackets(chunk, packets[1..], next);
    }
  }

  /** Two or more sync-led packets, behind any bytes in which no sync byte has another one 188 bytes on, are
      queued exactly, and exactly those bytes are discarded: a stray 0x47 is not taken for a packet. */
  lemma {:induction false} ParsedBehindStraySyncs(prefix: seq<Byte>, packets: seq<Packet>)
    requires SyncLed(packets) && |packets| >= 2
    requires var chunk := prefix + Join(packets);
             forall i :: 0 <= i < |prefix| && prefix[i] == 0x47 ==> chunk[i + 188] != 0x47
    ensures Parsed(prefix + Join(packets)) == ClassifyAll(packets)
    ensures DiscardedFrom(prefix + Join(packets), 0) == |prefix|
  {
    ParsedAfterPrefix(prefix, packets, 0);
    ParsedOrDiscarded(prefix + Join(packets), 0);
  }

  /** Any number of them, behind bytes without a sync byte. */
  lemma {:induction false} ParsedExactly(prefix: seq<Byte>, packets: seq<Packet>)
    requires SyncLed(packets)
    requires SYNC_BYTE !in prefix
    ensures Parsed(prefix + Join(packets)) == ClassifyAll(packets)
    ensures DiscardedFrom(prefix + Join(packets), 0) == |prefix|
  {
    ParsedAfterPrefix(prefix, packets, 0);
    ParsedOrDiscarded(prefix + Join(packets), 0);
  }
}
