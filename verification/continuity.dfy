/** The continuity-counter monitor (countContinuityErrors): per-PID counters over a byte stream that
    arrives in arbitrary buffers. */
module Continuity {
  import opened TransportStream
  import opened Resync

  const PID_COUNT := 8192

  /** `continuity` and `continuityValid`, per PID. */
  datatype Counters = Counters(counter: seq<Byte>, valid: seq<bool>) {
    ghost predicate Valid() {
      |counter| == PID_COUNT && |valid| == PID_COUNT
    }
  }

  datatype Tally = Tally(counters: Counters, errors: nat)

  predicate TransportError(p: Packet) {
    p[1] / 0x80 == 1
  }

  predicate Discontinuity(p: Packet) {
    AdaptationControl(p) in {2, 3} && 0 < p[4] <= 183 && p[5] / 0x80 == 1
  }

  /** The two indicators in bytes: the top bit of byte 1; the top bit of byte 5, of an adaptation field (bit 5
      of byte 3) of 1 to 183 bytes. */
  lemma {:induction false} IndicatorBits(p: Packet)
    ensures TransportError(p) <==> p[1] >= 0x80
    ensures Discontinuity(p) <==> (p[3] / 0x20) % 2 == 1 && 1 <= p[4] <= 183 && p[5] >= 0x80
  {
  }

  function Invalidate(c: Counters, pid: nat): (r: Counters)
    requires c.Valid() && pid < PID_COUNT
    ensures r.Valid()
  {
    c.(valid := c.valid[pid := false])
  }

  /** The counter part of one packet, on any PID but the null PID. */
  function CheckCounter(c: Counters, p: Packet): (t: Tally)
    requires c.Valid()
    ensures t.counters.Valid()
  {
    var pid := Pid(p);
    if AdaptationControl(p) == 0 then Tally(Invalidate(c, pid), 1)
    else
      var c1 := if Discontinuity(p) then Invalidate(c, pid) else c;
      if !HasPayload(p) then Tally(c1, 0)
      else
        var cc := ContinuityCounter(p);
        Tally(Counters(c1.counter[pid := cc], c1.valid[pid := true]),
              if c1.valid[pid] && cc != (c1.counter[pid] as int + 1) % 16 then 1 else 0)
  }

  /** One packet. */
  function CheckPacket(c: Counters, p: Packet): (t: Tally)
    requires c.Valid()
    ensures t.counters.Valid()
  {
    var transportError := if TransportError(p) then 1 else 0;
    if Pid(p) == NULL_PID then Tally(c, transportError)
    else
      var t := CheckCounter(c, p);
      Tally(t.counters, transportError + t.errors)
  }

  /** One packet after another. */
  function CheckAll(c: Counters, packets: seq<Packet>): (t: Tally)
    requires c.Valid()
    ensures t.counters.Valid()
  {
    if packets == [] then Tally(c, 0)
    else
      var n := |packets| - 1;
      var before := CheckAll(c, packets[..n]);
      var last := CheckPacket(before.counters, packets[n]);
      Tally(last.counters, before.errors + last.errors)
  }

  lemma {:induction false} CheckAllAppend(c: Counters, a: seq<Packet>, b: seq<Packet>)
    requires c.Valid()
    ensures var first := CheckAll(c, a);
            var second := CheckAll(first.counters, b);
            CheckAll(c, a + b) == Tally(second.counters, first.errors + second.errors)
    decreases |b|
  {
    if b == [] {
      assert a + b == a;
    } else {
      var n := |b| - 1;
      assert (a + b)[..|a + b| - 1] == a + b[..n];
      CheckAllAppend(c, a, b[..n]);
      hide CheckPacket;
    }
  }

  lemma {:induction false} CheckOneMore(c: Counters, packets: seq<Packet>, p: Packet)
    requires c.Valid()
    ensures var before := CheckAll(c, packets);
            var last := CheckPacket(before.counters, p);
            CheckAll(c, packets + [p]) == Tally(last.counters, before.errors + last.errors)
  {
    assert (packets + [p])[..|packets|] == packets;
  }

  /** The state a payload packet leaves for its PID. */
  predicate LastSeen(c: Counters, pid: nat, cc: nat)
    requires c.Valid() && pid < PID_COUNT
  {
    c.valid[pid] && c.counter[pid] == cc
  }

  lemma {:induction false} PayloadIsSeen(c: Counters, p: Packet)
    requires c.Valid() && Pid(p) != NULL_PID && HasPayload(p)
    ensures LastSeen(CheckPacket(c, p).counters, Pid(p), ContinuityCounter(p))
  {
  }

  /** Packets on other PIDs leave it alone. */
  lemma {:induction false} OthersKeepLastSeen(c: Counters, others: seq<Packet>, pid: nat, cc: nat)
    requires c.Valid() && pid < PID_COUNT && LastSeen(c, pid, cc)
    requires forall i :: 0 <= i < |others| ==> Pid(others[i]) != pid
    ensures LastSeen(CheckAll(c, others).counters, pid, cc)
  {
    if others != [] {
      OthersKeepLastSeen(c, others[..|others| - 1], pid, cc);
      hide CheckAll;
    }
  }

  /** A payload packet that repeats the counter of the last one on its PID counts as an error, unless it
      announces a discontinuity, and changes no state. */
  lemma {:induction false} RepeatIsCounted(c: Counters, p: Packet)
    requires c.Valid() && Pid(p) != NULL_PID && HasPayload(p) && !TransportError(p)
    requires LastSeen(c, Pid(p), ContinuityCounter(p))
    ensures CheckPacket(c, p) == Tally(c, if Discontinuity(p) then 0 else 1)
  {
    var pid, cc := Pid(p), ContinuityCounter(p);
    assert c.counter[pid := cc] == c.counter;
    assert c.valid[pid := true] == c.valid && c.valid[pid := false][pid := true] == c.valid;
    assert cc != (cc + 1) % 16;
  }

  // The byte level

  datatype Option<T> = None | Some(value: T)

  datatype Monitor = Monitor(counters: Counters, remainder: seq<Byte>)

  /** A sync byte here, one packet later, and two and three packets later if there are bytes there. */
  predicate AlignedAt(data: seq<Byte>, offset: nat) {
    && offset + TS_PACKET_SIZE < |data|
    && data[offset] == SYNC_BYTE && data[offset + TS_PACKET_SIZE] == SYNC_BYTE
    && (offset + 2 * TS_PACKET_SIZE < |data| ==> data[offset + 2 * TS_PACKET_SIZE] == SYNC_BYTE)
    && (offset + 3 * TS_PACKET_SIZE < |data| ==> data[offset + 3 * TS_PACKET_SIZE] == SYNC_BYTE)
  }

  /** The first aligned offset among the first 188, if there are two packets' worth of bytes. */
  function AlignmentFrom(data: seq<Byte>, offset: nat): (found: Option<nat>)
    ensures found.Some? ==> offset <= found.value < TS_PACKET_SIZE && AlignedAt(data, found.value)
    ensures found.Some? ==> forall o :: offset <= o < found.value ==> !AlignedAt(data, o)
    ensures found.None? ==> forall o :: offset <= o < TS_PACKET_SIZE ==> !AlignedAt(data, o)
    decreases TS_PACKET_SIZE - offset
  {
    if offset >= TS_PACKET_SIZE then None
    else if AlignedAt(data, offset) then Some(offset)
    else AlignmentFrom(data, offset + 1)
  }

  function Alignment(data: seq<Byte>): Option<nat> {
    if |data| < 2 * TS_PACKET_SIZE then None else AlignmentFrom(data, 0)
  }

  /** Where the run of whole sync-led packets that begins at `offset` ends. */
  function RunEnd(data: seq<Byte>, offset: nat): (end: nat)
    requires offset <= |data|
    ensures offset <= end <= |data| && (end - offset) % TS_PACKET_SIZE == 0
    decreases |data| - offset
  {
    if offset + TS_PACKET_SIZE > |data| || data[offset] != SYNC_BYTE then offset
    else RunEnd(data, offset + TS_PACKET_SIZE)
  }

  /** The packets of that run. */
  function RunPackets(data: seq<Byte>, offset: nat): (packets: seq<Packet>)
    requires offset <= |data|
    ensures SyncLed(packets)
    decreases |data| - offset
  {
    if offset + TS_PACKET_SIZE > |data| || data[offset] != SYNC_BYTE then []
    else [data[offset..offset + TS_PACKET_SIZE]] + RunPackets(data, offset + TS_PACKET_SIZE)
  }

  function KeepLast(data: seq<Byte>, count: nat): (kept: seq<Byte>)
    ensures |kept| <= count && |kept| <= |data| && kept == data[|data| - |kept|..]
    ensures |data| <= count ==> kept == data
  {
    if |data| <= count then data else data[|data| - count..]
  }

  datatype FeedResult = FeedResult(monitor: Monitor, errors: nat)

  /** One buffer. */
  function Feed(m: Monitor, data: seq<Byte>): (r: FeedResult)
    requires m.counters.Valid()
    ensures r.monitor.counters.Valid()
  {
    if data == [] then FeedResult(m, 0)
    else
      var bytes := m.remainder + data;
      match Alignment(bytes)
      case None => FeedResult(Monitor(m.counters, KeepLast(bytes, 4 * TS_PACKET_SIZE - 1)), 0)
      case Some(start) =>
        var t := CheckAll(m.counters, RunPackets(bytes, start));
        FeedResult(Monitor(t.counters, KeepLast(bytes[RunEnd(bytes, start)..], 4 * TS_PACKET_SIZE)), t.errors)
  }

  function Flatten(buffers: seq<seq<Byte>>): seq<Byte> {
    if buffers == [] then [] else Flatten(buffers[..|buffers| - 1]) + buffers[|buffers| - 1]
  }

  /** One buffer after another, errors added up. */
  function FeedAll(m: Monitor, buffers: seq<seq<Byte>>): (r: FeedResult)
    requires m.counters.Valid()
    ensures r.monitor.counters.Valid()
  {
    if buffers == [] then FeedResult(m, 0)
    else
      var n := |buffers| - 1;
      var before := FeedAll(m, buffers[..n]);
      var last := Feed(before.monitor, buffers[n]);
      FeedResult(last.monitor, before.errors + last.errors)
  }

  /** The remainder never grows beyond four packets, whatever the bytes are. */
  lemma {:induction false} RemainderBounded(m: Monitor, data: seq<Byte>)
    requires m.counters.Valid() && |m.remainder| <= 4 * TS_PACKET_SIZE
    ensures |Feed(m, data).monitor.remainder| <= 4 * TS_PACKET_SIZE
  {
  }

  /** A position of alignment, in bytes: sync bytes there and 188 bytes on, and 376 and 564 bytes on as far
      as the data goes. */
  lemma {:induction false} AlignedInBytes(data: seq<Byte>, offset: nat)
    ensures AlignedAt(data, offset)
            <==> offset + 188 < |data|
                 && forall k :: 0 <= k < 4 && offset + 188 * k < |data| ==> data[offset + 188 * k] == 0x47
  {
    if AlignedAt(data, offset) {
      forall k | 0 <= k < 4 && offset + 188 * k < |data| ensures data[offset + 188 * k] == 0x47 {
        if k == 0 {
        } else if k == 1 {
        } else if k == 2 {
        } else {
        }
      }
    }
    if offset + 188 < |data| && forall k :: 0 <= k < 4 && offset + 188 * k < |data| ==> data[offset + 188 * k] == 0x47 {
      assert data[offset + 188 * 0] == 0x47 && data[offset + 188 * 1] == 0x47;
      if offset + 188 * 2 < |data| { assert data[offset + 188 * 2] == 0x47; }
      if offset + 188 * 3 < |data| { assert data[offset + 188 * 3] == 0x47; }
    }
  }

  /** The alignment is the first such position among the first 188, in two packets' worth of bytes or more. */
  lemma {:induction false} AlignmentIsFirst(data: seq<Byte>)
    ensures Alignment(data).None? <==> |data| < 376 || forall o :: 0 <= o < 188 ==> !AlignedAt(data, o)
    ensures Alignment(data).Some? ==>
              && AlignedAt(data, Alignment(data).value) && Alignment(data).value < 188
              && forall o :: 0 <= o < Alignment(data).value ==> !AlignedAt(data, o)
  {
    hide AlignedAt;
  }

  /** The run from a position on: as many whole packets as follow one another with a sync byte each. */
  lemma {:induction false} RunIsMaximal(data: seq<Byte>, offset: nat)
    requires offset <= |data|
    ensures var packets, end := RunPackets(data, offset), RunEnd(data, offset);
            && end == offset + 188 * |packets| <= |data|
            && (forall i :: 0 <= i < |packets| ==> packets[i] == data[offset + 188 * i..offset + 188 * (i + 1)])
            && (forall i :: 0 <= i < |packets| ==> data[offset + 188 * i] == 0x47)
            && (end + 188 > |data| || data[end] != 0x47)
    decreases |data| - offset
  {
    if offset + TS_PACKET_SIZE <= |data| && data[offset] == SYNC_BYTE {
      var next := offset + TS_PACKET_SIZE;
      RunIsMaximal(data, next);
      var packets, rest := RunPackets(data, offset), RunPackets(data, next);
      forall i | 0 <= i < |packets|
        ensures packets[i] == data[offset + 188 * i..offset + 188 * (i + 1)] && data[offset + 188 * i] == 0x47
      {
        if i > 0 {
          assert packets[i] == rest[i - 1] && next + 188 * (i - 1) == offset + 188 * i;
        }
      }
    }
  }

  /** What a buffer does, on any bytes. Without an alignment nothing is counted, and the last 751 bytes are
      kept to find one with. Otherwise the run of packets from there on is counted, and what is behind it
      is kept, the last 752 bytes of it at most. */
  lemma {:induction false} FeedOnAnyBytes(m: Monitor, data: seq<Byte>)
    requires m.counters.Valid() && data != []
    ensures var bytes, r := m.remainder + data, Feed(m, data);
            match Alignment(bytes)
            case None =>
              && r.errors == 0 && r.monitor.counters == m.counters
              && |r.monitor.remainder| == (if |bytes| < 751 then |bytes| else 751)
              && r.monitor.remainder == bytes[|bytes| - |r.monitor.remainder|..]
            case Some(start) =>
              var end := RunEnd(bytes, start);
              && Tally(r.monitor.counters, r.errors) == CheckAll(m.counters, RunPackets(bytes, start))
              && |r.monitor.remainder| == (if |bytes| - end < 752 then |bytes| - end else 752)
              && r.monitor.remainder == bytes[|bytes| - |r.monitor.remainder|..]
  {
    hide CheckAll, RunPackets, RunEnd, Alignment;
  }

  // Buffers cut out of a stream of sync-led packets

  lemma {:induction false} StreamSyncAt(packets: seq<Packet>, bytes: seq<Byte>, k: nat)
    requires SyncLed(packets) && bytes <= Join(packets)
    requires TS_PACKET_SIZE * k < |bytes|
    ensures bytes[TS_PACKET_SIZE * k] == SYNC_BYTE
  {
    JoinAt(packets, k);
  }

  lemma {:induction false} StreamAlignment(packets: seq<Packet>, bytes: seq<Byte>)
    requires SyncLed(packets) && bytes <= Join(packets)
    ensures Alignment(bytes) == if |bytes| < 2 * TS_PACKET_SIZE then None else Some(0)
  {
    if |bytes| >= 2 * TS_PACKET_SIZE {
      StreamSyncAt(packets, bytes, 0);
      StreamSyncAt(packets, bytes, 1);
      if |bytes| > 2 * TS_PACKET_SIZE { StreamSyncAt(packets, bytes, 2); }
      if |bytes| > 3 * TS_PACKET_SIZE { StreamSyncAt(packets, bytes, 3); }
      assert AlignedAt(bytes, 0);
    }
  }

  lemma {:induction false} StreamRun(packets: seq<Packet>, bytes: seq<Byte>, offset: nat)
    requires SyncLed(packets) && offset <= |bytes| && bytes[offset..] <= Join(packets)
    ensures var count := (|bytes| - offset) / TS_PACKET_SIZE;
            && count <= |packets|
            && RunPackets(bytes, offset) == packets[..count]
            && RunEnd(bytes, offset) == offset + TS_PACKET_SIZE * count
    decreases |bytes| - offset
  {
    if offset + TS_PACKET_SIZE <= |bytes| {
      var rest, next := bytes[offset..], offset + TS_PACKET_SIZE;
      assert packets != [];
      assert rest[..TS_PACKET_SIZE] == packets[0];
      assert bytes[offset..next] == rest[..TS_PACKET_SIZE];
      assert bytes[next..] == rest[TS_PACKET_SIZE..] <= Join(packets[1..]);
      StreamRun(packets[1..], bytes, next);
    }
  }

  /** What the monitor has done after `stream` has reached it: counted exactly the first packets of
      it, and kept the rest, which starts on a packet boundary and is less than two packets long. */
  ghost predicate HasCounted(c: Counters, packets: seq<Packet>, stream: seq<Byte>, r: FeedResult, k: nat)
    requires c.Valid()
  {
    && k <= |packets|
    && TS_PACKET_SIZE * k + |r.monitor.remainder| == |stream|
    && |r.monitor.remainder| < 2 * TS_PACKET_SIZE
    && r.monitor.remainder == stream[TS_PACKET_SIZE * k..]
    && CheckAll(c, packets[..k]) == Tally(r.monitor.counters, r.errors)
  }

  lemma {:induction false} SuffixOfStream(packets: seq<Packet>, stream: seq<Byte>, k: nat)
    requires stream <= Join(packets) && k <= |packets| && TS_PACKET_SIZE * k <= |stream|
    ensures stream[TS_PACKET_SIZE * k..] <= Join(packets[k..])
  {
    JoinSplit(packets, k);
    assert stream == Join(packets)[..|stream|];
  }

  lemma {:induction false} CheckNone(c: Counters, packets: seq<Packet>)
    requires c.Valid()
    ensures CheckAll(c, packets[..0]) == Tally(c, 0)
  {
  }

  lemma {:induction false} FeedStream(packets: seq<Packet>, m: Monitor, data: seq<Byte>)
    requires SyncLed(packets) && m.counters.Valid()
    requires |m.remainder| < 2 * TS_PACKET_SIZE && m.remainder + data <= Join(packets)
    ensures var bytes := m.remainder + data;
            var count := if |bytes| < 2 * TS_PACKET_SIZE || data == [] then 0 else |bytes| / TS_PACKET_SIZE;
            && count <= |packets|
            && Feed(m, data)
               == FeedResult(Monitor(CheckAll(m.counters, packets[..count]).counters, bytes[TS_PACKET_SIZE * count..]),
                             CheckAll(m.counters, packets[..count]).errors)
            && |bytes[TS_PACKET_SIZE * count..]| < 2 * TS_PACKET_SIZE
  {
    hide CheckPacket, CheckAll, AlignedAt, AlignmentFrom, Alignment, RunPackets, RunEnd, Join;
    var bytes := m.remainder + data;
    CheckNone(m.counters, packets);
    StreamAlignment(packets, bytes);
    if data == [] {
      assert bytes == m.remainder;
    } else if |bytes| >= 2 * TS_PACKET_SIZE {
      assert bytes[0..] == bytes;
      StreamRun(packets, bytes, 0);
    }
  }

  lemma {:induction false} DropTwice(s: seq<Byte>, a: nat, b: nat)
    requires a + b <= |s|
    ensures s[a..][b..] == s[a + b..]
  {
  }

  lemma {:induction false} TakeMore(packets: seq<Packet>, k: nat, count: nat)
    requires k + count <= |packets|
    ensures packets[..k + count] == packets[..k] + packets[k..][..count]
  {
  }

  lemma {:induction false} FeedOneMore(c: Counters, packets: seq<Packet>, stream: seq<Byte>, r: FeedResult, k: nat,
                                       data: seq<Byte>)
    returns (next: nat)
    requires SyncLed(packets) && c.Valid() && r.monitor.counters.Valid() && stream + data <= Join(packets)
    requires HasCounted(c, packets, stream, r, k)
    ensures var last := Feed(r.monitor, data);
            HasCounted(c, packets, stream + data, FeedResult(last.monitor, r.errors + last.errors), next)
  {
    hide CheckPacket, CheckAll, Feed, Join;
    var all := stream + data;
    var bytes := r.monitor.remainder + data;
    assert bytes == all[TS_PACKET_SIZE * k..];
    SuffixOfStream(packets, all, k);
    assert SyncLed(packets[k..]);
    FeedStream(packets[k..], r.monitor, data);
    var count := if |bytes| < 2 * TS_PACKET_SIZE || data == [] then 0 else |bytes| / TS_PACKET_SIZE;
    next := k + count;
    TakeMore(packets, k, count);
    DropTwice(all, TS_PACKET_SIZE * k, TS_PACKET_SIZE * count);
    CheckAllAppend(c, packets[..k], packets[k..][..count]);
  }

  /** However a stream of sync-led packets is cut into buffers, the errors and the per-PID state are
      those of one pass over a prefix of its packets, and that prefix is all but the last packet. */
  lemma {:induction false} SplitIndependence(c: Counters, packets: seq<Packet>, buffers: seq<seq<Byte>>)
    returns (k: nat)
    requires SyncLed(packets) && c.Valid()
    requires Flatten(buffers) <= Join(packets)
    ensures HasCounted(c, packets, Flatten(buffers), FeedAll(Monitor(c, []), buffers), k)
    ensures |Flatten(buffers)| / TS_PACKET_SIZE <= k + 1
    decreases |buffers|
  {
    if buffers == [] {
      k := 0;
    } else {
      var n := |buffers| - 1;
      var before := SplitIndependence(c, packets, buffers[..n]);
      hide CheckPacket, CheckAll, Feed;
      k := FeedOneMore(c, packets, Flatten(buffers[..n]), FeedAll(Monitor(c, []), buffers[..n]), before, buffers[n]);
    }
  }

  // Other streams

  /** The transport error indicator alone, on the null PID, counts one error and changes no state. */
  lemma {:induction false} BrokenNullCounts(c: Counters, p: Packet)
    requires c.Valid() && Pid(p) == NULL_PID && TransportError(p)
    ensures CheckAll(c, [p, p]) == Tally(c, 2)
  {
    CheckOneMore(c, [], p);
    CheckOneMore(c, [p], p);
    assert [] + [p] == [p] && [p] + [p] == [p, p];
  }

  lemma {:induction false} StraySpoilsAlignment(p: Packet, stray: Byte)
    requires p[0] == SYNC_BYTE && stray != SYNC_BYTE
    requires forall i :: 0 < i < TS_PACKET_SIZE ==> p[i] != SYNC_BYTE
    ensures Alignment(p + p + [stray]) == None
  {
    var data := p + p + [stray];
    forall o | 0 <= o < TS_PACKET_SIZE ensures !AlignedAt(data, o) {
      assert data[o] == p[o] && data[2 * TS_PACKET_SIZE] == stray;
    }
  }

  lemma {:induction false} TwoFeeds(m: Monitor, a: seq<Byte>, b: seq<Byte>)
    requires m.counters.Valid()
    ensures FeedAll(m, [a]) == Feed(m, a) && Flatten([a]) == a
    ensures FeedAll(m, [a, b]).errors == Feed(m, a).errors + Feed(Feed(m, a).monitor, b).errors
    ensures Flatten([a, b]) == a + b
  {
    hide Feed;
    assert [a, b][..1] == [a] && [a][..0] == [];
  }

  lemma {:induction false} TooShort(data: seq<Byte>)
    requires |data| < 2 * TS_PACKET_SIZE
    ensures Alignment(data) == None
  {
  }

  lemma {:induction false} UnalignedCountsNone(m: Monitor, data: seq<Byte>)
    requires m.counters.Valid() && m.remainder == [] && Alignment(data) == None
    ensures Feed(m, data).errors == 0
  {
    hide Alignment, CheckAll, RunPackets, RunEnd;
    assert [] + data == data;
  }

  lemma {:induction false} PairIsCounted(c: Counters, p: Packet)
    requires c.Valid() && p[0] == SYNC_BYTE && Pid(p) == NULL_PID && TransportError(p)
    ensures Feed(Monitor(c, []), p + p) == FeedResult(Monitor(c, []), 2)
  {
    hide CheckPacket, CheckAll, Feed, TransportError, Pid;
    BrokenNullCounts(c, p);
    assert [p, p][1..] == [p] && [p, p][..2] == [p, p] && [p][1..] == [];
    assert Join([p]) == p + Join([]) == p && Join([p, p]) == p + p;
    assert [] + (p + p) == p + p;
    FeedStream([p, p], Monitor(c, []), p + p);
  }

  lemma {:induction false} ApartOrTogether(m: Monitor, both: seq<Byte>, stray: seq<Byte>)
    requires m.counters.Valid() && m.remainder == []
    requires Feed(m, both) == FeedResult(m, 2) && Alignment(stray) == None && Alignment(both + stray) == None
    ensures Flatten([both, stray]) == Flatten([both + stray])
    ensures FeedAll(m, [both, stray]).errors == 2 && FeedAll(m, [both + stray]).errors == 0
  {
    hide Feed, FeedAll, Alignment, Flatten;
    UnalignedCountsNone(m, stray);
    UnalignedCountsNone(m, both + stray);
    TwoFeeds(m, both, stray);
    TwoFeeds(m, both + stray, []);
  }

  /** On a stream that is not all sync-led packets the division matters: two packets and one byte that is
      no sync byte count two errors when the byte comes by itself, and none when it comes along, because
      it then spoils the alignment of the packets before it. */
  lemma {:induction false} DivisionMatters(c: Counters, p: Packet, stray: Byte)
    requires c.Valid() && Pid(p) == NULL_PID && TransportError(p)
    requires p[0] == SYNC_BYTE && forall i :: 0 < i < TS_PACKET_SIZE ==> p[i] != SYNC_BYTE
    requires stray != SYNC_BYTE
    ensures var apart, together := [p + p, [stray]], [p + p + [stray]];
            && Flatten(apart) == Flatten(together)
            && FeedAll(Monitor(c, []), apart).errors == 2 && FeedAll(Monitor(c, []), together).errors == 0
  {
    hide Feed, FeedAll, Alignment, Flatten, Pid, TransportError;
    StraySpoilsAlignment(p, stray);
    PairIsCounted(c, p);
    TooShort([stray]);
    ApartOrTogether(Monitor(c, []), p + p, [stray]);
  }
}
