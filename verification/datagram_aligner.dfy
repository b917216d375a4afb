/** The older UDP output's aligner (appendPending, appendAndSend, resyncPending): datagrams of seven
    packets are cut out of a byte stream that arrives in arbitrary chunks. */
module DatagramAligner {
  import opened TransportStream
  import opened GreedyScan
  import Resync
  import opened WindowScan

  /** 1316 bytes with a sync byte at each of the seven packet starts. */
  predicate IsAligned(window: seq<Byte>) {
    && |window| == UDP_PAYLOAD_SIZE
    && forall p :: 0 <= p < TS_PACKETS_PER_DATAGRAM ==> window[TS_PACKET_SIZE * p] == SYNC_BYTE
  }

  lemma {:induction false} AlignedNeedsSync()
    ensures forall window :: NeedsSync(IsAligned, window)
  {
    forall window: seq<Byte> ensures NeedsSync(IsAligned, window) {
      if IsAligned(window) {
        assert window[TS_PACKET_SIZE * 0] == SYNC_BYTE;
      }
    }
  }

  /** Aligned, in bytes. */
  lemma {:induction false} AlignedInBytes(window: seq<Byte>)
    requires |window| == 1316
    ensures IsAligned(window)
            <==> window[0] == 0x47 && window[188] == 0x47 && window[376] == 0x47 && window[564] == 0x47
                 && window[752] == 0x47 && window[940] == 0x47 && window[1128] == 0x47
  {
    if IsAligned(window) {
      assert window[188 * 0] == 0x47 && window[188 * 1] == 0x47 && window[188 * 2] == 0x47 && window[188 * 3] == 0x47;
      assert window[188 * 4] == 0x47 && window[188 * 5] == 0x47 && window[188 * 6] == 0x47;
    }
  }

  function Multiples(count: nat): (starts: seq<nat>)
    ensures |starts| == count && forall k :: 0 <= k < count ==> starts[k] == UDP_PAYLOAD_SIZE * k
  {
    seq(count, k requires 0 <= k < count => UDP_PAYLOAD_SIZE * k)
  }

  lemma {:induction false} GroupIsAligned(packets: seq<Packet>, k: nat)
    requires Resync.SyncLed(packets) && 7 * k + 7 <= |packets|
    ensures var window := Join(packets)[UDP_PAYLOAD_SIZE * k..UDP_PAYLOAD_SIZE * k + UDP_PAYLOAD_SIZE];
            window == Join(packets[7 * k..7 * k + 7]) && IsAligned(window)
  {
    var group := packets[7 * k..7 * k + 7];
    JoinSplit(packets, 7 * k);
    JoinSplit(packets[7 * k..], 7);
    assert packets[7 * k..][..7] == group;
    assert Join(packets)[UDP_PAYLOAD_SIZE * k..][..UDP_PAYLOAD_SIZE] == Join(group);
    hide Join;
    forall p | 0 <= p < TS_PACKETS_PER_DATAGRAM ensures Join(group)[TS_PACKET_SIZE * p] == SYNC_BYTE {
      JoinAt(group, p);
    }
  }

  lemma {:induction false} GroupsAreGreedy(packets: seq<Packet>)
    requires Resync.SyncLed(packets)
    ensures WindowStarts(Join(packets), UDP_PAYLOAD_SIZE, IsAligned, 0) == Multiples(|packets| / 7)
  {
    var stream, starts := Join(packets), Multiples(|packets| / 7);
    var ok := Verdicts(stream, UDP_PAYLOAD_SIZE, IsAligned);
    hide Join, IsAligned, Resync.SyncLed;
    forall k | 0 <= k < |starts| ensures 0 <= starts[k] < |ok| && ok[starts[k]] {
      GroupIsAligned(packets, k);
    }
    forall position | 0 <= position < |ok| ensures Covered(starts, UDP_PAYLOAD_SIZE, position) {
      var k := position / UDP_PAYLOAD_SIZE;
      assert starts[k] <= position < starts[k] + UDP_PAYLOAD_SIZE;
    }
    hide Covered;
    StartsIffGreedy(ok, UDP_PAYLOAD_SIZE, 0, starts);
  }

  class UdpTsSender {
    var pending: seq<Byte>
    var stopping: bool
    var socket: seq<seq<Byte>>
    ghost var stream: seq<Byte>    // everything appended
    ghost var position: nat        // how much of it is behind `pending`
    ghost var starts: seq<nat>     // where the datagrams sent begin

    ghost predicate Valid()
      reads this
    {
      && Settled(stream, UDP_PAYLOAD_SIZE, IsAligned, position, starts)
      && position <= |stream|
      && (forall i :: 0 <= i < |starts| ==> starts[i] + UDP_PAYLOAD_SIZE <= |stream|)
      && pending == stream[position..]
      && |socket| == |starts|
      && forall i :: 0 <= i < |starts| ==> socket[i] == stream[starts[i]..starts[i] + UDP_PAYLOAD_SIZE]
    }

    constructor ()
      ensures Valid() && stream == [] && socket == [] && !stopping
    {
      pending, stopping, socket, stream, position, starts := [], false, [], [], 0, [];
      NothingSettled(UDP_PAYLOAD_SIZE, IsAligned);
    }

    /** Drops bytes up to the next sync byte, as long as a packet's worth is pending. */
    method ResyncPending()
      requires Valid()
      modifies `pending, `position
      ensures Valid() && |pending| <= old(|pending|)
    {
      hide Settled, IsAligned;
      AlignedNeedsSync();
      while |pending| >= TS_PACKET_SIZE && pending[0] != SYNC_BYTE
        invariant Valid() && |pending| <= old(|pending|)
        decreases |pending|
      {
        SkipByte(stream, UDP_PAYLOAD_SIZE, IsAligned, position, starts);
        var found := 1;
        while found < |pending| && pending[found] != SYNC_BYTE
          invariant 1 <= found <= |pending|
          invariant Settled(stream, UDP_PAYLOAD_SIZE, IsAligned, position + found, starts)
          modifies {}
        {
          SkipByte(stream, UDP_PAYLOAD_SIZE, IsAligned, position + found, starts);
          found := found + 1;
        }
        pending := pending[found..];
        position := position + found;
      }
    }

    method IsAlignedDatagram() returns (aligned: bool)
      requires |pending| >= UDP_PAYLOAD_SIZE
      ensures aligned == IsAligned(pending[..UDP_PAYLOAD_SIZE])
    {
      var offset, p := 0, 0;
      while offset < UDP_PAYLOAD_SIZE
        invariant offset == TS_PACKET_SIZE * p && p <= TS_PACKETS_PER_DATAGRAM
        invariant forall q :: 0 <= q < p ==> pending[TS_PACKET_SIZE * q] == SYNC_BYTE
      {
        if pending[offset] != SYNC_BYTE {
          assert pending[..UDP_PAYLOAD_SIZE][TS_PACKET_SIZE * p] != SYNC_BYTE;
          return false;
        }
        offset, p := offset + TS_PACKET_SIZE, p + 1;
      }
      return true;
    }

    /** Sends the datagram at the front of what is pending. */
    method SendFront()
      requires Valid() && |pending| >= UDP_PAYLOAD_SIZE && IsAligned(pending[..UDP_PAYLOAD_SIZE])
      modifies `pending, `socket, `position, `starts
      ensures Valid() && |pending| == old(|pending|) - UDP_PAYLOAD_SIZE
    {
      hide Settled, IsAligned;
      assert pending[..UDP_PAYLOAD_SIZE] == stream[position..position + UDP_PAYLOAD_SIZE];
      TakeWindow(stream, UDP_PAYLOAD_SIZE, IsAligned, position, starts);
      socket := socket + [pending[..UDP_PAYLOAD_SIZE]];
      pending := pending[UDP_PAYLOAD_SIZE..];
      starts := starts + [position];
      position := position + UDP_PAYLOAD_SIZE;
    }

    /** Drops the first pending byte: no datagram begins there. */
    method DropFront()
      requires Valid() && |pending| >= UDP_PAYLOAD_SIZE && !IsAligned(pending[..UDP_PAYLOAD_SIZE])
      modifies `pending, `position
      ensures Valid() && |pending| == old(|pending|) - 1
    {
      hide Settled, IsAligned;
      assert pending[..UDP_PAYLOAD_SIZE] == stream[position..position + UDP_PAYLOAD_SIZE];
      RejectWindow(stream, UDP_PAYLOAD_SIZE, IsAligned, position, starts);
      position := position + 1;
      pending := pending[1..];
    }

    method AppendPending(data: seq<Byte>)
      requires Valid()
      modifies `pending, `stream, `position
      ensures Valid() && stream == old(stream) + data
    {
      hide Settled, IsAligned;
      if |data| == 0 {
        assert stream + [] == stream;
        return;
      }
      MoreBytes(stream, data, UDP_PAYLOAD_SIZE, IsAligned, position, starts);
      StillThere(stream, data, starts);
      assert (stream + data)[position..] == stream[position..] + data;
      stream := stream + data;
      pending := pending + data;
      ResyncPending();
    }

    /** After every append, however the stream was cut into chunks: the datagrams sent are exactly the
        leftmost non-overlapping windows of the whole stream that have a sync byte at each of their
        seven packet starts, and less than a datagram is pending. A sender that is stopping sends
        nothing any more. */
    method AppendAndSend(data: seq<Byte>)
      requires Valid()
      modifies `pending, `socket, `stream, `position, `starts
      ensures Valid() && stream == old(stream) + data
      ensures stopping ==> socket == old(socket)
      ensures !stopping ==> |pending| < UDP_PAYLOAD_SIZE
      ensures !stopping ==> Greedy(Verdicts(stream, UDP_PAYLOAD_SIZE, IsAligned), UDP_PAYLOAD_SIZE, 0, starts)
    {
      hide Settled, IsAligned;
      AppendPending(data);
      while !stopping && |pending| >= UDP_PAYLOAD_SIZE
        invariant Valid() && stream == old(stream) + data
        invariant stopping ==> socket == old(socket)
        decreases |pending|
      {
        var aligned := IsAlignedDatagram();
        if aligned {
          SendFront();
        } else {
          DropFront();
          ResyncPending();
        }
      }
      if !stopping {
        ScanIsComplete(stream, UDP_PAYLOAD_SIZE, IsAligned, position, starts);
      }
    }

    /** A stream of sync-led packets goes out in its groups of seven, from the first packet on, none lost;
        up to six packets wait for the group to fill. */
    lemma {:induction false} PacketsAreGrouped(packets: seq<Packet>)
      requires Valid() && |pending| < UDP_PAYLOAD_SIZE && stream == Join(packets) && Resync.SyncLed(packets)
      ensures |socket| == |packets| / 7
      ensures forall k :: 0 <= k < |socket| ==> socket[k] == Join(packets[7 * k..7 * k + 7])
    {
      hide Settled, IsAligned, Join, WindowStarts, Resync.SyncLed, Greedy;
      ScanIsComplete(stream, UDP_PAYLOAD_SIZE, IsAligned, position, starts);
      GroupsAreGreedy(packets);
      forall k | 0 <= k < |socket| ensures socket[k] == Join(packets[7 * k..7 * k + 7]) {
        GroupIsAligned(packets, k);
      }
    }
  }

  lemma {:induction false} StillThere(stream: seq<Byte>, data: seq<Byte>, starts: seq<nat>)
    ensures forall i :: 0 <= i < |starts| && starts[i] + UDP_PAYLOAD_SIZE <= |stream| ==>
              (stream + data)[starts[i]..starts[i] + UDP_PAYLOAD_SIZE]
                == stream[starts[i]..starts[i] + UDP_PAYLOAD_SIZE]
  {
  }
}
