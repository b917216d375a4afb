/** The monitor's arrays and remainder, updated in place, proved to follow the fold of `Continuity`. */
module ContinuityMonitor {
  import opened TransportStream
  import opened Continuity

  /** The sync byte at `offset` is confirmed by a second one, and by a third and fourth if they exist. */
  method Confirmed(data: seq<Byte>, offset: nat) returns (aligned: bool)
    requires offset < |data| && data[offset] == SYNC_BYTE
    ensures aligned == AlignedAt(data, offset)
  {
    var confirmed := 1;
    var next := offset + TS_PACKET_SIZE;
    while next < |data| && confirmed < 4
      invariant 1 <= confirmed <= 4 && next == offset + confirmed * TS_PACKET_SIZE
      invariant next < |data| + TS_PACKET_SIZE
      invariant confirmed > 1 ==> data[offset + TS_PACKET_SIZE] == SYNC_BYTE
      invariant confirmed > 2 ==> data[offset + 2 * TS_PACKET_SIZE] == SYNC_BYTE
      invariant confirmed > 3 ==> data[offset + 3 * TS_PACKET_SIZE] == SYNC_BYTE
      decreases 4 - confirmed
    {
      if data[next] != SYNC_BYTE {
        return false;
      }
      confirmed := confirmed + 1;
      next := next + TS_PACKET_SIZE;
    }
    return confirmed >= 2;
  }

  method FindTsAlignment(data: seq<Byte>) returns (found: Option<nat>)
    ensures found == Alignment(data)
  {
    if |data| < 2 * TS_PACKET_SIZE {
      return None;
    }
    var offset := 0;
    while offset < TS_PACKET_SIZE
      invariant offset <= TS_PACKET_SIZE
      invariant AlignmentFrom(data, offset) == AlignmentFrom(data, 0)
    {
      if data[offset] == SYNC_BYTE {
        var aligned := Confirmed(data, offset);
        if aligned {
          return Some(offset);
        }
      }
      offset := offset + 1;
    }
    return None;
  }

  lemma {:induction false} RunOneMore(bytes: seq<Byte>, offset: nat)
    requires offset + TS_PACKET_SIZE <= |bytes| && bytes[offset] == SYNC_BYTE
    ensures RunPackets(bytes, offset)
            == [bytes[offset..offset + TS_PACKET_SIZE]] + RunPackets(bytes, offset + TS_PACKET_SIZE)
    ensures RunEnd(bytes, offset) == RunEnd(bytes, offset + TS_PACKET_SIZE)
  {
  }

  lemma {:induction false} RunIsOver(bytes: seq<Byte>, offset: nat)
    requires offset <= |bytes|
    requires offset + TS_PACKET_SIZE > |bytes| || bytes[offset] != SYNC_BYTE
    ensures RunPackets(bytes, offset) == [] && RunEnd(bytes, offset) == offset
  {
  }

  class TsContinuity {
    const continuity: array<Byte>
    const continuityValid: array<bool>
    var remainder: seq<Byte>

    ghost predicate Valid() {
      continuity.Length == PID_COUNT && continuityValid.Length == PID_COUNT
    }

    ghost function CountersView(): (c: Counters)
      requires Valid()
      reads continuity, continuityValid
      ensures c.Valid()
    {
      Counters(continuity[..], continuityValid[..])
    }

    ghost function View(): Monitor
      requires Valid()
      reads `remainder, continuity, continuityValid
    {
      Monitor(CountersView(), remainder)
    }

    constructor ()
      ensures Valid() && fresh(continuity) && fresh(continuityValid)
      ensures remainder == [] && forall pid :: 0 <= pid < PID_COUNT ==> !CountersView().valid[pid]
    {
      continuity := new Byte[PID_COUNT](_ => 0);
      continuityValid := new bool[PID_COUNT](_ => false);
      remainder := [];
    }

    /** Everything after the null-PID test. */
    method CountPacketCounter(packet: Packet) returns (errors: nat)
      requires Valid()
      modifies continuity, continuityValid
      ensures Tally(CountersView(), errors) == CheckCounter(old(CountersView()), packet)
    {
      errors := 0;
      var pid := Pid(packet);
      var adaptationControl := AdaptationControl(packet);
      if adaptationControl == 0 {
        continuityValid[pid] := false;
        return 1;
      }
      var discontinuity := false;
      if (adaptationControl == 2 || adaptationControl == 3) && packet[4] > 0 && packet[4] <= 183 {
        discontinuity := packet[5] / 0x80 == 1;
      }
      if discontinuity {
        continuityValid[pid] := false;
      }
      if adaptationControl != 1 && adaptationControl != 3 {
        return 0;
      }
      var continuityCounter := ContinuityCounter(packet);
      if continuityValid[pid] {
        var expected := (continuity[pid] as int + 1) % 16;
        if continuityCounter != expected {
          errors := 1;
        }
      }
      continuity[pid] := continuityCounter;
      continuityValid[pid] := true;
    }

    method CountPacket(packet: Packet) returns (errors: nat)
      requires Valid()
      modifies continuity, continuityValid
      ensures Tally(CountersView(), errors) == CheckPacket(old(CountersView()), packet)
    {
      hide CheckCounter;
      errors := if packet[1] / 0x80 == 1 then 1 else 0;
      if Pid(packet) == NULL_PID {
        return;
      }
      var more := CountPacketCounter(packet);
      errors := errors + more;
    }

    /** Counts packet after packet from `start` on, as long as they are whole and led by a sync byte. */
    method CountRun(bytes: seq<Byte>, start: nat) returns (errors: nat, end: nat)
      requires Valid() && start <= |bytes|
      modifies continuity, continuityValid
      ensures Tally(CountersView(), errors) == CheckAll(old(CountersView()), RunPackets(bytes, start))
      ensures end == RunEnd(bytes, start)
    {
      hide CheckPacket, CheckAll, RunPackets, RunEnd;
      errors, end := 0, start;
      ghost var counted: seq<Packet> := [];
      ghost var atStart := CountersView();
      CheckNone(atStart, []);
      while end + TS_PACKET_SIZE <= |bytes| && bytes[end] == SYNC_BYTE
        invariant start <= end <= |bytes|
        invariant RunPackets(bytes, start) == counted + RunPackets(bytes, end)
        invariant RunEnd(bytes, start) == RunEnd(bytes, end)
        invariant Tally(CountersView(), errors) == CheckAll(atStart, counted)
      {
        var packet: Packet := bytes[end..end + TS_PACKET_SIZE];
        RunOneMore(bytes, end);
        CheckOneMore(atStart, counted, packet);
        var more := CountPacket(packet);
        errors := errors + more;
        counted := counted + [packet];
        end := end + TS_PACKET_SIZE;
      }
      RunIsOver(bytes, end);
      assert counted + [] == counted;
    }

    /** One buffer. */
    method CountContinuityErrors(data: seq<Byte>) returns (errors: nat)
      requires Valid()
      modifies `remainder, continuity, continuityValid
      ensures FeedResult(View(), errors) == Feed(old(View()), data)
    {
      if |data| == 0 {
        return 0;
      }
      hide CheckAll, RunPackets, RunEnd, Alignment;
      var bytes := remainder + data;
      remainder := [];
      var start := FindTsAlignment(bytes);
      if start == None {
        var keep := if |bytes| < 4 * TS_PACKET_SIZE - 1 then |bytes| else 4 * TS_PACKET_SIZE - 1;
        remainder := bytes[|bytes| - keep..];
        return 0;
      }
      var offset;
      errors, offset := CountRun(bytes, start.value);
      if offset < |bytes| {
        remainder := bytes[offset..];
        if |remainder| > 4 * TS_PACKET_SIZE {
          remainder := remainder[|remainder| - 4 * TS_PACKET_SIZE..];
        }
      }
    }

    /** Any number of buffers: the errors add up to those of the fold over all of them. */
    method CountAll(buffers: seq<seq<Byte>>) returns (errors: nat)
      requires Valid()
      modifies `remainder, continuity, continuityValid
      ensures FeedResult(View(), errors) == FeedAll(old(View()), buffers)
    {
      hide Feed;
      errors := 0;
      ghost var atStart := View();
      assert buffers[..0] == [];
      for i := 0 to |buffers|
        invariant FeedResult(View(), errors) == FeedAll(atStart, buffers[..i])
      {
        assert buffers[..i + 1][..i] == buffers[..i];
        var more := CountContinuityErrors(buffers[i]);
        errors := errors + more;
      }
      assert buffers[..|buffers|] == buffers;
    }
  }
}
