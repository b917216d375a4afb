/** What the continuity monitor counts, said of the packets alone: an independent definition of the errors
    of a stream, and what it finds of packets that are lost. */
module LossDetection {
  import opened TransportStream
  import opened Resync
  import opened Continuity

  /** The counter a packet number `end` of a stream would have to follow on a PID: that of the last packet
      with payload on it, unless a packet in between, or none at all, leaves that open. */
  function Expected(packets: seq<Packet>, pid: nat): Option<nat> {
    if packets == [] then None
    else
      var n := |packets| - 1;
      if Pid(packets[n]) != pid then Expected(packets[..n], pid)
      else if HasPayload(packets[n]) then Some((ContinuityCounter(packets[n]) + 1) % 16)
      else if AdaptationControl(packets[n]) == 0 || Discontinuity(packets[n]) then None
      else Expected(packets[..n], pid)
  }

  /** A packet behind others is a counter error on its PID: it has no legal adaptation field control, or
      it has payload, announces no discontinuity, and not the counter expected. */
  predicate CounterError(packets: seq<Packet>, p: Packet) {
    && Pid(p) != 0x1FFF
    && (AdaptationControl(p) == 0
        || (HasPayload(p) && !Discontinuity(p) && Expected(packets, Pid(p)).Some?
            && ContinuityCounter(p) != Expected(packets, Pid(p)).value))
  }

  /** The errors of a stream. */
  function Errors(packets: seq<Packet>): nat {
    if packets == [] then 0
    else
      var n := |packets| - 1;
      Errors(packets[..n]) + (if TransportError(packets[n]) then 1 else 0)
      + if CounterError(packets[..n], packets[n]) then 1 else 0
  }

  /** Nothing counted yet. */
  ghost predicate NothingSeen(c: Counters) {
    c.Valid() && forall pid :: 0 <= pid < PID_COUNT ==> !c.valid[pid]
  }

  /** The per-PID state says what is expected. */
  ghost predicate Tracks(c: Counters, packets: seq<Packet>, pid: nat)
    requires c.Valid() && pid < PID_COUNT
  {
    && (c.valid[pid] <==> Expected(packets, pid).Some?)
    && (c.valid[pid] ==> (c.counter[pid] as int + 1) % 16 == Expected(packets, pid).value)
  }

  lemma {:induction false} ExpectedAfter(packets: seq<Packet>, p: Packet, pid: nat)
    ensures Expected(packets + [p], pid)
            == if Pid(p) != pid then Expected(packets, pid)
               else if HasPayload(p) then Some((ContinuityCounter(p) + 1) % 16)
               else if AdaptationControl(p) == 0 || Discontinuity(p) then None
               else Expected(packets, pid)
  {
    assert (packets + [p])[..|packets|] == packets;
  }

  lemma {:induction false} PacketTracks(c: Counters, packets: seq<Packet>, p: Packet, pid: nat)
    requires c.Valid() && pid < PID_COUNT && pid != NULL_PID && Tracks(c, packets, pid)
    ensures Tracks(CheckPacket(c, p).counters, packets + [p], pid)
  {
    ExpectedAfter(packets, p, pid);
    hide Discontinuity, Expected;
  }

  lemma {:induction false} PacketErrors(c: Counters, packets: seq<Packet>, p: Packet)
    requires c.Valid() && (Pid(p) != NULL_PID ==> Tracks(c, packets, Pid(p)))
    ensures CheckPacket(c, p).errors
            == (if TransportError(p) then 1 else 0) + if CounterError(packets, p) then 1 else 0
  {
    hide Discontinuity, Expected;
  }

  /** The monitor's pass over any packets counts exactly those errors, and is left expecting what the
      packets leave to be expected. */
  lemma {:induction false} MonitorCountsErrors(c: Counters, packets: seq<Packet>)
    requires NothingSeen(c)
    ensures CheckAll(c, packets).errors == Errors(packets)
    ensures forall pid :: 0 <= pid < PID_COUNT && pid != NULL_PID ==>
      Tracks(CheckAll(c, packets).counters, packets, pid)
  {
    hide CheckPacket, CounterError, Tracks;
    if packets == [] {
      forall pid | 0 <= pid < PID_COUNT ensures Tracks(c, [], pid) {
        NothingExpected(c, pid);
      }
    } else {
      var n := |packets| - 1;
      MonitorCountsErrors(c, packets[..n]);
      var before := CheckAll(c, packets[..n]).counters;
      PacketErrors(before, packets[..n], packets[n]);
      assert packets[..n] + [packets[n]] == packets;
      forall pid | 0 <= pid < PID_COUNT && pid != NULL_PID ensures Tracks(CheckAll(c, packets).counters, packets, pid) {
        PacketTracks(before, packets[..n], packets[n], pid);
      }
    }
  }

  lemma {:induction false} NothingExpected(c: Counters, pid: nat)
    requires NothingSeen(c) && pid < PID_COUNT
    ensures Tracks(c, [], pid)
  {
  }

  /** And so does the monitor fed with a stream of sync-led packets in any buffers, for all of its packets
      but at most the last. */
  lemma {:induction false} FedMonitorCountsErrors(c: Counters, packets: seq<Packet>, buffers: seq<seq<Byte>>)
    returns (k: nat)
    requires NothingSeen(c) && SyncLed(packets) && Flatten(buffers) == Join(packets)
    ensures |packets| <= k + 1 && k <= |packets|
    ensures FeedAll(Monitor(c, []), buffers).errors == Errors(packets[..k])
  {
    hide FeedAll, CheckAll, Errors, Join, Flatten, NothingSeen;
    NothingSeenIsValid(c);
    k := SplitIndependence(c, packets, buffers);
    MonitorCountsErrors(c, packets[..k]);
  }

  lemma {:induction false} NothingSeenIsValid(c: Counters)
    requires NothingSeen(c)
    ensures c.Valid()
  {
  }

  // One packet after another on a PID, whatever was counted before

  /** A packet that leaves the counter of a PID alone: on another PID, or without payload, with a legal
      adaptation field control and no discontinuity. */
  predicate LeavesAlone(p: Packet, pid: nat) {
    Pid(p) != pid || (!HasPayload(p) && AdaptationControl(p) != 0 && !Discontinuity(p))
  }

  lemma {:induction false} AloneKeepsLastSeen(c: Counters, between: seq<Packet>, pid: nat, cc: nat)
    requires c.Valid() && pid < PID_COUNT && LastSeen(c, pid, cc)
    requires forall i :: 0 <= i < |between| ==> LeavesAlone(between[i], pid)
    ensures LastSeen(CheckAll(c, between).counters, pid, cc)
  {
    if between != [] {
      var n := |between| - 1;
      AloneKeepsLastSeen(c, between[..n], pid, cc);
      OneKeepsLastSeen(CheckAll(c, between[..n]).counters, between[n], pid, cc);
      hide CheckPacket, LeavesAlone, LastSeen;
    }
  }

  lemma {:induction false} OneKeepsLastSeen(c: Counters, p: Packet, pid: nat, cc: nat)
    requires c.Valid() && pid < PID_COUNT && LastSeen(c, pid, cc) && LeavesAlone(p, pid)
    ensures LastSeen(CheckPacket(c, p).counters, pid, cc)
  {
    hide Discontinuity;
  }

  lemma {:induction false} SeenThenCounted(c: Counters, q: Packet, cc: nat)
    requires c.Valid() && Pid(q) != NULL_PID && LastSeen(c, Pid(q), cc)
    requires HasPayload(q) && !TransportError(q) && !Discontinuity(q)
    ensures CheckPacket(c, q).errors == if ContinuityCounter(q) != (cc + 1) % 16 then 1 else 0
  {
  }

  /** In every state: after a payload packet, and any packets that leave its PID's counter alone, the next
      payload packet of the PID adds one error if and only if its counter is not one more. */
  lemma {:induction false} NextPacketErrs(c: Counters, p: Packet, between: seq<Packet>, q: Packet)
    requires c.Valid() && Pid(p) != NULL_PID && HasPayload(p)
    requires forall i :: 0 <= i < |between| ==> LeavesAlone(between[i], Pid(p))
    requires Pid(q) == Pid(p) && HasPayload(q) && !TransportError(q) && !Discontinuity(q)
    ensures CheckAll(c, [p] + between + [q]).errors
            == CheckAll(c, [p] + between).errors
               + if ContinuityCounter(q) != (ContinuityCounter(p) + 1) % 16 then 1 else 0
  {
    PayloadIsSeen(c, p);
    assert [] + [p] == [p];
    CheckOneMore(c, [], p);
    CheckAllAppend(c, [p], between);
    CheckOneMore(c, [p] + between, q);
    assert CheckAll(c, []) == Tally(c, 0);
    hide CheckPacket, CheckAll, Discontinuity;
    AloneKeepsLastSeen(CheckPacket(c, p).counters, between, Pid(p), ContinuityCounter(p));
    SeenThenCounted(CheckAll(c, [p] + between).counters, q, ContinuityCounter(p));
  }

  /** A packet that announces a discontinuity adds no counter error, in any state. */
  lemma {:induction false} DiscontinuityIsNoError(c: Counters, before: seq<Packet>, q: Packet)
    requires c.Valid() && AdaptationControl(q) != 0 && Discontinuity(q) && !TransportError(q)
    ensures CheckAll(c, before + [q]).errors == CheckAll(c, before).errors
  {
    CheckOneMore(c, before, q);
    hide CheckAll, Discontinuity;
  }

  /** Nor does the first packet of a PID. */
  lemma {:induction false} FirstIsNoError(c: Counters, before: seq<Packet>, q: Packet)
    requires NothingSeen(c) && forall i :: 0 <= i < |before| ==> Pid(before[i]) != Pid(q)
    requires AdaptationControl(q) != 0 && !TransportError(q)
    ensures CheckAll(c, before + [q]).errors == CheckAll(c, before).errors
  {
    assert (before + [q])[..|before|] == before;
    NoneExpected(before, Pid(q));
    hide CheckAll, Expected, Discontinuity, NothingSeen;
    MonitorCountsErrors(c, before);
    MonitorCountsErrors(c, before + [q]);
  }

  lemma {:induction false} NoneExpected(packets: seq<Packet>, pid: nat)
    requires forall i :: 0 <= i < |packets| ==> Pid(packets[i]) != pid
    ensures Expected(packets, pid) == None
  {
    if packets != [] {
      NoneExpected(packets[..|packets| - 1], pid);
    }
  }

  // Runs of payload packets

  /** Payload packets of one PID that count up modulo 16 from `first` on, nothing wrong with them. */
  predicate CountUp(packets: seq<Packet>, pid: nat, first: nat) {
    forall i :: 0 <= i < |packets| ==> UpTo(packets[i], pid, first + i)
  }

  predicate UpTo(p: Packet, pid: nat, count: nat) {
    && Pid(p) == pid != NULL_PID && HasPayload(p) && !TransportError(p) && !Discontinuity(p)
    && ContinuityCounter(p) == count % 16
  }

  /** One packet that is as expected. */
  lemma {:induction false} OneMoreUp(before: seq<Packet>, p: Packet, pid: nat, count: nat)
    requires UpTo(p, pid, count)
    requires Expected(before, pid) == None || Expected(before, pid) == Some(count % 16)
    ensures Errors(before + [p]) == Errors(before) && Expected(before + [p], pid) == Some((count + 1) % 16)
  {
    hide Expected, Discontinuity, Pid;
    ExpectedAfter(before, p, pid);
    OneUp(count);
    assert (before + [p])[..|before|] == before;
  }

  lemma {:induction false} CountsAlong(before: seq<Packet>, packets: seq<Packet>, pid: nat, first: nat)
    requires CountUp(packets, pid, first)
    requires Expected(before, pid) == None || Expected(before, pid) == Some(first % 16)
    ensures Errors(before + packets) == Errors(before)
    ensures packets != [] ==> Expected(before + packets, pid) == Some((first + |packets|) % 16)
    decreases |packets|
  {
    hide UpTo, Expected, Errors;
    if packets == [] {
      assert before + packets == before;
    } else {
      var n := |packets| - 1;
      assert UpTo(packets[n], pid, first + n);
      CountsAlong(before, packets[..n], pid, first);
      assert packets[..n] == [] ==> before + packets[..n] == before;
      OneMoreUp(before + packets[..n], packets[n], pid, first + n);
      assert before + packets[..n] + [packets[n]] == before + packets;
    }
  }

  lemma {:induction false} OneUp(count: nat)
    ensures (count % 16 + 1) % 16 == (count + 1) % 16
  {
  }

  /** The first packet behind a loss. */
  lemma {:induction false} FirstBehindLoss(front: seq<Packet>, lost: nat, q: Packet, pid: nat, next: nat)
    requires Expected(front, pid) == Some(next % 16) && UpTo(q, pid, next + lost)
    ensures Errors(front + [q]) == Errors(front) + if lost % 16 == 0 then 0 else 1
    ensures Expected(front + [q], pid) == Some((next + lost + 1) % 16)
  {
    hide Expected, Discontinuity, Pid;
    ExpectedAfter(front, q, pid);
    OneUp(next + lost);
    SameModulo(next, lost);
    assert (front + [q])[..|front|] == front;
  }

  lemma {:induction false} CountUpBehind(packets: seq<Packet>, pid: nat, first: nat)
    requires packets != [] && CountUp(packets, pid, first)
    ensures UpTo(packets[0], pid, first) && CountUp(packets[1..], pid, first + 1)
  {
    hide UpTo;
    forall i | 0 <= i < |packets[1..]| ensures UpTo(packets[1..][i], pid, first + 1 + i) {
      assert UpTo(packets[i + 1], pid, first + (i + 1));
    }
  }

  /** Packets that count up have no error; with `lost` of them left out in the middle they have exactly one
      error if and only if `lost` is no multiple of 16, and none otherwise. */
  lemma {:induction false} LossIsCounted(c: Counters, front: seq<Packet>, lost: nat, back: seq<Packet>, pid: nat,
                                         first: nat)
    requires NothingSeen(c) && front != [] && back != []
    requires CountUp(front, pid, first) && CountUp(back, pid, first + |front| + lost)
    ensures CheckAll(c, front).errors == 0
    ensures CheckAll(c, front + back).errors == if lost % 16 == 0 then 0 else 1
  {
    hide CheckAll, NothingSeen, Errors, Expected, CountUp, UpTo, Tracks;
    MonitorCountsErrors(c, front);
    MonitorCountsErrors(c, front + back);
    NoErrors();
    assert [] + front == front;
    CountsAlong([], front, pid, first);
    var next := first + |front|;
    CountUpBehind(back, pid, next + lost);
    FirstBehindLoss(front, lost, back[0], pid, next);
    assert front + back == (front + [back[0]]) + back[1..];
    CountsAlong(front + [back[0]], back[1..], pid, next + lost + 1);
  }

  lemma {:induction false} NoErrors()
    ensures Errors([]) == 0 && forall pid :: Expected([], pid) == None
  {
  }

  lemma {:induction false} SameModulo(next: nat, lost: nat)
    ensures (next + lost) % 16 == next % 16 <==> lost % 16 == 0
  {
  }
}
