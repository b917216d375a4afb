/** The parser as an object fed with buffers, proved to be the fold of `Pat` over the packets of the
    whole stream, however it was cut. */
module PatParser {
  import opened TransportStream
  import opened WindowScan
  import opened Pat
  import opened Resync

  /** A packet may begin at any sync byte. */
  predicate IsPacket(window: seq<Byte>) {
    |window| == TS_PACKET_SIZE && window[0] == SYNC_BYTE
  }

  function PacketsAt(stream: seq<Byte>, starts: seq<nat>): (packets: seq<Packet>)
    requires forall i :: 0 <= i < |starts| ==> starts[i] + TS_PACKET_SIZE <= |stream|
    ensures |packets| == |starts|
  {
    seq(|starts|, i requires 0 <= i < |starts| => stream[starts[i]..starts[i] + TS_PACKET_SIZE])
  }

  /** The packets of a stream: leftmost, non-overlapping, each at a sync byte. */
  function PacketsOf(stream: seq<Byte>): seq<Packet> {
    PacketsAt(stream, WindowStarts(stream, TS_PACKET_SIZE, IsPacket, 0))
  }

  lemma {:induction false} PacketNeedsSync()
    ensures forall window :: NeedsSync(IsPacket, window)
  {
  }

  class PatParser {
    var pending: seq<Byte>
    var section: seq<Byte>
    var expectedSectionBytes: nat
    var serviceIds: seq<nat>
    var complete: bool
    ghost var stream: seq<Byte>   // everything fed
    ghost var position: nat       // how much of it is behind `pending`
    ghost var starts: seq<nat>    // where the packets parsed begin

    function View(): PatState
      reads `section, `expectedSectionBytes, `serviceIds, `complete
    {
      PatState(section, expectedSectionBytes, serviceIds, complete)
    }

    ghost predicate Scanned()
      reads `stream, `position, `starts
    {
      && Settled(stream, TS_PACKET_SIZE, IsPacket, position, starts)
      && position <= |stream|
      && (forall i :: 0 <= i < |starts| ==> starts[i] + TS_PACKET_SIZE <= |stream|)
    }

    ghost predicate Valid()
      reads this
    {
      && Scanned()
      && (!complete ==> pending == stream[position..])
      && View() == ParseAll(FRESH, PacketsAt(stream, starts))
    }

    /** Between feeds: nothing that could still be parsed is pending. */
    ghost predicate Ready()
      reads this
    {
      Valid() && (complete || |pending| < TS_PACKET_SIZE)
    }

    constructor ()
      ensures Ready() && stream == [] && View() == FRESH
    {
      pending, section, expectedSectionBytes, serviceIds, complete := [], [], 0, [], false;
      stream, position, starts := [], 0, [];
      NothingSettled(TS_PACKET_SIZE, IsPacket);
    }

    method ParsePatSection()
      modifies `section, `expectedSectionBytes, `serviceIds, `complete
      ensures View() == ParseSection(old(View()))
    {
      if |section| < expectedSectionBytes || expectedSectionBytes < 12 { return; }
      var programsEnd := expectedSectionBytes - 4;
      var seen: seq<nat> := [];
      var pos := 8;
      while pos + 4 <= programsEnd
        invariant serviceIds + NewPrograms(section, pos, programsEnd, seen)
               == old(serviceIds) + NewPrograms(section, 8, programsEnd, [])
        modifies `serviceIds
        decreases programsEnd - pos
      {
        var programNumber := ProgramAt(section, pos);
        ghost var rest := NewPrograms(section, pos + 4, programsEnd, seen + [programNumber]);
        assert serviceIds + ([programNumber] + rest) == (serviceIds + [programNumber]) + rest;
        if programNumber != 0 && programNumber !in seen {
          seen := seen + [programNumber];
          serviceIds := serviceIds + [programNumber];
        }
        pos := pos + 4;
      }
      assert serviceIds + [] == serviceIds;
      complete := serviceIds != [];
      if !complete {
        section := [];
        expectedSectionBytes := 0;
      }
    }

    method AppendSectionBytes(data: seq<Byte>)
      modifies `section, `expectedSectionBytes, `serviceIds, `complete
      ensures View() == AppendSection(old(View()), data)
    {
      if |data| == 0 || complete { return; }
      section := section + data;
      if expectedSectionBytes == 0 && |section| >= 3 {
        if section[0] != 0 {
          section := [];
          return;
        }
        expectedSectionBytes := 3 + 256 * (section[1] as int % 16) + section[2];
        if expectedSectionBytes < 12 || expectedSectionBytes > MAX_SECTION_BYTES {
          section := [];
          expectedSectionBytes := 0;
          return;
        }
      }
      if expectedSectionBytes > 0 && |section| >= expectedSectionBytes {
        ParsePatSection();
      }
    }

    method ParseOnePacket(packet: Packet)
      modifies `section, `expectedSectionBytes, `serviceIds, `complete
      ensures View() == ParsePacket(old(View()), packet)
    {
      hide AppendSection;
      if packet[0] != SYNC_BYTE || complete { return; }
      var payloadUnitStart := (packet[1] / 0x40) % 2 == 1;
      if Pid(packet) != 0 { return; }
      var adaptationFieldControl := AdaptationControl(packet);
      if adaptationFieldControl == 0 || adaptationFieldControl == 2 { return; }
      var pos: int := 4;
      if adaptationFieldControl == 3 {
        pos := pos + 1 + packet[pos];
        if pos >= TS_PACKET_SIZE { return; }
      }
      if payloadUnitStart {
        var pointerField := packet[pos];
        pos := pos + 1;
        if pos + pointerField > TS_PACKET_SIZE { return; }
        pos := pos + pointerField;
        section := [];
        expectedSectionBytes := 0;
      } else if section == [] {
        return;
      }
      if pos < TS_PACKET_SIZE {
        AppendSectionBytes(packet[pos..]);
      } else {
        assert packet[pos..] == [];
        AppendNothing(View());
      }
    }

    /** Drops everything before the first pending sync byte. */
    method SkipToSync()
      requires Valid() && !complete
      modifies `pending, `position
      ensures Valid() && |pending| <= old(|pending|)
      ensures pending == [] || pending[0] == SYNC_BYTE
    {
      hide Settled, IsPacket, ParseAll, PacketsAt;
      PacketNeedsSync();
      var sync := 0;
      while sync < |pending| && pending[sync] != SYNC_BYTE
        invariant sync <= |pending|
        invariant Settled(stream, TS_PACKET_SIZE, IsPacket, position + sync, starts)
        modifies {}
      {
        SkipByte(stream, TS_PACKET_SIZE, IsPacket, position + sync, starts);
        sync := sync + 1;
      }
      pending := pending[sync..];
      position := position + sync;
    }

    /** Parses the packet at the front of what is pending and drops it. */
    method ParseFront()
      requires Valid() && !complete && |pending| >= TS_PACKET_SIZE && pending[0] == SYNC_BYTE
      modifies `pending, `position, `starts, `section, `expectedSectionBytes, `serviceIds, `complete
      ensures Valid() && |pending| < old(|pending|)
    {
      hide Settled, ParseAll, ParsePacket;
      var packet: Packet := pending[..TS_PACKET_SIZE];
      assert packet == stream[position..position + TS_PACKET_SIZE];
      TakeWindow(stream, TS_PACKET_SIZE, IsPacket, position, starts);
      OnePacketMore(stream, starts, position);
      ParseOnePacket(packet);
      pending := pending[TS_PACKET_SIZE..];
      starts := starts + [position];
      position := position + TS_PACKET_SIZE;
    }

    method ParsePending()
      requires Valid() && !complete
      modifies `pending, `position, `starts, `section, `expectedSectionBytes, `serviceIds, `complete
      ensures Valid() && (complete || |pending| < TS_PACKET_SIZE)
    {
      hide Settled, ParseAll, PacketsAt, IsPacket;
      while |pending| >= TS_PACKET_SIZE && !complete
        invariant Valid()
        decreases |pending|
      {
        SkipToSync();
        if |pending| < TS_PACKET_SIZE {
          return;
        }
        ParseFront();
      }
    }

    /** One buffer. Whatever buffers the stream came in, the parser then reports what it would report
        had it been fed the whole stream at once: the fold over the packets of the stream. */
    method Feed(data: seq<Byte>)
      requires Ready()
      modifies this
      ensures Ready() && stream == old(stream) + data
      ensures var s := ParseAll(FRESH, PacketsOf(stream));
              complete == s.complete && serviceIds == s.serviceIds
    {
      hide Settled, ParseAll, IsPacket;
      MoreBytes(stream, data, TS_PACKET_SIZE, IsPacket, position, starts);
      SamePackets(stream, data, starts);
      assert !complete ==> (stream + data)[position..] == pending + data;
      stream := stream + data;
      hide PacketsAt;
      if |data| == 0 || complete {
        assert pending + [] == pending;
        ReportsWholeStream();
        return;
      }
      pending := pending + data;
      ParsePending();
      ReportsWholeStream();
    }

    /** What a caller reads off the parser between feeds. */
    lemma {:induction false} ReportsWholeStream()
      requires Ready()
      ensures var s := ParseAll(FRESH, PacketsOf(stream));
              complete == s.complete && serviceIds == s.serviceIds
    {
      if complete {
        LaterPacketsChangeNothing(stream, position, starts);
      } else {
        ScanIsComplete(stream, TS_PACKET_SIZE, IsPacket, position, starts);
      }
    }

    /** Once the packets that carry a well-formed section have been fed, in any pieces and whatever
        follows them, the parser has reported the section's programs. */
    lemma {:induction false} ReportsSection(before: seq<Packet>, opening: Packet, rest: seq<Packet>,
                                            section: seq<Byte>, more: seq<Byte>)
      returns (places: seq<nat>)
      requires Ready() && stream == Join(before + [opening] + rest) + more
      requires SyncLed(before + [opening] + rest)
      requires WellFormedPat(section)
      requires forall i :: 0 <= i < |before| ==> Continues(before[i])
      requires Opens(opening)
      requires forall i :: 0 <= i < |rest| ==> Continues(rest[i])
      requires section <= OpeningBytes(opening) + Pieces(rest)
      ensures complete && DistinctBefore(section, serviceIds, places, EntryCount(section))
    {
      hide Valid, ParseAll, DistinctBefore, WellFormedPat, Opens, Continues, Ignored, PacketsOf, Join;
      var packets := before + [opening] + rest;
      ReportsWholeStream();
      places := SectionIsFound(before, opening, rest, section);
      var later := PacketsLead(packets, more);
      ParseAllAppend(FRESH, packets, later);
      CompleteIsFinal(ParseAll(FRESH, packets), later);
    }

    /** And exactly then: as long as no more than part of a packet follows, the parser is complete if and
        only if the whole section came in those packets, and not in front of a later pointer. */
    lemma {:induction false} ReportsSectionIff(before: seq<Packet>, opening: Packet, rest: seq<Packet>,
                                               section: seq<Byte>, part: seq<Byte>)
      requires Ready() && stream == Join(before + [opening] + rest) + part && |part| < TS_PACKET_SIZE
      requires SyncLed(before + [opening] + rest)
      requires WellFormedPat(section)
      requires forall i :: 0 <= i < |before| ==> Continues(before[i])
      requires Opens(opening)
      requires forall i :: 0 <= i < |rest| ==> Continues(rest[i])
      requires Agree(OpeningBytes(opening) + Pieces(rest), section)
      ensures complete <==> section <= OpeningBytes(opening) + Pieces(rest)
      ensures complete ==> serviceIds == ProgramsOf(section)
    {
      hide Valid, ParseAll, WellFormedPat, Opens, Continues, Ignored, PacketsOf, Join, ProgramsOf;
      var packets := before + [opening] + rest;
      ReportsWholeStream();
      SectionIsFoundIff(before, opening, rest, section, opening);
      var later := PacketsLead(packets, part);
      assert packets + [] == packets;
    }
  }

  function Multiples(count: nat): (starts: seq<nat>)
    ensures |starts| == count && forall k :: 0 <= k < count ==> starts[k] == TS_PACKET_SIZE * k
  {
    seq(count, k requires 0 <= k < count => TS_PACKET_SIZE * k)
  }

  /** A stream of sync-led packets is cut at its packet boundaries, whatever follows. */
  lemma {:induction false} PacketsSettle(packets: seq<Packet>)
    requires SyncLed(packets)
    ensures Settled(Join(packets), TS_PACKET_SIZE, IsPacket, TS_PACKET_SIZE * |packets|, Multiples(|packets|))
    decreases |packets|
  {
    hide Settled;
    if packets == [] {
      NothingSettled(TS_PACKET_SIZE, IsPacket);
    } else {
      var n := |packets| - 1;
      PacketsSettle(packets[..n]);
      assert packets == packets[..n] + [packets[n]];
      JoinAppend(packets[..n], [packets[n]]);
      JoinAt(packets, n);
      assert Join([packets[n]]) == packets[n] + Join([]) == packets[n];
      MoreBytes(Join(packets[..n]), packets[n], TS_PACKET_SIZE, IsPacket, TS_PACKET_SIZE * n, Multiples(n));
      TakeWindow(Join(packets), TS_PACKET_SIZE, IsPacket, TS_PACKET_SIZE * n, Multiples(n));
      assert Multiples(n + 1) == Multiples(n) + [TS_PACKET_SIZE * n];
    }
  }

  lemma {:induction false} PacketsAtAppend(stream: seq<Byte>, a: seq<nat>, b: seq<nat>)
    requires forall i :: 0 <= i < |a| ==> a[i] + TS_PACKET_SIZE <= |stream|
    requires forall i :: 0 <= i < |b| ==> b[i] + TS_PACKET_SIZE <= |stream|
    ensures PacketsAt(stream, a + b) == PacketsAt(stream, a) + PacketsAt(stream, b)
  {
  }

  /** The starts of a stream's packets leave room for them. */
  lemma {:induction false} StartsFit(stream: seq<Byte>, at: nat)
    ensures forall i :: 0 <= i < |WindowStarts(stream, TS_PACKET_SIZE, IsPacket, at)| ==>
              WindowStarts(stream, TS_PACKET_SIZE, IsPacket, at)[i] + TS_PACKET_SIZE <= |stream|
  {
  }

  lemma {:induction false} NoneStarts(stream: seq<Byte>, at: nat)
    ensures |stream| < at + TS_PACKET_SIZE ==> WindowStarts(stream, TS_PACKET_SIZE, IsPacket, at) == []
  {
  }

  lemma {:induction false} PacketsLead(packets: seq<Packet>, more: seq<Byte>) returns (later: seq<Packet>)
    requires SyncLed(packets)
    ensures PacketsOf(Join(packets) + more) == packets + later
    ensures |more| < TS_PACKET_SIZE ==> later == []
  {
    hide Settled, WindowStarts, IsPacket, Join, Multiples, SyncLed, PacketsAt;
    var stream, starts := Join(packets) + more, Multiples(|packets|);
    PacketsSettle(packets);
    SettledAlways(Join(packets), more, TS_PACKET_SIZE, IsPacket, TS_PACKET_SIZE * |packets|, starts);
    var rest := WindowStarts(stream, TS_PACKET_SIZE, IsPacket, TS_PACKET_SIZE * |packets|);
    StartsFit(stream, TS_PACKET_SIZE * |packets|);
    NoneStarts(stream, TS_PACKET_SIZE * |packets|);
    PacketsAtMultiples(packets, more);
    PacketsAtAppend(stream, starts, rest);
    later := PacketsAt(stream, rest);
  }

  lemma {:induction false} PacketsAtMultiples(packets: seq<Packet>, more: seq<Byte>)
    ensures PacketsAt(Join(packets) + more, Multiples(|packets|)) == packets
  {
    hide Join;
    var stream := Join(packets) + more;
    forall k | 0 <= k < |packets| ensures PacketsAt(stream, Multiples(|packets|))[k] == packets[k] {
      JoinAt(packets, k);
      assert stream[TS_PACKET_SIZE * k..TS_PACKET_SIZE * (k + 1)]
          == Join(packets)[TS_PACKET_SIZE * k..TS_PACKET_SIZE * (k + 1)];
    }
  }

  lemma {:induction false} AppendNothing(s: PatState)
    ensures AppendSection(s, []) == s
  {
  }

  lemma {:induction false} SamePackets(stream: seq<Byte>, data: seq<Byte>, starts: seq<nat>)
    requires forall i :: 0 <= i < |starts| ==> starts[i] + TS_PACKET_SIZE <= |stream|
    ensures PacketsAt(stream + data, starts) == PacketsAt(stream, starts)
  {
    forall i | 0 <= i < |starts| ensures PacketsAt(stream + data, starts)[i] == PacketsAt(stream, starts)[i] {
      assert (stream + data)[starts[i]..starts[i] + TS_PACKET_SIZE] == stream[starts[i]..starts[i] + TS_PACKET_SIZE];
    }
  }

  lemma {:induction false} OnePacketMore(stream: seq<Byte>, starts: seq<nat>, position: nat)
    requires forall i :: 0 <= i < |starts| ==> starts[i] + TS_PACKET_SIZE <= |stream|
    requires position + TS_PACKET_SIZE <= |stream|
    ensures var packets := PacketsAt(stream, starts);
            var packet: Packet := stream[position..position + TS_PACKET_SIZE];
            && PacketsAt(stream, starts + [position]) == packets + [packet]
            && ParseAll(FRESH, packets + [packet]) == ParsePacket(ParseAll(FRESH, packets), packet)
  {
    var packets := PacketsAt(stream, starts);
    var packet: Packet := stream[position..position + TS_PACKET_SIZE];
    assert (packets + [packet])[..|packets|] == packets;
    hide ParsePacket;
  }

  lemma {:induction false} LaterPacketsChangeNothing(stream: seq<Byte>, position: nat, starts: seq<nat>)
    requires Settled(stream, TS_PACKET_SIZE, IsPacket, position, starts)
    requires forall i :: 0 <= i < |starts| ==> starts[i] + TS_PACKET_SIZE <= |stream|
    requires ParseAll(FRESH, PacketsAt(stream, starts)).complete
    ensures ParseAll(FRESH, PacketsOf(stream)) == ParseAll(FRESH, PacketsAt(stream, starts))
  {
    hide ParseAll, WindowStarts, PacketsAt, Settled;
    SettledAlways(stream, [], TS_PACKET_SIZE, IsPacket, position, starts);
    assert stream + [] == stream;
    var rest := WindowStarts(stream, TS_PACKET_SIZE, IsPacket, position);
    StartsFit(stream, position);
    PacketsAtAppend(stream, starts, rest);
    ParseAllAppend(FRESH, PacketsAt(stream, starts), PacketsAt(stream, rest));
    CompleteIsFinal(ParseAll(FRESH, PacketsAt(stream, starts)), PacketsAt(stream, rest));
  }
}
