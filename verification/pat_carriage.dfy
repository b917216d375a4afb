/** A program association table the way a multiplexer writes it (ISO/IEC 13818-1, sections 2.4.3 and
    2.4.4.3): entries into a section, the section into packets. The parser reads back what was written. */
module PatCarriage {
  import opened TransportStream
  import opened Pat

  type Word = w: int | 0 <= w < 65536

  datatype Program = Program(number: Word, pidHigh: Byte, pidLow: Byte)

  function Entries(programs: seq<Program>): (bytes: seq<Byte>)
    ensures |bytes| == 4 * |programs|
  {
    if programs == [] then []
    else
      var n := |programs| - 1;
      Entries(programs[..n])
      + [programs[n].number / 256, programs[n].number % 256, programs[n].pidHigh, programs[n].pidLow]
  }

  /** What a section holds besides its programs: five header bytes (transport stream identifier, version,
      section numbers) and the check sum. */
  datatype Frame = Frame(header: seq<Byte>, checksum: seq<Byte>) {
    predicate Valid() {
      |header| == 5 && |checksum| == 4
    }
  }

  function Section(f: Frame, programs: seq<Program>): (section: seq<Byte>)
    requires f.Valid() && |programs| <= 253
    ensures |section| == 12 + 4 * |programs| <= 1024
  {
    var length := 9 + 4 * |programs|;
    [0, 0xB0 + length / 256, length % 256] + f.header + Entries(programs) + f.checksum
  }

  lemma {:induction false} EntryBytes(programs: seq<Program>, k: nat)
    requires k < |programs|
    ensures Entries(programs)[4 * k] == programs[k].number / 256
      && Entries(programs)[4 * k + 1] == programs[k].number % 256
    decreases |programs|
  {
    var n := |programs| - 1;
    if k < n {
      EntryBytes(programs[..n], k);
      assert programs[..n][k] == programs[k];
    }
  }

  lemma {:induction false} SectionEntries(f: Frame, programs: seq<Program>)
    requires f.Valid() && |programs| <= 253
    ensures EntryCount(Section(f, programs)) == |programs|
    ensures forall k :: 0 <= k < |programs| ==> Entry(Section(f, programs), k) == programs[k].number
  {
    var section := Section(f, programs);
    forall k | 0 <= k < |programs| ensures Entry(section, k) == programs[k].number {
      EntryBytes(programs, k);
      assert section[8 + 4 * k] == Entries(programs)[4 * k] && section[9 + 4 * k] == Entries(programs)[4 * k + 1];
    }
  }

  /** `ids` are the distinct program numbers but 0, in the order in which they first come. */
  ghost predicate FirstOccurrences(programs: seq<Program>, ids: seq<nat>, at: seq<nat>) {
    && |at| == |ids|
    && (forall i :: 0 <= i < |at| ==> at[i] < |programs| && programs[at[i]].number == ids[i] != 0)
    && (forall i, j :: 0 <= i < j < |at| ==> at[i] < at[j])
    && (forall i, k :: 0 <= i < |at| && 0 <= k < at[i] ==> programs[k].number != ids[i])
    && (forall k :: 0 <= k < |programs| && programs[k].number != 0 ==> programs[k].number in ids)
  }

  lemma {:induction false} SectionIsWellFormed(f: Frame, programs: seq<Program>)
    requires f.Valid() && |programs| <= 253
    requires exists k :: 0 <= k < |programs| && programs[k].number != 0
    ensures WellFormedPat(Section(f, programs))
  {
    SectionEntries(f, programs);
    var section, length := Section(f, programs), 9 + 4 * |programs|;
    assert section[0] == 0 && section[1] == 0xB0 + length / 256 && section[2] == length % 256;
    var k :| 0 <= k < |programs| && programs[k].number != 0;
    assert Entry(section, k) != 0;
    hide Entry, Section;
  }

  lemma {:induction false} DistinctIsFirst(f: Frame, programs: seq<Program>, ids: seq<nat>, at: seq<nat>)
    requires f.Valid() && |programs| <= 253
    requires DistinctBefore(Section(f, programs), ids, at, EntryCount(Section(f, programs)))
    ensures FirstOccurrences(programs, ids, at)
  {
    SectionEntries(f, programs);
    hide Entry, EntryCount, Section;
  }

  // Packets

  datatype Adaptation = NoAdaptation | Adaptation(content: seq<Byte>)

  /** A packet on PID 0 up to its payload. */
  function Front(start: bool, cc: nat, adaptation: Adaptation): seq<Byte>
    requires cc < 16 && (adaptation.Adaptation? ==> |adaptation.content| < 184)
  {
    [0x47, if start then 0x40 else 0, 0, (if adaptation.Adaptation? then 0x30 else 0x10) + cc]
    + if adaptation.Adaptation? then [|adaptation.content|] + adaptation.content else []
  }

  /** A packet in which a section begins, behind the end of another, or one that carries it on, or one of
      another PID. */
  datatype Item =
    | Opening(cc: nat, adaptation: Adaptation, tail: seq<Byte>, payload: seq<Byte>)
    | CarryOn(cc: nat, adaptation: Adaptation, payload: seq<Byte>)
    | Other(packet: Packet)
  {
    predicate Valid() {
      match this
      case Other(packet) => packet[1] % 32 != 0 || packet[2] != 0
      case Opening(cc, adaptation, tail, payload) =>
        && cc < 16 && (adaptation.Adaptation? ==> |adaptation.content| < 184) && |tail| < 184 && payload != []
        && |Front(true, cc, adaptation)| + 1 + |tail| + |payload| == TS_PACKET_SIZE
      case CarryOn(cc, adaptation, payload) =>
        && cc < 16 && (adaptation.Adaptation? ==> |adaptation.content| < 184) && payload != []
        && |Front(false, cc, adaptation)| + |payload| == TS_PACKET_SIZE
    }

    function Bytes(): Packet
      requires Valid()
    {
      match this
      case Other(packet) => packet
      case Opening(cc, adaptation, tail, payload) => Front(true, cc, adaptation) + [|tail|] + tail + payload
      case CarryOn(cc, adaptation, payload) => Front(false, cc, adaptation) + payload
    }

    function Payload(): seq<Byte> {
      if Other? then [] else payload
    }
  }

  lemma {:induction false} OpeningIsRead(item: Item)
    requires item.Valid() && item.Opening?
    ensures Opens(item.Bytes()) && OpeningBytes(item.Bytes()) == item.payload
  {
    var p, front := item.Bytes(), Front(true, item.cc, item.adaptation);
    assert p[..4] == front[..4];
    assert p[0] == 0x47 && p[1] == 0x40 && p[2] == 0 && p[3] == front[3];
    if item.adaptation.Adaptation? { assert p[4] == front[4] == |item.adaptation.content|; }
    assert PayloadStart(p) == |front|;
    assert p[|front|] == |item.tail|;
    assert p[|front| + 1 + |item.tail|..] == item.payload;
  }

  lemma {:induction false} OthersAreRead(item: Item)
    requires item.Valid() && !item.Opening?
    ensures Continues(item.Bytes()) && Piece(item.Bytes()) == item.Payload()
  {
    var p := item.Bytes();
    if item.CarryOn? {
      var front := Front(false, item.cc, item.adaptation);
      assert p[..4] == front[..4];
      assert p[0] == 0x47 && p[1] == 0 && p[2] == 0 && p[3] == front[3];
      if item.adaptation.Adaptation? { assert p[4] == front[4] == |item.adaptation.content|; }
      assert PayloadStart(p) == |front|;
      assert p[|front|..] == item.payload;
    }
  }

  function BytesOf(items: seq<Item>): (packets: seq<Packet>)
    requires forall i :: 0 <= i < |items| ==> items[i].Valid()
    ensures |packets| == |items| && forall i :: 0 <= i < |items| ==> packets[i] == items[i].Bytes()
  {
    seq(|items|, i requires 0 <= i < |items| => items[i].Bytes())
  }

  function PayloadOf(items: seq<Item>): seq<Byte> {
    if items == [] then [] else PayloadOf(items[..|items| - 1]) + items[|items| - 1].Payload()
  }

  lemma {:induction false} BytesOfPrefix(items: seq<Item>, n: nat)
    requires n < |items| && forall i :: 0 <= i < |items| ==> items[i].Valid()
    ensures BytesOf(items)[..n] == BytesOf(items[..n]) && BytesOf(items)[n] == items[n].Bytes()
  {
    hide Item.Bytes, Item.Valid;
  }

  lemma {:induction false} PiecesArePayload(items: seq<Item>)
    requires forall i :: 0 <= i < |items| ==> items[i].Valid() && !items[i].Opening?
    ensures Pieces(BytesOf(items)) == PayloadOf(items)
    decreases |items|
  {
    hide Piece, BytesOf, Item.Bytes, Item.Valid, Item.Payload;
    if items != [] {
      var n := |items| - 1;
      BytesOfPrefix(items, n);
      PiecesArePayload(items[..n]);
      OthersAreRead(items[n]);
    }
  }

  lemma {:induction false} ItemsContinue(items: seq<Item>)
    requires forall i :: 0 <= i < |items| ==> items[i].Valid() && !items[i].Opening?
    ensures forall i :: 0 <= i < |items| ==> Continues(BytesOf(items)[i])
  {
    hide Continues, Piece;
    forall i | 0 <= i < |items| ensures Continues(BytesOf(items)[i]) {
      OthersAreRead(items[i]);
    }
  }

  /** Written, carried and read: the programs written into a section come out of a fresh parser, distinct
      and in order, whatever adaptation fields, pointers and packets of other PIDs carry it, whatever
      follows it, and whatever packets that begin no section come before. */
  lemma {:induction false} WrittenPatIsRead(f: Frame, programs: seq<Program>, before: seq<Item>, opening: Item,
                                            rest: seq<Item>)
    returns (at: seq<nat>)
    requires f.Valid() && |programs| <= 253
    requires exists k :: 0 <= k < |programs| && programs[k].number != 0
    requires forall i :: 0 <= i < |before| ==> before[i].Valid() && !before[i].Opening?
    requires opening.Valid() && opening.Opening?
    requires forall i :: 0 <= i < |rest| ==> rest[i].Valid() && !rest[i].Opening?
    requires Section(f, programs) <= opening.payload + PayloadOf(rest)
    ensures var s := ParseAll(FRESH, BytesOf(before) + [opening.Bytes()] + BytesOf(rest));
            s.complete && FirstOccurrences(programs, s.serviceIds, at)
  {
    hide *;
    SectionIsWellFormed(f, programs);
    ItemsContinue(before);
    OpeningIsRead(opening);
    ItemsContinue(rest);
    PiecesArePayload(rest);
    at := SectionIsFound(BytesOf(before), opening.Bytes(), BytesOf(rest), Section(f, programs));
    SectionLong(f, programs);
    DistinctIsFirst(f, programs, ParseAll(FRESH, BytesOf(before) + [opening.Bytes()] + BytesOf(rest)).serviceIds, at);
  }

  lemma {:induction false} SectionLong(f: Frame, programs: seq<Program>)
    requires f.Valid() && |programs| <= 253
    ensures |Section(f, programs)| >= 12
  {
  }

  /** What is no section of this table: another table, or a length the standard does not allow. The packet
      that begins it leaves the parser as new. */
  lemma {:induction false} IllegalSectionIsForgotten(p: Packet)
    requires Opens(p) && |OpeningBytes(p)| >= 3
    requires var b := OpeningBytes(p);
             b[0] != 0 || 3 + (b[1] as int % 16) * 256 + b[2] as int < 12
               || 3 + (b[1] as int % 16) * 256 + b[2] as int > 1024
    ensures ParsePacket(FRESH, p) == FRESH
  {
    assert [] + OpeningBytes(p) == OpeningBytes(p);
  }
}
