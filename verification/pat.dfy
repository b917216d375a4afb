/** The program association table, read out of a byte stream (PatParser): what the parser computes,
    as a fold over packets, and that it finds the programs of a well-formed section. */
module Pat {
  import opened TransportStream

  const MAX_SECTION_BYTES := 1024

  /** The parser's state but for the bytes not yet cut into packets. */
  datatype PatState = PatState(section: seq<Byte>, expected: nat, serviceIds: seq<nat>, complete: bool)

  const FRESH := PatState([], 0, [], false)

  /** The program number of the entry at an offset of a section. */
  function ProgramAt(section: seq<Byte>, pos: nat): nat
    requires pos + 1 < |section|
  {
    256 * section[pos] as int + section[pos + 1]
  }

  /** The program numbers of the entries from `pos` on, the NIT entry (0) left out and every number
      only at its first occurrence; `seen` are those found before. */
  function NewPrograms(section: seq<Byte>, pos: nat, end: nat, seen: seq<nat>): seq<nat>
    requires end <= |section|
    decreases end - pos
  {
    if pos + 4 > end then []
    else
      var program := ProgramAt(section, pos);
      if program == 0 || program in seen then NewPrograms(section, pos + 4, end, seen)
      else [program] + NewPrograms(section, pos + 4, end, seen + [program])
  }

  function ParseSection(s: PatState): PatState {
    if |s.section| < s.expected || s.expected < 12 then s
    else
      var ids := s.serviceIds + NewPrograms(s.section, 8, s.expected - 4, []);
      if ids == [] then PatState([], 0, ids, false) else s.(serviceIds := ids, complete := true)
  }

  function AppendSection(s: PatState, data: seq<Byte>): PatState {
    if data == [] || s.complete then s
    else
      var s1 := s.(section := s.section + data);
      if s1.expected == 0 && |s1.section| >= 3 then
        if s1.section[0] != 0 then s1.(section := [])
        else
          var expected := 3 + 256 * (s1.section[1] as int % 16) + s1.section[2];
          if expected < 12 || expected > MAX_SECTION_BYTES then s1.(section := [], expected := 0)
          else
            var s2 := s1.(expected := expected);
            if |s2.section| >= expected then ParseSection(s2) else s2
      else if s1.expected > 0 && |s1.section| >= s1.expected then ParseSection(s1)
      else s1
  }

  /** Where the payload of a packet begins; 188 when there is none. */
  function PayloadStart(p: Packet): (pos: nat)
    ensures 4 <= pos <= TS_PACKET_SIZE
  {
    match AdaptationControl(p)
    case 1 => 4
    case 3 => if 5 + p[4] >= TS_PACKET_SIZE then TS_PACKET_SIZE else 5 + p[4]
    case _ => TS_PACKET_SIZE
  }

  predicate UnitStart(p: Packet) {
    (p[1] / 0x40) % 2 == 1
  }

  /** Not for this parser: no sync byte, another PID, or no payload. */
  predicate Ignored(p: Packet) {
    p[0] != SYNC_BYTE || Pid(p) != 0 || PayloadStart(p) == TS_PACKET_SIZE
  }

  function ParsePacket(s: PatState, p: Packet): PatState {
    if s.complete || Ignored(p) then s
    else
      var pos := PayloadStart(p);
      if UnitStart(p) then
        if pos + 1 + p[pos] > TS_PACKET_SIZE then s
        else AppendSection(s.(section := [], expected := 0), p[pos + 1 + p[pos]..])
      else if s.section == [] then s
      else AppendSection(s, p[pos..])
  }

  function ParseAll(s: PatState, packets: seq<Packet>): PatState {
    if packets == [] then s
    else ParsePacket(ParseAll(s, packets[..|packets| - 1]), packets[|packets| - 1])
  }

  lemma {:induction false} ParseAllAppend(s: PatState, a: seq<Packet>, b: seq<Packet>)
    ensures ParseAll(s, a + b) == ParseAll(ParseAll(s, a), b)
    decreases |b|
  {
    if b == [] {
      assert a + b == a;
    } else {
      assert (a + b)[..|a + b| - 1] == a + b[..|b| - 1];
      ParseAllAppend(s, a, b[..|b| - 1]);
      hide ParsePacket;
    }
  }

  lemma {:induction false} CompleteIsFinal(s: PatState, packets: seq<Packet>)
    requires s.complete
    ensures ParseAll(s, packets) == s
  {
    if packets != [] {
      CompleteIsFinal(s, packets[..|packets| - 1]);
    }
  }

  // What the programs found are

  function EntryCount(section: seq<Byte>): nat
    requires |section| >= 12
  {
    (|section| - 12) / 4
  }

  function Entry(section: seq<Byte>, k: nat): nat
    requires |section| >= 12 && k < EntryCount(section)
  {
    ProgramAt(section, 8 + 4 * k)
  }

  /** `ids` are the distinct non-zero entries before entry `limit`, in the order of their first
      occurrence; `at` says which entry shows each of them first. */
  ghost predicate DistinctBefore(section: seq<Byte>, ids: seq<nat>, at: seq<nat>, limit: nat)
    requires |section| >= 12 && limit <= EntryCount(section)
  {
    && |at| == |ids|
    && (forall i :: 0 <= i < |at| ==> at[i] < limit && Entry(section, at[i]) == ids[i] != 0)
    && (forall i, j :: 0 <= i < j < |at| ==> at[i] < at[j])
    && (forall i, k :: 0 <= i < |at| && 0 <= k < at[i] ==> Entry(section, k) != ids[i])
    && (forall k :: 0 <= k < limit && Entry(section, k) != 0 ==> Entry(section, k) in ids)
  }

  lemma {:induction false} OneEntryMore(section: seq<Byte>, ids: seq<nat>, at: seq<nat>, limit: nat)
    requires |section| >= 12 && limit < EntryCount(section)
    requires DistinctBefore(section, ids, at, limit)
    ensures var program := Entry(section, limit);
            && (program == 0 || program in ids ==> DistinctBefore(section, ids, at, limit + 1))
            && (program != 0 && program !in ids ==> DistinctBefore(section, ids + [program], at + [limit], limit + 1))
  {
    hide Entry;
    var program := Entry(section, limit);
    if program != 0 && program !in ids {
      var now, places := ids + [program], at + [limit];
      forall i, k | 0 <= i < |places| && 0 <= k < places[i] ensures Entry(section, k) != now[i] {
        if k < limit && Entry(section, k) != 0 {
          assert Entry(section, k) in ids;
        }
      }
      forall k | 0 <= k < limit + 1 && Entry(section, k) != 0 ensures Entry(section, k) in now {
        if k < limit { assert Entry(section, k) in ids; }
      }
    }
  }

  lemma {:induction false} NextEntry(section: seq<Byte>, ids: seq<nat>, limit: nat)
    requires |section| >= 12 && limit <= EntryCount(section)
    ensures var all := NewPrograms(section, 8 + 4 * limit, |section| - 4, ids);
            if limit == EntryCount(section) then all == []
            else
              var program := Entry(section, limit);
              if program == 0 || program in ids
              then all == NewPrograms(section, 8 + 4 * (limit + 1), |section| - 4, ids)
              else all == [program] + NewPrograms(section, 8 + 4 * (limit + 1), |section| - 4, ids + [program])
  {
  }

  lemma {:induction false} ProgramsAreDistinct(section: seq<Byte>, ids: seq<nat>, at: seq<nat>, limit: nat)
    returns (places: seq<nat>)
    requires |section| >= 12 && limit <= EntryCount(section)
    requires DistinctBefore(section, ids, at, limit)
    ensures DistinctBefore(section, ids + NewPrograms(section, 8 + 4 * limit, |section| - 4, ids), places,
      EntryCount(section))
    decreases EntryCount(section) - limit
  {
    hide NewPrograms, DistinctBefore, Entry, EntryCount;
    NextEntry(section, ids, limit);
    if limit == EntryCount(section) {
      places := at;
      assert ids + [] == ids;
    } else {
      var program := Entry(section, limit);
      OneEntryMore(section, ids, at, limit);
      if program == 0 || program in ids {
        places := ProgramsAreDistinct(section, ids, at, limit + 1);
      } else {
        places := ProgramsAreDistinct(section, ids + [program], at + [limit], limit + 1);
        var rest := NewPrograms(section, 8 + 4 * (limit + 1), |section| - 4, ids + [program]);
        assert ids + ([program] + rest) == (ids + [program]) + rest;
      }
    }
  }

  /** The programs of a section as the parser lists them. */
  function ProgramsOf(section: seq<Byte>): seq<nat>
    requires |section| >= 12
  {
    NewPrograms(section, 8, |section| - 4, [])
  }

  lemma {:induction false} ProgramsOfIsDistinct(section: seq<Byte>) returns (places: seq<nat>)
    requires |section| >= 12
    ensures DistinctBefore(section, ProgramsOf(section), places, EntryCount(section))
  {
    assert DistinctBefore(section, [], [], 0);
    places := ProgramsAreDistinct(section, [], [], 0);
    assert [] + ProgramsOf(section) == ProgramsOf(section);
  }

  // Reading a section out of packets

  /** A PAT section of at most 1024 bytes whose length field is right, with a program in it. */
  ghost predicate WellFormedPat(section: seq<Byte>) {
    && 12 <= |section| <= MAX_SECTION_BYTES
    && section[0] == 0
    && 3 + 256 * (section[1] as int % 16) + section[2] == |section|
    && exists k :: 0 <= k < EntryCount(section) && Entry(section, k) != 0
  }

  /** The first packet of a section: a unit start whose pointer leads into this packet. */
  predicate Opens(p: Packet) {
    !Ignored(p) && UnitStart(p) && PayloadStart(p) + 1 + p[PayloadStart(p)] < TS_PACKET_SIZE
  }

  function OpeningBytes(p: Packet): (bytes: seq<Byte>)
    requires Opens(p)
    ensures bytes != []
  {
    p[PayloadStart(p) + 1 + p[PayloadStart(p)]..]
  }

  /** A packet between or after those of the section that carry it on: anything not for the parser,
      or one that goes on with the section. */
  predicate Continues(p: Packet) {
    Ignored(p) || !UnitStart(p)
  }

  function Piece(p: Packet): (bytes: seq<Byte>)
    ensures !Ignored(p) ==> bytes != []
  {
    if Ignored(p) then [] else p[PayloadStart(p)..]
  }

  function Pieces(packets: seq<Packet>): seq<Byte> {
    if packets == [] then [] else Pieces(packets[..|packets| - 1]) + Piece(packets[|packets| - 1])
  }

  /** As far as they go, two byte strings agree. */
  predicate Agree(a: seq<Byte>, b: seq<Byte>) {
    a <= b || b <= a
  }

  /** The parser after `read`, the bytes of the section (and what follows it) read so far. */
  predicate Reading(s: PatState, section: seq<Byte>, read: seq<Byte>)
    requires |section| >= 12
  {
    if |read| >= |section| then s.complete && s.serviceIds == ProgramsOf(section)
    else s == PatState(read, if |read| >= 3 then |section| else 0, [], false)
  }

  lemma {:induction false} NewProgramsPrefix(section: seq<Byte>, read: seq<Byte>, pos: nat, end: nat, seen: seq<nat>)
    requires section <= read && end <= |section|
    ensures NewPrograms(read, pos, end, seen) == NewPrograms(section, pos, end, seen)
    decreases end - pos
  {
    if pos + 4 <= end {
      var program := ProgramAt(section, pos);
      assert ProgramAt(read, pos) == program;
      if program == 0 || program in seen {
        NewProgramsPrefix(section, read, pos + 4, end, seen);
      } else {
        NewProgramsPrefix(section, read, pos + 4, end, seen + [program]);
      }
    }
  }

  lemma {:induction false} ProgramsExist(section: seq<Byte>)
    requires WellFormedPat(section)
    ensures ProgramsOf(section) != []
  {
    var places := ProgramsOfIsDistinct(section);
    var k :| 0 <= k < EntryCount(section) && Entry(section, k) != 0;
    assert Entry(section, k) in ProgramsOf(section);
  }

  lemma {:induction false} SectionIsParsed(s: PatState, section: seq<Byte>)
    requires WellFormedPat(section) && section <= s.section && s.expected == |section| && s.serviceIds == []
    ensures ParseSection(s).complete && ParseSection(s).serviceIds == ProgramsOf(section)
  {
    NewProgramsPrefix(section, s.section, 8, |section| - 4, []);
    ProgramsExist(section);
    hide NewPrograms, WellFormedPat;
    assert [] + ProgramsOf(section) == ProgramsOf(section);
  }

  /** More bytes of the section. */
  lemma {:induction false} AppendReads(s: PatState, section: seq<Byte>, read: seq<Byte>, data: seq<Byte>)
    requires WellFormedPat(section) && Reading(s, section, read)
    requires Agree(read + data, section) && data != []
    ensures Reading(AppendSection(s, data), section, read + data)
  {
    var now := read + data;
    hide ParseSection, ProgramsOf, Entry, EntryCount;
    if |read| < |section| {
      if |now| >= 3 {
        assert now[0] == section[0] && now[1] == section[1] && now[2] == section[2];
      }
      if |now| >= |section| {
        SectionIsParsed(s.(section := now, expected := |section|), section);
      }
    }
  }

  lemma {:induction false} AgreeShorter(a: seq<Byte>, b: seq<Byte>, section: seq<Byte>)
    requires Agree(a + b, section)
    ensures Agree(a, section)
  {
    assert a <= a + b;
    if section <= a + b && |section| <= |a| {
      assert section == (a + b)[..|section|] == a[..|section|];
    }
  }

  /** While no section has begun, only a packet that begins one is read. */
  lemma {:induction false} SkippedBefore(packets: seq<Packet>)
    requires forall i :: 0 <= i < |packets| ==> Continues(packets[i])
    ensures ParseAll(FRESH, packets) == FRESH
  {
    hide Ignored;
    if packets != [] {
      SkippedBefore(packets[..|packets| - 1]);
    }
  }

  /** The packet that opens a section. */
  lemma {:induction false} OpeningReads(p: Packet, section: seq<Byte>)
    requires WellFormedPat(section) && Opens(p) && Agree(OpeningBytes(p), section)
    ensures Reading(ParsePacket(FRESH, p), section, OpeningBytes(p))
  {
    var data := OpeningBytes(p);
    assert [] + data == data;
    assert ParsePacket(FRESH, p) == AppendSection(FRESH, data);
    hide AppendSection, WellFormedPat, Opens;
    assert Reading(FRESH, section, []) by { WellFormedIsLong(section); }
    AppendReads(FRESH, section, [], data);
  }

  lemma {:induction false} WellFormedIsLong(section: seq<Byte>)
    requires WellFormedPat(section)
    ensures |section| >= 12
  {
  }

  /** A packet that carries the section on, or is passed over. */
  lemma {:induction false} ContinuationReads(s: PatState, p: Packet, section: seq<Byte>, read: seq<Byte>)
    requires WellFormedPat(section) && Continues(p) && read != []
    requires Reading(s, section, read) && Agree(read + Piece(p), section)
    ensures Reading(ParsePacket(s, p), section, read + Piece(p))
  {
    if Ignored(p) {
      assert read + [] == read;
    } else if !s.complete {
      assert ParsePacket(s, p) == AppendSection(s, Piece(p));
      hide AppendSection;
      AppendReads(s, section, read, Piece(p));
    }
  }

  lemma {:induction false} RestReads(opening: Packet, rest: seq<Packet>, section: seq<Byte>)
    requires WellFormedPat(section) && Opens(opening)
    requires forall i :: 0 <= i < |rest| ==> Continues(rest[i])
    requires Agree(OpeningBytes(opening) + Pieces(rest), section)
    ensures Reading(ParseAll(ParsePacket(FRESH, opening), rest), section, OpeningBytes(opening) + Pieces(rest))
    decreases |rest|
  {
    var start := OpeningBytes(opening);
    hide ParsePacket, Continues, Opens, Piece, WellFormedPat, Reading, Agree;
    if rest == [] {
      assert start + [] == start;
      OpeningReads(opening, section);
    } else {
      var n := |rest| - 1;
      var before := start + Pieces(rest[..n]);
      assert start + Pieces(rest) == before + Piece(rest[n]);
      AgreeShorter(before, Piece(rest[n]), section);
      RestReads(opening, rest[..n], section);
      ContinuationReads(ParseAll(ParsePacket(FRESH, opening), rest[..n]), rest[n], section, before);
    }
  }

  /** A fresh parser finds the programs of a well-formed section, whatever packets carry it: any number
      of packets before it that begin none, a packet that opens it behind a pointer field and
      perhaps an adaptation field, and packets that carry it on, with any others in between. What it
      reports is complete as soon as the section is, and is the section's distinct non-zero program
      numbers in the order of their first occurrence. */
  lemma {:induction false} SectionIsFound(before: seq<Packet>, opening: Packet, rest: seq<Packet>, section: seq<Byte>)
    returns (places: seq<nat>)
    requires WellFormedPat(section)
    requires forall i :: 0 <= i < |before| ==> Continues(before[i])
    requires Opens(opening)
    requires forall i :: 0 <= i < |rest| ==> Continues(rest[i])
    requires section <= OpeningBytes(opening) + Pieces(rest)
    ensures var s := ParseAll(FRESH, before + [opening] + rest);
            s.complete && DistinctBefore(section, s.serviceIds, places, EntryCount(section))
  {
    hide ParsePacket, Continues, Opens, Piece, WellFormedPat, DistinctBefore, ProgramsOf, Ignored;
    WellFormedIsLong(section);
    SkippedBefore(before);
    ParseAllAppend(FRESH, before + [opening], rest);
    ParseAllAppend(FRESH, before, [opening]);
    assert [opening][..0] == [];
    assert ParseAll(FRESH, [opening]) == ParsePacket(FRESH, opening);
    RestReads(opening, rest, section);
    places := ProgramsOfIsDistinct(section);
  }

  // Sections that end in front of a pointer

  /** Once no program has been reported, a unit start makes the parser forget what it has read. */
  lemma {:induction false} UnitStartForgets(s: PatState, p: Packet)
    requires Opens(p) && !s.complete && s.serviceIds == []
    ensures ParsePacket(s, p) == ParsePacket(FRESH, p)
  {
  }

  /** After packets that carry a section as far as they go: the parser is done, and lists its programs, if
      and only if all of the section came in an opening packet and in packets without a unit start.
      If not, the next unit start leaves the parser where that packet alone would. So a section whose
      last bytes stand in front of the pointer of that packet, where section 2.4.4.2 of ISO/IEC 13818-1
      ends it, is lost, and is as if it had never been sent. */
  lemma {:induction false} SectionIsFoundIff(before: seq<Packet>, opening: Packet, rest: seq<Packet>,
                                             section: seq<Byte>, last: Packet)
    requires WellFormedPat(section)
    requires forall i :: 0 <= i < |before| ==> Continues(before[i])
    requires Opens(opening)
    requires forall i :: 0 <= i < |rest| ==> Continues(rest[i])
    requires Agree(OpeningBytes(opening) + Pieces(rest), section)
    ensures var s := ParseAll(FRESH, before + [opening] + rest);
            && (s.complete <==> section <= OpeningBytes(opening) + Pieces(rest))
            && (s.complete ==> s.serviceIds == ProgramsOf(section))
            && (!s.complete && Opens(last) ==>
                  ParseAll(FRESH, before + [opening] + rest + [last]) == ParsePacket(FRESH, last))
  {
    hide ParsePacket, Continues, Opens, Piece, WellFormedPat, ProgramsOf, Ignored;
    var packets, read := before + [opening] + rest, OpeningBytes(opening) + Pieces(rest);
    WellFormedIsLong(section);
    SkippedBefore(before);
    ParseAllAppend(FRESH, before + [opening], rest);
    ParseAllAppend(FRESH, before, [opening]);
    assert [opening][..0] == [];
    assert ParseAll(FRESH, [opening]) == ParsePacket(FRESH, opening);
    RestReads(opening, rest, section);
    if !(section <= read) && Opens(last) {
      assert (packets + [last])[..|packets|] == packets;
      UnitStartForgets(ParseAll(FRESH, packets), last);
    }
  }

  /** The bytes in front of the pointer of a unit start. */
  function TailBytes(p: Packet): seq<Byte>
    requires Opens(p)
  {
    p[PayloadStart(p) + 1..PayloadStart(p) + 1 + p[PayloadStart(p)]]
  }

  // A table of two sections: one with a program, its first ten bytes at the end of one packet and its last
  // six in front of the pointer of the next; there the other begins, which only has the NIT entry.
  const SECTION_START: seq<Byte> := [0, 0xB0, 13, 0, 1, 0xC1, 0, 1, 0, 1]
  const SECTION_END: seq<Byte> := [0xE1, 0, 0xA1, 0xF4, 0x39, 0xF0]
  const NIT_SECTION: seq<Byte> := [0, 0xB0, 13, 0, 1, 0xC1, 1, 1, 0, 0, 0xE0, 0x10, 0x25, 0x0C, 0x82, 0xA3]
  const FIRST_PACKET: Packet := [SYNC_BYTE, 0x40, 0, 0x10, 173] + seq(173, _ => 0xFF) + SECTION_START
  const LAST_PACKET: Packet := [SYNC_BYTE, 0x40, 0, 0x11, 6] + SECTION_END + NIT_SECTION + seq(161, _ => 0xFF)

  lemma {:induction false} SplitSectionIsWellFormed()
    ensures WellFormedPat(SECTION_START + SECTION_END)
  {
    assert Entry(SECTION_START + SECTION_END, 0) == 1;
  }

  lemma {:induction false} SplitSectionPackets()
    ensures Opens(FIRST_PACKET) && OpeningBytes(FIRST_PACKET) == SECTION_START
    ensures Opens(LAST_PACKET) && TailBytes(LAST_PACKET) == SECTION_END
    ensures OpeningBytes(LAST_PACKET) == NIT_SECTION + seq(161, _ => 0xFF)
  {
  }

  /** A section without programs leaves the parser as new. */
  lemma {:induction false} NitSectionIsForgotten()
    ensures AppendSection(FRESH, NIT_SECTION + seq(161, _ => 0xFF)) == FRESH
  {
    var data := NIT_SECTION + seq(161, _ => 0xFF);
    assert [] + data == data && data[..16] == NIT_SECTION;
    assert ProgramAt(data, 8) == 0;
    assert NewPrograms(data, 12, 12, []) == [] && NewPrograms(data, 8, 12, []) == [];
  }

  /** A legal carriage of a well-formed section of which the parser reports nothing. */
  lemma {:induction false} SplitSectionIsLost()
    ensures WellFormedPat(SECTION_START + SECTION_END)
    ensures Opens(FIRST_PACKET) && Opens(LAST_PACKET)
    ensures OpeningBytes(FIRST_PACKET) + TailBytes(LAST_PACKET) == SECTION_START + SECTION_END
    ensures ParseAll(FRESH, [FIRST_PACKET, LAST_PACKET]) == FRESH
  {
    SplitSectionIsWellFormed();
    SplitSectionPackets();
    NitSectionIsForgotten();
    assert ParsePacket(FRESH, LAST_PACKET) == AppendSection(FRESH, OpeningBytes(LAST_PACKET));
    hide ParsePacket, AppendSection, Opens, OpeningBytes, WellFormedPat;
    var section := SECTION_START + SECTION_END;
    assert [] + [FIRST_PACKET] + [] == [FIRST_PACKET] && SECTION_START + Pieces([]) == SECTION_START;
    assert SECTION_START <= section;
    SectionIsFoundIff([], FIRST_PACKET, [], section, LAST_PACKET);
    assert [FIRST_PACKET] + [LAST_PACKET] == [FIRST_PACKET, LAST_PACKET];
  }
}
