/** The 33 + 9 bit program clock reference of ISO/IEC 13818-1, section 2.4.3.4, as the shaper
    parses it, writes it back and strips it. */
module Pcr {
  import opened TransportStream

  const PCR_BASE_MODULUS := 0x2_0000_0000
  const PCR_TICKS_MODULUS := 300 * PCR_BASE_MODULUS

  datatype PcrReading = PcrReading(found: bool, ticks: nat, discontinuity: bool)

  /** Sync byte, an adaptation field, and a length that holds the flags and fits the packet. */
  predicate HasAdaptationFlags(p: Packet) {
    && p[0] == SYNC_BYTE
    && AdaptationControl(p) in {2, 3}
    && 1 <= p[4]
    && 5 + p[4] <= TS_PACKET_SIZE
  }

  predicate PcrFlag(p: Packet) {
    (p[5] / 0x10) % 2 == 1
  }

  predicate CarriesPcr(p: Packet) {
    HasAdaptationFlags(p) && PcrFlag(p) && 7 <= p[4]
  }

  function BaseField(p: Packet): (base: nat)
    ensures base < PCR_BASE_MODULUS
  {
    0x200_0000 * p[6] as int + 0x2_0000 * p[7] as int + 0x200 * p[8] as int + 2 * p[9] as int + p[10] / 128
  }

  function ExtensionField(p: Packet): (extension: nat)
    ensures extension < 512
  {
    256 * (p[10] as int % 2) + p[11]
  }

  function FieldTicks(base: nat, extension: nat): (ticks: nat)
    ensures ticks < PCR_TICKS_MODULUS
  {
    (base * 300 + extension) % PCR_TICKS_MODULUS
  }

  function ParsePcr(p: Packet): PcrReading {
    if !HasAdaptationFlags(p) then PcrReading(false, 0, false)
    else
      var discontinuity := p[5] / 0x80 == 1;
      if !PcrFlag(p) || p[4] < 7 then PcrReading(false, 0, discontinuity)
      else PcrReading(true, FieldTicks(BaseField(p), ExtensionField(p)), discontinuity)
  }

  /** Bytes 6 to 11 of a packet whose PCR is t: base, six reserved one bits, extension. */
  function PcrBytes(t: nat): (field: seq<Byte>)
    ensures |field| == 6
  {
    var ticks := t % PCR_TICKS_MODULUS;
    var base := ticks / 300;
    var extension := ticks % 300;
    [(base / 0x200_0000) % 256, (base / 0x2_0000) % 256, (base / 0x200) % 256, (base / 2) % 256,
     (base % 2) * 128 + 0x7E + (extension / 256) % 2, extension % 256]
  }

  function WithPcr(p: Packet, t: nat): Packet {
    p[..6] + PcrBytes(t) + p[12..]
  }

  function WithoutPcrFlag(p: Packet): Packet {
    if HasAdaptationFlags(p) && PcrFlag(p) then p[5 := p[5] - 0x10] else p
  }

  /** What a parser finds, in bytes: a PCR in a packet with a sync byte, an adaptation field (bit 5 of byte 3)
      of 7 to 183 bytes and the PCR flag (bit 4 of byte 5). */
  lemma {:induction false} FoundInBytes(p: Packet)
    ensures ParsePcr(p).found
            <==> p[0] == 0x47 && (p[3] / 0x20) % 2 == 1 && 7 <= p[4] <= 183 && (p[5] / 0x10) % 2 == 1
    ensures ParsePcr(p).discontinuity
            <==> p[0] == 0x47 && (p[3] / 0x20) % 2 == 1 && 1 <= p[4] <= 183 && p[5] >= 0x80
  {
  }

  method WritePcr(packet: array<Byte>, t: nat)
    requires packet.Length == TS_PACKET_SIZE
    modifies packet
    ensures packet[..] == WithPcr(old(packet[..]), t)
  {
    var ticks := t % PCR_TICKS_MODULUS;
    var base := ticks / 300;
    var extension := ticks % 300;
    packet[6] := (base / 0x200_0000) % 256;
    packet[7] := (base / 0x2_0000) % 256;
    packet[8] := (base / 0x200) % 256;
    packet[9] := (base / 2) % 256;
    packet[10] := (base % 2) * 128 + 0x7E + (extension / 256) % 2;
    packet[11] := extension % 256;
  }

  method ClearPcrFlag(packet: array<Byte>)
    requires packet.Length == TS_PACKET_SIZE
    modifies packet
    ensures packet[..] == WithoutPcrFlag(old(packet[..]))
  {
    if packet[0] != SYNC_BYTE { return; }
    var adaptationFieldControl := (packet[3] / 16) % 4;
    if adaptationFieldControl != 2 && adaptationFieldControl != 3 { return; }
    var adaptationLength := packet[4];
    if adaptationLength < 1 || 5 + adaptationLength > TS_PACKET_SIZE { return; }
    packet[5] := packet[5] - 0x10 * ((packet[5] / 0x10) % 2);
  }

  /** Splitting a 33-bit number at bits 25, 17, 9 and 1 and putting it together again. */
  lemma {:induction false} SplitBase(base: nat)
    requires base < PCR_BASE_MODULUS
    ensures ((base / 0x200_0000) % 256) * 0x200_0000 + ((base / 0x2_0000) % 256) * 0x2_0000
            + ((base / 0x200) % 256) * 0x200 + ((base / 2) % 256) * 2 + base % 2 == base
  {
    var a := base / 2;
    var b := a / 256;
    var c := b / 256;
    var d := c / 256;
    assert b == base / 0x200 && c == base / 0x2_0000 && d == base / 0x200_0000;
    assert a == 256 * b + a % 256 && b == 256 * c + b % 256 && c == 256 * d + c % 256;
    assert d < 256;
  }

  /** The fields of a written PCR are the quotient and remainder of its ticks by 300. */
  lemma {:induction false} WrittenFields(p: Packet, t: nat)
    ensures BaseField(WithPcr(p, t)) == (t % PCR_TICKS_MODULUS) / 300
    ensures ExtensionField(WithPcr(p, t)) == (t % PCR_TICKS_MODULUS) % 300
    ensures forall i :: 0 <= i < TS_PACKET_SIZE && !(6 <= i < 12) ==> WithPcr(p, t)[i] == p[i]
  {
    var ticks := t % PCR_TICKS_MODULUS;
    SplitBase(ticks / 300);
    var q := WithPcr(p, t);
    assert q[6..12] == PcrBytes(t);
    assert q[6] == PcrBytes(t)[0] && q[7] == PcrBytes(t)[1] && q[8] == PcrBytes(t)[2];
    assert q[9] == PcrBytes(t)[3] && q[10] == PcrBytes(t)[4] && q[11] == PcrBytes(t)[5];
  }

  lemma {:induction false} FieldsToTicks(ticks: nat)
    requires ticks < PCR_TICKS_MODULUS
    ensures FieldTicks(ticks / 300, ticks % 300) == ticks
  {
  }

  /** Writing then parsing: the value comes back modulo 300 * 2^33, whatever was in the field,
      and writing turns no packet into a PCR packet or out of being one. */
  lemma {:induction false} PcrRoundTrip(p: Packet, t: nat)
    ensures CarriesPcr(WithPcr(p, t)) == CarriesPcr(p)
    ensures CarriesPcr(p) ==> ParsePcr(WithPcr(p, t)).ticks == t % PCR_TICKS_MODULUS
    ensures ParsePcr(WithPcr(p, t)).discontinuity == ParsePcr(p).discontinuity
    ensures ParsePcr(WithPcr(p, t)).found == ParsePcr(p).found == CarriesPcr(p)
  {
    WrittenFields(p, t);
    FieldsToTicks(t % PCR_TICKS_MODULUS);
  }

  /** The base and extension fields determine bytes 6 to 11, reserved bits aside. */
  lemma {:induction false} FieldsDetermineBytes(p: Packet)
    ensures p[6] == (BaseField(p) / 0x200_0000) % 256
    ensures p[7] == (BaseField(p) / 0x2_0000) % 256
    ensures p[8] == (BaseField(p) / 0x200) % 256
    ensures p[9] == (BaseField(p) / 2) % 256
    ensures p[10] == (BaseField(p) % 2) * 128 + 2 * ((p[10] / 2) % 64) + ExtensionField(p) / 256
    ensures p[11] == ExtensionField(p) % 256
  {
    var low := p[10] / 128;
    var b := 256 * (256 * p[6] as int + p[7]) + p[8];
    assert low < 2;
    assert BaseField(p) == 2 * (256 * b + p[9]) + low;
    assert BaseField(p) / 2 == 256 * b + p[9] && BaseField(p) % 2 == low;
    assert BaseField(p) / 0x200 == b;
    assert BaseField(p) / 0x2_0000 == 256 * p[6] as int + p[7];
    assert BaseField(p) / 0x200_0000 == p[6];
  }

  function ReservedBits(p: Packet): nat {
    (p[10] / 2) % 64
  }

  /** Two packets that agree outside bytes 6 to 11 are equal when their PCR fields and reserved bits are. */
  lemma {:induction false} EqualFieldsEqualPackets(p: Packet, q: Packet)
    requires forall i :: 0 <= i < TS_PACKET_SIZE && !(6 <= i < 12) ==> p[i] == q[i]
    requires BaseField(p) == BaseField(q) && ExtensionField(p) == ExtensionField(q)
    requires ReservedBits(p) == ReservedBits(q)
    ensures p == q
  {
    FieldsDetermineBytes(p);
    FieldsDetermineBytes(q);
    assert p[6] == q[6] && p[7] == q[7] && p[8] == q[8] && p[9] == q[9] && p[10] == q[10] && p[11] == q[11];
  }

  /** A 33-bit base and a legal extension survive the trip through ticks. */
  lemma {:induction false} TicksToFields(base: nat, extension: nat)
    requires base < PCR_BASE_MODULUS && extension < 300
    ensures FieldTicks(base, extension) % PCR_TICKS_MODULUS / 300 == base
    ensures FieldTicks(base, extension) % PCR_TICKS_MODULUS % 300 == extension
  {
    assert FieldTicks(base, extension) == base * 300 + extension;
  }

  lemma {:induction false} WrittenReservedBits(p: Packet, t: nat)
    ensures ReservedBits(WithPcr(p, t)) == 63
  {
    assert WithPcr(p, t)[10] == PcrBytes(t)[4];
  }

  lemma {:induction false} RewrittenFields(p: Packet, t: nat)
    requires CarriesPcr(p) && t == ParsePcr(p).ticks
    ensures ParsePcr(WithPcr(p, t)).ticks == t
    ensures ExtensionField(p) < 300 ==>
              BaseField(WithPcr(p, t)) == BaseField(p) && ExtensionField(WithPcr(p, t)) == ExtensionField(p)
    ensures ExtensionField(WithPcr(p, t)) < 300
  {
    hide BaseField, ExtensionField, PcrBytes, WithPcr;
    PcrRoundTrip(p, t);
    WrittenFields(p, t);
    if ExtensionField(p) < 300 {
      TicksToFields(BaseField(p), ExtensionField(p));
    }
  }

  /** Parsing then writing: the tick value is kept, and the bytes are kept exactly when the
      extension is a legal one (below 300) and the six reserved bits are all set. */
  lemma {:induction false} PcrRewriteIsIdentityIff(p: Packet)
    requires CarriesPcr(p)
    ensures ParsePcr(WithPcr(p, ParsePcr(p).ticks)).ticks == ParsePcr(p).ticks
    ensures WithPcr(p, ParsePcr(p).ticks) == p <==> ExtensionField(p) < 300 && ReservedBits(p) == 63
  {
    var t := ParsePcr(p).ticks;
    var q := WithPcr(p, t);
    RewrittenFields(p, t);
    WrittenReservedBits(p, t);
    if ExtensionField(p) < 300 && ReservedBits(p) == 63 {
      WrittenFields(p, t);
      EqualFieldsEqualPackets(p, q);
    }
  }

  /** Stripping: no PCR parses any more, nothing but the flag bit changed, twice is once. */
  lemma {:induction false} StrippedPcr(p: Packet)
    ensures !ParsePcr(WithoutPcrFlag(p)).found
    ensures ParsePcr(WithoutPcrFlag(p)).discontinuity == ParsePcr(p).discontinuity
    ensures forall i :: 0 <= i < TS_PACKET_SIZE && i != 5 ==> WithoutPcrFlag(p)[i] == p[i]
    ensures WithoutPcrFlag(p)[5] == if HasAdaptationFlags(p) && PcrFlag(p) then p[5] - 0x10 else p[5]
    ensures WithoutPcrFlag(p)[5] / 0x20 == p[5] / 0x20 && WithoutPcrFlag(p)[5] % 0x10 == p[5] % 0x10
    ensures WithoutPcrFlag(WithoutPcrFlag(p)) == WithoutPcrFlag(p)
    ensures HasAdaptationFlags(WithoutPcrFlag(p)) == HasAdaptationFlags(p)
  {
  }
}
