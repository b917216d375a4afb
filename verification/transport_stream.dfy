/** MPEG-TS packets as the shaper and the monitor see them: 188 bytes, header fields read by
    shifting and masking. Shifts and masks are written as the divisions and remainders they are. */
module TransportStream {
  const TS_PACKET_SIZE := 188
  const TS_PACKETS_PER_DATAGRAM := 7
  const UDP_PAYLOAD_SIZE := 1316
  const SYNC_BYTE := 0x47
  const NULL_PID := 0x1FFF

  type Byte = b: int | 0 <= b < 256

  type Packet = p: seq<Byte> | |p| == TS_PACKET_SIZE witness seq(TS_PACKET_SIZE, _ => 0)

  function Pid(p: Packet): (pid: nat)
    ensures pid < 8192
  {
    256 * (p[1] as int % 32) + p[2]
  }

  function AdaptationControl(p: Packet): (control: nat)
    ensures control < 4
  {
    (p[3] / 16) % 4
  }

  predicate HasPayload(p: Packet) {
    AdaptationControl(p) == 1 || AdaptationControl(p) == 3
  }

  function ContinuityCounter(p: Packet): (cc: nat)
    ensures cc < 16
  {
    p[3] % 16
  }

  /** The header fields in bits of the bytes: 13 bits from the last bit but four of byte 1 on, two bits and
      four bits of byte 3; payload is what the lower of the two says. */
  lemma {:induction false} HeaderBits(p: Packet)
    ensures exists flags :: 0 <= flags < 8 && p[1] as int * 256 + p[2] as int == flags * 8192 + Pid(p)
    ensures exists scrambling :: 0 <= scrambling < 4
              && p[3] as int == scrambling * 64 + AdaptationControl(p) * 16 + ContinuityCounter(p)
    ensures HasPayload(p) <==> AdaptationControl(p) % 2 == 1
  {
    assert p[1] as int * 256 + p[2] as int == (p[1] / 32) as int * 8192 + Pid(p);
    assert p[3] as int == (p[3] / 64) as int * 64 + AdaptationControl(p) * 16 + ContinuityCounter(p);
  }

  /** The byte stream a sequence of packets makes. */
  function Join(packets: seq<Packet>): (bytes: seq<Byte>)
    ensures |bytes| == TS_PACKET_SIZE * |packets|
  {
    if packets == [] then [] else packets[0] + Join(packets[1..])
  }

  lemma {:induction false} JoinAppend(a: seq<Packet>, b: seq<Packet>)
    ensures Join(a + b) == Join(a) + Join(b)
  {
    if a == [] {
      assert a + b == b;
    } else {
      assert (a + b)[1..] == a[1..] + b;
      JoinAppend(a[1..], b);
    }
  }

  /** Packet k of a joined stream sits at offset 188 * k. */
  lemma {:induction false} JoinAt(packets: seq<Packet>, k: nat)
    requires k < |packets|
    ensures Join(packets)[TS_PACKET_SIZE * k..TS_PACKET_SIZE * (k + 1)] == packets[k]
    ensures Join(packets)[TS_PACKET_SIZE * k] == packets[k][0]
  {
    assert packets == packets[..k] + ([packets[k]] + packets[k + 1..]);
    JoinAppend(packets[..k], [packets[k]] + packets[k + 1..]);
    assert ([packets[k]] + packets[k + 1..])[1..] == packets[k + 1..];
    assert Join([packets[k]] + packets[k + 1..]) == packets[k] + Join(packets[k + 1..]);
  }

  /** The first k packets, as bytes, and the rest. */
  lemma {:induction false} JoinSplit(packets: seq<Packet>, k: nat)
    requires k <= |packets|
    ensures Join(packets)[..TS_PACKET_SIZE * k] == Join(packets[..k])
    ensures Join(packets)[TS_PACKET_SIZE * k..] == Join(packets[k..])
  {
    assert packets == packets[..k] + packets[k..];
    JoinAppend(packets[..k], packets[k..]);
  }
}
