/** The RTP header, and the packet buffer that the server's sources and connections share. */
module Rtp {
  import opened Sequences

  const RTP_HEADER_SIZE := 12
  const RTP_TCP_HEAD_SIZE := 4
  const MAX_RTP_PAYLOAD_SIZE := 1460
  const PACKET_CAPACITY := 1600

  // Where the payload starts in a packet buffer: after the interleaving header and the RTP header.
  const PAYLOAD_OFFSET := RTP_TCP_HEAD_SIZE + RTP_HEADER_SIZE

  type uint16 = x: int | 0 <= x < 0x1_0000

  // The fields of the header that the server ever changes. Version is always 2, and
  // padding, extension and the CSRC count are always zero.
  datatype RtpHeader = RtpHeader(payload: bv8, marker: bool, seqNumber: uint16, timestamp: bv32, ssrc: bv32)

  function Bytes16(x: uint16): (r: seq<byte>)
    ensures |r| == 2
  {
    [(x / 256) as byte, (x % 256) as byte]
  }

  lemma ByteReadsBack(x: int)
    requires 0 <= x < 256
    ensures (x as byte) as int == x
  {
    assert x % 256 == x;
  }

  function Bytes32(x: bv32): (r: seq<byte>)
    ensures |r| == 4
  {
    [((x >> 24) & 0xff) as byte, ((x >> 16) & 0xff) as byte, ((x >> 8) & 0xff) as byte, (x & 0xff) as byte]
  }

  function EncodeHeader(h: RtpHeader): (r: seq<byte>)
    ensures |r| == RTP_HEADER_SIZE
  {
    [0x80, (if h.marker then 0x80 else 0) | (h.payload & 0x7f)]
    + Bytes16(h.seqNumber) + Bytes32(h.timestamp) + Bytes32(h.ssrc)
  }

  // How a receiver reads a datagram (section 5.1 of RFC 3550).
  predicate Marker(datagram: seq<byte>)
    requires |datagram| >= RTP_HEADER_SIZE
  {
    datagram[1] & 0x80 != 0
  }

  function SequenceNumber(datagram: seq<byte>): int
    requires |datagram| >= RTP_HEADER_SIZE
  {
    (datagram[2] as int) * 256 + datagram[3] as int
  }

  // The version is in the first two bits, and without padding, extension or CSRCs the other six
  // are zero.
  predicate VersionTwoAndPlain(datagram: seq<byte>)
    requires |datagram| >= RTP_HEADER_SIZE
  {
    datagram[0] >> 6 == 2 && datagram[0] & 0x3f == 0
  }

  function PayloadType(datagram: seq<byte>): byte
    requires |datagram| >= RTP_HEADER_SIZE
  {
    datagram[1] & 0x7f
  }

  // Four bytes in network order.
  function Word(datagram: seq<byte>, at: nat): bv32
    requires at + 4 <= |datagram|
  {
    (datagram[at] as bv32 << 24) | (datagram[at + 1] as bv32 << 16)
    | (datagram[at + 2] as bv32 << 8) | datagram[at + 3] as bv32
  }

  function Timestamp(datagram: seq<byte>): bv32
    requires |datagram| >= RTP_HEADER_SIZE
  {
    Word(datagram, 4)
  }

  function Ssrc(datagram: seq<byte>): bv32
    requires |datagram| >= RTP_HEADER_SIZE
  {
    Word(datagram, 8)
  }

  function Payload(datagram: seq<byte>): seq<byte>
    requires |datagram| >= RTP_HEADER_SIZE
  {
    datagram[RTP_HEADER_SIZE..]
  }

  lemma WordReadsBack(d: seq<byte>, at: nat, x: bv32)
    requires at + 4 <= |d| && d[at..at + 4] == Bytes32(x)
    ensures Word(d, at) == x
  {
    var b := d[at..at + 4];
    assert d[at] == b[0] && d[at + 1] == b[1] && d[at + 2] == b[2] && d[at + 3] == b[3];
    ShiftsBack(x);
  }

  lemma ShiftsBack(x: bv32)
    ensures ((x >> 24) & 0xff) as byte as bv32 == (x >> 24) & 0xff
    ensures ((x >> 16) & 0xff) as byte as bv32 == (x >> 16) & 0xff
    ensures ((x >> 8) & 0xff) as byte as bv32 == (x >> 8) & 0xff
    ensures (x & 0xff) as byte as bv32 == x & 0xff
    ensures (((x >> 24) & 0xff) << 24) | (((x >> 16) & 0xff) << 16) | (((x >> 8) & 0xff) << 8) | (x & 0xff) == x
  {
  }

  lemma SecondByte(marker: bool, payload: bv8)
    ensures var b := (if marker then 0x80 else 0) | (payload & 0x7f);
      (b & 0x80 != 0 <==> marker) && b & 0x7f == payload & 0x7f
  {
  }

  lemma HeaderPieces(h: RtpHeader, payload: seq<byte>)
    ensures var d := EncodeHeader(h) + payload;
      && d[0] == 0x80 && d[1] == (if h.marker then 0x80 else 0) | (h.payload & 0x7f)
      && d[2..4] == Bytes16(h.seqNumber) && d[4..8] == Bytes32(h.timestamp) && d[8..12] == Bytes32(h.ssrc)
      && d[12..] == payload
  {
    hide Bytes16, Bytes32;
  }

  lemma NumberReadsBack(d: seq<byte>, x: uint16)
    requires |d| >= RTP_HEADER_SIZE && d[2..4] == Bytes16(x)
    ensures SequenceNumber(d) == x
  {
    assert d[2] == d[2..4][0] && d[3] == d[2..4][1];
    ByteReadsBack(x / 256);
    ByteReadsBack(x % 256);
  }

  /** A reader of section 5.1 of RFC 3550 gets every field of the header from the bytes. */
  lemma DatagramReadsBack(h: RtpHeader, payload: seq<byte>)
    ensures var d := EncodeHeader(h) + payload;
      && VersionTwoAndPlain(d)
      && Marker(d) == h.marker && PayloadType(d) == h.payload & 0x7f
      && SequenceNumber(d) == h.seqNumber
      && Timestamp(d) == h.timestamp && Ssrc(d) == h.ssrc
      && Payload(d) == payload
  {
    hide EncodeHeader, Bytes16, Bytes32, Word, SequenceNumber;
    var d := EncodeHeader(h) + payload;
    HeaderPieces(h, payload);
    SecondByte(h.marker, h.payload);
    NumberReadsBack(d, h.seqNumber);
    WordReadsBack(d, 4, h.timestamp);
    WordReadsBack(d, 8, h.ssrc);
  }

  // What a packet carries from a source to the clients, apart from the sixteen bytes that
  // every client overwrites with its own headers.
  datatype Packet = Packet(payload: seq<byte>, last: bool, timestamp: bv32, kind: byte)

  class RtpPacket {
    const data: array<byte>
    var size: int
    var timestamp: bv32
    var kind: byte
    var last: bool

    ghost predicate Valid()
      reads this
    {
      data.Length == PACKET_CAPACITY && PAYLOAD_OFFSET <= size <= PAYLOAD_OFFSET + MAX_RTP_PAYLOAD_SIZE
    }

    ghost function View(): Packet
      requires Valid()
      reads this, data
    {
      Packet(data[PAYLOAD_OFFSET..size], last, timestamp, kind)
    }

    constructor ()
      ensures data.Length == PACKET_CAPACITY && fresh(data)
    {
      data := new byte[PACKET_CAPACITY](_ => 0);
      size, timestamp, kind, last := 0, 0, 0, false;
    }
  }
}
