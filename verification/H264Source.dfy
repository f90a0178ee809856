/** Splits an H.264 frame into RTP packets, as fragmentation units of type FU-A when it is large. */
module H264Source {
  import opened Sequences
  import opened Rtp
  import opened Fragmentation

  const FU_A: byte := 28

  function NalType(first: byte): byte { first & 0x1f }

  function Indicator(first: byte): byte { (first & 0xE0) | FU_A }

  // The packets that a whole frame is cut into.
  function Packets(frame: seq<byte>, timestamp: bv32, kind: byte): (r: seq<Packet>)
    ensures |r| > 0
  {
    if |frame| <= MAX_RTP_PAYLOAD_SIZE then
      [Packet(frame, true, timestamp, kind)]
    else
      Fragments([Indicator(frame[0])], START | NalType(frame[0]), frame[1..], timestamp, kind)
  }

  class H264Source {
    const packet: RtpPacket
    const sink: PacketSink?

    constructor (sink: PacketSink?)
      ensures this.sink == sink && fresh(packet) && fresh(packet.data) && packet.data.Length == PACKET_CAPACITY
    {
      packet := new RtpPacket();
      this.sink := sink;
    }

    /** Sends the frame through the sink. A zero timestamp is replaced by the clock's. The
        largest size there is wraps around to zero in the loop's test, so that the whole frame
        is copied into one packet's buffer: what happens then is not defined. */
    method HandleFrame(frame: array<byte>, timestamp: bv32, kind: byte, now: bv32) returns (ok: bool, wild: bool)
      requires packet.data.Length == PACKET_CAPACITY && frame != packet.data
      requires frame.Length < SIZE_LIMIT
      requires sink != null ==> sink.Valid()
      modifies packet, packet.data, sink
      ensures wild <==> frame.Length == SIZE_LIMIT - 1
      ensures wild && sink != null ==> sink.sent == old(sink.sent)
      ensures sink == null ==> !ok
      ensures sink != null ==> sink.Valid()
      ensures sink != null && !wild ==>
        SentUntilRefused(Packets(old(frame[..]), if timestamp == 0 then now else timestamp, kind),
                         old(sink.sent), sink.sent, sink.replies, ok)
    {
      var ts := if timestamp == 0 then now else timestamp;
      if frame.Length <= MAX_RTP_PAYLOAD_SIZE {
        Fill(packet, [], frame, 0, frame.Length, true, ts, kind);
        assert [] + frame[0..frame.Length] == frame[..];
        if sink != null {
          ok := sink.OnPacket(packet);
          return ok, false;
        }
      } else {
        ok, wild := HandleLargeFrame(frame, ts, kind);
        return;
      }
      return false, false;
    }

    method HandleLargeFrame(frame: array<byte>, timestamp: bv32, kind: byte) returns (ok: bool, wild: bool)
      requires packet.data.Length == PACKET_CAPACITY && frame != packet.data
      requires MAX_RTP_PAYLOAD_SIZE < frame.Length < SIZE_LIMIT
      requires sink != null ==> sink.Valid()
      modifies packet, packet.data, sink
      ensures wild <==> frame.Length == SIZE_LIMIT - 1
      ensures wild && sink != null ==> sink.sent == old(sink.sent)
      ensures sink == null ==> !ok
      ensures sink != null ==> sink.Valid()
      ensures sink != null && !wild ==>
        SentUntilRefused(Packets(old(frame[..]), timestamp, kind), old(sink.sent), sink.sent, sink.replies, ok)
    {
      ghost var bytes, before := frame[..], if sink == null then [] else sink.sent;
      ghost var all, k := Packets(bytes, timestamp, kind), 0;
      var lead := [Indicator(frame[0])];
      var header := START | NalType(frame[0]);
      var at := 1;
      var size := frame.Length - 1;
      assert all[0..] == Fragments(lead, header, bytes[at..], timestamp, kind);
      hide Packets, Fragments, Indicator, NalType, Further, SentUntilRefused;
      while Sum(size, 2) > MAX_RTP_PAYLOAD_SIZE
        invariant |bytes| == SIZE_LIMIT - 1 ==> at == 1 && k == 0
        invariant 1 <= at && 0 < size && at + size == |bytes| && bytes == frame[..]
        invariant k <= |all| && all[k..] == Fragments(lead, header, bytes[at..], timestamp, kind)
        invariant Sending(sink, all, before, k)
      {
        FragmentsUnfold(all, k, lead, header, bytes[at..], timestamp, kind);
        var accepted := SendFragment(packet, sink, lead + [header], frame, at, MAX_RTP_PAYLOAD_SIZE - 2, false,
                                     timestamp, kind, bytes, all, before, k);
        if !accepted {
          return false, false;
        }
        TailOfTail(bytes, at, MAX_RTP_PAYLOAD_SIZE - 2);
        at := at + (MAX_RTP_PAYLOAD_SIZE - 2);
        size := size - (MAX_RTP_PAYLOAD_SIZE - 2);
        header := Further(header);
        k := k + 1;
      }
      if size + 2 > MAX_RTP_PAYLOAD_SIZE {
        NothingSent(sink, all, before);
        return false, true;
      }
      wild := false;
      ok := SendLast(lead, header, frame, at, timestamp, kind, bytes, all, before, k);
    }

    // What is left of the frame goes into the last fragment.
    method SendLast(
      lead: seq<byte>, header: byte, frame: array<byte>, at: nat, timestamp: bv32, kind: byte, ghost bytes: seq<byte>,
      ghost all: seq<Packet>, ghost before: seq<Packet>, ghost k: nat) returns (ok: bool)
      requires packet.data.Length == PACKET_CAPACITY && frame != packet.data && bytes == frame[..]
      requires |lead| == 1 && at < frame.Length && frame.Length - at + 2 <= MAX_RTP_PAYLOAD_SIZE
      requires k <= |all| && all[k..] == Fragments(lead, header, bytes[at..], timestamp, kind)
      requires Sending(sink, all, before, k)
      modifies packet, packet.data, sink
      ensures sink == null ==> !ok
      ensures sink != null ==> sink.Valid() && SentUntilRefused(all, before, sink.sent, sink.replies, ok)
    {
      FragmentsUnfold(all, k, lead, header, bytes[at..], timestamp, kind);
      hide Fragments, Last, SentUntilRefused;
      var size := frame.Length - at;
      assert bytes[at..][..size] == bytes[at..];
      ok := SendFragment(packet, sink, lead + [Last(header)], frame, at, size, true, timestamp, kind,
                         bytes, all, before, k);
      ok := ok && sink != null;
    }
  }

  /** A frame that does not fit in one packet becomes at least two fragments, and no byte of it
      but the first is missing from their bodies. */
  lemma LargeFrameIsWellFragmented(frame: seq<byte>, timestamp: bv32, kind: byte)
    requires |frame| > MAX_RTP_PAYLOAD_SIZE
    ensures var ps := Packets(frame, timestamp, kind);
      && |ps| >= 2
      && WellFragmented(ps, [Indicator(frame[0])], NalType(frame[0]), true)
      && Bodies(ps, 2) == frame[1..]
  {
    var x := frame[0];
    assert (x & 0x1f) & 0xC0 == 0;
    FragmentsShape([Indicator(x)], NalType(x), true, frame[1..], timestamp, kind);
  }

  /** Every packet of a frame, fragmented or not, has the frame's timestamp and type, the last one
      alone the marker, and none has more than 1460 bytes. */
  lemma PacketsStamped(frame: seq<byte>, timestamp: bv32, kind: byte)
    ensures AllStamped(Packets(frame, timestamp, kind), timestamp, kind)
  {
    if |frame| > MAX_RTP_PAYLOAD_SIZE {
      FragmentsStamped([Indicator(frame[0])], START | NalType(frame[0]), frame[1..], timestamp, kind);
    }
  }

  /** A receiver written from section 5.8 of RFC 6184 (and section 5.6 for single NAL unit
      packets): given the packets of one NAL unit in order, the NAL unit, or None when they
      are not such packets. */
  function Rfc6184Receive(ps: seq<Packet>): Option {
    if ps == [] || ps[0].payload == [] then
      None
    else if |ps| == 1 && 1 <= NalType(ps[0].payload[0]) <= 23 then
      Some(ps[0].payload)
    else if FuTrain(ps, 1) && NalType(ps[0].payload[0]) == FU_A then
      Some([(ps[0].payload[0] & 0xE0) | NalType(ps[0].payload[1])] + Bodies(ps, 2))
    else
      None
  }

  /** The receiver of RFC 6184 gets back exactly the frame, if and only if the frame is large
      enough to be fragmented or its first byte is the header of a NAL unit of type 1 to 23. */
  lemma Rfc6184RoundTrip(frame: seq<byte>, timestamp: bv32, kind: byte)
    ensures Rfc6184Receive(Packets(frame, timestamp, kind)) == Some(frame)
      <==> |frame| > MAX_RTP_PAYLOAD_SIZE || (frame != [] && 1 <= NalType(frame[0]) <= 23)
  {
    if |frame| > MAX_RTP_PAYLOAD_SIZE {
      LargeFrameRoundTrip(frame, timestamp, kind);
    }
  }

  lemma LargeFrameRoundTrip(frame: seq<byte>, timestamp: bv32, kind: byte)
    requires |frame| > MAX_RTP_PAYLOAD_SIZE
    ensures Rfc6184Receive(Packets(frame, timestamp, kind)) == Some(frame)
  {
    var ps := Packets(frame, timestamp, kind);
    LargeFrameIsWellFragmented(frame, timestamp, kind);
    var lead := [Indicator(frame[0])];
    forall i | 0 <= i < |ps| ensures Fragment(ps[i], lead, NalType(frame[0]), i == 0, i == |ps| - 1) {}
    assert Fragment(ps[0], lead, NalType(frame[0]), true, false);
    assert ps[0].payload[0] == ps[0].payload[..1][0];
    HeaderRebuilds(frame[0], ps[0].payload[1]);
    assert [frame[0]] + frame[1..] == frame;
  }

  lemma HeaderRebuilds(first: byte, header: byte)
    requires header & 0x3f == NalType(first)
    ensures NalType(Indicator(first)) == FU_A && (Indicator(first) & 0xE0) | NalType(header) == first
  {}
}
