/** Splits an H.265 frame into RTP packets; large frames become fragmentation units with a
    two-byte payload header of type 49 and a one-byte fragment header. */
module H265Source {
  import opened Sequences
  import opened Rtp
  import opened Fragmentation

  const FU_TYPE: byte := 49

  function NalType(first: byte): byte { (first & 0x7E) >> 1 }

  function PayloadHeader(first: byte): byte { (first & 0x81) | (FU_TYPE << 1) }

  function Packets(frame: seq<byte>, timestamp: bv32, kind: byte): (r: seq<Packet>)
    ensures |r| > 0
  {
    if |frame| <= MAX_RTP_PAYLOAD_SIZE then
      [Packet(frame, true, timestamp, kind)]
    else
      Fragments([PayloadHeader(frame[0]), frame[1]], START | NalType(frame[0]), frame[2..], timestamp, kind)
  }

  class H265Source {
    const sink: PacketSink?

    constructor (sink: PacketSink?)
      ensures this.sink == sink
    {
      this.sink := sink;
    }

    /** Sends the frame through the sink, each packet in a buffer of its own. Without a sink
        the answer is true. The largest size there is overruns a packet as in H.264. */
    method HandleFrame(frame: array<byte>, timestamp: bv32, kind: byte, now: bv32) returns (ok: bool, wild: bool)
      requires frame.Length < SIZE_LIMIT
      requires sink != null ==> sink.Valid()
      modifies sink
      ensures wild <==> frame.Length == SIZE_LIMIT - 1
      ensures wild && sink != null ==> sink.sent == old(sink.sent)
      ensures sink == null && !wild ==> ok
      ensures sink != null ==> sink.Valid()
      ensures sink != null && !wild ==>
        SentUntilRefused(Packets(old(frame[..]), if timestamp == 0 then now else timestamp, kind),
                         old(sink.sent), sink.sent, sink.replies, ok)
    {
      var ts := if timestamp == 0 then now else timestamp;
      if frame.Length <= MAX_RTP_PAYLOAD_SIZE {
        var packet := new RtpPacket();
        Fill(packet, [], frame, 0, frame.Length, true, ts, kind);
        assert [] + frame[0..frame.Length] == frame[..];
        if sink != null {
          ok := sink.OnPacket(packet);
          return ok, false;
        }
      } else {
        ok, wild := HandleLargeFrame(frame, ts, kind);
        return;
      }
      return true, false;
    }

    method HandleLargeFrame(frame: array<byte>, timestamp: bv32, kind: byte) returns (ok: bool, wild: bool)
      requires MAX_RTP_PAYLOAD_SIZE < frame.Length < SIZE_LIMIT
      requires sink != null ==> sink.Valid()
      modifies sink
      ensures wild <==> frame.Length == SIZE_LIMIT - 1
      ensures wild && sink != null ==> sink.sent == old(sink.sent)
      ensures sink == null && !wild ==> ok
      ensures sink != null ==> sink.Valid()
      ensures sink != null && !wild ==>
        SentUntilRefused(Packets(old(frame[..]), timestamp, kind), old(sink.sent), sink.sent, sink.replies, ok)
    {
      ghost var bytes, before := frame[..], if sink == null then [] else sink.sent;
      ghost var all, k := Packets(bytes, timestamp, kind), 0;
      var lead := [PayloadHeader(frame[0]), frame[1]];
      var header := START | NalType(frame[0]);
      var at := 2;
      var size := frame.Length - 2;
      assert all[0..] == Fragments(lead, header, bytes[at..], timestamp, kind);
      hide Packets, Fragments, PayloadHeader, NalType, Further, Last;
      while Sum(size, 3) > MAX_RTP_PAYLOAD_SIZE
        invariant |bytes| == SIZE_LIMIT - 1 ==> at == 2 && k == 0
        invariant 2 <= at && 0 < size && at + size == |bytes| && bytes == frame[..]
        invariant k <= |all| && all[k..] == Fragments(lead, header, bytes[at..], timestamp, kind)
        invariant Sending(sink, all, before, k)
      {
        FragmentsUnfold(all, k, lead, header, bytes[at..], timestamp, kind);
        var packet := new RtpPacket();
        var accepted := SendFragment(packet, sink, lead + [header], frame, at, MAX_RTP_PAYLOAD_SIZE - 3, false,
                                     timestamp, kind, bytes, all, before, k);
        if !accepted {
          return false, false;
        }
        assert bytes[at..][MAX_RTP_PAYLOAD_SIZE - 3..] == bytes[at + (MAX_RTP_PAYLOAD_SIZE - 3)..];
        at := at + (MAX_RTP_PAYLOAD_SIZE - 3);
        size := size - (MAX_RTP_PAYLOAD_SIZE - 3);
        header := Further(header);
        k := k + 1;
      }
      if size + 3 > MAX_RTP_PAYLOAD_SIZE {
        NothingSent(sink, all, before);
        return false, true;
      }
      wild := false;
      FragmentsUnfold(all, k, lead, header, bytes[at..], timestamp, kind);
      header := Last(header);
      assert bytes[at..][..size] == bytes[at..];
      var packet := new RtpPacket();
      ok := SendFragment(packet, sink, lead + [header], frame, at, size, true, timestamp, kind, bytes, all, before, k);
    }
  }

  lemma LargeFrameIsWellFragmented(frame: seq<byte>, timestamp: bv32, kind: byte)
    requires |frame| > MAX_RTP_PAYLOAD_SIZE
    ensures var ps := Packets(frame, timestamp, kind);
      && |ps| >= 2
      && WellFragmented(ps, [PayloadHeader(frame[0]), frame[1]], NalType(frame[0]), true)
      && Bodies(ps, 3) == frame[2..]
  {
    var x := frame[0];
    assert ((x & 0x7E) >> 1) & 0xC0 == 0;
    FragmentsShape([PayloadHeader(x), frame[1]], NalType(x), true, frame[2..], timestamp, kind);
  }

  /** Every packet of a frame, fragmented or not, has the frame's timestamp and type, the last one
      alone the marker, and none has more than 1460 bytes. */
  lemma PacketsStamped(frame: seq<byte>, timestamp: bv32, kind: byte)
    ensures AllStamped(Packets(frame, timestamp, kind), timestamp, kind)
  {
    if |frame| > MAX_RTP_PAYLOAD_SIZE {
      FragmentsStamped([PayloadHeader(frame[0]), frame[1]], START | NalType(frame[0]), frame[2..], timestamp, kind);
    }
  }

  /** A receiver written from section 4.4.3 of RFC 7798 (and section 4.4.1 for single NAL unit
      packets, whose types are 0 to 47): given the packets of one NAL unit in order, the NAL
      unit, or None when they are not such packets. */
  function Rfc7798Receive(ps: seq<Packet>): Option {
    if ps == [] || |ps[0].payload| < 2 then
      None
    else if |ps| == 1 && NalType(ps[0].payload[0]) <= 47 then
      Some(ps[0].payload)
    else if FuTrain(ps, 2) && NalType(ps[0].payload[0]) == FU_TYPE then
      Some([(ps[0].payload[0] & 0x81) | ((ps[0].payload[2] & 0x3f) << 1), ps[0].payload[1]] + Bodies(ps, 3))
    else
      None
  }

  /** The receiver of RFC 7798 gets back exactly the frame, both bytes of its header included,
      if and only if the frame is large enough to be fragmented or it is a NAL unit of at least
      two bytes and of type 0 to 47. */
  lemma Rfc7798RoundTrip(frame: seq<byte>, timestamp: bv32, kind: byte)
    ensures Rfc7798Receive(Packets(frame, timestamp, kind)) == Some(frame)
      <==> |frame| > MAX_RTP_PAYLOAD_SIZE || (|frame| >= 2 && NalType(frame[0]) <= 47)
  {
    if |frame| > MAX_RTP_PAYLOAD_SIZE {
      LargeFrameRoundTrip(frame, timestamp, kind);
    }
  }

  lemma LargeFrameRoundTrip(frame: seq<byte>, timestamp: bv32, kind: byte)
    requires |frame| > MAX_RTP_PAYLOAD_SIZE
    ensures Rfc7798Receive(Packets(frame, timestamp, kind)) == Some(frame)
  {
    var ps := Packets(frame, timestamp, kind);
    LargeFrameIsWellFragmented(frame, timestamp, kind);
    var lead := [PayloadHeader(frame[0]), frame[1]];
    forall i | 0 <= i < |ps| ensures Fragment(ps[i], lead, NalType(frame[0]), i == 0, i == |ps| - 1) {}
    assert Fragment(ps[0], lead, NalType(frame[0]), true, false);
    assert ps[0].payload[0] == ps[0].payload[..2][0] && ps[0].payload[1] == ps[0].payload[..2][1];
    HeaderRebuilds(frame[0], ps[0].payload[2]);
    assert [frame[0], frame[1]] + frame[2..] == frame;
  }

  lemma HeaderRebuilds(first: byte, header: byte)
    requires header & 0x3f == NalType(first)
    ensures NalType(PayloadHeader(first)) == FU_TYPE
    ensures (PayloadHeader(first) & 0x81) | ((header & 0x3f) << 1) == first
  {}
}
