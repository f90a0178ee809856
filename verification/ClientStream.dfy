/** What one client gets of a stream of packets. */
module ClientStream {
  import opened Sequences
  import opened Rtp
  import opened RtpConnection
  import opened BufferWriter
  import Tcp = TcpConnection

  datatype Item = Item(ch: ChannelId, pkt: Packet)

  ghost predicate Fits(stream: seq<Item>) {
    forall i :: 0 <= i < |stream| ==> Small(stream[i])
  }

  predicate Small(item: Item) {
    |item.pkt.payload| <= MAX_RTP_PAYLOAD_SIZE
  }

  // What the same packets do to a client that has the buffer for itself.
  ghost function Serve(c: Client, stream: seq<Item>): (r: Client)
    requires c.Valid() && Fits(stream)
    ensures r.Valid()
    decreases stream
  {
    if stream == [] then c
    else Serve(SendStep(c, stream[0].ch, stream[0].pkt).client, stream[1..])
  }

  ghost predicate Streaming(c: Client, stream: seq<Item>) {
    && c.Valid() && !c.closed && c.online && c.hasKeyFrame
    && (c.transport != OverTcp ==> forall k: nat :: c.network(k))
    && (forall i :: 0 <= i < |stream| ==> c.info[stream[i].ch].Active())
  }

  // The datagram that a packet became, up to its number.
  predicate Carries(datagram: seq<byte>, pkt: Packet) {
    && |datagram| >= RTP_HEADER_SIZE
    && Payload(datagram) == pkt.payload
    && Marker(datagram) == pkt.last
  }

  // What the header says besides: the payload type and the source of the client's channel, and the
  // time of the packet.
  ghost predicate Headed(c: Client, datagram: seq<byte>, item: Item)
    requires c.Valid()
  {
    && |datagram| >= RTP_HEADER_SIZE && VersionTwoAndPlain(datagram)
    && PayloadType(datagram) == c.info[item.ch].header.payload & 0x7f
    && Timestamp(datagram) == item.pkt.timestamp
    && Ssrc(datagram) == c.info[item.ch].header.ssrc
  }

  // Nothing that the packets do to a client changes these.
  ghost predicate SameSource(c: Client, d: Client)
    requires c.Valid() && d.Valid()
  {
    forall ch: ChannelId ::
      && d.info[ch].header.payload == c.info[ch].header.payload
      && d.info[ch].header.ssrc == c.info[ch].header.ssrc
  }

  function Occurrences(stream: seq<Item>, ch: ChannelId): nat {
    if stream == [] then 0 else (if stream[0].ch == ch then 1 else 0) + Occurrences(stream[1..], ch)
  }

  function Counter(c: Client, ch: ChannelId): int
    requires |c.info| == MAX_MEDIA_CHANNEL
  {
    c.info[ch].packetSeq
  }

  // Item k gets the number that its channel's counter has reached by then, modulo 2^16.
  ghost predicate NumberedAt(c: Client, datagram: seq<byte>, stream: seq<Item>, k: nat)
    requires c.Valid() && k < |stream| && |datagram| >= RTP_HEADER_SIZE
  {
    SequenceNumber(datagram) == (Counter(c, stream[k].ch) + Occurrences(stream[..k], stream[k].ch)) % 0x1_0000
  }

  ghost predicate Outcome(c: Client, datagrams: seq<seq<byte>>, stream: seq<Item>)
    requires c.Valid()
  {
    && |datagrams| == |stream|
    && forall k :: 0 <= k < |stream| ==>
      && Carries(datagrams[k], stream[k].pkt)
      && Headed(c, datagrams[k], stream[k])
      && NumberedAt(c, datagrams[k], stream, k)
  }

  lemma AddMod(a: int, b: int, n: int)
    requires b == (a + 1) % 0x1_0000
    ensures (b + n) % 0x1_0000 == (a + (1 + n)) % 0x1_0000
  {}

  lemma ConsNumberedAt(c: Client, next: Client, datagram: seq<byte>, stream: seq<Item>, k: nat)
    requires c.Valid() && next.Valid() && 0 < k < |stream| && |datagram| >= RTP_HEADER_SIZE
    requires CountsOn(c, next, stream[0].ch)
    requires NumberedAt(next, datagram, stream[1..], k - 1)
    ensures NumberedAt(c, datagram, stream, k)
  {
    var ch := stream[k].ch;
    var n := Occurrences(stream[1..][..k - 1], ch);
    assert stream[..k][1..] == stream[1..][..k - 1];
    if stream[0].ch == ch {
      AddMod(Counter(c, ch), Counter(next, ch), n);
    }
  }

  lemma HeadNumberedAt(c: Client, datagram: seq<byte>, stream: seq<Item>)
    requires c.Valid() && stream != [] && |datagram| >= RTP_HEADER_SIZE
    requires SequenceNumber(datagram) == Counter(c, stream[0].ch)
    ensures NumberedAt(c, datagram, stream, 0)
  {
    hide SequenceNumber;
    assert stream[..0] == [];
  }

  ghost predicate CountsOn(c: Client, next: Client, ch: ChannelId)
    requires c.Valid() && next.Valid()
  {
    && Counter(next, ch) == (Counter(c, ch) + 1) % 0x1_0000
    && Counter(next, 1 - ch) == Counter(c, 1 - ch)
    && SameSource(c, next)
  }

  lemma ConsOutcome(c: Client, next: Client, d: seq<byte>, rest: seq<seq<byte>>, stream: seq<Item>)
    requires c.Valid() && next.Valid() && stream != []
    requires Carries(d, stream[0].pkt) && Headed(c, d, stream[0]) && SequenceNumber(d) == Counter(c, stream[0].ch)
    requires CountsOn(c, next, stream[0].ch)
    requires Outcome(next, rest, stream[1..])
    ensures Outcome(c, [d] + rest, stream)
  {
    var all := [d] + rest;
    HeadNumberedAt(c, d, stream);
    forall k | 0 < k < |stream|
      ensures Carries(all[k], stream[k].pkt) && Headed(c, all[k], stream[k]) && NumberedAt(c, all[k], stream, k)
    {
      assert all[k] == rest[k - 1] && stream[1..][k - 1] == stream[k];
      assert NumberedAt(next, rest[k - 1], stream[1..], k - 1) && Headed(next, rest[k - 1], stream[1..][k - 1]);
      ConsNumberedAt(c, next, rest[k - 1], stream, k);
    }
  }

  lemma StreamingStep(c: Client, item: Item)
    requires Streaming(c, [item]) && Small(item)
    ensures var d, next := Datagram(c.info[item.ch], item.pkt), SendStep(c, item.ch, item.pkt).client;
      && next.offered == c.offered + [d]
      && (c.transport != OverTcp ==> next.datagrams == c.datagrams + [d])
      && next.transport == c.transport
      && CountsOn(c, next, item.ch)
  {
    assert [item][0] == item;
  }

  lemma StampedReadsBack(c: Client, item: Item)
    requires c.Valid()
    ensures var d := Datagram(c.info[item.ch], item.pkt);
      Carries(d, item.pkt) && Headed(c, d, item) && SequenceNumber(d) == c.info[item.ch].packetSeq
  {
    DatagramReadsBack(c.info[item.ch].Stamped(item.pkt.last, item.pkt.timestamp).header, item.pkt.payload);
  }

  lemma StillStreaming(c: Client, stream: seq<Item>)
    requires Streaming(c, stream) && Fits(stream) && stream != []
    ensures Streaming(SendStep(c, stream[0].ch, stream[0].pkt).client, stream[1..])
    ensures Streaming(c, [stream[0]])
  {}

  /** A client that plays is offered every packet exactly once and in order, each with its
      payload, marker and timestamp behind a header of version 2 with the payload type and the
      source of its channel, and on each channel the numbers are consecutive modulo 2^16. Over
      UDP a network that takes everything carries exactly these datagrams. */
  lemma {:induction false} EveryPacketOnceInOrder(c: Client, stream: seq<Item>) returns (datagrams: seq<seq<byte>>)
    requires Streaming(c, stream) && Fits(stream)
    ensures Outcome(c, datagrams, stream)
    ensures Serve(c, stream).offered == c.offered + datagrams
    ensures c.transport != OverTcp ==> Serve(c, stream).datagrams == c.datagrams + datagrams
    decreases stream
  {
    hide SendStep, Datagram, Outcome, Headed;
    if stream == [] {
      datagrams := NoPackets(c);
    } else {
      var next := SendStep(c, stream[0].ch, stream[0].pkt).client;
      var d := Datagram(c.info[stream[0].ch], stream[0].pkt);
      StillStreaming(c, stream);
      StreamingStep(c, stream[0]);
      StampedReadsBack(c, stream[0]);
      var rest := EveryPacketOnceInOrder(next, stream[1..]);
      ConsOutcome(c, next, d, rest, stream);
      datagrams := [d] + rest;
      assert c.offered + datagrams == (c.offered + [d]) + rest;
      assert c.datagrams + datagrams == (c.datagrams + [d]) + rest;
    }
  }

  lemma NoPackets(c: Client) returns (datagrams: seq<seq<byte>>)
    requires c.Valid()
    ensures datagrams == [] && Outcome(c, datagrams, []) && Serve(c, []) == c
  {
    datagrams := [];
  }

  // A packet of no particular type, or one of an I frame.
  predicate StartsStream(kind: bv8) { kind == 0 || kind == 1 }

  /** Packets that come before the first key frame do nothing to a client, and from the first
      key frame on it is served like one that has always had a key frame. */
  lemma {:induction false} WaitsForKeyFrame(c: Client, before: seq<Item>, after: seq<Item>)
    requires c.Valid() && !c.closed && Fits(before) && Fits(after) && Fits(before + after)
    requires !c.hasKeyFrame && forall i :: 0 <= i < |before| ==> !StartsStream(before[i].pkt.kind)
    requires after != [] && StartsStream(after[0].pkt.kind)
    ensures Serve(c, before + after) == Serve(c.(hasKeyFrame := true), after)
    decreases before
  {
    if before == [] {
      assert before + after == after;
      assert SendStep(c, after[0].ch, after[0].pkt) == SendStep(c.(hasKeyFrame := true), after[0].ch, after[0].pkt);
    } else {
      assert (before + after)[1..] == before[1..] + after;
      assert SendStep(c, before[0].ch, before[0].pkt).client == c;
      WaitsForKeyFrame(c, before[1..], after);
    }
  }

  /** A packet for a client that plays over UDP or multicast is a datagram that the network takes,
      or it is refused: the client is then closed, with no channel active, and the result -1. */
  lemma RefusedIffClosed(c: Client, item: Item)
    requires c.Valid() && Small(item) && Plays(c, item.ch, item.pkt.kind) && c.transport != OverTcp
    ensures var sent := SendStep(c, item.ch, item.pkt); var d := sent.client;
      && !sent.waits && |d.offered| == |c.offered| + 1 && d.sendtos == c.sendtos + 1
      && Carries(d.offered[|c.offered|], item.pkt) && Headed(c, d.offered[|c.offered|], item)
      && if c.network(c.sendtos) then
           && !d.closed && d.datagrams == c.datagrams + [d.offered[|c.offered|]]
           && sent.result == RTP_HEADER_SIZE + |item.pkt.payload|
         else
           && d.closed && d.datagrams == c.datagrams && sent.result == -1
           && forall ch: ChannelId :: !d.info[ch].Active()
  {
    StampedReadsBack(c, item);
    hide Carries, Headed, EncodeHeader;
  }

  /** Over TCP the packet goes to the connection in a frame of its own, unless the connection is gone;
      the sender waits if and only if the event loop closes an open connection in between. */
  lemma SentOverTcp(c: Client, item: Item)
    requires c.Valid() && Small(item) && Plays(c, item.ch, item.pkt.kind) && c.transport == OverTcp
    ensures var sent := SendStep(c, item.ch, item.pkt); var d := sent.client;
      && sent.result == (if c.online then 4 + RTP_HEADER_SIZE + |item.pkt.payload| else -1)
      && (sent.waits <==> c.online && c.conn.open && c.socket(c.flushes).hungUp)
      && (sent.waits ==> d.conn == c.conn.(open := false))
      && (!c.online ==> d.conn == c.conn && d.flushes == c.flushes)
      && d.flushes == c.flushes + (if c.online && c.conn.open then 1 else 0)
      && !d.closed && d.datagrams == c.datagrams && d.sendtos == c.sendtos
  {
    hide EncodeHeader, Tcp.Flushed, Tcp.Queued;
  }

  /** A client starts with the numbers that are drawn for it, and with nothing set up. */
  lemma NewClientIs(seeds: (Seeds, Seeds), conn: Tcp.Conn, socket: nat -> Tcp.SocketTurn, network: nat -> bool)
    requires Live(conn.wire.queue)
    ensures var c := NewClient(seeds, conn, socket, network);
      && c.online && !c.closed && !c.hasKeyFrame && c.conn == conn && c.offered == [] && c.datagrams == []
      && (forall ch: ChannelId :: !c.info[ch].isSetup && !c.info[ch].Active())
      && c.info[0].packetSeq == seeds.0.seqNumber && c.info[0].header.ssrc == seeds.0.ssrc
      && c.info[1].packetSeq == seeds.1.seqNumber && c.info[1].header.ssrc == seeds.1.ssrc
  {
  }

  // What a packet is offered as.
  lemma OfferedOnce(c: Client, item: Item)
    requires c.Valid() && Small(item) && Plays(c, item.ch, item.pkt.kind)
    ensures var d := SendStep(c, item.ch, item.pkt).client;
      && |d.offered| == |c.offered| + 1 && d.offered[..|c.offered|] == c.offered
      && var datagram := d.offered[|c.offered|];
         && Carries(datagram, item.pkt) && Headed(c, datagram, item)
         && SequenceNumber(datagram) == c.info[item.ch].packetSeq
  {
    StampedReadsBack(c, item);
    hide Carries, Headed, EncodeHeader, SequenceNumber, Datagram;
  }

  // The client is open and active on the channel, and has seen a key frame.
  ghost predicate Plays(c: Client, ch: ChannelId, kind: bv8)
    requires c.Valid()
  {
    !c.closed && c.info[ch].Active() && (c.hasKeyFrame || StartsStream(kind))
  }

  lemma OfferedIfPlaying(c: Client, ch: ChannelId, pkt: Packet)
    requires c.Valid() && |pkt.payload| <= MAX_RTP_PAYLOAD_SIZE
    ensures var sent := SendStep(c, ch, pkt);
      && sent.result != 0
      && (sent.client.offered != c.offered <==> Plays(c, ch, pkt.kind))
  {}
}
