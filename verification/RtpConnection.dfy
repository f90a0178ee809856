/** One client of the server: the state of its media channels, and how it sends a packet. */
module RtpConnection {
  import opened Sequences
  import opened Rtp
  import opened BufferWriter
  import opened Interleaved
  import Tcp = TcpConnection

  const MAX_MEDIA_CHANNEL := 2

  type ChannelId = x: nat | x < MAX_MEDIA_CHANNEL

  datatype TransportMode = OverTcp | OverUdp | OverMulticast

  datatype ChannelInfo = ChannelInfo(
    header: RtpHeader, rtpChannel: uint16, packetSeq: uint16, isSetup: bool, isPlay: bool, isRecord: bool)
  {
    predicate Active() { isPlay || isRecord }

    function Played(): ChannelInfo { if isSetup then this.(isPlay := true) else this }

    function Recorded(): ChannelInfo { if isSetup then this.(isPlay := true, isRecord := true) else this }

    // The header of the next packet, whose number is then used up.
    function Stamped(last: bool, timestamp: bv32): ChannelInfo {
      this.(header := header.(marker := last, timestamp := timestamp, seqNumber := packetSeq),
            packetSeq := (packetSeq + 1) % 0x1_0000)
    }

    function Stopped(): ChannelInfo { this.(isPlay := false, isRecord := false) }
  }

  // The n-th attempt of a set-up binds an RTP socket, and over UDP an RTCP socket behind it.
  datatype Binds = Binds(rtp: nat -> bool, rtcp: nat -> bool)
  {
    predicate Pair(n: nat) { rtp(n) && rtcp(n) }
  }

  const ATTEMPTS := 10

  predicate PairBound(b: Binds) { exists n: nat :: n < ATTEMPTS && b.Pair(n) }

  predicate SocketBound(b: Binds) { exists n: nat :: n < ATTEMPTS && b.rtp(n) }

  // A client's own state. The network's answer to its k-th datagram is network(k), and its
  // k-th flush is socket(k). A client is online while its RTSP connection lives, and `conn` is
  // that connection. Every datagram that the client's transport was asked to send is in
  // `offered`, and those that the network took are in `datagrams`.
  datatype Client = Client(
    info: seq<ChannelInfo>, transport: TransportMode, closed: bool, hasKeyFrame: bool,
    online: bool, conn: Tcp.Conn, socket: nat -> Tcp.SocketTurn, flushes: nat,
    network: nat -> bool, sendtos: nat, datagrams: seq<seq<byte>>, offered: seq<seq<byte>>)
  {
    ghost predicate Valid() { |info| == MAX_MEDIA_CHANNEL && Live(conn.wire.queue) }

    // The connection flushes its queue, when it is open.
    ghost function Flushed(): (c: Client)
      requires Valid()
      ensures c.Valid()
    {
      var t := socket(flushes);
      if conn.open then this.(conn := Tcp.Flushed(conn, t.locked, t.replies), flushes := flushes + 1) else this
    }

    // The connection is handed bytes, and flushes.
    ghost function Handed(data: seq<byte>): (c: Client)
      requires Valid()
      ensures c.Valid()
    {
      if conn.open then this.(conn := Tcp.Handed(conn, data, socket(flushes)), flushes := flushes + 1) else this
    }

    ghost function Played(): Client
      requires Valid()
    {
      this.(info := [info[0].Played(), info[1].Played()])
    }

    ghost function Recorded(): Client
      requires Valid()
    {
      this.(info := [info[0].Recorded(), info[1].Recorded()])
    }

    ghost function Typed(ch: ChannelId, payload: bv8): Client
      requires Valid()
    {
      this.(info := info[ch := info[ch].(header := info[ch].header.(payload := payload))])
    }

    ghost function TornDown(): Client
      requires Valid()
    {
      if closed then this else this.(info := [info[0].Stopped(), info[1].Stopped()], closed := true)
    }

    ghost function Keyed(kind: byte): Client {
      this.(hasKeyFrame := hasKeyFrame || IsKeyFrame(kind))
    }

    ghost function Stamp(ch: ChannelId, last: bool, timestamp: bv32): Client
      requires Valid()
    {
      this.(info := info[ch := info[ch].Stamped(last, timestamp)])
    }
  }

  // The random numbers that a client starts with.
  datatype Seeds = Seeds(seqNumber: uint16, timestamp: bv32, ssrc: bv32)

  function NewInfo(seeds: Seeds): ChannelInfo {
    ChannelInfo(RtpHeader(0, false, 0, seeds.timestamp, seeds.ssrc), 0, seeds.seqNumber, false, false, false)
  }

  ghost function NewClient(
    seeds: (Seeds, Seeds), conn: Tcp.Conn, socket: nat -> Tcp.SocketTurn, network: nat -> bool): (c: Client)
    requires Live(conn.wire.queue)
    ensures c.Valid()
  {
    Client([NewInfo(seeds.0), NewInfo(seeds.1)], OverTcp, false, false, true, conn, socket, 0, network, 0, [], [])
  }

  const FRAME_TYPE_ANY: byte := 0
  const VIDEO_FRAME_I: byte := 1

  predicate IsKeyFrame(kind: byte) {
    kind == FRAME_TYPE_ANY || kind == VIDEO_FRAME_I
  }

  function Datagram(i: ChannelInfo, pkt: Packet): seq<byte> {
    EncodeHeader(i.Stamped(pkt.last, pkt.timestamp).header) + pkt.payload
  }

  // The client afterwards, the result, and whether the sender waits for a connection that the
  // event loop is closing.
  datatype Sent = Sent(client: Client, result: int, waits: bool)

  /** What sending one packet does to the client that gets it. Nothing but the client's own
      state and the packet's payload, marker, timestamp and type have a part in it. */
  ghost function SendStep(c: Client, ch: ChannelId, pkt: Packet): (r: Sent)
    requires c.Valid() && |pkt.payload| <= MAX_RTP_PAYLOAD_SIZE
    ensures r.client.Valid()
  {
    if c.closed then Sent(c, -1, false)
    else
      var c := c.Keyed(pkt.kind);
      if c.info[ch].Active() && c.hasKeyFrame then
        Transmitted(c.Stamp(ch, pkt.last, pkt.timestamp), ch, Datagram(c.info[ch], pkt))
      else
        Sent(c, -1, false)
  }

  // What becomes of a datagram on the client's transport.
  ghost function Transmitted(c: Client, ch: ChannelId, datagram: seq<byte>): (r: Sent)
    requires c.Valid() && |datagram| <= RTP_HEADER_SIZE + MAX_RTP_PAYLOAD_SIZE
    ensures r.client.Valid()
  {
    var c := c.(offered := c.offered + [datagram]);
    if c.transport == OverTcp then Interleave(c, ch, datagram) else Emit(c, datagram)
  }

  function ChannelByte(i: ChannelInfo): byte {
    (i.rtpChannel % 256) as byte
  }

  ghost function Interleave(c: Client, ch: ChannelId, datagram: seq<byte>): (r: Sent)
    requires c.Valid() && |datagram| <= RTP_HEADER_SIZE + MAX_RTP_PAYLOAD_SIZE
    ensures r.client.Valid()
  {
    if !c.online then Sent(c, -1, false)
    else
      var frame := Frame(Unit(ChannelByte(c.info[ch]), datagram));
      Sent(c.Handed(frame), |frame|, c.conn.open && c.socket(c.flushes).hungUp)
  }

  ghost function Emit(c: Client, datagram: seq<byte>): (r: Sent)
    requires c.Valid()
    ensures r.client.Valid()
  {
    if c.network(c.sendtos) then
      Sent(c.(sendtos := c.sendtos + 1, datagrams := c.datagrams + [datagram]), |datagram|, false)
    else
      Sent(c.(sendtos := c.sendtos + 1).TornDown(), -1, false)
  }

  class RtpConnection {
    var info: seq<ChannelInfo>
    var transport: TransportMode
    var isMulticast: bool
    var isClosed: bool
    var hasKeyFrame: bool
    var frameType: byte
    // The RTSP connection, whether it is still there, and what becomes of its flushes.
    const rtsp: Tcp.TcpConnection
    var online: bool
    const socket: nat -> Tcp.SocketTurn
    var flushes: nat
    const network: nat -> bool
    var sendtos: nat
    ghost var datagrams: seq<seq<byte>>
    ghost var offered: seq<seq<byte>>

    // The packets that wait in the client's own write queue.
    ghost function Arrays(): set<array<byte>>
      reads this, rtsp, rtsp.writeBuffer
    {
      rtsp.Arrays()
    }

    ghost predicate Valid()
      reads this, rtsp, rtsp.writeBuffer, Arrays()
    {
      |info| == MAX_MEDIA_CHANNEL && rtsp.Valid()
    }

    ghost function View(): (c: Client)
      requires Valid()
      reads this, rtsp, rtsp.writeBuffer, Arrays()
      ensures c.Valid() && c.online == online && c.conn.open == !rtsp.isClosed
    {
      Client(info, transport, isClosed, hasKeyFrame, online, rtsp.View(), socket, flushes,
             network, sendtos, datagrams, offered)
    }

    // The random numbers of the original are parameters.
    constructor (rtsp: Tcp.TcpConnection, socket: nat -> Tcp.SocketTurn, network: nat -> bool, seeds: (Seeds, Seeds))
      requires rtsp.Valid()
      ensures Valid() && fresh(this) && this.rtsp == rtsp && Arrays() == rtsp.Arrays()
      ensures View() == NewClient(seeds, rtsp.View(), socket, network)
    {
      this.rtsp, this.socket, this.network, online := rtsp, socket, network, true;
      info := [NewInfo(seeds.0), NewInfo(seeds.1)];
      transport, isMulticast, isClosed, hasKeyFrame, frameType := OverTcp, false, false, false, 0;
      flushes, sendtos, datagrams, offered := 0, 0, [], [];
    }

    method SetPayloadType(ch: ChannelId, payload: bv8)
      requires Valid()
      modifies this
      ensures Valid() && Arrays() == old(Arrays()) && View() == old(View()).Typed(ch, payload)
    {
      info := info[ch := info[ch].(header := info[ch].header.(payload := payload))];
    }

    method SetupRtpOverTcp(ch: ChannelId, rtpChannel: uint16) returns (ok: bool)
      requires Valid()
      modifies this
      ensures Valid() && Arrays() == old(Arrays()) && ok == online
      ensures View() == if !ok then old(View()) else
        old(View()).(info := old(info)[ch := old(info)[ch].(rtpChannel := rtpChannel, isSetup := true)],
                     transport := OverTcp)
    {
      if !online {
        return false;
      }
      info := info[ch := info[ch].(rtpChannel := rtpChannel)];
      info := info[ch := info[ch].(isSetup := true)];
      transport := OverTcp;
      return true;
    }

    /** Fails without the peer's address, or when ten attempts have found no two sockets. */
    method SetupRtpOverUdp(ch: ChannelId, peer: bool, binds: Binds) returns (ok: bool)
      requires Valid()
      modifies this
      ensures Valid() && Arrays() == old(Arrays()) && ok == (online && peer && PairBound(binds))
      ensures View() == if !ok then old(View()) else
        old(View()).(info := old(info)[ch := old(info)[ch].(isSetup := true)], transport := OverUdp)
    {
      if !online || !peer {
        return false;
      }
      var n := 0;
      while n <= ATTEMPTS
        invariant n <= ATTEMPTS && forall k: nat :: k < n ==> !binds.Pair(k)
      {
        if n == ATTEMPTS {
          return false;
        }
        if !binds.rtp(n) || !binds.rtcp(n) {
          n := n + 1;
          continue;
        }
        break;
      }
      assert binds.Pair(n);
      info := info[ch := info[ch].(isSetup := true)];
      transport := OverUdp;
      return true;
    }

    method SetupRtpOverMulticast(ch: ChannelId, binds: Binds) returns (ok: bool)
      requires Valid()
      modifies this
      ensures Valid() && Arrays() == old(Arrays()) && ok == SocketBound(binds)
      ensures View() == if !ok then old(View()) else
        old(View()).(info := old(info)[ch := old(info)[ch].(isSetup := true)], transport := OverMulticast)
    {
      var n := 0;
      while n <= ATTEMPTS
        invariant n <= ATTEMPTS && forall k: nat :: k < n ==> !binds.rtp(k)
      {
        if n == ATTEMPTS {
          return false;
        }
        if !binds.rtp(n) {
          n := n + 1;
          continue;
        }
        break;
      }
      info := info[ch := info[ch].(isSetup := true)];
      transport := OverMulticast;
      isMulticast := true;
      return true;
    }

    method Play()
      requires Valid()
      modifies this
      ensures Valid() && Arrays() == old(Arrays())
      ensures View() == old(View()).Played()
    {
      for ch := 0 to MAX_MEDIA_CHANNEL
        invariant Valid() && Arrays() == old(Arrays())
        invariant View() == old(View()).(info := info)
        invariant forall k :: 0 <= k < MAX_MEDIA_CHANNEL ==>
          info[k] == if k < ch then old(info)[k].Played() else old(info)[k]
      {
        if info[ch].isSetup {
          info := info[ch := info[ch].(isPlay := true)];
        }
      }
      assert info == [old(info)[0].Played(), old(info)[1].Played()];
    }

    method Record()
      requires Valid()
      modifies this
      ensures Valid() && Arrays() == old(Arrays())
      ensures View() == old(View()).Recorded()
    {
      for ch := 0 to MAX_MEDIA_CHANNEL
        invariant Valid() && Arrays() == old(Arrays())
        invariant View() == old(View()).(info := info)
        invariant forall k :: 0 <= k < MAX_MEDIA_CHANNEL ==>
          info[k] == if k < ch then old(info)[k].Recorded() else old(info)[k]
      {
        if info[ch].isSetup {
          info := info[ch := info[ch].(isRecord := true)];
          info := info[ch := info[ch].(isPlay := true)];
        }
      }
      assert info == [old(info)[0].Recorded(), old(info)[1].Recorded()];
    }

    method Teardown()
      requires Valid()
      modifies this
      ensures Valid() && Arrays() == old(Arrays())
      ensures View() == old(View()).TornDown()
    {
      if !isClosed {
        isClosed := true;
        for ch := 0 to MAX_MEDIA_CHANNEL
          invariant Valid() && Arrays() == old(Arrays())
          invariant View() == old(View()).(info := info, closed := true)
          invariant forall k :: 0 <= k < MAX_MEDIA_CHANNEL ==>
          info[k] == if k < ch then old(info)[k].Stopped() else old(info)[k]
        {
          info := info[ch := info[ch].(isPlay := false)];
          info := info[ch := info[ch].(isRecord := false)];
        }
        assert info == [old(info)[0].Stopped(), old(info)[1].Stopped()];
      }
    }

    method SetFrameType(kind: byte)
      requires Valid()
      modifies this
      ensures Valid() && Arrays() == old(Arrays())
      ensures View() == old(View()).Keyed(kind)
    {
      frameType := kind;
      if !hasKeyFrame && IsKeyFrame(kind) {
        hasKeyFrame := true;
      }
    }

    /** Writes the client's header over the one that is in the shared packet. */
    method SetRtpHeader(ch: ChannelId, pkt: RtpPacket)
      requires Valid() && pkt.Valid() && pkt.data !in Arrays()
      modifies this, pkt.data
      ensures Valid() && Arrays() == old(Arrays()) && pkt.View() == old(pkt.View())
      ensures !(old(info)[ch].Active() && hasKeyFrame) ==> View() == old(View())
      ensures old(info)[ch].Active() && hasKeyFrame ==> View() == old(View()).Stamp(ch, pkt.last, pkt.timestamp)
      ensures old(info)[ch].Active() && hasKeyFrame ==>
        pkt.data[RTP_TCP_HEAD_SIZE..pkt.size] == Datagram(old(info)[ch], pkt.View())
    {
      if info[ch].Active() && hasKeyFrame {
        var header := NextHeader(ch, pkt.last, pkt.timestamp);
        StampHeader(pkt, header);
      }
    }

    method NextHeader(ch: ChannelId, last: bool, timestamp: bv32) returns (header: RtpHeader)
      requires Valid()
      modifies this
      ensures Valid() && Arrays() == old(Arrays())
      ensures View() == old(View()).Stamp(ch, last, timestamp)
      ensures header == old(info)[ch].Stamped(last, timestamp).header
    {
      info := info[ch := info[ch].Stamped(last, timestamp)];
      header := info[ch].header;
    }

    static method StampHeader(pkt: RtpPacket, header: RtpHeader)
      requires pkt.Valid()
      modifies pkt.data
      ensures pkt.View() == old(pkt.View())
      ensures pkt.data[RTP_TCP_HEAD_SIZE..pkt.size] == EncodeHeader(header) + pkt.View().payload
    {
      var bytes := EncodeHeader(header);
      forall k | 0 <= k < RTP_HEADER_SIZE {
        pkt.data[RTP_TCP_HEAD_SIZE + k] := bytes[k];
      }
      assert pkt.data[PAYLOAD_OFFSET..pkt.size] == old(pkt.View()).payload;
      assert pkt.data[RTP_TCP_HEAD_SIZE..pkt.size] == bytes + pkt.data[PAYLOAD_OFFSET..pkt.size];
    }

    method SendRtpPacket(ch: ChannelId, pkt: RtpPacket) returns (result: int, waits: bool)
      requires Valid() && pkt.Valid() && pkt.data !in Arrays()
      modifies this, rtsp, rtsp.writeBuffer, pkt.data
      ensures Valid() && fresh(Arrays() - old(Arrays())) && pkt.View() == old(pkt.View())
      ensures Sent(View(), result, waits) == SendStep(old(View()), ch, old(pkt.View()))
    {
      if isClosed {
        return -1, false;
      }
      SetFrameType(pkt.kind);
      var active := info[ch].Active() && hasKeyFrame;
      SetRtpHeader(ch, pkt);
      if active {
        result, waits := Transmit(ch, pkt);
      } else {
        result, waits := -1, false;
      }
    }

    method Transmit(ch: ChannelId, pkt: RtpPacket) returns (result: int, waits: bool)
      requires Valid() && pkt.Valid() && pkt.data !in Arrays()
      modifies this, rtsp, rtsp.writeBuffer, pkt.data
      ensures Valid() && fresh(Arrays() - old(Arrays())) && pkt.View() == old(pkt.View())
      ensures Sent(View(), result, waits) == Transmitted(old(View()), ch, old(pkt.data[RTP_TCP_HEAD_SIZE..pkt.size]))
    {
      hide Interleave, Emit;
      offered := offered + [pkt.data[RTP_TCP_HEAD_SIZE..pkt.size]];
      if transport == OverTcp {
        result, waits := SendRtpOverTcp(ch, pkt);
      } else {
        result := SendRtpOverUdp(ch, pkt);
        waits := false;
      }
    }

    /** Adds the interleaving header and queues a copy of the packet. */
    method SendRtpOverTcp(ch: ChannelId, pkt: RtpPacket) returns (result: int, waits: bool)
      requires Valid() && pkt.Valid() && pkt.data !in Arrays()
      modifies this, rtsp, rtsp.writeBuffer, pkt.data
      ensures Valid() && fresh(Arrays() - old(Arrays())) && pkt.View() == old(pkt.View())
      ensures Sent(View(), result, waits) == Interleave(old(View()), ch, old(pkt.data[RTP_TCP_HEAD_SIZE..pkt.size]))
    {
      if !online {
        return -1, false;
      }
      StampInterleaved(pkt, ChannelByte(info[ch]));
      waits := Offer(pkt);
      result := pkt.size;
    }

    method Offer(pkt: RtpPacket) returns (waits: bool)
      requires Valid() && pkt.Valid() && pkt.data !in Arrays()
      modifies this`flushes, rtsp, rtsp.writeBuffer
      ensures Valid() && fresh(Arrays() - old(Arrays()))
      ensures View() == old(View()).Handed(pkt.data[0..pkt.size])
      ensures waits == (old(View()).conn.open && old(socket(flushes)).hungUp)
    {
      hide Tcp.Handed;
      var turn := socket(flushes);
      if !rtsp.isClosed {
        flushes := flushes + 1;
      }
      waits := rtsp.Send(pkt.data, pkt.size, turn);
      assert pkt.data[0..pkt.size] == pkt.data[..pkt.size];
    }

    static method StampInterleaved(pkt: RtpPacket, channel: byte)
      requires pkt.Valid()
      modifies pkt.data
      ensures pkt.View() == old(pkt.View())
      ensures pkt.data[0..pkt.size] == Frame(Unit(channel, old(pkt.data[RTP_TCP_HEAD_SIZE..pkt.size])))
    {
      pkt.data[0] := DOLLAR;
      pkt.data[1] := channel;
      pkt.data[2] := ((pkt.size - 4) / 256) as byte;
      pkt.data[3] := ((pkt.size - 4) % 256) as byte;
      assert pkt.data[0..pkt.size][4..] == old(pkt.data[RTP_TCP_HEAD_SIZE..pkt.size]);
      IsFrame(pkt.data[0..pkt.size], Unit(channel, old(pkt.data[RTP_TCP_HEAD_SIZE..pkt.size])));
    }

    method SendRtpOverUdp(ch: ChannelId, pkt: RtpPacket) returns (result: int)
      requires Valid() && pkt.Valid()
      modifies this
      ensures Valid() && Arrays() == old(Arrays())
      ensures Sent(View(), result, false) == Emit(old(View()), pkt.data[RTP_TCP_HEAD_SIZE..pkt.size])
    {
      var taken := network(sendtos);
      sendtos := sendtos + 1;
      if !taken {
        Teardown();
        return -1;
      }
      datagrams := datagrams + [pkt.data[RTP_TCP_HEAD_SIZE..pkt.size]];
      return pkt.size - RTP_TCP_HEAD_SIZE;
    }
  }
}
