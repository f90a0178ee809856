/** What opens the gate for media: the marks that a run of a connection leaves, and what they say
    of the flags of its client. */
module MediaGate {
  import opened Rtp
  import opened RtpConnection
  import opened RtspMedia
  import Tcp = TcpConnection
  import Interleaved
  import opened Sequences

  // Whether the peer is known and sockets can be bound is part of the request here.
  datatype Transport = Tcp(rtpChannel: uint16) | Udp(peer: bool, binds: Binds) | Multicast(binds: Binds)
  datatype Request = Options | Describe(suffix: string) | Setup(ch: ChannelId, transport: Transport)
    | Play | Teardown | GetParameter
  datatype Message = Message(request: Request, url: string, response: string)

  function Command(r: Request): string {
    match r
    case Options => "OPTIONS"
    case Describe(_) => "DESCRIBE"
    case Setup(_, _) => "SETUP"
    case Play => "PLAY"
    case Teardown => "TEARDOWN"
    case GetParameter => "GET_PARAMETER"
  }

  // What a run is judged by.
  datatype Mark =
    | Challenged(nonce: string) | Accepted(nonce: string, message: Message)
    | Described(id: nat) | SetUp(ch: ChannelId) | Played | Recorded | TornDown | Offered(ch: ChannelId)

  // --- What the marks of a run say about its state ---

  predicate Starts(m: Mark) {
    m.Played? || m.Recorded?
  }

  ghost predicate Started(marks: seq<Mark>, ch: ChannelId) {
    exists i, j :: 0 <= i < j < |marks| && marks[i] == SetUp(ch) && Starts(marks[j])
  }

  // A packet was offered only after a set-up and a later start, and before any teardown.
  ghost predicate Gated(marks: seq<Mark>) {
    forall k :: 0 <= k < |marks| && marks[k].Offered? ==>
      Started(marks[..k], marks[k].ch) && TornDown !in marks[..k]
  }

  ghost predicate Follows(c: Client, marks: seq<Mark>)
    requires c.Valid()
  {
    && (forall ch: ChannelId :: c.info[ch].isSetup ==> SetUp(ch) in marks)
    && (forall ch: ChannelId :: c.info[ch].Active() ==> Started(marks, ch))
    && (TornDown in marks ==> c.closed)
  }

  lemma StartedMore(marks: seq<Mark>, more: seq<Mark>, ch: ChannelId)
    requires Started(marks, ch)
    ensures Started(marks + more, ch)
  {
    var i, j :| 0 <= i < j < |marks| && marks[i] == SetUp(ch) && Starts(marks[j]);
    assert (marks + more)[i] == SetUp(ch) && Starts((marks + more)[j]);
  }

  // A client that is no further than another follows the same marks and more.
  lemma FollowsMore(c: Client, d: Client, marks: seq<Mark>, more: seq<Mark>)
    requires c.Valid() && d.Valid() && Follows(c, marks)
    requires forall ch: ChannelId :: d.info[ch].isSetup ==> c.info[ch].isSetup || SetUp(ch) in more
    requires forall ch: ChannelId :: d.info[ch].Active() ==> c.info[ch].Active()
    requires d.closed || (TornDown !in more && !c.closed)
    ensures Follows(d, marks + more)
  {
    forall ch: ChannelId | d.info[ch].Active() ensures Started(marks + more, ch) {
      StartedMore(marks, more, ch);
    }
  }

  lemma TransmitFlags(c: Client, ch: ChannelId, datagram: seq<byte>)
    requires c.Valid() && |datagram| <= RTP_HEADER_SIZE + MAX_RTP_PAYLOAD_SIZE
    ensures var d := Transmitted(c, ch, datagram).client;
      && (forall k: ChannelId :: d.info[k].isSetup == c.info[k].isSetup && (d.info[k].Active() ==> c.info[k].Active()))
      && (c.closed ==> d.closed)
  {
    hide Tcp.Handed, Interleaved.Frame;
  }

  // Sending changes no channel's set-up and starts none; only an open, active channel offers.
  lemma SendFlags(c: Client, ch: ChannelId, pkt: Packet)
    requires c.Valid() && |pkt.payload| <= MAX_RTP_PAYLOAD_SIZE
    ensures var d := SendStep(c, ch, pkt).client;
      && (forall k: ChannelId :: d.info[k].isSetup == c.info[k].isSetup && (d.info[k].Active() ==> c.info[k].Active()))
      && (c.closed ==> d.closed)
      && (d.offered != c.offered ==> !c.closed && c.info[ch].Active())
  {
    if !c.closed {
      var keyed := c.Keyed(pkt.kind);
      TransmitFlags(keyed.Stamp(ch, pkt.last, pkt.timestamp), ch, Datagram(keyed.info[ch], pkt));
    }
    hide Transmitted, EncodeHeader, Datagram;
  }

  lemma SendFollows(c: Client, ch: ChannelId, pkt: Packet, marks: seq<Mark>, more: seq<Mark>)
    requires c.Valid() && Follows(c, marks) && |pkt.payload| <= MAX_RTP_PAYLOAD_SIZE && TornDown !in more
    ensures Follows(SendStep(c, ch, pkt).client, marks + more)
    ensures SendStep(c, ch, pkt).client.offered != c.offered ==> Started(marks, ch) && TornDown !in marks
  {
    SendFlags(c, ch, pkt);
    hide Started, SendStep;
    FollowsMore(c, SendStep(c, ch, pkt).client, marks, more);
  }

  lemma PlayFollows(c: Client, marks: seq<Mark>)
    requires c.Valid() && Follows(c, marks)
    ensures Follows(c.Played(), marks + [Played])
  {
    forall ch: ChannelId | c.Played().info[ch].Active() ensures Started(marks + [Played], ch) {
      if c.info[ch].isSetup {
        var i :| 0 <= i < |marks| && marks[i] == SetUp(ch);
        assert (marks + [Played])[i] == SetUp(ch) && (marks + [Played])[|marks|] == Played;
      } else {
        StartedMore(marks, [Played], ch);
      }
    }
  }

  lemma RecordFollows(c: Client, marks: seq<Mark>)
    requires c.Valid() && Follows(c, marks)
    ensures Follows(c.Recorded(), marks + [Recorded])
  {
    forall ch: ChannelId | c.Recorded().info[ch].Active() ensures Started(marks + [Recorded], ch) {
      if c.info[ch].isSetup {
        var i :| 0 <= i < |marks| && marks[i] == SetUp(ch);
        assert (marks + [Recorded])[i] == SetUp(ch) && (marks + [Recorded])[|marks|] == Recorded;
      } else {
        StartedMore(marks, [Recorded], ch);
      }
    }
  }

  lemma NewbornFollows(c: Client, marks: seq<Mark>)
    requires Newborn(c) && TornDown !in marks
    ensures Follows(c, marks)
  {
  }

  ghost predicate NoOffer(marks: seq<Mark>) {
    forall k :: 0 <= k < |marks| ==> !marks[k].Offered?
  }

  lemma GatedMore(marks: seq<Mark>, more: seq<Mark>)
    requires Gated(marks) && NoOffer(more)
    ensures Gated(marks + more)
  {
    var all := marks + more;
    forall k | 0 <= k < |all| && all[k].Offered? ensures Started(all[..k], all[k].ch) && TornDown !in all[..k] {
      assert all[..k] == marks[..k] && all[k] == marks[k];
    }
  }

  lemma GatedOffer(marks: seq<Mark>, ch: ChannelId)
    requires Gated(marks) && Started(marks, ch) && TornDown !in marks
    ensures Gated(marks + [Offered(ch)])
  {
    var all := marks + [Offered(ch)];
    forall k | 0 <= k < |all| && all[k].Offered? ensures Started(all[..k], all[k].ch) && TornDown !in all[..k] {
      if k < |marks| {
        assert all[..k] == marks[..k];
      } else {
        assert all[..k] == marks;
      }
    }
  }
}
