/** What a connection sees of the media that it serves or pushes. */
module RtspMedia {
  import opened RtpConnection

  // A media session: the payload types of its sources, and whether it has a description.
  datatype Media = Media(id: nat, multicast: bool, payloads: map<ChannelId, bv8>, described: bool)
  datatype Lookup = NotFound | Found(media: Media)
  datatype Server = Server(alive: bool, bySuffix: string -> Lookup, byId: nat -> Lookup)

  datatype State = StartConnect | StartPlay | StartPush

  ghost predicate Newborn(c: Client) {
    c.Valid() && !c.closed && c.offered == [] && c.datagrams == []
    && forall ch: ChannelId :: !c.info[ch].isSetup && !c.info[ch].Active()
  }

  // The payload types of the sources are put into the headers of the client.
  ghost function Typed(c: Client, payloads: map<ChannelId, bv8>): (r: Client)
    requires c.Valid()
    ensures r.Valid()
  {
    var c0 := if 0 in payloads then c.Typed(0, payloads[0]) else c;
    if 1 in payloads then c0.Typed(1, payloads[1]) else c0
  }

  lemma TypedIs(c: Client, payloads: map<ChannelId, bv8>)
    requires c.Valid()
    ensures var d := Typed(c, payloads);
      && d == c.(info := d.info)
      && forall ch: ChannelId :: d.info[ch] ==
           if ch in payloads then c.info[ch].(header := c.info[ch].header.(payload := payloads[ch])) else c.info[ch]
  {
  }

  lemma TypedFlags(c: Client, payloads: map<ChannelId, bv8>)
    requires c.Valid()
    ensures var d := Typed(c, payloads);
      && d.closed == c.closed && d.offered == c.offered && d.online == c.online
      && forall k: ChannelId ::
           && d.info[k].isSetup == c.info[k].isSetup
           && d.info[k].isPlay == c.info[k].isPlay && d.info[k].isRecord == c.info[k].isRecord
  {
  }

  method SetPayloadTypes(rtp: RtpConnection, payloads: map<ChannelId, bv8>)
    requires rtp.Valid()
    modifies rtp
    ensures rtp.Valid() && rtp.Arrays() == old(rtp.Arrays()) && rtp.View() == Typed(old(rtp.View()), payloads)
  {
    ghost var c := rtp.View();
    for ch := 0 to MAX_MEDIA_CHANNEL
      invariant rtp.Valid() && rtp.Arrays() == old(rtp.Arrays())
      invariant rtp.View() == if ch == 0 then c
        else if ch == 1 then (if 0 in payloads then c.Typed(0, payloads[0]) else c) else Typed(c, payloads)
    {
      if ch in payloads {
        rtp.SetPayloadType(ch, payloads[ch]);
      }
    }
  }
}
