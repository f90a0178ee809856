/** From the frames that a source is given to the buffers that the client's decoder is given. */
module EndToEnd {
  import opened Sequences
  import opened Rtp
  import opened Fragmentation
  import opened H264Source
  import opened RtpConnection
  import opened ClientStream
  import opened StreamingWorker

  datatype AvFrame = AvFrame(data: seq<byte>, timestamp: bv32, kind: byte)

  // What the decoder should be given: the frame when it fits in one packet, and the frame
  // without its first byte, the NAL header that went into the fragments, when it does not.
  function Expected(data: seq<byte>): seq<seq<byte>> {
    if data == [] then []
    else if |data| <= MAX_RTP_PAYLOAD_SIZE then [data]
    else [data[1..]]
  }

  function ExpectedAll(frames: seq<AvFrame>): seq<seq<byte>> {
    if frames == [] then [] else Expected(frames[0].data) + ExpectedAll(frames[1..])
  }

  // The packets of all frames, on one channel.
  function Stream(frames: seq<AvFrame>, ch: ChannelId): seq<Item> {
    if frames == [] then [] else Items(PacketsOf(frames[0]), ch) + Stream(frames[1..], ch)
  }

  function PacketsOf(f: AvFrame): (r: seq<Packet>) { Packets(f.data, f.timestamp, f.kind) }

  function Items(ps: seq<Packet>, ch: ChannelId): (r: seq<Item>)
    ensures |r| == |ps| && forall i :: 0 <= i < |ps| ==> r[i] == Item(ch, ps[i])
  {
    if ps == [] then [] else [Item(ch, ps[0])] + Items(ps[1..], ch)
  }

  // Datagrams that carry the packets, whatever their headers say besides the marker.
  ghost predicate Carrying(ds: seq<seq<byte>>, ps: seq<Packet>) {
    && |ds| == |ps|
    && forall i :: 0 <= i < |ds| ==> Carries(ds[i], ps[i])
  }

  ghost predicate NeverBlank(decoder: nat -> Decoding) {
    forall k :: decoder(k) != Blank
  }

  // The receiver in the middle of a frame.
  ghost predicate Collecting(r: Receiver) {
    r.status == Running && r.first && r.offset == 2
  }

  lemma {:induction false} FragmentsCollected(
    r: Receiver, ds: seq<seq<byte>>, ps: seq<Packet>, lead: seq<byte>, nalType: byte, start: bool,
    decoder: nat -> Decoding)
    requires Carrying(ds, ps) && ps != [] && |lead| == 1 && WellFragmented(ps, lead, nalType, start)
    requires r.status == Running && (Collecting(r) || (Idle(r) && |ps| > 1)) && NeverBlank(decoder)
    requires |r.buffer| + |Bodies(ps, 2)| < MAX_SIZE_PROCESSING_FRAME
    ensures var next := ReceiveAll(r, ds, decoder);
      Idle(next) && next.delivered == r.delivered + [r.buffer + Bodies(ps, 2)]
    decreases ps
  {
    var p, next := ps[0], Receive(r, ds[0], decoder);
    assert Fragment(p, lead, nalType, start, |ps| == 1) && Carries(ds[0], p);
    assert Bodies(ps, 2) == p.payload[2..] + Bodies(ps[1..], 2);
    FragmentTaken(r, ds[0], p, lead, nalType, start, |ps| == 1, decoder);
    hide Receive, Fragment, Carries;
    if |ps| == 1 {
      assert ps[1..] == [] && ds[1..] == [];
      assert ReceiveAll(r, ds, decoder) == ReceiveAll(next, ds[1..], decoder) == next;
      assert Bodies(ps, 2) == p.payload[2..];
    } else {
      TailFragmented(ps, lead, nalType, start);
      FragmentsCollected(next, ds[1..], ps[1..], lead, nalType, false, decoder);
      assert (r.buffer + p.payload[2..]) + Bodies(ps[1..], 2) == r.buffer + Bodies(ps, 2);
    }
  }

  // One fragment is taken over, or ends the frame.
  lemma FragmentTaken(
    r: Receiver, d: seq<byte>, p: Packet, lead: seq<byte>, nalType: byte, start: bool, end: bool,
    decoder: nat -> Decoding)
    requires Carries(d, p) && |lead| == 1 && Fragment(p, lead, nalType, start, end)
    requires r.status == Running && (Collecting(r) || (Idle(r) && !end)) && NeverBlank(decoder)
    requires |r.buffer| + |p.payload| - 2 < MAX_SIZE_PROCESSING_FRAME
    ensures var next := Receive(r, d, decoder);
      if end then Idle(next) && next.delivered == r.delivered + [r.buffer + p.payload[2..]]
      else next == r.(buffer := r.buffer + p.payload[2..], first := true, offset := 2)
  {
    assert d[RTP_HEADER_SIZE + 2..] == p.payload[2..];
  }

  lemma TailFragmented(ps: seq<Packet>, lead: seq<byte>, nalType: byte, start: bool)
    requires |ps| > 1 && WellFragmented(ps, lead, nalType, start)
    ensures WellFragmented(ps[1..], lead, nalType, false)
  {
    forall i | 0 <= i < |ps[1..]| ensures Fragment(ps[1..][i], lead, nalType, false, i == |ps[1..]| - 1) {
      assert ps[1..][i] == ps[i + 1];
    }
  }

  /** An idle receiver that gets all datagrams of one frame, in order, hands exactly that frame
      to its decoder and is idle again. */
  lemma FrameDelivered(r: Receiver, ds: seq<seq<byte>>, f: AvFrame, decoder: nat -> Decoding)
    requires Idle(r) && Carrying(ds, PacketsOf(f)) && NeverBlank(decoder)
    requires |f.data| <= MAX_SIZE_PROCESSING_FRAME
    ensures var next := ReceiveAll(r, ds, decoder);
      Idle(next) && next.delivered == r.delivered + Expected(f.data)
  {
    if |f.data| <= MAX_RTP_PAYLOAD_SIZE {
      assert Carries(ds[0], PacketsOf(f)[0]) && ds[1..] == [];
      assert ReceiveAll(r, ds, decoder) == ReceiveAll(Receive(r, ds[0], decoder), ds[1..], decoder);
      assert ds[0][RTP_HEADER_SIZE..] == f.data && r.buffer + f.data == f.data;
      assert r.delivered + [] == r.delivered;
    } else {
      LargeFrameIsWellFragmented(f.data, f.timestamp, f.kind);
      FragmentsCollected(r, ds, PacketsOf(f), [Indicator(f.data[0])], NalType(f.data[0]), true, decoder);
      assert r.buffer + f.data[1..] == f.data[1..];
    }
  }

  ghost predicate CarryingItems(ds: seq<seq<byte>>, items: seq<Item>) {
    && |ds| == |items|
    && forall i :: 0 <= i < |ds| ==> Carries(ds[i], items[i].pkt)
  }

  // The datagrams of the first frame, and those of the others.
  lemma StreamParts(ds: seq<seq<byte>>, frames: seq<AvFrame>, ch: ChannelId)
    requires frames != [] && CarryingItems(ds, Stream(frames, ch))
    ensures var ps := PacketsOf(frames[0]);
      && |ps| <= |ds| && Carrying(ds[..|ps|], ps) && CarryingItems(ds[|ps|..], Stream(frames[1..], ch))
  {
    var ps, rest := PacketsOf(frames[0]), Stream(frames[1..], ch);
    var all := Stream(frames, ch);
    assert all == Items(ps, ch) + rest;
    hide PacketsOf, Carries, Stream, Items;
    forall i | 0 <= i < |ps| ensures Carries(ds[..|ps|][i], ps[i]) {
      assert all[i] == Items(ps, ch)[i];
    }
    forall i | 0 <= i < |rest| ensures Carries(ds[|ps|..][i], rest[i].pkt) {
      assert all[|ps| + i] == rest[i];
    }
  }

  lemma {:induction false} FramesDelivered(
    r: Receiver, ds: seq<seq<byte>>, frames: seq<AvFrame>, ch: ChannelId, decoder: nat -> Decoding)
    requires Idle(r) && NeverBlank(decoder) && CarryingItems(ds, Stream(frames, ch))
    requires forall f <- frames :: |f.data| <= MAX_SIZE_PROCESSING_FRAME
    ensures var next := ReceiveAll(r, ds, decoder);
      Idle(next) && next.delivered == r.delivered + ExpectedAll(frames)
    decreases frames
  {
    hide Receive, PacketsOf, Expected, Idle, Carries, NeverBlank;
    if frames == [] {
      assert ds == [] && r.delivered + [] == r.delivered;
    } else {
      StreamParts(ds, frames, ch);
      hide ReceiveAll, Stream, Carrying, CarryingItems;
      var n, f := |PacketsOf(frames[0])|, frames[0];
      var mid := ReceiveAll(r, ds[..n], decoder);
      FrameDelivered(r, ds[..n], f, decoder);
      FramesDelivered(mid, ds[n..], frames[1..], ch, decoder);
      ReceiveAllConcat(r, ds[..n], ds[n..], decoder);
      assert ds == ds[..n] + ds[n..];
      assert ExpectedAll(frames) == Expected(f.data) + ExpectedAll(frames[1..]);
      hide ExpectedAll;
      Regroup(r.delivered, Expected(f.data), ExpectedAll(frames[1..]));
    }
  }

  lemma {:induction false} StreamFits(frames: seq<AvFrame>, ch: ChannelId)
    ensures Fits(Stream(frames, ch))
    ensures forall i :: 0 <= i < |Stream(frames, ch)| ==> Stream(frames, ch)[i].ch == ch
    decreases frames
  {
    if frames != [] {
      StreamFits(frames[1..], ch);
      var f := frames[0];
      if |f.data| > MAX_RTP_PAYLOAD_SIZE {
        LargeFrameIsWellFragmented(f.data, f.timestamp, f.kind);
        forall p <- PacketsOf(f) ensures |p.payload| <= MAX_RTP_PAYLOAD_SIZE {
          var i :| 0 <= i < |PacketsOf(f)| && PacketsOf(f)[i] == p;
          assert Fragment(p, [Indicator(f.data[0])], NalType(f.data[0]), i == 0, i == |PacketsOf(f)| - 1);
        }
      }
    }
  }

  // The timestamp of each frame, for each of its packets.
  function Stamps(frames: seq<AvFrame>): seq<bv32> {
    if frames == [] then []
    else seq(|PacketsOf(frames[0])|, _ => frames[0].timestamp) + Stamps(frames[1..])
  }

  lemma {:induction false} StreamStamped(frames: seq<AvFrame>, ch: ChannelId)
    ensures |Stream(frames, ch)| == |Stamps(frames)|
    ensures forall i :: 0 <= i < |Stream(frames, ch)| ==> Stream(frames, ch)[i].pkt.timestamp == Stamps(frames)[i]
    decreases frames
  {
    if frames != [] {
      var f := frames[0];
      PacketsStamped(f.data, f.timestamp, f.kind);
      StreamStamped(frames[1..], ch);
    }
  }

  /** End to end, over UDP without loss: for every list of frames of at most 150000 bytes, the
      datagrams that a playing client is sent make the receiver hand its decoder exactly one
      buffer for each frame that is not empty, in order, each the frame itself or, if it was
      fragmented, the frame without its NAL header; and all datagrams of a frame have its time. */
  lemma EndToEndRoundTrip(c: Client, frames: seq<AvFrame>, ch: ChannelId, r: Receiver, decoder: nat -> Decoding)
    returns (datagrams: seq<seq<byte>>)
    requires Idle(r) && NeverBlank(decoder)
    requires forall f <- frames :: |f.data| <= MAX_SIZE_PROCESSING_FRAME
    requires Streaming(c, Stream(frames, ch)) && c.transport != OverTcp
    ensures Fits(Stream(frames, ch))
    ensures Serve(c, Stream(frames, ch)).datagrams == c.datagrams + datagrams
    ensures ReceiveAll(r, datagrams, decoder).delivered == r.delivered + ExpectedAll(frames)
    ensures Idle(ReceiveAll(r, datagrams, decoder))
    ensures |datagrams| == |Stamps(frames)|
    ensures forall i :: 0 <= i < |datagrams| ==>
      |datagrams[i]| >= RTP_HEADER_SIZE && Timestamp(datagrams[i]) == Stamps(frames)[i]
  {
    StreamFits(frames, ch);
    StreamStamped(frames, ch);
    datagrams := EveryPacketOnceInOrder(c, Stream(frames, ch));
    hide Timestamp, Stamps, Stream, Carries, ReceiveAll;
    FramesDelivered(r, datagrams, frames, ch, decoder);
  }

  /** 150000 bytes is the exact limit: an idle receiver that gets all datagrams of a frame that
      is not empty ends up having delivered it last if and only if the frame is not longer. */
  lemma DeliveredIffNotTooLong(r: Receiver, ds: seq<seq<byte>>, f: AvFrame, decoder: nat -> Decoding)
    requires Idle(r) && Sane(r) && Carrying(ds, PacketsOf(f)) && NeverBlank(decoder) && f.data != []
    ensures |f.data| <= MAX_SIZE_PROCESSING_FRAME <==>
      ReceiveAll(r, ds, decoder).delivered == r.delivered + Expected(f.data)
  {
    if |f.data| <= MAX_SIZE_PROCESSING_FRAME {
      FrameDelivered(r, ds, f, decoder);
    } else {
      EmittablePackets(ds, f);
      RunsAreSane(r, ds, decoder);
      var wanted := r.delivered + Expected(f.data);
      assert wanted[|r.delivered|] == f.data[1..] && f.data[1..] in wanted;
    }
  }

  lemma EmittablePackets(ds: seq<seq<byte>>, f: AvFrame)
    requires Carrying(ds, PacketsOf(f))
    ensures forall d <- ds :: Emittable(d)
  {
    var ps := PacketsOf(f);
    if |f.data| > MAX_RTP_PAYLOAD_SIZE {
      LargeFrameIsWellFragmented(f.data, f.timestamp, f.kind);
    }
    forall d <- ds ensures Emittable(d) {
      var i :| 0 <= i < |ds| && ds[i] == d;
      assert Carries(d, ps[i]) && |d| == RTP_HEADER_SIZE + |Payload(d)|;
      if |f.data| > MAX_RTP_PAYLOAD_SIZE {
        assert Fragment(ps[i], [Indicator(f.data[0])], NalType(f.data[0]), i == 0, i == |ps| - 1);
      }
    }
  }

  /** After any history of datagrams that a packetizer can emit, with any losses, and a marker,
      a later frame that arrives completely is delivered correctly if and only if no frame of
      one byte, up to the marker, found fragments of an earlier frame waiting. */
  lemma Resynchronises(
    r: Receiver, history: seq<seq<byte>>, marker: seq<byte>, ds: seq<seq<byte>>, f: AvFrame, decoder: nat -> Decoding)
    requires Idle(r) && NeverBlank(decoder) && (forall d <- history :: Emittable(d))
    requires Emittable(marker) && Marker(marker)
    requires Carrying(ds, PacketsOf(f)) && 0 < |f.data| <= MAX_SIZE_PROCESSING_FRAME
    ensures ReceiveAll(r, history + [marker] + ds, decoder).delivered
        == ReceiveAll(r, history + [marker], decoder).delivered + Expected(f.data)
      <==> !Trips(history + [marker])
  {
    var all := history + [marker];
    UndefinedIff(r, all, decoder);
    ReceiveAllConcat(r, all, ds, decoder);
    var mid := ReceiveAll(r, all, decoder);
    if Trips(all) {
      HaltedStays(mid, ds, decoder);
    } else {
      assert Trailing(all) == 0;
      FrameDelivered(mid, ds, f, decoder);
    }
  }
}
