/** What the peer of a client that plays over TCP gets: packets cut into frames and answers to
    requests, queued, partly sent, flushed by senders and by the event loop, and dropped whole
    when the queue is full. */
module TcpDelivery {
  import opened Sequences
  import opened Rtp
  import opened BufferWriter
  import opened WireConservation
  import opened Interleaved
  import opened RtpConnection
  import opened ClientStream
  import Tcp = TcpConnection

  // A packet is sent to the client, a request of it is answered, or the event loop flushes its
  // connection.
  datatype Work = Give(item: Item) | Answer(text: seq<byte>) | Loop

  ghost predicate WorkOk(w: Work, announced: Announced) {
    match w
    case Give(item) => Small(item)
    case Answer(text) => Sendable(Message(text), announced)
    case Loop => true
  }

  ghost predicate WorksOk(works: seq<Work>, announced: Announced) {
    forall i :: 0 <= i < |works| ==> WorkOk(works[i], announced)
  }

  ghost function Worked(c: Client, w: Work, announced: Announced): (r: Client)
    requires c.Valid() && WorkOk(w, announced)
    ensures r.Valid()
  {
    match w
    case Give(item) => SendStep(c, item.ch, item.pkt).client
    case Answer(text) => c.Handed(text)
    case Loop => c.Flushed()
  }

  ghost function Run(c: Client, works: seq<Work>, announced: Announced): (r: Client)
    requires c.Valid() && WorksOk(works, announced)
    ensures r.Valid()
    decreases |works|
  {
    if works == [] then c
    else Worked(Run(c, works[..|works| - 1], announced), works[|works| - 1], announced)
  }

  // A client that plays over TCP on every channel of the packets, with the channel numbers, payload
  // types and sources of another.
  ghost predicate Playing(c: Client, like: Client, works: seq<Work>) {
    && c.Valid() && c.online && !c.closed && c.hasKeyFrame && c.transport == OverTcp
    && like.Valid() && SameSource(like, c)
    && (forall ch: ChannelId :: c.info[ch].rtpChannel == like.info[ch].rtpChannel)
    && forall i :: 0 <= i < |works| && works[i].Give? ==> c.info[works[i].item.ch].Active()
  }

  // What is handed to the connection.
  ghost function PartOf(c: Client, w: Work): Part
    requires c.Valid() && !w.Loop?
  {
    match w
    case Give(item) => Binary(Unit(ChannelByte(c.info[item.ch]), Datagram(c.info[item.ch], item.pkt)))
    case Answer(text) => Message(text)
  }

  // The part is the answer, or carries the packet on the client's channel.
  ghost predicate PartFor(p: Part, w: Work, like: Client)
    requires like.Valid()
  {
    match w
    case Give(item) =>
      && p.Binary? && p.unit.channel as int == like.info[item.ch].rtpChannel % 256
      && Carries(p.unit.data, item.pkt) && Headed(like, p.unit.data, item)
    case Answer(text) => p == Message(text)
    case Loop => false
  }

  // The connection is open, nobody closes it in between, and the queue is not full.
  ghost predicate Room(c: Client) {
    c.conn.open && !c.socket(c.flushes).hungUp && |c.conn.wire.queue| < Tcp.QUEUE_CAPACITY
  }

  // Which works of a run leave something in the queue.
  ghost function Kept(c: Client, works: seq<Work>, announced: Announced): (r: seq<nat>)
    requires c.Valid() && WorksOk(works, announced)
    ensures forall i :: 0 <= i < |r| ==> r[i] < |works|
    decreases |works|
  {
    if works == [] then []
    else
      var n := |works| - 1;
      Kept(c, works[..n], announced)
      + if !works[n].Loop? && Room(Run(c, works[..n], announced)) then [n] else []
  }

  lemma KeptLast(c: Client, works: seq<Work>, announced: Announced)
    requires c.Valid() && WorksOk(works, announced) && works != []
    ensures var n := |works| - 1;
      Kept(c, works, announced) == Kept(c, works[..n], announced)
        + if !works[n].Loop? && Room(Run(c, works[..n], announced)) then [n] else []
  {
    hide Room, Run;
  }

  lemma {:induction false} KeptIff(c: Client, works: seq<Work>, announced: Announced, k: nat)
    requires c.Valid() && WorksOk(works, announced) && k < |works|
    ensures k in Kept(c, works, announced) <==> !works[k].Loop? && Room(Run(c, works[..k], announced))
    decreases |works|
  {
    var n := |works| - 1;
    var before := works[..n];
    KeptLast(c, works, announced);
    assert WorksOk(before, announced) && WorksOk(works[..k], announced);
    hide Room, Run, Kept, WorksOk;
    if k < n {
      assert before[..k] == works[..k] && before[k] == works[k];
      KeptIff(c, before, announced, k);
    } else {
      assert works[..k] == before;
    }
  }

  lemma {:induction false} KeptIncreases(c: Client, works: seq<Work>, announced: Announced)
    requires c.Valid() && WorksOk(works, announced)
    ensures var kept := Kept(c, works, announced); forall i, j :: 0 <= i < j < |kept| ==> kept[i] < kept[j]
    decreases |works|
  {
    if works != [] {
      KeptLast(c, works, announced);
      KeptIncreases(c, works[..|works| - 1], announced);
      hide Room, Run, Kept;
    }
  }

  lemma FlushedConserves(c: Tcp.Conn, locked: bool, replies: seq<Reply>)
    requires Conserved(c.wire)
    ensures Conserved(Tcp.Flushed(c, locked, replies).wire)
    ensures Tcp.Flushed(c, locked, replies).wire.accepted == c.wire.accepted
  {
    ApplyConserves(c.wire, Send(replies), Tcp.QUEUE_CAPACITY);
    hide Conserved;
  }

  lemma QueuedConserves(c: Tcp.Conn, data: seq<byte>)
    requires Conserved(c.wire) && data != []
    ensures Conserved(Tcp.Queued(c, data).wire)
    ensures Tcp.Queued(c, data).wire.accepted
      == if |c.wire.queue| < Tcp.QUEUE_CAPACITY then c.wire.accepted + [data] else c.wire.accepted
  {
    ApplyConserves(c.wire, Append(data), Tcp.QUEUE_CAPACITY);
    hide Conserved;
  }

  lemma HandedConserves(c: Client, data: seq<byte>)
    requires c.Valid() && Conserved(c.conn.wire) && data != []
    ensures var d := c.Handed(data);
      && Conserved(d.conn.wire)
      && d.conn.wire.accepted == if Room(c) then c.conn.wire.accepted + [data] else c.conn.wire.accepted
  {
    QueuedConserves(c.conn, data);
    var t := c.socket(c.flushes);
    FlushedConserves(Tcp.Queued(c.conn, data), t.locked, t.replies);
    hide Conserved, Tcp.Queued, Tcp.Flushed;
  }

  lemma PartIsFor(c: Client, like: Client, item: Item)
    requires Playing(c, like, [Give(item)]) && Small(item)
    ensures PartFor(PartOf(c, Give(item)), Give(item), like)
  {
    StampedReadsBack(c, item);
    ByteReadsBack(c.info[item.ch].rtpChannel % 256);
    assert Headed(like, Datagram(c.info[item.ch], item.pkt), item);
    hide Datagram, Carries, Headed, SameSource;
  }

  // Every work but a flush hands its part to the connection.
  lemma HandsPart(c: Client, like: Client, w: Work, announced: Announced)
    requires Playing(c, like, [w]) && WorkOk(w, announced) && !w.Loop?
    ensures PartFor(PartOf(c, w), w, like) && Sendable(PartOf(c, w), announced)
    ensures Worked(c, w, announced).conn == c.Handed(Bytes(PartOf(c, w), announced)).conn
  {
    if w.Give? {
      assert [w][0] == w;
      PartIsFor(c, like, w.item);
      hide PartFor, Headed, SameSource;
    }
    hide Tcp.Handed, Datagram, Frame, Carries;
  }

  lemma StillPlaying(c: Client, like: Client, w: Work, works: seq<Work>, announced: Announced)
    requires WorkOk(w, announced) && Playing(c, like, works)
    ensures Playing(Worked(c, w, announced), like, works)
  {
    hide Tcp.Handed, Tcp.Flushed, Datagram, Sendable;
  }

  lemma {:induction false} RunPlaying(
    c: Client, like: Client, works: seq<Work>, all: seq<Work>, announced: Announced)
    requires Playing(c, like, all) && WorksOk(works, announced)
    ensures Playing(Run(c, works, announced), like, all)
    decreases |works|
  {
    if works != [] {
      var n := |works| - 1;
      RunPlaying(c, like, works[..n], all, announced);
      StillPlaying(Run(c, works[..n], announced), like, works[n], all, announced);
    }
  }

  // The parts that were kept, in order.
  ghost function Parts(c: Client, works: seq<Work>, announced: Announced): (r: seq<Part>)
    requires c.Valid() && WorksOk(works, announced)
    ensures |r| == |Kept(c, works, announced)|
    decreases |works|
  {
    if works == [] then []
    else
      var n := |works| - 1;
      var mid := Run(c, works[..n], announced);
      Parts(c, works[..n], announced) + if !works[n].Loop? && Room(mid) then [PartOf(mid, works[n])] else []
  }

  ghost predicate PartsFor(parts: seq<Part>, kept: seq<nat>, works: seq<Work>, like: Client)
  {
    && |parts| == |kept| && like.Valid()
    && forall j :: 0 <= j < |kept| ==> kept[j] < |works| && PartFor(parts[j], works[kept[j]], like)
  }

  ghost predicate Linked(c: Client, parts: seq<Part>, announced: Announced) {
    Conserved(c.conn.wire) && Framed(c.conn.wire.accepted, parts, announced)
  }

  lemma FramedAppend(packets: Queue, parts: seq<Part>, p: Part, announced: Announced)
    requires Framed(packets, parts, announced) && Sendable(p, announced)
    ensures Framed(packets + [Bytes(p, announced)], parts + [p], announced)
  {
    hide Sendable, Bytes;
  }

  lemma WorkLinks(c: Client, like: Client, w: Work, parts: seq<Part>, announced: Announced)
    requires Playing(c, like, [w]) && WorkOk(w, announced) && Linked(c, parts, announced)
    ensures Linked(Worked(c, w, announced),
                   parts + if !w.Loop? && Room(c) then [PartOf(c, w)] else [], announced)
  {
    if w.Loop? {
      var t := c.socket(c.flushes);
      FlushedConserves(c.conn, t.locked, t.replies);
      hide Conserved, Framed, Tcp.Flushed;
      assert parts + [] == parts;
    } else {
      HandsPart(c, like, w, announced);
      hide Sendable, Conserved, Framed, Worked, PartOf, Room, Bytes;
      var bytes := Bytes(PartOf(c, w), announced);
      HandedConserves(c, bytes);
      if Room(c) {
        FramedAppend(c.conn.wire.accepted, parts, PartOf(c, w), announced);
      } else {
        assert parts + [] == parts;
      }
    }
  }

  lemma PartsLast(c: Client, works: seq<Work>, announced: Announced)
    requires c.Valid() && WorksOk(works, announced) && works != []
    ensures var n := |works| - 1;
      var mid := Run(c, works[..n], announced);
      Parts(c, works, announced)
        == Parts(c, works[..n], announced) + if !works[n].Loop? && Room(mid) then [PartOf(mid, works[n])] else []
    ensures Run(c, works, announced)
      == Worked(Run(c, works[..|works| - 1], announced), works[|works| - 1], announced)
  {
    hide Room, PartOf, Worked;
  }

  lemma {:induction false} RunLinks(
    c: Client, like: Client, works: seq<Work>, all: seq<Work>, announced: Announced)
    requires Playing(c, like, all) && c.conn.wire == Wire([], [], [])
    requires works <= all && WorksOk(works, announced)
    ensures Linked(Run(c, works, announced), Parts(c, works, announced), announced)
    decreases |works|
  {
    if works != [] {
      var n := |works| - 1;
      RunLinks(c, like, works[..n], all, announced);
      PartsLast(c, works, announced);
      RunPlaying(c, like, works[..n], all, announced);
      var mid := Run(c, works[..n], announced);
      assert works[n] == all[n];
      PlayingOne(mid, like, all, n);
      hide Playing, Linked, Room, PartOf, Worked, Sendable, Run, Parts;
      WorkLinks(mid, like, works[n], Parts(c, works[..n], announced), announced);
    }
  }

  lemma PlayingOne(c: Client, like: Client, works: seq<Work>, k: nat)
    requires Playing(c, like, works) && k < |works|
    ensures Playing(c, like, [works[k]])
  {
  }

  lemma {:induction false} RunParts(
    c: Client, like: Client, works: seq<Work>, all: seq<Work>, announced: Announced)
    requires Playing(c, like, all) && works <= all && WorksOk(works, announced)
    ensures PartsFor(Parts(c, works, announced), Kept(c, works, announced), works, like)
    decreases |works|
  {
    if works != [] {
      var n := |works| - 1;
      RunParts(c, like, works[..n], all, announced);
      PartsLast(c, works, announced);
      KeptLast(c, works, announced);
      RunPlaying(c, like, works[..n], all, announced);
      var mid := Run(c, works[..n], announced);
      assert works[n] == all[n];
      PlayingOne(mid, like, all, n);
      hide Playing, Room, PartOf, PartFor, Worked, Sendable, Run, Parts, Kept;
      if !works[n].Loop? {
        HandsPart(mid, like, works[n], announced);
      }
    }
  }

  /** Over every run of packets, answers and flushes, taking apart what the socket took gives, in
      order, the answers and whole datagrams of the packets that were kept, on the client's
      channel numbers, but for those still queued. What is not kept is what came when the queue
      was full or the connection closed. */
  lemma TcpStreamDelivers(c: Client, works: seq<Work>, announced: Announced)
    returns (kept: seq<nat>, parts: seq<Part>)
    requires Playing(c, c, works) && c.conn.wire == Wire([], [], []) && WorksOk(works, announced)
    ensures forall i :: 0 <= i < |works| ==>
      (i in kept <==> !works[i].Loop? && Room(Run(c, works[..i], announced)))
    ensures forall i, j :: 0 <= i < j < |kept| ==> kept[i] < kept[j]
    ensures PartsFor(parts, kept, works, c)
    ensures var w := Run(c, works, announced).conn.wire;
      && Framed(w.accepted, parts, announced) && |w.queue| <= |parts|
      && Deframe(w.sent, announced).parts == parts[..|parts| - |w.queue|]
  {
    hide Run, Deframe, Framed, Conserved, PartsFor, Room, Kept, Parts;
    kept, parts := Kept(c, works, announced), Parts(c, works, announced);
    RunLinks(c, c, works, works, announced);
    RunParts(c, c, works, works, announced);
    KeptIncreases(c, works, announced);
    forall i | 0 <= i < |works| ensures i in kept <==> !works[i].Loop? && Room(Run(c, works[..i], announced)) {
      KeptIff(c, works, announced, i);
    }
    SentDeframes(Run(c, works, announced).conn.wire, parts, announced);
  }
}
