/** What the H.264 and the H.265 source share: cutting a frame into fragmentation units, each
    with a short prefix that ends in a header byte with a start bit, an end bit and the type
    of the unit, and offering the packets one by one to the owner of the source. */
module Fragmentation {
  import opened Sequences
  import opened Rtp

  const START: byte := 0x80
  const END: byte := 0x40

  // The header byte behind the first fragment, and the one of the last.
  function Further(header: byte): byte { header & !START }
  function Last(header: byte): byte { header | END }

  const SIZE_LIMIT := 0x1_0000_0000

  // The sum of two sizes of 32 bits.
  function Sum(a: nat, b: nat): nat
    requires a < SIZE_LIMIT && b < SIZE_LIMIT
  {
    if a + b < SIZE_LIMIT then a + b else a + b - SIZE_LIMIT
  }

  // A NAL unit that a receiver has put together again.
  datatype Option = None | Some(nal: seq<byte>)

  // The packets for `rest`: `lead` and the header byte come before every part.
  function Fragments(lead: seq<byte>, header: byte, rest: seq<byte>, timestamp: bv32, kind: byte): (r: seq<Packet>)
    requires 1 <= |lead| <= 2 && |rest| > 0
    ensures |r| > 0
    decreases |rest|
  {
    var n := MAX_RTP_PAYLOAD_SIZE - |lead| - 1;
    if |rest| > n then
      [Packet(lead + [header] + rest[..n], false, timestamp, kind)]
      + Fragments(lead, Further(header), rest[n..], timestamp, kind)
    else
      [Packet(lead + [Last(header)] + rest, true, timestamp, kind)]
  }

  // One turn of a fragmentation loop, seen on the list of all packets.
  lemma FragmentsUnfold(
    all: seq<Packet>, k: nat, lead: seq<byte>, header: byte, rest: seq<byte>, timestamp: bv32, kind: byte)
    requires 1 <= |lead| <= 2 && |rest| > 0
    requires k <= |all| && all[k..] == Fragments(lead, header, rest, timestamp, kind)
    ensures k < |all|
    ensures var n := MAX_RTP_PAYLOAD_SIZE - |lead| - 1;
      if |rest| > n then
        && k + 1 < |all|
        && all[k] == Packet(lead + [header] + rest[..n], false, timestamp, kind)
        && all[k + 1..] == Fragments(lead, Further(header), rest[n..], timestamp, kind)
      else
        k + 1 == |all| && all[k] == Packet(lead + [Last(header)] + rest, true, timestamp, kind)
  {
    assert all[k] == all[k..][0] && all[k + 1..] == all[k..][1..];
  }

  // One fragment: `lead`, a header byte with the unit's type and its start and end bits, and a
  // non-empty part of the frame.
  predicate Fragment(p: Packet, lead: seq<byte>, nalType: byte, start: bool, end: bool) {
    && |lead| + 2 <= |p.payload| <= MAX_RTP_PAYLOAD_SIZE
    && p.payload[..|lead|] == lead
    && p.payload[|lead|] & 0x3f == nalType
    && (p.payload[|lead|] & START != 0 <==> start)
    && (p.payload[|lead|] & END != 0 <==> end)
    && p.last == end
    && (!end ==> |p.payload| == MAX_RTP_PAYLOAD_SIZE)
  }

  ghost predicate WellFragmented(ps: seq<Packet>, lead: seq<byte>, nalType: byte, start: bool) {
    forall i :: 0 <= i < |ps| ==> Fragment(ps[i], lead, nalType, start && i == 0, i == |ps| - 1)
  }

  // What is left of the packets without their first n bytes.
  function Bodies(ps: seq<Packet>, n: nat): (r: seq<byte>)
    requires forall i :: 0 <= i < |ps| ==> |ps[i].payload| >= n
  {
    if ps == [] then [] else ps[0].payload[n..] + Bodies(ps[1..], n)
  }

  function FuHeader(nalType: byte, start: bool): byte {
    if start then START | nalType else nalType
  }

  lemma FuHeaderBits(nalType: byte, start: bool)
    requires nalType & 0xC0 == 0
    ensures var h := FuHeader(nalType, start);
      && h & 0x3f == nalType && (h | END) & 0x3f == nalType
      && (h & START != 0 <==> start) && ((h | END) & START != 0 <==> start)
      && h & END == 0 && (h | END) & END != 0
      && h & !START == FuHeader(nalType, false)
  {}

  lemma FragmentBits(
    lead: seq<byte>, nalType: byte, start: bool, end: bool, body: seq<byte>, timestamp: bv32, kind: byte)
    requires 1 <= |lead| <= 2 && nalType & 0xC0 == 0
    requires 0 < |body| <= MAX_RTP_PAYLOAD_SIZE - |lead| - 1
    requires !end ==> |body| == MAX_RTP_PAYLOAD_SIZE - |lead| - 1
    ensures var h := if end then FuHeader(nalType, start) | END else FuHeader(nalType, start);
      var p := Packet(lead + [h] + body, end, timestamp, kind);
      Fragment(p, lead, nalType, start, end) && p.payload[|lead| + 1..] == body
  {
    FuHeaderBits(nalType, start);
  }

  lemma ConsFragment(p: Packet, tail: seq<Packet>, lead: seq<byte>, nalType: byte, start: bool)
    requires tail != [] && Fragment(p, lead, nalType, start, false) && WellFragmented(tail, lead, nalType, false)
    ensures WellFragmented([p] + tail, lead, nalType, start)
    ensures Bodies([p] + tail, |lead| + 1) == p.payload[|lead| + 1..] + Bodies(tail, |lead| + 1)
  {
    var ps := [p] + tail;
    forall i | 0 <= i < |ps| ensures Fragment(ps[i], lead, nalType, start && i == 0, i == |ps| - 1) {
      assert i > 0 ==> ps[i] == tail[i - 1];
    }
    assert ps[1..] == tail;
  }

  lemma FragmentsStep(
    lead: seq<byte>, nalType: byte, start: bool, rest: seq<byte>, timestamp: bv32, kind: byte) returns (head: Packet)
    requires 1 <= |lead| <= 2 && nalType & 0xC0 == 0 && |rest| > MAX_RTP_PAYLOAD_SIZE - |lead| - 1
    ensures var n := MAX_RTP_PAYLOAD_SIZE - |lead| - 1;
      && Fragments(lead, FuHeader(nalType, start), rest, timestamp, kind)
         == [head] + Fragments(lead, FuHeader(nalType, false), rest[n..], timestamp, kind)
      && Fragment(head, lead, nalType, start, false) && head.payload[|lead| + 1..] == rest[..n]
  {
    var body := rest[..MAX_RTP_PAYLOAD_SIZE - |lead| - 1];
    head := Packet(lead + [FuHeader(nalType, start)] + body, false, timestamp, kind);
    FuHeaderBits(nalType, start);
    FragmentBits(lead, nalType, start, false, body, timestamp, kind);
  }

  lemma FragmentsEnd(lead: seq<byte>, nalType: byte, start: bool, rest: seq<byte>, timestamp: bv32, kind: byte)
    requires 1 <= |lead| <= 2 && nalType & 0xC0 == 0 && 0 < |rest| <= MAX_RTP_PAYLOAD_SIZE - |lead| - 1
    ensures var ps := Fragments(lead, FuHeader(nalType, start), rest, timestamp, kind);
      WellFragmented(ps, lead, nalType, start) && Bodies(ps, |lead| + 1) == rest
  {
    FragmentBits(lead, nalType, start, true, rest, timestamp, kind);
  }

  /** The start bit is on the first fragment alone, the end bit and the marker are on the last
      alone, none is empty or larger than 1460 bytes, and their bodies make up the frame. */
  lemma {:induction false} FragmentsShape(
    lead: seq<byte>, nalType: byte, start: bool, rest: seq<byte>, timestamp: bv32, kind: byte)
    requires 1 <= |lead| <= 2 && nalType & 0xC0 == 0 && |rest| > 0
    ensures var ps := Fragments(lead, FuHeader(nalType, start), rest, timestamp, kind);
      WellFragmented(ps, lead, nalType, start) && Bodies(ps, |lead| + 1) == rest
    decreases |rest|
  {
    hide Fragments, Bodies, FuHeader, Fragment;
    var n := MAX_RTP_PAYLOAD_SIZE - |lead| - 1;
    if |rest| > n {
      var head := FragmentsStep(lead, nalType, start, rest, timestamp, kind);
      FragmentsShape(lead, nalType, false, rest[n..], timestamp, kind);
      ConsFragment(head, Fragments(lead, FuHeader(nalType, false), rest[n..], timestamp, kind), lead, nalType, start);
    } else {
      FragmentsEnd(lead, nalType, start, rest, timestamp, kind);
    }
  }

  // Every packet carries the timestamp and the type of its frame, and the last one alone the marker.
  predicate AllStamped(ps: seq<Packet>, timestamp: bv32, kind: byte) {
    forall i :: 0 <= i < |ps| ==>
      && ps[i].timestamp == timestamp && ps[i].kind == kind && (ps[i].last <==> i == |ps| - 1)
      && |ps[i].payload| <= MAX_RTP_PAYLOAD_SIZE
  }

  lemma {:induction false} FragmentsStamped(lead: seq<byte>, header: byte, rest: seq<byte>, timestamp: bv32, kind: byte)
    requires 1 <= |lead| <= 2 && |rest| > 0
    ensures AllStamped(Fragments(lead, header, rest, timestamp, kind), timestamp, kind)
    decreases |rest|
  {
    var n := MAX_RTP_PAYLOAD_SIZE - |lead| - 1;
    if |rest| > n {
      FragmentsStamped(lead, Further(header), rest[n..], timestamp, kind);
      var tail, all := Fragments(lead, Further(header), rest[n..], timestamp, kind),
        Fragments(lead, header, rest, timestamp, kind);
      assert forall i :: 0 < i < |all| ==> all[i] == tail[i - 1];
    }
  }

  // The part of a receiver that the two payload formats share: two or more packets that carry
  // the same lead, with the start bit on the first alone and the end bit on the last alone.
  predicate FuTrain(ps: seq<Packet>, lead: nat) {
    && |ps| >= 2
    && |ps[0].payload| >= lead
    && forall i :: 0 <= i < |ps| ==>
      && |ps[i].payload| >= lead + 2
      && ps[i].payload[..lead] == ps[0].payload[..lead]
      && (ps[i].payload[lead] & START != 0 <==> i == 0)
      && (ps[i].payload[lead] & END != 0 <==> i == |ps| - 1)
  }

  // The owner of a source installs a callback that sends one packet and says whether to go on.
  // It writes its own headers over the first sixteen bytes of the packet, and nothing else.
  class PacketSink {
    ghost var sent: seq<Packet>
    var calls: nat
    const replies: nat -> bool
    const stamp: (nat, nat) -> byte

    ghost predicate Valid()
      reads this
    {
      calls == |sent|
    }

    method OnPacket(pkt: RtpPacket) returns (ok: bool)
      requires Valid() && pkt.Valid()
      modifies this, pkt.data
      ensures Valid() && pkt.View() == old(pkt.View())
      ensures sent == old(sent) + [old(pkt.View())]
      ensures ok == replies(|old(sent)|)
    {
      sent := sent + [pkt.View()];
      forall i | 0 <= i < PAYLOAD_OFFSET {
        pkt.data[i] := stamp(calls, i);
      }
      ok := replies(calls);
      calls := calls + 1;
    }
  }

  // The sink's history goes from `before` to `after` when the packets `all` are offered to it:
  // everything is sent up to and including the first packet that is refused.
  ghost predicate SentUntilRefused(
    all: seq<Packet>, before: seq<Packet>, after: seq<Packet>, replies: nat -> bool, ok: bool)
  {
    && |before| < |after| <= |before| + |all|
    && after == before + all[..|after| - |before|]
    && (forall k: nat :: |before| <= k < |after| - 1 ==> replies(k))
    && ok == replies(|after| - 1)
    && (ok ==> after == before + all)
  }

  // The first k packets of `all` have been sent on top of the history `before`, and accepted.
  ghost predicate Sending(sink: PacketSink?, all: seq<Packet>, before: seq<Packet>, k: nat)
    requires k <= |all|
    reads sink
  {
    sink != null ==>
      && sink.Valid()
      && sink.sent == before + all[..k]
      && forall j: nat :: |before| <= j < |before| + k ==> sink.replies(j)
  }

  lemma TailOfTail(bytes: seq<byte>, at: nat, n: nat)
    requires at + n <= |bytes|
    ensures bytes[at..][n..] == bytes[at + n..]
  {
  }

  lemma NothingSent(sink: PacketSink?, all: seq<Packet>, before: seq<Packet>)
    requires Sending(sink, all, before, 0)
    ensures sink != null ==> sink.sent == before
  {
    assert before + all[..0] == before;
  }

  // Writes one packet into a buffer: a prefix and n bytes of the frame.
  method Fill(
    packet: RtpPacket, prefix: seq<byte>, frame: array<byte>, from: nat, n: nat, last: bool, timestamp: bv32,
    kind: byte)
    requires packet.data.Length == PACKET_CAPACITY && frame != packet.data
    requires from + n <= frame.Length && |prefix| + n <= MAX_RTP_PAYLOAD_SIZE
    modifies packet, packet.data
    ensures packet.Valid() && packet.View() == Packet(prefix + frame[from..from + n], last, timestamp, kind)
  {
    packet.kind := kind;
    packet.timestamp := timestamp;
    packet.size := PAYLOAD_OFFSET + |prefix| + n;
    packet.last := last;
    forall i | 0 <= i < |prefix| {
      packet.data[PAYLOAD_OFFSET + i] := prefix[i];
    }
    forall i | 0 <= i < n {
      packet.data[PAYLOAD_OFFSET + |prefix| + i] := frame[from + i];
    }
    assert packet.data[PAYLOAD_OFFSET..packet.size] == prefix + frame[from..from + n];
  }

  // One fragment is written into the buffer and offered to the sink, if there is one.
  method SendFragment(
    packet: RtpPacket, sink: PacketSink?, prefix: seq<byte>, frame: array<byte>, at: nat, n: nat, last: bool,
    timestamp: bv32, kind: byte, ghost bytes: seq<byte>, ghost all: seq<Packet>, ghost before: seq<Packet>,
    ghost k: nat)
    returns (accepted: bool)
    requires packet.data.Length == PACKET_CAPACITY && frame != packet.data && bytes == frame[..]
    requires at + n <= frame.Length && |prefix| + n <= MAX_RTP_PAYLOAD_SIZE
    requires k < |all| && last == (k + 1 == |all|) && Sending(sink, all, before, k)
    requires all[k] == Packet(prefix + bytes[at..][..n], last, timestamp, kind)
    modifies packet, packet.data, sink
    ensures bytes == frame[..]
    ensures accepted ==> Sending(sink, all, before, k + 1)
    ensures !accepted ==> sink != null && sink.Valid()
    ensures sink != null && (last || !accepted) ==> SentUntilRefused(all, before, sink.sent, sink.replies, accepted)
  {
    Fill(packet, prefix, frame, at, n, last, timestamp, kind);
    assert frame[at..at + n] == bytes[at..][..n];
    accepted := true;
    if sink != null {
      accepted := sink.OnPacket(packet);
      assert sink.sent == before + all[..k + 1];
    }
  }
}
