/** Interleaved binary data on the RTSP connection (section 10.12 of RFC 2326). */
module Interleaved {
  import opened Sequences
  import opened BufferWriter
  import opened WireConservation
  import opened Rtp

  const DOLLAR: byte := 0x24

  datatype Unit = Unit(channel: byte, data: seq<byte>)

  // A dollar sign, the channel, the length as sixteen bits in network order, and the data.
  function Frame(u: Unit): (r: seq<byte>)
    requires |u.data| < 0x1_0000
    ensures |r| == |u.data| + 4
  {
    [DOLLAR, u.channel, (|u.data| / 256) as byte, (|u.data| % 256) as byte] + u.data
  }

  lemma IsFrame(bytes: seq<byte>, u: Unit)
    requires |u.data| < 0x1_0000 && |bytes| == |u.data| + 4
    requires bytes[0] == DOLLAR && bytes[1] == u.channel
    requires bytes[2] == (|u.data| / 256) as byte && bytes[3] == (|u.data| % 256) as byte
    requires bytes[4..] == u.data
    ensures bytes == Frame(u)
  {
    assert bytes == [bytes[0], bytes[1], bytes[2], bytes[3]] + bytes[4..];
  }

  // Text messages go over the same connection: a header that ends with a blank line, and a body
  // whose length it announces.
  type Announced = seq<byte> -> nat

  datatype Part = Binary(unit: Unit) | Message(text: seq<byte>)

  const BLANK_LINE: seq<byte> := [13, 10, 13, 10]

  // How many bytes there are up to the end of the first blank line, or 0 when there is none.
  function HeaderEnd(s: seq<byte>): (n: nat)
    ensures n <= |s| && (n == 0 || n >= 4)
  {
    if |s| < 4 then 0
    else if s[..4] == BLANK_LINE then 4
    else
      var n := HeaderEnd(s[1..]);
      if n == 0 then 0 else n + 1
  }

  ghost predicate Sendable(p: Part, announced: Announced) {
    match p
    case Binary(u) => |u.data| < 0x1_0000
    case Message(t) =>
      && HeaderEnd(t) > 0 && t[0] != DOLLAR
      && |t| == HeaderEnd(t) + announced(t[..HeaderEnd(t)])
  }

  ghost function Bytes(p: Part, announced: Announced): (r: seq<byte>)
    requires Sendable(p, announced)
    ensures r != []
  {
    match p
    case Binary(u) => Frame(u)
    case Message(t) => t
  }

  datatype Deframed = Deframed(parts: seq<Part>, rest: seq<byte>)

  function Length(stream: seq<byte>): nat
    requires |stream| >= 4
  {
    (stream[2] as nat) * 256 + stream[3] as nat
  }

  // How long the first part of a stream is, or 0 when it is not complete.
  function FirstPart(stream: seq<byte>, announced: Announced): (n: nat)
    ensures n <= |stream| && (n > 0 ==> n >= 4)
  {
    if stream == [] then 0
    else if stream[0] == DOLLAR then
      if |stream| < 4 || |stream| < 4 + Length(stream) then 0 else 4 + Length(stream)
    else
      var h := HeaderEnd(stream);
      if h == 0 || |stream| < h + announced(stream[..h]) then 0 else h + announced(stream[..h])
  }

  // What a receiver takes from a stream: all complete parts, and the bytes after them.
  function Deframe(stream: seq<byte>, announced: Announced): Deframed
    decreases |stream|
  {
    var n := FirstPart(stream, announced);
    if n == 0 then Deframed([], stream)
    else
      var part := if stream[0] == DOLLAR then Binary(Unit(stream[1], stream[4..n])) else Message(stream[..n]);
      var later := Deframe(stream[n..], announced);
      later.(parts := [part] + later.parts)
  }

  ghost predicate Framed(packets: Queue, parts: seq<Part>, announced: Announced) {
    && |packets| == |parts|
    && forall i :: 0 <= i < |parts| ==> Sendable(parts[i], announced) && packets[i] == Bytes(parts[i], announced)
  }

  lemma {:induction false} HeaderEndStays(s: seq<byte>, k: nat)
    requires k <= |s|
    ensures HeaderEnd(s[..k]) == if HeaderEnd(s) <= k then HeaderEnd(s) else 0
    decreases |s|
  {
    if |s| >= 4 && k >= 4 {
      assert s[..k][..4] == s[..4];
      HeaderEndStays(s[1..], k - 1);
      assert s[..k][1..] == s[1..][..k - 1];
    }
  }

  lemma FirstFrame(u: Unit, later: seq<byte>, announced: Announced)
    requires |u.data| < 0x1_0000
    ensures FirstPart(Frame(u) + later, announced) == |Frame(u)|
  {
    var stream, n := Frame(u) + later, |u.data|;
    assert Length(stream) == n by {
      ByteReadsBack(n / 256);
      ByteReadsBack(n % 256);
    }
    hide Length;
  }

  lemma FirstMessage(t: seq<byte>, later: seq<byte>, announced: Announced)
    requires Sendable(Message(t), announced)
    ensures FirstPart(t + later, announced) == |t|
  {
    var stream, h := t + later, HeaderEnd(t);
    assert stream[..|t|] == t && stream[..h] == t[..h];
    HeaderEndStays(stream, |t|);
    hide HeaderEnd;
  }

  lemma DeframePart(p: Part, later: seq<byte>, announced: Announced)
    requires Sendable(p, announced)
    ensures var d := Deframe(later, announced);
      Deframe(Bytes(p, announced) + later, announced) == d.(parts := [p] + d.parts)
  {
    hide FirstPart, HeaderEnd;
    var bytes := Bytes(p, announced);
    var stream := bytes + later;
    assert stream[|bytes|..] == later && stream[..|bytes|] == bytes && stream[0] == bytes[0];
    match p {
      case Binary(u) =>
        FirstFrame(u, later, announced);
        assert stream[1] == u.channel && stream[4..|bytes|] == u.data;
      case Message(t) =>
        FirstMessage(t, later, announced);
    }
  }

  lemma CutPart(p: Part, k: nat, announced: Announced)
    requires Sendable(p, announced) && k < |Bytes(p, announced)|
    ensures Deframe(Bytes(p, announced)[..k], announced) == Deframed([], Bytes(p, announced)[..k])
  {
    var bytes := Bytes(p, announced);
    if k > 0 {
      match p {
        case Binary(u) =>
          ByteReadsBack(|u.data| / 256);
          ByteReadsBack(|u.data| % 256);
        case Message(t) =>
          HeaderEndStays(t, k);
          var h := HeaderEnd(t);
          assert h <= k ==> t[..k][..h] == t[..h];
      }
    }
    assert FirstPart(bytes[..k], announced) == 0;
    hide FirstPart;
  }

  lemma {:induction false} DeframeInverts(packets: Queue, parts: seq<Part>, cut: seq<byte>, announced: Announced)
    requires Framed(packets, parts, announced) && Deframe(cut, announced) == Deframed([], cut)
    ensures Deframe(Flatten(packets) + cut, announced) == Deframed(parts, cut)
  {
    hide Deframe, Sendable, Bytes;
    if packets == [] {
      assert Flatten(packets) + cut == cut;
    } else {
      DeframeInverts(packets[1..], parts[1..], cut, announced);
      DeframePart(parts[0], Flatten(packets[1..]) + cut, announced);
      assert Flatten(packets) + cut == Bytes(parts[0], announced) + (Flatten(packets[1..]) + cut);
    }
  }

  /** A receiver that takes apart what has been sent has all accepted packets but those still
      queued, in order. */
  lemma SentDeframes(w: Wire, parts: seq<Part>, announced: Announced)
    requires Conserved(w) && Framed(w.accepted, parts, announced)
    ensures |w.queue| <= |parts|
    ensures Deframe(w.sent, announced).parts == parts[..|parts| - |w.queue|]
    ensures Deframe(w.sent + Flatten(w.queue), announced) == Deframed(parts, [])
  {
    hide Sendable, Bytes, FirstPart;
    var done, part := SentSplits(w);
    if w.queue != [] {
      assert part == Bytes(parts[done], announced)[..|part|];
      CutPart(parts[done], |part|, announced);
    } else {
      NothingToDeframe(announced);
    }
    DeframeInverts(w.accepted[..done], parts[..done], part, announced);
    NothingToDeframe(announced);
    DeframeInverts(w.accepted, parts, [], announced);
    assert Flatten(w.accepted) + [] == Flatten(w.accepted);
  }

  lemma NothingToDeframe(announced: Announced)
    ensures Deframe([], announced) == Deframed([], [])
  {
  }

  /** Whatever the socket does, and whatever whole packets are dropped because the queue is
      full, a receiver that takes the stream apart gets exactly the accepted packets, in order,
      binary ones and messages: at any moment all of them but those still in the queue, and then
      a part of the next. */
  lemma StreamDeframes(ops: seq<Operation>, capacity: nat, parts: seq<Part>, announced: Announced)
    requires Framed(Run(Wire([], [], []), ops, capacity).accepted, parts, announced)
    ensures var w := Run(Wire([], [], []), ops, capacity);
      && |w.queue| <= |parts|
      && Deframe(w.sent, announced).parts == parts[..|parts| - |w.queue|]
      && Deframe(w.sent + Flatten(w.queue), announced) == Deframed(parts, [])
  {
    SentDeframes(Run(Wire([], [], []), ops, capacity), parts, announced);
    hide Run, Deframe, Framed;
  }
}
