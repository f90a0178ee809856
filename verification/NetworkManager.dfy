/** The server's lists of streams, the message that it keeps for its clients, and what a client
    makes of that message. */
module NetworkManager {
  import opened CStrings
  import opened StreamList

  const STREAM_LIST: string := "CMD:STREAM_LIST\r\n"

  datatype OnDemand = OnDemand(stream: Stream, timestamp: int)

  // --- The message ---

  function Pairs(streams: seq<Stream>, prefix: string): (lines: seq<string>) {
    if streams == [] then [] else [prefix + streams[0].name, streams[0].url] + Pairs(streams[1..], prefix)
  }

  function StreamsOf(list: seq<OnDemand>): (r: seq<Stream>)
    ensures |r| == |list| && forall i :: 0 <= i < |r| ==> r[i] == list[i].stream
  {
    seq(|list|, i requires 0 <= i < |list| => list[i].stream)
  }

  function ListLines(live: seq<Stream>, onDemand: seq<OnDemand>): seq<string> {
    Pairs(live, "LIVE:") + Pairs(StreamsOf(onDemand), "")
  }

  function Render(live: seq<Stream>, onDemand: seq<OnDemand>): string {
    STREAM_LIST + Body(ListLines(live, onDemand))
  }

  // --- The client ---

  datatype Received = NotUnderstood | Reply(ok: bool) | OtherCommand | Streams(parse: Parse)

  function Receive(message: string): Received {
    var text := CString(message);
    if !Free(text, "CMD:") then
      if !Free(text, STREAM_LIST) then Streams(Parsed(text[|STREAM_LIST|..])) else OtherCommand
    else if !Free(text, "RESP:") then Reply(!Free(text, "RESP:OK\r\n"))
    else NotUnderstood
  }

  function Names(streams: seq<Stream>, prefix: string): (r: seq<string>)
    ensures |r| == |streams| && forall i :: 0 <= i < |r| ==> r[i] == prefix + streams[i].name
  {
    seq(|streams|, i requires 0 <= i < |streams| => prefix + streams[i].name)
  }

  function Urls(streams: seq<Stream>): (r: seq<string>)
    ensures |r| == |streams| && forall i :: 0 <= i < |r| ==> r[i] == streams[i].url
  {
    seq(|streams|, i requires 0 <= i < |streams| => streams[i].url)
  }

  // No field would break a line or end the text.
  ghost predicate Plain(streams: seq<Stream>) {
    forall i :: 0 <= i < |streams| ==>
      && Free(streams[i].name, CRLF) && Free(streams[i].url, CRLF)
      && '\0' !in streams[i].name && '\0' !in streams[i].url
  }

  ghost predicate Printable(live: seq<Stream>, onDemand: seq<OnDemand>) {
    && (live != [] || onDemand != [])
    && (forall i :: 0 <= i < |live| ==> live[i].url != "")
    && (forall i :: 0 <= i < |onDemand| ==> onDemand[i].stream.name != "" && onDemand[i].stream.url != "")
  }

  lemma TwoMore(a: string, b: string, rest: seq<string>)
    ensures Evens([a, b] + rest) == [a] + Evens(rest) && Odds([a, b] + rest) == [b] + Odds(rest)
  {
    assert ([a, b] + rest)[2..] == rest;
  }

  lemma {:induction false} PairsSplit(streams: seq<Stream>, prefix: string, rest: seq<string>)
    ensures Evens(Pairs(streams, prefix) + rest) == Names(streams, prefix) + Evens(rest)
    ensures Odds(Pairs(streams, prefix) + rest) == Urls(streams) + Odds(rest)
  {
    hide Evens, Odds;
    if streams == [] {
      assert Pairs(streams, prefix) + rest == rest;
    } else {
      var more := Pairs(streams[1..], prefix) + rest;
      PairsSplit(streams[1..], prefix, rest);
      assert Pairs(streams, prefix) + rest == [prefix + streams[0].name, streams[0].url] + more;
      TwoMore(prefix + streams[0].name, streams[0].url, more);
    }
  }

  lemma {:induction false} PairsAt(streams: seq<Stream>, prefix: string)
    ensures var lines := Pairs(streams, prefix);
      && |lines| == 2 * |streams|
      && forall i :: 0 <= i < |streams| ==>
           lines[2 * i] == prefix + streams[i].name && lines[2 * i + 1] == streams[i].url
  {
    if streams != [] {
      PairsAt(streams[1..], prefix);
      var more := Pairs(streams[1..], prefix);
      forall i | 0 < i < |streams|
        ensures Pairs(streams, prefix)[2 * i] == prefix + streams[i].name
        ensures Pairs(streams, prefix)[2 * i + 1] == streams[i].url
      {
        assert more[2 * (i - 1)] == prefix + streams[1..][i - 1].name;
      }
    }
  }

  lemma FreeAfter(prefix: string, s: string)
    requires '\r' !in prefix && Free(s, CRLF)
    ensures Free(prefix + s, CRLF)
  {
    hide Occurs;
    FindShift(prefix, s, CRLF, 0);
    forall i: nat | i < |prefix| ensures !Occurs(prefix + s, CRLF, i) {
      OccursCrlf(prefix + s, i);
      assert (prefix + s)[i] in prefix;
    }
  }

  lemma PairsPlain(streams: seq<Stream>, prefix: string)
    requires Plain(streams) && '\r' !in prefix && '\0' !in prefix
    ensures Lines(Pairs(streams, prefix)) && forall line :: line in Pairs(streams, prefix) ==> '\0' !in line
  {
    hide Free, Pairs;
    PairsAt(streams, prefix);
    var lines := Pairs(streams, prefix);
    forall i | 0 <= i < |lines| ensures Free(lines[i], CRLF) && '\0' !in lines[i] {
      FreeAfter(prefix, streams[i / 2].name);
      assert i == 2 * (i / 2) || i == 2 * (i / 2) + 1;
    }
  }

  lemma PairsNotEmpty(streams: seq<Stream>, prefix: string)
    ensures NoneEmpty(Pairs(streams, prefix)) <==>
      forall i :: 0 <= i < |streams| ==> prefix + streams[i].name != "" && streams[i].url != ""
  {
    hide Pairs;
    PairsAt(streams, prefix);
    var lines := Pairs(streams, prefix);
    forall i | 0 <= i < |streams| && NoneEmpty(lines) ensures prefix + streams[i].name != "" && streams[i].url != "" {
      assert lines[2 * i] != "" && lines[2 * i + 1] != "";
    }
    if forall i :: 0 <= i < |streams| ==> prefix + streams[i].name != "" && streams[i].url != "" {
      forall i | 0 <= i < |lines| ensures lines[i] != "" {
        assert streams[i / 2].url != "";
        assert i == 2 * (i / 2) || i == 2 * (i / 2) + 1;
      }
    }
  }

  lemma ListPlain(live: seq<Stream>, onDemand: seq<OnDemand>)
    requires Plain(live) && Plain(StreamsOf(onDemand))
    ensures var lines := ListLines(live, onDemand);
      && Lines(lines) && (forall line :: line in lines ==> '\0' !in line)
      && (lines != [] && NoneEmpty(lines) <==> Printable(live, onDemand))
  {
    PairsPlain(live, "LIVE:");
    PairsPlain(StreamsOf(onDemand), "");
    PairsNotEmpty(live, "LIVE:");
    PairsNotEmpty(StreamsOf(onDemand), "");
    PairsAt(live, "LIVE:");
    PairsAt(StreamsOf(onDemand), "");
    BothNoneEmpty(Pairs(live, "LIVE:"), Pairs(StreamsOf(onDemand), ""));
    assert forall s: Stream :: "" + s.name == s.name;
    hide Free, Pairs, NoneEmpty;
  }

  lemma BothNoneEmpty(a: seq<string>, b: seq<string>)
    ensures NoneEmpty(a + b) <==> NoneEmpty(a) && NoneEmpty(b)
  {
    assert forall i :: 0 <= i < |a| ==> (a + b)[i] == a[i];
    assert forall i :: 0 <= i < |b| ==> (a + b)[|a| + i] == b[i];
  }

  lemma {:induction false} NoNulInBody(lines: seq<string>)
    requires forall line :: line in lines ==> '\0' !in line
    ensures '\0' !in Body(lines)
  {
    if lines != [] {
      NoNulInBody(lines[1..]);
      assert '\0' !in lines[0];
    }
  }

  // What a client should get: the live names with their mark, the others, and all URLs.
  function Expected(live: seq<Stream>, onDemand: seq<OnDemand>): Received {
    var recorded := StreamsOf(onDemand);
    Streams(Lists(Names(live, "LIVE:") + Names(recorded, ""), Urls(live) + Urls(recorded)))
  }

  lemma PlainRoundTripIff(live: seq<Stream>, onDemand: seq<OnDemand>)
    requires Plain(live) && Plain(StreamsOf(onDemand))
    ensures Receive(Render(live, onDemand)) == Expected(live, onDemand) <==> Printable(live, onDemand)
  {
    hide Parsed, Evens, Odds, Receive, Pairs, Plain, Printable, Body, Names, Urls, Lines, NoneEmpty, StreamsOf;
    var recorded, lines := StreamsOf(onDemand), ListLines(live, onDemand);
    ListPlain(live, onDemand);
    NoNulInBody(lines);
    ReceivedBody(Body(lines));
    RoundTripIff(lines);
    PairsSplit(live, "LIVE:", Pairs(recorded, ""));
    PairsSplit(recorded, "", []);
    EmptyPairs();
    assert Pairs(recorded, "") + [] == Pairs(recorded, "");
  }

  predicate Piece(s: string) { Free(s, CRLF) && '\0' !in s }

  /** Whatever the message, the lists that a client gets from it have no CRLF and no NUL. */
  lemma ReceivedArePieces(message: string)
    requires Receive(message).Streams? && Receive(message).parse.Lists?
    ensures var lists := Receive(message).parse;
      (forall x <- lists.streams :: Piece(x)) && forall x <- lists.urls :: Piece(x)
  {
    CStringClean(message);
    hide Parsed, CString;
    ParsedArePieces(CString(message)[|STREAM_LIST|..]);
  }

  lemma PieceAfter(prefix: string, s: string)
    requires Piece(prefix + s)
    ensures Piece(s)
  {
    FindShift(prefix, s, CRLF, 0);
    forall c | c in s ensures c in prefix + s {
    }
  }

  lemma PiecesPlain(streams: seq<Stream>, prefix: string)
    requires (forall x <- Names(streams, prefix) :: Piece(x)) && forall x <- Urls(streams) :: Piece(x)
    ensures Plain(streams)
  {
    hide Free;
    forall i | 0 <= i < |streams| ensures Piece(streams[i].name) && Piece(streams[i].url) {
      assert Names(streams, prefix)[i] in Names(streams, prefix) && Urls(streams)[i] in Urls(streams);
      PieceAfter(prefix, streams[i].name);
    }
  }

  /** A client gets the server's lists back, live names with their mark, if and only if there is
      a stream, no printed name or URL is empty, and none has a CRLF or a NUL. */
  lemma MessageRoundTripIff(live: seq<Stream>, onDemand: seq<OnDemand>)
    ensures Receive(Render(live, onDemand)) == Expected(live, onDemand)
      <==> Plain(live) && Plain(StreamsOf(onDemand)) && Printable(live, onDemand)
  {
    if Plain(live) && Plain(StreamsOf(onDemand)) {
      PlainRoundTripIff(live, onDemand);
    } else if Receive(Render(live, onDemand)) == Expected(live, onDemand) {
      hide Receive, Render, Piece, Plain;
      ReceivedArePieces(Render(live, onDemand));
      PiecesPlain(live, "LIVE:");
      PiecesPlain(StreamsOf(onDemand), "");
      assert false;
    }
  }

  lemma ReceivedBody(body: string)
    requires '\0' !in body
    ensures Receive(STREAM_LIST + body) == Streams(Parsed(body))
  {
    hide Parsed;
    var text := STREAM_LIST + body;
    CStringWhole(text);
    assert Occurs(text, "CMD:", 0) && Occurs(text, STREAM_LIST, 0);
    assert text[|STREAM_LIST|..] == body;
  }

  // --- The server ---

  ghost predicate UniqueNames(live: seq<Stream>) {
    forall i, j :: 0 <= i < j < |live| ==> live[i].name != live[j].name
  }

  ghost predicate UniqueUrls(list: seq<OnDemand>) {
    forall i, j :: 0 <= i < j < |list| ==> list[i].stream.url != list[j].stream.url
  }

  ghost predicate Sorted(list: seq<OnDemand>) {
    forall i, j :: 0 <= i < j < |list| ==> list[i].timestamp <= list[j].timestamp
  }

  // The library sort may order equal timestamps in any way; here they stay as they were.
  function Sort(list: seq<OnDemand>): (r: seq<OnDemand>)
    ensures Sorted(r) && |r| == |list| && forall o :: o in r <==> o in list
  {
    if list == [] then []
    else
      assert list == [list[0]] + list[1..];
      Insert(list[0], Sort(list[1..]))
  }

  function Insert(o: OnDemand, list: seq<OnDemand>): (r: seq<OnDemand>)
    requires Sorted(list)
    ensures Sorted(r) && |r| == |list| + 1 && forall x :: x in r <==> x == o || x in list
  {
    if list == [] || o.timestamp <= list[0].timestamp then [o] + list
    else
      assert list == [list[0]] + list[1..];
      var rest := Insert(o, list[1..]);
      assert forall i :: 0 <= i < |rest| ==> rest[i] in rest;
      [list[0]] + rest
  }

  lemma {:induction false} SortUnique(list: seq<OnDemand>)
    requires UniqueUrls(list)
    ensures UniqueUrls(Sort(list))
  {
    if list != [] {
      SortUnique(list[1..]);
      forall i | 0 <= i < |Sort(list[1..])| ensures Sort(list[1..])[i].stream.url != list[0].stream.url {
        assert Sort(list[1..])[i] in list[1..];
      }
      InsertUnique(list[0], Sort(list[1..]));
    }
  }

  lemma {:induction false} InsertUnique(o: OnDemand, list: seq<OnDemand>)
    requires Sorted(list) && UniqueUrls(list)
    requires forall i :: 0 <= i < |list| ==> list[i].stream.url != o.stream.url
    ensures UniqueUrls(Insert(o, list))
  {
    if list != [] && o.timestamp > list[0].timestamp {
      InsertUnique(o, list[1..]);
      var rest := Insert(o, list[1..]);
      forall i | 0 <= i < |rest| ensures rest[i].stream.url != list[0].stream.url {
        assert rest[i] in rest;
      }
    }
  }

  function Text(lines: seq<string>): string {
    if lines == [] then "" else lines[0] + CRLF + Text(lines[1..])
  }

  lemma {:induction false} TextAppend(lines: seq<string>, more: seq<string>)
    ensures Text(lines + more) == Text(lines) + Text(more)
  {
    if lines == [] {
      assert lines + more == more;
    } else {
      TextAppend(lines[1..], more);
      assert (lines + more)[1..] == lines[1..] + more;
    }
  }

  lemma {:induction false} BodyIsText(lines: seq<string>)
    ensures Body(lines) == Text(lines) + CRLF
  {
    if lines != [] {
      BodyIsText(lines[1..]);
    }
  }

  lemma {:induction false} PairsOfNext(streams: seq<Stream>, s: Stream, prefix: string)
    ensures Pairs(streams + [s], prefix) == Pairs(streams, prefix) + [prefix + s.name, s.url]
  {
    if streams == [] {
      assert Pairs([s], prefix) == [prefix + s.name, s.url] + Pairs([], prefix);
    } else {
      PairsOfNext(streams[1..], s, prefix);
      assert (streams + [s])[1..] == streams[1..] + [s];
    }
  }

  class NetworkManager {
    var live: seq<Stream>
    var onDemand: seq<OnDemand>
    var message: string

    // The message renders the lists, as soon as there is anything in them.
    ghost predicate Valid()
      reads this
    {
      && UniqueNames(live) && UniqueUrls(onDemand) && Sorted(onDemand)
      && message == if live == [] && onDemand == [] then "" else Render(live, onDemand)
    }

    constructor ()
      ensures Valid() && live == [] && onDemand == []
    {
      live, onDemand, message := [], [], "";
    }

    /** The first stream to use a name keeps it. */
    method UpdateLiveStream(name: string, url: string)
      requires Valid()
      modifies this
      ensures Valid() && |onDemand| == |old(onDemand)| && forall o :: o in onDemand <==> o in old(onDemand)
      ensures live == old(live) + if exists s :: s in old(live) && s.name == name then [] else [Stream(name, url)]
    {
      var i := 0;
      while i < |live|
        invariant 0 <= i <= |live| && forall j :: 0 <= j < i ==> live[j].name != name
      {
        if live[i].name == name {
          assert live[i] in live;
          assert live + [] == live;
          return;
        }
        i := i + 1;
      }
      live := live + [Stream(name, url)];
      SortUnique(onDemand);
      UpdateStreamMessage();
    }

    /** A URL has one entry, with the last name and time it was recorded under. */
    method UpdateOnDemandStream(name: string, url: string, timestamp: int)
      requires Valid()
      modifies this
      ensures Valid() && live == old(live)
      ensures forall o :: o in onDemand <==>
        o == OnDemand(Stream(name, url), timestamp) || (o in old(onDemand) && o.stream.url != url)
    {
      var i, entry := 0, OnDemand(Stream(name, url), timestamp);
      while i < |onDemand| && onDemand[i].stream.url != url
        invariant 0 <= i <= |onDemand| && forall j :: 0 <= j < i ==> onDemand[j].stream.url != url
      {
        i := i + 1;
      }
      if i < |onDemand| {
        onDemand := onDemand[i := entry];
      } else {
        onDemand := onDemand + [entry];
      }
      ghost var list := onDemand;
      Replaced(old(onDemand), i, entry, list);
      hide Sort, Render, UniqueNames;
      UpdateStreamMessage();
    }

    method UpdateStreamMessage()
      requires live != [] || onDemand != []
      modifies this`onDemand, this`message
      ensures onDemand == Sort(old(onDemand)) && message == Render(live, onDemand)
    {
      hide Sort;
      message := STREAM_LIST;
      AddLines(live, "LIVE:");
      onDemand := Sort(onDemand);
      AddLines(StreamsOf(onDemand), "");
      message := message + CRLF;
      TextAppend(Pairs(live, "LIVE:"), Pairs(StreamsOf(onDemand), ""));
      BodyIsText(ListLines(live, onDemand));
    }

    // Adds two lines for each stream.
    method AddLines(streams: seq<Stream>, prefix: string)
      modifies this`message
      ensures message == old(message) + Text(Pairs(streams, prefix))
    {
      var i := 0;
      assert streams[..0] == [] && Text(Pairs([], prefix)) == "";
      hide Text, Pairs;
      while i < |streams|
        invariant 0 <= i <= |streams| && message == old(message) + Text(Pairs(streams[..i], prefix))
      {
        TextOfNext(streams, i, prefix);
        message := message + (prefix + streams[i].name + CRLF);
        message := message + (streams[i].url + CRLF);
        i := i + 1;
      }
      assert streams[..i] == streams;
    }
  }

  lemma TextOfNext(streams: seq<Stream>, i: nat, prefix: string)
    requires i < |streams|
    ensures Text(Pairs(streams[..i + 1], prefix))
      == Text(Pairs(streams[..i], prefix)) + ((prefix + streams[i].name + CRLF) + (streams[i].url + CRLF))
  {
    PairsOfNext(streams[..i], streams[i], prefix);
    assert streams[..i + 1] == streams[..i] + [streams[i]];
    TextAppend(Pairs(streams[..i], prefix), [prefix + streams[i].name, streams[i].url]);
    TwoLines(prefix + streams[i].name, streams[i].url);
  }

  lemma TwoLines(a: string, b: string)
    ensures Text([a, b]) == (a + CRLF) + (b + CRLF)
  {
    assert [a, b][1..] == [b] && [b][1..] == [];
    assert Text([b]) == b + CRLF + Text([]);
    assert Text([a, b]) == a + CRLF + Text([b]);
  }

  // Replacing the entry of a URL, or adding one, keeps URLs unique.
  lemma Replaced(before: seq<OnDemand>, i: nat, entry: OnDemand, list: seq<OnDemand>)
    requires UniqueUrls(before) && i <= |before|
    requires forall j :: 0 <= j < i ==> before[j].stream.url != entry.stream.url
    requires list == if i < |before| then before[i := entry] else before + [entry]
    requires i < |before| ==> before[i].stream.url == entry.stream.url
    ensures UniqueUrls(list) && UniqueUrls(Sort(list))
    ensures forall o :: o in list <==> o == entry || (o in before && o.stream.url != entry.stream.url)
  {
    SortUnique(list);
    assert list[i] == entry;
    forall o | o in before && o.stream.url != entry.stream.url ensures o in list {
      var j :| 0 <= j < |before| && before[j] == o;
      assert list[j] == o;
    }
    forall o | o in list && o != entry ensures o in before && o.stream.url != entry.stream.url {
      var j :| 0 <= j < |list| && list[j] == o;
      assert j != i && before[j] == o;
    }
  }
}
