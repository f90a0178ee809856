/** The list of streams as the server prints it and the client parses it. */
module StreamList {
  import opened CStrings

  datatype Stream = Stream(name: string, url: string)

  // --- Printing ---

  function Body(lines: seq<string>): string {
    if lines == [] then CRLF else lines[0] + CRLF + Body(lines[1..])
  }

  // --- Parsing ---

  datatype Parse = Bad | Diverges | Lists(streams: seq<string>, urls: seq<string>)

  /** The lines between `start` and `end`, which is a CRLF. */
  function LinesUpTo(s: string, start: nat, end: nat): seq<string>
    decreases |s| - start
  {
    var k := Find(s, CRLF, start);
    if k < 0 || k >= end then (if start <= end <= |s| then [s[start..end]] else [])
    else [s[start..k]] + LinesUpTo(s, k + 2, end)
  }

  function Evens<T>(s: seq<T>): (r: seq<T>) {
    if s == [] then [] else if |s| == 1 then s else [s[0]] + Evens(s[2..])
  }

  function Odds<T>(s: seq<T>): (r: seq<T>) {
    if |s| < 2 then [] else [s[1]] + Odds(s[2..])
  }

  /** What SetStreamsAndUrls makes of a text: the lines up to the first empty one. */
  function Parsed(s: string): Parse {
    var end := Find(s, CRLF + CRLF, 0);
    if end < 0 then Bad
    else if end == 0 then Lists([], [])
    else if Find(s, CRLF, 0) == 0 then Diverges
    else Lists(Evens(LinesUpTo(s, 0, end)), Odds(LinesUpTo(s, 0, end)))
  }

  // --- Parsing what was printed ---

  ghost predicate Lines(lines: seq<string>) {
    forall i :: 0 <= i < |lines| ==> Free(lines[i], CRLF)
  }

  ghost predicate NoneEmpty(lines: seq<string>) {
    forall i :: 0 <= i < |lines| ==> lines[i] != ""
  }

  lemma BodyStarts(lines: seq<string>, t: string)
    requires lines != []
    ensures Body(lines) + t == lines[0] + CRLF + (Body(lines[1..]) + t)
  {
  }

  lemma BeginsWithCrlf(lines: seq<string>, t: string)
    requires Lines(lines)
    ensures Occurs(Body(lines) + t, CRLF, 0) <==> lines == [] || lines[0] == ""
  {
    if lines == [] {
      OccursCrlf(CRLF + t, 0);
    } else {
      BodyStarts(lines, t);
      LineEnds(lines[0], Body(lines[1..]) + t);
    }
  }

  /** The body ends at the first blank line: the one after the last of its lines. */
  lemma {:induction false} BodyEnds(lines: seq<string>, t: string)
    requires lines != [] && Lines(lines) && NoneEmpty(lines)
    ensures |Body(lines)| >= 4 && Find(Body(lines) + t, CRLF + CRLF, 0) == |Body(lines)| - 4
    decreases lines
  {
    BodyStarts(lines, t);
    FirstBlank(lines[0], Body(lines[1..]) + t);
    BeginsWithCrlf(lines[1..], t);
    if |lines| > 1 {
      BodyEnds(lines[1..], t);
    }
  }

  /** Up to there, the text has the lines it was printed from. */
  lemma {:induction false} BodyLines(lines: seq<string>, p: string, t: string)
    requires lines != [] && Lines(lines) && NoneEmpty(lines)
    ensures |Body(lines)| >= 4
    ensures LinesUpTo(p + (Body(lines) + t), |p|, |p| + |Body(lines)| - 4) == lines
    decreases lines
  {
    hide LinesUpTo, Find, Occurs;
    BodyEnds(lines, t);
    BodyStarts(lines, t);
    var line, rest := lines[0], Body(lines[1..]) + t;
    var s, end := p + (line + CRLF + rest), |p| + |Body(lines)| - 4;
    LineEnds(line, rest);
    FindShift(p, line + CRLF + rest, CRLF, 0);
    NextLine(p, line, rest, end);
    if |lines| > 1 {
      BodyEnds(lines[1..], t);
      BodyLines(lines[1..], p + (line + CRLF), t);
      assert s == p + (line + CRLF) + rest;
    }
  }

  lemma NextLine(p: string, line: string, rest: string, end: nat)
    requires var s := p + (line + CRLF + rest); Find(s, CRLF, |p|) == |p| + |line| <= end <= |s|
    ensures LinesUpTo(p + (line + CRLF + rest), |p|, end)
      == if end == |p| + |line| then [line]
         else [line] + LinesUpTo(p + (line + CRLF + rest), |p| + |line| + 2, end)
  {
    hide Find, Occurs;
    var s := p + (line + CRLF + rest);
    assert s[|p|..|p| + |line|] == line;
  }

  lemma FirstLine(lines: seq<string>, t: string)
    requires lines != [] && Lines(lines)
    ensures Find(Body(lines) + t, CRLF, 0) == |lines[0]| && |Body(lines)| >= |lines[0]| + 4
  {
    hide Find;
    BodyStarts(lines, t);
    LineEnds(lines[0], Body(lines[1..]) + t);
  }

  /** Non-empty lines are parsed back, whatever comes after the blank line that ends them. */
  lemma ParsesBack(lines: seq<string>, t: string)
    requires lines != [] && Lines(lines) && NoneEmpty(lines)
    ensures Parsed(Body(lines) + t) == Lists(Evens(lines), Odds(lines))
  {
    hide LinesUpTo, Evens, Odds, Find, Body, Occurs;
    BodyEnds(lines, t);
    BodyLines(lines, "", t);
    FirstLine(lines, t);
    assert "" + (Body(lines) + t) == Body(lines) + t;
  }

  // How many lines come before the first empty one.
  function Leading(lines: seq<string>): (n: nat)
    ensures n <= |lines| && (n < |lines| ==> lines[n] == "")
    ensures forall i :: 0 <= i < n ==> lines[i] != ""
  {
    if lines == [] || lines[0] == "" then 0 else 1 + Leading(lines[1..])
  }

  lemma {:induction false} BodySplit(lines: seq<string>, n: nat)
    requires n < |lines| && lines[n] == ""
    ensures Body(lines) == Body(lines[..n]) + Body(lines[n + 1..])
  {
    if n > 0 {
      BodySplit(lines[1..], n - 1);
      assert lines[..n][1..] == lines[1..][..n - 1] && lines[1..][n..] == lines[n + 1..];
    }
  }

  // What the client makes of printed lines.
  function Outcome(lines: seq<string>): Parse {
    var n := Leading(lines);
    if lines == [] then Bad
    else if n == 0 && |lines| > 1 && lines[1] != "" then Diverges
    else Lists(Evens(lines[..n]), Odds(lines[..n]))
  }

  /** The client gets the lines before the first empty one; but it rejects an empty list, and
      it never ends when the first line is empty and the next is not. */
  lemma ParsedBody(lines: seq<string>)
    requires Lines(lines)
    ensures Parsed(Body(lines)) == Outcome(lines)
  {
    var n := Leading(lines);
    assert Body(lines) + "" == Body(lines);
    if lines == [] {
      assert Find(CRLF, CRLF + CRLF, 0) < 0;
    } else if n == 0 {
      EmptyFirst(lines);
    } else if n < |lines| {
      hide Parsed, Evens, Odds, Body;
      BodySplit(lines, n);
      ParsesBack(lines[..n], Body(lines[n + 1..]));
    } else {
      hide Parsed, Evens, Odds, Body;
      ParsesBack(lines, "");
      assert lines[..n] == lines;
    }
  }

  lemma EmptyFirst(lines: seq<string>)
    requires lines != [] && lines[0] == "" && Lines(lines)
    ensures Parsed(Body(lines) + "") == if |lines| > 1 && lines[1] != "" then Diverges else Lists([], [])
  {
    hide Find, Body, Occurs, LinesUpTo, Evens, Odds;
    var rest := lines[1..];
    FirstLine(lines, "");
    BodyStarts(lines, "");
    FirstBlank("", Body(rest) + "");
    BeginsWithCrlf(rest, "");
    if |lines| > 1 && lines[1] != "" {
      SomeBlank(rest);
    }
  }

  // A body whose first line is not empty has a blank line.
  lemma SomeBlank(lines: seq<string>)
    requires lines != [] && lines[0] != "" && Lines(lines)
    ensures Find(Body(lines) + "", CRLF + CRLF, 0) >= 0
  {
    var n := Leading(lines);
    if n < |lines| {
      BodySplit(lines, n);
      BodyEnds(lines[..n], Body(lines[n + 1..]));
      assert Body(lines) + "" == Body(lines[..n]) + Body(lines[n + 1..]);
    } else {
      BodyEnds(lines, "");
    }
  }

  lemma {:induction false} EvensAndOdds<T>(s: seq<T>)
    ensures |Evens(s)| + |Odds(s)| == |s|
  {
    if |s| >= 2 {
      EvensAndOdds(s[2..]);
    }
  }

  // A piece of a text has no line break, and no NUL if the text has none.
  predicate PieceOf(s: string, piece: string) { Free(piece, CRLF) && ('\0' !in s ==> '\0' !in piece) }

  lemma CutIsPiece(s: string, start: nat, end: nat)
    requires start <= end <= |s|
    requires Find(s, CRLF, start) < 0 || end <= Find(s, CRLF, start)
    ensures PieceOf(s, s[start..end])
  {
    var cut := s[start..end];
    forall i: nat ensures !Occurs(cut, CRLF, i) {
      OccursCrlf(cut, i);
      OccursCrlf(s, start + i);
    }
  }

  /** Whatever the text, its lines are pieces. */
  lemma {:induction false} LinesArePieces(s: string, start: nat, end: nat)
    ensures forall line <- LinesUpTo(s, start, end) :: PieceOf(s, line)
    decreases |s| - start
  {
    hide Occurs, PieceOf;
    var k := Find(s, CRLF, start);
    if k < 0 || k >= end {
      if start <= end <= |s| {
        CutIsPiece(s, start, end);
      }
    } else {
      OccursCrlf(s, k);
      CutIsPiece(s, start, k);
      LinesArePieces(s, k + 2, end);
    }
  }

  lemma {:induction false} EvensAndOddsIn<T>(s: seq<T>)
    ensures forall x :: x in s <==> x in Evens(s) || x in Odds(s)
  {
    if |s| >= 2 {
      EvensAndOddsIn(s[2..]);
      assert s == [s[0], s[1]] + s[2..];
    }
  }

  /** So are the streams and the URLs that the client gets. */
  lemma ParsedArePieces(s: string)
    requires Parsed(s).Lists?
    ensures (forall x <- Parsed(s).streams :: PieceOf(s, x)) && forall x <- Parsed(s).urls :: PieceOf(s, x)
  {
    var end := Find(s, CRLF + CRLF, 0);
    hide Find, LinesUpTo, PieceOf, Evens, Odds;
    if end > 0 {
      LinesArePieces(s, 0, end);
      EvensAndOddsIn(LinesUpTo(s, 0, end));
    }
  }

  lemma ParsedAreLines(lines: seq<string>)
    requires Parsed(Body(lines)) == Lists(Evens(lines), Odds(lines))
    ensures Lines(lines)
  {
    ParsedArePieces(Body(lines));
    EvensAndOddsIn(lines);
    hide Parsed, Body, Evens, Odds, Free;
    forall i | 0 <= i < |lines| ensures Free(lines[i], CRLF) {
      assert lines[i] in lines;
    }
  }

  /** The client gets back exactly what was printed if and only if there was something to print,
      and no line of it was empty or had a line break in it. */
  lemma RoundTripIff(lines: seq<string>)
    ensures Parsed(Body(lines)) == Lists(Evens(lines), Odds(lines))
      <==> lines != [] && NoneEmpty(lines) && Lines(lines)
  {
    if Lines(lines) {
      ParsedBody(lines);
      var n := Leading(lines);
      EvensAndOdds(lines);
      EvensAndOdds(lines[..n]);
      hide Parsed, Body, Evens, Odds;
      if n == |lines| {
        assert lines[..n] == lines;
      }
    } else if Parsed(Body(lines)) == Lists(Evens(lines), Odds(lines)) {
      ParsedAreLines(lines);
    }
  }

  // --- The parser's loop ---

  lemma {:induction false} PairsAppend<T>(s: seq<T>, x: T)
    ensures |Evens(s)| == |Odds(s)| + |s| % 2
    ensures Evens(s + [x]) == if |s| % 2 == 0 then Evens(s) + [x] else Evens(s)
    ensures Odds(s + [x]) == if |s| % 2 == 0 then Odds(s) else Odds(s) + [x]
  {
    if |s| >= 2 {
      PairsAppend(s[2..], x);
      assert (s + [x])[2..] == s[2..] + [x];
    } else if |s| == 1 {
      assert (s + [x])[2..] == [];
    }
  }

  // Where the turn at `at` starts to read.
  function LineStart(at: nat): nat {
    if at == 0 then 0 else at + 2
  }

  // The next CRLF at or before the blank line.
  lemma NextCrlf(s: string, at: nat, end: nat)
    requires Find(s, CRLF + CRLF, 0) == end && at < end && (at > 0 ==> Occurs(s, CRLF, at))
    ensures LineStart(at) <= Find(s, CRLF, LineStart(at)) <= end <= |s|
    ensures var k := Find(s, CRLF, LineStart(at));
      LinesUpTo(s, LineStart(at), end)
        == if k == end then [s[LineStart(at)..k]] else [s[LineStart(at)..k]] + LinesUpTo(s, k + 2, end)
  {
    hide Occurs, Find;
    OccursTwoCrlf(s, end);
    OccursCrlf(s, end);
    OccursCrlf(s, at);
  }

  /** The source's loop; its turn at a text that starts with a CRLF never moves on, and its
      error for a missing CRLF cannot happen. */
  method SetStreamsAndUrls(s: string) returns (r: Parse)
    ensures r == Parsed(s)
  {
    hide Occurs, LinesUpTo, Evens, Odds, Find;
    var at: nat := 0;
    var end := Find(s, CRLF + CRLF, 0);
    if end < 0 {
      return Bad;
    }
    var streams, urls := [], [];
    ghost var lines := [];
    EmptyPairs();
    while at != end
      invariant 0 <= at <= end && (at > 0 ==> Occurs(s, CRLF, at))
      invariant streams == Evens(lines) && urls == Odds(lines) && (lines == [] <==> at == 0)
      invariant at > 0 ==> Find(s, CRLF, 0) != 0
      invariant LinesUpTo(s, 0, end) ==
        if at == end > 0 then lines else lines + LinesUpTo(s, LineStart(at), end)
      decreases end - at
    {
      NextCrlf(s, at, end);
      var start := LineStart(at);
      var tmp := Find(s, CRLF, start);
      PairsAppend(lines, s[start..tmp]);
      lines := lines + [s[start..tmp]];
      if |streams| == |urls| {
        streams := streams + [s[start..tmp]];
      } else {
        urls := urls + [s[start..tmp]];
      }
      if tmp == at {
        return Diverges;
      }
      at := tmp;
    }
    return Lists(streams, urls);
  }

  lemma EmptyPairs()
    ensures Evens<string>([]) == [] && Odds<string>([]) == []
  {
  }
}
