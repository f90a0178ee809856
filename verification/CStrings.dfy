/** Searching in strings that end at their first NUL. */
module CStrings {

  const CRLF: string := "\r\n"

  predicate Occurs(s: string, pattern: string, i: nat) {
    i + |pattern| <= |s| && s[i..i + |pattern|] == pattern
  }

  /** Where the pattern first occurs from `from` on, or -1. */
  function Find(s: string, pattern: string, from: nat): (r: int)
    ensures -1 <= r
    ensures r >= 0 ==> from <= r && Occurs(s, pattern, r)
    ensures forall i :: from <= i && (r < 0 || i < r) ==> !Occurs(s, pattern, i)
    decreases |s| - from
  {
    if from + |pattern| > |s| then -1
    else if Occurs(s, pattern, from) then from
    else Find(s, pattern, from + 1)
  }

  predicate Free(s: string, pattern: string) {
    Find(s, pattern, 0) < 0
  }

  // What a C function sees of a string.
  function CString(s: string): string {
    if s == "" || s[0] == '\0' then "" else [s[0]] + CString(s[1..])
  }

  lemma {:induction false} CStringWhole(s: string)
    requires '\0' !in s
    ensures CString(s) == s
  {
    if s != "" {
      CStringWhole(s[1..]);
    }
  }

  lemma {:induction false} CStringClean(s: string)
    ensures '\0' !in CString(s)
  {
    if s != "" {
      CStringClean(s[1..]);
    }
  }

  lemma OccursCrlf(s: string, i: nat)
    ensures Occurs(s, CRLF, i) <==> i + 2 <= |s| && s[i] == '\r' && s[i + 1] == '\n'
  {
  }

  lemma OccursTwoCrlf(s: string, i: nat)
    ensures Occurs(s, CRLF + CRLF, i) <==> Occurs(s, CRLF, i) && Occurs(s, CRLF, i + 2)
  {
    OccursCrlf(s, i);
    OccursCrlf(s, i + 2);
    assert CRLF + CRLF == ['\r', '\n', '\r', '\n'];
    if i + 4 <= |s| {
      var t := s[i..i + 4];
      assert t[0] == s[i] && t[1] == s[i + 1] && t[2] == s[i + 2] && t[3] == s[i + 3];
    }
  }

  lemma OccursShift(p: string, s: string, pattern: string, i: nat)
    ensures Occurs(p + s, pattern, |p| + i) <==> Occurs(s, pattern, i)
  {
    if i + |pattern| <= |s| {
      assert (p + s)[|p| + i..|p| + i + |pattern|] == s[i..i + |pattern|];
    }
  }

  /** A prefix shifts what is found after it. */
  lemma FindShift(p: string, s: string, pattern: string, from: nat)
    ensures Find(p + s, pattern, |p| + from)
      == if Find(s, pattern, from) < 0 then -1 else |p| + Find(s, pattern, from)
  {
    hide Occurs;
    var whole, part := Find(p + s, pattern, |p| + from), Find(s, pattern, from);
    if part >= 0 {
      OccursShift(p, s, pattern, part);
    }
    if whole >= 0 {
      OccursShift(p, s, pattern, whole - |p|);
    }
  }

  /** A line ends where its CRLF is, whatever follows. */
  lemma LineEnds(line: string, rest: string)
    requires Free(line, CRLF)
    ensures Find(line + CRLF + rest, CRLF, 0) == |line|
  {
    var s := line + CRLF + rest;
    OccursCrlf(s, |line|);
    forall i: nat | i < |line| ensures !Occurs(s, CRLF, i) {
      OccursCrlf(s, i);
      OccursCrlf(line, i);
    }
  }

  /** After a line, the first blank line is the next one or is in what follows. */
  lemma FirstBlank(line: string, rest: string)
    requires Free(line, CRLF)
    ensures var found := Find(rest, CRLF + CRLF, 0);
      Find(line + CRLF + rest, CRLF + CRLF, 0)
        == if Occurs(rest, CRLF, 0) then |line| else if found < 0 then -1 else |line| + 2 + found
  {
    hide Occurs, Find;
    var s, k := line + CRLF + rest, |line|;
    LineEnds(line, rest);
    forall i: nat | i < k ensures !Occurs(s, CRLF + CRLF, i) {
      OccursTwoCrlf(s, i);
    }
    OccursTwoCrlf(s, k);
    assert |line + CRLF| == k + 2;
    OccursShift(line + CRLF, rest, CRLF, 0);
    OccursTwoCrlf(s, k + 1);
    OccursCrlf(s, k);
    OccursCrlf(s, k + 1);
    FindShift(line + CRLF, rest, CRLF + CRLF, 0);
  }
}
