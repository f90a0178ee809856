/** Finding a NAL unit between two start codes in a byte stream. */
module H264Parser {
  import opened Sequences

  // The first and the last byte of the unit; an empty unit ends before it starts.
  datatype Nal = NoNal | Nal(first: nat, second: nat)

  predicate ThreeAt(data: seq<byte>, p: nat) {
    p + 3 <= |data| && data[p] == 0 && data[p + 1] == 0 && data[p + 2] == 1
  }

  predicate FourAt(data: seq<byte>, p: nat) {
    p + 4 <= |data| && data[p] == 0 && data[p + 1] == 0 && data[p + 2] == 0 && data[p + 3] == 1
  }

  // A start code with at least one byte after it.
  predicate Starts(data: seq<byte>, p: nat) {
    p + 4 <= |data| && (ThreeAt(data, p) || (FourAt(data, p) && p + 5 <= |data|))
  }

  // A code that may end a unit whose own start code had the same length.
  predicate Ends(data: seq<byte>, four: bool, p: nat) {
    p + 4 <= |data| && if four then FourAt(data, p) else ThreeAt(data, p)
  }

  ghost predicate FirstStart(data: seq<byte>, p: nat) {
    Starts(data, p) && forall q: nat :: q < p ==> !Starts(data, q)
  }

  ghost predicate NextEnd(data: seq<byte>, p: nat, q: nat) {
    p < q && Ends(data, FourAt(data, p), q) && forall r :: p < r < q ==> !Ends(data, FourAt(data, p), r)
  }

  // The unit after the start code at p.
  ghost predicate UnitAt(data: seq<byte>, p: nat, first: nat, second: nat) {
    && first == p + (if FourAt(data, p) then 4 else 3)
    && ((second == |data| - 1 && forall q :: p < q ==> !Ends(data, FourAt(data, p), q))
        || NextEnd(data, p, second + 1))
  }

  /** The naive definition: the unit starts after the first start code, and ends before the next
      start code of the same length, or with the data. */
  ghost predicate IsNal(data: seq<byte>, nal: Nal) {
    match nal
    case NoNal => |data| < 5 || forall p: nat :: !Starts(data, p)
    case Nal(first, second) =>
      |data| >= 5 && exists p: nat :: FirstStart(data, p) && UnitAt(data, p, first, second)
  }

  /** The definition leaves no choice. */
  lemma NalUnique(data: seq<byte>, a: Nal, b: Nal)
    requires IsNal(data, a) && IsNal(data, b)
    ensures a == b
  {
    if a.Nal? && b.Nal? {
      var p: nat :| FirstStart(data, p) && UnitAt(data, p, a.first, a.second);
      var r: nat :| FirstStart(data, r) && UnitAt(data, r, b.first, b.second);
      hide Starts, Ends, FourAt;
      assert p == r;
      hide FirstStart;
      assert NextEnd(data, p, a.second + 1) && NextEnd(data, p, b.second + 1) ==> a.second == b.second;
    }
  }

  /** The unit lies inside the data, and only an empty one ends before it starts. */
  lemma NalBounds(data: seq<byte>, nal: Nal)
    requires IsNal(data, nal) && nal.Nal?
    ensures nal.first < |data| && nal.first - 1 <= nal.second < |data|
  {
    var p: nat :| FirstStart(data, p) && UnitAt(data, p, nal.first, nal.second);
    if NextEnd(data, p, nal.second + 1) {
      assert Ends(data, FourAt(data, p), nal.second + 1);
    }
  }

  // The three bytes at pos, rotated.
  ghost predicate Rolls(prefix: seq<byte>, data: seq<byte>, pos: nat) {
    && |prefix| == 3 && pos + 3 <= |data|
    && prefix[pos % 3] == data[pos] && prefix[(pos + 1) % 3] == data[pos + 1] && prefix[(pos + 2) % 3] == data[pos + 2]
  }

  lemma RollsOn(prefix: seq<byte>, data: seq<byte>, pos: nat)
    requires Rolls(prefix, data, pos) && pos + 4 <= |data|
    ensures Rolls(prefix[pos % 3 := data[pos + 3]], data, pos + 1)
  {
  }

  // What is known when everything before pos has been looked at.
  ghost predicate Scanned(data: seq<byte>, nal: Nal, startCode: nat, start: nat, pos: nat) {
    match nal
    case NoNal => forall p: nat :: p < pos ==> !Starts(data, p)
    case Nal(first, second) =>
      && start < pos && FirstStart(data, start) && startCode == (if FourAt(data, start) then 4 else 3)
      && first == start + startCode && second == |data| - 1
      && forall q :: start < q < pos ==> !Ends(data, FourAt(data, start), q)
  }

  method FindNal(data: seq<byte>) returns (nal: Nal)
    ensures IsNal(data, nal)
  {
    if |data| < 5 {
      return NoNal;
    }
    nal := NoNal;
    var startCode, pos, size, d := 0, 0, |data| - 3, 2;
    var prefix := new byte[3](i requires 0 <= i < 3 => data[i]);
    ghost var start := 0;
    while size > 0
      invariant 0 <= size && d == pos + 2 && size + pos == |data| - 3
      invariant Rolls(prefix[..], data, pos)
      invariant Scanned(data, nal, startCode, start, pos)
      decreases size
    {
      size := size - 1;
      if prefix[pos % 3] == 0 && prefix[(pos + 1) % 3] == 0 && prefix[(pos + 2) % 3] == 1 {
        assert ThreeAt(data, pos);
        if nal.NoNal? {
          nal := Nal(d + 1, |data| - 1);
          startCode, start := 3, pos;
        } else if startCode == 3 {
          nal := nal.(second := d - 3);
          assert NextEnd(data, start, pos);
          return;
        }
      } else if prefix[pos % 3] == 0 && prefix[(pos + 1) % 3] == 0 && prefix[(pos + 2) % 3] == 0 {
        assert !ThreeAt(data, pos);
        if data[d + 1] == 1 {
          if nal.NoNal? {
            if size >= 1 {
              nal := Nal(d + 2, |data| - 1);
            } else {
              return;
            }
            startCode, start := 4, pos;
          } else if startCode == 4 {
            nal := nal.(second := d - 3);
            assert NextEnd(data, start, pos);
            return;
          }
        }
      } else {
        assert !ThreeAt(data, pos) && !FourAt(data, pos);
      }
      RollsOn(prefix[..], data, pos);
      d := d + 1;
      prefix[pos % 3] := data[d];
      pos := pos + 1;
    }
  }
}
