/** Cutting an Annex B stream into access units, through a window over the file. */
module H264File {
  import opened Sequences

  // --- The scan ---

  // The length of the start code at p, or 0.
  function StartCode(f: seq<byte>, p: nat): nat
    requires p + 5 < |f|
  {
    if f[p] == 0 && f[p + 1] == 0 && f[p + 2] == 1 then 3
    else if f[p] == 0 && f[p + 1] == 0 && f[p + 2] == 0 && f[p + 3] == 1 then 4
    else 0
  }

  // A slice with its first bit set: the first slice of a picture.
  predicate FirstSlice(f: seq<byte>, p: nat)
    requires p + 5 < |f|
  {
    var code := StartCode(f, p);
    code > 0 && (f[p + code] & 0x1F == 5 || f[p + code] & 0x1F == 1) && f[p + code + 1] & 0x80 == 0x80
  }

  // A parameter set, supplementary information, or the first slice of a picture.
  predicate Boundary(f: seq<byte>, p: nat)
    requires p + 5 < |f|
  {
    var code := StartCode(f, p);
    code > 0 && (f[p + code] & 0x1F == 7 || f[p + code] & 0x1F == 8 || f[p + code] & 0x1F == 6 || FirstSlice(f, p))
  }

  predicate Wanted(f: seq<byte>, p: nat, starting: bool)
    requires p + 5 < |f|
  {
    if starting then FirstSlice(f, p) else Boundary(f, p)
  }

  /** The first wanted position from p on that has five more bytes before `stop`, or `stop`. */
  function First(f: seq<byte>, p: nat, stop: nat, starting: bool): (r: nat)
    requires stop <= |f|
    ensures r == stop || (p <= r && r + 5 < stop && Wanted(f, r, starting))
    ensures forall q :: p <= q < r && q + 5 < stop ==> !Wanted(f, q, starting)
    decreases stop - p
  {
    if p + 5 >= stop then stop
    else if Wanted(f, p, starting) then p
    else First(f, p + 1, stop, starting)
  }

  datatype Outcome = Failed | Frame(cut: nat) | Last(cut: nat)

  /** What one call does at position u when it sees the file up to `stop`. */
  function Read(f: seq<byte>, u: nat, stop: nat, count: nat): (r: Outcome)
    requires u <= stop <= |f|
    ensures r.Frame? ==> u + 4 <= r.cut && r.cut + 5 < stop
  {
    var start := First(f, u, stop, true);
    if start == stop then Failed
    else
      var end := First(f, start + 4, stop, false);
      if end < stop then Frame(end) else if count > 0 then Last(stop) else Failed
  }

  // --- What that is, on the bytes ---

  // The bytes 00 00 01 or 00 00 00 01 are at p, and the header of a NAL unit behind them at h.
  predicate HeaderBehind(f: seq<byte>, p: nat, h: nat) {
    && p <= h < |f|
    && (f[p..h] == [0, 0, 1] || f[p..h] == [0, 0, 0, 1])
  }

  function NalType(header: byte): byte { header & 0x1f }

  // A slice of type 1 or 5 that has the top bit of its next byte set.
  ghost predicate SliceStartsAt(f: seq<byte>, p: nat) {
    exists h: nat ::
      HeaderBehind(f, p, h) && h + 1 < |f| && (NalType(f[h]) == 1 || NalType(f[h]) == 5) && f[h + 1] >= 0x80
  }

  // Such a slice, or a NAL unit of type 6, 7 or 8.
  ghost predicate UnitStartsAt(f: seq<byte>, p: nat) {
    || SliceStartsAt(f, p)
    || exists h: nat :: HeaderBehind(f, p, h) && 6 <= NalType(f[h]) <= 8
  }

  // The first slice from u on that has five more bytes before `stop`.
  ghost predicate IsStart(f: seq<byte>, u: nat, stop: nat, start: nat) {
    && u <= start && start + 5 < stop && SliceStartsAt(f, start)
    && forall p :: u <= p < start ==> !SliceStartsAt(f, p)
  }

  ghost predicate NoStart(f: seq<byte>, u: nat, stop: nat) {
    forall p :: u <= p && p + 5 < stop ==> !SliceStartsAt(f, p)
  }

  // The first unit from there on, at least four bytes behind its start.
  ghost predicate IsEnd(f: seq<byte>, start: nat, stop: nat, end: nat) {
    && start + 4 <= end && end + 5 < stop && UnitStartsAt(f, end)
    && forall p :: start + 4 <= p < end ==> !UnitStartsAt(f, p)
  }

  ghost predicate NoEnd(f: seq<byte>, start: nat, stop: nat) {
    forall p :: start + 4 <= p && p + 5 < stop ==> !UnitStartsAt(f, p)
  }

  /** The frame goes from u to the first unit behind the first slice. Without such a unit it goes to
      the end, but not in the first call of a pass; without a slice there is none. */
  ghost predicate IsRead(f: seq<byte>, u: nat, stop: nat, count: nat, r: Outcome) {
    match r
    case Frame(cut) => exists start: nat :: IsStart(f, u, stop, start) && IsEnd(f, start, stop, cut)
    case Last(cut) =>
      cut == stop && count > 0 && exists start: nat :: IsStart(f, u, stop, start) && NoEnd(f, start, stop)
    case Failed =>
      NoStart(f, u, stop) || (count == 0 && exists start: nat :: IsStart(f, u, stop, start) && NoEnd(f, start, stop))
  }

  lemma WantedIff(f: seq<byte>, p: nat)
    requires p + 5 < |f|
    ensures FirstSlice(f, p) <==> SliceStartsAt(f, p)
    ensures Boundary(f, p) <==> UnitStartsAt(f, p)
  {
    TopBit(f[p + 4]);
    TopBit(f[p + 5]);
    assert f[p] == 0 && f[p + 1] == 0 && f[p + 2] == 1 ==> HeaderBehind(f, p, p + 3);
    assert f[p] == 0 && f[p + 1] == 0 && f[p + 2] == 0 && f[p + 3] == 1 ==> HeaderBehind(f, p, p + 4);
    forall h: nat | HeaderBehind(f, p, h) ensures StartCode(f, p) == h - p {
      var code := f[p..h];
      assert forall i :: 0 <= i < |code| ==> code[i] == f[p + i];
    }
  }

  lemma TopBit(b: byte)
    ensures b & 0x80 == 0x80 <==> b >= 0x80
  {
  }

  lemma FirstIs(f: seq<byte>, p: nat, stop: nat, starting: bool)
    requires stop <= |f|
    ensures var r := First(f, p, stop, starting);
      && (r != stop ==> p <= r && r + 5 < stop && if starting then SliceStartsAt(f, r) else UnitStartsAt(f, r))
      && forall q :: p <= q < r && q + 5 < stop ==> if starting then !SliceStartsAt(f, q) else !UnitStartsAt(f, q)
  {
    hide SliceStartsAt, UnitStartsAt, First, FirstSlice, Boundary;
    var r := First(f, p, stop, starting);
    if r != stop {
      WantedIff(f, r);
    }
    forall q | p <= q < r && q + 5 < stop ensures if starting then !SliceStartsAt(f, q) else !UnitStartsAt(f, q) {
      assert !Wanted(f, q, starting);
      WantedIff(f, q);
    }
  }

  /** A call at u answers exactly this, and nothing else is. */
  lemma ReadIff(f: seq<byte>, u: nat, stop: nat, count: nat, r: Outcome)
    requires u <= stop <= |f|
    ensures Read(f, u, stop, count) == r <==> IsRead(f, u, stop, count, r)
  {
    hide SliceStartsAt, UnitStartsAt, First;
    var start := First(f, u, stop, true);
    FirstIs(f, u, stop, true);
    if start == stop {
      assert NoStart(f, u, stop);
    } else {
      assert IsStart(f, u, stop, start);
      assert forall other: nat :: IsStart(f, u, stop, other) ==> other == start;
      FirstIs(f, start + 4, stop, false);
      var end := First(f, start + 4, stop, false);
      assert end < stop ==> IsEnd(f, start, stop, end);
      assert end == stop ==> NoEnd(f, start, stop);
    }
  }

  // --- Windows ---

  // Where a window of some size at u ends.
  function Stop(f: seq<byte>, u: nat, size: nat): nat {
    if u + size < |f| then u + size else |f|
  }

  // --- The window against the whole file ---

  lemma FirstInWindow(f: seq<byte>, p: nat, stop: nat, starting: bool)
    requires stop <= |f|
    ensures var whole := First(f, p, |f|, starting);
      First(f, p, stop, starting) == if whole + 5 < stop then whole else stop
  {
  }

  // The window shows what decides the call.
  predicate Fits(f: seq<byte>, u: nat, stop: nat, count: nat)
    requires u <= stop <= |f|
  {
    var whole := Read(f, u, |f|, count);
    stop == |f| || whole.Failed? || (whole.Frame? && whole.cut + 5 < stop)
  }

  /** A call through the window cuts where a scan of the whole file does exactly when the
      window reaches five bytes past the cut, or to the end of the file. */
  lemma WindowIsWholeIff(f: seq<byte>, u: nat, stop: nat, count: nat)
    requires u <= stop <= |f|
    ensures Read(f, u, stop, count) == Read(f, u, |f|, count) <==> Fits(f, u, stop, count)
  {
    FirstInWindow(f, u, stop, true);
    var start := First(f, u, |f|, true);
    FirstInWindow(f, start + 4, stop, false);
    hide First;
  }

  // --- A pass over the file ---

  /** The frames of a pass through a window of some size, and whether the pass got to the end. */
  function Pass(f: seq<byte>, size: nat, u: nat, count: nat): (r: (seq<seq<byte>>, bool))
    requires u <= |f|
    decreases |f| - u
  {
    match Read(f, u, Stop(f, u, size), count)
    case Failed => ([], false)
    case Last(cut) => ([f[u..cut]], true)
    case Frame(cut) => var (frames, ended) := Pass(f, size, cut, count + 1); ([f[u..cut]] + frames, ended)
  }

  // Every call of a pass that cuts where the whole file says fits its window.
  predicate AllFit(f: seq<byte>, size: nat, u: nat, count: nat)
    requires u <= |f|
    decreases |f| - u
  {
    var whole := Read(f, u, |f|, count);
    Fits(f, u, Stop(f, u, size), count) && (whole.Frame? ==> AllFit(f, size, whole.cut, count + 1))
  }

  lemma WholeStop(f: seq<byte>, u: nat)
    requires u <= |f|
    ensures Stop(f, u, |f|) == |f|
  {
  }

  /** The frames are those of the whole file exactly when every call fits its window. */
  lemma {:induction false} PassIsWholeIff(f: seq<byte>, size: nat, u: nat, count: nat)
    requires u <= |f|
    ensures Pass(f, size, u, count) == Pass(f, |f|, u, count) <==> AllFit(f, size, u, count)
    decreases |f| - u
  {
    var stop := Stop(f, u, size);
    var whole, window := Read(f, u, |f|, count), Read(f, u, stop, count);
    WholeStop(f, u);
    WindowIsWholeIff(f, u, stop, count);
    hide Read, Fits, Stop;
    if whole == window {
      if whole.Frame? {
        var cut := whole.cut;
        PassIsWholeIff(f, size, cut, count + 1);
        var window, whole := Pass(f, size, cut, count + 1).0, Pass(f, |f|, cut, count + 1).0;
        if [f[u..cut]] + window == [f[u..cut]] + whole {
          CancelHead(f[u..cut], window, whole);
        }
      }
    } else {
      PassesDiffer(f, size, u, count);
    }
  }

  lemma CancelHead<T>(x: T, a: seq<T>, b: seq<T>)
    requires [x] + a == [x] + b
    ensures a == b
  {
    assert a == ([x] + a)[1..];
  }

  lemma PassesDiffer(f: seq<byte>, size: nat, u: nat, count: nat)
    requires u <= |f| && !Fits(f, u, Stop(f, u, size), count)
    ensures Pass(f, size, u, count) != Pass(f, |f|, u, count)
  {
    var stop := Stop(f, u, size);
    WholeStop(f, u);
    WindowIsWholeIff(f, u, stop, count);
    var window, whole := Pass(f, size, u, count).0, Pass(f, |f|, u, count).0;
    hide First;
    assert whole != [];
    if window != [] {
      FirstFrame(f, size, u, count);
      FirstFrame(f, |f|, u, count);
      if Read(f, u, stop, count).Last? && Read(f, u, |f|, count) == Frame(stop) {
        FirstFrame(f, |f|, stop, count + 1);
      }
    }
  }

  // The first frame tells where the first call cut.
  lemma FirstFrame(f: seq<byte>, size: nat, u: nat, count: nat)
    requires u <= |f|
    ensures var (frames, ended) := Pass(f, size, u, count); var r := Read(f, u, Stop(f, u, size), count);
      && (frames == [] ==> r.Failed? && !ended)
      && (frames != [] ==> !r.Failed? && u + |frames[0]| == r.cut)
      && (r.Last? ==> ended && |frames| == 1)
  {
    hide First;
  }

  // --- What a pass returns ---

  /** The frames of any pass are consecutive pieces of the file from where it started, each of
      at least four bytes but for the last one. */
  lemma {:induction false} PassCovers(f: seq<byte>, size: nat, u: nat, count: nat)
    requires u <= |f|
    ensures var (frames, ended) := Pass(f, size, u, count);
      && Flatten(frames) <= f[u..]
      && (forall i :: 0 <= i < |frames| && (i < |frames| - 1 || !ended) ==> |frames[i]| >= 4)
    decreases |f| - u
  {
    var r := Read(f, u, Stop(f, u, size), count);
    hide Read, Stop, First;
    match r {
      case Failed =>
      case Last(cut) => assert Flatten([f[u..cut]]) == f[u..cut] + Flatten<byte>([]);
      case Frame(cut) =>
        PassCovers(f, size, cut, count + 1);
        FlattenFirst(f[u..cut], Pass(f, size, cut, count + 1).0);
        assert f[u..cut] + f[cut..] == f[u..];
    }
  }

  /** A pass that gets to the end with windows that fit returns the whole file. */
  lemma {:induction false} PassReturnsAll(f: seq<byte>, size: nat, u: nat, count: nat)
    requires u <= |f| && AllFit(f, size, u, count) && Pass(f, size, u, count).1
    ensures Flatten(Pass(f, size, u, count).0) == f[u..]
    decreases |f| - u
  {
    var stop := Stop(f, u, size);
    WindowIsWholeIff(f, u, stop, count);
    LastReachesStop(f, u, count);
    var r := Read(f, u, |f|, count);
    hide Read, Stop, First, Fits;
    match r {
      case Last(cut) => assert Flatten([f[u..]]) == f[u..] + Flatten<byte>([]);
      case Frame(cut) =>
        PassReturnsAll(f, size, cut, count + 1);
        FlattenFirst(f[u..cut], Pass(f, size, cut, count + 1).0);
        assert f[u..cut] + f[cut..] == f[u..];
    }
  }

  lemma LastReachesStop(f: seq<byte>, u: nat, count: nat)
    requires u <= |f|
    ensures var r := Read(f, u, |f|, count); r.Last? ==> r.cut == |f|
  {
    hide First;
  }

  // --- The reader ---

  class H264File {
    const file: seq<byte>
    var isOpen: bool
    var position: nat
    const buf: array<byte>
    var bytesUsed: nat
    var count: nat

    ghost predicate Valid()
      reads this
    {
      if isOpen then position == bytesUsed <= |file| else bytesUsed == 0 && count == 0
    }

    constructor (file: seq<byte>, bufSize: nat)
      ensures Valid() && !isOpen && this.file == file && buf.Length == bufSize && fresh(buf)
    {
      this.file := file;
      isOpen, position, bytesUsed, count := false, 0, 0, 0;
      buf := new byte[bufSize];
    }

    method Open(found: bool) returns (ok: bool)
      requires Valid() && !isOpen
      modifies this
      ensures Valid() && isOpen == ok == found && bytesUsed == 0 && count == 0
    {
      isOpen, position := found, 0;
      return found;
    }

    method Close()
      modifies this
      ensures Valid() && !isOpen
    {
      isOpen, count, bytesUsed := false, 0, 0;
    }

    // Fills the window from the current position.
    method Fill() returns (bytesRead: nat)
      requires position <= |file|
      modifies this`position, buf
      ensures position == Stop(file, old(position), buf.Length) == old(position) + bytesRead
      ensures bytesRead <= buf.Length && buf[..bytesRead] == file[old(position)..position]
      ensures bytesRead < buf.Length ==> position == |file|
    {
      bytesRead := Stop(file, position, buf.Length) - position;
      forall i | 0 <= i < bytesRead { buf[i] := file[position + i]; }
      position := position + bytesRead;
    }

    // Fills the window; at the end of the file, from its beginning again.
    method FillOrRewind() returns (bytesRead: nat)
      requires Valid() && isOpen
      modifies this, buf
      ensures isOpen && bytesRead <= buf.Length
      ensures bytesUsed == old(if position < |file| && buf.Length > 0 then bytesUsed else 0)
      ensures count == old(if position < |file| && buf.Length > 0 then count else 0)
      ensures bytesUsed <= |file| && bytesUsed + bytesRead == Stop(file, bytesUsed, buf.Length)
      ensures buf[..bytesRead] == file[bytesUsed..bytesUsed + bytesRead]
      ensures bytesRead == 0 <==> file == [] || buf.Length == 0
    {
      bytesRead := Fill();
      if bytesRead == 0 {
        position := 0;
        count := 0;
        bytesUsed := 0;
        bytesRead := Fill();
      }
    }

    // One scan of the window: the first wanted position from `from` on.
    method Find(from: nat, bytesRead: nat, starting: bool, ghost u: nat) returns (found: bool, i: nat)
      requires bytesRead <= buf.Length && u + bytesRead <= |file|
      requires buf[..bytesRead] == file[u..u + bytesRead]
      ensures var r := First(file, u + from, u + bytesRead, starting);
        if found then r == u + i && i + 5 < bytesRead else r == u + bytesRead
    {
      hide First, Wanted;
      FirstNext(file, u + from, u + bytesRead, starting);
      i := from;
      while i + 5 < bytesRead
        invariant from <= i
        invariant First(file, u + from, u + bytesRead, starting) == First(file, u + i, u + bytesRead, starting)
        decreases bytesRead - i
      {
        FirstNext(file, u + i, u + bytesRead, starting);
        var hit := Wanted(buf[..bytesRead], i, starting);
        SameInWindow(file, u, buf[..bytesRead], i, starting);
        if hit {
          return true, i;
        }
        i := i + 1;
      }
      FirstNext(file, u + i, u + bytesRead, starting);
      return false, i;
    }

    /** One call: the access unit that the scan through the window cuts, as much of it as fits,
        and whether it was the last one, after which reading starts again at the beginning. */
    method ReadFrame(inBuf: array<byte>, inBufSize: nat) returns (size: int, end: bool)
      requires Valid() && inBufSize <= inBuf.Length && inBuf != buf
      modifies this, buf, inBuf
      ensures Valid()
      ensures !old(isOpen) ==> !isOpen && size == -1
      ensures old(isOpen) ==>
        var more := old(position) < |file| && buf.Length > 0;
        var u, c := if more then old(bytesUsed) else 0, if more then old(count) else 0;
        Answers(Read(file, u, Stop(file, u, buf.Length), c), u, c, inBuf[..], inBufSize, size, end)
    {
      hide Read;
      if !isOpen {
        return -1, false;
      }
      var bytesRead := FillOrRewind();
      ghost var u, c := bytesUsed, count;
      if bytesRead == 0 {
        NothingToRead(file, u, c);
        Close();
        return -1, false;
      }
      var found, last, i := Scan(bytesRead, u);
      if !found {
        Close();
        return -1, false;
      }
      size, end := Deliver(inBuf, inBufSize, bytesRead, i, last);
    }

    // Copies the frame out, and moves on behind it.
    method Deliver(
      inBuf: array<byte>, inBufSize: nat, ghost bytesRead: nat, i: nat, last: bool) returns (size: int, end: bool)
      requires isOpen && i <= bytesRead <= buf.Length && bytesUsed + bytesRead <= |file|
      requires buf[..bytesRead] == file[bytesUsed..bytesUsed + bytesRead]
      requires inBufSize <= inBuf.Length && inBuf != buf
      modifies this, inBuf
      ensures Valid()
      ensures var u, c := old(bytesUsed), old(count);
        Answers(if last then Last(u + i) else Frame(u + i), u, c, inBuf[..], inBufSize, size, end)
    {
      size := if i <= inBufSize then i else inBufSize;
      forall k | 0 <= k < size { inBuf[k] := buf[k]; }
      SliceOfSlice(file, bytesUsed, bytesUsed + bytesRead, size);
      assert inBuf[..size] == buf[..bytesRead][..size];
      count, bytesUsed := if last then 0 else count + 1, if last then 0 else bytesUsed + i;
      position := bytesUsed;
      end := last;
    }

    // Both scans of the window: where the frame ends, and whether only the file ends it.
    method Scan(bytesRead: nat, ghost u: nat) returns (found: bool, last: bool, i: nat)
      requires bytesRead <= buf.Length && u + bytesRead <= |file|
      requires buf[..bytesRead] == file[u..u + bytesRead]
      ensures Read(file, u, u + bytesRead, count)
        == if !found then Failed else if last then Last(u + i) else Frame(u + i)
      ensures found ==> i <= bytesRead
    {
      hide First, Wanted;
      var foundStart, start := Find(0, bytesRead, true, u);
      var foundEnd := false;
      i := start;
      if foundStart {
        foundEnd, i := Find(start + 4, bytesRead, false, u);
      }
      last := foundStart && !foundEnd && count > 0;
      if last {
        i := bytesRead;
      }
      found := foundStart && (foundEnd || last);
    }

    // What a call returns and leaves for an outcome of the scan at position u.
    ghost predicate Answers(r: Outcome, u: nat, c: nat, inBuf: seq<byte>, inBufSize: nat, size: int, end: bool)
      reads this
    {
      if r.Failed? then !isOpen && size == -1 && !end
      else
        && isOpen && u <= r.cut <= |file| && end == r.Last?
        && size == (if r.cut - u <= inBufSize then r.cut - u else inBufSize)
        && size <= |inBuf| && inBuf[..size] == file[u..u + size]
        && bytesUsed == (if end then 0 else r.cut) && count == (if end then 0 else c + 1)
    }
  }

  lemma NothingToRead(f: seq<byte>, u: nat, count: nat)
    requires u <= |f|
    ensures Read(f, u, u, count) == Failed
  {
  }

  lemma FirstNext(f: seq<byte>, p: nat, stop: nat, starting: bool)
    requires stop <= |f|
    ensures First(f, p, stop, starting) ==
      if p + 5 >= stop then stop else if Wanted(f, p, starting) then p else First(f, p + 1, stop, starting)
  {
  }

  lemma SameInWindow(f: seq<byte>, u: nat, w: seq<byte>, i: nat, starting: bool)
    requires u + |w| <= |f| && w == f[u..u + |w|] && i + 5 < |w|
    ensures Wanted(w, i, starting) == Wanted(f, u + i, starting)
  {
    assert forall k :: 0 <= k < |w| ==> w[k] == f[u + k];
  }

  /** Calls of ReadFrame until one fails or ends the pass: with an output buffer at least as large
      as the window, the frames they return are those of the pass, and so is how it ends. */
  method ReadPass(reader: H264File, inBuf: array<byte>) returns (frames: seq<seq<byte>>, ended: bool)
    requires reader.Valid() && reader.isOpen && reader.bytesUsed == 0 && reader.count == 0
    requires reader.buf.Length <= inBuf.Length && inBuf != reader.buf
    modifies reader, reader.buf, inBuf
    ensures frames == Pass(reader.file, reader.buf.Length, 0, 0).0
    ensures ended == Pass(reader.file, reader.buf.Length, 0, 0).1
  {
    hide Read, First, Stop, Pass;
    frames := [];
    ghost var f, n := reader.file, reader.buf.Length;
    assert [] + Pass(f, n, 0, 0).0 == Pass(f, n, 0, 0).0;
    while true
      invariant reader.Valid() && reader.isOpen && (reader.bytesUsed == 0 || reader.bytesUsed < |f|)
      invariant reader.bytesUsed == 0 ==> reader.count == 0
      invariant n > 0 || reader.bytesUsed == 0
      invariant Pass(f, n, 0, 0) == Behind(frames, Pass(f, n, reader.bytesUsed, reader.count))
      decreases |f| - reader.bytesUsed
    {
      ghost var u, c := reader.bytesUsed, reader.count;
      CallEnds(f, u, n, c);
      PassNext(f, n, u, c, frames);
      var size, end := reader.ReadFrame(inBuf, inBuf.Length);
      if size < 0 {
        return frames, false;
      }
      frames := frames + [inBuf[..size]];
      if end {
        return frames, true;
      }
    }
  }

  // What a pass returns whose first frames are known.
  function Behind(frames: seq<seq<byte>>, rest: (seq<seq<byte>>, bool)): (seq<seq<byte>>, bool) {
    (frames + rest.0, rest.1)
  }

  lemma PassNext(f: seq<byte>, size: nat, u: nat, count: nat, frames: seq<seq<byte>>)
    requires u <= |f|
    ensures var all := Behind(frames, Pass(f, size, u, count));
      match Read(f, u, Stop(f, u, size), count)
      case Failed => all == (frames, false)
      case Last(cut) => u <= cut <= |f| && all == (frames + [f[u..cut]], true)
      case Frame(cut) =>
        u <= cut <= |f| && all == Behind(frames + [f[u..cut]], Pass(f, size, cut, count + 1))
  {
    hide First;
    match Read(f, u, Stop(f, u, size), count)
    case Failed => assert frames + [] == frames;
    case Last(cut) =>
    case Frame(cut) =>
      var rest := Pass(f, size, cut, count + 1).0;
      assert frames + ([f[u..cut]] + rest) == (frames + [f[u..cut]]) + rest;
  }

  // Where a call of a pass can cut.
  lemma CallEnds(f: seq<byte>, u: nat, size: nat, count: nat)
    requires u <= |f|
    ensures var r := Read(f, u, Stop(f, u, size), count);
      && (r.Frame? ==> u + 4 <= r.cut < |f| && r.cut - u <= size)
      && (r.Last? ==> u <= r.cut && r.cut - u <= size)
  {
    hide First;
  }
}
