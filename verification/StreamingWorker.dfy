/** The client's receiver: it reassembles frames from RTP datagrams and hands them to a decoder. */
module StreamingWorker {
  import opened Sequences
  import opened Rtp

  const MAX_SIZE_PROCESSING_FRAME := 150000
  const MAX_RETRIES := 10

  // What the decoder makes of one buffer: an error, a picture, or success without a picture.
  datatype Decoding = Failed | Picture | Blank

  // The loop goes on, has been left, or has copied a negative number of bytes, after which
  // C++ promises nothing.
  datatype Status = Running | Stopped | Undefined

  // `reopened` is how often the decoder has been closed and opened again.
  datatype Receiver = Receiver(
    buffer: seq<byte>, first: bool, offset: nat, retries: nat, reopened: nat, delivered: seq<seq<byte>>,
    status: Status)

  const START_STATE := Receiver([], false, 0, MAX_RETRIES, 0, [], Running)

  function Reset(r: Receiver): Receiver {
    r.(buffer := [], first := false)
  }

  // One turn of the loop. The k-th buffer handed to the decoder gets the answer decoder(k).
  function Receive(r: Receiver, datagram: seq<byte>, decoder: nat -> Decoding): Receiver {
    if r.status != Running then
      r
    else if |datagram| <= RTP_HEADER_SIZE then
      Reset(r)
    else
      var marker := Marker(datagram);
      var offset := if !marker then 2 else if !r.first then 0 else r.offset;
      var size := |r.buffer| + |datagram| - RTP_HEADER_SIZE - offset;
      var r := r.(first := true, offset := offset);
      if size < 0 || size >= MAX_SIZE_PROCESSING_FRAME then
        Reset(r)
      else if |datagram| < RTP_HEADER_SIZE + offset then
        r.(status := Undefined)
      else
        var r := r.(buffer := r.buffer + datagram[RTP_HEADER_SIZE + offset..]);
        if marker then Decode(r, decoder(|r.delivered|)) else r
  }

  function Decode(r: Receiver, answer: Decoding): Receiver {
    var r := r.(delivered := r.delivered + [r.buffer]);
    match answer
    case Failed =>
      Reset(if r.retries <= 1 then r.(retries := MAX_RETRIES, reopened := r.reopened + 1)
            else r.(retries := r.retries - 1))
    case Blank => r.(status := Stopped)
    case Picture => Reset(r.(retries := MAX_RETRIES))
  }

  function ReceiveAll(r: Receiver, datagrams: seq<seq<byte>>, decoder: nat -> Decoding): Receiver
    decreases datagrams
  {
    if datagrams == [] then r
    else ReceiveAll(Receive(r, datagrams[0], decoder), datagrams[1..], decoder)
  }

  lemma {:induction false} ReceiveAllConcat(r: Receiver, a: seq<seq<byte>>, b: seq<seq<byte>>, decoder: nat -> Decoding)
    ensures ReceiveAll(r, a + b, decoder) == ReceiveAll(ReceiveAll(r, a, decoder), b, decoder)
    decreases a
  {
    if a == [] {
      assert a + b == b;
    } else {
      assert (a + b)[0] == a[0] && (a + b)[1..] == a[1..] + b;
      ReceiveAllConcat(Receive(r, a[0], decoder), a[1..], b, decoder);
    }
  }

  /** The worker: the loop's local variables are its fields. */
  class StreamingWorker {
    const frameData: array<byte>
    var frameSize: int
    var displayFrame: bool
    var firstFrame: bool
    var rtspOffset: nat
    var retries: nat
    var reopened: nat
    var status: Status
    var decoded: nat
    ghost var delivered: seq<seq<byte>>

    ghost predicate Valid()
      reads this
    {
      && frameData.Length == MAX_SIZE_PROCESSING_FRAME
      && 0 <= frameSize < MAX_SIZE_PROCESSING_FRAME
      && (status == Running ==> !displayFrame)
      && decoded == |delivered|
    }

    ghost function View(): Receiver
      requires Valid()
      reads this, frameData
    {
      Receiver(frameData[..frameSize], firstFrame, rtspOffset, retries, reopened, delivered, status)
    }

    constructor ()
      ensures Valid() && View() == START_STATE && fresh(frameData)
    {
      frameData := new byte[MAX_SIZE_PROCESSING_FRAME](_ => 0);
      frameSize, displayFrame, firstFrame, rtspOffset, retries, status := 0, false, false, 0, MAX_RETRIES, Running;
      decoded, reopened, delivered := 0, 0, [];
    }

    method Init()
      requires frameData.Length == MAX_SIZE_PROCESSING_FRAME && decoded == |delivered|
      modifies this
      ensures Valid()
      ensures View()
        == Receiver([], false, old(rtspOffset), old(retries), old(reopened), old(delivered), old(status))
      ensures decoded == old(decoded)
    {
      frameSize, displayFrame, firstFrame := 0, false, false;
    }

    /** One received datagram. */
    method HandleDatagram(datagram: seq<byte>, decoder: nat -> Decoding)
      requires Valid() && status == Running
      modifies this, frameData
      ensures Valid() && View() == Receive(old(View()), datagram, decoder)
    {
      if |datagram| <= RTP_HEADER_SIZE {
        Init();
        return;
      }
      if datagram[1] & 0x80 == 0 {
        if !firstFrame {
          firstFrame := true;
        }
        rtspOffset := 2;
      } else {
        if !firstFrame {
          firstFrame := true;
          rtspOffset := 0;
        }
        displayFrame := true;
      }
      var received := |datagram| - (RTP_HEADER_SIZE + rtspOffset);
      // The comparison is unsigned, so a negative sum is too large as well.
      if frameSize + received < 0 || frameSize + received >= MAX_SIZE_PROCESSING_FRAME {
        Init();
        return;
      }
      if received < 0 {
        displayFrame := false;
        status := Undefined;
        return;
      }
      Collect(datagram[RTP_HEADER_SIZE + rtspOffset..]);
      if displayFrame {
        HandFrame(decoder);
      }
    }

    method Collect(bytes: seq<byte>)
      requires frameData.Length == MAX_SIZE_PROCESSING_FRAME
      requires 0 <= frameSize && frameSize + |bytes| < MAX_SIZE_PROCESSING_FRAME
      modifies this`frameSize, frameData
      ensures frameSize == old(frameSize) + |bytes|
      ensures frameData[..frameSize] == old(frameData[..frameSize]) + bytes
    {
      forall i | 0 <= i < |bytes| {
        frameData[frameSize + i] := bytes[i];
      }
      frameSize := frameSize + |bytes|;
    }

    method HandFrame(decoder: nat -> Decoding)
      requires frameData.Length == MAX_SIZE_PROCESSING_FRAME && 0 <= frameSize < MAX_SIZE_PROCESSING_FRAME
      requires decoded == |delivered| && status == Running
      modifies this
      ensures Valid()
      ensures View() ==
        Decode(old(Receiver(frameData[..frameSize], firstFrame, rtspOffset, retries, reopened, delivered, status)),
               decoder(old(decoded)))
    {
      delivered := delivered + [frameData[..frameSize]];
      decoded := decoded + 1;
      match decoder(decoded - 1)
      case Failed =>
        retries := if retries == 0 then 0 else retries - 1;
        if retries == 0 {
          reopened := reopened + 1;
          retries := MAX_RETRIES;
        }
        Init();
      case Blank =>
        status := Stopped;
      case Picture =>
        retries := MAX_RETRIES;
        Init();
    }

    /** The whole run over the datagrams that arrive. */
    method Run(datagrams: seq<seq<byte>>, decoder: nat -> Decoding)
      requires Valid()
      modifies this, frameData
      ensures Valid() && View() == ReceiveAll(old(View()), datagrams, decoder)
    {
      var i := 0;
      while i < |datagrams| && status == Running
        invariant 0 <= i <= |datagrams| && Valid()
        invariant ReceiveAll(View(), datagrams[i..], decoder) == ReceiveAll(old(View()), datagrams, decoder)
      {
        assert datagrams[i..][1..] == datagrams[i + 1..];
        HandleDatagram(datagrams[i], decoder);
        i := i + 1;
      }
      if status != Running {
        HaltedStays(View(), datagrams[i..], decoder);
      }
    }
  }

  lemma {:induction false} HaltedStays(r: Receiver, datagrams: seq<seq<byte>>, decoder: nat -> Decoding)
    requires r.status != Running
    ensures ReceiveAll(r, datagrams, decoder) == r
  {
    if datagrams != [] {
      HaltedStays(r, datagrams[1..], decoder);
    }
  }

  // Datagrams that a packetizer can emit: only the last of a frame may be short.
  predicate Emittable(datagram: seq<byte>) {
    && RTP_HEADER_SIZE <= |datagram| <= RTP_HEADER_SIZE + MAX_RTP_PAYLOAD_SIZE
    && (!Marker(datagram) ==> |datagram| == RTP_HEADER_SIZE + MAX_RTP_PAYLOAD_SIZE)
  }

  // What is true between two turns of the loop.
  ghost predicate Sane(r: Receiver) {
    && |r.buffer| < MAX_SIZE_PROCESSING_FRAME
    && 0 < r.retries <= MAX_RETRIES
    && (r.status == Running && r.first ==> r.offset == 2 && |r.buffer| > 0)
    && (r.status == Running && !r.first ==> r.buffer == [])
    && forall b <- r.delivered :: |b| < MAX_SIZE_PROCESSING_FRAME
  }

  /** Over every run on datagrams a packetizer can emit, in any order and with any losses, the
      buffer and every delivered frame stay below 150000 bytes, and the offset in force while a
      frame is incomplete is the one for fragments. */
  lemma {:induction false} RunsAreSane(r: Receiver, datagrams: seq<seq<byte>>, decoder: nat -> Decoding)
    requires Sane(r) && forall d <- datagrams :: Emittable(d)
    ensures Sane(ReceiveAll(r, datagrams, decoder))
    decreases datagrams
  {
    if datagrams != [] {
      assert Emittable(datagrams[0]);
      RunsAreSane(Receive(r, datagrams[0], decoder), datagrams[1..], decoder);
    }
  }

  // --- What the decoder's answers do ---

  // How many of the answers before the n-th are failures with nothing else behind them.
  function FailuresBefore(decoder: nat -> Decoding, n: nat): nat {
    if n == 0 || decoder(n - 1) != Failed then 0 else FailuresBefore(decoder, n - 1) + 1
  }

  // How many of the first n answers are the tenth, twentieth and so on in a row of failures.
  function TensIn(decoder: nat -> Decoding, n: nat): nat {
    if n == 0 then 0
    else TensIn(decoder, n - 1) + if decoder(n - 1) == Failed && FailuresBefore(decoder, n) % 10 == 0 then 1 else 0
  }

  ghost predicate Obeys(r: Receiver, decoder: nat -> Decoding) {
    var n := |r.delivered|;
    && (r.status == Stopped <==> n > 0 && decoder(n - 1) == Blank)
    && (forall k :: 0 <= k < n - 1 ==> decoder(k) != Blank)
    && r.reopened == TensIn(decoder, n)
    && (r.status != Stopped ==> r.retries == 10 - FailuresBefore(decoder, n) % 10)
  }

  lemma ReceiveObeys(r: Receiver, d: seq<byte>, decoder: nat -> Decoding)
    requires Obeys(r, decoder)
    ensures Obeys(Receive(r, d, decoder), decoder)
  {
    var next, n := Receive(r, d, decoder), |r.delivered|;
    if |next.delivered| > n {
      NextRow(FailuresBefore(decoder, n));
    }
  }

  lemma NextRow(n: nat)
    ensures (n + 1) % 10 == if n % 10 == 9 then 0 else n % 10 + 1
  {
  }

  /** Over every run from the start: the worker stops exactly when the decoder answers a buffer with
      success and no picture, which is then the last one, and the decoder is closed and opened
      again once for every ten failures in a row. */
  lemma {:induction false} DecoderObeyed(r: Receiver, ds: seq<seq<byte>>, decoder: nat -> Decoding)
    requires r == START_STATE || Obeys(r, decoder)
    ensures Obeys(ReceiveAll(r, ds, decoder), decoder)
    decreases ds
  {
    if ds != [] {
      ReceiveObeys(r, ds[0], decoder);
      DecoderObeyed(Receive(r, ds[0], decoder), ds[1..], decoder);
    }
  }

  predicate Idle(r: Receiver) {
    r.status == Running && r.buffer == [] && !r.first
  }

  /** The turn that handles a marker leaves the receiver idle, unless the decoder answers with
      a blank picture or the turn copies a negative number of bytes. The latter happens if and
      only if the datagram carries a single byte and fragments of an earlier frame are waiting
      for a marker that was lost. */
  lemma MarkerResynchronises(r: Receiver, datagram: seq<byte>, decoder: nat -> Decoding)
    requires Sane(r) && r.status == Running && Emittable(datagram) && Marker(datagram)
    ensures var next := Receive(r, datagram, decoder);
      && (next.status == Undefined <==> r.first && |datagram| == RTP_HEADER_SIZE + 1)
      && (next.status == Running <==> Idle(next))
      && (next.status == Stopped ==> |next.delivered| == |r.delivered| + 1 && decoder(|r.delivered|) == Blank)
  {}

  /** A marker that is lost can be fatal: one fragment, then a frame of a single byte. */
  lemma LostMarkerBeforeTinyFrame(fragment: seq<byte>, tiny: seq<byte>, decoder: nat -> Decoding)
    requires Emittable(fragment) && !Marker(fragment)
    requires Emittable(tiny) && Marker(tiny) && |tiny| == RTP_HEADER_SIZE + 1
    ensures ReceiveAll(START_STATE, [fragment, tiny], decoder).status == Undefined
  {
    var r := Receive(START_STATE, fragment, decoder);
    assert [fragment, tiny][1..] == [tiny];
    assert ReceiveAll(r, [tiny], decoder) == ReceiveAll(Receive(r, tiny, decoder), [], decoder);
  }

  // --- What a history of datagrams leaves ---

  // The bytes a full fragment adds, and how many of them overflow the buffer.
  const FRAGMENT_BODY: nat := MAX_RTP_PAYLOAD_SIZE - 2
  const FRAGMENTS_TO_OVERFLOW: nat := 103

  // How many fragments came after the last marker.
  function Trailing(ds: seq<seq<byte>>): nat {
    if ds == [] || EndsFrame(ds[|ds| - 1]) then 0 else Trailing(ds[..|ds| - 1]) + 1
  }

  // A datagram that ends a frame.
  predicate EndsFrame(d: seq<byte>) {
    |d| < RTP_HEADER_SIZE || Marker(d)
  }

  // A frame of one byte comes while fragments of an earlier frame wait for a marker: some came
  // after the last marker, and they did not just fill the buffer up and empty it.
  predicate Trips(ds: seq<seq<byte>>) {
    ds != [] &&
      var before, d := ds[..|ds| - 1], ds[|ds| - 1];
      Trips(before) || (EndsFrame(d) && |d| == RTP_HEADER_SIZE + 1 && Trailing(before) % FRAGMENTS_TO_OVERFLOW != 0)
  }

  // The receiver holds n full fragments, or none.
  ghost predicate HoldsFragments(r: Receiver, n: nat) {
    && r.status == Running && |r.buffer| == n * FRAGMENT_BODY && n < FRAGMENTS_TO_OVERFLOW
    && (r.first <==> n > 0) && (r.first ==> r.offset == 2)
  }

  lemma ReceiveHolds(r: Receiver, n: nat, d: seq<byte>, decoder: nat -> Decoding)
    requires HoldsFragments(r, n) && Emittable(d) && decoder(|r.delivered|) != Blank
    ensures var next := Receive(r, d, decoder);
      if !Marker(d) then HoldsFragments(next, (n + 1) % FRAGMENTS_TO_OVERFLOW)
      else if |d| == RTP_HEADER_SIZE + 1 && n > 0 then next.status == Undefined
      else HoldsFragments(next, 0)
  {
  }

  lemma ReceiveNone(r: Receiver, decoder: nat -> Decoding)
    requires Idle(r)
    ensures HoldsFragments(ReceiveAll(r, [], decoder), 0)
  {
  }

  lemma ReceiveStuck(r: Receiver, d: seq<byte>, decoder: nat -> Decoding)
    requires r.status == Undefined
    ensures Receive(r, d, decoder) == r
  {
  }

  lemma NextTrailing(n: nat)
    ensures (n % FRAGMENTS_TO_OVERFLOW + 1) % FRAGMENTS_TO_OVERFLOW == (n + 1) % FRAGMENTS_TO_OVERFLOW
  {
  }

  lemma ReceiveLast(r: Receiver, ds: seq<seq<byte>>, decoder: nat -> Decoding)
    requires ds != []
    ensures ReceiveAll(r, ds, decoder) == Receive(ReceiveAll(r, ds[..|ds| - 1], decoder), ds[|ds| - 1], decoder)
  {
    var before, d := ds[..|ds| - 1], ds[|ds| - 1];
    assert ds == before + [d];
    ReceiveAllConcat(r, before, [d], decoder);
    assert [d][1..] == [];
  }

  /** The exact history that is fatal: over every run of datagrams that a packetizer can emit,
      with any losses and in any order, the receiver runs on if and only if no frame of one byte
      came while fragments of an earlier frame were waiting; and it then holds what the
      fragments since the last marker have left. */
  lemma {:induction false} UndefinedIff(r: Receiver, ds: seq<seq<byte>>, decoder: nat -> Decoding)
    requires Idle(r) && (forall d <- ds :: Emittable(d)) && forall k :: decoder(k) != Blank
    ensures var next := ReceiveAll(r, ds, decoder);
      if Trips(ds) then next.status == Undefined
      else HoldsFragments(next, Trailing(ds) % FRAGMENTS_TO_OVERFLOW)
    decreases |ds|
  {
    if ds == [] {
      ReceiveNone(r, decoder);
    } else {
      hide Receive, ReceiveAll, HoldsFragments;
      var before, d := ds[..|ds| - 1], ds[|ds| - 1];
      UndefinedIff(r, before, decoder);
      ReceiveLast(r, ds, decoder);
      var mid := ReceiveAll(r, before, decoder);
      assert Emittable(d);
      if Trips(before) {
        ReceiveStuck(mid, d, decoder);
      } else {
        ReceiveHolds(mid, Trailing(before) % FRAGMENTS_TO_OVERFLOW, d, decoder);
        NextTrailing(Trailing(before));
      }
    }
  }

  /** In particular, a run without frames of one byte never gets there. */
  lemma {:induction false} NoTinyFrameNeverTrips(ds: seq<seq<byte>>)
    requires forall d <- ds :: |d| != RTP_HEADER_SIZE + 1
    ensures !Trips(ds)
  {
    if ds != [] {
      NoTinyFrameNeverTrips(ds[..|ds| - 1]);
      assert ds[|ds| - 1] in ds;
    }
  }
}
