/** What a connection's peer sees over a whole run of appends and flushes. */
module WireConservation {
  import opened Sequences
  import opened BufferWriter

  datatype Operation = Append(data: seq<byte>) | Send(replies: seq<Reply>)

  // The packets the queue accepted, the bytes the socket took, and what is still queued.
  datatype Wire = Wire(accepted: Queue, sent: seq<byte>, queue: Queue)

  ghost function Apply(w: Wire, op: Operation, capacity: nat): Wire
    requires Live(w.queue)
  {
    match op
    case Append(data) =>
      var queue := AppendQueue(w.queue, capacity, data);
      w.(queue := queue, accepted := if queue == w.queue then w.accepted else w.accepted + [data])
    case Send(replies) =>
      var f := FlushQueue(w.queue, replies);
      w.(sent := w.sent + f.written, queue := f.left)
  }

  ghost predicate Conserved(w: Wire) {
    w.sent + Flatten(w.queue) == Flatten(w.accepted) && LeftOf(w.queue, w.accepted) && Live(w.accepted)
  }

  ghost function Run(w: Wire, ops: seq<Operation>, capacity: nat): (r: Wire)
    requires Conserved(w)
    ensures Conserved(r)
    decreases ops
  {
    if ops == [] then w
    else
      ApplyConserves(w, ops[0], capacity);
      Run(Apply(w, ops[0], capacity), ops[1..], capacity)
  }

  lemma ApplyConserves(w: Wire, op: Operation, capacity: nat)
    requires Conserved(w)
    ensures Conserved(Apply(w, op, capacity))
  {
    match op
    case Append(data) => AppendConserves(w, data, capacity);
    case Send(replies) => SendConserves(w, replies, capacity);
  }

  lemma AppendConserves(w: Wire, data: seq<byte>, capacity: nat)
    requires Conserved(w)
    ensures Conserved(Apply(w, Append(data), capacity))
  {
    var next := Apply(w, Append(data), capacity);
    if next.queue != w.queue {
      FlattenAppend(w.queue, data);
      FlattenAppend(w.accepted, data);
      assert w.queue != [] ==> next.queue[1..] == w.queue[1..] + [data];
      assert |next.accepted| - |next.queue| == |w.accepted| - |w.queue|;
    }
  }

  lemma SendConserves(w: Wire, replies: seq<Reply>, capacity: nat)
    requires Conserved(w)
    ensures Conserved(Apply(w, Send(replies), capacity))
  {
    var f := FlushQueue(w.queue, replies);
    FlushConserves(w.queue, replies);
    LeftOfTransitive(f.left, w.queue, w.accepted);
    assert (w.sent + f.written) + Flatten(f.left) == w.sent + (f.written + Flatten(f.left));
  }

  lemma LeftOfTransitive(a: Queue, b: Queue, c: Queue)
    requires LeftOf(a, b) && LeftOf(b, c)
    ensures LeftOf(a, c)
  {
    if a != [] {
      var i, j := |b| - |a|, |c| - |a|;
      if i > 0 {
        assert b[i] == b[1..][i - 1] == c[|c| - |b| + 1..][i - 1] == c[j];
        assert b[i + 1..] == b[1..][i..] == c[|c| - |b| + 1..][i..] == c[j + 1..];
      }
    }
  }

  /** Over every run of appends and of partial, blocked or failing sends, starting with an empty
      queue: the bytes sent followed by the bytes still queued are the accepted packets one
      after the other, so at any moment the peer has some of the accepted packets whole, then a
      proper part of the next one, and nothing else. */
  lemma NothingLostOrReordered(ops: seq<Operation>, capacity: nat) returns (done: nat, part: seq<byte>)
    ensures var w := Run(Wire([], [], []), ops, capacity);
      && w.sent + Flatten(w.queue) == Flatten(w.accepted)
      && done + |w.queue| == |w.accepted|
      && w.sent == Flatten(w.accepted[..done]) + part
      && (w.queue == [] ==> part == [])
      && (w.queue != [] ==> |part| < |w.accepted[done]| && w.accepted[done] == part + w.queue[0])
  {
    done, part := SentSplits(Run(Wire([], [], []), ops, capacity));
  }

  lemma SentSplits(w: Wire) returns (done: nat, part: seq<byte>)
    requires Conserved(w)
    ensures done + |w.queue| == |w.accepted| && w.sent == Flatten(w.accepted[..done]) + part
    ensures w.queue == [] ==> part == []
    ensures w.queue != [] ==> |part| < |w.accepted[done]| && w.accepted[done] == part + w.queue[0]
  {
    done := |w.accepted| - |w.queue|;
    var front, back := w.accepted[..done], w.accepted[done..];
    assert w.accepted == front + back;
    FlattenConcat(front, back);
    if w.queue == [] {
      part := [];
      assert back == [];
      assert w.sent == w.sent + Flatten(w.queue);
    } else {
      part := HeadSplit(w.queue, back);
      SplitAround(w.sent, Flatten(front), part, Flatten(w.queue));
    }
  }

  lemma SplitAround<T>(sent: seq<T>, front: seq<T>, part: seq<T>, queued: seq<T>)
    requires sent + queued == front + (part + queued)
    ensures sent == front + part
  {
    assert front + (part + queued) == (front + part) + queued;
    CancelRight(sent, front + part, queued);
  }

  lemma HeadSplit(queue: Queue, whole: Queue) returns (part: seq<byte>)
    requires Live(queue) && queue != [] && whole != [] && queue[1..] == whole[1..] && IsSuffix(queue[0], whole[0])
    ensures whole[0] == part + queue[0] && |part| < |whole[0]|
    ensures Flatten(whole) == part + Flatten(queue)
  {
    part := whole[0][..|whole[0]| - |queue[0]|];
    assert whole[0] == part + queue[0];
    assert (part + queue[0]) + Flatten(queue[1..]) == part + (queue[0] + Flatten(queue[1..]));
  }
}
