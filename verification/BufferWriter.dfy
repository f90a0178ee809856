/** The write queue of a TCP connection: packets wait in it until the socket takes their bytes,
    a few at a time. */
module BufferWriter {
  import opened Sequences

  // What the socket answers: room for so many bytes, "try again later", or an error.
  datatype Reply = Room(bytes: nat) | WouldBlock | Error

  datatype QueuedPacket = QueuedPacket(data: array<byte>, size: nat, writeIndex: nat)

  // What is still to be sent of each packet, seen without the arrays.
  type Queue = seq<seq<byte>>

  ghost predicate Live(queue: Queue) {
    forall i :: 0 <= i < |queue| ==> |queue[i]| > 0
  }

  // What one flush does: the bytes it writes, what stays queued, and the result it reports.
  datatype Flush = Flush(written: seq<byte>, left: Queue, result: int)

  function Min(a: nat, b: nat): nat { if a <= b then a else b }

  // The answers of the socket, in order; a socket with nothing more to say would block.
  ghost function FlushQueue(queue: Queue, replies: seq<Reply>): Flush
    requires Live(queue)
    decreases |queue|
  {
    if queue == [] then Flush([], [], 0)
    else if replies == [] || replies[0] == WouldBlock then Flush([], queue, 0)
    else if replies[0] == Error then Flush([], queue, -1)
    else
      var n := Min(replies[0].bytes, |queue[0]|);
      if n < |queue[0]| then
        Flush(queue[0][..n], [queue[0][n..]] + queue[1..], n)
      else
        var rest := FlushQueue(queue[1..], replies[1..]);
        rest.(written := queue[0] + rest.written)
  }

  // The socket takes the first k packets of the queue whole.
  ghost predicate TakesWhole(queue: Queue, replies: seq<Reply>, k: nat) {
    && k <= |queue| && k <= |replies|
    && forall j :: 0 <= j < k ==> replies[j].Room? && replies[j].bytes >= |queue[j]|
  }

  // It reports an error for some packet, after it has taken all before it.
  ghost predicate SocketFails(queue: Queue, replies: seq<Reply>) {
    exists k: nat :: k < |queue| && k < |replies| && replies[k] == Error && TakesWhole(queue, replies, k)
  }

  // It stops after k packets because there is nothing more, or nothing more is to be had from it.
  ghost predicate StopsAt(queue: Queue, replies: seq<Reply>, k: nat) {
    && TakesWhole(queue, replies, k)
    && (k < |queue| && k < |replies| && replies[k].Room? ==> replies[k].bytes < |queue[k]|)
  }

  // What has been written then, and what is left.
  ghost predicate FlushedAt(queue: Queue, replies: seq<Reply>, k: nat, f: Flush)
    requires k <= |queue|
  {
    if k == |queue| then f.written == Flatten(queue) && f.left == []
    else
      var n := if k < |replies| && replies[k].Room? then Min(replies[k].bytes, |queue[k]|) else 0;
      && f.written == Flatten(queue[..k]) + queue[k][..n]
      && f.left == [queue[k][n..]] + queue[k + 1..]
  }

  /** What a flush writes and leaves, and when its result is negative: whole packets as long as the
      socket has room for them, then as many bytes of the next one as there is room for. A socket
      that would block, or has no more to say, ends it without an error. */
  lemma {:induction false} FlushIs(queue: Queue, replies: seq<Reply>) returns (k: nat)
    requires Live(queue)
    ensures StopsAt(queue, replies, k) && FlushedAt(queue, replies, k, FlushQueue(queue, replies))
    ensures FlushQueue(queue, replies).result < 0 <==> SocketFails(queue, replies)
    decreases |queue|
  {
    if queue != [] && replies != [] && replies[0].Room? && replies[0].bytes >= |queue[0]| {
      var later := FlushIs(queue[1..], replies[1..]);
      hide SocketFails;
      k := later + 1;
      FailsBehind(queue, replies);
      FlushedBehind(queue, replies, later, FlushQueue(queue[1..], replies[1..]));
    } else {
      k := 0;
      FailsAtHead(queue, replies);
      hide SocketFails;
    }
  }

  lemma NegativeIffFails(queue: Queue, replies: seq<Reply>)
    requires Live(queue)
    ensures FlushQueue(queue, replies).result < 0 <==> SocketFails(queue, replies)
  {
    var _ := FlushIs(queue, replies);
  }

  lemma FlushedBehind(queue: Queue, replies: seq<Reply>, later: nat, rest: Flush)
    requires queue != [] && replies != [] && later <= |queue| - 1
    requires FlushedAt(queue[1..], replies[1..], later, rest)
    ensures FlushedAt(queue, replies, later + 1, rest.(written := queue[0] + rest.written))
  {
    if later < |queue| - 1 {
      var front := queue[1..][..later];
      assert queue[..later + 1] == [queue[0]] + front;
      FlattenFirst(queue[0], front);
      assert queue[1..][later + 1..] == queue[later + 2..];
      hide Flatten;
    }
  }

  lemma FailsAtHead(queue: Queue, replies: seq<Reply>)
    requires queue != [] && replies != [] && replies[0].Room? ==> replies[0].bytes < |queue[0]|
    ensures SocketFails(queue, replies) <==> queue != [] && replies != [] && replies[0] == Error
  {
    if queue != [] && replies != [] && replies[0] == Error {
      assert TakesWhole(queue, replies, 0);
    }
  }

  lemma FailsBehind(queue: Queue, replies: seq<Reply>)
    requires queue != [] && replies != [] && replies[0].Room? && replies[0].bytes >= |queue[0]|
    ensures SocketFails(queue, replies) <==> SocketFails(queue[1..], replies[1..])
  {
    if SocketFails(queue, replies) {
      var k: nat :| k < |queue| && k < |replies| && replies[k] == Error && TakesWhole(queue, replies, k);
      assert TakesWhole(queue[1..], replies[1..], k - 1);
    }
    if SocketFails(queue[1..], replies[1..]) {
      var q, r := queue[1..], replies[1..];
      var k: nat :| k < |q| && k < |r| && r[k] == Error && TakesWhole(q, r, k);
      assert TakesWhole(queue, replies, k + 1);
    }
  }

  function AppendQueue(queue: Queue, capacity: nat, data: seq<byte>): Queue {
    if data == [] || |queue| >= capacity then queue else queue + [data]
  }

  predicate IsSuffix<T(==)>(tail: seq<T>, whole: seq<T>) {
    |tail| <= |whole| && tail == whole[|whole| - |tail|..]
  }

  // The queue is what is left of a longer one: whole packets are missing from the front, and
  // of the others only the first can have lost some of its bytes.
  ghost predicate LeftOf(queue: Queue, longer: Queue) {
    && Live(queue)
    && |queue| <= |longer|
    && (queue != [] ==>
      && queue[1..] == longer[|longer| - |queue| + 1..]
      && IsSuffix(queue[0], longer[|longer| - |queue|]))
  }

  /** A flush loses nothing and reorders nothing: what it wrote followed by what is left is
      what was queued. */
  lemma {:induction false} FlushConserves(queue: Queue, replies: seq<Reply>)
    requires Live(queue)
    ensures var f := FlushQueue(queue, replies);
      f.written + Flatten(f.left) == Flatten(queue) && LeftOf(f.left, queue)
    decreases |queue|
  {
    if queue != [] {
      var reply := if replies == [] then WouldBlock else replies[0];
      var t := Turn(queue, reply);
      FlushByTurns(queue, replies);
      if t.again {
        FlushConserves(t.rest, replies[1..]);
        LeftOfTail(FlushQueue(t.rest, replies[1..]).left, queue);
      } else {
        var n := |t.piece|;
        assert queue[0] == t.piece + queue[0][n..] && t.rest == [queue[0][n..]] + queue[1..];
      }
    }
  }

  lemma LeftOfTail(left: Queue, queue: Queue)
    requires queue != [] && LeftOf(left, queue[1..])
    ensures LeftOf(left, queue)
  {
    if left != [] {
      assert queue[1..][|queue| - 1 - |left| + 1..] == queue[|queue| - |left| + 1..];
    }
  }

  ghost function Rest(p: QueuedPacket): (r: seq<byte>)
    requires p.writeIndex < p.size <= p.data.Length
    reads p.data
    ensures |r| == p.size - p.writeIndex
  {
    p.data[p.writeIndex..p.size]
  }

  // One turn of a flush on a queue that is not empty: the bytes written, the queue afterwards,
  // the result, and whether another turn follows.
  datatype Turned = Turned(piece: seq<byte>, rest: Queue, result: int, again: bool)

  ghost function Turn(queue: Queue, reply: Reply): Turned
    requires Live(queue) && queue != []
  {
    match reply
    case Error => Turned([], queue, -1, false)
    case WouldBlock => Turned([], queue, 0, false)
    case Room(bytes) =>
      var n := Min(bytes, |queue[0]|);
      if n == |queue[0]| then Turned(queue[0], queue[1..], n, true)
      else Turned(queue[0][..n], [queue[0][n..]] + queue[1..], n, false)
  }

  lemma FlushByTurns(queue: Queue, replies: seq<Reply>)
    requires Live(queue)
    ensures queue != [] ==>
      var reply := if replies == [] then WouldBlock else replies[0];
      var later := if replies == [] then [] else replies[1..];
      var t := Turn(queue, reply);
      && Live(t.rest)
      && FlushQueue(queue, replies) ==
        if t.again then (var f := FlushQueue(t.rest, later); f.(written := t.piece + f.written))
        else Flush(t.piece, t.rest, t.result)
  {}

  class BufferWriter {
    var buffer: seq<QueuedPacket>
    const capacity: nat

    ghost predicate Valid()
      reads this, Arrays()
    {
      && |buffer| <= capacity
      && forall p <- buffer :: p.writeIndex < p.size <= p.data.Length
    }

    ghost function Arrays(): set<array<byte>>
      reads this
    {
      set p <- buffer :: p.data
    }

    // The queue's meaning: the bytes that are still to be sent of every packet.
    ghost function Pending(): (q: Queue)
      requires Valid()
      reads this, Arrays()
      ensures |q| == |buffer| && Live(q)
    {
      seq(|buffer|, i requires 0 <= i < |buffer| && Valid() reads this, Arrays() => Rest(buffer[i]))
    }

    constructor (capacity: nat)
      ensures Valid() && Pending() == [] && this.capacity == capacity && Arrays() == {}
    {
      this.capacity := capacity;
      buffer := [];
    }

    /** Queues the packet itself: bytes that its owner changes later are sent as changed. */
    method AppendShared(data: array<byte>, size: nat, index: nat) returns (ok: bool)
      requires Valid() && size <= data.Length
      modifies this
      ensures Valid()
      ensures ok == (index < size && |old(buffer)| < capacity)
      ensures Pending() == if ok then old(Pending()) + [data[index..size]] else old(Pending())
      ensures Arrays() == if ok then old(Arrays()) + {data} else old(Arrays())
    {
      if size <= index {
        return false;
      } else if |buffer| >= capacity {
        return false;
      }
      ghost var before := buffer;
      buffer := buffer + [QueuedPacket(data, size, index)];
      assert forall i :: 0 <= i < |before| ==> buffer[i] == before[i];
      return true;
    }

    /** Queues a copy, so the caller's buffer can be used again at once. */
    method AppendCopy(data: array<byte>, size: nat, index: nat) returns (ok: bool)
      requires Valid() && size <= data.Length
      modifies this
      ensures Valid()
      ensures ok == (index < size && |old(buffer)| < capacity)
      ensures Pending() == if ok then old(Pending()) + [data[index..size]] else old(Pending())
      ensures index <= size ==> Pending() == AppendQueue(old(Pending()), capacity, data[index..size])
      ensures fresh(Arrays() - old(Arrays())) && old(Arrays()) <= Arrays()
    {
      if size <= index {
        return false;
      } else if |buffer| >= capacity {
        return false;
      }
      var copy := new byte[size + 512](_ => 0);
      forall i | 0 <= i < size {
        copy[i] := data[i];
      }
      assert copy[index..size] == data[index..size];
      ok := AppendShared(copy, size, index);
    }

    // One call of the socket's send.
    method SendFront(reply: Reply) returns (result: int, again: bool, ghost piece: seq<byte>)
      requires Valid() && buffer != []
      modifies this
      ensures Valid() && Arrays() <= old(Arrays())
      ensures Turned(piece, Pending(), result, again) == Turn(old(Pending()), reply)
      ensures |buffer| == |old(buffer)| - if again then 1 else 0
    {
      var packet := buffer[0];
      ghost var queue := Pending();
      match reply {
        case Room(bytes) =>
          var n := Min(bytes, packet.size - packet.writeIndex);
          piece := packet.data[packet.writeIndex..packet.writeIndex + n];
          SliceOfSlice(packet.data[..], packet.writeIndex, packet.size, n);
          assert queue[0] == packet.data[..][packet.writeIndex..packet.size];
          if packet.size == packet.writeIndex + n {
            buffer := buffer[1..];
            assert Pending() == queue[1..];
            return n, true, piece;
          } else {
            buffer := buffer[0 := packet.(writeIndex := packet.writeIndex + n)];
            assert Pending() == [queue[0][n..]] + queue[1..];
            assert piece == queue[0][..n];
            return n, false, piece;
          }
        case WouldBlock =>
          return 0, false, [];
        case Error =>
          return -1, false, [];
      }
    }

    /** Hands the queue to the socket. Each turn after the first is there because the previous
        one finished a packet. The result is negative only when the socket failed. */
    method Send(replies: seq<Reply>) returns (result: int, ghost written: seq<byte>)
      requires Valid()
      modifies this
      ensures Valid() && Arrays() <= old(Arrays())
      ensures Flush(written, Pending(), result) == FlushQueue(old(Pending()), replies)
    {
      result, written := 0, [];
      var count, k := 1, 0;
      ghost var all := FlushQueue(Pending(), replies);
      while count > 0
        invariant 0 <= count <= 1 && k <= |replies| && Valid() && Arrays() <= old(Arrays())
        invariant count > 0 ==>
          var f := FlushQueue(Pending(), replies[k..]); all == f.(written := written + f.written)
        invariant count == 0 ==> all == Flush(written, Pending(), result)
        decreases |buffer|, count
      {
        if buffer == [] {
          return 0, written;
        }
        count := count - 1;
        FlushByTurns(Pending(), replies[k..]);
        var again;
        ghost var piece;
        result, again, piece := SendFront(if k < |replies| then replies[k] else WouldBlock);
        k := if k < |replies| then k + 1 else k;
        written := written + piece;
        if again {
          count := count + 1;
        }
      }
    }
  }
}
