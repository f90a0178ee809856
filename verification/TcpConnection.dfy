/** The write side of a TCP connection as a protocol between threads: senders append under a
    mutex and then try to flush, the event loop flushes when the socket is writable, and a
    reader holds the same mutex while it reads. Every step below is one atomic action. */
module TcpConnection {
  import opened Sequences
  import opened BufferWriter
  import opened WireConservation

  const QUEUE_CAPACITY := 500

  // Where a thread is. From `Appending` on, the names say what it has done last.
  datatype Pc =
    | Idle
    | SawOpen             // in Send, before taking the mutex
    | Appending           // holds the mutex
    | Appended            // holds the mutex
    | Flushing            // at the start of HandleWrite
    | Trying              // saw the connection open, before try_lock
    | Writing             // holds the mutex
    | Wrote(empty: bool)  // holds the mutex, and has asked whether the queue is empty
    | WriteFailed         // holds the mutex
    | Updated             // holds the mutex, about to release it
    | Reading             // holds the mutex in HandleRead or Disconnect

  datatype Holder = Free | HeldBy(thread: nat)

  // `interest` is whether the event loop watches the socket for writing.
  datatype State = State(open: bool, holder: Holder, wire: Wire, interest: bool, pcs: seq<Pc>)

  datatype Action =
    | StartSend | Lock | AppendData(data: seq<byte>) | UnlockAppend
    | StartWrite | CheckOpen | TryLock | Flush(replies: seq<Reply>) | Close | UpdateInterest | Unlock
    | StartRead | CloseInRead | EndRead
    | PostedClose  // what Disconnect has the event loop do later, without the mutex

  predicate Holding(pc: Pc) {
    pc.Appending? || pc.Appended? || pc.Writing? || pc.Wrote? || pc.WriteFailed? || pc.Updated? || pc.Reading?
  }

  // Between taking the mutex to append and having finished the flush that follows.
  predicate InFlight(pc: Pc) {
    pc.Appending? || pc.Appended? || pc.Flushing? || pc.Trying? || pc.Writing? || pc.Wrote? || pc.WriteFailed?
  }

  ghost function At(s: State, t: nat, pc: Pc): State
    requires t < |s.pcs|
  {
    s.(pcs := s.pcs[t := pc])
  }

  /** One action of thread t; an action that its place in the code does not allow does nothing. */
  ghost function Step(s: State, t: nat, a: Action): (r: State)
    requires t < |s.pcs| && Live(s.wire.queue)
    ensures |r.pcs| == |s.pcs|
  {
    match (s.pcs[t], a)
    case (Idle, StartSend) => if s.open then At(s, t, SawOpen) else s
    case (SawOpen, Lock) => if s.holder == Free then At(s.(holder := HeldBy(t)), t, Appending) else s
    case (Appending, AppendData(data)) => At(s.(wire := Apply(s.wire, Append(data), QUEUE_CAPACITY)), t, Appended)
    case (Appended, UnlockAppend) => At(s.(holder := Free), t, Flushing)
    case (Idle, StartWrite) => At(s, t, Flushing)
    case (Flushing, CheckOpen) => At(s, t, if s.open then Trying else Idle)
    case (Trying, TryLock) => if s.holder == Free then At(s.(holder := HeldBy(t)), t, Writing) else At(s, t, Idle)
    case (Writing, Flush(replies)) =>
      var wire := Apply(s.wire, Send(replies), QUEUE_CAPACITY);
      var failed := FlushQueue(s.wire.queue, replies).result < 0;
      At(s.(wire := wire), t, if failed then WriteFailed else Wrote(wire.queue == []))
    case (WriteFailed, Close) => At(s.(open := false), t, Updated)
    case (Wrote(empty), UpdateInterest) => At(s.(interest := !empty), t, Updated)
    case (Updated, Unlock) => At(s.(holder := Free), t, Idle)
    case (Idle, StartRead) => if s.holder == Free then At(s.(holder := HeldBy(t)), t, Reading) else s
    case (Reading, CloseInRead) => s.(open := false)
    case (Idle, PostedClose) => s.(open := false)
    case (Reading, EndRead) => At(s.(holder := Free), t, Idle)
    case _ => s
  }

  ghost predicate Exclusive(s: State) {
    && (s.holder.HeldBy? ==> s.holder.thread < |s.pcs|)
    && forall t :: 0 <= t < |s.pcs| ==> (Holding(s.pcs[t]) <==> s.holder == HeldBy(t))
  }

  // There is something to send, and nobody will: neither the event loop nor a thread at work.
  ghost predicate Stranded(s: State) {
    s.open && s.wire.queue != [] && !s.interest && forall t :: 0 <= t < |s.pcs| ==> !InFlight(s.pcs[t])
  }

  // What a thread knows while it holds the mutex.
  ghost predicate Knows(s: State, pc: Pc) {
    && (pc.Wrote? ==> pc.empty == (s.wire.queue == []))
    && (pc.Updated? && s.open && s.wire.queue != [] ==> s.interest)
  }

  ghost predicate Consistent(s: State) {
    && Conserved(s.wire)
    && Exclusive(s)
    && forall t :: 0 <= t < |s.pcs| ==> Knows(s, s.pcs[t])
  }

  /** Whatever the threads do, at most one of them is inside the mutex, no byte is lost,
      repeated or reordered on the wire, and what a holder has seen of the queue stays true. */
  lemma StepConsistent(s: State, t: nat, a: Action)
    requires Consistent(s) && t < |s.pcs|
    ensures Consistent(Step(s, t, a))
  {
    StepConserves(s, t, a);
    StepExclusive(s, t, a);
    StepKnows(s, t, a);
    hide Step, Conserved, Exclusive, Knows;
  }

  lemma StepConserves(s: State, t: nat, a: Action)
    requires Conserved(s.wire) && t < |s.pcs|
    ensures Conserved(Step(s, t, a).wire)
  {
    hide Conserved, Apply;
    match (s.pcs[t], a) {
      case (Appending, AppendData(data)) =>
        ApplyConserves(s.wire, Append(data), QUEUE_CAPACITY);
      case (Writing, Flush(replies)) =>
        ApplyConserves(s.wire, Send(replies), QUEUE_CAPACITY);
      case _ =>
    }
  }

  lemma StepExclusive(s: State, t: nat, a: Action)
    requires Live(s.wire.queue) && Exclusive(s) && t < |s.pcs|
    ensures Exclusive(Step(s, t, a))
  {
    hide Apply, FlushQueue;
  }

  lemma StepKnows(s: State, t: nat, a: Action)
    requires Live(s.wire.queue) && Exclusive(s) && t < |s.pcs|
    requires forall u :: 0 <= u < |s.pcs| ==> Knows(s, s.pcs[u])
    ensures var next := Step(s, t, a); forall u :: 0 <= u < |s.pcs| ==> Knows(next, next.pcs[u])
  {
    hide Apply, FlushQueue;
    var next := Step(s, t, a);
    forall u | 0 <= u < |s.pcs| ensures Knows(next, next.pcs[u]) {
      assert Knows(s, s.pcs[u]);
    }
  }

  // A flush that gives up because a reader has the mutex.
  ghost predicate BlockedByReader(s: State, t: nat, a: Action)
    requires t < |s.pcs|
  {
    && s.pcs[t] == Trying && a == TryLock
    && exists u :: 0 <= u < |s.pcs| && s.holder == HeldBy(u) && s.pcs[u] == Reading
  }

  lemma InFlightStays(s: State, t: nat, a: Action, u: nat)
    requires Consistent(s) && t < |s.pcs| && u < |s.pcs| && InFlight(s.pcs[u])
    requires u != t || !(s.pcs[t] == Trying && a == TryLock)
    ensures !Stranded(Step(s, t, a))
  {
    var next := Step(s, t, a);
    if u != t {
      assert InFlight(next.pcs[u]);
    } else {
      assert next.pcs[t] == Idle || next.pcs[t] == Updated || InFlight(next.pcs[t]);
      StepConsistent(s, t, a);
      assert Knows(next, next.pcs[t]);
    }
  }

  /** One step turns a state in which no write is stranded into one where a write is, if and
      only if it is a flush that gives up because a reader holds the mutex while there is
      something to send, the event loop does not watch the socket, and no other thread is on
      its way to flush. */
  lemma StrandedOnlyByReader(s: State, t: nat, a: Action)
    requires Consistent(s) && t < |s.pcs| && !Stranded(s)
    ensures Stranded(Step(s, t, a)) <==>
      && BlockedByReader(s, t, a)
      && s.open && s.wire.queue != [] && !s.interest
      && forall u :: 0 <= u < |s.pcs| && u != t ==> !InFlight(s.pcs[u])
  {
    var next := Step(s, t, a);
    if s.pcs[t] == Trying && a == TryLock {
      if s.holder == Free {
        assert InFlight(next.pcs[t]);
      } else {
        GivingUp(s, t);
      }
    } else if u :| 0 <= u < |s.pcs| && InFlight(s.pcs[u]) {
      InFlightStays(s, t, a, u);
    } else {
      assert next.pcs[t] == Idle || InFlight(next.pcs[t]) || next.wire == s.wire;
    }
  }

  lemma GivingUp(s: State, t: nat)
    requires Consistent(s) && t < |s.pcs| && s.pcs[t] == Trying && s.holder != Free
    ensures Stranded(Step(s, t, TryLock)) <==>
      && BlockedByReader(s, t, TryLock)
      && s.open && s.wire.queue != [] && !s.interest
      && forall u :: 0 <= u < |s.pcs| && u != t ==> !InFlight(s.pcs[u])
  {
    var next, u := Step(s, t, TryLock), s.holder.thread;
    assert next.pcs == s.pcs[t := Idle] && Holding(s.pcs[u]) && u != t;
    assert Knows(s, s.pcs[u]) && next.pcs[u] == s.pcs[u];
    if s.pcs[u] == Reading {
      assert BlockedByReader(s, t, TryLock);
      assert forall v :: 0 <= v < |s.pcs| && v != t ==> next.pcs[v] == s.pcs[v];
    } else {
      assert InFlight(next.pcs[u]) || (s.pcs[u] == Updated && !Stranded(next));
      assert !BlockedByReader(s, t, TryLock);
    }
  }

  datatype Turn = Turn(thread: nat, action: Action)

  ghost function Run(s: State, turns: seq<Turn>): (r: State)
    requires Consistent(s) && forall i :: 0 <= i < |turns| ==> turns[i].thread < |s.pcs|
    ensures Consistent(r) && |r.pcs| == |s.pcs|
    decreases turns
  {
    if turns == [] then s
    else
      StepConsistent(s, turns[0].thread, turns[0].action);
      Run(Step(s, turns[0].thread, turns[0].action), turns[1..])
  }

  // No flush of the run gives up because of a reader.
  ghost predicate ReadersDoNotBlock(s: State, turns: seq<Turn>)
    requires Consistent(s) && forall i :: 0 <= i < |turns| ==> turns[i].thread < |s.pcs|
    decreases turns
  {
    turns == [] || (
      StepConsistent(s, turns[0].thread, turns[0].action);
      !BlockedByReader(s, turns[0].thread, turns[0].action)
      && ReadersDoNotBlock(Step(s, turns[0].thread, turns[0].action), turns[1..]))
  }

  function Initial(threads: nat): State {
    State(true, Free, Wire([], [], []), false, seq(threads, _ => Idle))
  }

  /** No lost write: in every interleaving of any number of senders with the event loop, in
      which no flush gives up because of a reader, a queue that is not empty is either watched
      by the event loop or some thread is on its way to flush it. */
  lemma {:induction false} NoLostWrite(s: State, turns: seq<Turn>)
    requires Consistent(s) && !Stranded(s) && forall i :: 0 <= i < |turns| ==> turns[i].thread < |s.pcs|
    requires ReadersDoNotBlock(s, turns)
    ensures !Stranded(Run(s, turns))
    decreases turns
  {
    if turns != [] {
      var t, a := turns[0].thread, turns[0].action;
      StepConsistent(s, t, a);
      StrandedOnlyByReader(s, t, a);
      NoLostWrite(Step(s, t, a), turns[1..]);
    }
  }

  /** In particular, when every thread has come to rest, an open connection with something to
      send is watched for writing. */
  lemma AtRestMeansWatched(threads: nat, turns: seq<Turn>)
    requires forall i :: 0 <= i < |turns| ==> turns[i].thread < threads
    ensures Consistent(Initial(threads))
    ensures var s := Run(Initial(threads), turns);
      (&& ReadersDoNotBlock(Initial(threads), turns)
       && s.open && (forall t :: 0 <= t < threads ==> s.pcs[t] == Idle) && s.wire.queue != []) ==> s.interest
  {
    InitialConsistent(threads);
    if ReadersDoNotBlock(Initial(threads), turns) {
      NoLostWrite(Initial(threads), turns);
    }
  }

  lemma InitialConsistent(threads: nat)
    ensures Consistent(Initial(threads)) && !Stranded(Initial(threads))
  {
    assert Flatten<byte>([]) == [];
  }

  // Two threads, an open connection that is not watched, and a queue.
  ghost predicate Scene(s: State, sender: Pc, reader: Pc, holder: Holder, queue: Queue) {
    && s.open && !s.interest && |s.pcs| == 2 && s.pcs[0] == sender && s.pcs[1] == reader
    && s.holder == holder && s.wire.queue == queue
  }

  lemma RunOne(s: State, turns: seq<Turn>)
    requires Consistent(s) && turns != [] && forall i :: 0 <= i < |turns| ==> turns[i].thread < |s.pcs|
    ensures var next := Step(s, turns[0].thread, turns[0].action);
      Consistent(next) && Live(next.wire.queue) && Run(s, turns) == Run(next, turns[1..])
  {
    StepConsistent(s, turns[0].thread, turns[0].action);
  }

  function Appends(data: seq<byte>): seq<Turn> {
    [Turn(0, StartSend), Turn(0, Lock), Turn(0, AppendData(data)), Turn(0, UnlockAppend)]
  }

  function Reads(): seq<Turn> {
    [Turn(1, StartRead), Turn(0, CheckOpen), Turn(0, TryLock), Turn(1, EndRead)]
  }

  lemma SenderAppends(s: State, data: seq<byte>, turns: seq<Turn>) returns (next: State)
    requires Consistent(s) && Scene(s, Idle, Idle, Free, []) && data != []
    requires |turns| >= 4 && forall i :: 0 <= i < |turns| ==> turns[i].thread < 2
    requires turns[..4] == Appends(data)
    ensures Consistent(next) && Scene(next, Flushing, Idle, Free, [data])
    ensures Run(s, turns) == Run(next, turns[4..])
  {
    hide Consistent, Run;
    assert forall i :: 0 <= i < 4 ==> turns[i] == turns[..4][i];
    RunOne(s, turns);
    var s1 := Step(s, 0, StartSend);
    RunOne(s1, turns[1..]);
    var s2 := Step(s1, 0, Lock);
    RunOne(s2, turns[1..][1..]);
    var s3 := Step(s2, 0, AppendData(data));
    RunOne(s3, turns[1..][1..][1..]);
    next := Step(s3, 0, UnlockAppend);
    assert turns[1..][1..][1..][1..] == turns[4..];
  }

  lemma ReaderIntervenes(s: State, data: seq<byte>, turns: seq<Turn>) returns (next: State)
    requires Consistent(s) && Scene(s, Flushing, Idle, Free, [data])
    requires turns == Reads()
    ensures Scene(next, Idle, Idle, Free, [data])
    ensures Run(s, turns) == next
  {
    hide Consistent, Run;
    RunOne(s, turns);
    var s1 := Step(s, 1, StartRead);
    RunOne(s1, turns[1..]);
    var s2 := Step(s1, 0, CheckOpen);
    RunOne(s2, turns[1..][1..]);
    var s3 := Step(s2, 0, TryLock);
    RunOne(s3, turns[1..][1..][1..]);
    next := Step(s3, 1, EndRead);
    assert turns[1..][1..][1..][1..] == [];
    RunNone(next);
  }

  lemma Strands(s: State, data: seq<byte>)
    requires Scene(s, Idle, Idle, Free, [data])
    ensures Stranded(s)
  {}

  lemma RunNone(s: State)
    requires Consistent(s)
    ensures Run(s, []) == s
  {}

  /** With a reader the guarantee is lost: a reader takes the mutex after the append and keeps it
      while the sender tries to flush. At the end both threads are at rest, the packet is
      queued, and the event loop does not watch the socket. */
  lemma ReaderStrandsAWrite(data: seq<byte>) returns (turns: seq<Turn>)
    requires data != []
    ensures (forall i :: 0 <= i < |turns| ==> turns[i].thread < 2) && Consistent(Initial(2))
    ensures Scene(Run(Initial(2), turns), Idle, Idle, Free, [data]) && Stranded(Run(Initial(2), turns))
  {
    InitialConsistent(2);
    hide Consistent, Run, Step;
    turns := Appends(data) + Reads();
    assert turns[..4] == Appends(data) && turns[4..] == Reads();
    var mid := SenderAppends(Initial(2), data, turns);
    var last := ReaderIntervenes(mid, data, turns[4..]);
    Strands(last, data);
  }

  // --- The methods of the connection, and that the actions above are theirs ---

  // A connection without its threads.
  datatype Conn = Conn(open: bool, wire: Wire, interest: bool)

  // HandleWrite; `locked` is whether it got the mutex.
  ghost function Flushed(c: Conn, locked: bool, replies: seq<Reply>): (r: Conn)
    requires Live(c.wire.queue)
    ensures Live(r.wire.queue)
  {
    if !c.open || !locked then c
    else
      FlushConserves(c.wire.queue, replies);
      var wire := Apply(c.wire, Send(replies), QUEUE_CAPACITY);
      if FlushQueue(c.wire.queue, replies).result < 0 then c.(open := false, wire := wire)
      else c.(wire := wire, interest := wire.queue != [])
  }

  /** A flush closes an open connection if and only if it gets the mutex and the socket reports an
      error. When it only blocks, or has room for a part, the connection stays open and is watched
      for writing; when nothing is left it is not watched. Without the mutex nothing happens. */
  lemma FlushedIff(c: Conn, locked: bool, replies: seq<Reply>) returns (k: nat, f: Flush)
    requires Live(c.wire.queue)
    ensures var d := Flushed(c, locked, replies);
      if !c.open || !locked then d == c
      else
        && (d.open <==> !SocketFails(c.wire.queue, replies))
        && (d.open ==> (d.interest <==> d.wire.queue != []))
        && d.wire == Wire(c.wire.accepted, c.wire.sent + f.written, f.left)
        && StopsAt(c.wire.queue, replies, k) && FlushedAt(c.wire.queue, replies, k, f)
  {
    k := FlushIs(c.wire.queue, replies);
    f := FlushQueue(c.wire.queue, replies);
    hide SocketFails, StopsAt, FlushQueue;
  }

  ghost function Queued(c: Conn, data: seq<byte>): (r: Conn)
    requires Live(c.wire.queue)
    ensures Live(r.wire.queue)
  {
    c.(wire := Apply(c.wire, Append(data), QUEUE_CAPACITY))
  }

  // What happens to one send or flush: whether the event loop closes the connection while the
  // sender, which has seen it open, waits for the mutex; whether the flush then gets the mutex;
  // and what the socket answers. A close that comes at another time is one before or after it.
  datatype SocketTurn = SocketTurn(hungUp: bool, locked: bool, replies: seq<Reply>)

  // Send. Who is kept waiting adds nothing.
  ghost function Handed(c: Conn, data: seq<byte>, turn: SocketTurn): (r: Conn)
    requires Live(c.wire.queue)
    ensures Live(r.wire.queue) && (!c.open ==> r == c)
  {
    if !c.open then c
    else if turn.hungUp then c.(open := false)
    else Flushed(Queued(c, data), turn.locked, turn.replies)
  }

  class TcpConnection {
    var isClosed: bool
    var isWriting: bool
    const writeBuffer: BufferWriter
    ghost var accepted: Queue
    ghost var sent: seq<byte>

    // The packets that wait in the write queue.
    ghost function Arrays(): set<array<byte>>
      reads this, writeBuffer
    {
      writeBuffer.Arrays()
    }

    ghost predicate Valid()
      reads this, writeBuffer, Arrays()
    {
      writeBuffer.Valid() && writeBuffer.capacity == QUEUE_CAPACITY
    }

    ghost function View(): (c: Conn)
      requires Valid()
      reads this, writeBuffer, Arrays()
      ensures Live(c.wire.queue)
    {
      Conn(!isClosed, Wire(accepted, sent, writeBuffer.Pending()), isWriting)
    }

    constructor ()
      ensures Valid() && View() == Conn(true, Wire([], [], []), false) && fresh(writeBuffer) && Arrays() == {}
    {
      isClosed, isWriting, accepted, sent := false, false, [], [];
      writeBuffer := new BufferWriter(QUEUE_CAPACITY);
    }

    /** Says whether the sender waits for the mutex while the event loop closes the connection
        under it: it gets no further before the closing has ended. */
    method Send(data: array<byte>, size: nat, turn: SocketTurn) returns (waits: bool)
      requires Valid() && size <= data.Length
      modifies this, writeBuffer
      ensures Valid() && fresh(Arrays() - old(Arrays()))
      ensures waits == (old(View()).open && turn.hungUp)
      ensures View() == Handed(old(View()), old(data[..size]), turn)
    {
      if !isClosed {
        if turn.hungUp {
          HangUp();
          return true;
        }
        Append(data, size);
        HandleWrite(turn.locked, turn.replies);
      }
      return false;
    }

    // What the event loop does in between.
    method HangUp()
      requires Valid()
      modifies this
      ensures Valid() && Arrays() == old(Arrays()) && View() == old(View()).(open := false)
    {
      isClosed := true;
    }

    method Append(data: array<byte>, size: nat)
      requires Valid() && size <= data.Length
      modifies this, writeBuffer
      ensures Valid() && fresh(Arrays() - old(Arrays())) && View() == Queued(old(View()), data[..size])
      ensures isClosed == old(isClosed)
    {
      hide BufferWriter.Valid, BufferWriter.Pending;
      var ok := writeBuffer.AppendCopy(data, size, 0);
      if ok {
        accepted := accepted + [data[0..size]];
      }
      assert data[0..size] == data[..size];
    }

    method HandleWrite(locked: bool, replies: seq<Reply>)
      requires Valid()
      modifies this, writeBuffer
      ensures Valid() && Arrays() <= old(Arrays()) && View() == Flushed(old(View()), locked, replies)
    {
      if isClosed {
        return;
      }
      if !locked {
        return;
      }
      var ret, written := writeBuffer.Send(replies);
      sent := sent + written;
      if ret < 0 {
        isClosed := true;
        return;
      }
      var empty := |writeBuffer.buffer| == 0;
      if empty {
        if isWriting {
          isWriting := false;
        }
      } else if !isWriting {
        isWriting := true;
      }
    }
  }

  // The state with another connection in it and all threads where they were.
  function With(s: State, c: Conn): State {
    s.(open := c.open, wire := c.wire, interest := c.interest)
  }

  function ConnOf(s: State): Conn {
    Conn(s.open, s.wire, s.interest)
  }

  // The actions of one thread that nobody disturbs.
  function By(t: nat, actions: seq<Action>): (turns: seq<Turn>)
    ensures |turns| == |actions| && forall i :: 0 <= i < |turns| ==> turns[i] == Turn(t, actions[i])
  {
    seq(|actions|, i requires 0 <= i < |actions| => Turn(t, actions[i]))
  }

  ghost function Alone(s: State, t: nat, actions: seq<Action>): State
    requires Consistent(s) && t < |s.pcs|
  {
    Run(s, By(t, actions))
  }

  lemma AloneStep(s: State, t: nat, actions: seq<Action>)
    requires Consistent(s) && t < |s.pcs| && actions != []
    ensures Live(s.wire.queue) && Consistent(Step(s, t, actions[0]))
    ensures Alone(s, t, actions) == Alone(Step(s, t, actions[0]), t, actions[1..])
  {
    assert Live(s.wire.queue);
    hide Consistent, Run, Step;
    RunOne(s, By(t, actions));
    assert By(t, actions)[1..] == By(t, actions[1..]);
  }

  lemma AloneNone(s: State, t: nat)
    requires Consistent(s) && t < |s.pcs|
    ensures Alone(s, t, []) == s
  {
    hide Consistent, Run;
    assert By(t, []) == [];
    RunNone(s);
  }

  lemma Again(s: State, t: nat, a: Pc, b: Pc)
    requires t < |s.pcs|
    ensures At(At(s, t, a), t, b) == At(s, t, b)
  {
    assert s.pcs[t := a][t := b] == s.pcs[t := b];
  }

  function EndActions(replies: seq<Reply>, failed: bool): seq<Action> {
    [Action.Flush(replies), if failed then Close else UpdateInterest, Unlock]
  }

  function FlushActions(replies: seq<Reply>, failed: bool): seq<Action> {
    [CheckOpen, TryLock] + EndActions(replies, failed)
  }

  function SendActions(data: seq<byte>, replies: seq<Reply>, failed: bool): seq<Action> {
    [StartSend, Lock, AppendData(data), UnlockAppend] + FlushActions(replies, failed)
  }

  lemma StartsFlush(s: State, t: nat, rest: seq<Action>)
    requires Consistent(s) && t < |s.pcs| && s.pcs[t] == Flushing && s.open && s.holder == Free
    ensures Consistent(At(s.(holder := HeldBy(t)), t, Writing))
    ensures Alone(s, t, [CheckOpen, TryLock] + rest) == Alone(At(s.(holder := HeldBy(t)), t, Writing), t, rest)
  {
    hide Consistent, Alone;
    var actions := [CheckOpen, TryLock] + rest;
    AloneStep(s, t, actions);
    var s1 := At(s, t, Trying);
    assert Step(s, t, CheckOpen) == s1;
    AloneStep(s1, t, actions[1..]);
    Again(s.(holder := HeldBy(t)), t, Trying, Writing);
    assert actions[1..][1..] == rest;
  }

  // The state after the bytes are written, and after what follows from the result.
  lemma FlushStep(s: State, t: nat, replies: seq<Reply>)
    requires Live(s.wire.queue) && t < |s.pcs| && s.pcs[t] == Writing && s.open
    ensures var failed, wire := SocketFails(s.wire.queue, replies), Apply(s.wire, Send(replies), QUEUE_CAPACITY);
      && Live(wire.queue)
      && var s1 := At(s.(wire := wire), t, if failed then WriteFailed else Wrote(wire.queue == []));
      && Step(s, t, Action.Flush(replies)) == s1
      && Step(s1, t, if failed then Close else UpdateInterest)
         == At(With(s, Flushed(ConnOf(s), true, replies)), t, Updated)
  {
    hide SocketFails;
    FlushConserves(s.wire.queue, replies);
    NegativeIffFails(s.wire.queue, replies);
    var wire := Apply(s.wire, Send(replies), QUEUE_CAPACITY);
    assert Live(wire.queue);
    Again(With(s, Flushed(ConnOf(s), true, replies)), t, WriteFailed, Updated);
    Again(With(s, Flushed(ConnOf(s), true, replies)), t, Wrote(wire.queue == []), Updated);
    hide Apply, FlushQueue, Live;
  }

  lemma UnlockStep(s: State, t: nat)
    requires Live(s.wire.queue) && t < |s.pcs| && s.pcs[t] == Updated
    ensures Step(s, t, Unlock) == At(s.(holder := Free), t, Idle)
  {}

  lemma UnlockAlone(s: State, t: nat)
    requires Consistent(s) && t < |s.pcs| && s.pcs[t] == Updated
    ensures Alone(s, t, [Unlock]) == At(s.(holder := Free), t, Idle)
  {
    assert Live(s.wire.queue);
    UnlockStep(s, t);
    hide Consistent, Alone, Step, Live;
    AloneStep(s, t, [Unlock]);
    AloneNone(At(s.(holder := Free), t, Idle), t);
  }

  lemma EndsFlush(s: State, t: nat, replies: seq<Reply>)
    requires Consistent(s) && Live(s.wire.queue)
    requires t < |s.pcs| && s.pcs[t] == Writing && s.open && s.holder == HeldBy(t)
    ensures Alone(s, t, EndActions(replies, SocketFails(s.wire.queue, replies)))
      == At(With(s, Flushed(ConnOf(s), true, replies)).(holder := Free), t, Idle)
  {
    FlushStep(s, t, replies);
    hide Consistent, Alone, Apply, SocketFails, Step, Live, Flushed, With;
    var actions := EndActions(replies, SocketFails(s.wire.queue, replies));
    AloneStep(s, t, actions);
    var s1 := Step(s, t, actions[0]);
    AloneStep(s1, t, actions[1..]);
    var s2 := Step(s1, t, actions[1]);
    assert actions[1..][1..] == [Unlock];
    UnlockAlone(s2, t);
    Again(With(s, Flushed(ConnOf(s), true, replies)).(holder := Free), t, Updated, Idle);
  }

  lemma FlushAlone(s: State, t: nat, replies: seq<Reply>)
    requires Consistent(s) && Live(s.wire.queue)
    requires t < |s.pcs| && s.pcs[t] == Flushing && s.open && s.holder == Free
    ensures Alone(s, t, FlushActions(replies, SocketFails(s.wire.queue, replies)))
      == At(With(s, Flushed(ConnOf(s), true, replies)), t, Idle)
  {
    hide Consistent, Alone, Apply, SocketFails, Flushed, Live;
    StartsFlush(s, t, EndActions(replies, SocketFails(s.wire.queue, replies)));
    EndsFlush(At(s.(holder := HeldBy(t)), t, Writing), t, replies);
    Again(With(s, Flushed(ConnOf(s), true, replies)), t, Writing, Idle);
  }

  lemma AppendsAlone(s: State, t: nat, data: seq<byte>, rest: seq<Action>)
    requires Consistent(s) && Live(s.wire.queue)
    requires t < |s.pcs| && s.pcs[t] == Idle && s.open && s.holder == Free
    ensures Consistent(At(With(s, Queued(ConnOf(s), data)), t, Flushing))
    ensures Alone(s, t, [StartSend, Lock, AppendData(data), UnlockAppend] + rest)
      == Alone(At(With(s, Queued(ConnOf(s), data)), t, Flushing), t, rest)
  {
    hide Consistent, Alone, Apply;
    var actions := [StartSend, Lock, AppendData(data), UnlockAppend] + rest;
    AloneStep(s, t, actions);
    var s1 := Step(s, t, StartSend);
    AloneStep(s1, t, actions[1..]);
    var s2 := Step(s1, t, Lock);
    AloneStep(s2, t, actions[1..][1..]);
    var s3 := Step(s2, t, AppendData(data));
    AloneStep(s3, t, actions[1..][1..][1..]);
    assert actions[1..][1..][1..][1..] == rest;
    assert s.pcs[t := SawOpen][t := Appending][t := Appended][t := Flushing] == s.pcs[t := Flushing];
  }

  /** A send that nobody disturbs is, action by action, what the method does. */
  lemma SendAlone(s: State, t: nat, data: seq<byte>, replies: seq<Reply>)
    requires Consistent(s) && Live(s.wire.queue)
    requires t < |s.pcs| && s.pcs[t] == Idle && s.open && s.holder == Free
    ensures Alone(s, t, SendActions(data, replies, SocketFails(Queued(ConnOf(s), data).wire.queue, replies)))
      == With(s, Flushed(Queued(ConnOf(s), data), true, replies))
  {
    hide Consistent, Alone, SocketFails, Flushed, Live;
    var queued := Queued(ConnOf(s), data);
    AppendsAlone(s, t, data, FlushActions(replies, SocketFails(queued.wire.queue, replies)));
    FlushAlone(At(With(s, queued), t, Flushing), t, replies);
    assert s.pcs[t := Flushing][t := Idle] == s.pcs;
  }
}
