/** Threads that post events to the event loop through the ring, and the loop that runs them.
    Producers exclude each other with a mutex; the consumer takes no lock. Every access to the
    count, to a slot, to a position or to the wake-up pipe is a step of its own. */
module TriggerEvents {
  import opened RingBuffer

  // A thread in AddTriggerEvent; each name says what it has done last.
  datatype Producer<T> =
    | Away
    | Sized(event: T)    // saw that the ring was not full, without the mutex
    | Locked(event: T)   // holds the mutex from here on
    | HasRoom(event: T)  // saw again that the ring was not full
    | Stored(event: T)   // wrote the slot
    | Moved(event: T)    // advanced the position
    | Counted(event: T)  // counted the event, or found the ring full
    | Woken(event: T)    // wrote to the pipe

  // The event loop.
  datatype Consumer<T> =
    | Asking             // in HandleTriggerEvent, about to pop
    | SawEvent           // saw that the ring was not empty
    | Took(event: T)     // moved the event out of the slot
    | Passed(event: T)   // advanced the position
    | Popped             // ran the event, or found nothing to run
    | Selecting          // blocked until the pipe is readable or a time has passed
    | Waking             // about to empty the pipe

  datatype State<T> = State(
    slots: seq<T>, put: nat, get: nat, count: int, pipe: nat,
    holder: int, producers: seq<Producer<T>>, consumer: Consumer<T>,
    pushed: seq<T>, run: seq<T>, dropped: seq<T>)

  // `moved` is what a move leaves in the slot; `timeout` says that select may return anyway.
  datatype Action<T> = Call(thread: nat, event: T) | Advance(thread: nat) | Consume(moved: T, timeout: bool)

  predicate Inside<T>(p: Producer<T>) {
    !p.Away? && !p.Sized?
  }

  ghost predicate Shaped<T>(s: State<T>) {
    s.put < |s.slots| && s.get < |s.slots|
  }

  function At<T>(s: State<T>, i: nat, p: Producer<T>): State<T>
    requires i < |s.producers|
  {
    s.(producers := s.producers[i := p])
  }

  function ProducerStep<T>(s: State<T>, i: nat): State<T>
    requires Shaped(s) && i < |s.producers|
  {
    match s.producers[i]
    case Away => s
    case Sized(e) => if s.holder < 0 then At(s.(holder := i), i, Locked(e)) else s
    case Locked(e) =>
      if s.count < |s.slots| then At(s, i, HasRoom(e)) else At(s.(dropped := s.dropped + [e]), i, Counted(e))
    case HasRoom(e) => At(s.(slots := s.slots[s.put := e]), i, Stored(e))
    case Stored(e) => At(s.(put := Add(s.put, |s.slots|)), i, Moved(e))
    case Moved(e) => At(s.(count := s.count + 1, pushed := s.pushed + [e]), i, Counted(e))
    case Counted(e) => At(s.(pipe := s.pipe + 1), i, Woken(e))
    case Woken(e) => At(s.(holder := -1), i, Away)
  }

  function ConsumerStep<T>(s: State<T>, moved: T, timeout: bool): State<T>
    requires Shaped(s)
  {
    match s.consumer
    case Asking => s.(consumer := if s.count > 0 then SawEvent else Popped)
    case SawEvent => s.(consumer := Took(s.slots[s.get]), slots := s.slots[s.get := moved])
    case Took(e) => s.(consumer := Passed(e), get := Add(s.get, |s.slots|))
    case Passed(e) => s.(consumer := Popped, count := s.count - 1, run := s.run + [e])
    case Popped => s.(consumer := if s.count > 0 then Asking else Selecting)
    case Selecting => s.(consumer := if s.pipe > 0 then Waking else if timeout then Asking else Selecting)
    case Waking => s.(consumer := Asking, pipe := 0)
  }

  function Step<T>(s: State<T>, a: Action<T>): State<T>
    requires Shaped(s)
  {
    match a
    case Call(i, e) =>
      if i < |s.producers| && s.producers[i].Away? && s.count < |s.slots| then At(s, i, Sized(e)) else s
    case Advance(i) => if i < |s.producers| then ProducerStep(s, i) else s
    case Consume(moved, timeout) => ConsumerStep(s, moved, timeout)
  }

  // --- What every interleaving keeps ---

  // The slot of the k-th event ever pushed into a ring of n slots.
  function Pos(k: nat, n: nat): (p: nat)
    requires n > 0
    ensures p < n
  {
    if k == 0 then 0 else Add(Pos(k - 1, n), n)
  }

  lemma {:induction false} PosAhead(k: nat, d: nat, n: nat)
    requires n > 0 && d <= n
    ensures Pos(k + d, n) == Place(Pos(k, n), d, n)
  {
    if d > 0 {
      PosAhead(k, d - 1, n);
    }
  }

  /** Two events fewer than n pushes apart never share a slot. */
  lemma SlotsDiffer(j: nat, k: nat, n: nat)
    requires j < k < j + n
    ensures Pos(j, n) != Pos(k, n)
  {
    PosAhead(j, k - j, n);
  }

  // The mutex excludes.
  ghost predicate Exclusive<T>(s: State<T>) {
    && -1 <= s.holder < |s.producers|
    && forall i :: 0 <= i < |s.producers| ==> (Inside(s.producers[i]) <==> s.holder == i)
  }

  // The producer inside the mutex, if there is one.
  function Writer<T>(s: State<T>): Producer<T> {
    if 0 <= s.holder < |s.producers| then s.producers[s.holder] else Away
  }

  // The consumer is working on an event that it has not yet uncounted.
  predicate Busy<T>(c: Consumer<T>) {
    c.SawEvent? || Holding(c)
  }

  // The consumer has moved an event out of its slot and not yet run it.
  predicate Holding<T>(c: Consumer<T>) {
    c.Took? || c.Passed?
  }

  // The positions and the count, adjusted for steps in flight.
  ghost predicate Positions<T>(s: State<T>) {
    && |s.slots| > 0
    && s.count == |s.pushed| - |s.run| && 0 <= s.count <= |s.slots|
    && s.put == Pos(if Writer(s).Moved? then |s.pushed| + 1 else |s.pushed|, |s.slots|)
    && s.get == Pos(if s.consumer.Passed? then |s.run| + 1 else |s.run|, |s.slots|)
    && (Writer(s).HasRoom? || Writer(s).Stored? || Writer(s).Moved? ==> s.count < |s.slots|)
    && (Busy(s.consumer) ==> s.count > 0)
  }

  // What the slots hold, and what was taken from them.
  ghost predicate Values<T>(s: State<T>)
    requires Positions(s)
  {
    && (forall k :: |s.run| <= k < |s.pushed| && !(k == |s.run| && Holding(s.consumer)) ==>
          s.slots[Pos(k, |s.slots|)] == s.pushed[k])
    && (Writer(s).Stored? || Writer(s).Moved? ==> s.slots[Pos(|s.pushed|, |s.slots|)] == Writer(s).event)
    && (Holding(s.consumer) ==> s.consumer.event == s.pushed[|s.run|])
    && s.run == s.pushed[..|s.run|]
  }

  // The loop never sleeps on an event: a byte is in the pipe or about to be.
  ghost predicate Awake<T>(s: State<T>) {
    s.consumer.Selecting? && s.count > 0 ==> s.pipe > 0 || Writer(s).Counted?
  }

  ghost predicate Inv<T>(s: State<T>) {
    Shaped(s) && Exclusive(s) && Positions(s) && Values(s) && Awake(s)
  }

  lemma ProducerKeepsPositions<T>(s: State<T>, i: nat)
    requires Exclusive(s) && Positions(s) && Awake(s) && i < |s.producers|
    ensures Exclusive(ProducerStep(s, i)) && Positions(ProducerStep(s, i)) && Awake(ProducerStep(s, i))
  {
    hide Pos;
    assert s.producers[i].Stored? ==> Add(s.put, |s.slots|) == Pos(|s.pushed| + 1, |s.slots|) by {
      PosAhead(|s.pushed|, 1, |s.slots|);
    }
  }

  lemma ProducerKeepsValues<T>(s: State<T>, i: nat)
    requires Inv(s) && i < |s.producers| && Positions(ProducerStep(s, i))
    ensures Values(ProducerStep(s, i))
  {
    hide Pos;
    if s.producers[i].HasRoom? {
      forall j | |s.run| <= j < |s.pushed| ensures Pos(j, |s.slots|) != s.put {
        SlotsDiffer(j, |s.pushed|, |s.slots|);
      }
    }
  }

  lemma ConsumerKeepsPositions<T>(s: State<T>, moved: T, timeout: bool)
    requires Exclusive(s) && Positions(s) && Awake(s)
    ensures Exclusive(ConsumerStep(s, moved, timeout)) && Positions(ConsumerStep(s, moved, timeout))
    ensures Awake(ConsumerStep(s, moved, timeout))
  {
    hide Pos;
    assert s.consumer.Took? ==> Add(s.get, |s.slots|) == Pos(|s.run| + 1, |s.slots|) by {
      PosAhead(|s.run|, 1, |s.slots|);
    }
  }

  lemma ConsumerKeepsValues<T>(s: State<T>, moved: T, timeout: bool)
    requires Inv(s) && Positions(ConsumerStep(s, moved, timeout))
    ensures Values(ConsumerStep(s, moved, timeout))
  {
    hide Pos;
    if s.consumer.SawEvent? {
      forall k | |s.run| < k <= |s.pushed| && k < |s.run| + |s.slots| ensures Pos(k, |s.slots|) != s.get {
        SlotsDiffer(|s.run|, k, |s.slots|);
      }
    }
  }

  lemma StepKeepsInv<T>(s: State<T>, a: Action<T>)
    requires Inv(s)
    ensures Inv(Step(s, a))
  {
    match a {
      case Call(_, _) =>
      case Advance(i) =>
        hide Pos, Values;
        if i < |s.producers| {
          ProducerKeepsPositions(s, i);
          ProducerKeepsValues(s, i);
        }
      case Consume(moved, timeout) =>
        hide Pos, Values;
        ConsumerKeepsPositions(s, moved, timeout);
        ConsumerKeepsValues(s, moved, timeout);
    }
  }

  // --- Whole runs ---

  function Start<T>(capacity: nat, producers: nat, empty: T): State<T> {
    State(seq(capacity, _ => empty), 0, 0, 0, 0, -1, seq(producers, _ => Away), Asking, [], [], [])
  }

  lemma StepShape<T>(s: State<T>, a: Action<T>)
    requires Inv(s)
    ensures Shaped(s) && Inv(Step(s, a))
    ensures |Step(s, a).slots| == |s.slots| && |Step(s, a).producers| == |s.producers|
  {
    hide Exclusive, Positions, Values, Awake, Pos, Add;
    StepKeepsInv(s, a);
  }

  function Play<T>(s: State<T>, actions: seq<Action<T>>): (r: State<T>)
    requires Inv(s)
    ensures Inv(r) && |r.slots| == |s.slots| && |r.producers| == |s.producers|
    decreases actions
  {
    hide Inv, Step, Shaped;
    if actions == [] then s
    else
      StepShape(s, actions[0]);
      Play(Step(s, actions[0]), actions[1..])
  }

  lemma {:induction false} PlayConcat<T>(s: State<T>, a: seq<Action<T>>, b: seq<Action<T>>)
    requires Inv(s)
    ensures Play(s, a + b) == Play(Play(s, a), b)
    decreases a
  {
    hide Exclusive, Positions, Values, Awake, Pos, Add, ProducerStep, ConsumerStep;
    if a == [] {
      assert a + b == b;
    } else {
      StepKeepsInv(s, a[0]);
      assert (a + b)[1..] == a[1..] + b;
      PlayConcat(Step(s, a[0]), a[1..], b);
    }
  }

  /** The ring is a queue between threads: whatever the interleaving, the events that were run
      are the first of those pushed, each once and in order, and the rest are still in it. */
  lemma EventsRunOnceInOrder<T>(capacity: nat, producers: nat, empty: T, actions: seq<Action<T>>)
    requires capacity > 0
    ensures Inv(Start(capacity, producers, empty))
    ensures var r := Play(Start(capacity, producers, empty), actions);
            r.run <= r.pushed && |r.pushed| - |r.run| == r.count <= capacity
  {
  }

  /** The producer writing a slot and the consumer reading one are never at the same slot. */
  lemma NeverSameSlot<T>(s: State<T>)
    requires Inv(s) && Writer(s).HasRoom? && s.consumer.SawEvent?
    ensures s.put != s.get
  {
    SlotsDiffer(|s.run|, |s.pushed|, |s.slots|);
  }

  /** When every producer has left, a loop that sleeps with no byte in the pipe has run
      everything that was pushed. */
  lemma NothingWaitsForAWakeup<T>(s: State<T>)
    requires Inv(s) && s.consumer.Selecting? && s.pipe == 0
    requires forall i :: 0 <= i < |s.producers| ==> s.producers[i].Away?
    ensures s.run == s.pushed
  {
  }

  // --- When AddTriggerEvent answers true for an event that it drops ---

  // A lone producer that saw room still has room.
  ghost predicate Roomy<T>(s: State<T>) {
    && s.dropped == []
    && forall i :: 0 <= i < |s.producers| ==>
         (s.producers[i].Sized? || s.producers[i].Locked? ==> s.count < |s.slots|)
  }

  lemma StepKeepsRoom<T>(s: State<T>, a: Action<T>)
    requires Inv(s) && Roomy(s) && |s.producers| <= 1
    ensures Roomy(Step(s, a))
  {
    hide Values, Pos;
  }

  lemma {:induction false} OneProducerNeverDrops<T>(s: State<T>, actions: seq<Action<T>>)
    requires Inv(s) && Roomy(s) && |s.producers| <= 1
    ensures Play(s, actions).dropped == []
    decreases actions
  {
    if actions != [] {
      StepKeepsInv(s, actions[0]);
      StepKeepsRoom(s, actions[0]);
      OneProducerNeverDrops(Step(s, actions[0]), actions[1..]);
    }
  }

  // The two first producers are outside, and nobody holds the mutex.
  ghost predicate Calm<T>(s: State<T>) {
    |s.producers| >= 2 && s.producers[0].Away? && s.producers[1].Away? && s.holder == -1
  }

  function Turns<T>(thread: nat, n: nat): seq<Action<T>> {
    seq(n, _ => Advance(thread))
  }

  lemma PlayTurn<T>(s: State<T>, thread: nat, n: nat)
    requires Inv(s) && n > 0 && thread < |s.producers|
    ensures Shaped(s) && Inv(ProducerStep(s, thread))
    ensures Play(s, Turns(thread, n)) == Play(ProducerStep(s, thread), Turns(thread, n - 1))
    ensures n == 1 ==> Play(s, Turns(thread, n)) == ProducerStep(s, thread)
  {
    hide Exclusive, Positions, Values, Awake, ProducerStep, Pos, Add;
    StepShape(s, Advance(thread));
    assert Turns<T>(thread, n)[1..] == Turns(thread, n - 1);
  }

  // What a calm thread's seven steps leave.
  ghost predicate Delivered<T>(s: State<T>, i: nat, r: State<T>)
    requires i < |s.producers| && s.producers[i].Sized?
  {
    && r.holder == -1 && r.producers == s.producers[i := Away] && |r.slots| == |s.slots|
    && r.count == s.count + (if s.count < |s.slots| then 1 else 0)
    && r.dropped == if s.count < |s.slots| then s.dropped else s.dropped + [s.producers[i].event]
  }

  /** A producer that saw room and gets the mutex pushes its event when there still is room,
      and drops it when there is none. */
  lemma Delivers<T>(s: State<T>, i: nat)
    requires Inv(s) && i < |s.producers| && s.producers[i].Sized? && s.holder == -1
    ensures Delivered(s, i, Play(s, Turns(i, if s.count < |s.slots| then 7 else 4)))
  {
    hide Exclusive, Positions, Values, Awake, Turns, Pos, Add, Play;
    var n := if s.count < |s.slots| then 7 else 4;
    PlayTurn(s, i, n);
    var s1 := ProducerStep(s, i);
    PlayTurn(s1, i, n - 1);
    var s2 := ProducerStep(s1, i);
    if s.count < |s.slots| {
      assert s2.producers == s.producers[i := HasRoom(s.producers[i].event)];
      FinishesInside(s2, i);
    } else {
      assert s2.producers == s.producers[i := Counted(s.producers[i].event)];
      LeavesMutex(s2, i);
    }
  }

  lemma FinishesInside<T>(s: State<T>, i: nat)
    requires Inv(s) && i < |s.producers| && s.producers[i].HasRoom?
    ensures var r := Play(s, Turns(i, 5));
      && r.holder == -1 && r.producers == s.producers[i := Away] && r.dropped == s.dropped
      && r.count == s.count + 1
  {
    hide Exclusive, Positions, Values, Awake, Turns, Pos, Add, Play;
    PlayTurn(s, i, 5);
    var s1 := ProducerStep(s, i);
    PlayTurn(s1, i, 4);
    var s2 := ProducerStep(s1, i);
    PlayTurn(s2, i, 3);
    var s3 := ProducerStep(s2, i);
    assert s3.producers == s.producers[i := Counted(s.producers[i].event)];
    LeavesMutex(s3, i);
  }

  lemma LeavesMutex<T>(s: State<T>, i: nat)
    requires Inv(s) && i < |s.producers| && s.producers[i].Counted?
    ensures var r := Play(s, Turns(i, 2));
      && r.holder == -1 && r.producers == s.producers[i := Away] && r.dropped == s.dropped
      && r.count == s.count
  {
    hide Exclusive, Positions, Values, Awake, Turns, Pos, Add, Play;
    PlayTurn(s, i, 2);
    var s1 := ProducerStep(s, i);
    PlayTurn(s1, i, 1);
  }

  // Fills the ring up to one free slot.
  lemma {:induction false} Fills<T>(s: State<T>, e: T) returns (actions: seq<Action<T>>)
    requires Inv(s) && Calm(s) && s.count < |s.slots|
    ensures Calm(Play(s, actions)) && Play(s, actions).count == |s.slots| - 1
    decreases |s.slots| - s.count
  {
    hide Exclusive, Positions, Values, Awake, Pos, Add, ProducerStep, Turns;
    if s.count == |s.slots| - 1 {
      actions := [];
    } else {
      StepShape(s, Call(0, e));
      var s1 := Step(s, Call(0, e));
      Delivers(s1, 0);
      var s2 := Play(s1, Turns(0, 7));
      var rest := Fills(s2, e);
      actions := ([Call(0, e)] + Turns(0, 7)) + rest;
      PlayFirst(s, Call(0, e), Turns(0, 7));
      PlayConcat(s, [Call(0, e)] + Turns(0, 7), rest);
    }
  }

  lemma PlayFirst<T>(s: State<T>, a: Action<T>, rest: seq<Action<T>>)
    requires Inv(s)
    ensures Shaped(s) && Inv(Step(s, a)) && Play(s, [a] + rest) == Play(Step(s, a), rest)
  {
    hide Exclusive, Positions, Values, Awake, Pos, Add, ProducerStep, ConsumerStep;
    StepShape(s, a);
    assert ([a] + rest)[1..] == rest;
  }

  // Two producers see the last free slot; the second one to get the mutex drops its event.
  lemma Races<T>(s: State<T>, e: T) returns (actions: seq<Action<T>>)
    requires Inv(s) && Calm(s) && s.count == |s.slots| - 1
    ensures Play(s, actions).dropped != []
  {
    hide Exclusive, Positions, Values, Awake, Pos, Add, ProducerStep, Turns, Play;
    StepShape(s, Call(0, e));
    var s1 := Step(s, Call(0, e));
    StepShape(s1, Call(1, e));
    var s2 := Step(s1, Call(1, e));
    Delivers(s2, 0);
    var s3 := Play(s2, Turns(0, 7));
    Delivers(s3, 1);
    actions := [Call(0, e)] + ([Call(1, e)] + (Turns(0, 7) + Turns(1, 4)));
    PlayFirst(s, Call(0, e), [Call(1, e)] + (Turns(0, 7) + Turns(1, 4)));
    PlayFirst(s1, Call(1, e), Turns(0, 7) + Turns(1, 4));
    PlayConcat(s2, Turns(0, 7), Turns(1, 4));
  }

  /** Room is checked again inside the mutex but the answer is ignored, so AddTriggerEvent can
      answer true for an event that will never run: exactly when two threads may post. */
  lemma DropsIffTwoProducers<T>(capacity: nat, producers: nat, empty: T)
    requires capacity > 0
    ensures Inv(Start(capacity, producers, empty))
    ensures (exists actions :: Play(Start(capacity, producers, empty), actions).dropped != [])
      <==> producers >= 2
  {
    var s := Start(capacity, producers, empty);
    if producers >= 2 {
      DropsFromStart(capacity, producers, empty);
    } else {
      forall actions: seq<Action<T>> ensures Play(s, actions).dropped == [] {
        OneProducerNeverDrops(s, actions);
      }
    }
  }

  lemma DropsFromStart<T>(capacity: nat, producers: nat, empty: T)
    requires capacity > 0 && producers >= 2
    ensures Inv(Start(capacity, producers, empty))
    ensures exists actions :: Play(Start(capacity, producers, empty), actions).dropped != []
  {
    var s := Start(capacity, producers, empty);
    assert Inv(s);
    hide Exclusive, Positions, Values, Awake, Pos, Add, Step, Play;
    var filling := Fills(s, empty);
    var race := Races(Play(s, filling), empty);
    PlayConcat(s, filling, race);
  }

  /** With no producer at work the loop runs what the ring holds, in order, and leaves it empty. */
  method HandleTriggerEvent<T(0)>(ring: RingBuffer<T>, moved: T) returns (run: seq<T>)
    requires ring.Valid()
    modifies ring, ring.slots
    ensures ring.Valid() && run == old(ring.Contents()) && ring.Contents() == []
  {
    var ok, event := ring.Pop(moved);
    run := if ok then [event] else [];
    while ring.count > 0
      invariant ring.Valid() && run + ring.Contents() == old(ring.Contents())
      decreases ring.count
    {
      ok, event := ring.Pop(moved);
      run := run + [event];
    }
  }
}
