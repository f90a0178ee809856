/** What timers do over whole runs of the queue: additions, removals and calls of the loop. */
module TimerRuns {
  import opened Timer

  datatype Op = AddTimer(now: int, ms: nat) | RemoveTimer(id: nat) | Handle(now: int, again: Key -> bool)

  // A timer was added, fired or removed. `wait` is how long it must now not fire: its delay
  // after the addition, its interval after it has fired.
  datatype Stamp =
    | Added(id: nat, time: int, wait: int)
    | Fired(id: nat, time: int, wait: int)
    | Removed(id: nat)

  datatype History = History(queue: Queue, log: seq<Stamp>)

  const START: History := History(Queue(map[], map[], 0), [])

  ghost function AddTo(h: History, now: int, ms: nat): History {
    var q := Add(h.queue, now, ms);
    History(q, h.log + [Added(q.lastId, now, ms)])
  }

  ghost function RemoveFrom(h: History, id: nat): History {
    History(Remove(h.queue, id), if id in h.queue.timers then h.log + [Removed(id)] else h.log)
  }

  ghost function FireIn(h: History, k: Key, now: int, again: bool): History
    requires k in h.queue.events
  {
    History(Fire(h.queue, k, now, again), h.log + [Fired(k.id, now, h.queue.events[k].interval)])
  }

  // The loop, with a stamp for each turn.
  ghost function HandleIn(h: History, now: int, again: Key -> bool): (r: History)
    requires Safe(h.queue)
    ensures Safe(r.queue) && r.queue == Dispatch(h.queue, now, again).0
    decreases |Due(h.queue, now)|
  {
    if !Pending(h.queue, now) then h
    else
      SafeNotEmpty(h.queue);
      var k := First(h.queue.events.Keys);
      FireSafe(h.queue, k, now, again(k));
      FireDue(h.queue, k, now, again(k));
      HandleIn(FireIn(h, k, now, again(k)), now, again)
  }

  ghost predicate StampedAs(stamps: seq<Stamp>, fired: seq<Key>, now: int) {
    && |stamps| == |fired|
    && forall i :: 0 <= i < |fired| ==> stamps[i].Fired? && stamps[i].id == fired[i].id && stamps[i].time == now
  }

  lemma StampedCons(log: seq<Stamp>, from: nat, fired: seq<Key>, now: int, k: Key)
    requires from < |log| && log[from].Fired? && log[from].id == k.id && log[from].time == now
    requires StampedAs(log[from + 1..], fired, now)
    ensures StampedAs(log[from..], [k] + fired, now)
  {
    assert log[from..] == [log[from]] + log[from + 1..];
  }

  lemma HandleNext(h: History, k: Key, now: int, again: Key -> bool)
    requires Safe(h.queue) && h.queue.timers != map[] && h.queue.events.Keys != {} && k == First(h.queue.events.Keys)
    ensures k.deadline > now ==> HandleIn(h, now, again) == h
    ensures k.deadline <= now ==>
      && Safe(FireIn(h, k, now, again(k)).queue)
      && HandleIn(h, now, again) == HandleIn(FireIn(h, k, now, again(k)), now, again)
  {
    FireSafe(h.queue, k, now, again(k));
    hide Safe, Fire, First;
  }

  /** The stamps of one call are those of the keys that the loop fires at, in order. */
  lemma {:induction false} HandleStamps(h: History, now: int, again: Key -> bool)
    requires Safe(h.queue)
    ensures var r := HandleIn(h, now, again);
      h.log <= r.log && StampedAs(r.log[|h.log|..], Dispatch(h.queue, now, again).1, now)
    decreases |Due(h.queue, now)|
  {
    hide Safe, Due, First, Fire, StampedAs, HandleIn, Dispatch, Pending;
    if h.queue.timers != map[] {
      SafeNotEmpty(h.queue);
      var k := First(h.queue.events.Keys);
      HandleNext(h, k, now, again);
      DispatchNext(h.queue, k, now, again);
      if k.deadline <= now {
        var next := FireIn(h, k, now, again(k));
        FireDue(h.queue, k, now, again(k));
        HandleStamps(next, now, again);
        StampedCons(HandleIn(next, now, again).log, |h.log|, Dispatch(next.queue, now, again).1, now, k);
      } else {
        NoStamps(h.log, now);
      }
    } else {
      DispatchNothing(h.queue, now, again);
      HandleNothing(h, now, again);
      NoStamps(h.log, now);
    }
  }

  lemma HandleNothing(h: History, now: int, again: Key -> bool)
    requires Safe(h.queue) && h.queue.timers == map[]
    ensures HandleIn(h, now, again) == h
  {
  }

  lemma NoStamps(log: seq<Stamp>, now: int)
    ensures StampedAs(log[|log|..], [], now)
  {
  }

  // --- When a timer may fire ---

  ghost predicate NotBefore(q: Queue, stamp: Stamp) {
    && stamp.id <= q.lastId
    && (!stamp.Removed? ==> forall k :: k in q.events && k.id == stamp.id ==> k.deadline >= stamp.time + stamp.wait)
  }

  ghost predicate Apart(a: Stamp, b: Stamp) {
    !a.Removed? && b.Fired? && a.id == b.id ==> b.time >= a.time + a.wait
  }

  // No event is filed too soon, and nothing has fired too soon.
  ghost predicate Spaced(h: History) {
    && (forall i :: 0 <= i < |h.log| ==> NotBefore(h.queue, h.log[i]))
    && (forall i, j :: 0 <= i < j < |h.log| ==> Apart(h.log[i], h.log[j]))
  }

  lemma AddSpaced(h: History, now: int, ms: nat)
    requires Safe(h.queue) && Spaced(h) && h.queue.lastId < MAX_ID
    ensures Spaced(AddTo(h, now, ms))
  {
    AddFiles(h.queue, now, ms);
    hide Safe, Add;
  }

  lemma RemoveSpaced(h: History, id: nat)
    requires Safe(h.queue) && Spaced(h)
    ensures Spaced(RemoveFrom(h, id))
  {
    assert id in h.queue.timers ==> id <= h.queue.lastId;
    hide Safe;
  }

  lemma FireSpaced(h: History, k: Key, now: int, again: bool)
    requires Safe(h.queue) && Spaced(h) && k in h.queue.events && k.deadline <= now
    ensures Spaced(FireIn(h, k, now, again))
  {
    var r := FireIn(h, k, now, again);
    FireEvents(h.queue, k, now, again);
    assert k.id <= h.queue.lastId && h.queue.events[k].interval >= 1;
    hide Safe, Emplace;
    forall i | 0 <= i < |r.log| ensures NotBefore(r.queue, r.log[i]) {
      if i < |h.log| {
        assert NotBefore(h.queue, h.log[i]);
      }
    }
    hide Fire;
    forall i | 0 <= i < |h.log| ensures Apart(h.log[i], r.log[|h.log|]) {
      assert NotBefore(h.queue, h.log[i]);
    }
  }

  // --- What may fire after it was removed ---

  // Nothing is left of the timer, or its one event is filed under the deadline that it stores.
  ghost predicate AgreesFor(q: Queue, id: nat) {
    && (id in q.timers ==> Key(q.timers[id].next, id) in q.events)
    && (forall k :: k in q.events && k.id == id ==> id in q.timers)
  }

  /** The two maps agree when they do for every timer. */
  lemma AgreeForAll(q: Queue)
    ensures Agree(q) <==> Safe(q) && forall id :: AgreesFor(q, id)
  {
    hide Safe;
    if Safe(q) && forall id :: AgreesFor(q, id) {
      forall k | k in q.events ensures k.id in q.timers {
        assert AgreesFor(q, k.id);
      }
      forall id | id in q.timers ensures Key(q.timers[id].next, id) in q.events {
        assert AgreesFor(q, id);
      }
    }
  }

  ghost predicate SameFor(q: Queue, r: Queue, id: nat) {
    && (id in r.timers <==> id in q.timers) && (id in q.timers ==> r.timers[id] == q.timers[id])
    && (forall k :: k in q.events && k.id == id ==> k in r.events)
    && (forall k :: k in r.events && k.id == id ==> k in q.events)
  }

  /** An addition breaks the agreement for its own timer, if its delay is zero, and for no other. */
  lemma AddAgreesForIff(q: Queue, now: int, ms: nat, id: nat)
    requires Safe(q) && q.lastId < MAX_ID
    ensures id != q.lastId + 1 ==> SameFor(q, Add(q, now, ms), id)
    ensures AgreesFor(Add(q, now, ms), id) <==> if id == q.lastId + 1 then ms > 0 else AgreesFor(q, id)
  {
    AddFiles(q, now, ms);
    hide Safe, Add;
    var r := Add(q, now, ms);
    if id == q.lastId + 1 {
      assert Key(now + ms, id) in r.events;
    }
  }

  /** A removal breaks it for none. */
  lemma RemoveAgreesFor(q: Queue, gone: nat, id: nat)
    requires Safe(q)
    ensures id != gone ==> SameFor(q, Remove(q, gone), id)
    ensures AgreesFor(q, id) ==> AgreesFor(Remove(q, gone), id)
  {
    hide KnownIds, HasEvent;
  }

  /** A firing breaks it for none, and restores it for a timer that is registered. */
  lemma FireAgreesFor(q: Queue, k: Key, now: int, again: bool, id: nat)
    requires Safe(q) && k in q.events
    ensures id != k.id ==> SameFor(q, Fire(q, k, now, again), id)
    ensures id == k.id && id in q.timers ==> AgreesFor(Fire(q, k, now, again), id)
    ensures id !in q.timers ==> id !in Fire(q, k, now, again).timers
  {
    FireEvents(q, k, now, again);
    assert k.id in q.timers ==> q.timers[k.id] == q.events[k];
    hide Safe, Emplace;
  }

  ghost predicate Was(log: seq<Stamp>, s: Stamp, before: nat) {
    exists i :: 0 <= i < before && i < |log| && log[i] == s
  }

  // The timer was added with a delay of zero and had not fired when it was removed, if it was.
  ghost predicate Excused(log: seq<Stamp>, id: nat) {
    && (exists i :: 0 <= i < |log| && log[i].Added? && log[i].id == id && log[i].wait == 0)
    && (forall i :: 0 <= i < |log| && log[i].Fired? && log[i].id == id ==> Was(log, Removed(id), i))
  }

  // What the history says of one timer.
  ghost predicate Accounted(h: History, id: nat) {
    && (AgreesFor(h.queue, id) || Excused(h.log, id))
    && (Was(h.log, Removed(id), |h.log|) ==> id !in h.queue.timers)
    && (id > h.queue.lastId ==> forall i :: 0 <= i < |h.log| ==> h.log[i].id != id)
    && (id !in h.queue.timers && (exists k :: k in h.queue.events && k.id == id) ==> Was(h.log, Removed(id), |h.log|))
    && (forall i :: 0 <= i < |h.log| && h.log[i].Fired? && h.log[i].id == id && Was(h.log, Removed(id), i) ==>
          Excused(h.log, id))
  }

  lemma WasMore(log: seq<Stamp>, more: Stamp, s: Stamp, before: nat)
    requires before <= |log|
    ensures Was(log + [more], s, before) <==> Was(log, s, before)
    ensures Was(log + [more], s, |log| + 1) <==> Was(log, s, |log|) || more == s
  {
    var all := log + [more];
    if Was(log, s, |log|) {
      var i :| 0 <= i < |log| && log[i] == s;
      assert all[i] == s;
    }
    if Was(log, s, before) {
      var i :| 0 <= i < before && log[i] == s;
      assert all[i] == s;
    }
    assert all[|log|] == more;
  }

  // A stamp of another timer changes nothing; nor does a firing after the removal.
  lemma ExcusedMore(log: seq<Stamp>, more: Stamp, id: nat)
    requires more.id != id || !more.Fired? || Was(log, Removed(id), |log|)
    requires Excused(log, id)
    ensures Excused(log + [more], id)
  {
    var all := log + [more];
    var i :| 0 <= i < |log| && log[i].Added? && log[i].id == id && log[i].wait == 0;
    assert all[i] == log[i];
    forall j | 0 <= j < |all| && all[j].Fired? && all[j].id == id ensures Was(all, Removed(id), j) {
      WasMore(log, more, Removed(id), j);
    }
  }

  lemma OtherAccounted(h: History, r: History, more: Stamp, id: nat)
    requires Accounted(h, id) && SameFor(h.queue, r.queue, id) && r.log == h.log + [more] && more.id != id
    requires r.queue.lastId >= h.queue.lastId
    ensures Accounted(r, id)
  {
    WasMore(h.log, more, Removed(id), |h.log|);
    if Excused(h.log, id) {
      ExcusedMore(h.log, more, id);
    }
    forall i | 0 <= i < |r.log| && r.log[i].Fired? && r.log[i].id == id && Was(r.log, Removed(id), i)
      ensures Excused(r.log, id)
    {
      assert i < |h.log| && r.log[i] == h.log[i];
      WasMore(h.log, more, Removed(id), i);
    }
    hide Excused, Was;
  }

  lemma AddAccounted(h: History, now: int, ms: nat, id: nat)
    requires Safe(h.queue) && h.queue.lastId < MAX_ID && Accounted(h, id)
    ensures Accounted(AddTo(h, now, ms), id)
  {
    var r := AddTo(h, now, ms);
    var more := r.log[|h.log|];
    AddAgreesForIff(h.queue, now, ms, id);
    AddFiles(h.queue, now, ms);
    hide Safe, Add, AgreesFor;
    if id != more.id {
      OtherAccounted(h, r, more, id);
    } else {
      NewAccounted(h, r, more, id);
    }
  }

  lemma NewAccounted(h: History, r: History, more: Stamp, id: nat)
    requires r.log == h.log + [more] && more.Added? && more.id == id == r.queue.lastId && id in r.queue.timers
    requires forall i :: 0 <= i < |h.log| ==> h.log[i].id != id
    requires AgreesFor(r.queue, id) || more.wait == 0
    ensures Accounted(r, id)
  {
    hide AgreesFor;
    assert r.log[|h.log|] == more;
    assert forall i :: 0 <= i < |r.log| ==> r.log[i] == more || r.log[i].id != id;
  }

  lemma RemoveAccounted(h: History, gone: nat, id: nat)
    requires Safe(h.queue) && Accounted(h, id)
    ensures Accounted(RemoveFrom(h, gone), id)
  {
    var r := RemoveFrom(h, gone);
    RemoveAgreesFor(h.queue, gone, id);
    assert forall i :: i in h.queue.timers ==> i <= h.queue.lastId;
    if gone in h.queue.timers {
      hide Safe, AgreesFor;
      if id != gone {
        OtherAccounted(h, r, Removed(gone), id);
      } else {
        GoneAccounted(h, r, id);
      }
    }
  }

  lemma GoneAccounted(h: History, r: History, id: nat)
    requires Accounted(h, id) && id in h.queue.timers && id <= r.queue.lastId && id !in r.queue.timers
    requires AgreesFor(h.queue, id) ==> AgreesFor(r.queue, id)
    requires r.log == h.log + [Removed(id)]
    ensures Accounted(r, id)
  {
    hide AgreesFor;
    WasMore(h.log, Removed(id), Removed(id), |h.log|);
    if Excused(h.log, id) {
      ExcusedMore(h.log, Removed(id), id);
    }
    forall i | 0 <= i < |r.log| && r.log[i].Fired? && r.log[i].id == id && Was(r.log, Removed(id), i)
      ensures Excused(r.log, id)
    {
      WasMore(h.log, Removed(id), Removed(id), i);
    }
    hide Excused, Was;
  }

  lemma FireAccounted(h: History, k: Key, now: int, again: bool, id: nat)
    requires Safe(h.queue) && k in h.queue.events && Accounted(h, id)
    ensures Accounted(FireIn(h, k, now, again), id)
  {
    var r := FireIn(h, k, now, again);
    var more := r.log[|h.log|];
    FireAgreesFor(h.queue, k, now, again, id);
    FireEvents(h.queue, k, now, again);
    assert k.id <= h.queue.lastId;
    hide Safe, AgreesFor;
    if id != k.id {
      OtherAccounted(h, r, more, id);
    } else if id in h.queue.timers {
      TimerFired(h, r, more, id);
    } else {
      assert !AgreesFor(h.queue, id) by {
        NoAgreement(h.queue, k, id);
      }
      OrphanFired(h, r, more, id);
    }
  }

  lemma NoAgreement(q: Queue, k: Key, id: nat)
    requires k in q.events && k.id == id && id !in q.timers
    ensures !AgreesFor(q, id)
  {
  }

  // A timer that is registered has not been removed; afterwards it agrees.
  lemma TimerFired(h: History, r: History, more: Stamp, id: nat)
    requires Accounted(h, id) && id in h.queue.timers && id <= r.queue.lastId
    requires AgreesFor(r.queue, id) && (forall k :: k in r.queue.events && k.id == id ==> id in r.queue.timers)
    requires r.log == h.log + [more] && more.Fired? && more.id == id
    ensures Accounted(r, id)
  {
    hide AgreesFor;
    WasMore(h.log, more, Removed(id), |h.log|);
    forall i: nat | i < |r.log| ensures !Was(r.log, Removed(id), i) {
      WasMore(h.log, more, Removed(id), i);
    }
  }

  // An event whose timer is gone was left by a removal.
  lemma OrphanFired(h: History, r: History, more: Stamp, id: nat)
    requires Accounted(h, id) && id !in h.queue.timers && !AgreesFor(h.queue, id)
    requires exists k :: k in h.queue.events && k.id == id
    requires id <= r.queue.lastId && id !in r.queue.timers
    requires r.log == h.log + [more] && more.Fired? && more.id == id
    ensures Accounted(r, id)
  {
    hide AgreesFor;
    WasMore(h.log, more, Removed(id), |h.log|);
    ExcusedMore(h.log, more, id);
  }

  // --- Whole runs ---

  ghost predicate Lawful(h: History) {
    Safe(h.queue) && Spaced(h) && forall id :: Accounted(h, id)
  }

  ghost function Do(h: History, op: Op): History
    requires Lawful(h)
  {
    match op
    case AddTimer(now, ms) => AddTo(h, now, ms)
    case RemoveTimer(id) => RemoveFrom(h, id)
    case Handle(now, again) => HandleIn(h, now, again)
  }

  lemma FireLawful(h: History, k: Key, now: int, again: bool)
    requires Lawful(h) && k in h.queue.events && k.deadline <= now
    ensures Lawful(FireIn(h, k, now, again))
  {
    FireSafe(h.queue, k, now, again);
    FireSpaced(h, k, now, again);
    forall id ensures Accounted(FireIn(h, k, now, again), id) {
      FireAccounted(h, k, now, again, id);
    }
  }

  lemma {:induction false} HandleLawful(h: History, now: int, again: Key -> bool)
    requires Lawful(h)
    ensures Lawful(HandleIn(h, now, again)) && h.log <= HandleIn(h, now, again).log
    ensures HandleIn(h, now, again).queue.lastId == h.queue.lastId
    decreases |Due(h.queue, now)|
  {
    if Pending(h.queue, now) {
      SafeNotEmpty(h.queue);
      var k := First(h.queue.events.Keys);
      FireLawful(h, k, now, again(k));
      FireDue(h.queue, k, now, again(k));
      hide Lawful, Due;
      HandleLawful(FireIn(h, k, now, again(k)), now, again);
    }
  }

  lemma DoLawful(h: History, op: Op)
    requires Lawful(h) && h.queue.lastId < MAX_ID
    ensures Lawful(Do(h, op)) && h.log <= Do(h, op).log
    ensures h.queue.lastId <= Do(h, op).queue.lastId <= h.queue.lastId + 1
  {
    match op {
      case AddTimer(now, ms) =>
        AddSafe(h.queue, now, ms);
        AddSpaced(h, now, ms);
        forall id ensures Accounted(AddTo(h, now, ms), id) {
          AddAccounted(h, now, ms, id);
        }
      case RemoveTimer(id) =>
        RemoveSafe(h.queue, id);
        RemoveSpaced(h, id);
        forall other ensures Accounted(RemoveFrom(h, id), other) {
          RemoveAccounted(h, id, other);
        }
      case Handle(now, again) => HandleLawful(h, now, again);
    }
    hide Safe, Spaced, Accounted, Add, HandleIn;
  }

  ghost function Run(h: History, ops: seq<Op>): (r: History)
    requires Lawful(h) && h.queue.lastId + |ops| <= MAX_ID
    ensures Lawful(r) && h.log <= r.log
    decreases ops
  {
    hide Lawful, Do;
    if ops == [] then h
    else
      DoLawful(h, ops[0]);
      var r := Run(Do(h, ops[0]), ops[1..]);
      r
  }

  lemma StartLawful()
    ensures Lawful(START)
  {
  }

  /** In every run, whatever the delays: a timer first fires at least its delay after it was
      added, and then at least its interval after any time it fired. */
  lemma FiringsApart(ops: seq<Op>, i: nat, j: nat)
    requires |ops| <= MAX_ID
    ensures Lawful(START)
    ensures var log := Run(START, ops).log;
      i < j < |log| && !log[i].Removed? && log[j].Fired? && log[i].id == log[j].id ==>
        log[j].time - log[i].time >= log[i].wait
  {
    StartLawful();
    var r := Run(START, ops);
    hide Run, Safe, Accounted, NotBefore;
    if i < j < |r.log| {
      assert Apart(r.log[i], r.log[j]);
    }
  }

  /** In every run, a timer fires after its removal only if it was added with a delay of zero
      and had not fired before it was removed. */
  lemma RemovedFiresOnlyIfZero(ops: seq<Op>, i: nat, j: nat)
    requires |ops| <= MAX_ID
    ensures Lawful(START)
    ensures var log := Run(START, ops).log;
      i < j < |log| && log[i].Removed? && log[j].Fired? && log[i].id == log[j].id ==> Excused(log, log[i].id)
  {
    StartLawful();
    var r := Run(START, ops);
    hide Run, Safe, Spaced, AgreesFor, Excused;
    if i < j < |r.log| && r.log[i].Removed? && r.log[j].Fired? && r.log[i].id == r.log[j].id {
      assert Accounted(r, r.log[i].id);
      assert Was(r.log, Removed(r.log[i].id), j);
    }
  }
}
