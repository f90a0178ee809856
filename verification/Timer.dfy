/** The timer queue: timers by id, and the same timers ordered by deadline. */
module Timer {

  const MAX_ID := 0xFFFF_FFFF

  datatype Alarm = Alarm(interval: int, next: int)
  datatype Key = Key(deadline: int, id: nat)
  datatype Queue = Queue(timers: map<nat, Alarm>, events: map<Key, Alarm>, lastId: nat)

  predicate Before(a: Key, b: Key) {
    a.deadline < b.deadline || (a.deadline == b.deadline && a.id < b.id)
  }

  ghost predicate IsFirst(k: Key, keys: set<Key>) {
    k in keys && forall other :: other in keys && other != k ==> Before(k, other)
  }

  lemma {:induction false} HasFirst(keys: set<Key>) returns (k: Key)
    requires keys != {}
    ensures IsFirst(k, keys)
  {
    k :| k in keys;
    if keys != {k} {
      var first := HasFirst(keys - {k});
      if Before(first, k) {
        k := first;
      }
      assert forall other :: other in keys && other != k ==> other in keys - {k} || Before(k, other);
    }
  }

  ghost function First(keys: set<Key>): (k: Key)
    requires keys != {}
    ensures IsFirst(k, keys)
  {
    assert exists k :: IsFirst(k, keys) by { var k := HasFirst(keys); }
    var k :| IsFirst(k, keys);
    k
  }

  // --- The operations as functions ---

  function NextId(q: Queue): nat {
    if q.lastId == MAX_ID then 0 else q.lastId + 1
  }

  // Neither map replaces an entry that is there.
  function Emplace<K, V>(m: map<K, V>, k: K, v: V): map<K, V> {
    if k in m then m else m[k := v]
  }

  function NewAlarm(now: int, ms: nat): Alarm {
    var interval := if ms == 0 then 1 else ms;
    Alarm(interval, now + interval)
  }

  function Add(q: Queue, now: int, ms: nat): Queue {
    Queue(Emplace(q.timers, NextId(q), NewAlarm(now, ms)),
          Emplace(q.events, Key(now + ms, NextId(q)), NewAlarm(now, ms)), NextId(q))
  }

  function Remove(q: Queue, id: nat): Queue {
    if id in q.timers then q.(timers := q.timers - {id}, events := q.events - {Key(q.timers[id].next, id)}) else q
  }

  ghost function TimeRemaining(q: Queue, now: int): int
    requires q.timers != map[] ==> q.events != map[]
  {
    if q.timers == map[] then -1 else var msec := First(q.events.Keys).deadline - now; if msec < 0 then 0 else msec
  }

  // One turn of the loop: the timer at key k fires and answers whether it wants to fire again.
  function Fire(q: Queue, k: Key, now: int, again: bool): Queue
    requires k in q.events
  {
    if again then
      var alarm := q.events[k].(next := now + q.events[k].interval);
      q.(timers := if k.id in q.timers then q.timers[k.id := alarm] else q.timers,
         events := Emplace(q.events - {k}, Key(alarm.next, k.id), alarm))
    else
      q.(timers := q.timers - {k.id}, events := q.events - {k})
  }

  // --- What every state keeps ---

  ghost predicate HasEvent(q: Queue, id: nat) {
    exists t :: Key(t, id) in q.events
  }

  ghost predicate KnownIds(q: Queue) {
    && q.lastId <= MAX_ID
    && (forall id :: id in q.timers ==> id <= q.lastId)
    && (forall k :: k in q.events ==> k.id <= q.lastId && q.events[k].interval >= 1)
  }

  ghost predicate OneEventEach(q: Queue) {
    && (forall k :: k in q.events && k.id in q.timers ==> q.events[k] == q.timers[k.id])
    && (forall k, k' :: k in q.events && k' in q.events && k.id == k'.id ==> k == k')
  }

  // True even of timers added with a delay of zero.
  ghost predicate Safe(q: Queue) {
    && KnownIds(q) && OneEventEach(q)
    && (forall id :: id in q.timers ==> HasEvent(q, id))
  }

  // The two maps hold the same timers, each at the deadline that it stores.
  ghost predicate Agree(q: Queue) {
    && Safe(q)
    && (forall id :: id in q.timers ==> Key(q.timers[id].next, id) in q.events)
    && (forall k :: k in q.events ==> k.id in q.timers)
  }

  lemma AddSafe(q: Queue, now: int, ms: nat)
    requires Safe(q) && q.lastId < MAX_ID
    ensures Safe(Add(q, now, ms))
  {
    var r := Add(q, now, ms);
    assert Key(now + ms, r.lastId) in r.events;
    forall id | id in r.timers && id != r.lastId ensures HasEvent(r, id) {
      assert HasEvent(q, id);
      var t :| Key(t, id) in q.events;
      assert Key(t, id) in r.events;
    }
  }

  // An addition files a new timer and replaces nothing.
  lemma AddFiles(q: Queue, now: int, ms: nat)
    requires Safe(q) && q.lastId < MAX_ID
    ensures var id := q.lastId + 1;
      && id !in q.timers && (forall k :: k in q.events ==> k.id != id)
      && Add(q, now, ms) == Queue(q.timers[id := NewAlarm(now, ms)],
                                  q.events[Key(now + ms, id) := NewAlarm(now, ms)], id)
  {
  }

  /** The two maps agree after an addition exactly when the delay is not zero: the timer then
      stores the deadline one millisecond after the one it is filed under. */
  lemma AddAgreesIff(q: Queue, now: int, ms: nat)
    requires Agree(q) && q.lastId < MAX_ID
    ensures Safe(Add(q, now, ms))
    ensures Agree(Add(q, now, ms)) <==> ms > 0
  {
    AddSafe(q, now, ms);
    hide OneEventEach, HasEvent;
    var r := Add(q, now, ms);
    assert r.lastId !in q.timers && r.timers[r.lastId].next == now + if ms == 0 then 1 else ms;
    assert forall k :: k in r.events ==> k in q.events || k == Key(now + ms, r.lastId);
    if ms == 0 {
      assert Key(now + 1, r.lastId) !in r.events;
    }
  }

  lemma RemoveSafe(q: Queue, id: nat)
    requires Safe(q)
    ensures Safe(Remove(q, id))
  {
    var r := Remove(q, id);
    forall i | i in r.timers ensures HasEvent(r, i) {
      assert HasEvent(q, i);
      var t :| Key(t, i) in q.events;
      assert Key(t, i) in r.events;
    }
  }

  lemma RemoveAgrees(q: Queue, id: nat)
    requires Agree(q)
    ensures Agree(Remove(q, id))
    ensures id !in Remove(q, id).timers && forall k :: k in Remove(q, id).events ==> k.id != id
  {
    RemoveSafe(q, id);
  }

  // Firing refiles one event and leaves the others.
  lemma FireEvents(q: Queue, k: Key, now: int, again: bool)
    requires Safe(q) && k in q.events
    ensures var r, filed := Fire(q, k, now, again), Key(now + q.events[k].interval, k.id);
      && (forall other :: other in r.events <==> (other in q.events && other != k) || (again && other == filed))
      && (forall other :: other in r.events ==>
            r.events[other] == if other.id == k.id then q.events[k].(next := filed.deadline) else q.events[other])
      && (forall other :: other in q.events && other.id == k.id ==> other == k)
  {
    hide HasEvent;
  }

  lemma FireSafe(q: Queue, k: Key, now: int, again: bool)
    requires Safe(q) && k in q.events
    ensures Safe(Fire(q, k, now, again))
  {
    FireEvents(q, k, now, again);
    var r := Fire(q, k, now, again);
    FireKeepsEvents(q, k, now, again);
    assert KnownIds(r) by { hide OneEventEach, HasEvent; }
    assert OneEventEach(r) by { hide KnownIds, HasEvent; }
  }

  lemma FireKeepsEvents(q: Queue, k: Key, now: int, again: bool)
    requires Safe(q) && k in q.events
    ensures var r := Fire(q, k, now, again); forall id :: id in r.timers ==> HasEvent(r, id)
  {
    FireEvents(q, k, now, again);
    hide KnownIds, OneEventEach, Emplace;
    var r := Fire(q, k, now, again);
    forall id | id in r.timers ensures HasEvent(r, id) {
      if id == k.id {
        assert Key(now + q.events[k].interval, k.id) in r.events;
      } else {
        assert HasEvent(q, id);
        var t :| Key(t, id) in q.events;
        assert Key(t, id) in r.events;
      }
    }
  }

  lemma FireAgrees(q: Queue, k: Key, now: int, again: bool)
    requires Agree(q) && k in q.events
    ensures Agree(Fire(q, k, now, again))
  {
    FireSafe(q, k, now, again);
    FireEvents(q, k, now, again);
    var r := Fire(q, k, now, again);
    assert q.events[k] == q.timers[k.id];
    FireTimers(q, k, now, again);
    hide Safe, Fire;
    forall id | id in r.timers ensures Key(r.timers[id].next, id) in r.events {
      assert Key(q.timers[id].next, id) in q.events;
    }
  }

  lemma FireTimers(q: Queue, k: Key, now: int, again: bool)
    requires k in q.events && k.id in q.timers && q.events[k] == q.timers[k.id]
    ensures var r := Fire(q, k, now, again);
      && (forall id :: id in r.timers <==> id in q.timers && (id == k.id ==> again))
      && (forall id :: id in r.timers ==>
            r.timers[id] == if id == k.id then q.timers[id].(next := now + q.events[k].interval) else q.timers[id])
  {
  }

  // --- One call of HandleTimerEvent ---

  ghost function Due(q: Queue, now: int): set<Key> {
    set k | k in q.events && k.deadline <= now
  }

  lemma FireDue(q: Queue, k: Key, now: int, again: bool)
    requires Safe(q) && k in q.events && k.deadline <= now
    ensures Due(Fire(q, k, now, again), now) == Due(q, now) - {k}
    ensures |Due(Fire(q, k, now, again), now)| < |Due(q, now)|
  {
    FireEvents(q, k, now, again);
    assert q.events[k].interval >= 1;
    assert k in Due(q, now);
    hide Safe, Fire;
    assert Due(Fire(q, k, now, again), now) == Due(q, now) - {k};
  }

  lemma SafeNotEmpty(q: Queue)
    requires Safe(q) && q.timers != map[]
    ensures q.events.Keys != {}
  {
    var id :| id in q.timers;
    assert HasEvent(q, id);
  }

  // The loop goes on.
  ghost predicate Pending(q: Queue, now: int)
    requires Safe(q)
  {
    q.timers != map[] && (SafeNotEmpty(q); First(q.events.Keys).deadline <= now)
  }

  /** The loop, and the keys it fires at; `again` is what the callback at each key answers. */
  ghost function Dispatch(q: Queue, now: int, again: Key -> bool): (r: (Queue, seq<Key>))
    requires Safe(q)
    ensures Safe(r.0) && !Pending(r.0, now)
    decreases |Due(q, now)|
  {
    if !Pending(q, now) then (q, [])
    else
      SafeNotEmpty(q);
      var k := First(q.events.Keys);
      FireSafe(q, k, now, again(k));
      FireDue(q, k, now, again(k));
      var (r, fired) := Dispatch(Fire(q, k, now, again(k)), now, again);
      (r, [k] + fired)
  }

  lemma RefileValue(q: Queue, k: Key, now: int, alarm: Alarm)
    requires k in q.events && forall other :: other in q.events && other.id == k.id ==> other == k
    requires alarm == q.events[k].(next := now + q.events[k].interval)
    ensures Fire(q, k, now, true).timers == if k.id in q.timers then q.timers[k.id := alarm] else q.timers
    ensures Fire(q, k, now, true).events == (q.events - {k})[Key(alarm.next, k.id) := alarm]
    ensures Fire(q, k, now, true).lastId == q.lastId
  {
  }

  lemma DispatchNext(q: Queue, k: Key, now: int, again: Key -> bool)
    requires Safe(q) && q.timers != map[] && q.events.Keys != {} && k == First(q.events.Keys)
    ensures k.deadline > now ==> Dispatch(q, now, again) == (q, [])
    ensures k.deadline <= now ==>
      && Safe(Fire(q, k, now, again(k)))
      && var (r, fired) := Dispatch(Fire(q, k, now, again(k)), now, again);
         Dispatch(q, now, again).0 == r && Dispatch(q, now, again).1 == [k] + fired
  {
    FireSafe(q, k, now, again(k));
    if k.deadline <= now {
      FireDue(q, k, now, again(k));
    }
    hide Safe, Fire, First;
  }

  lemma DispatchNothing(q: Queue, now: int, again: Key -> bool)
    requires Safe(q) && q.timers == map[]
    ensures Dispatch(q, now, again) == (q, [])
  {
  }

  ghost predicate Increasing(keys: seq<Key>) {
    forall i, j :: 0 <= i < j < |keys| ==>
      keys[i].deadline < keys[j].deadline || (keys[i].deadline == keys[j].deadline && keys[i].id < keys[j].id)
  }

  // Where the timer that was filed under k is after the call, if it stays.
  function Refiled(k: Key, alarm: Alarm, now: int): Alarm {
    if k.deadline <= now then alarm.(next := now + alarm.interval) else alarm
  }

  // A timer that was due stays when its callback says so; one that was not due stays as it is.
  ghost predicate RescheduledAt(q: Queue, now: int, again: Key -> bool, r: Queue, id: nat) {
    && (id in r.timers <==> id in q.timers && Stays(Key(q.timers[id].next, id), now, again))
    && (id in r.timers ==> r.timers[id] == Refiled(Key(q.timers[id].next, id), q.timers[id], now))
  }

  ghost predicate Rescheduled(q: Queue, now: int, again: Key -> bool, r: Queue) {
    forall id :: RescheduledAt(q, now, again, r, id)
  }

  predicate Stays(k: Key, now: int, again: Key -> bool) {
    k.deadline <= now ==> again(k)
  }

  /** One call fires every timer that is due, each once and by deadline and then id, and no
      other; it reschedules those that ask for it from the time of the call and drops the rest. */
  lemma {:induction false} DispatchExact(q: Queue, now: int, again: Key -> bool)
    requires Agree(q)
    ensures var (r, fired) := Dispatch(q, now, again);
      && Increasing(fired) && (forall k :: k in fired <==> k in Due(q, now))
      && Agree(r) && Rescheduled(q, now, again, r) && r.lastId == q.lastId
    decreases |Due(q, now)|
  {
    if Pending(q, now) {
      SafeNotEmpty(q);
      var k := First(q.events.Keys);
      var next := Fire(q, k, now, again(k));
      FireSafe(q, k, now, again(k));
      FireAgrees(q, k, now, again(k));
      FireDue(q, k, now, again(k));
      var (r, fired) := Dispatch(next, now, again);
      DispatchExact(next, now, again);
      DispatchOrder(q, k, now, fired);
      RescheduledStep(q, k, now, again, r);
    } else {
      NothingDue(q, now);
    }
  }

  lemma DispatchOrder(q: Queue, k: Key, now: int, fired: seq<Key>)
    requires IsFirst(k, q.events.Keys) && k.deadline <= now && Increasing(fired)
    requires forall other :: other in fired <==> other in Due(q, now) - {k}
    ensures Increasing([k] + fired) && forall other :: other in [k] + fired <==> other in Due(q, now)
  {
    var all := [k] + fired;
    forall i, j | 0 <= i < j < |all| ensures Before(all[i], all[j]) {
      assert all[j] == fired[j - 1] && fired[j - 1] in fired;
      assert i > 0 ==> all[i] == fired[i - 1];
    }
  }

  /** Even beside timers added with a delay of zero: what fires is due, in order, and nothing of
      a timer that is registered and due is left out. */
  lemma {:induction false} DispatchSafe(q: Queue, now: int, again: Key -> bool)
    requires Safe(q)
    ensures var fired := Dispatch(q, now, again).1;
      && Increasing(fired) && (forall k :: k in fired ==> k in Due(q, now))
      && forall k :: k in Due(q, now) && k.id in q.timers ==> k in fired
    decreases |Due(q, now)|
  {
    if Pending(q, now) {
      SafeNotEmpty(q);
      var first := First(q.events.Keys);
      var next := Fire(q, first, now, again(first));
      FireSafe(q, first, now, again(first));
      FireDue(q, first, now, again(first));
      OthersStay(q, first, now, again(first));
      DispatchSafe(next, now, again);
      FiresFirst(q, first, now, Dispatch(next, now, again).1);
      hide Safe, Fire, First, IsFirst, Increasing, Due;
    } else if q.timers != map[] {
      SafeNotEmpty(q);
    }
  }

  // Firing one timer unregisters no other.
  lemma OthersStay(q: Queue, k: Key, now: int, again: bool)
    requires Safe(q) && k in q.events
    ensures forall other :: other in q.events && other.id in q.timers && other != k ==>
      other.id in Fire(q, k, now, again).timers
  {
    hide KnownIds, HasEvent, Emplace;
  }

  lemma FiresFirst(q: Queue, k: Key, now: int, fired: seq<Key>)
    requires IsFirst(k, q.events.Keys) && k.deadline <= now && Increasing(fired)
    requires forall other :: other in fired ==> other in Due(q, now) - {k}
    ensures Increasing([k] + fired) && forall other :: other in [k] + fired ==> other in Due(q, now)
    ensures forall other :: other in [k] + fired <==> other == k || other in fired
  {
    var all := [k] + fired;
    forall i, j | 0 <= i < j < |all| ensures Before(all[i], all[j]) {
      assert all[j] == fired[j - 1] && fired[j - 1] in fired;
      assert i > 0 ==> all[i] == fired[i - 1];
    }
  }

  lemma NothingDue(q: Queue, now: int)
    requires Agree(q) && !Pending(q, now)
    ensures Due(q, now) == {}
  {
    if q.timers != map[] {
      SafeNotEmpty(q);
    } else {
      assert forall k :: k in q.events ==> k.id in q.timers;
    }
  }

  // The timer that fires is refiled after `now`, so that nothing later in the call touches it.
  lemma RescheduledStep(q: Queue, k: Key, now: int, again: Key -> bool, r: Queue)
    requires Agree(q) && k in q.events && k.deadline <= now
    requires Agree(Fire(q, k, now, again(k))) && Rescheduled(Fire(q, k, now, again(k)), now, again, r)
    ensures Rescheduled(q, now, again, r)
  {
    assert q.events[k].interval >= 1 && q.events[k] == q.timers[k.id] && k == Key(q.timers[k.id].next, k.id);
    hide Safe, Emplace;
    forall id ensures RescheduledAt(q, now, again, r, id) {
      assert RescheduledAt(Fire(q, k, now, again(k)), now, again, r, id);
    }
  }

  function Clamped(ms: int): int {
    if ms < 0 then 0 else ms
  }

  /** The loop sleeps until the first timer is due, and not when one is due already. */
  lemma SleepsUntilDue(q: Queue, now: int)
    requires Agree(q)
    ensures q.timers != map[] ==> q.events != map[]
    ensures var ms := TimeRemaining(q, now);
      if q.timers == map[] then ms == -1
      else
        && (exists id :: id in q.timers && ms == Clamped(q.timers[id].next - now))
        && (forall id :: id in q.timers ==> ms <= Clamped(q.timers[id].next - now))
        && Due(q, now + ms) != {} && (ms > 0 ==> Due(q, now + ms - 1) == {})
  {
    if q.timers != map[] {
      SafeNotEmpty(q);
      var first := First(q.events.Keys);
      FiledUnderNext(q, first);
      DueFromFirst(q, first, now + TimeRemaining(q, now));
      DueFromFirst(q, first, now + TimeRemaining(q, now) - 1);
      hide Safe, Due;
      forall id | id in q.timers ensures first.deadline <= q.timers[id].next {
        assert Key(q.timers[id].next, id) in q.events;
      }
    }
  }

  lemma DueFromFirst(q: Queue, first: Key, now: int)
    requires IsFirst(first, q.events.Keys)
    ensures Due(q, now) != {} <==> first.deadline <= now
  {
    assert first.deadline <= now ==> first in Due(q, now);
  }

  lemma FiledUnderNext(q: Queue, k: Key)
    requires Agree(q) && k in q.events
    ensures k.id in q.timers && k == Key(q.timers[k.id].next, k.id)
  {
    assert Key(q.timers[k.id].next, k.id) in q.events;
  }

  // --- Zero delays ---

  /** A timer that is added and at once removed leaves an event behind exactly when its delay
      was zero. */
  lemma OrphanIffZero(q: Queue, now: int, ms: nat)
    requires Agree(q) && q.lastId < MAX_ID
    ensures var id := q.lastId + 1;
      (exists k :: k in Remove(Add(q, now, ms), id).events && k.id == id) <==> ms == 0
  {
    AddFiles(q, now, ms);
    var id := q.lastId + 1;
    var r := Remove(Add(q, now, ms), id);
    if ms == 0 {
      assert Key(now, id) in r.events;
    }
  }

  lemma FirstFires(q: Queue, k: Key, now: int, again: Key -> bool)
    requires Safe(q) && q.timers != map[] && IsFirst(k, q.events.Keys) && k.deadline <= now
    ensures k in Dispatch(q, now, again).1
  {
    hide Safe, Fire;
    SafeNotEmpty(q);
    var first := First(q.events.Keys);
    assert first != k ==> Before(k, first) && Before(first, k);
  }

  lemma AddThenErase<K, V>(m: map<K, V>, k: K, v: V)
    requires k !in m
    ensures m[k := v] - {k} == m
  {
  }

  lemma OrphanState(q: Queue, now: int)
    requires Agree(q) && q.lastId < MAX_ID
    ensures var id := q.lastId + 1; var r := Remove(Add(q, now, 0), id);
      Safe(r) && r.timers == q.timers && r.events.Keys == q.events.Keys + {Key(now, id)} && id !in q.timers
  {
    AddFiles(q, now, 0);
    AddSafe(q, now, 0);
    RemoveSafe(Add(q, now, 0), q.lastId + 1);
    hide Safe, Add;
    AddThenErase(q.timers, q.lastId + 1, NewAlarm(now, 0));
  }

  /** And that event does fire, although the timer has been removed, if another timer exists
      and none is overdue. */
  lemma OrphanFires(q: Queue, now: int, again: Key -> bool)
    requires Agree(q) && q.lastId < MAX_ID && q.timers != map[]
    requires forall k :: k in q.events ==> k.deadline > now
    ensures var id := q.lastId + 1; var r := Remove(Add(q, now, 0), id);
      Safe(r) && id !in r.timers && Key(now, id) in Dispatch(r, now, again).1
  {
    OrphanState(q, now);
    var id := q.lastId + 1;
    var r := Remove(Add(q, now, 0), id);
    hide Safe, Add, Remove, Dispatch;
    FirstFires(r, Key(now, id), now, again);
  }

  // --- The class ---

  class Timer {
    ghost const id: nat
    const interval: int
    var nextTimeout: int

    constructor (ghost id: nat, msec: nat)
      ensures this.id == id && interval == if msec == 0 then 1 else msec
    {
      this.id := id;
      interval := if msec == 0 then 1 else msec;
      nextTimeout := 0;
    }

    function Value(): Alarm
      reads this
    {
      Alarm(interval, nextTimeout)
    }

    method SetNextTimeout(timePoint: int)
      modifies this
      ensures nextTimeout == timePoint + interval
    {
      nextTimeout := timePoint + interval;
    }
  }

  class TimerQueue {
    // Both maps share the timer objects.
    var timers: map<nat, Timer>
    var events: map<Key, Timer>
    var lastTimerId: nat
    ghost var queue: Queue
    ghost var repr: set<Timer>

    // With the objects' values in place of the objects, the two maps are `queue`.
    ghost predicate Represented()
      reads this, repr
    {
      && lastTimerId == queue.lastId
      && (forall id :: id in queue.timers ==> id in timers)
      && (forall id :: id in timers ==>
            && id in queue.timers && timers[id] in repr && timers[id].id == id
            && timers[id].interval == queue.timers[id].interval && timers[id].nextTimeout == queue.timers[id].next)
      && (forall k :: k in queue.events ==> k in events)
      && (forall k :: k in events ==>
            && k in queue.events && events[k] in repr && events[k].id == k.id
            && events[k].interval == queue.events[k].interval && events[k].nextTimeout == queue.events[k].next)
    }

    ghost predicate Shared()
      reads this
    {
      forall k :: k in events && k.id in timers ==> events[k] == timers[k.id]
    }

    ghost predicate Valid()
      reads this, repr
    {
      Represented() && Shared() && Safe(queue)
    }

    constructor ()
      ensures Valid() && queue == Queue(map[], map[], 0) && repr == {}
    {
      timers, events, lastTimerId := map[], map[], 0;
      queue, repr := Queue(map[], map[], 0), {};
    }

    method AddTimer(now: int, ms: nat) returns (timerId: nat)
      requires Valid() && lastTimerId < MAX_ID
      modifies this
      ensures Valid() && queue == Add(old(queue), now, ms) && timerId == queue.lastId
      ensures old(repr) <= repr && fresh(repr - old(repr))
    {
      AddSafe(queue, now, ms);
      AddFiles(queue, now, ms);
      hide Safe, Add;
      timerId := lastTimerId + 1;
      var timer := new Timer(timerId, ms);
      timer.SetNextTimeout(now);
      File(timer, timerId, Key(now + ms, timerId));
      assert timer.Value() == NewAlarm(now, ms);
    }

    // Puts a new timer into both maps.
    method File(timer: Timer, timerId: nat, k: Key)
      requires Represented() && Shared() && timer.id == timerId == k.id && timer !in repr
      requires timerId !in timers && forall k :: k in events ==> k.id != timerId
      modifies this
      ensures Represented() && Shared() && repr == old(repr) + {timer}
      ensures queue ==
        Queue(old(queue.timers)[timerId := timer.Value()], old(queue.events)[k := timer.Value()], timerId)
    {
      queue := Queue(queue.timers[timerId := timer.Value()], queue.events[k := timer.Value()], timerId);
      repr := repr + {timer};
      lastTimerId := timerId;
      timers := timers[timerId := timer];
      events := events[k := timer];
    }

    method RemoveTimer(timerId: nat)
      requires Valid()
      modifies this
      ensures Valid() && queue == Remove(old(queue), timerId) && repr == old(repr)
    {
      RemoveSafe(queue, timerId);
      hide Safe;
      if timerId in timers {
        var timeout := timers[timerId].nextTimeout;
        Unfile(timerId, Key(timeout, timerId));
      }
    }

    // Erases a timer's entries.
    method Unfile(timerId: nat, k: Key)
      requires Represented() && Shared()
      modifies this
      ensures Represented() && Shared() && repr == old(repr)
      ensures queue == old(queue).(timers := old(queue).timers - {timerId}, events := old(queue).events - {k})
    {
      queue := queue.(timers := queue.timers - {timerId}, events := queue.events - {k});
      events := events - {k};
      timers := timers - {timerId};
    }

    // The first entry of the ordered map.
    method Begin() returns (k: Key)
      requires Valid() && timers != map[]
      ensures queue.timers != map[] && queue.events.Keys != {} && k == First(queue.events.Keys)
    {
      ghost var id :| id in timers;
      assert id in queue.timers;
      SafeNotEmpty(queue);
      ghost var first := First(queue.events.Keys);
      k :| k in events && forall other :: other in events && other != k ==> Before(k, other);
      assert k != first ==> Before(k, first) && Before(first, k);
    }

    method GetTimeRemaining(now: int) returns (msec: int)
      requires Valid()
      ensures queue.timers != map[] ==> queue.events != map[]
      ensures msec == TimeRemaining(queue, now)
    {
      if timers == map[] {
        assert queue.timers.Keys == {};
        return -1;
      }
      var k := Begin();
      msec := k.deadline - now;
      if msec < 0 {
        msec := 0;
      }
    }

    lemma EmptyTogether()
      requires Valid()
      ensures timers == map[] <==> queue.timers == map[]
    {
      if queue.timers != map[] {
        var id :| id in queue.timers;
        assert id in timers;
      }
    }

    method HandleTimerEvent(now: int, again: Key -> bool) returns (fired: seq<Key>)
      requires Valid()
      modifies this, repr
      ensures Valid() && repr == old(repr) && queue == Dispatch(old(queue), now, again).0
      ensures fired == Dispatch(old(queue), now, again).1
    {
      hide Safe, First, Fire, Represented, Shared, Due, Dispatch;
      fired := [];
      while timers != map[]
        invariant Valid() && repr == old(repr)
        invariant Dispatch(old(queue), now, again).0 == Dispatch(queue, now, again).0
        invariant Dispatch(old(queue), now, again).1 == fired + Dispatch(queue, now, again).1
        decreases |Due(queue, now)|
      {
        var k := Begin();
        DispatchNext(queue, k, now, again);
        if k.deadline > now {
          return;
        }
        FireDue(queue, k, now, again(k));
        FireFirst(k, now, again(k));
        fired := fired + [k];
      }
      EmptyTogether();
      DispatchNothing(queue, now, again);
    }

    method FireFirst(k: Key, now: int, again: bool)
      requires Valid() && k in queue.events
      modifies this, repr
      ensures Valid() && repr == old(repr) && queue == Fire(old(queue), k, now, again)
    {
      FireSafe(queue, k, now, again);
      FireEvents(queue, k, now, again);
      hide Safe;
      if again {
        Refile(k, now);
      } else {
        Unfile(k.id, k);
      }
    }

    // Moves the event at k to the timer's next deadline.
    method Refile(k: Key, now: int)
      requires Represented() && Shared() && k in events && k in queue.events
      requires events[k].Value() == queue.events[k]
      requires forall other :: other in queue.events && other.id == k.id ==> other == k
      modifies this, events[k]
      ensures Represented() && Shared() && repr == old(repr)
      ensures queue == Fire(old(queue), k, now, true)
    {
      ghost var fired := Fire(queue, k, now, true);
      ghost var alarm := Alarm(queue.events[k].interval, now + queue.events[k].interval);
      RefileValue(queue, k, now, alarm);
      hide Fire, Represented, Shared, Emplace;
      var timer := Delay(k, now);
      assert timer.Value() == alarm;
      FileEvent(timer, Key(timer.nextTimeout, k.id));
    }

    method FileEvent(timer: Timer, k: Key)
      requires Represented() && Shared() && timer in repr && timer.id == k.id
      requires k.id in timers ==> timers[k.id] == timer
      modifies this
      ensures Represented() && Shared() && repr == old(repr) && timers == old(timers)
      ensures queue == old(queue).(events := old(queue).events[k := timer.Value()])
    {
      queue := queue.(events := queue.events[k := timer.Value()]);
      events := events[k := timer];
    }

    // Takes the event at k out, with its timer set to its next deadline.
    method Delay(k: Key, now: int) returns (timer: Timer)
      requires Represented() && Shared() && k in events
      requires forall other :: other in queue.events && other.id == k.id ==> other == k
      modifies this, events[k]
      ensures Represented() && Shared() && repr == old(repr) && timer == old(events[k])
      ensures timer in repr && timer.id == k.id && (k.id in timers ==> timers[k.id] == timer)
      ensures timer.Value() == old(timer.Value()).(next := now + timer.interval)
      ensures queue.lastId == old(queue).lastId && queue.events == old(queue).events - {k}
      ensures queue.timers ==
        if k.id in old(queue).timers then old(queue).timers[k.id := timer.Value()] else old(queue).timers
    {
      timer := events[k];
      timer.SetNextTimeout(now);
      events := events - {k};
      queue := queue.(
        timers := if k.id in queue.timers then queue.timers[k.id := timer.Value()] else queue.timers,
        events := queue.events - {k});
    }
  }
}
