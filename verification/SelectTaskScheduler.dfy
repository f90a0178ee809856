/** The event loop over select: descriptor sets cached between calls, with a dirty flag each. */
module SelectTaskScheduler {

  const EVENT_IN: bv16 := 1
  const EVENT_OUT: bv16 := 4
  const EVENT_HUP: bv16 := 16

  // The three sets handed to select, and the bound on descriptors handed with them.
  datatype Sets = Sets(read: set<nat>, write: set<nat>, exp: set<nat>, maxfd: nat)

  // `pending` are the registered channels whose interest changed since they were last announced.
  datatype Poller = Poller(
    events: map<nat, bv16>, pending: set<nat>,
    readReset: bool, writeReset: bool, expReset: bool, cache: Sets)

  predicate Reads(events: bv16) { events & EVENT_IN != 0 }
  predicate Writes(events: bv16) { events & EVENT_OUT != 0 }

  ghost function Readers(events: map<nat, bv16>): set<nat> {
    set fd | fd in events && Reads(events[fd])
  }

  ghost function Writers(events: map<nat, bv16>): set<nat> {
    set fd | fd in events && Writes(events[fd])
  }

  // --- The operations as functions ---

  function Reset(p: Poller): Poller {
    p.(readReset := true, writeReset := true, expReset := true)
  }

  // A channel's owner changes its interest, on whatever thread.
  function Change(p: Poller, fd: nat, events: bv16): Poller {
    if fd in p.events then p.(events := p.events[fd := events], pending := p.pending + {fd}) else p
  }

  function Remove(p: Poller, fd: nat): Poller {
    if fd in p.events then Reset(p.(events := p.events - {fd}, pending := p.pending - {fd})) else p
  }

  // UpdateChannel; `events` are those of the channel that it is called with. A channel that is
  // registered keeps its own.
  function Announce(p: Poller, fd: nat, events: bv16): Poller {
    if fd in p.events then
      if events == 0 then Remove(p, fd) else p.(writeReset := true, pending := p.pending - {fd})
    else if events != 0 then
      Reset(p.(events := p.events[fd := events]))
    else p
  }

  ghost function MaxFd(fds: set<nat>): (m: nat)
    ensures forall fd :: fd in fds ==> fd <= m
    ensures m == 0 || m in fds
  {
    if fds == {} then 0
    else
      var fd :| fd in fds;
      var m := MaxFd(fds - {fd});
      assert forall other :: other in fds ==> other == fd || other in fds - {fd};
      if fd > m then fd else m
  }

  // What the next call of select sees; with no channel there is no call.
  ghost function Refresh(p: Poller): Poller {
    p.(readReset := false, writeReset := false, expReset := false,
       cache := Sets(if p.readReset then Readers(p.events) else p.cache.read,
                     if p.writeReset then Writers(p.events) else p.cache.write,
                     if p.expReset then p.events.Keys else p.cache.exp,
                     if p.expReset then MaxFd(p.events.Keys) else p.cache.maxfd))
  }

  ghost function Select(p: Poller): Poller {
    if p.events == map[] then p else Refresh(p)
  }

  // --- Whole runs ---

  datatype Op = ChangeOp(fd: nat, events: bv16) | AnnounceOp(fd: nat, events: bv16) | RemoveOp(fd: nat) | SelectOp

  ghost function Do(p: Poller, op: Op): Poller {
    match op
    case ChangeOp(fd, events) => Change(p, fd, events)
    case AnnounceOp(fd, events) => Announce(p, fd, events)
    case RemoveOp(fd) => Remove(p, fd)
    case SelectOp => Select(p)
  }

  function Start(): Poller {
    Poller(map[], {}, false, false, false, Sets({}, {}, {}, 0))
  }

  // The state after a run from the start.
  ghost function Run(ops: seq<Op>): Poller
    decreases |ops|
  {
    if ops == [] then Start() else Do(Run(ops[..|ops| - 1]), ops[|ops| - 1])
  }

  // --- What a run means, without cache and flags ---

  // The registered channels and their interest.
  function Step(events: map<nat, bv16>, op: Op): map<nat, bv16> {
    match op
    case ChangeOp(fd, e) => if fd in events then events[fd := e] else events
    case AnnounceOp(fd, e) =>
      if fd in events then (if e == 0 then events - {fd} else events) else if e != 0 then events[fd := e] else events
    case RemoveOp(fd) => if fd in events then events - {fd} else events
    case SelectOp => events
  }

  function Interests(ops: seq<Op>): map<nat, bv16>
    decreases |ops|
  {
    if ops == [] then map[] else Step(Interests(ops[..|ops| - 1]), ops[|ops| - 1])
  }

  // The operation registers or removes a channel.
  predicate Stirs(events: map<nat, bv16>, op: Op) {
    match op
    case AnnounceOp(fd, e) => if fd in events then e == 0 else e != 0
    case RemoveOp(fd) => fd in events
    case _ => false
  }

  // A channel was registered or removed since the last call of select; with no channel there
  // is no call.
  predicate Dirty(ops: seq<Op>)
    decreases |ops|
  {
    ops != [] &&
      var before, op := ops[..|ops| - 1], ops[|ops| - 1];
      if op == SelectOp then Dirty(before) && Interests(before) == map[]
      else Dirty(before) || Stirs(Interests(before), op)
  }

  // The channels that read at the last call of select after such a change.
  ghost function LastReaders(ops: seq<Op>): set<nat>
    decreases |ops|
  {
    if ops == [] then {}
    else
      var before := ops[..|ops| - 1];
      if ops[|ops| - 1] == SelectOp && Dirty(before) && Interests(before) != map[] then Readers(Interests(before))
      else LastReaders(before)
  }

  // Everything but the write set, which follows every announcement.
  ghost predicate Describes(p: Poller, ops: seq<Op>) {
    && p.events == Interests(ops) && p.pending <= p.events.Keys
    && p.readReset == p.expReset == Dirty(ops)
    && p.cache.read == LastReaders(ops)
    && (p.expReset || (p.cache.exp == p.events.Keys && p.cache.maxfd == MaxFd(p.events.Keys)))
    && (p.writeReset || forall fd :: fd !in p.pending ==> (fd in p.cache.write <==> fd in Writers(p.events)))
  }

  lemma DoDescribed(p: Poller, ops: seq<Op>, op: Op)
    requires Describes(p, ops)
    ensures Describes(Do(p, op), ops + [op])
  {
    var all := ops + [op];
    assert all[..|all| - 1] == ops && all[|all| - 1] == op;
    hide MaxFd, Reads, Writes;
    if op.ChangeOp? && op.fd in p.events {
      assert p.events[op.fd := op.events].Keys == p.events.Keys;
    }
  }

  lemma {:induction false} RunDescribed(ops: seq<Op>)
    ensures Describes(Run(ops), ops)
    decreases |ops|
  {
    if ops != [] {
      var n := |ops| - 1;
      RunDescribed(ops[..n]);
      DoDescribed(Run(ops[..n]), ops[..n], ops[n]);
      assert ops[..n] + [ops[n]] == ops;
      hide Describes, Do;
    }
  }

  // --- When select is asked about the right channels ---

  ghost predicate AsksExactly(cache: Sets, events: map<nat, bv16>) {
    cache == Sets(Readers(events), Writers(events), events.Keys, MaxFd(events.Keys))
  }

  /** In every run whose changes are all announced, the next call of select is about exactly the
      channels that want to read, those that want to write, and all, under a tight bound, if and
      only if a channel was registered or removed since the last call, or the channels that
      read now are those that read at the last call after such a change. */
  lemma SelectIsRightIff(ops: seq<Op>)
    requires Run(ops).pending == {} && Interests(ops) != map[]
    ensures AsksExactly(Run(ops + [SelectOp]).cache, Interests(ops))
      <==> Dirty(ops) || LastReaders(ops) == Readers(Interests(ops))
  {
    RunDescribed(ops);
    var all := ops + [SelectOp];
    assert all[..|all| - 1] == ops;
    hide Run, Dirty, LastReaders, Readers, Interests, MaxFd, Writes;
    var p := Run(ops);
    assert p.writeReset || p.cache.write == Writers(p.events);
  }

  // What a caller may do with a registered channel: leave alone whether it reads, or clear all
  // its interest and announce that before anything else; and announce it as it is.
  predicate Allowed(events: map<nat, bv16>, op: Op) {
    match op
    case ChangeOp(fd, e) => fd in events ==> events[fd] != 0 && (e == 0 || Reads(e) == Reads(events[fd]))
    case AnnounceOp(fd, e) => fd in events ==> e == events[fd]
    case _ => true
  }

  ghost predicate Disciplined(ops: seq<Op>) {
    forall k :: 0 <= k < |ops| ==> Allowed(Interests(ops[..k]), ops[k])
  }

  // Every channel with any interest reads as the read set says, and one without is pending.
  ghost predicate ReadsAsCached(p: Poller) {
    forall fd :: fd in p.events ==>
      if p.events[fd] == 0 then fd in p.pending
      else p.readReset || (fd in p.cache.read <==> Reads(p.events[fd]))
  }

  lemma DoReadsAsCached(p: Poller, op: Op)
    requires ReadsAsCached(p) && p.pending <= p.events.Keys && Allowed(p.events, op)
    ensures ReadsAsCached(Do(p, op))
  {
    hide MaxFd, Reads, Writes;
  }

  lemma {:induction false} RunReadsAsCached(ops: seq<Op>)
    requires Disciplined(ops)
    ensures ReadsAsCached(Run(ops))
    decreases |ops|
  {
    if ops != [] {
      var n := |ops| - 1;
      forall k | 0 <= k < n ensures Allowed(Interests(ops[..n][..k]), ops[..n][k]) {
        assert ops[..n][..k] == ops[..k];
      }
      RunReadsAsCached(ops[..n]);
      RunDescribed(ops[..n]);
      DoReadsAsCached(Run(ops[..n]), ops[n]);
    }
  }

  /** In every run in which no registered channel changes whether it reads, unless it drops all
      its interest and says so, select is asked about exactly the right channels whenever
      nothing is left to announce. */
  lemma DisciplinedIsRight(ops: seq<Op>)
    requires Disciplined(ops) && Run(ops).pending == {} && Interests(ops) != map[]
    ensures AsksExactly(Run(ops + [SelectOp]).cache, Interests(ops))
  {
    RunReadsAsCached(ops);
    RunDescribed(ops);
    SelectIsRightIff(ops);
    if !Dirty(ops) {
      ReadersStay(ops);
    }
    hide Run, Dirty, LastReaders, Readers, Interests;
  }

  lemma ReadersStay(ops: seq<Op>)
    requires Describes(Run(ops), ops) && ReadsAsCached(Run(ops)) && Run(ops).pending == {} && !Dirty(ops)
    ensures LastReaders(ops) == Readers(Interests(ops))
  {
    LastReadersRegistered(ops);
    hide Run, Dirty, LastReaders, Interests, MaxFd, Reads, Writes;
  }

  // As long as nothing is registered or removed, those that read last are registered.
  lemma {:induction false} LastReadersRegistered(ops: seq<Op>)
    requires !Dirty(ops)
    ensures LastReaders(ops) <= Interests(ops).Keys
    decreases |ops|
  {
    if ops != [] {
      var before := ops[..|ops| - 1];
      if !Dirty(before) {
        LastReadersRegistered(before);
      }
    }
  }

  /** Turning write interest on or off, as connections do with channels that read, is allowed. */
  lemma WritingIsAllowed(events: map<nat, bv16>, fd: nat)
    requires fd in events && Reads(events[fd])
    ensures Allowed(events, ChangeOp(fd, events[fd] | EVENT_OUT)) && Reads(events[fd] | EVENT_OUT)
    ensures Allowed(events, ChangeOp(fd, events[fd] & !EVENT_OUT)) && Reads(events[fd] & !EVENT_OUT)
  {
  }

  lemma Next(ops: seq<Op>, op: Op)
    ensures Run(ops + [op]) == Do(Run(ops), op) && Interests(ops + [op]) == Step(Interests(ops), op)
    ensures LastReaders(ops + [op]) ==
      if op == SelectOp && Dirty(ops) && Interests(ops) != map[] then Readers(Interests(ops)) else LastReaders(ops)
    ensures Dirty(ops + [op]) <==>
      if op == SelectOp then Dirty(ops) && Interests(ops) == map[] else Dirty(ops) || Stirs(Interests(ops), op)
  {
    assert (ops + [op])[..|ops|] == ops;
  }

  /** A channel that stops reading while it still writes stays in the read set. */
  lemma StaleReader(fd: nat)
    ensures var ops := [] + [AnnounceOp(fd, EVENT_IN | EVENT_OUT)] + [SelectOp]
                         + [ChangeOp(fd, EVENT_OUT)] + [AnnounceOp(fd, EVENT_OUT)];
      && Run(ops).pending == {} && !AsksExactly(Run(ops + [SelectOp]).cache, Interests(ops))
      && fd in Run(ops + [SelectOp]).cache.read && fd !in Readers(Interests(ops))
  {
    var a := [] + [AnnounceOp(fd, EVENT_IN | EVENT_OUT)];
    var b := a + [SelectOp];
    var c := b + [ChangeOp(fd, EVENT_OUT)];
    var ops := c + [AnnounceOp(fd, EVENT_OUT)];
    Next([], AnnounceOp(fd, EVENT_IN | EVENT_OUT));
    Next(a, SelectOp);
    Next(b, ChangeOp(fd, EVENT_OUT));
    Next(c, AnnounceOp(fd, EVENT_OUT));
    Next(ops, SelectOp);
    RunDescribed(ops);
    RunDescribed(ops + [SelectOp]);
    SelectIsRightIff(ops);
    assert fd in Readers(Interests(a)) && fd !in Readers(Interests(ops));
  }

  // --- The class ---

  class Channel {
    const socket: nat
    var events: bv16

    constructor (socket: nat)
      ensures this.socket == socket && events == 0
    {
      this.socket := socket;
      events := 0;
    }

    predicate IsNoneEvent()
      reads this
    {
      events == 0
    }

    method EnableWriting()
      modifies this
      ensures events == old(events) | EVENT_OUT && Writes(events) && Reads(events) == Reads(old(events))
    {
      WritingBit(events);
      hide Reads, Writes;
      events := events | EVENT_OUT;
    }

    method DisableWriting()
      modifies this
      ensures events == old(events) & !EVENT_OUT && !Writes(events) && Reads(events) == Reads(old(events))
    {
      WritingBit(events);
      hide Reads, Writes;
      events := events & !EVENT_OUT;
    }
  }

  lemma WritingBit(e: bv16)
    ensures Writes(e | EVENT_OUT) && !Writes(e & !EVENT_OUT)
    ensures Reads(e | EVENT_OUT) == Reads(e) && Reads(e & !EVENT_OUT) == Reads(e)
  {
    BitOn(e);
    BitOff(e);
  }

  lemma BitOn(e: bv16)
    ensures (e | EVENT_OUT) & EVENT_OUT != 0 && (e | EVENT_OUT) & EVENT_IN == e & EVENT_IN
  {
  }

  lemma BitOff(e: bv16)
    ensures (e & !EVENT_OUT) & EVENT_OUT == 0 && (e & !EVENT_OUT) & EVENT_IN == e & EVENT_IN
  {
  }

  // What select answers: an error, a timeout, or the descriptors that are ready.
  datatype Reply = Error(interrupted: bool) | Timeout | Ready(read: set<nat>, write: set<nat>, exp: set<nat>)

  // The events that a reply has for a descriptor.
  function EventsFor(reply: Reply, fd: nat): bv16
    requires reply.Ready?
  {
    (if fd in reply.read then EVENT_IN else 0)
    | (if fd in reply.write then EVENT_OUT else 0)
    | (if fd in reply.exp then EVENT_HUP else 0)
  }

  /** A descriptor gets the bit for reading, for writing and for a hang-up exactly when it is in the
      answered set of that name, and no other bit. */
  lemma EventsAreBits(reply: Reply, fd: nat)
    requires reply.Ready?
    ensures var e := EventsFor(reply, fd);
      && (e & 1 != 0 <==> fd in reply.read)
      && (e & 4 != 0 <==> fd in reply.write)
      && (e & 16 != 0 <==> fd in reply.exp)
      && e & !21 == 0
  {
  }

  // The sets and the bound over some of the channels, as far as the flags ask for them.
  ghost predicate FoundIn(found: Sets, fds: set<nat>, p: Poller) {
    && (forall fd :: fd in found.read <==> fd in fds && fd in p.events && p.readReset && Reads(p.events[fd]))
    && (forall fd :: fd in found.write <==> fd in fds && fd in p.events && p.writeReset && Writes(p.events[fd]))
    && (forall fd :: fd in found.exp <==> fd in fds && p.expReset)
    && (p.expReset ==> found.maxfd == 0 || found.maxfd in fds)
    && (p.expReset ==> forall fd :: fd in fds ==> fd <= found.maxfd)
  }

  // The new sets whose flags are up, and the old ones.
  function Merge(found: Sets, cache: Sets, readReset: bool, writeReset: bool, expReset: bool): Sets {
    Sets(if readReset then found.read else cache.read, if writeReset then found.write else cache.write,
         if expReset then found.exp else cache.exp, if expReset then found.maxfd else cache.maxfd)
  }

  lemma Refreshed(found: Sets, p: Poller)
    requires FoundIn(found, p.events.Keys, p.(pending := {}))
    ensures Merge(found, p.cache, p.readReset, p.writeReset, p.expReset) == Refresh(p).cache
  {
    assert p.readReset ==> found.read == Readers(p.events);
    assert p.writeReset ==> found.write == Writers(p.events);
    assert p.expReset ==> found.exp == p.events.Keys && found.maxfd == MaxFd(p.events.Keys);
  }

  class SelectTaskScheduler {
    var channels: map<nat, Channel>
    var readReset: bool
    var writeReset: bool
    var expReset: bool
    var backup: Sets

    ghost predicate Valid()
      reads this
    {
      forall fd :: fd in channels ==> channels[fd].socket == fd
    }

    ghost function View(pending: set<nat>): Poller
      reads this, channels.Values
    {
      Poller(map fd | fd in channels :: channels[fd].events, pending, readReset, writeReset, expReset, backup)
    }

    constructor ()
      ensures Valid() && View({}) == Start()
    {
      channels := map[];
      readReset, writeReset, expReset := false, false, false;
      backup := Sets({}, {}, {}, 0);
    }

    method UpdateChannel(channel: Channel, ghost pending: set<nat>)
      requires Valid()
      modifies this
      ensures Valid()
      ensures View(if channel.socket in old(channels) then pending - {channel.socket} else pending)
        == Announce(old(View(pending)), channel.socket, channel.events)
    {
      var socket := channel.socket;
      if socket in channels {
        if channel.IsNoneEvent() {
          readReset, writeReset, expReset := true, true, true;
          channels := channels - {socket};
        } else {
          writeReset := true;
        }
      } else if !channel.IsNoneEvent() {
        channels := channels[socket := channel];
        readReset, writeReset, expReset := true, true, true;
      }
    }

    method RemoveChannel(channel: Channel, ghost pending: set<nat>)
      requires Valid()
      modifies this
      ensures Valid()
      ensures View(if channel.socket in old(channels) then pending - {channel.socket} else pending)
        == Remove(old(View(pending)), channel.socket)
    {
      var fd := channel.socket;
      if fd in channels {
        readReset, writeReset, expReset := true, true, true;
        channels := channels - {fd};
      }
    }

    // Recomputes the sets whose flags are up.
    method FillSets(ghost pending: set<nat>) returns (sets: Sets)
      requires Valid()
      modifies this
      ensures Valid() && channels == old(channels)
      ensures View(pending) == Refresh(old(View(pending))) && sets == backup
    {
      hide Reads, Writes;
      var found := Scan();
      ghost var p := View(pending);
      assert View({}) == p.(pending := {}) && p.events.Keys == channels.Keys;
      Refreshed(found, p);
      hide FoundIn, Readers, Writers, MaxFd;
      backup := Merge(found, backup, readReset, writeReset, expReset);
      sets := backup;
      readReset, writeReset, expReset := false, false, false;
    }

    // What one pass over the channels finds for the flags that are up.
    method Scan() returns (found: Sets)
      requires Valid()
      ensures FoundIn(found, channels.Keys, View({}))
    {
      hide Reads, Writes;
      var read, write, exp, maxfd := {}, {}, {}, 0;
      var rest := channels.Keys;
      ghost var p, done := View({}), {};
      while rest != {}
        invariant p == View({}) && done + rest == channels.Keys
        invariant FoundIn(Sets(read, write, exp, maxfd), done, p)
      {
        var fd :| fd in rest;
        rest, done := rest - {fd}, done + {fd};
        assert fd in p.events;
        var events := channels[fd].events;
        if readReset && Reads(events) {
          read := read + {fd};
        }
        if writeReset && Writes(events) {
          write := write + {fd};
        }
        if expReset {
          exp := exp + {fd};
          if fd > maxfd {
            maxfd := fd;
          }
        }
      }
      found := Sets(read, write, exp, maxfd);
      assert done == channels.Keys;
    }

    // The channels that have something to handle, with their events.
    method Collect(reply: Reply) returns (ready: map<nat, bv16>)
      requires Valid() && reply.Ready?
      ensures forall fd :: fd in ready <==> fd in channels && EventsFor(reply, fd) != 0
      ensures forall fd :: fd in ready ==> ready[fd] == EventsFor(reply, fd)
    {
      ready := map[];
      var rest := channels.Keys;
      while rest != {}
        invariant rest <= channels.Keys
        invariant forall fd :: fd in ready <==> fd in channels && fd !in rest && EventsFor(reply, fd) != 0
        invariant forall fd :: fd in ready ==> ready[fd] == EventsFor(reply, fd)
      {
        var fd :| fd in rest;
        rest := rest - {fd};
        var events := EventsFor(reply, fd);
        if events != 0 {
          ready := ready[fd := events];
        }
      }
    }

    /** One turn: `asked` is what select was called with, if it was, and `ready` what its reply
        has for the channels. */
    method HandleEvent(reply: Reply, ghost pending: set<nat>)
      returns (ok: bool, asked: seq<Sets>, ready: map<nat, bv16>)
      requires Valid()
      modifies this
      ensures Valid() && channels == old(channels) && View(pending) == Select(old(View(pending)))
      ensures asked == if channels == map[] then [] else [View(pending).cache]
      ensures ok <==> channels == map[] || !reply.Error? || reply.interrupted
      ensures forall fd ::
        fd in ready <==> channels != map[] && reply.Ready? && fd in channels && EventsFor(reply, fd) != 0
      ensures forall fd :: fd in ready ==> ready[fd] == EventsFor(reply, fd)
    {
      if channels == map[] {
        assert View(pending).events == map[];
        return true, [], map[];
      }
      var fd :| fd in channels;
      assert fd in View(pending).events;
      var sets := FillSets(pending);
      asked := [sets];
      match reply {
        case Error(interrupted) => return interrupted, asked, map[];
        case Timeout => return true, asked, map[];
        case Ready(_, _, _) =>
          ready := Collect(reply);
          return true, asked, ready;
      }
    }
  }
}
