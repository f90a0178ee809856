/** What clients that share one packet buffer get over whole runs of their session. */
module ClientIsolation {
  import opened Sequences
  import opened Rtp
  import opened RtpConnection
  import opened MediaSession
  import opened ClientStream
  import opened BufferWriter
  import opened WireConservation
  import Interleaved
  import Tcp = TcpConnection

  // --- One client in its session, seen alone ---

  datatype Solo = Absent | Present(slot: Slot)

  // What happens to one client between packets. The event loop flushes its connection, or closes
  // it. Closing and leaving the session are two events: the loop may have to wait in between.
  datatype Change =
    | SetUp(ch: ChannelId, transport: TransportMode, rtpChannel: uint16)
    | Play | Record | Teardown | Flush | HangUp

  datatype Event =
    | Packet(item: Item)
    | Change(fd: int, change: Change)
    | Expire(fd: int)
    | Join(fd: int, client: Client)
    | Leave(fd: int)

  ghost predicate EventOk(e: Event) {
    match e
    case Packet(item) => Small(item)
    case Join(_, c) => c.Valid()
    case _ => true
  }

  ghost function Changed(c: Client, change: Change): (r: Client)
    requires c.Valid()
    ensures r.Valid()
  {
    match change
    case SetUp(ch, transport, rtpChannel) =>
      c.(info := c.info[ch := c.info[ch].(rtpChannel := rtpChannel, isSetup := true)], transport := transport)
    case Play => c.Played()
    case Record => c.Recorded()
    case Teardown => c.TornDown()
    case Flush => c.Flushed()
    case HangUp => c.(conn := c.conn.(open := false))
  }

  ghost predicate SoloValid(s: Solo) {
    s.Present? && s.slot.Live? ==> s.slot.client.Valid()
  }

  ghost predicate Served(s: Slot) { s.Live? && s.client.online }

  /** What an event does to the client of one socket, whatever other clients there are. */
  ghost function SoloStep(fd: int, s: Solo, e: Event): (r: Solo)
    requires SoloValid(s) && EventOk(e)
    ensures SoloValid(r)
  {
    match e
    case Packet(item) =>
      if s == Absent || s.slot.Expired? then Absent
      else if !s.slot.client.online then s
      else Present(Live(fd, SendStep(s.slot.client, item.ch, item.pkt).client))
    case Change(f, change) =>
      if f == fd && s.Present? && s.slot.Live? then Present(Live(fd, Changed(s.slot.client, change))) else s
    case Expire(f) => if f == fd && s.Present? then Present(Expired(fd)) else s
    case Join(f, c) => if f == fd && s == Absent then Present(Live(fd, c)) else s
    case Leave(f) => if f == fd then Absent else s
  }

  // How it goes for one client, seen alone: its own flush may fail while the packet is sent, or
  // the send may wait for an event loop that is closing the client's connection.
  datatype Fate = Well | FlushFails | Waits

  ghost function FateOf(s: Solo, e: Event): Fate
    requires SoloValid(s) && EventOk(e)
  {
    if e.Packet? && s.Present? && Served(s.slot) then
      var sent := SendStep(s.slot.client, e.item.ch, e.item.pkt);
      if sent.waits then Waits else if Closes(s.slot.client, sent.client) then FlushFails else Well
    else Well
  }

  ghost predicate AllOk(events: seq<Event>) {
    forall i :: 0 <= i < |events| ==> EventOk(events[i])
  }

  ghost function SoloRun(fd: int, s: Solo, events: seq<Event>): (r: Solo)
    requires SoloValid(s) && AllOk(events)
    ensures SoloValid(r)
    decreases events
  {
    if events == [] then s else SoloRun(fd, SoloStep(fd, s, events[0]), events[1..])
  }

  ghost predicate Ever(fd: int, s: Solo, events: seq<Event>, fate: Fate)
    requires SoloValid(s) && AllOk(events)
    decreases events
  {
    events != [] && (FateOf(s, events[0]) == fate || Ever(fd, SoloStep(fd, s, events[0]), events[1..], fate))
  }

  // --- The session ---

  ghost predicate Ordered(slots: seq<Slot>) {
    forall i, j :: 0 <= i < j < |slots| ==> slots[i].fd < slots[j].fd
  }

  function Lookup(slots: seq<Slot>, fd: int): Solo {
    if slots == [] then Absent else if slots[0].fd == fd then Present(slots[0]) else Lookup(slots[1..], fd)
  }

  function Put(slots: seq<Slot>, fd: int, s: Solo): seq<Slot> {
    if s.Present? then With(slots, s.slot) else Without(slots, fd)
  }

  /** One event of a unicast session. */
  ghost function SessionStep(slots: seq<Slot>, owner: Owner, e: Event): (r: Pass)
    requires AllValid(slots) && EventOk(e)
  {
    match e
    case Packet(item) => Broadcast(slots, false, owner, item.ch, item.pkt)
    case Change(fd, _) => Pass(Put(slots, fd, SoloStep(fd, SoloOf(slots, fd), e)), Returned)
    case Expire(fd) => Pass(Put(slots, fd, SoloStep(fd, SoloOf(slots, fd), e)), Returned)
    case Join(fd, _) => Pass(Put(slots, fd, SoloStep(fd, SoloOf(slots, fd), e)), Returned)
    case Leave(fd) => Pass(Put(slots, fd, SoloStep(fd, SoloOf(slots, fd), e)), Returned)
  }

  ghost function SoloOf(slots: seq<Slot>, fd: int): (s: Solo)
    requires AllValid(slots)
    ensures SoloValid(s)
  {
    LookupFinds(slots, fd);
    Lookup(slots, fd)
  }

  lemma {:induction false} LookupFinds(slots: seq<Slot>, fd: int)
    ensures Lookup(slots, fd).Present? ==> Lookup(slots, fd).slot in slots && Lookup(slots, fd).slot.fd == fd
    ensures Lookup(slots, fd) == Absent ==> forall s :: s in slots ==> s.fd != fd
  {
    if slots != [] && slots[0].fd != fd {
      LookupFinds(slots[1..], fd);
    }
  }

  function LiveSlots(slots: seq<Slot>): (r: seq<Slot>)
    ensures forall s <- r :: s.Live? && s in slots
    ensures forall s <- slots :: s.Live? ==> s in r
  {
    if slots == [] then []
    else (if slots[0].Live? then [slots[0]] else []) + LiveSlots(slots[1..])
  }

  lemma {:induction false} LookupHas(slots: seq<Slot>, s: Slot)
    requires s in slots
    ensures Lookup(slots, s.fd).Present?
  {
    if slots[0].fd != s.fd {
      LookupHas(slots[1..], s);
    }
  }

  lemma LookupFirst(slots: seq<Slot>, fd: int)
    requires Ordered(slots) && slots != []
    ensures Ordered(slots[1..])
    ensures Lookup(slots, fd) == if fd == slots[0].fd then Present(slots[0]) else Lookup(slots[1..], fd)
    ensures Lookup(slots[1..], slots[0].fd) == Absent
  {
    LookupFinds(slots[1..], slots[0].fd);
  }

  lemma OrderedCons(slot: Slot, rest: seq<Slot>)
    requires Ordered(rest) && forall s :: s in rest ==> slot.fd < s.fd
    ensures Ordered([slot] + rest)
  {
  }

  lemma {:induction false} OrderedWith(slots: seq<Slot>, slot: Slot)
    requires Ordered(slots)
    ensures Ordered(With(slots, slot))
  {
    if slots != [] && slot.fd > slots[0].fd {
      OrderedWith(slots[1..], slot);
      OrderedCons(slots[0], With(slots[1..], slot));
    }
  }

  lemma {:induction false} OrderedWithout(slots: seq<Slot>, gone: int)
    requires Ordered(slots)
    ensures Ordered(Without(slots, gone))
  {
    if slots != [] {
      OrderedWithout(slots[1..], gone);
      OrderedCons(slots[0], Without(slots[1..], gone));
    }
  }

  lemma {:induction false} LookupWith(slots: seq<Slot>, slot: Slot, fd: int)
    ensures Lookup(With(slots, slot), fd) == if fd == slot.fd then Present(slot) else Lookup(slots, fd)
  {
    if slots != [] && slot.fd > slots[0].fd {
      LookupWith(slots[1..], slot, fd);
    }
  }

  lemma {:induction false} LookupWithout(slots: seq<Slot>, gone: int, fd: int)
    ensures Lookup(Without(slots, gone), fd) == if fd == gone then Absent else Lookup(slots, fd)
  {
    if slots != [] {
      LookupWithout(slots[1..], gone, fd);
      var rest := Without(slots[1..], gone);
      assert [] + rest == rest && ([slots[0]] + rest)[1..] == rest;
    }
  }

  lemma LookupPut(slots: seq<Slot>, changed: int, s: Solo, fd: int)
    requires Ordered(slots) && (s.Present? ==> s.slot.fd == changed)
    ensures Ordered(Put(slots, changed, s))
    ensures Lookup(Put(slots, changed, s), fd) == if fd == changed then s else Lookup(slots, fd)
  {
    if s.Present? {
      OrderedWith(slots, s.slot);
      LookupWith(slots, s.slot, fd);
    } else {
      OrderedWithout(slots, changed);
      LookupWithout(slots, changed, fd);
    }
  }

  // What the fate of one client does to the pass.
  function EndOf(owner: Owner, fate: Fate): Ending {
    match fate
    case Well => Returned
    case FlushFails => if owner == Server then Deadlocked else Wild
    case Waits => Deadlocked
  }

  // The fate of the first client for which it does not go well.
  ghost function FirstFate(slots: seq<Slot>, e: Event): Fate
    requires AllValid(slots) && EventOk(e)
  {
    if slots == [] then Well
    else
      var head := FateOf(Present(slots[0]), e);
      if head != Well then head else FirstFate(slots[1..], e)
  }

  // What one event must be for the session as a whole.
  ghost predicate Isolated(slots: seq<Slot>, owner: Owner, e: Event)
    requires AllValid(slots) && EventOk(e)
  {
    var r := SessionStep(slots, owner, e);
    && r.ending == EndOf(owner, FirstFate(slots, e))
    && (r.ending == Returned ==> AllValid(r.slots) && Ordered(r.slots) && Steps(slots, r.slots, e))
  }

  ghost predicate Steps(before: seq<Slot>, after: seq<Slot>, e: Event)
    requires AllValid(before) && EventOk(e)
  {
    forall fd :: Lookup(after, fd) == SoloStep(fd, SoloOf(before, fd), e)
  }

  // The head of a pass in which it is not the one that fails.
  lemma PassHead(slots: seq<Slot>, owner: Owner, item: Item)
    requires AllValid(slots) && Small(item) && slots != []
    ensures AllValid(slots[1..]) && SoloValid(Present(slots[0]))
    ensures var r := Broadcast(slots, false, owner, item.ch, item.pkt);
      var head := SoloStep(slots[0].fd, Present(slots[0]), Event.Packet(item));
      && (head.Present? ==> head.slot.fd == slots[0].fd)
      && var fate := FateOf(Present(slots[0]), Event.Packet(item));
      && if fate != Well then r.ending == EndOf(owner, fate)
         else r == Prefixed(Slots(head), Broadcast(slots[1..], false, owner, item.ch, item.pkt))
  {
    hide SendStep;
  }

  function Slots(s: Solo): seq<Slot> {
    if s.Present? then [s.slot] else []
  }

  // A pass over the head and then the rest, when the rest is as it should be.
  lemma StepsCons(slots: seq<Slot>, rest: seq<Slot>, e: Event)
    requires AllValid(slots) && Ordered(slots) && slots != [] && EventOk(e) && e.Packet?
    requires AllValid(slots[1..]) && Ordered(rest) && Steps(slots[1..], rest, e)
    requires SoloValid(Present(slots[0]))
    requires var head := SoloStep(slots[0].fd, Present(slots[0]), e); head.Present? ==> head.slot.fd == slots[0].fd
    ensures var after := Slots(SoloStep(slots[0].fd, Present(slots[0]), e)) + rest;
      Ordered(after) && Steps(slots, after, e)
  {
    var head := SoloStep(slots[0].fd, Present(slots[0]), e);
    var after := Slots(head) + rest;
    assert forall fd :: SoloStep(fd, Absent, e) == Absent;
    hide SendStep, SoloStep;
    forall s | s in rest ensures slots[0].fd < s.fd {
      LookupHas(rest, s);
      assert Lookup(rest, s.fd) == SoloStep(s.fd, SoloOf(slots[1..], s.fd), e);
      LookupFinds(slots[1..], s.fd);
    }
    if head.Present? {
      OrderedCons(head.slot, rest);
    }
    forall fd ensures Lookup(after, fd) == SoloStep(fd, SoloOf(slots, fd), e) {
      LookupFirst(slots, fd);
      assert Lookup(rest, fd) == SoloStep(fd, SoloOf(slots[1..], fd), e);
      assert after == if head.Present? then [head.slot] + rest else rest;
    }
  }

  lemma {:induction false} FirstFateOf(slots: seq<Slot>, e: Event)
    requires AllValid(slots) && Ordered(slots) && EventOk(e)
    ensures FirstFate(slots, e) == Well <==> forall fd :: FateOf(SoloOf(slots, fd), e) == Well
    ensures exists fd :: FateOf(SoloOf(slots, fd), e) == FirstFate(slots, e)
    decreases |slots|
  {
    assert FateOf(Absent, e) == Well;
    hide FateOf;
    if slots == [] {
      assert SoloOf(slots, 0) == Absent;
    } else {
      var rest := slots[1..];
      assert AllValid(rest) && Ordered(rest) && SoloValid(Present(slots[0]));
      FirstFateOf(rest, e);
      forall fd ensures fd != slots[0].fd ==> SoloOf(slots, fd) == SoloOf(rest, fd)
                ensures fd == slots[0].fd ==> SoloOf(slots, fd) == Present(slots[0]) && SoloOf(rest, fd) == Absent {
        LookupFirst(slots, fd);
      }
      FirstFateCons(slots, e);
    }
  }

  lemma FirstFateCons(slots: seq<Slot>, e: Event)
    requires AllValid(slots) && Ordered(slots) && EventOk(e) && slots != []
    requires AllValid(slots[1..]) && SoloValid(Present(slots[0])) && FateOf(Absent, e) == Well
    requires forall fd :: SoloOf(slots, fd) == if fd == slots[0].fd then Present(slots[0]) else SoloOf(slots[1..], fd)
    requires SoloOf(slots[1..], slots[0].fd) == Absent
    requires FirstFate(slots[1..], e) == Well <==> forall fd :: FateOf(SoloOf(slots[1..], fd), e) == Well
    requires exists fd :: FateOf(SoloOf(slots[1..], fd), e) == FirstFate(slots[1..], e)
    ensures FirstFate(slots, e) == Well <==> forall fd :: FateOf(SoloOf(slots, fd), e) == Well
    ensures exists fd :: FateOf(SoloOf(slots, fd), e) == FirstFate(slots, e)
  {
    hide FateOf, SoloOf;
    var head := FateOf(Present(slots[0]), e);
    assert FateOf(SoloOf(slots, slots[0].fd), e) == head;
    if head == Well {
      var fd :| FateOf(SoloOf(slots[1..], fd), e) == FirstFate(slots[1..], e);
      assert FateOf(SoloOf(slots, fd), e) == FirstFate(slots, e);
      assert forall fd :: FateOf(SoloOf(slots, fd), e) == Well ==> FateOf(SoloOf(slots[1..], fd), e) == Well;
    }
  }

  lemma {:induction false} PassIsolated(slots: seq<Slot>, owner: Owner, item: Item)
    requires AllValid(slots) && Ordered(slots) && Small(item)
    ensures Isolated(slots, owner, Event.Packet(item))
  {
    hide SendStep;
    if slots != [] {
      var e := Event.Packet(item);
      PassHead(slots, owner, item);
      PassIsolated(slots[1..], owner, item);
      hide Broadcast, FateOf, SoloStep;
      var rest := SessionStep(slots[1..], owner, e);
      if rest.ending == Returned {
        StepsCons(slots, rest.slots, e);
      }
    }
  }

  lemma {:induction false} OwnEventsGoWell(slots: seq<Slot>, e: Event)
    requires AllValid(slots) && EventOk(e) && !e.Packet?
    ensures FirstFate(slots, e) == Well
  {
    if slots != [] {
      OwnEventsGoWell(slots[1..], e);
    }
  }

  // An event of one client leaves the others alone.
  lemma OwnEvent(fd: int, s: Solo, e: Event)
    requires SoloValid(s) && EventOk(e) && !e.Packet?
    requires s.Present? ==> s.slot.fd == fd
    ensures fd != e.fd ==> SoloStep(fd, s, e) == s
    ensures SoloStep(fd, s, e).Present? ==> SoloStep(fd, s, e).slot.fd == fd
  {
    hide SendStep, Changed;
  }

  lemma EventIsolated(slots: seq<Slot>, owner: Owner, e: Event)
    requires AllValid(slots) && Ordered(slots) && EventOk(e)
    ensures Isolated(slots, owner, e)
  {
    if e.Packet? {
      PassIsolated(slots, owner, e.item);
    } else {
      var s := SoloStep(e.fd, SoloOf(slots, e.fd), e);
      LookupFinds(slots, e.fd);
      OwnEvent(e.fd, SoloOf(slots, e.fd), e);
      PutValid(slots, e.fd, s);
      OwnEventsGoWell(slots, e);
      assert SessionStep(slots, owner, e) == Pass(Put(slots, e.fd, s), Returned);
      hide SoloStep, FirstFate, SessionStep, Put;
      forall fd ensures Lookup(Put(slots, e.fd, s), fd) == SoloStep(fd, SoloOf(slots, fd), e) {
        LookupFinds(slots, fd);
        OwnEvent(fd, SoloOf(slots, fd), e);
        LookupPut(slots, e.fd, s, fd);
      }
      LookupPut(slots, e.fd, s, e.fd);
    }
  }

  lemma PutValid(slots: seq<Slot>, fd: int, s: Solo)
    requires AllValid(slots) && SoloValid(s)
    ensures AllValid(Put(slots, fd, s))
  {
    var after := Put(slots, fd, s);
    forall i | 0 <= i < |after| && after[i].Live? ensures after[i].client.Valid() {
      assert after[i] in after;
    }
  }

  // --- Whole runs ---

  // The session until a pass does not return.
  ghost function SessionRun(slots: seq<Slot>, owner: Owner, events: seq<Event>): (r: Pass)
    requires AllValid(slots) && Ordered(slots) && AllOk(events)
    decreases events
  {
    if events == [] then Pass(slots, Returned)
    else
      EventIsolated(slots, owner, events[0]);
      var r := SessionStep(slots, owner, events[0]);
      if r.ending == Returned then SessionRun(r.slots, owner, events[1..]) else r
  }

  /** Every pass of a run returns if and only if it goes well for each client, seen alone: no
      flush of its own fails, and no event loop closes its connection, while a packet is being
      sent to it. Each client is then, at the end, exactly what its own events and the packets
      make of it alone, although all headers are written into the same buffer. Otherwise some
      client's fate is the reason: a wait of a client stops the pass for ever, and a failing
      flush does so under a server and leaves a pusher with an iterator to nowhere. */
  lemma {:induction false} UnicastIsolation(slots: seq<Slot>, owner: Owner, events: seq<Event>)
    requires AllValid(slots) && Ordered(slots) && AllOk(events)
    ensures var r := SessionRun(slots, owner, events);
      && (r.ending == Returned <==> !Met(slots, events, Waits) && !Met(slots, events, FlushFails))
      && (r.ending == Deadlocked ==> Met(slots, events, Waits) || (owner == Server && Met(slots, events, FlushFails)))
      && (r.ending == Wild ==> owner == Pusher && Met(slots, events, FlushFails))
      && (r.ending == Returned ==> forall fd :: Lookup(r.slots, fd) == SoloRun(fd, SoloOf(slots, fd), events))
    decreases events
  {
    if events != [] {
      var e := events[0];
      EventIsolated(slots, owner, e);
      FirstFateOf(slots, e);
      var r := SessionStep(slots, owner, e);
      hide SessionStep, FateOf, SoloStep, FirstFate, Met;
      if r.ending == Returned {
        UnicastIsolation(r.slots, owner, events[1..]);
        assert forall fd :: SoloOf(r.slots, fd) == SoloStep(fd, SoloOf(slots, fd), e);
        LaterFates(slots, r.slots, events, Waits);
        LaterFates(slots, r.slots, events, FlushFails);
      } else {
        MetAtOnce(slots, events);
      }
    }
  }

  // Some client, seen alone, meets this fate in the run.
  ghost predicate Met(slots: seq<Slot>, events: seq<Event>, fate: Fate)
    requires AllValid(slots) && AllOk(events)
  {
    exists fd :: Ever(fd, SoloOf(slots, fd), events, fate)
  }

  lemma MetAtOnce(slots: seq<Slot>, events: seq<Event>)
    requires AllValid(slots) && AllOk(events) && events != []
    requires exists fd :: FateOf(SoloOf(slots, fd), events[0]) == FirstFate(slots, events[0])
    ensures Met(slots, events, FirstFate(slots, events[0]))
  {
    hide FateOf, SoloOf, SoloStep, FirstFate;
    var fd :| FateOf(SoloOf(slots, fd), events[0]) == FirstFate(slots, events[0]);
    assert Ever(fd, SoloOf(slots, fd), events, FirstFate(slots, events[0]));
  }

  // When the first event goes well for everybody, only what comes later counts.
  lemma LaterFates(slots: seq<Slot>, next: seq<Slot>, events: seq<Event>, fate: Fate)
    requires AllValid(slots) && AllValid(next) && AllOk(events) && events != [] && fate != Well
    requires forall fd :: FateOf(SoloOf(slots, fd), events[0]) == Well
    requires forall fd :: SoloOf(next, fd) == SoloStep(fd, SoloOf(slots, fd), events[0])
    ensures Met(slots, events, fate) <==> Met(next, events[1..], fate)
  {
    forall fd ensures Ever(fd, SoloOf(slots, fd), events, fate) <==> Ever(fd, SoloOf(next, fd), events[1..], fate) {
      assert FateOf(SoloOf(slots, fd), events[0]) == Well;
      assert SoloOf(next, fd) == SoloStep(fd, SoloOf(slots, fd), events[0]);
      hide FateOf, SoloOf, SoloStep;
    }
    hide Ever, SoloOf;
  }

  // --- When it does not go well ---

  // The frame that a packet becomes on the client's connection.
  ghost function FrameFor(c: Client, item: Item): seq<byte>
    requires c.Valid() && Small(item)
  {
    Interleaved.Frame(Interleaved.Unit(ChannelByte(c.info[item.ch]), Datagram(c.info[item.ch], item.pkt)))
  }

  // The packet goes out over TCP on a connection that is open.
  ghost predicate SendsOverTcp(c: Client, item: Item)
    requires c.Valid()
  {
    c.online && Plays(c, item.ch, item.pkt.kind) && c.transport == OverTcp && c.conn.open
  }

  /** It does not go well exactly for clients that play over TCP on an open connection: a send
      waits if and only if the event loop closes the connection before the sender gets its
      mutex, and fails if and only if it does not wait, the flush gets the mutex, and the
      socket answers with an error before it would block. */
  lemma FateIff(fd: int, c: Client, item: Item)
    requires c.Valid() && Small(item)
    ensures var fate, turn := FateOf(Present(Live(fd, c)), Event.Packet(item)), c.socket(c.flushes);
      && (fate == Waits <==> SendsOverTcp(c, item) && turn.hungUp)
      && (fate == FlushFails <==> (
           && SendsOverTcp(c, item) && !turn.hungUp && turn.locked
           && SocketFails(Tcp.Queued(c.conn, FrameFor(c, item)).wire.queue, turn.replies)))
  {
    hide Interleaved.Frame, EncodeHeader, Apply, FlushQueue, SocketFails;
    NegativeIffFails(Tcp.Queued(c.conn, FrameFor(c, item)).wire.queue, c.socket(c.flushes).replies);
  }

  // A client that joins, sets up its first channel over TCP and plays, and what happens to its
  // sends and flushes.
  ghost function Newcomer(seeds: (Seeds, Seeds), network: nat -> bool, turn: Tcp.SocketTurn): (c: Client)
    ensures c.Valid()
  {
    NewClient(seeds, Tcp.Conn(true, Wire([], [], []), false), k => turn, network)
  }

  ghost function Player(seeds: (Seeds, Seeds), network: nat -> bool, turn: Tcp.SocketTurn, ch: ChannelId): (c: Client)
    ensures c.Valid()
  {
    Changed(Changed(Newcomer(seeds, network, turn), SetUp(ch, OverTcp, 0)), Play)
  }

  function Arrival(fd: int, c: Client, item: Item): seq<Event> {
    [Join(fd, c), Change(fd, SetUp(item.ch, OverTcp, 0)), Change(fd, Play), Event.Packet(item)]
  }

  const FAILING := Tcp.SocketTurn(false, true, [Error])
  const HUNG_UP := Tcp.SocketTurn(true, true, [])

  lemma PlayerFates(fd: int, seeds: (Seeds, Seeds), network: nat -> bool, item: Item)
    requires Small(item) && StartsStream(item.pkt.kind)
    ensures FateOf(Present(Live(fd, Player(seeds, network, FAILING, item.ch))), Event.Packet(item)) == FlushFails
    ensures FateOf(Present(Live(fd, Player(seeds, network, HUNG_UP, item.ch))), Event.Packet(item)) == Waits
  {
    var c := Player(seeds, network, FAILING, item.ch);
    FateIff(fd, c, item);
    FateIff(fd, Player(seeds, network, HUNG_UP, item.ch), item);
    hide FrameFor;
    ErrorFails(c.conn, FrameFor(c, item));
    hide FateOf;
  }

  lemma EverLater(fd: int, s: Solo, events: seq<Event>, e: Event, rest: seq<Event>)
    requires SoloValid(s) && AllOk(events) && events == [e] + rest && !e.Packet?
    ensures EventOk(e) && AllOk(rest)
    ensures forall fate :: fate != Well ==> (Ever(fd, s, events, fate) <==> Ever(fd, SoloStep(fd, s, e), rest, fate))
  {
    assert rest == events[1..] && e == events[0];
    assert forall i :: 0 <= i < |rest| ==> rest[i] == events[i + 1];
    hide SoloStep;
  }

  // The newcomer meets one fate in its run, and no other.
  lemma ArrivalMeets(
    fd: int, seeds: (Seeds, Seeds), network: nat -> bool, turn: Tcp.SocketTurn, item: Item, fate: Fate)
    requires Small(item)
    requires FateOf(Present(Live(fd, Player(seeds, network, turn, item.ch))), Event.Packet(item)) == fate
    ensures var events := Arrival(fd, Newcomer(seeds, network, turn), item);
      AllOk(events) && forall f :: f != Well ==> (Ever(fd, Absent, events, f) <==> f == fate)
  {
    hide FateOf, Newcomer, SendStep, Changed, Ever, Client.Valid;
    var c := Newcomer(seeds, network, turn);
    var d := Changed(c, SetUp(item.ch, OverTcp, 0));
    var last := [Event.Packet(item)];
    var third, second := [Change(fd, Play)] + last, [Change(fd, SetUp(item.ch, OverTcp, 0)), Change(fd, Play)] + last;
    EverLater(fd, Absent, Arrival(fd, c, item), Join(fd, c), second);
    EverLater(fd, Present(Live(fd, c)), second, Change(fd, SetUp(item.ch, OverTcp, 0)), third);
    EverLater(fd, Present(Live(fd, d)), third, Change(fd, Play), last);
    EverOne(fd, Present(Live(fd, Changed(d, Play))), Event.Packet(item));
  }

  lemma EverOne(fd: int, s: Solo, e: Event)
    requires SoloValid(s) && EventOk(e)
    ensures forall fate :: Ever(fd, s, [e], fate) <==> FateOf(s, e) == fate
  {
    hide FateOf, SoloStep;
  }

  lemma NobodyElse(fd: int, events: seq<Event>, fate: Fate)
    requires AllOk(events) && fate != Well
    requires forall i :: 0 <= i < |events| ==> events[i].Packet? || events[i].fd == fd
    ensures Met([], events, fate) ==> Ever(fd, Absent, events, fate)
  {
    forall f | f != fd ensures !Ever(f, Absent, events, fate) {
      NeverThere(f, events, fate);
    }
    assert forall f :: SoloOf([], f) == Absent;
    hide Ever, SoloOf;
  }

  lemma {:induction false} NeverThere(f: int, events: seq<Event>, fate: Fate)
    requires AllOk(events) && (forall i :: 0 <= i < |events| ==> events[i].Packet? || events[i].fd != f) && fate != Well
    ensures !Ever(f, Absent, events, fate)
  {
    if events != [] {
      NeverThere(f, events[1..], fate);
    }
  }

  function TurnFor(fate: Fate): Tcp.SocketTurn {
    if fate == Waits then HUNG_UP else FAILING
  }

  /** One client is enough, whatever others there are: it joins, sets up its channel over TCP,
      plays, and is sent a key frame. When its socket reports an error, or its event loop closes
      the connection while the send waits, the pass is over for everybody: for ever under a
      server in both cases, and under a pusher in the second one. */
  lemma OneClientBreaksThePass(
    owner: Owner, fd: int, seeds: (Seeds, Seeds), network: nat -> bool, item: Item, others: seq<Slot>, fate: Fate)
    requires AllValid(others) && Ordered(others) && Lookup(others, fd) == Absent
    requires Small(item) && StartsStream(item.pkt.kind) && fate != Well
    ensures var events := Arrival(fd, Newcomer(seeds, network, TurnFor(fate)), item);
      && AllOk(events)
      && var ending := SessionRun(others, owner, events).ending;
      && ending != Returned
      && (others == [] ==> ending == EndOf(owner, fate))
  {
    hide FateOf, Newcomer, Player, Ever, SessionRun, SoloOf, Arrival;
    var events := Arrival(fd, Newcomer(seeds, network, TurnFor(fate)), item);
    PlayerFates(fd, seeds, network, item);
    ArrivalMeets(fd, seeds, network, TurnFor(fate), item, fate);
    UnicastIsolation(others, owner, events);
    ArrivalIsOwn(fd, Newcomer(seeds, network, TurnFor(fate)), item);
    NobodyElse(fd, events, Waits);
    NobodyElse(fd, events, FlushFails);
    SoloOfLookup(others, fd);
    assert Ever(fd, SoloOf(others, fd), events, fate);
  }

  lemma SoloOfLookup(slots: seq<Slot>, fd: int)
    requires AllValid(slots)
    ensures SoloOf(slots, fd) == Lookup(slots, fd)
  {
  }

  lemma ArrivalIsOwn(fd: int, c: Client, item: Item)
    ensures var events := Arrival(fd, c, item);
      forall i :: 0 <= i < |events| ==> events[i].Packet? || events[i].fd == fd
  {
  }

  lemma ErrorFails(c: Tcp.Conn, frame: seq<byte>)
    requires c.wire == Wire([], [], []) && frame != []
    ensures SocketFails(Tcp.Queued(c, frame).wire.queue, [Error])
  {
    assert TakesWhole(Tcp.Queued(c, frame).wire.queue, [Error], 0);
  }

  // --- Multicast ---

  // What is left of the slots when the first one that is served is at k.
  ghost function MulticastPass(slots: seq<Slot>, k: nat, owner: Owner, sent: Sent): Pass
    requires k < |slots| && slots[k].Live?
  {
    var front, rest := LiveSlots(slots[..k]), slots[k + 1..];
    var all := front + ([Live(slots[k].fd, sent.client)] + rest);
    if sent.waits then Pass(all, Deadlocked)
    else if !Closes(slots[k].client, sent.client) then Pass(all, Returned)
    else if owner == Server then Pass(all, Deadlocked)
    else Pass(front + rest, Returned)
  }

  /** In a multicast session one client alone is asked to send each packet: the online one with
      the smallest socket. So the group gets the packet if and only if that client is playing,
      has seen a key frame and is not closed, whatever the others do; and the slots after it
      are not touched, expired or not. */
  lemma MulticastAsksFirstOnline(slots: seq<Slot>, k: nat, owner: Owner, ch: ChannelId, pkt: Rtp.Packet)
    requires AllValid(slots) && |pkt.payload| <= MAX_RTP_PAYLOAD_SIZE
    requires k < |slots| && Served(slots[k]) && forall i :: 0 <= i < k ==> !Served(slots[i])
    ensures var c := slots[k].client; var sent := SendStep(c, ch, pkt);
      && Broadcast(slots, true, owner, ch, pkt) == MulticastPass(slots, k, owner, sent)
      && (sent.client.offered != c.offered <==> Plays(c, ch, pkt.kind))
  {
    OfferedIfPlaying(slots[k].client, ch, pkt);
    hide SendStep, Broadcast, LiveSlots;
    MulticastRun(slots, k, owner, ch, pkt);
  }

  lemma {:induction false} MulticastRun(slots: seq<Slot>, k: nat, owner: Owner, ch: ChannelId, pkt: Rtp.Packet)
    requires AllValid(slots) && |pkt.payload| <= MAX_RTP_PAYLOAD_SIZE
    requires k < |slots| && Served(slots[k]) && forall i :: 0 <= i < k ==> !Served(slots[i])
    ensures Broadcast(slots, true, owner, ch, pkt)
      == MulticastPass(slots, k, owner, SendStep(slots[k].client, ch, pkt))
  {
    hide SendStep, Broadcast, LiveSlots;
    MulticastHead(slots, owner, ch, pkt);
    LivePrefix(slots, k);
    if k > 0 {
      MulticastRun(slots[1..], k - 1, owner, ch, pkt);
      assert slots[1..][k..] == slots[k + 1..];
    } else {
      assert slots[1..] == slots[k + 1..];
    }
  }

  lemma LivePrefix(slots: seq<Slot>, k: nat)
    requires k < |slots|
    ensures LiveSlots(slots[..k])
      == if k == 0 then [] else (if slots[0].Live? then [slots[0]] else []) + LiveSlots(slots[1..][..k - 1])
  {
    if k > 0 {
      assert slots[1..][..k - 1] == slots[..k][1..];
    }
  }

  lemma MulticastHead(slots: seq<Slot>, owner: Owner, ch: ChannelId, pkt: Rtp.Packet)
    requires AllValid(slots) && |pkt.payload| <= MAX_RTP_PAYLOAD_SIZE && slots != []
    ensures AllValid(slots[1..])
    ensures Broadcast(slots, true, owner, ch, pkt) ==
      if Served(slots[0]) then MulticastPass(slots, 0, owner, SendStep(slots[0].client, ch, pkt))
      else Prefixed(if slots[0].Live? then [slots[0]] else [], Broadcast(slots[1..], true, owner, ch, pkt))
  {
    if Served(slots[0]) {
      OfferedIfPlaying(slots[0].client, ch, pkt);
      assert LiveSlots(slots[..0]) == [];
    }
    hide SendStep;
  }
}
