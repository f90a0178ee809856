/** What a viewer gets who asks as it should: the answers to its requests, and media. */
module RtspViewer {
  import opened Sequences
  import opened Rtp
  import opened RtpConnection
  import opened RtspMedia
  import opened MediaGate
  import opened RtspConnection
  import opened ClientStream

  // --- Which answer a request gets ---

  // A multicast session is sent by multicast, and any other one over TCP or UDP.
  predicate Suits(media: Media, t: Transport) {
    match t
    case Multicast(_) => media.multicast
    case Tcp(_) => !media.multicast
    case Udp(_, _) => !media.multicast
  }

  // What a set-up needs from outside is there.
  predicate Available(online: bool, t: Transport) {
    match t
    case Tcp(_) => online
    case Udp(peer, binds) => online && peer && exists n: nat :: n < 10 && binds.rtp(n) && binds.rtcp(n)
    case Multicast(binds) => exists n: nat :: n < 10 && binds.rtp(n)
  }

  predicate HasSession(server: Server, id: nat) {
    server.alive && server.byId(id).Found?
  }

  lemma BindsAvailable(b: Binds)
    ensures PairBound(b) <==> exists n: nat :: n < 10 && b.rtp(n) && b.rtcp(n)
    ensures SocketBound(b) <==> exists n: nat :: n < 10 && b.rtp(n)
  {
    if PairBound(b) {
      var n: nat :| n < ATTEMPTS && b.Pair(n);
      assert b.rtp(n) && b.rtcp(n);
    }
    if n: nat :| n < 10 && b.rtp(n) && b.rtcp(n) {
      assert b.Pair(n);
    }
  }

  function Mode(t: Transport): TransportMode {
    match t case Tcp(_) => OverTcp case Udp(_, _) => OverUdp case Multicast(_) => OverMulticast
  }

  // The channel as it should be after a set-up that succeeds.
  ghost predicate IsSetUp(c: Client, d: Client, ch: ChannelId, t: Transport)
    requires c.Valid() && d.Valid()
  {
    && d.info[ch].isSetup && (t.Tcp? ==> d.info[ch].rtpChannel == t.rtpChannel)
    && d.transport == Mode(t)
    && d.info[ch].header == c.info[ch].header && d.info[ch].packetSeq == c.info[ch].packetSeq
    && d.info[ch].isPlay == c.info[ch].isPlay && d.info[ch].isRecord == c.info[ch].isRecord
    && d.info[1 - ch] == c.info[1 - ch]
    && d == c.(info := d.info, transport := d.transport)
  }

  /** Without the session a SETUP is a server error, and with it a transport that does not suit the
      session is refused. One that does sets up the channel, and that channel alone, if what it
      needs is there, and is answered OK; otherwise it changes nothing, and is an error but for TCP. */
  lemma SetupAnswers(s: Session, ch: ChannelId, t: Transport, w: World)
    requires s.Valid() && w.Valid()
    ensures var r := SetupStep(s, ch, t, w);
      if !HasSession(w.server, s.id) then r == Step(s, [], ServerError)
      else if !Suits(w.server.byId(s.id).media, t) then r == Step(s, [], Unsupported)
      else if s.rtp.Has? && Available(s.rtp.client.online, t) then
        && r.reply == OK && r.marks == [SetUp(ch)] && r.session.rtp.Has? && r.session.rtp.client.Valid()
        && r.session == s.(rtp := r.session.rtp) && IsSetUp(s.rtp.client, r.session.rtp.client, ch, t)
      else r == Step(s, [], if t.Tcp? then OK else ServerError)
  {
    match t {
      case Tcp(_) =>
      case Udp(_, binds) => BindsAvailable(binds);
      case Multicast(binds) => BindsAvailable(binds);
    }
  }

  // The request need not prove anything, or proves what the last challenge asked for.
  ghost predicate MayPass(s: Session, m: Message) {
    || s.credentials == Anyone || s.hasAuth
    || (s.nonce != ""
        && m.response == Rfc2617Response(s.credentials.credentials, s.nonce, Method(m.request), m.url))
  }

  // The method's name in the request line (section 10 of RFC 2326).
  const METHODS := ["OPTIONS", "DESCRIBE", "SETUP", "PLAY", "TEARDOWN", "GET_PARAMETER"]

  function Method(r: Request): string {
    METHODS[if r.Options? then 0 else if r.Describe? then 1 else if r.Setup? then 2
            else if r.Play? then 3 else if r.Teardown? then 4 else 5]
  }

  lemma CommandIsMethod(r: Request)
    ensures Command(r) == Method(r)
  {
  }

  lemma AuthenticateIs(s: Session, m: Message, nonce: string)
    ensures var auth := Authenticate(s, m, nonce);
      if MayPass(s, m) then
        && auth.reply == OK && (auth.session.credentials == Anyone || auth.session.hasAuth)
        && auth.session == s.(nonce := auth.session.nonce, hasAuth := auth.session.hasAuth)
      else auth == Step(s.(nonce := nonce), [Challenged(nonce)], Unauthorized(nonce))
  {
    CommandIsMethod(m.request);
    hide Expected, Rfc2617Response, Command, Method;
    if s.credentials.Only? {
      ExpectedIsRfc2617(s.credentials.credentials, s.nonce, Command(m.request), m.url);
    }
  }

  lemma AdmittedIsAnswered(s: Session, m: Message, w: World)
    requires s.Valid() && w.Valid()
    ensures !Admitted(s, m, w).reply.Unauthorized?
  {
    hide SetupClient, Typed;
  }

  /** Only DESCRIBE, SETUP and PLAY are ever challenged, exactly when they may not pass, and then
      nothing but the nonce changes. */
  lemma ChallengedIff(s: Session, m: Message, w: World)
    requires s.Valid() && w.Valid()
    ensures var r := HandleRequest(s, m, w);
      && (r.reply.Unauthorized? <==> NeedsAuth(m.request) && !MayPass(s, m))
      && (r.reply.Unauthorized? ==>
           r == Step(s.(nonce := w.nonce), [Challenged(w.nonce)], Unauthorized(w.nonce)))
  {
    hide MayPass, Authenticate, Admitted;
    AuthenticateIs(s, m, w.nonce);
    var auth := Authenticate(s, m, w.nonce);
    if auth.reply == OK {
      assert auth.session.Valid();
      AdmittedIsAnswered(auth.session, m, w);
    }
  }

  lemma Passes(s: Session, m: Message, w: World)
    requires s.Valid() && w.Valid() && NeedsAuth(m.request) && MayPass(s, m)
    ensures var auth := Authenticate(s, m, w.nonce);
      && (auth.session.credentials == Anyone || auth.session.hasAuth) && auth.session.Valid()
      && auth.session == s.(nonce := auth.session.nonce, hasAuth := auth.session.hasAuth)
      && HandleRequest(s, m, w).reply == Admitted(auth.session, m, w).reply
      && HandleRequest(s, m, w).session == Admitted(auth.session, m, w).session
  {
    hide MayPass, Authenticate, Admitted;
    AuthenticateIs(s, m, w.nonce);
  }

  /** The requests that need no authentication, and PLAY: GET_PARAMETER, TEARDOWN and PLAY are only
      answered when there is a client. PLAY starts what is set up, and TEARDOWN stops it and closes
      the client. */
  lemma OtherAnswers(s: Session, m: Message, w: World)
    requires s.Valid() && w.Valid()
    ensures m.request.Options? ==> HandleRequest(s, m, w) == Step(s, [], OK)
    ensures m.request.GetParameter? ==> HandleRequest(s, m, w) == Step(s, [], if s.rtp.Has? then OK else NoReply)
    ensures s.rtp == NoClient ==> TeardownStep(s) == PlayStep(s) == Step(s, [], NoReply)
    ensures m.request.Teardown? ==> HandleRequest(s, m, w) == TeardownStep(s)
    ensures s.rtp.Has? ==>
      var c, r, p := s.rtp.client, TeardownStep(s), PlayStep(s);
      && r.reply == OK && r.marks == [TornDown] && r.session.rtp.Has? && r.session.rtp.client.closed
      && r.session == s.(rtp := r.session.rtp)
      && p.reply == OK && p.marks == [Played] && p.session.rtp.Has? && p.session.state == StartPlay
      && p.session == s.(rtp := p.session.rtp, state := p.session.state)
      && |p.session.rtp.client.info| == MAX_MEDIA_CHANNEL && |r.session.rtp.client.info| == MAX_MEDIA_CHANNEL
      && forall ch: ChannelId ::
        && (!c.closed ==> !r.session.rtp.client.info[ch].Active())
        && p.session.rtp.client.info[ch].isPlay == (c.info[ch].isPlay || c.info[ch].isSetup)
  {
  }

  // --- A viewer's session ---

  // The answers of a run, in order.
  ghost function Replies(s: Session, events: seq<Event>): (r: seq<Reply>)
    requires s.Valid() && AllOk(events)
    ensures |r| == |events|
    decreases |events|
  {
    if events == [] then []
    else
      var n := |events| - 1;
      Replies(s, events[..n]) + [Take(Run(s, events[..n]).0, events[n]).reply]
  }

  // The session that a viewer asks for, and what it finds on the way.
  datatype Visit = Visit(
    suffix: string, ch: ChannelId, transport: Transport, media: Media, url: string, response: string,
    describing: World, settingUp: World, playing: World, pkt: Packet)
  {
    // The session is there under its name and, still the same, under its number.
    ghost predicate Possible() {
      && describing.Valid() && settingUp.Valid() && playing.Valid()
      && describing.server.alive && describing.server.bySuffix(suffix) == Found(media) && media.described
      && settingUp.server.alive && settingUp.server.byId(media.id) == Found(media)
      && Suits(media, transport) && Available(describing.newcomer.online, transport)
      && Small(Item(ch, pkt)) && StartsStream(pkt.kind)
    }

    function Asks(): (asks: seq<Event>)
      ensures |asks| == 3
    {
      [Ask(Message(Describe(suffix), url, response), describing),
       Ask(Message(Setup(ch, transport), url, ""), settingUp), Ask(Message(Play, url, ""), playing)]
    }

    function Last(): Event { Event.Packet(ch, pkt) }

    function Events(): seq<Event> { Asks() + [Last()] }
  }

  lemma DescribeAnswers(s: Session, suffix: string, w: World)
    requires s.Valid() && w.Valid()
    ensures var r, found := DescribeStep(s, suffix, w), w.server.bySuffix(suffix);
      var c := if s.rtp.Has? then s.rtp.client else w.newcomer;
      if !w.server.alive || found == NotFound then r == Step(s.(rtp := Has(c)), [], NotFoundReply)
      else
        && r.reply == (if found.media.described then OK else ServerError)
        && r.marks == [Described(found.media.id)]
        && r.session == s.(rtp := Has(Typed(c, found.media.payloads)), id := found.media.id)
  {
    hide Typed;
  }

  lemma DescribeWorks(s: Session, v: Visit) returns (t: Session)
    requires v.Possible() && s.Valid() && s.rtp == NoClient
    requires MayPass(s, Message(Describe(v.suffix), v.url, v.response))
    ensures var r := Take(s, v.Asks()[0]);
      && r.reply == OK && r.session == t && t.Valid() && t.rtp.Has? && t.id == v.media.id
      && (t.credentials == Anyone || t.hasAuth) && t.rtp.client == Typed(v.describing.newcomer, v.media.payloads)
  {
    var m := Message(Describe(v.suffix), v.url, v.response);
    hide MayPass, Typed, Authenticate, DescribeStep, HandleRequest, Available;
    Passes(s, m, v.describing);
    DescribeAnswers(Authenticate(s, m, v.describing.nonce).session, v.suffix, v.describing);
    t := Take(s, v.Asks()[0]).session;
  }

  lemma SetupWorks(s: Session, v: Visit) returns (t: Session)
    requires v.Possible() && s.Valid() && (s.credentials == Anyone || s.hasAuth)
    requires s.rtp.Has? && s.id == v.media.id && s.rtp.client.online == v.describing.newcomer.online
    ensures var r := Take(s, v.Asks()[1]);
      && r.reply == OK && r.session == t && t.Valid() && t.rtp.Has? && t == s.(rtp := t.rtp)
      && IsSetUp(s.rtp.client, t.rtp.client, v.ch, v.transport)
  {
    SetupAnswers(s, v.ch, v.transport, v.settingUp);
    hide SetupStep, Available, IsSetUp;
    t := Take(s, v.Asks()[1]).session;
  }

  lemma PlayWorks(s: Session, v: Visit) returns (t: Session)
    requires v.Possible() && s.Valid() && s.rtp.Has? && (s.credentials == Anyone || s.hasAuth)
    ensures var r := Take(s, v.Asks()[2]);
      r.reply == OK && r.session == t && t.Valid() && t == s.(rtp := Has(s.rtp.client.Played()), state := StartPlay)
  {
    t := Take(s, v.Asks()[2]).session;
  }

  ghost predicate AllOk(events: seq<Event>) {
    forall i :: 0 <= i < |events| ==> EventOk(events[i])
  }

  lemma RunLast(s: Session, events: seq<Event>, e: Event)
    requires s.Valid() && AllOk(events) && EventOk(e)
    ensures AllOk(events + [e])
    ensures var before := Run(s, events);
      && Run(s, events + [e]) == (Take(before.0, e).session, before.1 + Take(before.0, e).marks)
      && Replies(s, events + [e]) == Replies(s, events) + [Take(before.0, e).reply]
  {
    assert (events + [e])[..|events|] == events;
    hide Take;
  }

  lemma RunNone(s: Session)
    requires s.Valid()
    ensures Run(s, []) == (s, []) && Replies(s, []) == []
  {
  }

  // A run, and what follows it.
  lemma {:induction false} RunConcat(s: Session, a: seq<Event>, b: seq<Event>)
    requires s.Valid() && AllOk(a) && AllOk(b)
    ensures AllOk(a + b)
    ensures var (t, marks) := Run(s, a);
      && Run(s, a + b) == (Run(t, b).0, marks + Run(t, b).1)
      && Replies(s, a + b) == Replies(s, a) + Replies(t, b)
    decreases |b|
  {
    hide Take, Run, Replies, EventOk;
    var (t, marks) := Run(s, a);
    if b == [] {
      RunNone(t);
      assert a + b == a && marks + [] == marks && Replies(s, a) + [] == Replies(s, a);
    } else {
      var before, last := b[..|b| - 1], b[|b| - 1];
      assert EventOk(last) && AllOk(before) && a + b == (a + before) + [last] && b == before + [last];
      RunConcat(s, a, before);
      RunLast(s, a + before, last);
      RunLast(t, before, last);
      hide AllOk;
      Regroup(marks, Run(t, before).1, Take(Run(t, before).0, last).marks);
      Regroup(Replies(s, a), Replies(t, before), [Take(Run(t, before).0, last).reply]);
    }
  }

  lemma RunFirst(s: Session, e: Event, rest: seq<Event>)
    requires s.Valid() && EventOk(e) && AllOk(rest)
    ensures Take(s, e).session.Valid() && AllOk([e] + rest)
    ensures var step := Take(s, e);
      && Run(s, [e] + rest).0 == Run(step.session, rest).0
      && Run(s, [e] + rest).1 == step.marks + Run(step.session, rest).1
      && Replies(s, [e] + rest) == [step.reply] + Replies(step.session, rest)
  {
    RunOne(s, e);
    hide Take, Run, Replies, EventOk, AllOk;
    RunConcat(s, [e], rest);
  }

  lemma RunOne(s: Session, e: Event)
    requires s.Valid() && EventOk(e)
    ensures Take(s, e).session.Valid() && AllOk([e])
    ensures Run(s, [e]) == (Take(s, e).session, Take(s, e).marks) && Replies(s, [e]) == [Take(s, e).reply]
  {
    TakeValid(s, e);
    hide Take, EventOk;
    assert [e][..0] == [];
    RunNone(s);
    assert [] + Take(s, e).marks == Take(s, e).marks;
  }

  // The datagram that the viewer is sent: the packet, behind the header of the viewer's channel.
  ghost predicate IsMedia(v: Visit, datagram: seq<byte>)
    requires v.Possible()
  {
    var own := v.describing.newcomer.info[v.ch];
    && Carries(datagram, v.pkt) && VersionTwoAndPlain(datagram)
    && (v.ch in v.media.payloads ==> PayloadType(datagram) == v.media.payloads[v.ch] & 0x7f)
    && SequenceNumber(datagram) == own.packetSeq
    && Timestamp(datagram) == v.pkt.timestamp && Ssrc(datagram) == own.header.ssrc
  }

  // The viewer plays on its channel over the transport that it asked for.
  ghost predicate PlaysAsAsked(v: Visit, c: Client)
    requires c.Valid()
  {
    && c.info[v.ch].isSetup && c.info[v.ch].isPlay
    && c.transport == Mode(v.transport)
    && (v.transport.Tcp? ==> c.info[v.ch].rtpChannel == v.transport.rtpChannel)
  }

  lemma PacketComes(s: Session, v: Visit) returns (t: Session)
    requires v.Possible() && s.Valid() && s.rtp.Has? && !s.rtp.client.closed && s.rtp.client.offered == []
    requires PlaysAsAsked(v, s.rtp.client)
    requires var c, own := s.rtp.client, v.describing.newcomer.info[v.ch];
      && c.info[v.ch].packetSeq == own.packetSeq && c.info[v.ch].header.ssrc == own.header.ssrc
      && (v.ch in v.media.payloads ==> c.info[v.ch].header.payload == v.media.payloads[v.ch])
    ensures var r := Take(s, Event.Packet(v.ch, v.pkt));
      && r.session == t && r.marks == [Offered(v.ch)] && t.Valid() && t.rtp.Has?
      && |t.rtp.client.offered| == 1 && IsMedia(v, t.rtp.client.offered[0])
  {
    OfferedOnce(s.rtp.client, Item(v.ch, v.pkt));
    hide SendStep, Carries, VersionTwoAndPlain, PayloadType, SequenceNumber, Timestamp, Ssrc, Available;
    t := Take(s, Event.Packet(v.ch, v.pkt)).session;
  }

  // After the three requests, and before the packet.
  lemma AsksWork(s: Session, v: Visit) returns (a: Session, b: Session, t: Session)
    requires v.Possible() && s.Valid() && s.rtp == NoClient
    requires MayPass(s, Message(Describe(v.suffix), v.url, v.response))
    ensures a.Valid() && b.Valid() && t.Valid() && t.rtp.Has?
    ensures Take(s, v.Asks()[0]).session == a && Take(s, v.Asks()[0]).reply == OK
    ensures Take(a, v.Asks()[1]).session == b && Take(a, v.Asks()[1]).reply == OK
    ensures Take(b, v.Asks()[2]).session == t && Take(b, v.Asks()[2]).reply == OK
    ensures var c, own := t.rtp.client, v.describing.newcomer.info[v.ch];
      && !c.closed && c.offered == [] && PlaysAsAsked(v, c)
      && c.info[v.ch].packetSeq == own.packetSeq && c.info[v.ch].header.ssrc == own.header.ssrc
      && (v.ch in v.media.payloads ==> c.info[v.ch].header.payload == v.media.payloads[v.ch])
  {
    hide Take, MayPass, Typed, Available;
    a := DescribeWorks(s, v);
    TypedIs(v.describing.newcomer, v.media.payloads);
    b := SetupWorks(a, v);
    t := PlayWorks(b, v);
  }

  // The run ends with the packet's offer, and the packet is all that the viewer was offered.
  ghost predicate GetsMedia(s: Session, events: seq<Event>, v: Visit)
    requires s.Valid() && AllOk(events) && v.Possible()
  {
    var (t, marks) := Run(s, events);
    && marks != [] && marks[|marks| - 1] == Offered(v.ch)
    && t.rtp.Has? && |t.rtp.client.offered| == 1 && IsMedia(v, t.rtp.client.offered[0])
  }

  lemma Earlier(s: Session, e: Event, rest: seq<Event>, v: Visit)
    requires s.Valid() && EventOk(e) && AllOk(rest) && v.Possible()
    ensures Take(s, e).session.Valid() && AllOk([e] + rest)
    ensures GetsMedia(Take(s, e).session, rest, v) ==> GetsMedia(s, [e] + rest, v)
    ensures Replies(s, [e] + rest) == [Take(s, e).reply] + Replies(Take(s, e).session, rest)
  {
    RunFirst(s, e, rest);
    hide Take, Run, Replies, IsMedia, Visit.Possible;
  }

  lemma PacketIsLast(s: Session, v: Visit)
    requires v.Possible() && s.Valid() && s.rtp.Has? && !s.rtp.client.closed && s.rtp.client.offered == []
    requires PlaysAsAsked(v, s.rtp.client)
    requires var c, own := s.rtp.client, v.describing.newcomer.info[v.ch];
      && c.info[v.ch].packetSeq == own.packetSeq && c.info[v.ch].header.ssrc == own.header.ssrc
      && (v.ch in v.media.payloads ==> c.info[v.ch].header.payload == v.media.payloads[v.ch])
    ensures AllOk([v.Last()]) && GetsMedia(s, [v.Last()], v) && Replies(s, [v.Last()]) == [NoReply]
  {
    var end := PacketComes(s, v);
    var r := Take(s, v.Last());
    assert r.reply == NoReply && EventOk(v.Last());
    hide Take, Run, Replies, IsMedia, Available, PlaysAsAsked;
    RunNone(end);
    RunFirst(s, v.Last(), []);
    assert [v.Last()] + [] == [v.Last()];
    assert r.marks + [] == r.marks;
  }

  // A visit, from wherever the connection is before its first client.
  lemma VisitWorks(s: Session, v: Visit)
    requires v.Possible() && s.Valid() && s.rtp == NoClient
    requires MayPass(s, Message(Describe(v.suffix), v.url, v.response))
    ensures AllOk(v.Events()) && GetsMedia(s, v.Events(), v) && Replies(s, v.Events()) == [OK, OK, OK, NoReply]
  {
    hide Take, MayPass, GetsMedia, Replies, EventOk, PlaysAsAsked, AllOk;
    hide Visit.Possible, Visit.Asks, Visit.Last, Visit.Events;
    var a, b, t := AsksWork(s, v);
    PacketIsLast(t, v);
    EventsAre(v);
    var e, p := v.Asks(), v.Last();
    Earlier(b, e[2], [p], v);
    Earlier(a, e[1], [e[2]] + [p], v);
    Earlier(s, e[0], [e[1]] + ([e[2]] + [p]), v);
  }

  lemma EventsAre(v: Visit)
    requires v.Possible()
    ensures |v.Asks()| == 3 && EventOk(v.Asks()[0]) && EventOk(v.Asks()[1]) && EventOk(v.Asks()[2])
    ensures var e := v.Asks(); v.Events() == [e[0]] + ([e[1]] + ([e[2]] + [v.Last()]))
  {
  }

  /** Without credentials, a viewer that describes a session, sets up a channel over a transport that
      suits it and can be had, and plays, is answered OK each time, and the next key frame on the
      channel is offered to it, as the packet behind the viewer's own header. */
  lemma ViewerGetsMedia(v: Visit)
    requires v.Possible()
    ensures AllOk(v.Events()) && GetsMedia(Start(Anyone), v.Events(), v)
    ensures Replies(Start(Anyone), v.Events()) == [OK, OK, OK, NoReply]
  {
    hide GetsMedia, Visit.Possible, Replies;
    VisitWorks(Start(Anyone), v);
  }

  /** With credentials, a viewer is challenged first; when it then asks again with the response of
      RFC 2617 to the nonce, everything goes as without. */
  lemma ChallengedViewerGetsMedia(c: Credentials, v: Visit, guess: string, first: World)
    requires v.Possible() && first.Valid() && first.nonce != ""
    requires v.response == Rfc2617Response(c, first.nonce, "DESCRIBE", v.url)
    ensures var events := [Ask(Message(Describe(v.suffix), v.url, guess), first)] + v.Events();
      && AllOk(events) && GetsMedia(Start(Only(c)), events, v)
      && Replies(Start(Only(c)), events) == [Unauthorized(first.nonce), OK, OK, OK, NoReply]
  {
    var m := Message(Describe(v.suffix), v.url, guess);
    var s := Start(Only(c));
    var t := s.(nonce := first.nonce);
    hide Take, Run, Replies, GetsMedia, Visit.Possible, Rfc2617Response, HandleRequest;
    FirstIsChallenged(c, m, first);
    VisitWorks(t, v);
    Earlier(s, Ask(m, first), v.Events(), v);
  }

  lemma FirstIsChallenged(c: Credentials, m: Message, w: World)
    requires w.Valid() && NeedsAuth(m.request)
    ensures Take(Start(Only(c)), Ask(m, w))
      == Step(Start(Only(c)).(nonce := w.nonce), [Challenged(w.nonce)], Unauthorized(w.nonce))
  {
    ChallengedIff(Start(Only(c)), m, w);
    hide HandleRequest, Rfc2617Response;
  }

  /** After a TEARDOWN of a client nothing is ever offered on the connection again, whatever it is
      asked then, and however often. */
  lemma NothingAfterTeardown(
    credentials: MaybeCredentials, before: seq<Event>, m: Message, w: World, after: seq<Event>)
    requires AllOk(before) && AllOk(after) && m.request == Teardown && w.Valid()
    ensures var s := Run(Start(credentials), before).0;
      s.rtp.Has? ==>
        var t := Take(s, Ask(m, w)).session;
        t.Valid() && forall k :: 0 <= k < |Run(t, after).1| ==> !Run(t, after).1[k].Offered?
  {
    var start, ask := Start(credentials), Ask(m, w);
    var (s, marks) := Run(start, before);
    if s.rtp.Has? {
      OtherAnswers(s, m, w);
      TakeValid(s, ask);
      var t, more := Take(s, ask).session, [ask] + after;
      var later := Run(t, after).1;
      assert Take(s, ask).marks == [TornDown];
      RunFirst(s, ask, after);
      RunConcat(start, before, more);
      assert AllOk(before + more);
      MediaIsGated(credentials, before + more);
      hide Take, Run, Gated, AllOk;
      NoneAfter(marks, later);
    }
  }

  lemma NoneAfter(marks: seq<Mark>, later: seq<Mark>)
    requires Gated(marks + ([TornDown] + later))
    ensures forall k :: 0 <= k < |later| ==> !later[k].Offered?
  {
    hide Started;
    var all := marks + ([TornDown] + later);
    forall k | 0 <= k < |later| ensures !later[k].Offered? {
      var at := |marks| + 1 + k;
      assert all[at] == later[k] && all[..at][|marks|] == TornDown;
    }
  }
}
