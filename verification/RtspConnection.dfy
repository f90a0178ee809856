/** The RTSP side of a connection: which requests set up, start and stop a client's media, and
    how a connection pushes to another server. */
module RtspConnection {
  import opened Rtp
  import opened RtpConnection
  import opened RtspMedia
  import opened MediaGate
  import opened RtspPush
  import opened Sequences
  import opened Md5Definition
  import Md5
  import Tcp = TcpConnection

  datatype Reply = NoReply | OK | Unauthorized(nonce: string) | NotFoundReply | ServerError | Unsupported

  // --- Digest authentication ---

  datatype Credentials = Credentials(realm: string, username: string, password: string)
  datatype MaybeCredentials = Anyone | Only(credentials: Credentials)

  function BytesOf(s: string): seq<byte> {
    seq(|s|, i requires 0 <= i < |s| => (s[i] as int % 256) as byte)
  }

  function HashHex(s: string): string {
    Md5.Hex(Digest(BytesOf(s)))
  }

  function Expected(c: Credentials, nonce: string, command: string, url: string): string {
    HashHex(HashHex(c.username + ":" + c.realm + ":" + c.password) + ":" + nonce + ":" + HashHex(command + ":" + url))
  }

  // The same as section 3.2.2 of RFC 2617 has it, without a quality of protection: the keyed digest
  // of the nonce and the hashed request under the hashed credentials.
  function Rfc2617Response(c: Credentials, nonce: string, command: string, uri: string): string {
    var a1, a2 := c.username + ":" + c.realm + ":" + c.password, command + ":" + uri;
    KeyedDigest(HashHex(a1), nonce + ":" + HashHex(a2))
  }

  function KeyedDigest(secret: string, data: string): string {
    HashHex(secret + ":" + data)
  }

  lemma ExpectedIsRfc2617(c: Credentials, nonce: string, command: string, url: string)
    ensures Expected(c, nonce, command, url) == Rfc2617Response(c, nonce, command, url)
  {
    hide HashHex;
    var a1, a2 := HashHex(c.username + ":" + c.realm + ":" + c.password), HashHex(command + ":" + url);
    assert a1 + ":" + nonce + ":" + a2 == a1 + ":" + (nonce + ":" + a2);
  }

  // --- The state of a connection, and what happens to it ---

  datatype MaybeClient = NoClient | Has(client: Client)

  datatype Session = Session(
    credentials: MaybeCredentials, hasAuth: bool, nonce: string, id: nat, rtp: MaybeClient, state: State)
  {
    // A session was found only once there was a client.
    ghost predicate Valid() { (rtp.Has? ==> rtp.client.Valid()) && (id != 0 ==> rtp.Has?) }
  }

  datatype Step = Step(session: Session, marks: seq<Mark>, reply: Reply)

  // What a step takes from outside: the server, a nonce, and a client with its random numbers.
  datatype World = World(server: Server, nonce: string, newcomer: Client)
  {
    ghost predicate Valid() { Newborn(newcomer) && server.byId(0) == NotFound }
  }

  /** Whether the request may go on; if not, it is answered with a fresh nonce. */
  function Authenticate(s: Session, m: Message, nonce: string): Step {
    if s.credentials == Anyone || s.hasAuth then Step(s, [], OK)
    else if s.nonce != "" && m.response == Expected(s.credentials.credentials, s.nonce, Command(m.request), m.url) then
      Step(s.(nonce := "", hasAuth := true), [Accepted(s.nonce, m)], OK)
    else
      Step(s.(nonce := nonce), [Challenged(nonce)], Unauthorized(nonce))
  }

  // The client of a connection that has one from now on.
  ghost function Ensured(s: Session, newcomer: Client): Client {
    if s.rtp.Has? then s.rtp.client else newcomer
  }

  ghost function DescribeStep(s: Session, suffix: string, w: World): Step
    requires s.Valid() && w.Valid()
  {
    var c := Ensured(s, w.newcomer);
    var found := if w.server.alive then w.server.bySuffix(suffix) else NotFound;
    if found == NotFound then Step(s.(rtp := Has(c)), [], NotFoundReply)
    else
      Step(s.(rtp := Has(Typed(c, found.media.payloads)), id := found.media.id), [Described(found.media.id)],
           if found.media.described then OK else ServerError)
  }

  // A channel set up over TCP, UDP or multicast, if the connection and the sockets are there.
  ghost function SetupClient(c: Client, ch: ChannelId, t: Transport): (r: (Client, bool))
    requires c.Valid()
    ensures r.0.Valid()
  {
    match t
    case Tcp(rtpChannel) =>
      if !c.online then (c, false)
      else
        var info := c.info[ch := c.info[ch].(rtpChannel := rtpChannel, isSetup := true)];
        (c.(info := info, transport := OverTcp), true)
    case Udp(peer, binds) =>
      if !c.online || !peer || !PairBound(binds) then (c, false)
      else (c.(info := c.info[ch := c.info[ch].(isSetup := true)], transport := OverUdp), true)
    case Multicast(binds) =>
      if !SocketBound(binds) then (c, false)
      else (c.(info := c.info[ch := c.info[ch].(isSetup := true)], transport := OverMulticast), true)
  }

  ghost function SetupStep(s: Session, ch: ChannelId, t: Transport, w: World): Step
    requires s.Valid() && w.Valid()
  {
    var found := if w.server.alive then w.server.byId(s.id) else NotFound;
    if found == NotFound then Step(s, [], ServerError)
    else if found.media.multicast != t.Multicast? then Step(s, [], Unsupported)
    else
      var (c, done) := SetupClient(s.rtp.client, ch, t);
      Step(s.(rtp := Has(c)), if done then [SetUp(ch)] else [], if done || t.Tcp? then OK else ServerError)
  }

  ghost function PlayStep(s: Session): Step
    requires s.Valid()
  {
    if s.rtp == NoClient then Step(s, [], NoReply)
    else Step(s.(rtp := Has(s.rtp.client.Played()), state := StartPlay), [Played], OK)
  }

  ghost function TeardownStep(s: Session): Step
    requires s.Valid()
  {
    if s.rtp == NoClient then Step(s, [], NoReply)
    else Step(s.(rtp := Has(s.rtp.client.TornDown())), [TornDown], OK)
  }

  // A request that needs authentication.
  ghost function Admitted(s: Session, m: Message, w: World): Step
    requires s.Valid() && w.Valid()
  {
    match m.request
    case Describe(suffix) => DescribeStep(s, suffix, w)
    case Setup(ch, t) => SetupStep(s, ch, t, w)
    case _ => PlayStep(s)
  }

  /** One complete request. Neither TEARDOWN nor GET_PARAMETER asks for authentication. */
  ghost function HandleRequest(s: Session, m: Message, w: World): Step
    requires s.Valid() && w.Valid()
  {
    match m.request
    case Options => Step(s, [], OK)
    case Teardown => TeardownStep(s)
    case GetParameter => Step(s, [], if s.rtp == NoClient then NoReply else OK)
    case _ =>
      var auth := Authenticate(s, m, w.nonce);
      if auth.reply != OK then auth
      else
        var r := Admitted(auth.session, m, w);
        r.(marks := auth.marks + r.marks)
  }

  // The media session sends the client a packet.
  ghost function SendPacket(s: Session, ch: ChannelId, pkt: Packet): Step
    requires s.Valid() && |pkt.payload| <= MAX_RTP_PAYLOAD_SIZE
  {
    if s.rtp == NoClient then Step(s, [], NoReply)
    else
      var c := SendStep(s.rtp.client, ch, pkt).client;
      Step(s.(rtp := Has(c)), if c.offered == s.rtp.client.offered then [] else [Offered(ch)], NoReply)
  }

  // --- Runs of a serving connection ---

  datatype Event = Ask(message: Message, world: World) | Packet(ch: ChannelId, pkt: Packet)

  ghost predicate EventOk(e: Event) {
    match e
    case Ask(_, w) => w.Valid()
    case Packet(_, pkt) => |pkt.payload| <= MAX_RTP_PAYLOAD_SIZE
  }

  ghost function Take(s: Session, e: Event): Step
    requires s.Valid() && EventOk(e)
  {
    match e
    case Ask(m, w) => HandleRequest(s, m, w)
    case Packet(ch, pkt) => SendPacket(s, ch, pkt)
  }

  // --- What the marks of a run say about its state ---

  ghost predicate Tracks(s: Session, marks: seq<Mark>) {
    s.Valid() && if s.rtp.Has? then Follows(s.rtp.client, marks) else TornDown !in marks
  }

  lemma DescribeTracks(s: Session, suffix: string, w: World, marks: seq<Mark>)
    requires Tracks(s, marks) && w.Valid()
    ensures var r := DescribeStep(s, suffix, w); Tracks(r.session, marks + r.marks)
  {
    var c, r := Ensured(s, w.newcomer), DescribeStep(s, suffix, w);
    if s.rtp == NoClient {
      NewbornFollows(w.newcomer, marks);
    }
    if r.marks != [] {
      TypedFlags(c, w.server.bySuffix(suffix).media.payloads);
    }
    hide Started, Typed;
    FollowsMore(c, r.session.rtp.client, marks, r.marks);
  }

  lemma SetupTracks(s: Session, ch: ChannelId, t: Transport, w: World, marks: seq<Mark>)
    requires Tracks(s, marks) && w.Valid()
    ensures var r := SetupStep(s, ch, t, w); Tracks(r.session, marks + r.marks)
  {
    hide Started;
    var r := SetupStep(s, ch, t, w);
    if s.rtp.Has? {
      FollowsMore(s.rtp.client, r.session.rtp.client, marks, r.marks);
    }
  }

  lemma TeardownTracks(s: Session, marks: seq<Mark>)
    requires Tracks(s, marks)
    ensures var r := TeardownStep(s); Tracks(r.session, marks + r.marks)
  {
    hide Started;
    if s.rtp.Has? {
      FollowsMore(s.rtp.client, s.rtp.client.TornDown(), marks, [TornDown]);
    }
  }

  lemma QuietTracks(s: Session, t: Session, marks: seq<Mark>, more: seq<Mark>)
    requires Tracks(s, marks) && TornDown !in more && t.rtp == s.rtp && t.id == s.id
    ensures Tracks(t, marks + more)
  {
    hide Started;
    if s.rtp.Has? {
      FollowsMore(s.rtp.client, s.rtp.client, marks, more);
    }
  }

  lemma AdmittedTracks(s: Session, m: Message, w: World, marks: seq<Mark>)
    requires Tracks(s, marks) && w.Valid()
    ensures var r := Admitted(s, m, w); Tracks(r.session, marks + r.marks) && NoOffer(r.marks)
  {
    match m.request {
      case Describe(suffix) => DescribeTracks(s, suffix, w, marks);
      case Setup(ch, t) => SetupTracks(s, ch, t, w, marks);
      case _ =>
        if s.rtp.Has? {
          PlayFollows(s.rtp.client, marks);
        } else {
          QuietTracks(s, s, marks, []);
        }
    }
    hide Tracks, SetupClient, Typed;
  }

  lemma RequestTracks(s: Session, m: Message, w: World, marks: seq<Mark>)
    requires Tracks(s, marks) && w.Valid()
    ensures var r := HandleRequest(s, m, w);
      Tracks(r.session, marks + r.marks) && NoOffer(r.marks)
  {
    hide Follows, Admitted, Expected;
    match m.request {
      case Options => QuietTracks(s, s, marks, []);
      case GetParameter => QuietTracks(s, s, marks, []);
      case Teardown => TeardownTracks(s, marks);
      case _ =>
        var auth := Authenticate(s, m, w.nonce);
        QuietTracks(s, auth.session, marks, auth.marks);
        if auth.reply == OK {
          AdmittedTracks(auth.session, m, w, marks + auth.marks);
          var r := Admitted(auth.session, m, w);
          assert marks + (auth.marks + r.marks) == (marks + auth.marks) + r.marks;
        }
    }
  }

  lemma TakeTracks(s: Session, e: Event, marks: seq<Mark>)
    requires Tracks(s, marks) && Gated(marks) && EventOk(e)
    ensures var r := Take(s, e); Tracks(r.session, marks + r.marks) && Gated(marks + r.marks)
  {
    hide HandleRequest, SendStep, Started, Gated;
    match e {
      case Ask(m, w) =>
        RequestTracks(s, m, w, marks);
        GatedMore(marks, Take(s, e).marks);
      case Packet(ch, pkt) =>
        var r := SendPacket(s, ch, pkt);
        if s.rtp.Has? {
          SendFollows(s.rtp.client, ch, pkt, marks, r.marks);
          if r.marks == [] {
            GatedMore(marks, []);
          } else {
            GatedOffer(marks, ch);
          }
        } else {
          GatedMore(marks, []);
          QuietTracks(s, s, marks, []);
        }
    }
  }

  ghost function Run(s: Session, events: seq<Event>): (r: (Session, seq<Mark>))
    requires s.Valid() && forall i :: 0 <= i < |events| ==> EventOk(events[i])
    ensures r.0.Valid()
    decreases |events|
  {
    if events == [] then (s, [])
    else
      var before := Run(s, events[..|events| - 1]);
      hide Take;
      TakeValid(before.0, events[|events| - 1]);
      var last := Take(before.0, events[|events| - 1]);
      (last.session, before.1 + last.marks)
  }

  lemma TakeValid(s: Session, e: Event)
    requires s.Valid() && EventOk(e)
    ensures Take(s, e).session.Valid()
  {
    hide SendStep, Expected;
  }

  function Start(credentials: MaybeCredentials): Session {
    Session(credentials, credentials == Anyone, "", 0, NoClient, StartConnect)
  }

  lemma {:induction false} RunTracks(s: Session, events: seq<Event>)
    requires s.rtp == NoClient && s.id == 0 && forall i :: 0 <= i < |events| ==> EventOk(events[i])
    ensures var (r, marks) := Run(s, events); Tracks(r, marks) && Gated(marks)
    decreases |events|
  {
    if events != [] {
      var n := |events| - 1;
      RunTracks(s, events[..n]);
      var before := Run(s, events[..n]);
      TakeTracks(before.0, events[n], before.1);
      hide Take, Tracks, Gated;
    }
  }

  /** In every run, a packet is offered on a channel only after that channel was set up and a
      PLAY came later, and never after a TEARDOWN; and a session that was found has a client. */
  lemma MediaIsGated(credentials: MaybeCredentials, events: seq<Event>)
    requires forall i :: 0 <= i < |events| ==> EventOk(events[i])
    ensures var (r, marks) := Run(Start(credentials), events);
      Gated(marks) && (r.id != 0 ==> r.rtp.Has?)
  {
    RunTracks(Start(credentials), events);
    hide Run;
  }

  // --- Authentication over a run ---

  // A response to the nonce that was handed out just before, when nothing else had happened.
  ghost predicate ValidAccept(c: Credentials, marks: seq<Mark>, t: nat) {
    && 0 < t < |marks| && marks[t].Accepted? && marks[t - 1] == Challenged(marks[t].nonce)
    && marks[t].message.response
      == Expected(c, marks[t].nonce, Command(marks[t].message.request), marks[t].message.url)
    && forall i :: 0 <= i < t ==> marks[i].Challenged?
  }

  ghost predicate Guarded(s: Session, marks: seq<Mark>)
    requires s.credentials.Only?
  {
    if s.hasAuth then exists t: nat :: ValidAccept(s.credentials.credentials, marks, t)
    else
      && s.rtp == NoClient && (forall i :: 0 <= i < |marks| ==> marks[i].Challenged?)
      && s.nonce == if marks == [] then "" else marks[|marks| - 1].nonce
  }

  lemma AcceptStays(c: Credentials, marks: seq<Mark>, more: seq<Mark>, t: nat)
    requires ValidAccept(c, marks, t)
    ensures ValidAccept(c, marks + more, t)
  {
    hide Expected;
    assert (marks + more)[t] == marks[t] && (marks + more)[t - 1] == marks[t - 1];
  }

  // What keeps whether the connection is authenticated.
  ghost predicate SameAuth(s: Session, r: Session) {
    r.credentials == s.credentials && r.hasAuth == s.hasAuth && r.nonce == s.nonce
  }

  lemma TakeGuarded(s: Session, e: Event, marks: seq<Mark>)
    requires s.Valid() && EventOk(e) && s.credentials.Only? && Guarded(s, marks)
    ensures var r := Take(s, e); r.session.credentials == s.credentials && Guarded(r.session, marks + r.marks)
  {
    hide Expected, SendStep, SetupClient, Typed, Admitted;
    var r := Take(s, e);
    if s.hasAuth {
      KeepsAuth(s, e);
      var t: nat :| ValidAccept(s.credentials.credentials, marks, t);
      AcceptStays(s.credentials.credentials, marks, r.marks, t);
    } else if e.Ask? && NeedsAuth(e.message.request) {
      var auth := Authenticate(s, e.message, e.world.nonce);
      if auth.reply == OK {
        var c, accepted := s.credentials.credentials, marks + auth.marks;
        assert ValidAccept(c, accepted, |marks|);
        AdmittedKeepsAuth(auth.session, e.message, e.world);
        var more := Admitted(auth.session, e.message, e.world).marks;
        AcceptStays(c, accepted, more, |marks|);
        assert accepted + more == marks + r.marks;
      }
    } else {
      assert marks + r.marks == marks;
    }
  }

  predicate NeedsAuth(r: Request) {
    r.Describe? || r.Setup? || r.Play?
  }

  lemma AdmittedKeepsAuth(s: Session, m: Message, w: World)
    requires s.Valid() && w.Valid()
    ensures SameAuth(s, Admitted(s, m, w).session)
  {
    hide SetupClient, Typed;
  }

  lemma KeepsAuth(s: Session, e: Event)
    requires s.Valid() && EventOk(e) && s.hasAuth
    ensures SameAuth(s, Take(s, e).session)
  {
    hide SendStep, Expected, Admitted;
    if e.Ask? {
      AdmittedKeepsAuth(s, e.message, e.world);
    }
  }

  lemma {:induction false} RunGuarded(c: Credentials, events: seq<Event>)
    requires forall i :: 0 <= i < |events| ==> EventOk(events[i])
    ensures var (r, marks) := Run(Start(Only(c)), events); r.credentials == Only(c) && Guarded(r, marks)
    decreases |events|
  {
    if events != [] {
      var n := |events| - 1;
      RunGuarded(c, events[..n]);
      var before := Run(Start(Only(c)), events[..n]);
      TakeGuarded(before.0, events[n], before.1);
      hide Take, Guarded;
    }
  }

  // Whatever is not a challenge comes with or after an accepted answer to the last challenge.
  ghost predicate AuthenticatedFirst(c: Credentials, marks: seq<Mark>) {
    forall k :: 0 <= k < |marks| && !marks[k].Challenged? ==> exists t: nat :: t <= k && ValidAccept(c, marks, t)
  }

  /** With credentials configured, nothing is described, set up, started, sent or torn down
      before a request was accepted whose response answers the last nonce handed out. */
  lemma NothingBeforeAuthentication(c: Credentials, events: seq<Event>)
    requires forall i :: 0 <= i < |events| ==> EventOk(events[i])
    ensures AuthenticatedFirst(c, Run(Start(Only(c)), events).1)
  {
    RunGuarded(c, events);
    var (r, marks) := Run(Start(Only(c)), events);
    hide Run, Expected;
    AcceptIsFirst(c, r, marks);
  }

  lemma AcceptIsFirst(c: Credentials, s: Session, marks: seq<Mark>)
    requires s.credentials == Only(c) && Guarded(s, marks)
    ensures AuthenticatedFirst(c, marks)
  {
    hide Expected;
    if s.hasAuth {
      var t: nat :| ValidAccept(c, marks, t);
      forall k | 0 <= k < |marks| && !marks[k].Challenged? ensures t <= k {
      }
    }
  }

  // --- The class ---

  class RtspConnection {
    const credentials: MaybeCredentials
    var hasAuth: bool
    var nonce: string
    var sessionId: nat
    var rtpConn: RtpConnection?
    var state: State
    // For a connection that pushes: whether it is still open, and its last request.
    var isOpen: bool
    var last: LastRequest
    // The connection itself, which the client's media shares, its socket and its network.
    const tcp: Tcp.TcpConnection
    const socket: nat -> Tcp.SocketTurn
    const network: nat -> bool

    ghost predicate Valid()
      reads this, rtpConn, tcp, tcp.writeBuffer, tcp.Arrays()
    {
      && tcp.Valid() && (rtpConn != null ==> rtpConn.rtsp == tcp && rtpConn.Valid())
      && (sessionId != 0 ==> rtpConn != null)
    }

    ghost function View(): (s: Session)
      requires Valid()
      reads this, rtpConn, tcp, tcp.writeBuffer, tcp.Arrays()
      ensures s.Valid()
    {
      Session(credentials, hasAuth, nonce, sessionId, if rtpConn == null then NoClient else Has(rtpConn.View()), state)
    }

    // What the next request finds outside.
    ghost function WorldWith(server: Server, nonce: string, seeds: (Seeds, Seeds)): (w: World)
      requires tcp.Valid() && server.byId(0) == NotFound
      reads this, tcp, tcp.writeBuffer, tcp.Arrays()
      ensures w.Valid()
    {
      World(server, nonce, NewClient(seeds, tcp.View(), socket, network))
    }

    constructor (
      credentials: MaybeCredentials, tcp: Tcp.TcpConnection, socket: nat -> Tcp.SocketTurn, network: nat -> bool)
      requires tcp.Valid()
      ensures Valid() && View() == Start(credentials) && isOpen
    {
      this.credentials, this.tcp, this.socket, this.network := credentials, tcp, socket, network;
      hasAuth, nonce, sessionId, rtpConn, state := credentials == Anyone, "", 0, null, StartConnect;
      isOpen, last := true, NoRequest;
    }

    method HandleAuthentication(m: Message, newNonce: string) returns (reply: Reply, ghost marks: seq<Mark>)
      requires Valid()
      modifies this
      ensures Valid() && rtpConn == old(rtpConn)
      ensures Step(View(), marks, reply) == Authenticate(old(View()), m, newNonce)
    {
      hide Expected;
      if credentials.Only? && !hasAuth {
        var command := Command(m.request);
        if nonce != "" && Expected(credentials.credentials, nonce, command, m.url) == m.response {
          marks := [Accepted(nonce, m)];
          nonce := "";
          hasAuth := true;
          assert rtpConn != null ==> rtpConn.View() == old(rtpConn.View());
        } else {
          nonce := newNonce;
          assert rtpConn != null ==> rtpConn.View() == old(rtpConn.View());
          return Unauthorized(nonce), [Challenged(nonce)];
        }
      } else {
        marks := [];
      }
      return OK, marks;
    }

    method HandleCmdDescribe(suffix: string, server: Server, ghost nonce: string, seeds: (Seeds, Seeds))
      returns (reply: Reply, ghost marks: seq<Mark>)
      requires Valid() && server.byId(0) == NotFound
      modifies this, rtpConn
      ensures Valid() && (old(rtpConn) == null ==> fresh(rtpConn))
      ensures old(rtpConn) != null ==> rtpConn == old(rtpConn)
      ensures Step(View(), marks, reply) == DescribeStep(old(View()), suffix, old(WorldWith(server, nonce, seeds)))
    {
      hide Typed, RtpConnection.View;
      if rtpConn == null {
        rtpConn := new RtpConnection(tcp, socket, network, seeds);
      }
      var found := if server.alive then server.bySuffix(suffix) else NotFound;
      if found == NotFound {
        return NotFoundReply, [];
      }
      sessionId := found.media.id;
      SetPayloadTypes(rtpConn, found.media.payloads);
      marks := [Described(sessionId)];
      reply := if found.media.described then OK else ServerError;
    }

    method HandleCmdSetup(ch: ChannelId, t: Transport, server: Server, ghost w: World)
      returns (reply: Reply, ghost marks: seq<Mark>)
      requires Valid() && w.Valid() && w.server == server
      modifies this, rtpConn
      ensures Valid() && rtpConn == old(rtpConn)
      ensures Step(View(), marks, reply) == SetupStep(old(View()), ch, t, w)
    {
      var found := if server.alive then server.byId(sessionId) else NotFound;
      if found == NotFound {
        return ServerError, [];
      }
      if found.media.multicast != t.Multicast? {
        return Unsupported, [];
      }
      var done := SetupRtp(rtpConn, ch, t);
      marks := if done then [SetUp(ch)] else [];
      reply := if done || t.Tcp? then OK else ServerError;
    }

    static method SetupRtp(rtp: RtpConnection, ch: ChannelId, t: Transport) returns (done: bool)
      requires rtp.Valid()
      modifies rtp
      ensures rtp.Valid() && rtp.Arrays() == old(rtp.Arrays())
      ensures (rtp.View(), done) == SetupClient(old(rtp.View()), ch, t)
    {
      match t {
        case Tcp(rtpChannel) => done := rtp.SetupRtpOverTcp(ch, rtpChannel);
        case Udp(peer, binds) => done := rtp.SetupRtpOverUdp(ch, peer, binds);
        case Multicast(binds) => done := rtp.SetupRtpOverMulticast(ch, binds);
      }
    }

    method HandleCmdPlay() returns (reply: Reply, ghost marks: seq<Mark>)
      requires Valid()
      modifies this, rtpConn
      ensures Valid() && rtpConn == old(rtpConn)
      ensures Step(View(), marks, reply) == PlayStep(old(View()))
    {
      if rtpConn == null {
        return NoReply, [];
      }
      state := StartPlay;
      rtpConn.Play();
      return OK, [Played];
    }

    method HandleCmdTeardown() returns (reply: Reply, ghost marks: seq<Mark>)
      requires Valid()
      modifies this, rtpConn
      ensures Valid() && rtpConn == old(rtpConn)
      ensures Step(View(), marks, reply) == TeardownStep(old(View()))
    {
      if rtpConn == null {
        return NoReply, [];
      }
      rtpConn.Teardown();
      return OK, [TornDown];
    }

    // A request that needed authentication and may go on.
    method HandleAdmitted(m: Message, server: Server, newNonce: string, seeds: (Seeds, Seeds))
      returns (reply: Reply, ghost marks: seq<Mark>)
      requires Valid() && server.byId(0) == NotFound
      modifies this, rtpConn
      ensures Valid()
      ensures Step(View(), marks, reply) == Admitted(old(View()), m, old(WorldWith(server, newNonce, seeds)))
    {
      hide Typed, SetupClient;
      ghost var w := WorldWith(server, newNonce, seeds);
      match m.request {
        case Describe(suffix) => reply, marks := HandleCmdDescribe(suffix, server, newNonce, seeds);
        case Setup(ch, t) => reply, marks := HandleCmdSetup(ch, t, server, w);
        case _ => reply, marks := HandleCmdPlay();
      }
    }

    /** One request, as the function says. */
    method HandleRtspRequest(m: Message, server: Server, newNonce: string, seeds: (Seeds, Seeds))
      returns (reply: Reply, ghost marks: seq<Mark>)
      requires Valid() && server.byId(0) == NotFound
      modifies this, rtpConn
      ensures Valid()
      ensures Step(View(), marks, reply) == HandleRequest(old(View()), m, old(WorldWith(server, newNonce, seeds)))
    {
      hide Expected, Admitted, TeardownStep;
      match m.request {
        case Options => return OK, [];
        case GetParameter => return if rtpConn == null then NoReply else OK, [];
        case Teardown => reply, marks := HandleCmdTeardown(); return;
        case _ =>
      }
      ghost var w := WorldWith(server, newNonce, seeds);
      ghost var before: seq<Mark>;
      reply, before := HandleAuthentication(m, newNonce);
      marks := before;
      if reply == OK {
        assert WorldWith(server, newNonce, seeds) == w;
        reply, marks := HandleAdmitted(m, server, newNonce, seeds);
        marks := before + marks;
      }
    }

    // --- Pushing ---

    ghost function Pushing(): (p: Push)
      requires Valid() && rtpConn != null
      reads this, rtpConn, tcp, tcp.writeBuffer, tcp.Arrays()
      ensures p.client.Valid()
    {
      Push(isOpen, last, sessionId, rtpConn.View(), state)
    }

    method SendOptions(alive: bool, seeds: (Seeds, Seeds))
      requires Valid() && rtpConn == null && isOpen && state == StartConnect
      modifies this
      ensures Valid() && fresh(rtpConn)
      ensures var newcomer := NewClient(seeds, tcp.View(), socket, network);
        if alive then Pushing() == BeginPush(newcomer) else !isOpen
    {
      rtpConn := new RtpConnection(tcp, socket, network, seeds);
      if !alive {
        isOpen := false;
        return;
      }
      last := OptionsRequest;
    }

    method SendAnnounce(media: Lookup)
      requires Valid() && rtpConn != null
      modifies this, rtpConn
      ensures Valid() && rtpConn == old(rtpConn) && Pushing() == RtspPush.SendAnnounce(old(Pushing()), media)
    {
      hide Typed;
      if media == NotFound {
        isOpen := false;
        return;
      }
      SetPayloadTypes(rtpConn, media.media.payloads);
      ghost var c := rtpConn.View();
      sessionId := media.media.id;
      if !media.media.described {
        isOpen := false;
      } else {
        last := AnnounceRequest;
      }
      assert rtpConn.View() == c;
    }

    method SendSetup(media: Lookup)
      requires Valid() && rtpConn != null
      modifies this, rtpConn
      ensures Valid() && rtpConn == old(rtpConn) && Pushing() == RtspPush.SendSetup(old(Pushing()), media)
    {
      if media == NotFound {
        isOpen := false;
      } else if 0 in media.media.payloads && !rtpConn.info[0].isSetup {
        var _ := rtpConn.SetupRtpOverTcp(0, 0);
        last := SetupRequest;
      } else if 1 in media.media.payloads && !rtpConn.info[1].isSetup {
        var _ := rtpConn.SetupRtpOverTcp(1, 2);
        last := SetupRequest;
      } else {
        last := RecordRequest;
      }
    }

    method HandleRecord()
      requires Valid() && rtpConn != null
      modifies this, rtpConn
      ensures Valid() && rtpConn == old(rtpConn)
      ensures Pushing() == old(Pushing()).(state := StartPush, client := old(Pushing()).client.Recorded())
    {
      state := StartPush;
      rtpConn.Record();
    }

    /** One complete answer, as the function says. */
    method HandleRtspResponse(good: bool, media: Lookup)
      requires Valid() && rtpConn != null
      modifies this, rtpConn
      ensures Valid() && rtpConn == old(rtpConn) && Pushing() == Answered(old(Pushing()), good, media)
    {
      hide RtspPush.SendAnnounce, RtspPush.SendSetup;
      if !isOpen {
        return;
      }
      if !good {
        isOpen := false;
        return;
      }
      match last {
        case OptionsRequest => SendAnnounce(media);
        case AnnounceRequest => SendSetup(media);
        case SetupRequest => SendSetup(media);
        case RecordRequest => HandleRecord();
        case NoRequest =>
      }
    }
  }
}
