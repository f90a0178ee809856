/** Pushing a media session to another server: the requests follow one another as long as the
    answers to them are good. */
module RtspPush {
  import opened RtpConnection
  import opened Rtp
  import opened RtspMedia
  import opened MediaGate

  // The request that was sent last.
  datatype LastRequest = NoRequest | OptionsRequest | AnnounceRequest | SetupRequest | RecordRequest

  datatype Push = Push(open: bool, last: LastRequest, id: nat, client: Client, state: State)

  ghost function SendAnnounce(p: Push, media: Lookup): Push
    requires p.client.Valid()
  {
    if media == NotFound then p.(open := false)
    else
      var q := p.(id := media.media.id, client := Typed(p.client, media.media.payloads));
      if media.media.described then q.(last := AnnounceRequest) else q.(open := false)
  }

  ghost function SetUpTcp(c: Client, ch: ChannelId, rtpChannel: nat): (r: Client)
    requires c.Valid() && rtpChannel < 0x1_0000
    ensures r.Valid()
  {
    if !c.online then c
    else c.(info := c.info[ch := c.info[ch].(rtpChannel := rtpChannel, isSetup := true)], transport := OverTcp)
  }

  // The first source that is not set up yet is; when none is left, recording is asked for.
  ghost function SendSetup(p: Push, media: Lookup): Push
    requires p.client.Valid()
  {
    if media == NotFound then p.(open := false)
    else if 0 in media.media.payloads && !p.client.info[0].isSetup then
      p.(client := SetUpTcp(p.client, 0, 0), last := SetupRequest)
    else if 1 in media.media.payloads && !p.client.info[1].isSetup then
      p.(client := SetUpTcp(p.client, 1, 2), last := SetupRequest)
    else p.(last := RecordRequest)
  }

  /** One complete answer; a bad one ends the connection. */
  ghost function Answered(p: Push, good: bool, media: Lookup): (r: Push)
    requires p.client.Valid()
    ensures r.client.Valid()
  {
    if !p.open then p
    else if !good then p.(open := false)
    else match p.last
      case NoRequest => p
      case OptionsRequest => SendAnnounce(p, media)
      case AnnounceRequest => SendSetup(p, media)
      case SetupRequest => SendSetup(p, media)
      case RecordRequest => p.(state := StartPush, client := p.client.Recorded())
  }

  ghost function AfterAnswers(p: Push, answers: seq<bool>, media: Lookup): (r: Push)
    requires p.client.Valid()
    ensures r.client.Valid()
    decreases |answers|
  {
    if answers == [] then p
    else Answered(AfterAnswers(p, answers[..|answers| - 1], media), answers[|answers| - 1], media)
  }

  ghost function BeginPush(newcomer: Client): Push {
    Push(true, OptionsRequest, 0, newcomer, StartConnect)
  }

  // --- When the push starts ---

  predicate Ready(media: Lookup) {
    media.Found? && media.media.described
  }

  function Sources(media: Media): nat {
    (if 0 in media.payloads then 1 else 0) + (if 1 in media.payloads then 1 else 0)
  }

  function SetUpSources(c: Client, media: Media): nat
    requires |c.info| == MAX_MEDIA_CHANNEL
  {
    (if 0 in media.payloads && c.info[0].isSetup then 1 else 0)
    + (if 1 in media.payloads && c.info[1].isSetup then 1 else 0)
  }

  // Where the handshake is after n good answers.
  ghost predicate At(p: Push, media: Media, n: nat) {
    var k, c := Sources(media), p.client;
    && c.Valid() && c.online && p.open
    && SetUpSources(c, media) == (if n < 2 then 0 else if n - 1 <= k then n - 1 else k)
    && p.last == (if n == 0 then OptionsRequest else if n == 1 then AnnounceRequest
                  else if n - 1 <= k then SetupRequest else RecordRequest)
    && p.state == (if n < k + 3 then StartConnect else StartPush)
    && (forall ch: ChannelId :: c.info[ch].isSetup ==> c.transport == OverTcp && c.info[ch].rtpChannel == 2 * ch)
    && (forall ch: ChannelId :: c.info[ch].isRecord == c.info[ch].isPlay == (n >= k + 3 && c.info[ch].isSetup))
    && (n >= 1 ==> forall ch: ChannelId :: ch in media.payloads ==> c.info[ch].header.payload == media.payloads[ch])
  }

  lemma NextAt(p: Push, media: Media, n: nat)
    requires At(p, media, n) && media.described
    ensures At(Answered(p, true, Found(media)), media, n + 1)
  {
    if n == 0 {
      TypedIs(p.client, media.payloads);
      hide Typed, SendSetup;
    } else {
      hide Typed, SendAnnounce;
    }
  }

  // How many of the answers came before the first bad one.
  function Good(answers: seq<bool>): (n: nat)
    ensures n <= |answers| && (forall i :: 0 <= i < n ==> answers[i]) && (n < |answers| ==> !answers[n])
  {
    if answers == [] || !answers[0] then 0 else 1 + Good(answers[1..])
  }

  lemma {:induction false} GoodPrefix(answers: seq<bool>)
    requires answers != []
    ensures var n := |answers| - 1;
      Good(answers) == if Good(answers[..n]) == n && answers[n] then n + 1 else Good(answers[..n])
  {
    var n := |answers| - 1;
    if answers[0] && n > 0 {
      GoodPrefix(answers[1..]);
      assert answers[..n][1..] == answers[1..][..n - 1];
    }
  }

  /** As long as the answers are good the handshake is at their number; a bad answer before the
      end of it stops it for good. */
  lemma {:induction false} HandshakeAt(newcomer: Client, answers: seq<bool>, media: Media)
    requires Newborn(newcomer) && newcomer.online && media.described
    ensures var p := AfterAnswers(BeginPush(newcomer), answers, Found(media));
      if Good(answers) == |answers| then At(p, media, |answers|)
      else !p.open && (p.state == StartPush <==> Good(answers) >= Sources(media) + 3)
    decreases |answers|
  {
    if answers != [] {
      var n := |answers| - 1;
      HandshakeAt(newcomer, answers[..n], media);
      GoodPrefix(answers);
      var p := AfterAnswers(BeginPush(newcomer), answers[..n], Found(media));
      if Good(answers[..n]) == n && answers[n] {
        NextAt(p, media, n);
      }
      hide SendAnnounce, SendSetup;
    }
  }

  lemma NeverReady(newcomer: Client, answers: seq<bool>, media: Lookup)
    requires newcomer.Valid() && !Ready(media)
    ensures var p := AfterAnswers(BeginPush(newcomer), answers, media);
      p.state == StartConnect && (p.open ==> answers == [] && p.last == OptionsRequest)
    decreases |answers|
  {
    if answers != [] {
      NeverReady(newcomer, answers[..|answers| - 1], media);
    }
  }

  /** The push starts exactly when there is a described media session and the first answers, three
      and one for each source, are good; every source is then set up and recording. */
  lemma PushStartsIff(newcomer: Client, answers: seq<bool>, media: Lookup)
    requires Newborn(newcomer) && newcomer.online
    ensures var p := AfterAnswers(BeginPush(newcomer), answers, media);
      p.state == StartPush <==> Ready(media) && Good(answers) >= 3 + Sources(media.media)
  {
    if Ready(media) {
      HandshakeAt(newcomer, answers, media.media);
    } else {
      NeverReady(newcomer, answers, media);
    }
    hide AfterAnswers;
  }

  lemma AllSetUp(p: Push, media: Media, n: nat)
    requires At(p, media, n) && n >= 3 + Sources(media)
    ensures forall ch: ChannelId :: ch in media.payloads ==> Pushes(p.client, media, ch)
  {
  }

  // The source is set up over TCP and records, with its payload type, on the first of the two
  // channel numbers that its set-up asks for: 0 and 1, or 2 and 3.
  ghost predicate Pushes(c: Client, media: Media, ch: ChannelId)
    requires c.Valid() && ch in media.payloads
  {
    && c.info[ch].isSetup && c.info[ch].isRecord && c.transport == OverTcp
    && c.info[ch].rtpChannel == 2 * ch && c.info[ch].header.payload == media.payloads[ch]
  }

  lemma SourcesRecord(newcomer: Client, answers: seq<bool>, media: Media)
    requires Newborn(newcomer) && newcomer.online && media.described
    requires Good(answers) == |answers| >= 3 + Sources(media)
    ensures var c := AfterAnswers(BeginPush(newcomer), answers, Found(media)).client;
      forall ch: ChannelId :: ch in media.payloads ==> Pushes(c, media, ch)
  {
    HandshakeAt(newcomer, answers, media);
    var p := AfterAnswers(BeginPush(newcomer), answers, Found(media));
    hide AfterAnswers, Newborn;
    AllSetUp(p, media, |answers|);
  }

  // --- Runs of answers and packets ---

  datatype Event = Answer(good: bool) | Packet(ch: ChannelId, pkt: Rtp.Packet)

  ghost predicate EventOk(e: Event) {
    e.Packet? ==> |e.pkt.payload| <= MAX_RTP_PAYLOAD_SIZE
  }

  // What an answer has changed of the client.
  ghost function Marks(p: Push, q: Push): seq<Mark>
    requires p.client.Valid() && q.client.Valid()
  {
    (if !p.client.info[0].isSetup && q.client.info[0].isSetup then [SetUp(0)] else [])
    + (if !p.client.info[1].isSetup && q.client.info[1].isSetup then [SetUp(1)] else [])
    + (if p.open && q.open && p.last == RecordRequest then [Recorded] else [])
  }

  ghost function Take(p: Push, e: Event, media: Lookup): (r: (Push, seq<Mark>))
    requires p.client.Valid() && EventOk(e)
    ensures r.0.client.Valid()
  {
    match e
    case Answer(good) => var q := Answered(p, good, media); (q, Marks(p, q))
    case Packet(ch, pkt) =>
      var c := SendStep(p.client, ch, pkt).client;
      (p.(client := c), if c.offered == p.client.offered then [] else [Offered(ch)])
  }

  ghost function Run(p: Push, events: seq<Event>, media: Lookup): (r: (Push, seq<Mark>))
    requires p.client.Valid() && forall i :: 0 <= i < |events| ==> EventOk(events[i])
    ensures r.0.client.Valid()
    decreases |events|
  {
    if events == [] then (p, [])
    else
      var before := Run(p, events[..|events| - 1], media);
      var last := Take(before.0, events[|events| - 1], media);
      (last.0, before.1 + last.1)
  }

  // The marks account for the flags, and nothing is active before the push has started.
  ghost predicate Tracks(p: Push, marks: seq<Mark>) {
    && p.client.Valid() && Follows(p.client, marks) && TornDown !in marks
    && forall ch: ChannelId :: p.client.info[ch].Active() ==> p.state == StartPush && p.client.info[ch].isSetup
  }

  // What an answer leaves of the flags when it does not start anything.
  ghost predicate Quiet(p: Push, q: Push)
    requires p.client.Valid() && q.client.Valid()
  {
    && q.state == p.state && q.client.closed == p.client.closed
    && (forall ch: ChannelId :: q.client.info[ch].Active() == p.client.info[ch].Active())
    && (forall ch: ChannelId :: p.client.info[ch].isSetup ==> q.client.info[ch].isSetup)
  }

  // No answer but the one to RECORD makes a channel active or the push start.
  lemma AnswerIsQuiet(p: Push, good: bool, media: Lookup)
    requires p.client.Valid() && !(p.open && good && p.last == RecordRequest)
    ensures Quiet(p, Answered(p, good, media))
  {
    if p.open && good && p.last == OptionsRequest {
      if media.Found? {
        TypedFlags(p.client, media.media.payloads);
      }
      hide Typed;
    } else {
      hide SendAnnounce;
    }
  }

  lemma MarksShowSetUp(p: Push, q: Push)
    requires p.client.Valid() && q.client.Valid() && !(p.open && q.open && p.last == RecordRequest)
    ensures NoOffer(Marks(p, q)) && TornDown !in Marks(p, q)
    ensures forall ch: ChannelId :: q.client.info[ch].isSetup ==> p.client.info[ch].isSetup || SetUp(ch) in Marks(p, q)
  {
    forall ch: ChannelId | q.client.info[ch].isSetup && !p.client.info[ch].isSetup ensures SetUp(ch) in Marks(p, q) {
      assert ch == 0 || ch == 1;
    }
  }

  lemma AnswerCloses(p: Push, good: bool, media: Lookup)
    requires p.client.Valid()
    ensures !p.open || !good ==> !Answered(p, good, media).open
  {
  }

  lemma AnswerTracks(p: Push, good: bool, media: Lookup, marks: seq<Mark>)
    requires Tracks(p, marks)
    ensures var r := Take(p, Answer(good), media); Tracks(r.0, marks + r.1) && NoOffer(r.1)
  {
    if p.open && good && p.last == RecordRequest {
      assert Marks(p, Answered(p, good, media)) == [Recorded];
      RecordFollows(p.client, marks);
    } else {
      var q := Answered(p, good, media);
      AnswerIsQuiet(p, good, media);
      AnswerCloses(p, good, media);
      MarksShowSetUp(p, q);
      hide Started, Answered, Marks;
      FollowsMore(p.client, q.client, marks, Marks(p, q));
    }
  }

  lemma PacketTracks(p: Push, ch: ChannelId, pkt: Rtp.Packet, media: Lookup, marks: seq<Mark>)
    requires Tracks(p, marks) && Gated(marks) && |pkt.payload| <= MAX_RTP_PAYLOAD_SIZE
    ensures var r := Take(p, Event.Packet(ch, pkt), media); Tracks(r.0, marks + r.1) && Gated(marks + r.1)
  {
    var r := Take(p, Event.Packet(ch, pkt), media);
    SendFollows(p.client, ch, pkt, marks, r.1);
    SendFlags(p.client, ch, pkt);
    hide SendStep, Started, Gated;
    if r.1 == [] {
      GatedMore(marks, []);
    } else {
      GatedOffer(marks, ch);
    }
  }

  lemma {:induction false} RunTracks(newcomer: Client, events: seq<Event>, media: Lookup)
    requires Newborn(newcomer) && forall i :: 0 <= i < |events| ==> EventOk(events[i])
    ensures var (p, marks) := Run(BeginPush(newcomer), events, media); Tracks(p, marks) && Gated(marks)
    decreases |events|
  {
    if events != [] {
      var n := |events| - 1;
      RunTracks(newcomer, events[..n], media);
      var (p, marks) := Run(BeginPush(newcomer), events[..n], media);
      match events[n] {
        case Answer(good) =>
          AnswerTracks(p, good, media, marks);
          GatedMore(marks, Take(p, events[n], media).1);
        case Packet(ch, pkt) => PacketTracks(p, ch, pkt, media, marks);
      }
      hide Take, Tracks, Gated;
    }
  }

  /** In every run of a pushing connection, with packets at any time, a packet is offered on a
      channel only after that channel was set up and the answer to RECORD came later. */
  lemma PushIsGated(newcomer: Client, events: seq<Event>, media: Lookup)
    requires Newborn(newcomer) && forall i :: 0 <= i < |events| ==> EventOk(events[i])
    ensures var (p, marks) := Run(BeginPush(newcomer), events, media);
      && Gated(marks)
      && forall ch: ChannelId :: p.client.info[ch].Active() ==> p.state == StartPush && p.client.info[ch].isSetup
  {
    RunTracks(newcomer, events, media);
    hide Run;
  }
}
