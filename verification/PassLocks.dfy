/** The mutexes around a pass over the clients of a media session: the thread that pushes frames
    holds the server's mutex and the session's, takes each client's connection mutex in turn, and
    runs beside event loops that read, flush and close the same connections. Every step below is
    one atomic action; a critical section that takes no other mutex is one action. */
module PassLocks {
  import opened MediaSession

  // Where the pushing thread is. It holds the server's mutex, if there is a server, everywhere
  // but `Outside`, and the session's mutex everywhere but `Outside` and `Framing`.
  datatype Spot =
    | Outside
    | Framing           // between two packets
    | Choosing          // in a pass, between two clients
    | SawOpen(c: nat)   // in Send, before it locks the connection's mutex
    | Appending(c: nat) // holds the connection's mutex
    | Flushing(c: nat)  // at the start of HandleWrite
    | Trying(c: nat)    // saw the connection open, before try_lock
    | Writing(c: nat)   // holds the connection's mutex
    | Failed(c: nat)    // holds it, has marked the connection closed, and runs the close callback
    | Lost              // has erased the entry that it is at

  // What an event loop is doing with a connection, and whether it holds the connection's mutex.
  datatype Task =
    | Resting
    | Busy(c: nat)                     // reads or flushes under the mutex
    | Closing(c: nat, holds: bool)     // has marked it closed, before it looks the session up
    | Leaving(c: nat, holds: bool)     // has the session, before it removes the client

  datatype Holder = Free | ByPass | ByLoop(loop: nat)

  datatype State = State(open: seq<bool>, held: seq<Holder>, pass: Spot, loops: seq<Task>)

  datatype Turn =
    | Go                               // the pushing thread, where there is one way on
    | Visit(c: nat) | EndPass          // the pushing thread between two clients
    | EndFrame                         // and between two packets
    | Write(failed: bool)              // what the socket answers to it
    | Take(loop: nat, c: nat) | Release(loop: nat) | Close(loop: nat)
    | PostedClose(loop: nat, c: nat) | Look(loop: nat) | Remove(loop: nat)

  predicate ServerHeld(owner: Owner, s: State) { owner == Server && !s.pass.Outside? }

  predicate SessionHeld(s: State) { !s.pass.Outside? && !s.pass.Framing? }

  predicate TurnOk(s: State, t: Turn) {
    match t
    case Visit(c) => c < |s.open|
    case Take(l, c) => l < |s.loops| && c < |s.open|
    case PostedClose(l, c) => l < |s.loops| && c < |s.open|
    case Release(l) => l < |s.loops|
    case Close(l) => l < |s.loops|
    case Look(l) => l < |s.loops|
    case Remove(l) => l < |s.loops|
    case _ => true
  }

  // The connections that the state speaks of exist.
  predicate Shaped(s: State) {
    && |s.held| == |s.open|
    && (s.pass.SawOpen? || s.pass.Appending? || s.pass.Flushing? || s.pass.Trying? || s.pass.Writing? || s.pass.Failed?
        ==> s.pass.c < |s.open|)
    && forall l :: 0 <= l < |s.loops| && !s.loops[l].Resting? ==> s.loops[l].c < |s.open|
  }

  function Holding(s: State, c: nat, holder: Holder, pass: Spot): State
    requires c < |s.held|
  {
    s.(held := s.held[c := holder], pass := pass)
  }

  /** One action; an action that its thread cannot take where it is, or that has to wait, does
      nothing. */
  function Step(owner: Owner, s: State, t: Turn): (r: State)
    requires Shaped(s) && TurnOk(s, t)
    ensures Shaped(r) && |r.open| == |s.open| && |r.loops| == |s.loops|
  {
    if OfPass(t) then PassStep(owner, s, t) else LoopStep(owner, s, t)
  }

  predicate OfPass(t: Turn) { t.Go? || t.Visit? || t.EndPass? || t.EndFrame? || t.Write? }

  function PassStep(owner: Owner, s: State, t: Turn): (r: State)
    requires Shaped(s) && TurnOk(s, t)
    ensures Shaped(r) && |r.open| == |s.open| && |r.loops| == |s.loops|
  {
    match (s.pass, t)
    case (Outside, Go) => s.(pass := Framing)
    case (Framing, Go) => s.(pass := Choosing)
    case (Framing, EndFrame) => s.(pass := Outside)
    case (Choosing, Visit(c)) => if s.open[c] then s.(pass := SawOpen(c)) else s
    case (Choosing, EndPass) => s.(pass := Framing)
    case (SawOpen(c), Go) => if s.held[c] == Free then Holding(s, c, ByPass, Appending(c)) else s
    case (Appending(c), Go) => Holding(s, c, Free, Flushing(c))
    case (Flushing(c), Go) => s.(pass := if s.open[c] then Trying(c) else Choosing)
    case (Trying(c), Go) => if s.held[c] == Free then Holding(s, c, ByPass, Writing(c)) else s.(pass := Choosing)
    case (Writing(c), Write(failed)) =>
      if failed && s.open[c] then s.(open := s.open[c := false], pass := Failed(c))
      else Holding(s, c, Free, Choosing)
    case (Failed(c), Go) => if ServerHeld(owner, s) then s else Holding(s, c, Free, Lost)
    case _ => s
  }

  function LoopStep(owner: Owner, s: State, t: Turn): (r: State)
    requires Shaped(s) && TurnOk(s, t) && !OfPass(t)
    ensures Shaped(r) && |r.open| == |s.open| && |r.loops| == |s.loops| && r.pass == s.pass
  {
    var l := t.loop;
    match (s.loops[l], t)
    case (Resting, Take(_, c)) =>
      if s.held[c] == Free then s.(held := s.held[c := ByLoop(l)], loops := s.loops[l := Busy(c)]) else s
    case (Busy(c), Release(_)) => s.(held := s.held[c := Free], loops := s.loops[l := Resting])
    case (Busy(c), Close(_)) =>
      if s.open[c] then s.(open := s.open[c := false], loops := s.loops[l := Task.Closing(c, true)]) else s
    case (Resting, PostedClose(_, c)) =>
      if s.open[c] then s.(open := s.open[c := false], loops := s.loops[l := Task.Closing(c, false)]) else s
    case (Closing(c, holds), Look(_)) =>
      if ServerHeld(owner, s) then s else s.(loops := s.loops[l := Leaving(c, holds)])
    case (Leaving(c, holds), Remove(_)) =>
      if SessionHeld(s) then s else s.(loops := s.loops[l := if holds then Busy(c) else Resting])
    case _ => s
  }

  predicate Holds(t: Task, c: nat) {
    match t
    case Resting => false
    case Busy(d) => d == c
    case Closing(d, holds) => holds && d == c
    case Leaving(d, holds) => holds && d == c
  }

  predicate PassHolds(p: Spot, c: nat) {
    (p.Appending? || p.Writing? || p.Failed?) && p.c == c
  }

  ghost predicate PassExcludes(s: State) {
    && (forall c :: 0 <= c < |s.held| ==> (s.held[c] == ByPass <==> PassHolds(s.pass, c)))
    && (s.pass.Failed? ==> s.pass.c < |s.open| && !s.open[s.pass.c])
  }

  ghost predicate LoopsExclude(s: State) {
    && (forall c, l :: 0 <= c < |s.held| && 0 <= l < |s.loops| ==> (s.held[c] == ByLoop(l) <==> Holds(s.loops[l], c)))
    && (forall c :: 0 <= c < |s.held| && s.held[c].ByLoop? ==> s.held[c].loop < |s.loops|)
    && (forall l :: 0 <= l < |s.loops| && (s.loops[l].Closing? || s.loops[l].Leaving?) ==>
          s.loops[l].c < |s.open| && !s.open[s.loops[l].c])
  }

  // Mutual exclusion, and a connection that is being closed is marked so.
  ghost predicate Inv(s: State) {
    Shaped(s) && PassExcludes(s) && LoopsExclude(s)
  }

  lemma StepKeepsInv(owner: Owner, s: State, t: Turn)
    requires Inv(s) && TurnOk(s, t)
    ensures Inv(Step(owner, s, t))
  {
    if OfPass(t) {
      PassKeepsInv(owner, s, t);
    } else {
      LoopKeepsInv(owner, s, t);
    }
    hide Inv, PassStep, LoopStep;
  }

  lemma PassKeepsInv(owner: Owner, s: State, t: Turn)
    requires Inv(s) && TurnOk(s, t)
    ensures Inv(PassStep(owner, s, t))
  {
    PassKeepsPass(owner, s, t);
    PassKeepsLoops(owner, s, t);
    hide PassStep, PassExcludes, LoopsExclude;
  }

  lemma PassKeepsPass(owner: Owner, s: State, t: Turn)
    requires Shaped(s) && TurnOk(s, t) && PassExcludes(s)
    ensures PassExcludes(PassStep(owner, s, t))
  {
  }

  lemma PassKeepsLoops(owner: Owner, s: State, t: Turn)
    requires Inv(s) && TurnOk(s, t)
    ensures LoopsExclude(PassStep(owner, s, t))
  {
  }

  lemma LoopKeepsInv(owner: Owner, s: State, t: Turn)
    requires Inv(s) && TurnOk(s, t) && !OfPass(t)
    ensures Inv(LoopStep(owner, s, t))
  {
  }

  /** The pushing thread waits for an event loop that closes the connection under its mutex and
      needs a mutex of the pushing thread, or it needs one of its own a second time. */
  ghost predicate Doomed(owner: Owner, s: State)
    requires Shaped(s)
  {
    || (s.pass.SawOpen? && s.held[s.pass.c].ByLoop?
        && exists l :: 0 <= l < |s.loops| && Holds(s.loops[l], s.pass.c) && !s.loops[l].Busy?)
    || (s.pass.Failed? && owner == Server)
  }

  lemma DoomedStays(owner: Owner, s: State, t: Turn)
    requires Inv(s) && TurnOk(s, t) && Doomed(owner, s)
    ensures Shaped(Step(owner, s, t)) && Doomed(owner, Step(owner, s, t)) && Step(owner, s, t).pass == s.pass
  {
    if s.pass.SawOpen? {
      var l :| 0 <= l < |s.loops| && Holds(s.loops[l], s.pass.c) && !s.loops[l].Busy?;
      var next := Step(owner, s, t);
      assert Holds(next.loops[l], s.pass.c) && !next.loops[l].Busy?;
    }
  }

  // The turns that doom a pass.
  ghost predicate Fatal(owner: Owner, s: State, t: Turn)
    requires Shaped(s) && TurnOk(s, t)
  {
    || (t.Close? && s.loops[t.loop].Busy? && s.open[s.loops[t.loop].c] && s.pass == SawOpen(s.loops[t.loop].c))
    || (t == Write(true) && s.pass.Writing? && s.open[s.pass.c] && owner == Server)
  }

  lemma DoomsIffFatal(owner: Owner, s: State, t: Turn)
    requires Inv(s) && TurnOk(s, t) && !Doomed(owner, s)
    ensures Shaped(Step(owner, s, t)) && (Doomed(owner, Step(owner, s, t)) <==> Fatal(owner, s, t))
  {
    var next := Step(owner, s, t);
    if Fatal(owner, s, t) && t.Close? {
      assert Holds(next.loops[t.loop], next.pass.c) && !next.loops[t.loop].Busy?;
    }
  }

  // --- Runs ---

  predicate TurnsOk(s: State, turns: seq<Turn>) {
    forall i :: 0 <= i < |turns| ==> TurnOk(s, turns[i])
  }

  ghost function Run(owner: Owner, s: State, turns: seq<Turn>): (r: State)
    requires Inv(s) && TurnsOk(s, turns)
    ensures Inv(r) && |r.open| == |s.open| && |r.loops| == |s.loops|
    decreases |turns|
  {
    if turns == [] then s
    else
      var before := Run(owner, s, turns[..|turns| - 1]);
      StepKeepsInv(owner, before, turns[|turns| - 1]);
      Step(owner, before, turns[|turns| - 1])
  }

  // Some turn of the run is fatal where it is taken.
  ghost predicate HasFatal(owner: Owner, s: State, turns: seq<Turn>)
    requires Inv(s) && TurnsOk(s, turns)
    decreases |turns|
  {
    turns != [] && (
      HasFatal(owner, s, turns[..|turns| - 1])
      || Fatal(owner, Run(owner, s, turns[..|turns| - 1]), turns[|turns| - 1]))
  }

  function Start(connections: nat, loops: nat): State {
    State(seq(connections, _ => true), seq(connections, _ => Free), Outside, seq(loops, _ => Resting))
  }

  lemma {:induction false} DoomedIffFatalTurn(owner: Owner, connections: nat, loops: nat, turns: seq<Turn>)
    requires TurnsOk(Start(connections, loops), turns)
    ensures Inv(Start(connections, loops))
    ensures Doomed(owner, Run(owner, Start(connections, loops), turns))
      <==> HasFatal(owner, Start(connections, loops), turns)
    decreases |turns|
  {
    var s := Start(connections, loops);
    if turns != [] {
      var before, t := turns[..|turns| - 1], turns[|turns| - 1];
      DoomedIffFatalTurn(owner, connections, loops, before);
      var mid := Run(owner, s, before);
      if Doomed(owner, mid) {
        DoomedStays(owner, mid, t);
      } else {
        DoomsIffFatal(owner, mid, t);
      }
    }
  }

  // --- Doomed is for ever, and nothing else is ---

  lemma {:induction false} DoomedForEver(owner: Owner, s: State, turns: seq<Turn>)
    requires Inv(s) && TurnsOk(s, turns) && Doomed(owner, s)
    ensures Doomed(owner, Run(owner, s, turns)) && Run(owner, s, turns).pass == s.pass
    decreases |turns|
  {
    if turns != [] {
      DoomedForEver(owner, s, turns[..|turns| - 1]);
      DoomedStays(owner, Run(owner, s, turns[..|turns| - 1]), turns[|turns| - 1]);
    }
  }

  // How a pushing thread that is not doomed gets on: by itself, or when the event loop that has
  // the mutex lets it go.
  function WayOn(s: State): (turns: seq<Turn>)
    requires Shaped(s)
  {
    if s.pass.SawOpen? && s.held[s.pass.c].ByLoop? then [Release(s.held[s.pass.c].loop), Go]
    else if s.pass.Choosing? then [EndPass]
    else if s.pass.Writing? then [Write(false)]
    else [Go]
  }

  lemma GetsOn(owner: Owner, s: State)
    requires Inv(s) && !Doomed(owner, s) && s.pass != Lost
    ensures TurnsOk(s, WayOn(s)) && Run(owner, s, WayOn(s)).pass != s.pass
  {
    var turns := WayOn(s);
    if |turns| == 1 {
      RunOne(owner, s, turns[0]);
    } else {
      var l := s.held[s.pass.c].loop;
      assert Holds(s.loops[l], s.pass.c) && s.loops[l].Busy?;
      RunTwo(owner, s, turns[0], turns[1]);
    }
    hide Inv, Run;
  }

  lemma RunOne(owner: Owner, s: State, t: Turn)
    requires Inv(s) && TurnOk(s, t)
    ensures Run(owner, s, [t]) == Step(owner, s, t)
  {
    assert [t][..0] == [] && Run(owner, s, []) == s;
  }

  lemma RunTwo(owner: Owner, s: State, t: Turn, u: Turn)
    requires Inv(s) && TurnOk(s, t) && TurnOk(s, u)
    ensures Inv(Step(owner, s, t)) && Run(owner, s, [t, u]) == Step(owner, Step(owner, s, t), u)
  {
    StepKeepsInv(owner, s, t);
    RunOne(owner, s, t);
    assert [t, u][..1] == [t];
  }

  /** After every run, the pushing thread never gets any further, whatever the event loops and
      the sockets do from then on, if and only if some turn of the run was fatal: an event loop
      closed a connection under its mutex while the thread, which had seen it open, was on its
      way to lock that mutex, or a flush of the thread failed while it pushed for a server. */
  lemma StuckForEverIff(owner: Owner, connections: nat, loops: nat, turns: seq<Turn>)
    requires TurnsOk(Start(connections, loops), turns)
    ensures Inv(Start(connections, loops))
    ensures var s := Run(owner, Start(connections, loops), turns);
      s.pass != Lost ==>
        ((forall more :: TurnsOk(s, more) ==> Run(owner, s, more).pass == s.pass)
          <==> HasFatal(owner, Start(connections, loops), turns))
  {
    DoomedIffFatalTurn(owner, connections, loops, turns);
    var s := Run(owner, Start(connections, loops), turns);
    if Doomed(owner, s) {
      forall more | TurnsOk(s, more) ensures Run(owner, s, more).pass == s.pass {
        DoomedForEver(owner, s, more);
      }
    } else if s.pass != Lost {
      GetsOn(owner, s);
    }
  }

  /** No socket error is needed: for both owners, the loop of any client's connection reads from
      it, the pass comes to that client, and the read finds that the peer has hung up. */
  lemma HangUpStopsThePass(owner: Owner, connections: nat, loops: nat, c: nat, l: nat) returns (turns: seq<Turn>)
    requires c < connections && l < loops
    ensures TurnsOk(Start(connections, loops), turns) && Inv(Start(connections, loops))
    ensures (forall i :: 0 <= i < |turns| ==> !turns[i].Write?) && HasFatal(owner, Start(connections, loops), turns)
  {
    var s := Start(connections, loops);
    assert Inv(s) by {
      DoomedIffFatalTurn(owner, connections, loops, []);
    }
    HangUpTurns(owner, s, c, l);
    hide Inv, HasFatal, Run, Step, Fatal, Shaped;
    var two := [Go, Go];
    RunTwo(owner, s, Go, Go);
    RunMore(owner, s, two, Visit(c));
    var three := two + [Visit(c)];
    RunMore(owner, s, three, Take(l, c));
    var four := three + [Take(l, c)];
    RunMore(owner, s, four, Close(l));
    turns := four + [Close(l)];
  }

  lemma HangUpTurns(owner: Owner, s: State, c: nat, l: nat)
    requires Inv(s) && s.pass == Outside && c < |s.open| && l < |s.loops|
    requires s.open[c] && s.held[c] == Free && s.loops[l] == Resting
    ensures Step(owner, s, Go) == s.(pass := Framing)
    ensures Step(owner, s.(pass := Framing), Go) == s.(pass := Choosing)
    ensures Step(owner, s.(pass := Choosing), Visit(c)) == s.(pass := SawOpen(c))
    ensures var last := Step(owner, s.(pass := SawOpen(c)), Take(l, c));
      TurnOk(last, Close(l)) && Fatal(owner, last, Close(l))
  {
  }

  lemma RunMore(owner: Owner, s: State, turns: seq<Turn>, t: Turn)
    requires Inv(s) && TurnsOk(s, turns) && TurnOk(s, t)
    ensures TurnsOk(s, turns + [t])
    ensures var mid := Run(owner, s, turns);
      && Shaped(mid) && TurnOk(mid, t) && Run(owner, s, turns + [t]) == Step(owner, mid, t)
      && (Fatal(owner, mid, t) ==> HasFatal(owner, s, turns + [t]))
  {
    var all := turns + [t];
    assert all[..|all| - 1] == turns;
  }
}
