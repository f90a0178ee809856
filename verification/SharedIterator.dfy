/** The iterator of a pass over the clients of a session is one variable for the whole program,
    while each session has a mutex of its own, and each server or pusher one for its frames. Here
    owners with a session each run their passes beside each other; every step is one access. */
module SharedIterator {

  // A place in the clients of an owner's session; behind the last one is its end.
  datatype Place = Place(owner: nat, index: nat)

  datatype Spot = Resting | Testing | Visiting | Moving

  // `sizes` are the numbers of clients, `sent` the clients that an owner's last pass has sent its
  // packet to so far, and `wild` whether an iterator was used that points to no client.
  datatype State = State(sizes: seq<nat>, at: Place, spots: seq<Spot>, sent: seq<seq<Place>>, wild: bool)

  predicate Shaped(s: State) {
    |s.sizes| == |s.spots| == |s.sent|
  }

  /** The next access of one owner's thread. */
  function Step(s: State, owner: nat): (r: State)
    requires Shaped(s) && owner < |s.spots|
    ensures Shaped(r) && r.sizes == s.sizes
  {
    match s.spots[owner]
    case Resting =>
      s.(at := Place(owner, 0), sent := s.sent[owner := []], spots := s.spots[owner := Testing])
    case Testing =>
      s.(spots := s.spots[owner := if s.at == Place(owner, s.sizes[owner]) then Resting else Visiting])
    case Visiting =>
      if s.at.owner < |s.sizes| && s.at.index < s.sizes[s.at.owner] then
        s.(sent := s.sent[owner := s.sent[owner] + [s.at]], spots := s.spots[owner := Moving])
      else s.(wild := true, spots := s.spots[owner := Moving])
    case Moving =>
      s.(at := s.at.(index := s.at.index + 1), spots := s.spots[owner := Testing])
  }

  function Clients(owner: nat, n: nat): seq<Place> {
    seq(n, i requires 0 <= i => Place(owner, i))
  }

  // Every pass has sent its packet to its own clients, from the first on, and a pass that is over
  // to all of them.
  ghost predicate Right(s: State)
    requires Shaped(s)
  {
    && !s.wild
    && forall o: nat :: o < |s.spots| ==>
         && |s.sent[o]| <= s.sizes[o] && s.sent[o] == Clients(o, |s.sent[o]|)
         && (s.spots[o] == Resting ==> s.sent[o] == [] || |s.sent[o]| == s.sizes[o])
  }

  // No pass begins while another is under way.
  predicate Apart(s: State, owner: nat)
    requires owner < |s.spots|
  {
    s.spots[owner] == Resting ==> forall o :: 0 <= o < |s.spots| ==> s.spots[o] == Resting
  }

  // At most one owner is at work, and the iterator is where its pass is.
  ghost predicate Alone(s: State)
    requires Shaped(s)
  {
    && (forall o, p :: 0 <= o < p < |s.spots| ==> s.spots[o] == Resting || s.spots[p] == Resting)
    && forall o: nat :: o < |s.spots| && s.spots[o] != Resting ==>
         && (s.spots[o] == Moving ==> s.sent[o] != [])
         && s.at == Place(o, if s.spots[o] == Moving then |s.sent[o]| - 1 else |s.sent[o]|)
         && (s.spots[o] == Visiting ==> |s.sent[o]| < s.sizes[o])
  }

  lemma StepStaysRight(s: State, owner: nat)
    requires Shaped(s) && owner < |s.spots| && Right(s) && Alone(s) && Apart(s, owner)
    ensures Right(Step(s, owner)) && Alone(Step(s, owner))
  {
    var next := Step(s, owner);
    forall o | 0 <= o < |s.spots| && o != owner ensures next.spots[o] == s.spots[o] && next.sent[o] == s.sent[o] {
    }
  }

  ghost function Run(s: State, owners: seq<nat>): (r: State)
    requires Shaped(s) && forall i :: 0 <= i < |owners| ==> owners[i] < |s.spots|
    ensures Shaped(r) && r.sizes == s.sizes
    decreases owners
  {
    if owners == [] then s else Run(Step(s, owners[0]), owners[1..])
  }

  ghost predicate AllApart(s: State, owners: seq<nat>)
    requires Shaped(s) && forall i :: 0 <= i < |owners| ==> owners[i] < |s.spots|
    decreases owners
  {
    owners != [] ==> Apart(s, owners[0]) && AllApart(Step(s, owners[0]), owners[1..])
  }

  function Start(sizes: seq<nat>): State {
    State(sizes, Place(0, 0), seq(|sizes|, _ => Resting), seq(|sizes|, _ => []), false)
  }

  lemma {:induction false} ApartStaysRight(s: State, owners: seq<nat>)
    requires Shaped(s) && (forall i :: 0 <= i < |owners| ==> owners[i] < |s.spots|) && AllApart(s, owners)
    requires Right(s) && Alone(s)
    ensures Right(Run(s, owners))
    decreases owners
  {
    if owners != [] {
      StepStaysRight(s, owners[0]);
      ApartStaysRight(Step(s, owners[0]), owners[1..]);
    }
  }

  /** Over every run in which no pass begins while one of another owner is under way, every pass
      sends its packet to each client of its own session once, in order, and to no other. */
  lemma ApartMeansRight(sizes: seq<nat>, owners: seq<nat>)
    requires (forall i :: 0 <= i < |owners| ==> owners[i] < |sizes|) && AllApart(Start(sizes), owners)
    ensures Right(Run(Start(sizes), owners))
  {
    ApartStaysRight(Start(sizes), owners);
  }

  lemma {:induction false} OneIsApart(s: State, owners: seq<nat>)
    requires Shaped(s) && |s.spots| < 2 && forall i :: 0 <= i < |owners| ==> owners[i] < |s.spots|
    ensures AllApart(s, owners)
    decreases owners
  {
    if owners != [] {
      OneIsApart(Step(s, owners[0]), owners[1..]);
    }
  }

  // One owner begins, then another, and the first goes on with the iterator of the second.
  lemma TwoCross(sizes: seq<nat>)
    requires |sizes| >= 2
    ensures var s := Run(Start(sizes), [0, 1, 0, 0]);
      !Right(s) && (sizes[1] > 0 ==> s.sent[0] == [Place(1, 0)])
  {
    var s := Start(sizes);
    var s1 := Step(s, 0);
    var s2 := Step(s1, 1);
    var s3 := Step(s2, 0);
    var s4 := Step(s3, 0);
    var turns := [0, 1, 0, 0];
    assert turns[1..] == [1, 0, 0] && turns[1..][1..] == [0, 0] && turns[1..][1..][1..] == [0];
    assert Run(s4, []) == s4 && Run(s3, [0]) == s4 && Run(s2, [0, 0]) == s4 && Run(s1, [1, 0, 0]) == s4;
    assert sizes[1] > 0 ==> s4.sent[0][0] == Place(1, 0) && Clients(0, 1)[0] == Place(0, 0);
  }

  /** Whatever sessions there are: in every run each pass serves its own clients if and only if
      there are fewer than two owners. With two, one can send its packet to a client of the other. */
  lemma RightIffOneOwner(sizes: seq<nat>)
    ensures |sizes| < 2 <==> forall owners: seq<nat> :: Known(sizes, owners) ==> Right(Run(Start(sizes), owners))
  {
    hide Run, Right, AllApart;
    if |sizes| < 2 {
      forall owners: seq<nat> | Known(sizes, owners) ensures Right(Run(Start(sizes), owners)) {
        OneIsApart(Start(sizes), owners);
        ApartMeansRight(sizes, owners);
      }
    } else {
      TwoCross(sizes);
      assert Known(sizes, [0, 1, 0, 0]);
    }
  }

  predicate Known(sizes: seq<nat>, owners: seq<nat>) {
    forall i :: 0 <= i < |owners| ==> owners[i] < |sizes|
  }
}
