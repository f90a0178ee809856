/** A media session: one packet from a source goes to all clients of the session through one
    shared buffer, which every client overwrites with its own headers. */
module MediaSession {
  import opened Rtp
  import opened RtpConnection

  // The session's clients in the order of their sockets. A client that expired is a slot
  // whose connection is gone.
  datatype Slot = Expired(fd: int) | Live(fd: int, client: Client)

  ghost predicate AllValid(slots: seq<Slot>) {
    forall i :: 0 <= i < |slots| && slots[i].Live? ==> slots[i].client.Valid()
  }

  // Who calls the session's sources: the server, holding its own mutex, or a pusher.
  datatype Owner = Server | Pusher

  // How a pass over the clients ends: it returns, or it never does because its thread waits for
  // a mutex that it holds or that cannot be released before it returns, or it goes on with an
  // iterator whose entry is gone.
  datatype Ending = Returned | Deadlocked | Wild

  datatype Pass = Pass(slots: seq<Slot>, ending: Ending)

  // The client's connection was closed by what happened.
  predicate Closes(before: Client, after: Client) {
    before.conn.open && !after.conn.open
  }

  /** One packet for everybody: expired slots are removed, clients that are not online are
      skipped, and a multicast session stops at the first client whose result is not zero.
      A send whose flush fails closes the connection, and closing looks for the session, which
      a server does under the mutex that it holds for the whole pass, and removes the client
      from the session, which leaves the iterator without an entry unless the pass stops here.
      An event loop that closes the connection under its mutex needs a mutex that the pass
      holds, the server's or the session's, and a send that waits for that loop waits for ever. */
  ghost function Broadcast(slots: seq<Slot>, multicast: bool, owner: Owner, ch: ChannelId, pkt: Packet): (r: Pass)
    requires AllValid(slots) && |pkt.payload| <= MAX_RTP_PAYLOAD_SIZE
    ensures AllValid(r.slots)
    decreases slots
  {
    if slots == [] then Pass([], Returned)
    else match slots[0]
      case Expired(_) => Broadcast(slots[1..], multicast, owner, ch, pkt)
      case Live(fd, c) =>
        if !c.online then Prefixed([slots[0]], Broadcast(slots[1..], multicast, owner, ch, pkt))
        else
          var sent := SendStep(c, ch, pkt);
          var stops := multicast && sent.result != 0;
          if sent.waits then Pass([Live(fd, sent.client)] + slots[1..], Deadlocked)
          else if Closes(c, sent.client) then
            if owner == Server then Pass([Live(fd, sent.client)] + slots[1..], Deadlocked)
            else Pass(slots[1..], if stops then Returned else Wild)
          else if stops then Pass([Live(fd, sent.client)] + slots[1..], Returned)
          else Prefixed([Live(fd, sent.client)], Broadcast(slots[1..], multicast, owner, ch, pkt))
  }

  function Prefixed(front: seq<Slot>, pass: Pass): Pass {
    pass.(slots := front + pass.slots)
  }

  // What a packet still has to do: the first i slots are as they will be, and the rest has
  // not been visited.
  ghost predicate Halfway(
    all: Pass, slots: seq<Slot>, i: nat, multicast: bool, owner: Owner, ch: ChannelId, pkt: Packet)
  {
    && AllValid(slots) && i <= |slots| && |pkt.payload| <= MAX_RTP_PAYLOAD_SIZE
    && AllValid(slots[i..])
    && all == Prefixed(slots[..i], Broadcast(slots[i..], multicast, owner, ch, pkt))
  }

  lemma VisitExpired(all: Pass, slots: seq<Slot>, i: nat, multicast: bool, owner: Owner, ch: ChannelId, pkt: Packet)
    requires Halfway(all, slots, i, multicast, owner, ch, pkt) && i < |slots| && slots[i].Expired?
    ensures Halfway(all, slots[..i] + slots[i + 1..], i, multicast, owner, ch, pkt)
  {
    var next := slots[..i] + slots[i + 1..];
    assert slots[i..][1..] == next[i..] && next[..i] == slots[..i];
  }

  lemma VisitOffline(all: Pass, slots: seq<Slot>, i: nat, multicast: bool, owner: Owner, ch: ChannelId, pkt: Packet)
    requires Halfway(all, slots, i, multicast, owner, ch, pkt)
    requires i < |slots| && slots[i].Live? && !slots[i].client.online
    ensures Halfway(all, slots, i + 1, multicast, owner, ch, pkt)
  {
    assert slots[i..][1..] == slots[i + 1..];
  }

  lemma VisitOnline(all: Pass, slots: seq<Slot>, i: nat, multicast: bool, owner: Owner, ch: ChannelId, pkt: Packet)
    requires Halfway(all, slots, i, multicast, owner, ch, pkt)
    requires i < |slots| && slots[i].Live? && slots[i].client.online
    ensures var sent := SendStep(slots[i].client, ch, pkt);
      var next, stops := slots[i := Live(slots[i].fd, sent.client)], multicast && sent.result != 0;
      if sent.waits then all == Pass(next, Deadlocked)
      else if Closes(slots[i].client, sent.client) then
        all == if owner == Server then Pass(next, Deadlocked)
               else Pass(next[..i] + next[i + 1..], if stops then Returned else Wild)
      else if stops then all == Pass(next, Returned)
      else Halfway(all, next, i + 1, multicast, owner, ch, pkt)
  {
    var sent := SendStep(slots[i].client, ch, pkt);
    var next := slots[i := Live(slots[i].fd, sent.client)];
    hide SendStep, Closes;
    assert slots[i..][1..] == slots[i + 1..] == next[i + 1..];
    assert next[..i + 1] == slots[..i] + [next[i]] && next == next[..i + 1] + next[i + 1..];
    assert slots[..i] == next[..i];
  }

  function Without(slots: seq<Slot>, fd: int): (r: seq<Slot>)
    ensures forall s :: s in r ==> s in slots && s.fd != fd
  {
    if slots == [] then []
    else (if slots[0].fd == fd then [] else [slots[0]]) + Without(slots[1..], fd)
  }

  // The slot goes to its place in the order, and replaces the one of the same socket.
  function With(slots: seq<Slot>, slot: Slot): (r: seq<Slot>)
    ensures forall s :: s in r ==> s == slot || s in slots
  {
    if slots == [] || slot.fd < slots[0].fd then [slot] + slots
    else if slots[0].fd == slot.fd then [slot] + slots[1..]
    else [slots[0]] + With(slots[1..], slot)
  }

  lemma {:induction false} WithAt(slots: seq<Slot>, slot: Slot, at: nat)
    requires at <= |slots|
    requires forall k :: 0 <= k < |slots| ==> if k < at then slots[k].fd < slot.fd else slot.fd < slots[k].fd
    ensures With(slots, slot) == slots[..at] + [slot] + slots[at..]
  {
    if at > 0 {
      WithAt(slots[1..], slot, at - 1);
      assert slots[1..][at - 1..] == slots[at..] && slots[..at] == [slots[0]] + slots[1..][..at - 1];
    }
  }

  lemma {:induction false} WithoutNone(slots: seq<Slot>, fd: int)
    requires forall s <- slots :: s.fd != fd
    ensures Without(slots, fd) == slots
  {
    if slots != [] {
      WithoutNone(slots[1..], fd);
    }
  }

  lemma {:induction false} WithoutAt(slots: seq<Slot>, fd: int, at: nat)
    requires at < |slots| && forall k :: 0 <= k < |slots| ==> (slots[k].fd == fd <==> k == at)
    ensures Without(slots, fd) == slots[..at] + slots[at + 1..]
  {
    if at > 0 {
      WithoutAt(slots[1..], fd, at - 1);
      assert slots[1..][at..] == slots[at + 1..] && slots[..at] == [slots[0]] + slots[1..][..at - 1];
    } else {
      WithoutNone(slots[1..], fd);
    }
  }

  datatype Entry = Entry(fd: int, conn: RtpConnection?)

  // Sockets are in order, and no two clients share a connection.
  ghost predicate Distinct(clients: seq<Entry>) {
    forall i, j :: 0 <= i < j < |clients| ==> clients[i].fd < clients[j].fd && Apart(clients[i], clients[j])
  }

  ghost predicate Apart(a: Entry, b: Entry) {
    a.conn != null && b.conn != null ==>
      && a.conn != b.conn
      && a.conn.rtsp != b.conn.rtsp
      && a.conn.rtsp.writeBuffer != b.conn.rtsp.writeBuffer
  }

  lemma BothApart(clients: seq<Entry>, i: nat, k: nat)
    requires Distinct(clients) && i < |clients| && k < |clients| && i != k
    ensures Apart(clients[i], clients[k])
  {
    var lo, hi := if i < k then i else k, if i < k then k else i;
    assert Apart(clients[lo], clients[hi]);
  }

  lemma ErasedDistinct(clients: seq<Entry>, i: nat)
    requires Distinct(clients) && i < |clients|
    ensures Distinct(clients[..i] + clients[i + 1..])
  {
    var after := clients[..i] + clients[i + 1..];
    forall j, k | 0 <= j < k < |after| ensures after[j].fd < after[k].fd && Apart(after[j], after[k]) {
      var j', k' := if j < i then j else j + 1, if k < i then k else k + 1;
      assert after[j] == clients[j'] && after[k] == clients[k'];
    }
  }

  lemma InsertedDistinct(clients: seq<Entry>, i: nat, e: Entry)
    requires Distinct(clients) && i <= |clients|
    requires forall k :: 0 <= k < |clients| ==>
      Apart(clients[k], e) && if k < i then clients[k].fd < e.fd else e.fd < clients[k].fd
    ensures Distinct(clients[..i] + [e] + clients[i..])
  {
    var after := clients[..i] + [e] + clients[i..];
    forall j, k | 0 <= j < k < |after| ensures after[j].fd < after[k].fd && Apart(after[j], after[k]) {
      assert after[j] == if j < i then clients[j] else if j == i then e else clients[j - 1];
      assert after[k] == if k < i then clients[k] else if k == i then e else clients[k - 1];
    }
  }

  class MediaSession {
    var clients: seq<Entry>
    var isMulticast: bool
    const owner: Owner
    // What the slots of `clients` show, and the objects that the session reaches.
    ghost var slots: seq<Slot>
    ghost var Repr: set<object>

    ghost predicate Holds(e: Entry)
      reads this
    {
      e.conn != null ==> e.conn in Repr && e.conn.rtsp in Repr && e.conn.rtsp.writeBuffer in Repr
    }

    ghost predicate Reaches(e: Entry)
      requires Holds(e)
      reads this, Repr
    {
      e.conn != null ==> e.conn.Arrays() <= Repr
    }

    ghost predicate Shows(e: Entry, s: Slot)
      reads if e.conn == null then {} else {e.conn, e.conn.rtsp, e.conn.rtsp.writeBuffer} + e.conn.Arrays()
    {
      if e.conn == null then s == Expired(e.fd)
      else e.conn.Valid() && s == Live(e.fd, e.conn.View())
    }

    ghost predicate Valid()
      reads this, Repr
    {
      && this in Repr && |slots| == |clients| && AllValid(slots)
      && (forall i :: 0 <= i < |clients| ==> Holds(clients[i]))
      && (forall i :: 0 <= i < |clients| ==> Reaches(clients[i]) && Shows(clients[i], slots[i]))
      && Distinct(clients)
    }

    constructor (multicast: bool, owner: Owner)
      ensures Valid() && slots == [] && isMulticast == multicast && this.owner == owner && Repr == {this}
    {
      clients, slots, this.owner := [], [], owner;
      isMulticast := multicast;
      Repr := {this};
    }

    method Erase(i: nat)
      requires Valid() && i < |clients|
      modifies this
      ensures Valid() && Repr == old(Repr) && isMulticast == old(isMulticast)
      ensures slots == old(slots[..i] + slots[i + 1..])
    {
      ErasedDistinct(clients, i);
      clients := clients[..i] + clients[i + 1..];
      slots := slots[..i] + slots[i + 1..];
    }

    lemma SocketsShown()
      requires Valid()
      ensures |clients| == |slots| && forall k :: 0 <= k < |clients| ==> clients[k].fd == slots[k].fd
    {
      forall k | 0 <= k < |clients| ensures clients[k].fd == slots[k].fd {
        assert Shows(clients[k], slots[k]);
      }
    }

    // The first entry whose socket is not smaller.
    method Find(fd: int) returns (i: nat)
      requires Valid()
      ensures i <= |clients| == |slots|
      ensures forall k :: 0 <= k < |clients| ==> clients[k].fd == slots[k].fd && (clients[k].fd < fd <==> k < i)
    {
      i := 0;
      while i < |clients| && clients[i].fd < fd
        invariant i <= |clients| && forall k :: 0 <= k < i ==> clients[k].fd < fd
      {
        i := i + 1;
      }
      SocketsShown();
    }

    /** A socket has one entry: while an old one is there, even of a client that expired, a new
        client with the same socket is not added. */
    method AddClient(fd: int, conn: RtpConnection) returns (ok: bool)
      requires Valid() && conn.Valid() && forall e <- clients :: Apart(Entry(fd, conn), e) && Apart(e, Entry(fd, conn))
      modifies this
      ensures Valid() && isMulticast == old(isMulticast)
      ensures ok <==> forall s <- old(slots) :: s.fd != fd
      ensures slots == if ok then With(old(slots), Live(fd, conn.View())) else old(slots)
    {
      var i := Find(fd);
      if i < |clients| && clients[i].fd == fd {
        assert slots[i] in slots;
        return false;
      }
      InsertedDistinct(clients, i, Entry(fd, conn));
      ghost var slot := Live(fd, conn.View());
      WithAt(slots, slot, i);
      Insert(i, Entry(fd, conn), slot);
      ok := true;
    }

    method Insert(i: nat, e: Entry, ghost slot: Slot)
      requires Valid() && i <= |clients| && e.conn != null && Shows(e, slot)
      requires Distinct(clients[..i] + [e] + clients[i..])
      modifies this
      ensures Valid() && isMulticast == old(isMulticast)
      ensures Shows(e, slot) && slots == old(slots)[..i] + [slot] + old(slots)[i..]
    {
      ghost var before, shown := clients, slots;
      hide RtpConnection.View;
      slots := slots[..i] + [slot] + slots[i..];
      clients := clients[..i] + [e] + clients[i..];
      Repr := Repr + {e.conn, e.conn.rtsp, e.conn.rtsp.writeBuffer} + e.conn.Arrays();
      forall k | 0 <= k < |clients|
        ensures Holds(clients[k])
        ensures Reaches(clients[k]) && Shows(clients[k], slots[k])
      {
        if k != i {
          var j := if k < i then k else k - 1;
          assert clients[k] == before[j] && slots[k] == shown[j];
        }
      }
    }

    /** The entry of the socket goes, if there is one. */
    method RemoveClient(fd: int)
      requires Valid()
      modifies this
      ensures Valid() && Repr == old(Repr) && isMulticast == old(isMulticast)
      ensures slots == Without(old(slots), fd)
    {
      var i := Find(fd);
      if i < |clients| && clients[i].fd == fd {
        WithoutAt(slots, fd, i);
        Erase(i);
      } else {
        WithoutNone(slots, fd);
      }
    }

    method SendTo(i: nat, ch: ChannelId, pkt: RtpPacket) returns (result: int, waits: bool)
      requires Valid() && i < |clients| && clients[i].conn != null
      requires pkt.Valid() && pkt !in Repr && pkt.data !in Repr
      modifies Repr, pkt.data
      ensures Valid() && fresh(Repr - old(Repr)) && isMulticast == old(isMulticast) && clients == old(clients)
      ensures pkt.View() == old(pkt.View())
      ensures var c := old(slots[i].client); var sent := SendStep(c, ch, old(pkt.View()));
        && slots == old(slots)[i := Live(clients[i].fd, sent.client)]
        && result == sent.result && waits == sent.waits
    {
      hide SendStep, RtpConnection.Valid, RtpConnection.View, Distinct;
      var conn := clients[i].conn;
      assert Reaches(clients[i]) && Shows(clients[i], slots[i]);
      result, waits := conn.SendRtpPacket(ch, pkt);
      Repr := Repr + conn.Arrays();
      slots := slots[i := Live(clients[i].fd, conn.View())];
      assert Reaches(clients[i]) && Shows(clients[i], slots[i]);
      forall k | 0 <= k < |clients| && k != i
        ensures Reaches(clients[k]) && Shows(clients[k], slots[k])
      {
        var e := clients[k];
        assert old(Reaches(e) && Shows(e, slots[k]));
        BothApart(clients, i, k);
        if e.conn != null {
          assert e.conn.Arrays() == old(e.conn.Arrays());
          assert e.conn.Valid() && e.conn.View() == old(e.conn.View());
        }
      }
    }

    // What closing a client's connection does in the middle of a pass.
    method OnClose(i: nat) returns (deadlocked: bool)
      requires Valid() && i < |clients|
      modifies this
      ensures Valid() && Repr == old(Repr) && isMulticast == old(isMulticast)
      ensures deadlocked == (owner == Server)
      ensures slots == if deadlocked then old(slots) else old(slots)[..i] + old(slots)[i + 1..]
    {
      if owner == Server {
        return true;
      }
      SocketsShown();
      WithoutAt(slots, clients[i].fd, i);
      RemoveClient(clients[i].fd);
      return false;
    }

    // One client of the pass, and whether the pass is over.
    method Visit(i: nat, ch: ChannelId, pkt: RtpPacket, ghost all: Pass) returns (done: bool, ending: Ending)
      requires Valid() && i < |clients| && clients[i].conn != null && clients[i].conn.online
      requires pkt.Valid() && pkt !in Repr && pkt.data !in Repr
      requires Halfway(all, slots, i, isMulticast, owner, ch, pkt.View())
      modifies Repr, pkt.data
      ensures Valid() && fresh(Repr - old(Repr)) && isMulticast == old(isMulticast)
      ensures pkt.View() == old(pkt.View())
      ensures if done then all == Pass(slots, ending)
              else i < |clients| && Halfway(all, slots, i + 1, isMulticast, owner, ch, pkt.View())
      ensures !done ==> |clients| == old(|clients|)
    {
      assert Shows(clients[i], slots[i]);
      VisitOnline(all, slots, i, isMulticast, owner, ch, pkt.View());
      hide SendStep, Halfway, Broadcast, RtpConnection.View, RtpConnection.Valid;
      var conn := clients[i].conn;
      var open := !conn.rtsp.isClosed;
      var result, waits := SendTo(i, ch, pkt);
      if waits {
        return true, Deadlocked;
      }
      assert Shows(clients[i], slots[i]);
      if open && conn.rtsp.isClosed {
        var deadlocked := OnClose(i);
        ending := if deadlocked then Deadlocked else if isMulticast && result != 0 then Returned else Wild;
        return true, ending;
      }
      return isMulticast && result != 0, Returned;
    }

    /** The callback that the session installs in its sources. */
    method SendPacket(ch: ChannelId, pkt: RtpPacket) returns (ok: bool, ending: Ending)
      requires Valid() && pkt.Valid() && pkt !in Repr && pkt.data !in Repr
      modifies Repr, pkt.data
      ensures Valid() && ok
      ensures pkt.View() == old(pkt.View())
      ensures Pass(slots, ending) == Broadcast(old(slots), isMulticast, owner, ch, old(pkt.View()))
    {
      hide RtpConnection.Valid, RtpConnection.View, SendStep;
      ok := true;
      ghost var packet := pkt.View();
      ghost var all := Broadcast(slots, isMulticast, owner, ch, packet);
      var i := 0;
      while i < |clients|
        invariant 0 <= i <= |clients| && Valid()
        invariant pkt.Valid() && pkt.View() == packet && pkt !in Repr && pkt.data !in Repr
        invariant fresh(Repr - old(Repr))
        invariant isMulticast == old(isMulticast)
        invariant Halfway(all, slots, i, isMulticast, owner, ch, packet)
        decreases |clients| - i
      {
        if clients[i].conn == null {
          VisitExpired(all, slots, i, isMulticast, owner, ch, packet);
          Erase(i);
        } else if !clients[i].conn.online {
          assert Shows(clients[i], slots[i]);
          VisitOffline(all, slots, i, isMulticast, owner, ch, packet);
          i := i + 1;
        } else {
          var done;
          done, ending := Visit(i, ch, pkt, all);
          if done {
            return;
          }
          i := i + 1;
        }
      }
      ending := Returned;
    }
  }
}
