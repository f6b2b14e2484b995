/**
 The two packets of the chat server that are meant for the network library's callbacks only: onAccept
 pushes PlayerAlloc and onRelease pushes PlayerDelete. packetProc looks at the type in the packet
 before it looks for a player, and onRecv pushes whatever a peer has sent into the same queue.
 */
module ChatCallbacks {
  import opened ChatServer
  import opened ChatRuns

  /** An entry of the queue: pushed by onRecv for a peer, or by one of the other two callbacks. */
  datatype Arrival = Arrival(event: Event, peer: bool)

  function Events(q: seq<Arrival>): (events: seq<Event>)
    ensures |events| == |q|
  {
    seq(|q|, k requires 0 <= k < |q| => q[k].event)
  }

  predicate Reserved(p: Packet) { p.PlayerAlloc? || p.PlayerDelete? }

  /** A packet that a peer should not send. */
  predicate Forged(a: Arrival) { a.peer && Reserved(a.event.packet) }

  /** The sessions that onAccept has announced. */
  function Accepted(q: seq<Arrival>): set<int> {
    if q == [] then {}
    else
      var front, last := q[..|q| - 1], q[|q| - 1];
      Accepted(front) + if !last.peer && last.event.packet.PlayerAlloc? then {last.event.id} else {}
  }

  /** The sessions that onRelease has announced. */
  function Released(q: seq<Arrival>): set<int> {
    if q == [] then {}
    else
      var front, last := q[..|q| - 1], q[|q| - 1];
      Released(front) + if !last.peer && last.event.packet.PlayerDelete? then {last.event.id} else {}
  }

  /** The callbacks do what the network library promises: a session is announced once, and released
      at most once and after that. Nothing is asked of the peers. */
  predicate Disciplined(q: seq<Arrival>) {
    if q == [] then true
    else
      var front, last := q[..|q| - 1], q[|q| - 1];
      && Disciplined(front)
      && (!last.peer ==>
            || (last.event.packet.PlayerAlloc? && last.event.id !in Accepted(front))
            || (last.event.packet.PlayerDelete? && last.event.id in Accepted(front) - Released(front)))
  }

  lemma {:induction false} ReleasedWereAccepted(q: seq<Arrival>)
    requires Disciplined(q)
    ensures Released(q) <= Accepted(q)
  {
    if q != [] {
      ReleasedWereAccepted(q[..|q| - 1]);
    }
  }

  /** The player map holds exactly the sessions that have been accepted and not yet released. */
  ghost predicate Exact(q: seq<Arrival>) {
    Players(Events(q)).Keys == Accepted(q) - Released(q)
  }

  /** If entry k is one of the two packets, its assertion does not fail. */
  ghost predicate Passes(q: seq<Arrival>, k: nat)
    requires k < |q|
  {
    Reserved(q[k].event.packet) ==>
      forall r :: Answers(Players(Events(q[..k])), q[k].event, r) ==> r != Stopped
  }

  lemma EventsFront(q: seq<Arrival>)
    requires q != []
    ensures Events(q)[..|q| - 1] == Events(q[..|q| - 1]) && Events(q)[|q| - 1] == q[|q| - 1].event
  {
  }

  /** The sessions in the map after one more packet. */
  lemma KeysAfter(v: map<int, Fields>, e: Event)
    ensures After(v, e.id, e.packet, e.seqNumber).Keys ==
            if e.packet.PlayerAlloc? then v.Keys + {e.id}
            else if e.packet.PlayerDelete? then v.Keys - {e.id}
            else v.Keys
  {
  }

  /** The assertions of the two packets: PlayerAlloc wants an unknown session, PlayerDelete a known one. */
  lemma AssertionOf(v: map<int, Fields>, e: Event)
    requires Reserved(e.packet)
    ensures (forall r :: Answers(v, e, r) ==> r != Stopped) <==> (e.id in v.Keys <==> e.packet.PlayerDelete?)
  {
    assert Answers(v, e, if e.packet.PlayerAlloc? == (e.id in v) then Stopped else Quiet);
  }

  /** A map that was exact stays exact, and no assertion fails, if and only if the packet is not
      forged: a forged one fails its assertion, or changes the map without a callback. */
  lemma OneArrival(q: seq<Arrival>)
    requires q != [] && Disciplined(q) && Exact(q[..|q| - 1])
    ensures Exact(q) && Passes(q, |q| - 1) <==> !Forged(q[|q| - 1])
  {
    var front, last := q[..|q| - 1], q[|q| - 1];
    ReleasedWereAccepted(front);
    EventsFront(q);
    var v := Players(Events(front));
    KeysAfter(v, last.event);
    assert Players(Events(q)) == After(v, last.event.id, last.event.packet, last.event.seqNumber);
    hide Answers, After, Disciplined;
    if Reserved(last.event.packet) {
      AssertionOf(v, last.event);
    }
    if last.peer {
      if last.event.packet.PlayerAlloc? && last.event.id !in v.Keys {
        assert last.event.id in Players(Events(q)).Keys;
      } else if last.event.packet.PlayerDelete? && last.event.id in v.Keys {
        assert last.event.id !in Players(Events(q)).Keys;
      }
    }
  }

  /** In every state the map is exact, and no assertion of the two packets fails. */
  ghost predicate Sound(q: seq<Arrival>) {
    && (forall n :: 0 <= n <= |q| ==> Exact(q[..n]))
    && (forall k: nat :: k < |q| ==> Passes(q, k))
  }

  ghost predicate NoneForged(q: seq<Arrival>) {
    forall k :: 0 <= k < |q| ==> !Forged(q[k])
  }

  lemma SoundNext(q: seq<Arrival>)
    requires q != []
    ensures var front := q[..|q| - 1]; Sound(q) <==> Sound(front) && Exact(q) && Passes(q, |q| - 1)
    ensures var front := q[..|q| - 1]; NoneForged(q) <==> NoneForged(front) && !Forged(q[|q| - 1])
  {
    hide Exact, Reserved, Answers, Forged;
    var front := q[..|q| - 1];
    assert q[..|q|] == q;
    assert forall n :: 0 <= n <= |front| ==> front[..n] == q[..n];
    assert forall k :: 0 <= k < |front| ==> front[k] == q[k];
    forall k: nat | k < |front| ensures Passes(q, k) == Passes(front, k) { }
    if Sound(q) {
      assert Exact(q[..|q|]);
      forall n | 0 <= n <= |front| ensures Exact(front[..n]) { assert Exact(q[..n]); }
    }
    if Sound(front) && Exact(q) && Passes(q, |q| - 1) {
      forall n | 0 <= n <= |q| ensures Exact(q[..n]) { if n < |q| { assert Exact(front[..n]); } }
    }
  }

  lemma NothingArrived()
    ensures Sound([]) && NoneForged([])
  {
    var none: seq<Arrival> := [];
    assert Events(none) == [];
    assert Exact(none);
    assert forall n :: 0 <= n <= 0 ==> none[..n] == none;
  }

  /** Whatever the peers send: in every state the player map is exactly the sessions accepted and not
      yet released, and neither assertion fails, if and only if no peer sends one of the two packets. */
  lemma {:induction false} NetworkPacketsQuiet(q: seq<Arrival>)
    requires Disciplined(q)
    ensures Sound(q) <==> NoneForged(q)
  {
    hide Sound, NoneForged, Exact, Passes, Forged;
    if q == [] {
      NothingArrived();
    } else {
      NetworkPacketsQuiet(q[..|q| - 1]);
      SoundNext(q);
      if Sound(q[..|q| - 1]) {
        SoundIsExact(q[..|q| - 1]);
        OneArrival(q);
      }
    }
  }

  lemma SoundIsExact(q: seq<Arrival>)
    requires Sound(q)
    ensures Exact(q)
  {
    hide Exact;
    assert q[..|q|] == q;
    assert Exact(q[..|q|]);
  }

  /** Without such packets the map holds exactly the sessions accepted and not released. */
  lemma KnownSessions(q: seq<Arrival>)
    requires Disciplined(q) && NoneForged(q)
    ensures Players(Events(q)).Keys == Accepted(q) - Released(q)
  {
    NetworkPacketsQuiet(q);
    SoundIsExact(q);
  }

  // ----- The two failing runs -------------------------------------------------------------

  /** A session is accepted, and then sends the PlayerAlloc itself. */
  function ForgedAlloc(id: int): seq<Arrival> {
    [Arrival(Event(id, PlayerAlloc, 0), false), Arrival(Event(id, PlayerAlloc, 0), true)]
  }

  /** A session is accepted, sends the PlayerDelete itself, and is released. */
  function ForgedDelete(id: int): seq<Arrival> {
    [Arrival(Event(id, PlayerAlloc, 0), false), Arrival(Event(id, PlayerDelete, 0), true),
     Arrival(Event(id, PlayerDelete, 0), false)]
  }

  lemma AfterAlloc(q: seq<Arrival>, id: int)
    requires |q| == 1 && q[0].event == Event(id, PlayerAlloc, 0) && !q[0].peer
    ensures Players(Events(q)) == map[id := NewFields()]
  {
    assert Events(q)[..0] == [] && Events(q)[0] == q[0].event;
    assert Players([]) == map[];
  }

  lemma OnlyAlloc(q: seq<Arrival>, id: int)
    requires |q| == 1 && q[0].event == Event(id, PlayerAlloc, 0) && !q[0].peer
    ensures Disciplined(q)
    ensures forall j :: (j in Accepted(q) <==> j == id) && j !in Released(q)
  {
    assert q[..0] == [];
  }

  /** The peer's packet fails the assertion of chatPlayerAlloc. */
  lemma ForgedAllocStops(id: int, r: Reply)
    requires var q := ForgedAlloc(id); Answers(Players(Events(q[..1])), q[1].event, r)
    ensures Disciplined(ForgedAlloc(id)) && r == Stopped
  {
    var q := ForgedAlloc(id);
    AfterAlloc(q[..1], id);
    OnlyAlloc(q[..1], id);
    assert q[..|q| - 1] == q[..1];
  }

  /** The peer's packet removes its player while the session lives, and the packet of onRelease then
      fails the assertion of chatPlayerDelete. */
  lemma ForgedDeleteStops(id: int, r: Reply)
    requires var q := ForgedDelete(id); Answers(Players(Events(q[..2])), q[2].event, r)
    ensures var q := ForgedDelete(id);
            && Disciplined(q) && r == Stopped
            && Players(Events(q[..2])) == map[] && Accepted(q[..2]) - Released(q[..2]) == {id}
  {
    var q := ForgedDelete(id);
    var two := q[..2];
    AfterAlloc(q[..1], id);
    OnlyAlloc(q[..1], id);
    assert two[..|two| - 1] == q[..1] && q[..|q| - 1] == two;
    EventsFront(two);
  }
}
