/**
 The chat server over whole queues of packets, from a server without players: what an
 authenticated player must have done.
 */
module ChatRuns {
  import opened ChatConfig
  import opened ChatServer

  function Players(events: seq<Event>): map<int, Fields> { Final(map[], events) }

  /** The packet carries the number that the server expects of its player. */
  predicate Expected(v: map<int, Fields>, e: Event) {
    e.id in v && e.seqNumber == v[e.id].seqNumber
  }

  /** A login that finds session data: the server has loaded the token that Redis holds. */
  predicate Loads(v: map<int, Fields>, e: Event) {
    Expected(v, e) && e.packet.Login? && e.packet.redis.Some? && |e.packet.redis.value.0| == TOKEN_LEN
  }

  /** The packet turns its player into an authenticated one. */
  predicate Authenticates(v: map<int, Fields>, e: Event) {
    Expected(v, e) && e.packet.Auth? && !v[e.id].auth && e.packet.token == v[e.id].token
  }

  /** The player of this session has logged in since it was created. */
  predicate LoggedIn(events: seq<Event>, id: int) {
    if events == [] then false
    else
      var front, last := events[..|events| - 1], events[|events| - 1];
      if last.id != id then LoggedIn(front, id)
      else if last.packet.PlayerDelete? then false
      else Loads(Players(front), last) || LoggedIn(front, id)
  }

  ghost predicate Deletes(e: Event, id: int) { e.id == id && e.packet.PlayerDelete? }

  /** Event j is the last login of the session, and the player has not been deleted since. */
  ghost predicate LastLogin(events: seq<Event>, id: int, j: nat) {
    && j < |events| && events[j].id == id && Loads(Players(events[..j]), events[j])
    && forall l :: j < l < |events| ==>
         !Deletes(events[l], id) && !(events[l].id == id && Loads(Players(events[..l]), events[l]))
  }

  lemma Shorter(events: seq<Event>, l: nat)
    requires events != [] && l < |events|
    ensures events[..|events| - 1][..l] == events[..l]
  {
  }

  lemma LastLoginStays(events: seq<Event>, id: int, j: nat)
    requires events != [] && LastLogin(events[..|events| - 1], id, j)
    requires !Deletes(events[|events| - 1], id)
    requires !(events[|events| - 1].id == id && Loads(Players(events[..|events| - 1]), events[|events| - 1]))
    ensures LastLogin(events, id, j)
  {
    var front := events[..|events| - 1];
    hide Loads, Players, Deletes;
    Shorter(events, j);
    forall l | j < l < |events|
      ensures !Deletes(events[l], id) && !(events[l].id == id && Loads(Players(events[..l]), events[l]))
    {
      if l < |front| { assert front[l] == events[l]; Shorter(events, l); }
    }
  }

  lemma NewLastLogin(events: seq<Event>, id: int)
    requires events != [] && events[|events| - 1].id == id
    requires Loads(Players(events[..|events| - 1]), events[|events| - 1])
    ensures LastLogin(events, id, |events| - 1)
  {
  }

  lemma {:induction false} LoggedInIsKnown(events: seq<Event>, id: int)
    requires LoggedIn(events, id)
    ensures id in Players(events)
  {
    var front, last := events[..|events| - 1], events[|events| - 1];
    if LoggedIn(front, id) {
      LoggedInIsKnown(front, id);
    }
  }

  /** The token of a player is the one that its last login loaded, or the zeros that it was created
      with if it has not logged in. */
  lemma {:induction false} TokenOrigin(events: seq<Event>, id: int) returns (j: nat)
    requires id in Players(events)
    ensures LoggedIn(events, id) ==>
              LastLogin(events, id, j) && Players(events)[id].token == events[j].packet.redis.value.0
    ensures !LoggedIn(events, id) ==> Players(events)[id].token == Zeros()
    ensures !LoggedIn(events, id) ==>
              forall l :: !LastLogin(events, id, l)
  {
    hide LastLogin;
    var front, last := events[..|events| - 1], events[|events| - 1];
    j := 0;
    if LoggedIn(front, id) { LoggedInIsKnown(front, id); }
    if last.id == id && Loads(Players(front), last) {
      j := |events| - 1;
      NewLastLogin(events, id);
    } else if id in Players(front) {
      j := TokenOrigin(front, id);
      if LoggedIn(events, id) {
        LastLoginStays(events, id, j);
        LastLoginIn(front, id, j);
        assert events[j] == front[j];
      }
    }
    if !LoggedIn(events, id) {
      forall l | LastLogin(events, id, l) ensures false { LastLoginMeans(events, id, l); }
    }
  }

  lemma {:induction false} LastLoginMeans(events: seq<Event>, id: int, j: nat)
    requires LastLogin(events, id, j)
    ensures LoggedIn(events, id)
  {
    var front, last := events[..|events| - 1], events[|events| - 1];
    if j < |front| {
      assert LastLogin(front, id, j) by {
        Shorter(events, j);
        forall l | j < l < |front|
          ensures !Deletes(front[l], id) && !(front[l].id == id && Loads(Players(front[..l]), front[l]))
        {
          Shorter(events, l);
          assert events[l] == front[l];
        }
      }
      LastLoginMeans(front, id, j);
      assert !Deletes(last, id);
    }
  }

  // ----- Authenticated implies logged in? -------------------------------------------------

  ghost predicate EveryoneLoggedIn(events: seq<Event>) {
    forall id :: id in Players(events) && Players(events)[id].auth ==> LoggedIn(events, id)
  }

  /** At its turn, packet k is an Auth with a token of zeros and the expected number, from a player
      that is not authenticated and has not logged in. */
  ghost predicate BlankAuth(events: seq<Event>, k: nat) {
    && k < |events|
    && var v, e := Players(events[..k]), events[k];
       && Expected(v, e) && e.packet.Auth? && e.packet.token == Zeros() && !v[e.id].auth
       && !LoggedIn(events[..k], e.id)
  }

  /** A player that is created and authenticates at once, without a login, with zeros. */
  function BlankRun(id: int, nickname: seq<int>): seq<Event> {
    [Event(id, PlayerAlloc, 0), Event(id, Auth(nickname, Zeros(), 0, 0), -0x0202_0203)]
  }

  /** Authenticated does not imply logged in: the zeros of a new player pass as its token. */
  lemma AuthWithoutLogin(id: int, nickname: seq<int>)
    ensures var events := BlankRun(id, nickname);
            id in Players(events) && Players(events)[id].auth && !LoggedIn(events, id)
  {
    var events := BlankRun(id, nickname);
    var one := events[..1];
    assert one == [events[0]] && one[..0] == [];
    assert one[..|one| - 1] == [] && Players([]) == map[];
    assert Players(one) == map[][id := NewFields()];
    assert !LoggedIn(one, id);
    assert events[..|events| - 1] == one;
  }

  lemma OneEvent(events: seq<Event>)
    requires events != []
    requires var front := events[..|events| - 1]; EveryoneLoggedIn(front)
    ensures EveryoneLoggedIn(events) <==> !BlankAuth(events, |events| - 1)
  {
    hide LoggedIn;
    var front, last := events[..|events| - 1], events[|events| - 1];
    LoggedInNext(events);
    if last.id in Players(front) {
      var j := TokenOrigin(front, last.id);
      if BlankAuth(events, |events| - 1) {
        assert Players(events)[last.id].auth;
      }
    }
    forall id | id in Players(events) && Players(events)[id].auth && !BlankAuth(events, |events| - 1)
      ensures LoggedIn(events, id)
    {
      assert id in Players(front);
    }
  }

  lemma LoggedInNext(events: seq<Event>)
    requires events != []
    ensures var front, last := events[..|events| - 1], events[|events| - 1];
            forall id :: LoggedIn(events, id) ==
                         if last.id != id then LoggedIn(front, id)
                         else !last.packet.PlayerDelete? && (Loads(Players(front), last) || LoggedIn(front, id))
  {
  }

  /** In every state of a run every authenticated player has logged in, if and only if no packet of
      the run is a blank Auth when it arrives. */
  lemma {:induction false} AuthenticatedLoggedIn(events: seq<Event>)
    ensures (forall n :: 0 <= n <= |events| ==> EveryoneLoggedIn(events[..n]))
            <==> (forall k: nat :: k < |events| ==> !BlankAuth(events, k))
  {
    hide EveryoneLoggedIn, BlankAuth;
    if events == [] {
      NobodyYet();
      assert forall n :: 0 <= n <= 0 ==> events[..n] == [];
    } else {
      var front, top := events[..|events| - 1], |events| - 1;
      AuthenticatedLoggedIn(front);
      assert events[..|events|] == events;
      forall n | 0 <= n <= |front| ensures events[..n] == front[..n] { }
      forall k: nat | k < |front| ensures BlankAuth(events, k) == BlankAuth(front, k) { BlankInFront(events, k); }
      if EveryoneLoggedIn(front) { OneEvent(events); }
      assert front[..|front|] == front;
      if forall n :: 0 <= n <= |events| ==> EveryoneLoggedIn(events[..n]) {
        forall n | 0 <= n <= |front| ensures EveryoneLoggedIn(front[..n]) { assert events[..n] == front[..n]; }
        assert EveryoneLoggedIn(events[..|events|]);
      }
    }
  }

  lemma NobodyYet()
    ensures EveryoneLoggedIn([])
  {
  }

  lemma BlankInFront(events: seq<Event>, k: nat)
    requires k + 1 < |events|
    ensures BlankAuth(events, k) == BlankAuth(events[..|events| - 1], k)
  {
    Shorter(events, k);
  }

  /** Who is authenticated has sent, under the expected number, either the token of its last login
      before that, or zeros without any login since it was created. */
  lemma AuthenticatedToken(events: seq<Event>, id: int) returns (k: nat, j: nat)
    requires id in Players(events) && Players(events)[id].auth
    ensures k < |events| && events[k].id == id && Authenticates(Players(events[..k]), events[k])
    ensures if LoggedIn(events[..k], id)
            then LastLogin(events[..k], id, j) && events[k].packet.token == events[j].packet.redis.value.0
            else events[k].packet.token == Zeros() && forall l :: !LastLogin(events[..k], id, l)
    ensures forall l :: k < l < |events| ==> !Deletes(events[l], id)
  {
    hide LoggedIn, LastLogin;
    k := LastAuthentication(events, id);
    j := TokenOrigin(events[..k], id);
    if LoggedIn(events[..k], id) { LastLoginIn(events[..k], id, j); }
  }

  lemma LastLoginIn(events: seq<Event>, id: int, j: nat)
    requires LastLogin(events, id, j)
    ensures j < |events| && events[j].packet.Login? && events[j].packet.redis.Some?
  {
  }

  lemma {:induction false} LastAuthentication(events: seq<Event>, id: int) returns (k: nat)
    requires id in Players(events) && Players(events)[id].auth
    ensures k < |events| && events[k].id == id && Authenticates(Players(events[..k]), events[k])
    ensures forall l :: k < l < |events| ==> !Deletes(events[l], id)
  {
    var front := events[..|events| - 1];
    if id in Players(front) && Players(front)[id].auth {
      k := LastAuthentication(front, id);
      Shorter(events, k);
      forall l | k < l < |events| ensures !Deletes(events[l], id) {
        if l < |front| { assert events[l] == front[l]; }
      }
    } else {
      k := |events| - 1;
    }
  }

  // ----- The assertion of authProc --------------------------------------------------------

  /** Created, logged in, authenticated with the loaded token, and then once more. */
  function TwiceRun(id: int, nickname: seq<int>, token: seq<int>): seq<Event> {
    [Event(id, PlayerAlloc, 0), Event(id, Login(1, Some((token, 2)), 7), -0x0202_0203),
     Event(id, Auth(nickname, token, 0, 0), 7), Event(id, Auth(nickname, token, 0, 0), 8)]
  }

  /** The fourth packet of this run fails the assertion: the player is authenticated by then. */
  lemma SecondAuthStops(id: int, nickname: seq<int>, token: seq<int>, r: Reply)
    requires |token| == TOKEN_LEN
    requires var events := TwiceRun(id, nickname, token); Answers(Players(events[..3]), events[3], r)
    ensures r == Stopped
  {
    var events := TwiceRun(id, nickname, token);
    var one, two, three := events[..1], events[..2], events[..3];
    assert one[..0] == [] && two[..1] == one && three[..2] == two;
    assert one[..|one| - 1] == [] && Players([]) == map[];
    assert Players(one) == map[][id := NewFields()];
    assert Players(two)[id].seqNumber == 7 && Players(two)[id].token == token && !Players(two)[id].auth;
    assert Players(three)[id].auth && Players(three)[id].seqNumber == 8;
  }

  /** After a wrong token it does not fail: a second Auth is judged like the first. */
  lemma AuthAfterWrongToken(id: int, nickname: seq<int>, token: seq<int>, wrong: seq<int>, r: Reply)
    requires |token| == TOKEN_LEN && wrong != token
    requires var events := TwiceRun(id, nickname, token)[2 := Event(id, Auth(nickname, wrong, 0, 0), 7)];
             Answers(Players(events[..3]), events[3], r)
    ensures r == AuthSent(0, 0)
  {
    var events := TwiceRun(id, nickname, token)[2 := Event(id, Auth(nickname, wrong, 0, 0), 7)];
    var one, two, three := events[..1], events[..2], events[..3];
    assert one[..0] == [] && two[..1] == one && three[..2] == two;
    assert one[..|one| - 1] == [] && Players([]) == map[];
    assert Players(one) == map[][id := NewFields()];
    assert Players(two)[id].seqNumber == 7 && Players(two)[id].token == token && !Players(two)[id].auth;
    assert !Players(three)[id].auth && Players(three)[id].seqNumber == 8;
  }
}
