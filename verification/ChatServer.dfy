/**
 The chat server's contents thread (ChattingServer.cpp): the players by session, and the 50 by 50
 sectors that index the authenticated ones by place. Only this thread touches them. What a packet
 holds, what Redis answers and what rand gives are parameters.
 */
module ChatServer {
  import opened ChatConfig

  const SIDE := 50

  /** A packet of the session that it came in on. PlayerAlloc and PlayerDelete are what the network
      library's callbacks push; but the type is a field of the packet, and a peer can send them too.
      redis is the player's session data: its token and its key. */
  datatype Packet =
    | PlayerAlloc
    | PlayerDelete
    | Login(accountNo: int, redis: Option<(seq<int>, int)>, rand: int)
    | Auth(nickname: seq<int>, token: seq<int>, randX: int, randY: int)
    | Move(x: int, y: int)
    | Chat(messageLen: int)
    | Unknown

  datatype Option<T> = None | Some(value: T)

  /** What a packet leads to. Stopped is a failed assertion; Disconnected asks the network library
      to end the session, which will come back as a PlayerDelete. */
  datatype Reply =
    | Quiet
    | Stopped
    | Dropped
    | Disconnected
    | LoginSent(seqNumber: int)
    | AuthSent(x: int, y: int)
    | ChatSent(to: seq<int>)

  /** A player's fields as a value. */
  datatype Fields = Fields(seqNumber: int, key: int, x: int, y: int, auth: bool, nickname: seq<int>,
                           token: seq<int>, accountNo: int)

  predicate InWorld(x: int, y: int) { 0 <= x < SIDE && 0 <= y < SIDE }

  predicate Near(x: int, y: int, rx: int, ry: int) { -1 <= rx - x <= 1 && -1 <= ry - y <= 1 }

  /** ++ on an __int32. */
  function Next32(n: int): int {
    if n == 0x7fff_ffff then -0x8000_0000 else n + 1
  }

  class Player {
    const SessionID: int
    var SeqNumber: int
    var SessionFK: int
    var sectorX: int
    var sectorY: int
    var bAuth: bool
    var nickname: seq<int>
    var tokenKey: seq<int>
    var accountNo: int

    constructor (sessionID: int)
      ensures SessionID == sessionID && Value() == NewFields()
    {
      SessionID, SeqNumber, SessionFK, sectorX, sectorY, bAuth := sessionID, -0x0202_0203, -1, 0, 0, false;
      nickname, tokenKey, accountNo := Zeros(), Zeros(), 0;
    }

    ghost function Value(): Fields
      reads this
    {
      Fields(SeqNumber, SessionFK, sectorX, sectorY, bAuth, nickname, tokenKey, accountNo)
    }
  }

  function Zeros(): seq<int> { seq(TOKEN_LEN, _ => 0) }

  function NewFields(): Fields { Fields(-0x0202_0203, -1, 0, 0, false, Zeros(), Zeros(), 0) }

  lemma RemoveOne<T>(m: map<int, T>, k: int)
    requires k in m
    ensures |m - {k}| == |m| - 1
  {
    assert m.Keys == (m - {k}).Keys + {k};
  }

  // ----- The players as values, packet by packet ------------------------------------------

  function After(v: map<int, Fields>, id: int, p: Packet, seqNumber: int): map<int, Fields> {
    if p.PlayerAlloc? then (if id in v then v else v[id := NewFields()])
    else if p.PlayerDelete? then v - {id}
    else if id !in v then v
    else
      var f := v[id].(seqNumber := Next32(v[id].seqNumber));
      v[id := if seqNumber == v[id].seqNumber then Changed(f, p) else f]
  }

  /** A packet with the expected sequence number changes its own player only. */
  function Changed(f: Fields, p: Packet): Fields {
    match p
    case Login(accountNo, Some(d), rand) =>
      if |d.0| == TOKEN_LEN then f.(token := d.0, key := d.1, seqNumber := rand, accountNo := accountNo) else f
    case Auth(nickname, token, randX, randY) =>
      if f.auth then f
      else if token != f.token then f.(nickname := nickname)
      else f.(nickname := nickname, x := randX, y := randY, auth := true)
    case Move(x, y) => if f.auth && InWorld(x, y) then f.(x := x, y := y) else f
    case _ => f
  }

  datatype Event = Event(id: int, packet: Packet, seqNumber: int)

  function Final(v: map<int, Fields>, events: seq<Event>): map<int, Fields> {
    if events == [] then v
    else
      var last := events[|events| - 1];
      After(Final(v, events[..|events| - 1]), last.id, last.packet, last.seqNumber)
  }

  /** rand() % 50. */
  ghost predicate RandInWorld(p: Packet) {
    p.Auth? ==> InWorld(p.randX, p.randY)
  }

  /** Every authenticated player next to the place, once, and nobody else. */
  ghost predicate Recipients(v: map<int, Fields>, x: int, y: int, to: seq<int>) {
    && (forall id :: id in to <==> id in v && v[id].auth && Near(x, y, v[id].x, v[id].y))
    && (forall i, j :: 0 <= i < j < |to| ==> to[i] != to[j])
  }

  /** What a packet is answered with. */
  ghost predicate Answers(v: map<int, Fields>, e: Event, r: Reply) {
    var id, p := e.id, e.packet;
    if p.PlayerAlloc? then r == (if id in v then Stopped else Quiet)
    else if p.PlayerDelete? then r == (if id in v then Quiet else Stopped)
    else if id !in v then r == Dropped
    else if e.seqNumber != v[id].seqNumber then r == Disconnected
    else ExpectedAnswers(v, id, p, r)
  }

  /** And when its sequence number is the expected one. */
  ghost predicate ExpectedAnswers(v: map<int, Fields>, id: int, p: Packet, r: Reply)
    requires id in v
  {
    match p
      case Login(_, None, _) => r == Disconnected
      case Login(_, Some(d), rand) => r == if |d.0| == TOKEN_LEN then LoginSent(rand) else Stopped
      case Auth(_, token, randX, randY) =>
        r == if v[id].auth then Stopped else if token != v[id].token then Disconnected else AuthSent(randX, randY)
      case Move(x, y) =>
        r == if v[id].auth && InWorld(x, y) && (x, y) != (v[id].x, v[id].y) then Quiet else Disconnected
      case Chat(messageLen) =>
        if v[id].auth && 0 < messageLen <= MSG_MAX_LEN then r.ChatSent? && Recipients(v, v[id].x, v[id].y, r.to)
        else r == Disconnected
      case _ => r == Stopped
  }

  lemma CountIsNotAsked(v: map<int, Fields>, id: int, n: int, p: Packet, r: Reply)
    requires id in v && ExpectedAnswers(v[id := v[id].(seqNumber := n)], id, p, r)
    ensures ExpectedAnswers(v, id, p, r)
  {
  }

  /** In every run: whoever is authenticated has sent, under the sequence number that was expected,
      the token that its player had then, and has not been deleted since. Where that token comes
      from is in ChatRuns. */
  lemma {:induction false} AuthenticatedProved(v: map<int, Fields>, events: seq<Event>, id: int) returns (k: nat)
    requires id !in v || !v[id].auth
    requires id in Final(v, events) && Final(v, events)[id].auth
    ensures k < |events| && events[k].id == id && events[k].packet.Auth?
    ensures var before := Final(v, events[..k]);
            id in before && events[k].packet.token == before[id].token && events[k].seqNumber == before[id].seqNumber
    ensures forall j :: k < j < |events| ==> events[j] != Event(id, PlayerDelete, events[j].seqNumber)
  {
    var front, last := events[..|events| - 1], events[|events| - 1];
    var before := Final(v, front);
    if id in before && before[id].auth {
      k := AuthenticatedProved(v, front, id);
      assert front[..k] == events[..k];
    } else {
      k := |events| - 1;
    }
  }

  // ----- The server -----------------------------------------------------------------------

  class ChattingServer {
    var mPlayerMap: map<int, Player>
    const mSectors: array2<map<int, Player>>
    var mUserCnt: int

    ghost predicate PlayersValid()
      reads this, mPlayerMap.Values
    {
      forall id :: id in mPlayerMap ==>
        && mPlayerMap[id].SessionID == id
        && (mPlayerMap[id].bAuth ==> InWorld(mPlayerMap[id].sectorX, mPlayerMap[id].sectorY))
    }

    /** An authenticated player is in the sector that its coordinates name, and nothing else is. */
    ghost predicate At(id: int, x: int, y: int)
      reads this, mPlayerMap.Values
    {
      id in mPlayerMap && mPlayerMap[id].bAuth && mPlayerMap[id].sectorX == x && mPlayerMap[id].sectorY == y
    }

    ghost predicate SectorsValid()
      reads this, mPlayerMap.Values, mSectors
    {
      && mSectors.Length0 == mSectors.Length1 == SIDE
      && (forall id, x, y :: InWorld(x, y) ==> (id in mSectors[x, y] <==> At(id, x, y)))
      && (forall id, x, y :: InWorld(x, y) && id in mSectors[x, y] ==> mSectors[x, y][id] == mPlayerMap[id])
    }

    ghost predicate Valid()
      reads this, mPlayerMap.Values, mSectors
    {
      PlayersValid() && SectorsValid() && mUserCnt == |mPlayerMap|
    }

    /** The players as values. */
    ghost function Players(): map<int, Fields>
      reads this, mPlayerMap.Values
    {
      map id | id in mPlayerMap :: mPlayerMap[id].Value()
    }

    constructor ()
      ensures Valid() && Players() == map[] && fresh(mSectors)
    {
      mPlayerMap := map[];
      mUserCnt := 0;
      mSectors := new map<int, Player>[SIDE, SIDE]((_, _) => map[]);
    }

    method ChatPlayerAlloc(sessionID: int) returns (r: Reply)
      requires Valid()
      modifies this
      ensures Valid()
      ensures sessionID in old(mPlayerMap) ==> r == Stopped && Players() == old(Players())
      ensures sessionID !in old(mPlayerMap) ==> r == Quiet && Players() == old(Players())[sessionID := NewFields()]
      ensures fresh(mPlayerMap.Values - old(mPlayerMap.Values))
    {
      var player := new Player(sessionID);
      if sessionID in mPlayerMap { return Stopped; }
      ghost var was := mPlayerMap;
      mPlayerMap := mPlayerMap[sessionID := player];
      mUserCnt := mUserCnt + 1;
      r := Quiet;
    }

    /** The index without one session. */
    twostate predicate Cleared(id: int)
      reads mSectors
    {
      && mSectors.Length0 == mSectors.Length1 == SIDE
      && forall x, y :: InWorld(x, y) ==> mSectors[x, y] == old(mSectors[x, y]) - {id}
    }

    twostate lemma DeletedValid(id: int)
      requires old(Valid()) && mPlayerMap == old(mPlayerMap) - {id} && Cleared(id)
      requires forall p :: p in old(mPlayerMap).Values ==> p.Value() == old(p.Value())
      ensures PlayersValid() && SectorsValid()
    {
      forall k | k in mPlayerMap ensures mPlayerMap[k] in old(mPlayerMap).Values { }
      assert PlayersValid();
      forall k, x, y | InWorld(x, y) ensures k in mSectors[x, y] <==> At(k, x, y) {
        assert k in old(mSectors[x, y]) <==> old(At(k, x, y));
      }
    }

    twostate lemma DeletedPlayers(id: int)
      requires mPlayerMap == old(mPlayerMap) - {id}
      requires forall p :: p in old(mPlayerMap).Values ==> p.Value() == old(p.Value())
      ensures Players() == old(Players()) - {id} && mPlayerMap.Values <= old(mPlayerMap).Values
    {
      forall k | k in mPlayerMap ensures mPlayerMap[k] in old(mPlayerMap).Values { }
    }

    method ChatPlayerDelete(sessionID: int) returns (r: Reply)
      requires Valid()
      modifies this, mSectors
      ensures Valid()
      ensures sessionID !in old(mPlayerMap) ==> r == Stopped && Players() == old(Players())
      ensures sessionID in old(mPlayerMap) ==> r == Quiet && Players() == old(Players()) - {sessionID}
      ensures mPlayerMap.Values <= old(mPlayerMap.Values)
    {
      if sessionID !in mPlayerMap { return Stopped; }
      var player := mPlayerMap[sessionID];
      if player.bAuth {
        var x, y := player.sectorX, player.sectorY;
        assert At(sessionID, x, y);
        assert sessionID in mSectors[x, y];
        mSectors[x, y] := mSectors[x, y] - {sessionID};
      }
      assert Cleared(sessionID);
      RemoveOne(mPlayerMap, sessionID);
      mPlayerMap := mPlayerMap - {sessionID};
      mUserCnt := mUserCnt - 1;
      DeletedValid(sessionID);
      DeletedPlayers(sessionID);
      hide PlayersValid, SectorsValid, Players;
      r := Quiet;
    }

    ghost predicate Known(player: Player)
      reads this
    {
      player.SessionID in mPlayerMap && mPlayerMap[player.SessionID] == player
    }

    ghost predicate Unindexed(id: int)
      requires mSectors.Length0 == mSectors.Length1 == SIDE
      reads mSectors
    {
      forall x, y :: InWorld(x, y) ==> id !in mSectors[x, y]
    }

    /** A player is in the map under its own session only, so changing it changes nobody else. */
    twostate lemma OnlyOne(player: Player)
      requires old(PlayersValid()) && old(Known(player)) && mPlayerMap == old(mPlayerMap)
      requires forall p :: p in mPlayerMap.Values && p != player ==> p.Value() == old(p.Value())
      ensures Players() == old(Players())[player.SessionID := player.Value()]
    {
      forall id | id in mPlayerMap && id != player.SessionID
        ensures Players()[id] == old(Players())[id]
      {
        assert mPlayerMap[id] in mPlayerMap.Values && mPlayerMap[id] != player;
      }
    }

    /** The index with one session in the sector that its player names, and in no other. */
    twostate predicate Placed(player: Player)
      reads player, mSectors
    {
      && mSectors.Length0 == mSectors.Length1 == SIDE
      && forall x, y :: InWorld(x, y) ==>
           mSectors[x, y] == if (x, y) == (player.sectorX, player.sectorY)
                             then old(mSectors[x, y])[player.SessionID := player]
                             else old(mSectors[x, y]) - {player.SessionID}
    }

    twostate lemma PlacedValid(player: Player)
      requires old(PlayersValid()) && old(SectorsValid()) && old(Known(player)) && mPlayerMap == old(mPlayerMap)
      requires InWorld(player.sectorX, player.sectorY) && player.bAuth && Placed(player)
      requires forall p :: p in mPlayerMap.Values && p != player ==> p.Value() == old(p.Value())
      ensures PlayersValid() && SectorsValid()
    {
      forall k | k in mPlayerMap && k != player.SessionID
        ensures mPlayerMap[k] in mPlayerMap.Values && mPlayerMap[k] != player
      {
      }
      assert PlayersValid();
      forall k, x, y | InWorld(x, y) ensures k in mSectors[x, y] <==> At(k, x, y) {
        assert k in old(mSectors[x, y]) <==> old(At(k, x, y));
      }
    }

    method LoginProc(player: Player, accountNo: int, redis: Option<(seq<int>, int)>, rand: int) returns (r: Reply)
      requires Valid() && Known(player)
      modifies player
      ensures Valid()
      ensures r == match redis case None => Disconnected
                               case Some(d) => if |d.0| != 20 then Stopped else LoginSent(rand)
      ensures Players() == if r != LoginSent(rand) then old(Players())
                           else old(Players())[player.SessionID := old(player.Value()).(
                             token := redis.value.0, key := redis.value.1, seqNumber := rand, accountNo := accountNo)]
    {
      if redis.None? { return Disconnected; }
      if |redis.value.0| != TOKEN_LEN { return Stopped; }
      player.SessionFK := redis.value.1;
      player.tokenKey := redis.value.0;
      player.SeqNumber := rand;
      player.accountNo := accountNo;
      OnlyOne(player);
      r := LoginSent(rand);
    }

    /** The last lines of authProc; the assertion that the player is not in the sector yet holds. */
    method EnterSector(player: Player, x: int, y: int)
      requires Valid() && Known(player) && !player.bAuth && InWorld(x, y)
      modifies mSectors, player
      ensures Valid()
      ensures Players() == old(Players())[player.SessionID := old(player.Value()).(x := x, y := y, auth := true)]
    {
      assert Unindexed(player.SessionID);
      player.sectorX := x;
      player.sectorY := y;
      player.bAuth := true;
      assert player.SessionID !in mSectors[x, y];
      mSectors[x, y] := mSectors[x, y][player.SessionID := player];
      assert Placed(player);
      PlacedValid(player);
      OnlyOne(player);
      hide PlayersValid, SectorsValid, Players;
    }

    /** The assertion that a player sends this packet only once fails exactly if it does not; the
        assertion that the player is in no sector yet never fails. */
    method AuthProc(player: Player, nickname: seq<int>, token: seq<int>, randX: int, randY: int) returns (r: Reply)
      requires Valid() && Known(player) && InWorld(randX, randY)
      modifies mSectors, player
      ensures Valid()
      ensures r == if old(player.bAuth) then Stopped
                   else if token != old(player.tokenKey) then Disconnected
                   else AuthSent(randX, randY)
      ensures Players() == if r == Stopped then old(Players())
                           else if r == Disconnected then
                             old(Players())[player.SessionID := old(player.Value()).(nickname := nickname)]
                           else old(Players())[player.SessionID := old(player.Value()).(
                             nickname := nickname, x := randX, y := randY, auth := true)]
    {
      if player.bAuth { return Stopped; }
      player.nickname := nickname;
      OnlyOne(player);
      if token != player.tokenKey {
        return Disconnected;
      }
      EnterSector(player, randX, randY);
      r := AuthSent(randX, randY);
    }

    /** Neither of its assertions fails: the player is in the sector that it leaves, and not in the
        one that it enters. (The two branches of the source differ in the order of two locks that
        are commented out.) */
    method MoveSector(sessionID: int, beforeX: int, beforeY: int, x: int, y: int)
      requires Valid() && InWorld(x, y) && InWorld(beforeX, beforeY) && At(sessionID, beforeX, beforeY)
      requires (beforeX, beforeY) != (x, y)
      modifies mSectors, mPlayerMap[sessionID]
      ensures Valid()
      ensures Players() == old(Players())[sessionID := old(Players())[sessionID].(x := x, y := y)]
    {
      assert sessionID in mSectors[beforeX, beforeY];
      var player := mSectors[beforeX, beforeY][sessionID];
      mSectors[beforeX, beforeY] := mSectors[beforeX, beforeY] - {sessionID};
      assert Unindexed(sessionID);
      assert sessionID !in mSectors[x, y];
      mSectors[x, y] := mSectors[x, y][sessionID := player];
      player.sectorX := x;
      player.sectorY := y;
      assert Placed(player);
      PlacedValid(player);
      OnlyOne(player);
      hide PlayersValid, SectorsValid, Players;
    }

    method MoveSectorProc(player: Player, x: int, y: int) returns (r: Reply)
      requires Valid() && Known(player)
      modifies mSectors, player
      ensures Valid()
      ensures r == Quiet <==>
                old(player.bAuth) && InWorld(x, y) && (x, y) != (old(player.sectorX), old(player.sectorY))
      ensures r == Quiet || r == Disconnected
      ensures Players() == if r == Quiet then old(Players())[player.SessionID := old(player.Value()).(x := x, y := y)]
                           else old(Players())
    {
      if player.bAuth == false { return Disconnected; }
      assert At(player.SessionID, player.sectorX, player.sectorY);
      if 0 > x || 50 <= x { return Disconnected; }
      else if 0 > y || 50 <= y { return Disconnected; }
      else if x == player.sectorX && y == player.sectorY { return Disconnected; }
      else {
        MoveSector(player.SessionID, player.sectorX, player.sectorY, x, y);
        r := Quiet;
      }
    }

    /** The cells that exist around a place, each once. */
    static method Around(x: int, y: int) returns (pos: seq<(int, int)>)
      requires InWorld(x, y)
      ensures forall rx, ry :: (rx, ry) in pos <==> InWorld(rx, ry) && Near(x, y, rx, ry)
      ensures forall i, j :: 0 <= i < j < |pos| ==> pos[i] != pos[j]
    {
      var dx := [-1, -1, -1, 0, 0, 0, 1, 1, 1];
      var dy := [-1, 0, 1, -1, 0, 1, -1, 0, 1];
      pos := [];
      for loop := 0 to 9
        invariant forall rx, ry :: (rx, ry) in pos <==>
                    InWorld(rx, ry) && Near(x, y, rx, ry) && 3 * (rx - x + 1) + (ry - y + 1) < loop
        invariant forall i, j :: 0 <= i < j < |pos| ==> pos[i] != pos[j]
      {
        var rx, ry := x + dx[loop], y + dy[loop];
        assert 3 * (rx - x + 1) + (ry - y + 1) == loop;
        if rx < 0 || ry < 0 || 50 <= rx || 50 <= ry { continue; }
        assert forall i :: 0 <= i < |pos| ==> pos[i] in pos;
        pos := pos + [(rx, ry)];
      }
    }

    /** A chat goes to every authenticated player whose coordinates both differ by at most one, to
        each exactly once, and to nobody else; and whoever the index holds is authenticated. */
    method AroundLockAndSendMsg(x: int, y: int) returns (sent: seq<int>)
      requires Valid() && InWorld(x, y)
      ensures Recipients(Players(), x, y, sent)
    {
      var pos := Around(x, y);
      sent := [];
      for idx := 0 to |pos|
        invariant forall id :: id in sent <==> InCells(id, pos[..idx])
        invariant forall i, j :: 0 <= i < j < |sent| ==> sent[i] != sent[j]
      {
        assert pos[idx] in pos;
        var (rx, ry) := pos[idx];
        sent := SendToSector(rx, ry, pos[..idx], sent);
        assert pos[..idx + 1] == pos[..idx] + [(rx, ry)];
      }
      assert pos[..|pos|] == pos;
    }

    ghost predicate InCells(id: int, cells: seq<(int, int)>)
      reads this, mPlayerMap.Values
    {
      id in mPlayerMap && mPlayerMap[id].bAuth && (mPlayerMap[id].sectorX, mPlayerMap[id].sectorY) in cells
    }

    /** The players of one sector, in no particular order. */
    method SendToSector(x: int, y: int, ghost cells: seq<(int, int)>, sent0: seq<int>) returns (sent: seq<int>)
      requires Valid() && InWorld(x, y) && (x, y) !in cells
      requires forall id :: id in sent0 <==> InCells(id, cells)
      requires forall i, j :: 0 <= i < j < |sent0| ==> sent0[i] != sent0[j]
      ensures forall id :: id in sent <==> InCells(id, cells + [(x, y)])
      ensures forall i, j :: 0 <= i < j < |sent| ==> sent[i] != sent[j]
    {
      sent := sent0;
      var left: set<int> := mSectors[x, y].Keys;
      while exists id :: id in left
        invariant left <= mSectors[x, y].Keys
        invariant forall id :: id in sent <==> InCells(id, cells) || id in mSectors[x, y].Keys - left
        invariant forall i, j :: 0 <= i < j < |sent| ==> sent[i] != sent[j]
        decreases |left|
      {
        var id :| id in left;
        var player := mSectors[x, y][id];
        assert At(id, x, y);
        assert player.bAuth == true;
        assert id !in sent;
        sent := sent + [player.SessionID];
        left := left - {id};
      }
    }

    method ChatMessageProc(player: Player, messageLen: int) returns (r: Reply)
      requires Valid() && Known(player)
      ensures r.ChatSent? <==> player.bAuth && 0 < messageLen <= 800
      ensures r.ChatSent? || r == Disconnected
      ensures r.ChatSent? ==> Recipients(Players(), player.sectorX, player.sectorY, r.to)
    {
      if player.bAuth == false { return Disconnected; }
      if MSG_MAX_LEN < messageLen || messageLen <= 0 { return Disconnected; }
      var sent := AroundLockAndSendMsg(player.sectorX, player.sectorY);
      r := ChatSent(sent);
    }

    /** The packet's player, if it has one; the sequence number is counted up also when it is wrong. */
    method Admit(sessionID: int, seqNumber: int) returns (player: Player?, expected: bool)
      requires Valid()
      modifies mPlayerMap.Values
      ensures Valid()
      ensures sessionID !in mPlayerMap ==> player == null && Players() == old(Players())
      ensures sessionID in mPlayerMap ==>
                && player == mPlayerMap[sessionID] && player.SessionID == sessionID
                && expected == (seqNumber == old(player.SeqNumber))
                && Players() == old(Players())[sessionID :=
                                                 old(player.Value()).(seqNumber := Next32(old(player.SeqNumber)))]
      ensures player != null ==>
                player.SeqNumber == if old(player.SeqNumber) == 0x7fff_ffff then -0x8000_0000 else old(player.SeqNumber) + 1
    {
      if sessionID !in mPlayerMap { return null, false; }
      player := mPlayerMap[sessionID];
      expected := seqNumber == player.SeqNumber;
      player.SeqNumber := Next32(player.SeqNumber);
      OnlyOne(player);
    }

    method PacketProc(e: Event) returns (r: Reply)
      requires Valid() && RandInWorld(e.packet)
      modifies this, mSectors, mPlayerMap.Values
      ensures Valid()
      ensures Players() == After(old(Players()), e.id, e.packet, e.seqNumber)
      ensures Answers(old(Players()), e, r)
      ensures fresh(mPlayerMap.Values - old(mPlayerMap.Values))
    {
      hide SectorsValid, PlayersValid, ExpectedAnswers, Changed;
      if e.packet.PlayerAlloc? {
        r := ChatPlayerAlloc(e.id);
        return;
      }
      if e.packet.PlayerDelete? {
        r := ChatPlayerDelete(e.id);
        return;
      }
      var player, expected := Admit(e.id, e.seqNumber);
      if player == null { return Dropped; }
      if !expected { return Disconnected; }
      ghost var counted := Players();
      r := Dispatch(player, e.packet);
      CountIsNotAsked(old(Players()), e.id, counted[e.id].seqNumber, e.packet, r);
    }

    method Dispatch(player: Player, p: Packet) returns (r: Reply)
      requires Valid() && Known(player) && RandInWorld(p) && !p.PlayerAlloc? && !p.PlayerDelete?
      modifies mSectors, player
      ensures Valid()
      ensures Players() == old(Players())[player.SessionID := Changed(old(player.Value()), p)]
      ensures ExpectedAnswers(old(Players()), player.SessionID, p, r)
    {
      hide SectorsValid, Recipients;
      match p {
        case Login(accountNo, redis, rand) => r := LoginProc(player, accountNo, redis, rand);
        case Auth(nickname, token, randX, randY) => r := AuthProc(player, nickname, token, randX, randY);
        case Move(x, y) => r := MoveSectorProc(player, x, y);
        case Chat(messageLen) => r := ChatMessageProc(player, messageLen);
        case _ => r := Stopped;
      }
    }

    /** The contents thread takes the queue in order: in every run the players are what the packets
        say, the index agrees with them, and every chat reaches exactly the players next to its
        sender at that time. */
    method ContentsThread(events: seq<Event>) returns (replies: seq<Reply>)
      requires Valid() && forall k :: 0 <= k < |events| ==> RandInWorld(events[k].packet)
      modifies this, mSectors, mPlayerMap.Values
      ensures Valid() && Players() == Final(old(Players()), events)
      ensures |replies| == |events|
      ensures forall k :: 0 <= k < |events| ==> Answers(Final(old(Players()), events[..k]), events[k], replies[k])
    {
      hide Valid, Players, After, Answers, RandInWorld;
      ghost var v := Players();
      replies := [];
      for k := 0 to |events|
        invariant Valid() && Players() == Final(v, events[..k])
        invariant |replies| == k
        invariant forall j :: 0 <= j < k ==> Answers(Final(v, events[..j]), events[j], replies[j])
        invariant fresh(mPlayerMap.Values - old(mPlayerMap.Values))
      {
        assert events[..k + 1][..k] == events[..k];
        var r := PacketProc(events[k]);
        replies := replies + [r];
      }
      assert events[..|events|] == events;
    }
  }
}
