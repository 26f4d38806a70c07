/**
 * The backend's in-memory room registry: rooms by id, the room of each
 * player, rooms by join code, and a quick-match queue of players waiting for
 * an opponent with the same game configuration. Each room holds at most two
 * players and, once started, one Truco game driven through the engine.
 */
module Rooms {
  import opened Results
  import opened Cards
  import Engine

  type PlayerId = string
  type RoomId = string

  /** Rooms idle longer than this (in ms) may be swept. */
  const CleanupTimeout: int := 5 * 60 * 1000
  /** Queue entries older than this (in ms) are dropped. */
  const QueueTimeout: int := 2 * 60 * 1000
  /** The lobby lists at most this many rooms. */
  const MaxListed: nat := 20

  datatype Status = Waiting | Playing | Ended

  /** Times are milliseconds on the server clock. */
  datatype Player = Player(id: PlayerId, name: string, connected: bool, lastSeen: int)

  datatype Room = Room(
    id: RoomId,
    code: string,
    players: seq<Player>,
    status: Status,
    game: Option<Engine.GameState>,
    createdAt: int,
    lastActivity: int,
    config: Engine.GameConfig)

  datatype QueueEntry = QueueEntry(playerId: PlayerId, playerName: string, config: Engine.GameConfig, timestamp: int)

  /** One line of the lobby listing. */
  datatype WaitingRoom = WaitingRoom(id: RoomId, code: string, playerCount: nat, createdAt: int, config: Engine.GameConfig)

  datatype RoomError =
    | RoomNotFound
    | RoomFull
    | RoomCodeNotFound
    | NeedTwoPlayers
    | GameAlreadyStarted
    | GameNotFound
    | EngineRejected(error: Engine.EngineError)

  // ---------------------------------------------------------------------
  // Codes

  function UpperChar(c: char): char {
    if 'a' <= c <= 'z' then (c as int - 32) as char else c
  }

  /** `toUpperCase` on the ASCII letters; every other character is kept. */
  function AsciiUpper(s: string): (u: string)
    ensures |u| == |s|
  {
    seq(|s|, i requires 0 <= i < |s| => UpperChar(s[i]))
  }

  /** Upper-casing twice is upper-casing once, so a code the registry stored
      (an upper-cased draw) is found again whatever case it is typed in. */
  lemma UpperIdempotent(s: string)
    ensures AsciiUpper(AsciiUpper(s)) == AsciiUpper(s)
  {
    var u := AsciiUpper(s);
    forall i | 0 <= i < |s| ensures AsciiUpper(u)[i] == u[i] {
      assert u[i] == UpperChar(s[i]);
    }
  }

  /** Upper-casing leaves no lower-case ASCII letter behind. */
  lemma UpperHasNoLowerCase(s: string)
    ensures forall i :: 0 <= i < |s| ==> !('a' <= AsciiUpper(s)[i] <= 'z')
  {
  }

  // ---------------------------------------------------------------------
  // Players

  /** Index of the first player with id `p`, or -1 (`players.find`). */
  function FindPlayer(ps: seq<Player>, p: PlayerId): (k: int)
    ensures -1 <= k < |ps|
    ensures k >= 0 ==> ps[k].id == p && forall i :: 0 <= i < k ==> ps[i].id != p
    ensures k == -1 ==> forall i :: 0 <= i < |ps| ==> ps[i].id != p
  {
    if ps == [] then -1
    else if ps[0].id == p then 0
    else
      var k := FindPlayer(ps[1..], p);
      if k == -1 then -1 else k + 1
  }

  /** With distinct seats, `find` returns the one seat holding the player. */
  lemma FindDistinct(ps: seq<Player>, p: PlayerId, k: nat)
    requires DistinctPlayers(ps) && k < |ps| && ps[k].id == p
    ensures FindPlayer(ps, p) == k
  {
    var j := FindPlayer(ps, p);
    assert j >= 0 && ps[j].id == ps[k].id;
  }

  predicate Seated(ps: seq<Player>, p: PlayerId) {
    FindPlayer(ps, p) >= 0
  }

  /** No two seats hold the same player. */
  predicate DistinctPlayers(ps: seq<Player>) {
    forall i, j :: 0 <= i < j < |ps| ==> ps[i].id != ps[j].id
  }

  predicate AllDisconnected(ps: seq<Player>) {
    forall i :: 0 <= i < |ps| ==> !ps[i].connected
  }

  function ConnectedCount(ps: seq<Player>): (n: nat)
    ensures n <= |ps|
    ensures n == 0 <==> AllDisconnected(ps)
  {
    if ps == [] then 0
    else (if ps[0].connected then 1 else 0) + ConnectedCount(ps[1..])
  }

  function PlayerIds(ps: seq<Player>): (ids: seq<PlayerId>)
    ensures |ids| == |ps|
  {
    seq(|ps|, i requires 0 <= i < |ps| => ps[i].id)
  }

  /** The ids of the players, as a set. */
  function IdSet(ps: seq<Player>): set<PlayerId> {
    set i | 0 <= i < |ps| :: ps[i].id
  }

  lemma SeatedInIdSet(ps: seq<Player>, p: PlayerId)
    ensures Seated(ps, p) <==> p in IdSet(ps)
  {
    if p in IdSet(ps) {
      var i :| 0 <= i < |ps| && ps[i].id == p;
    }
  }

  // ---------------------------------------------------------------------
  // Rooms

  /** The room `createRoom` builds: waiting, no game, its creator seated and connected. */
  function NewRoom(id: RoomId, code: string, playerId: PlayerId, playerName: string,
                   config: Engine.GameConfig, now: int): Room
  {
    Room(id, code, [Player(playerId, playerName, true, now)], Waiting, None, now, now, config)
  }

  /** `joinRoom` on a room with a free seat: a seated player reconnects, anyone
      else takes the next seat. */
  function Joined(room: Room, playerId: PlayerId, playerName: string, now: int): Room {
    var k := FindPlayer(room.players, playerId);
    var players :=
      if k >= 0 then room.players[k := room.players[k].(connected := true, lastSeen := now)]
      else room.players + [Player(playerId, playerName, true, now)];
    room.(players := players, lastActivity := now)
  }

  /** `leaveRoom`'s update of the room: the player, if seated, is marked disconnected. */
  function Departed(room: Room, playerId: PlayerId, now: int): Room {
    var k := FindPlayer(room.players, playerId);
    var players :=
      if k >= 0 then room.players[k := room.players[k].(connected := false, lastSeen := now)]
      else room.players;
    room.(players := players, lastActivity := now)
  }

  /** A waiting room nobody is connected to. */
  predicate Abandoned(room: Room) {
    room.status == Waiting && AllDisconnected(room.players)
  }

  /** What `cleanup` sweeps: idle for more than the timeout, and either over or abandoned. */
  predicate Stale(room: Room, now: int) {
    now - room.lastActivity > CleanupTimeout && (room.status == Ended || Abandoned(room))
  }

  /** A room after a move of its game: the game is replaced, and the room is
      over once the game has a winner. */
  function AfterMove(room: Room, game: Engine.GameState, now: int): Room {
    room.(game := Some(game), lastActivity := now,
          status := if game.winnerId.Some? then Ended else room.status)
  }

  /** Joining a room with a free seat: the player ends up seated and
      connected; a seated player keeps the same seats (only their connection
      and last-seen time change), anyone else is appended; at most two seats
      either way when there was a free one. */
  lemma {:induction false} JoinSeats(room: Room, playerId: PlayerId, playerName: string, now: int)
    requires |room.players| < 2 && DistinctPlayers(room.players)
    ensures var r := Joined(room, playerId, playerName, now);
      && |r.players| <= 2 && DistinctPlayers(r.players)
      && Seated(r.players, playerId) && r.players[FindPlayer(r.players, playerId)].connected
      && (Seated(room.players, playerId) ==> PlayerIds(r.players) == PlayerIds(room.players))
      && (!Seated(room.players, playerId) ==> r.players == room.players + [Player(playerId, playerName, true, now)])
      && r.id == room.id && r.code == room.code && r.status == room.status && r.game == room.game
      && r.lastActivity == now
  {
    var r := Joined(room, playerId, playerName, now);
    var k := FindPlayer(room.players, playerId);
    if k >= 0 {
      assert PlayerIds(r.players) == PlayerIds(room.players);
      assert r.players[k].id == playerId;
      FindDistinct(r.players, playerId, k);
    } else {
      var n := |room.players|;
      assert r.players[n].id == playerId;
      FindDistinct(r.players, playerId, n);
    }
  }

  /** Joining keeps every seat, so every player of the room is still in it. */
  lemma JoinedKeepsSeats(room: Room, playerId: PlayerId, playerName: string, now: int)
    ensures IdSet(room.players) <= IdSet(Joined(room, playerId, playerName, now).players)
  {
    var r := Joined(room, playerId, playerName, now);
    forall p | p in IdSet(room.players) ensures p in IdSet(r.players) {
      var i :| 0 <= i < |room.players| && room.players[i].id == p;
      assert r.players[i].id == p;
    }
  }

  /** Leaving marks the departing player disconnected and changes no seat. */
  lemma DepartSeats(room: Room, playerId: PlayerId, now: int)
    requires Seated(room.players, playerId)
    ensures var r := Departed(room, playerId, now);
      && PlayerIds(r.players) == PlayerIds(room.players)
      && !r.players[FindPlayer(room.players, playerId)].connected
      && (forall i :: 0 <= i < |r.players| && i != FindPlayer(room.players, playerId) ==> r.players[i] == room.players[i])
      && r.id == room.id && r.code == room.code && r.status == room.status && r.game == room.game
  {
    var r := Departed(room, playerId, now);
    assert PlayerIds(r.players) == PlayerIds(room.players);
  }

  /** A move ends the room exactly when the new game has a winner (or the room
      had already ended); nothing but the game, the activity time and the
      status changes. */
  lemma MoveEndsRoom(room: Room, game: Engine.GameState, now: int)
    ensures var r := AfterMove(room, game, now);
      && (r.status == Ended <==> game.winnerId.Some? || room.status == Ended)
      && (game.winnerId.None? ==> r.status == room.status)
      && r == room.(game := Some(game), lastActivity := now, status := r.status)
  {
  }

  // ---------------------------------------------------------------------
  // The quick-match queue (a Map keyed by player id, in insertion order)

  /** A queued entry the requester can be paired with. */
  predicate Matches(e: QueueEntry, playerId: PlayerId, config: Engine.GameConfig) {
    && e.config.maxPoints == config.maxPoints
    && e.config.withFlor == config.withFlor
    && e.playerId != playerId
  }

  /** Index of the first entry `findQuickMatch` pairs with, or -1. */
  function FirstMatch(q: seq<QueueEntry>, playerId: PlayerId, config: Engine.GameConfig): (k: int)
    ensures -1 <= k < |q|
    ensures k >= 0 ==> Matches(q[k], playerId, config) && forall i :: 0 <= i < k ==> !Matches(q[i], playerId, config)
    ensures k == -1 ==> forall i :: 0 <= i < |q| ==> !Matches(q[i], playerId, config)
  {
    if q == [] then -1
    else if Matches(q[0], playerId, config) then 0
    else
      var k := FirstMatch(q[1..], playerId, config);
      if k == -1 then -1 else k + 1
  }

  predicate DistinctKeys(q: seq<QueueEntry>) {
    forall i, j :: 0 <= i < j < |q| ==> q[i].playerId != q[j].playerId
  }

  function QueueIndex(q: seq<QueueEntry>, p: PlayerId): (k: int)
    ensures -1 <= k < |q|
    ensures k >= 0 ==> q[k].playerId == p
    ensures k == -1 ==> forall i :: 0 <= i < |q| ==> q[i].playerId != p
  {
    if q == [] then -1
    else if q[0].playerId == p then 0
    else
      var k := QueueIndex(q[1..], p);
      if k == -1 then -1 else k + 1
  }

  /** `Map.delete`: the entry keyed `p`, if any, is dropped; the rest keep their order. */
  function QueueDelete(q: seq<QueueEntry>, p: PlayerId): (r: seq<QueueEntry>)
    ensures |r| <= |q|
  {
    if q == [] then []
    else (if q[0].playerId == p then [] else [q[0]]) + QueueDelete(q[1..], p)
  }

  /** `Map.set`: an existing key keeps its place and gets the new entry; a new key goes last. */
  function QueueSet(q: seq<QueueEntry>, e: QueueEntry): seq<QueueEntry> {
    var k := QueueIndex(q, e.playerId);
    if k >= 0 then q[k := e] else q + [e]
  }

  /** The entries `cleanup` keeps: those queued at most `QueueTimeout` ago. */
  function FreshEntries(q: seq<QueueEntry>, now: int): seq<QueueEntry> {
    if q == [] then []
    else FreshEntries(q[..|q| - 1], now) + (if now - q[|q| - 1].timestamp <= QueueTimeout then [q[|q| - 1]] else [])
  }

  /** Deleting removes exactly the entries keyed `p` and keeps the others in order. */
  lemma {:induction false} QueueDeleteSpec(q: seq<QueueEntry>, p: PlayerId)
    ensures forall e :: e in QueueDelete(q, p) <==> e in q && e.playerId != p
    ensures DistinctKeys(q) ==> DistinctKeys(QueueDelete(q, p))
  {
    if q != [] {
      QueueDeleteSpec(q[1..], p);
      var r := QueueDelete(q, p);
      var rest := QueueDelete(q[1..], p);
      if DistinctKeys(q) {
        assert DistinctKeys(q[1..]) by {
          forall i, j | 0 <= i < j < |q| - 1 ensures q[1..][i].playerId != q[1..][j].playerId {
            assert q[1..][i] == q[i + 1] && q[1..][j] == q[j + 1];
          }
        }
        forall e | e in rest ensures e.playerId != q[0].playerId {
          var j :| 0 <= j < |q[1..]| && q[1..][j] == e;
          assert q[j + 1] == e;
        }
        forall i, j | 0 <= i < j < |r| ensures r[i].playerId != r[j].playerId {
          if q[0].playerId != p && i == 0 {
            assert r[j] in rest;
          } else if q[0].playerId != p {
            assert r[i] == rest[i - 1] && r[j] == rest[j - 1];
          }
        }
      }
    }
  }

  /** After `set`, the player has exactly one entry, holding the new value, and
      every other entry is as before. */
  lemma QueueSetSpec(q: seq<QueueEntry>, e: QueueEntry)
    requires DistinctKeys(q)
    ensures var r := QueueSet(q, e);
      && DistinctKeys(r)
      && e in r
      && (forall x :: x in r && x != e ==> x in q && x.playerId != e.playerId)
      && (forall x :: x in q && x.playerId != e.playerId ==> x in r)
  {
    var k := QueueIndex(q, e.playerId);
    var r := QueueSet(q, e);
    if k >= 0 {
      forall x | x in r && x != e ensures x in q && x.playerId != e.playerId {
        var i :| 0 <= i < |r| && r[i] == x;
        assert i != k && q[i] == x;
      }
      forall x | x in q && x.playerId != e.playerId ensures x in r {
        var i :| 0 <= i < |q| && q[i] == x;
        assert r[i] == x;
      }
      assert r[k] == e;
    } else {
      assert r[|q|] == e;
    }
  }

  /** The kept entries are exactly the recent ones, in their order, still one per player. */
  lemma {:induction false} FreshEntriesSpec(q: seq<QueueEntry>, now: int)
    ensures forall e :: e in FreshEntries(q, now) <==> e in q && now - e.timestamp <= QueueTimeout
    ensures DistinctKeys(q) ==> DistinctKeys(FreshEntries(q, now))
  {
    if q != [] {
      var init := q[..|q| - 1];
      var last := q[|q| - 1];
      FreshEntriesSpec(init, now);
      assert q == init + [last];
      if DistinctKeys(q) {
        assert DistinctKeys(init) by {
          forall i, j | 0 <= i < j < |init| ensures init[i].playerId != init[j].playerId {
            assert init[i] == q[i] && init[j] == q[j];
          }
        }
        var prev := FreshEntries(init, now);
        forall x | x in prev ensures x.playerId != last.playerId {
          var j :| 0 <= j < |init| && init[j] == x;
          assert q[j] == x;
        }
        var r := FreshEntries(q, now);
        forall i, j | 0 <= i < j < |r| ensures r[i].playerId != r[j].playerId {
          if j == |prev| {
            assert r[i] in prev;
          } else {
            assert r[i] == prev[i] && r[j] == prev[j];
          }
        }
      }
    }
  }

  // ---------------------------------------------------------------------
  // The lobby listing

  /** A room the lobby shows: waiting, with someone connected. */
  predicate Listed(room: Room) {
    room.status == Waiting && !AllDisconnected(room.players)
  }

  function Summary(room: Room): WaitingRoom {
    WaitingRoom(room.id, room.code, ConnectedCount(room.players), room.createdAt, room.config)
  }

  /** `filter` of the listed rooms, then `map` to their summaries. */
  function Eligible(vs: seq<Room>): seq<WaitingRoom> {
    if vs == [] then []
    else (if Listed(vs[0]) then [Summary(vs[0])] else []) + Eligible(vs[1..])
  }

  ghost predicate NewestFirst(s: seq<WaitingRoom>) {
    forall i, j :: 0 <= i < j < |s| ==> s[i].createdAt >= s[j].createdAt
  }

  /** Inserts `x` before the first entry created no later than it, so entries
      created at the same time keep their order (the sort is stable). */
  function InsertNewest(x: WaitingRoom, t: seq<WaitingRoom>): seq<WaitingRoom> {
    if t == [] || t[0].createdAt <= x.createdAt then [x] + t
    else [t[0]] + InsertNewest(x, t[1..])
  }

  /** `sort((a, b) => b.createdAt - a.createdAt)`, as an insertion sort. */
  function SortNewest(s: seq<WaitingRoom>): seq<WaitingRoom> {
    if s == [] then [] else InsertNewest(s[0], SortNewest(s[1..]))
  }

  /** The source's listing: the listed rooms' summaries, newest first, at most `MaxListed`. */
  function Listing(vs: seq<Room>): seq<WaitingRoom> {
    var sorted := SortNewest(Eligible(vs));
    if |sorted| <= MaxListed then sorted else sorted[..MaxListed]
  }

  lemma {:induction false} EligibleSpec(vs: seq<Room>)
    ensures forall w :: w in Eligible(vs) <==> exists i :: 0 <= i < |vs| && Listed(vs[i]) && w == Summary(vs[i])
  {
    if vs != [] {
      EligibleSpec(vs[1..]);
      forall w | w in Eligible(vs) ensures exists i :: 0 <= i < |vs| && Listed(vs[i]) && w == Summary(vs[i]) {
        if !(Listed(vs[0]) && w == Summary(vs[0])) {
          assert w in Eligible(vs[1..]);
          var i :| 0 <= i < |vs[1..]| && Listed(vs[1..][i]) && w == Summary(vs[1..][i]);
          assert vs[i + 1] == vs[1..][i];
        }
      }
      forall w | exists i :: 0 <= i < |vs| && Listed(vs[i]) && w == Summary(vs[i]) ensures w in Eligible(vs) {
        var i :| 0 <= i < |vs| && Listed(vs[i]) && w == Summary(vs[i]);
        if i > 0 {
          assert vs[1..][i - 1] == vs[i];
        }
      }
    }
  }

  lemma {:induction false} InsertNewestMembers(x: WaitingRoom, t: seq<WaitingRoom>)
    ensures forall y :: y in InsertNewest(x, t) <==> y == x || y in t
    ensures multiset(InsertNewest(x, t)) == multiset(t) + multiset{x}
  {
    if t != [] && t[0].createdAt > x.createdAt {
      InsertNewestMembers(x, t[1..]);
      assert t == [t[0]] + t[1..];
    }
  }

  /** The inserted entry or the old head comes first. */
  lemma {:induction false} InsertNewestHead(x: WaitingRoom, t: seq<WaitingRoom>)
    ensures |InsertNewest(x, t)| == |t| + 1
    ensures InsertNewest(x, t)[0] == x || (t != [] && InsertNewest(x, t)[0] == t[0])
  {
    if t != [] && t[0].createdAt > x.createdAt {
      InsertNewestHead(x, t[1..]);
    }
  }

  lemma NewestFirstTail(t: seq<WaitingRoom>)
    requires t != [] && NewestFirst(t)
    ensures NewestFirst(t[1..])
  {
    forall i, j | 0 <= i < j < |t| - 1 ensures t[1..][i].createdAt >= t[1..][j].createdAt {
      assert t[1..][i] == t[i + 1] && t[1..][j] == t[j + 1];
    }
  }

  lemma {:induction false} InsertNewestSorted(x: WaitingRoom, t: seq<WaitingRoom>)
    requires NewestFirst(t)
    ensures NewestFirst(InsertNewest(x, t))
  {
    if t != [] && t[0].createdAt > x.createdAt {
      var rest := InsertNewest(x, t[1..]);
      NewestFirstTail(t);
      InsertNewestSorted(x, t[1..]);
      InsertNewestHead(x, t[1..]);
      assert t[0].createdAt >= rest[0].createdAt by {
        if rest[0] != x {
          assert rest[0] == t[1];
        }
      }
      var r := [t[0]] + rest;
      forall i, j | 0 <= i < j < |r| ensures r[i].createdAt >= r[j].createdAt {
        assert r[j] == rest[j - 1];
        if i > 0 {
          assert r[i] == rest[i - 1];
        } else if j > 1 {
          assert rest[0].createdAt >= rest[j - 1].createdAt;
        }
      }
    }
  }

  /** The sort orders newest first and keeps every entry. */
  lemma {:induction false} SortNewestSpec(s: seq<WaitingRoom>)
    ensures NewestFirst(SortNewest(s))
    ensures multiset(SortNewest(s)) == multiset(s)
    ensures forall y :: y in SortNewest(s) <==> y in s
  {
    if s != [] {
      SortNewestSpec(s[1..]);
      InsertNewestSorted(s[0], SortNewest(s[1..]));
      InsertNewestMembers(s[0], SortNewest(s[1..]));
      assert s == [s[0]] + s[1..];
    }
  }

  /** The lobby shows at most `MaxListed` entries, newest first, each the summary of a listed room. */
  lemma ListingSound(vs: seq<Room>)
    ensures |Listing(vs)| <= MaxListed
    ensures NewestFirst(Listing(vs))
    ensures forall w :: w in Listing(vs) ==> exists k :: 0 <= k < |vs| && Listed(vs[k]) && w == Summary(vs[k])
  {
    var e := Eligible(vs);
    var sorted := SortNewest(e);
    var l := Listing(vs);
    EligibleSpec(vs);
    SortNewestSpec(e);
    forall w | w in l ensures w in e {
      var i :| 0 <= i < |l| && l[i] == w;
      assert l[i] == sorted[i];
    }
  }

  /** A listed room is left out only when the listing is full of rooms created no earlier than it. */
  lemma ListingComplete(vs: seq<Room>, k: int)
    requires 0 <= k < |vs| && Listed(vs[k])
    requires Summary(vs[k]) !in Listing(vs)
    ensures |Listing(vs)| == MaxListed
    ensures forall i :: 0 <= i < MaxListed ==> Listing(vs)[i].createdAt >= vs[k].createdAt
  {
    var e := Eligible(vs);
    var sorted := SortNewest(e);
    var l := Listing(vs);
    var w := Summary(vs[k]);
    EligibleSpec(vs);
    SortNewestSpec(e);
    assert w in sorted;
    var j :| 0 <= j < |sorted| && sorted[j] == w;
    assert |sorted| > MaxListed;
    assert j >= MaxListed;
    forall i | 0 <= i < MaxListed ensures l[i].createdAt >= vs[k].createdAt {
      assert l[i] == sorted[i];
    }
  }

  /** A listed room shows one or two connected players when it has at most two seats. */
  lemma SummaryCount(room: Room)
    requires Listed(room) && |room.players| <= 2
    ensures 1 <= Summary(room).playerCount <= 2
  {
  }

  // ---------------------------------------------------------------------
  // The registry's invariant

  /** A stored room: keyed by its own id, at most two distinct players, a
      game exactly once it has left the waiting state, and that game sound. */
  ghost predicate RoomOk(id: RoomId, room: Room) {
    && room.id == id
    && |room.players| <= 2 && DistinctPlayers(room.players)
    && (room.status == Waiting <==> room.game.None?)
    && (room.game.Some? ==> Engine.Valid(room.game.value))
  }

  /**
   * The three maps agree: codes and rooms correspond one to one, and a
   * player's room is a stored room the player has a seat in.
   */
  ghost predicate Consistent(rooms: map<RoomId, Room>, playerRooms: map<PlayerId, RoomId>, roomCodes: map<string, RoomId>) {
    && (forall id :: id in rooms ==> RoomOk(id, rooms[id]))
    && (forall id :: id in rooms ==> rooms[id].code in roomCodes && roomCodes[rooms[id].code] == id)
    && (forall c :: c in roomCodes ==> roomCodes[c] in rooms && rooms[roomCodes[c]].code == c)
    && (forall p :: p in playerRooms ==> playerRooms[p] in rooms && p in IdSet(rooms[playerRooms[p]].players))
  }

  /** Storing a new room under fresh id and code keeps the maps consistent. */
  lemma AddRoom(rooms: map<RoomId, Room>, playerRooms: map<PlayerId, RoomId>, roomCodes: map<string, RoomId>, room: Room)
    requires Consistent(rooms, playerRooms, roomCodes)
    requires room.id !in rooms && room.code !in roomCodes && RoomOk(room.id, room)
    ensures Consistent(rooms[room.id := room], playerRooms, roomCodes[room.code := room.id])
  {
  }

  /** Replacing a room by one with the same code that keeps every seat keeps the maps consistent. */
  lemma ReplaceRoom(rooms: map<RoomId, Room>, playerRooms: map<PlayerId, RoomId>, roomCodes: map<string, RoomId>, room: Room)
    requires Consistent(rooms, playerRooms, roomCodes)
    requires room.id in rooms && RoomOk(room.id, room) && room.code == rooms[room.id].code
    requires IdSet(rooms[room.id].players) <= IdSet(room.players)
    ensures Consistent(rooms[room.id := room], playerRooms, roomCodes)
  {
  }

  /** Pointing a player at a room they are seated in keeps the maps consistent. */
  lemma MapPlayer(rooms: map<RoomId, Room>, playerRooms: map<PlayerId, RoomId>, roomCodes: map<string, RoomId>, p: PlayerId, id: RoomId)
    requires Consistent(rooms, playerRooms, roomCodes)
    requires id in rooms && p in IdSet(rooms[id].players)
    ensures Consistent(rooms, playerRooms[p := id], roomCodes)
  {
  }

  /** Dropping a room, its code and the room of each of its players keeps the maps consistent. */
  lemma RemoveRoom(rooms: map<RoomId, Room>, playerRooms: map<PlayerId, RoomId>, roomCodes: map<string, RoomId>, id: RoomId)
    requires Consistent(rooms, playerRooms, roomCodes) && id in rooms
    ensures Consistent(rooms - {id}, playerRooms - IdSet(rooms[id].players), roomCodes - {rooms[id].code})
  {
    var rs := rooms - {id};
    var pr := playerRooms - IdSet(rooms[id].players);
    forall p | p in pr ensures pr[p] in rs && p in IdSet(rs[pr[p]].players) {
      assert pr[p] != id;
    }
  }

  // ---------------------------------------------------------------------
  // Outcomes of the registry's operations, as functions of the old state

  /** Index of the first random draw whose upper-cased form is not taken, or
      -1: what the do-while retry loops settle on. */
  function FirstFree(draws: seq<string>, used: set<string>): (k: int)
    ensures -1 <= k < |draws|
    ensures k >= 0 ==> AsciiUpper(draws[k]) !in used && forall i :: 0 <= i < k ==> AsciiUpper(draws[i]) in used
    ensures k == -1 ==> forall i :: 0 <= i < |draws| ==> AsciiUpper(draws[i]) in used
  {
    if draws == [] then -1
    else if AsciiUpper(draws[0]) !in used then 0
    else
      var k := FirstFree(draws[1..], used);
      if k == -1 then -1 else k + 1
  }

  /** `joinRoom`: the room must exist and have a free seat. */
  function JoinOutcome(rooms: map<RoomId, Room>, roomId: RoomId, playerId: PlayerId, playerName: string, now: int): (r: Result<Room, RoomError>)
    ensures r.Failure? <==> roomId !in rooms || |rooms[roomId].players| >= 2
    ensures r.Failure? ==> (r.error == RoomNotFound <==> roomId !in rooms) && r.error in {RoomNotFound, RoomFull}
  {
    if roomId !in rooms then Failure(RoomNotFound)
    else if |rooms[roomId].players| >= 2 then Failure(RoomFull)
    else Success(Joined(rooms[roomId], playerId, playerName, now))
  }

  /** `startGame`: the room must exist, hold exactly two players and still be waiting. */
  function StartOutcome(rooms: map<RoomId, Room>, roomId: RoomId, now: int, freshDeck: seq<Card>, pick: nat): (r: Result<Room, RoomError>)
    ensures r.Failure? <==> roomId !in rooms || |rooms[roomId].players| != 2 || rooms[roomId].status != Waiting
  {
    if roomId !in rooms then Failure(RoomNotFound)
    else
      var room := rooms[roomId];
      if |room.players| != 2 then Failure(NeedTwoPlayers)
      else if room.status != Waiting then Failure(GameAlreadyStarted)
      else
        var game := Engine.InitializeGame(PlayerIds(room.players), room.config, freshDeck, pick).value;
        Success(room.(game := Some(game), status := Playing, lastActivity := now))
  }

  /** A started room is playing a fresh game between its two players: no
      winner, both scores at zero, and nothing else about the room changed. */
  lemma StartedGame(rooms: map<RoomId, Room>, roomId: RoomId, now: int, freshDeck: seq<Card>, pick: nat)
    requires StartOutcome(rooms, roomId, now, freshDeck, pick).Success?
    ensures var r := StartOutcome(rooms, roomId, now, freshDeck, pick).value;
      && r.status == Playing && r.game.Some?
      && r.game.value.winnerId.None?
      && r.game.value.scores.Keys == IdSet(rooms[roomId].players)
      && (forall p :: p in r.game.value.scores ==> r.game.value.scores[p] == 0)
      && r == rooms[roomId].(game := r.game, status := Playing, lastActivity := now)
  {
    var ps := rooms[roomId].players;
    assert PlayerIds(ps)[0] == ps[0].id && PlayerIds(ps)[1] == ps[1].id;
    assert IdSet(ps) == {ps[0].id, ps[1].id};
  }

  /** A move the engine refused leaves the room as it was and reports why;
      an accepted one is applied by `AfterMove`. */
  function Moved(room: Room, outcome: Result<Engine.GameState, Engine.EngineError>, now: int): (r: Result<Room, RoomError>)
    ensures r.Failure? <==> outcome.Failure?
    ensures r.Failure? ==> r.error == EngineRejected(outcome.error)
    ensures r.Success? ==> r.value.game == Some(outcome.value) && r.value.id == room.id && r.value.players == room.players
  {
    match outcome
    case Failure(e) => Failure(EngineRejected(e))
    case Success(g) => Success(AfterMove(room, g, now))
  }

  /** A call (envido or flor) replaces the game and never ends the room. */
  function Called(room: Room, outcome: Result<Engine.GameState, Engine.EngineError>, now: int): (r: Result<Room, RoomError>)
    ensures r.Failure? <==> outcome.Failure?
    ensures r.Failure? ==> r.error == EngineRejected(outcome.error)
    ensures r.Success? ==> r.value == room.(game := Some(outcome.value), lastActivity := now)
  {
    match outcome
    case Failure(e) => Failure(EngineRejected(e))
    case Success(g) => Success(room.(game := Some(g), lastActivity := now))
  }

  /** A quick match seats the queued player first and the requester second,
      both connected, in a fresh waiting room. */
  lemma MatchSeatsBoth(id: RoomId, code: string, queued: QueueEntry, playerId: PlayerId, playerName: string,
                       config: Engine.GameConfig, now: int)
    requires queued.playerId != playerId
    ensures var r := Joined(NewRoom(id, code, queued.playerId, queued.playerName, config, now), playerId, playerName, now);
      && r.players == [Player(queued.playerId, queued.playerName, true, now), Player(playerId, playerName, true, now)]
      && r.status == Waiting && r.game.None? && r.id == id && r.code == code && r.config == config
  {
  }

  /** Leaving changes no seat: the same players, still distinct. */
  lemma DepartedKeepsSeats(room: Room, playerId: PlayerId, now: int)
    ensures var r := Departed(room, playerId, now);
      && |r.players| == |room.players|
      && (forall i :: 0 <= i < |r.players| ==> r.players[i].id == room.players[i].id)
      && IdSet(r.players) == IdSet(room.players)
      && (DistinctPlayers(room.players) ==> DistinctPlayers(r.players))
  {
    var r := Departed(room, playerId, now);
    assert forall i :: 0 <= i < |r.players| ==> r.players[i].id == room.players[i].id;
  }

  lemma IdSetSnoc(ps: seq<Player>, i: nat)
    requires i < |ps|
    ensures IdSet(ps[..i + 1]) == IdSet(ps[..i]) + {ps[i].id}
  {
    assert ps[..i + 1][i] == ps[i];
    forall p | p in IdSet(ps[..i + 1]) ensures p in IdSet(ps[..i]) + {ps[i].id} {
      var j :| 0 <= j < i + 1 && ps[..i + 1][j].id == p;
      if j < i {
        assert ps[..i][j] == ps[j];
      }
    }
    forall p | p in IdSet(ps[..i]) ensures p in IdSet(ps[..i + 1]) {
      var j :| 0 <= j < i && ps[..i][j].id == p;
      assert ps[..i + 1][j] == ps[j];
    }
  }

  /** The ids of the rooms `cleanup` sweeps at time `now`. */
  ghost function StaleIds(rooms: map<RoomId, Room>, now: int): set<RoomId> {
    set id | id in rooms && Stale(rooms[id], now)
  }

  ghost function CodesOf(rooms: map<RoomId, Room>, ids: set<RoomId>): set<string> {
    set id | id in ids && id in rooms :: rooms[id].code
  }

  /** Everyone seated in one of the rooms `ids`. */
  ghost function Occupants(rooms: map<RoomId, Room>, ids: set<RoomId>): set<PlayerId> {
    set id, p | id in ids && id in rooms && p in IdSet(rooms[id].players) :: p
  }

  lemma SweepOne(rooms: map<RoomId, Room>, ids: set<RoomId>, id: RoomId)
    requires id in rooms
    ensures CodesOf(rooms, ids + {id}) == CodesOf(rooms, ids) + {rooms[id].code}
    ensures Occupants(rooms, ids + {id}) == Occupants(rooms, ids) + IdSet(rooms[id].players)
  {
  }

  lemma MinusMinus<K, V>(m: map<K, V>, a: set<K>, b: set<K>)
    ensures (m - a) - b == m - (a + b)
  {
  }

  /** One stale room swept: the swept set grows by it, and the maps shrink accordingly. */
  lemma SweepStep(rooms: map<RoomId, Room>, playerRooms: map<PlayerId, RoomId>, roomCodes: map<string, RoomId>,
                  swept: set<RoomId>, id: RoomId)
    requires id in rooms
    ensures (rooms - swept) - {id} == rooms - (swept + {id})
    ensures (roomCodes - CodesOf(rooms, swept)) - {rooms[id].code} == roomCodes - CodesOf(rooms, swept + {id})
    ensures (playerRooms - Occupants(rooms, swept)) - IdSet(rooms[id].players) == playerRooms - Occupants(rooms, swept + {id})
  {
    SweepOne(rooms, swept, id);
    MinusMinus(rooms, swept, {id});
    MinusMinus(roomCodes, CodesOf(rooms, swept), {rooms[id].code});
    MinusMinus(playerRooms, Occupants(rooms, swept), IdSet(rooms[id].players));
  }

  /** One more queue entry looked at by `cleanup`. */
  lemma FreshStep(q: seq<QueueEntry>, i: nat, now: int)
    requires i < |q|
    ensures FreshEntries(q[..i + 1], now) ==
      FreshEntries(q[..i], now) + (if now - q[i].timestamp <= QueueTimeout then [q[i]] else [])
  {
    assert q[..i + 1][..i] == q[..i];
  }

  /** Deleting the entry right after the kept prefix. */
  lemma DropAfter(kept: seq<QueueEntry>, rest: seq<QueueEntry>)
    requires rest != []
    ensures var s := kept + rest; s[..|kept|] + s[|kept| + 1..] == kept + rest[1..]
    ensures kept + rest == (kept + [rest[0]]) + rest[1..]
  {
    var s := kept + rest;
    assert s[..|kept|] == kept;
    assert s[|kept| + 1..] == rest[1..];
  }

  /** `ks` names every room once and `vs` holds the rooms in that order: one
      possible iteration order of the map. */
  ghost predicate InSomeOrder(rooms: map<RoomId, Room>, ks: seq<RoomId>, vs: seq<Room>) {
    && |ks| == |vs|
    && (forall i, j :: 0 <= i < j < |ks| ==> ks[i] != ks[j])
    && (forall i :: 0 <= i < |ks| ==> ks[i] in rooms && vs[i] == rooms[ks[i]])
    && (forall id :: id in rooms ==> id in ks)
  }

  /** Whatever the iteration order, each lobby entry summarises a listed room. */
  lemma LobbyEntries(rooms: map<RoomId, Room>, ks: seq<RoomId>, vs: seq<Room>)
    requires InSomeOrder(rooms, ks, vs)
    ensures forall w :: w in Listing(vs) ==> exists id :: id in rooms && Listed(rooms[id]) && w == Summary(rooms[id])
  {
    ListingSound(vs);
    forall w | w in Listing(vs) ensures exists id :: id in rooms && Listed(rooms[id]) && w == Summary(rooms[id]) {
      var k :| 0 <= k < |vs| && Listed(vs[k]) && w == Summary(vs[k]);
      assert ks[k] in rooms && rooms[ks[k]] == vs[k];
    }
  }

  /** Whatever the iteration order, a listed room is missing from the lobby
      only when twenty rooms created no earlier than it fill the listing. */
  lemma LobbyComplete(rooms: map<RoomId, Room>, ks: seq<RoomId>, vs: seq<Room>, id: RoomId)
    requires InSomeOrder(rooms, ks, vs)
    requires id in rooms && Listed(rooms[id]) && Summary(rooms[id]) !in Listing(vs)
    ensures |Listing(vs)| == MaxListed
    ensures forall i :: 0 <= i < MaxListed ==> Listing(vs)[i].createdAt >= rooms[id].createdAt
  {
    var k :| 0 <= k < |ks| && ks[k] == id;
    ListingComplete(vs, k);
  }

  /** The search loop of `findQuickMatch`: the first entry that can be paired with the requester. */
  method SearchQueue(q: seq<QueueEntry>, playerId: PlayerId, config: Engine.GameConfig) returns (k: int)
    ensures k == FirstMatch(q, playerId, config)
  {
    var i := 0;
    while i < |q|
      invariant 0 <= i <= |q|
      invariant forall j :: 0 <= j < i ==> !Matches(q[j], playerId, config)
    {
      if Matches(q[i], playerId, config) {
        return i;
      }
      i := i + 1;
    }
    return -1;
  }

  /** The `forEach` that deletes each player's room entry. */
  method ForgetPlayers(playerRooms: map<PlayerId, RoomId>, players: seq<Player>) returns (remaining: map<PlayerId, RoomId>)
    ensures remaining == playerRooms - IdSet(players)
  {
    remaining := playerRooms;
    var i := 0;
    while i < |players|
      invariant 0 <= i <= |players|
      invariant remaining == playerRooms - IdSet(players[..i])
    {
      IdSetSnoc(players, i);
      remaining := remaining - {players[i].id};
      i := i + 1;
    }
    assert players[..i] == players;
  }

  /** The queue loop of `cleanup`: each entry queued more than `QueueTimeout`
      ago is deleted where it stands. */
  method KeepFresh(q: seq<QueueEntry>, now: int) returns (queue: seq<QueueEntry>)
    ensures queue == FreshEntries(q, now)
  {
    queue := q;
    var i, kept := 0, 0;
    while i < |q|
      invariant 0 <= i <= |q|
      invariant queue == FreshEntries(q[..i], now) + q[i..]
      invariant kept == |FreshEntries(q[..i], now)|
    {
      FreshStep(q, i, now);
      DropAfter(FreshEntries(q[..i], now), q[i..]);
      if now - q[i].timestamp > QueueTimeout {
        queue := queue[..kept] + queue[kept + 1..];
      } else {
        kept := kept + 1;
      }
      i := i + 1;
    }
    assert q[..i] == q;
  }

  // ---------------------------------------------------------------------
  // The registry

  class RoomManager {
    var rooms: map<RoomId, Room>
    var playerRooms: map<PlayerId, RoomId>
    var roomCodes: map<string, RoomId>
    /** The quick-match queue, one entry per player, in insertion order. */
    var quickMatchQueue: seq<QueueEntry>

    ghost predicate Valid()
      reads this
    {
      Consistent(rooms, playerRooms, roomCodes) && DistinctKeys(quickMatchQueue)
    }

    constructor()
      ensures Valid()
      ensures rooms == map[] && playerRooms == map[] && roomCodes == map[] && quickMatchQueue == []
    {
      rooms := map[];
      playerRooms := map[];
      roomCodes := map[];
      quickMatchQueue := [];
    }

    /** Draws (the source's `Math.random` strings) until an upper-cased one
        is not a room id. */
    method GenerateRoomId(draws: seq<string>) returns (roomId: RoomId)
      requires FirstFree(draws, rooms.Keys) >= 0
      ensures roomId !in rooms
      ensures roomId == AsciiUpper(draws[FirstFree(draws, rooms.Keys)])
    {
      var i := 0;
      roomId := AsciiUpper(draws[i]);
      while roomId in rooms
        invariant 0 <= i <= FirstFree(draws, rooms.Keys)
        invariant roomId == AsciiUpper(draws[i])
        decreases |draws| - i
      {
        i := i + 1;
        roomId := AsciiUpper(draws[i]);
      }
    }

    /** Draws until an upper-cased one is not a room code. */
    method GenerateRoomCode(draws: seq<string>) returns (code: string)
      requires FirstFree(draws, roomCodes.Keys) >= 0
      ensures code !in roomCodes
      ensures code == AsciiUpper(draws[FirstFree(draws, roomCodes.Keys)])
    {
      var i := 0;
      code := AsciiUpper(draws[i]);
      while code in roomCodes
        invariant 0 <= i <= FirstFree(draws, roomCodes.Keys)
        invariant code == AsciiUpper(draws[i])
        decreases |draws| - i
      {
        i := i + 1;
        code := AsciiUpper(draws[i]);
      }
    }

    /** Opens a waiting room with its creator seated, under a fresh id and a fresh code. */
    method CreateRoom(playerId: PlayerId, playerName: string, config: Engine.GameConfig,
                      idDraws: seq<string>, codeDraws: seq<string>, now: int) returns (room: Room)
      requires Valid()
      requires FirstFree(idDraws, rooms.Keys) >= 0 && FirstFree(codeDraws, roomCodes.Keys) >= 0
      modifies this
      ensures Valid()
      ensures room.id !in old(rooms) && room.code !in old(roomCodes)
      ensures room == NewRoom(room.id, room.code, playerId, playerName, config, now)
      ensures rooms == old(rooms)[room.id := room]
      ensures roomCodes == old(roomCodes)[room.code := room.id]
      ensures playerRooms == old(playerRooms)[playerId := room.id]
      ensures quickMatchQueue == old(quickMatchQueue)
    {
      var roomId := GenerateRoomId(idDraws);
      var roomCode := GenerateRoomCode(codeDraws);
      room := NewRoom(roomId, roomCode, playerId, playerName, config, now);
      AddRoom(rooms, playerRooms, roomCodes, room);
      rooms := rooms[roomId := room];
      roomCodes := roomCodes[roomCode := roomId];
      assert playerId in IdSet(room.players) by {
        assert room.players[0].id == playerId;
      }
      MapPlayer(rooms, playerRooms, roomCodes, playerId, roomId);
      playerRooms := playerRooms[playerId := roomId];
    }

    /** Seats (or reconnects) a player in a room with a free seat. */
    method JoinRoom(roomId: RoomId, playerId: PlayerId, playerName: string, now: int) returns (r: Result<Room, RoomError>)
      requires Valid()
      modifies this
      ensures Valid()
      ensures r == JoinOutcome(old(rooms), roomId, playerId, playerName, now)
      ensures r.Failure? ==> rooms == old(rooms) && playerRooms == old(playerRooms)
      ensures r.Success? ==> rooms == old(rooms)[roomId := r.value] && playerRooms == old(playerRooms)[playerId := roomId]
      ensures roomCodes == old(roomCodes) && quickMatchQueue == old(quickMatchQueue)
    {
      if roomId !in rooms {
        return Failure(RoomNotFound);
      }
      var room := rooms[roomId];
      if |room.players| >= 2 {
        return Failure(RoomFull);
      }
      room := Joined(room, playerId, playerName, now);
      JoinSeats(rooms[roomId], playerId, playerName, now);
      JoinedKeepsSeats(rooms[roomId], playerId, playerName, now);
      ReplaceRoom(rooms, playerRooms, roomCodes, room);
      rooms := rooms[roomId := room];
      SeatedInIdSet(room.players, playerId);
      MapPlayer(rooms, playerRooms, roomCodes, playerId, roomId);
      playerRooms := playerRooms[playerId := roomId];
      r := Success(room);
    }

    /** Joins the room whose code is `code` typed in any case. */
    method JoinRoomByCode(code: string, playerId: PlayerId, playerName: string, now: int) returns (r: Result<Room, RoomError>)
      requires Valid()
      modifies this
      ensures Valid()
      ensures AsciiUpper(code) !in old(roomCodes) ==> r == Failure(RoomCodeNotFound) && rooms == old(rooms) && playerRooms == old(playerRooms)
      ensures AsciiUpper(code) in old(roomCodes) ==> r == JoinOutcome(old(rooms), old(roomCodes)[AsciiUpper(code)], playerId, playerName, now)
      ensures r.Success? ==> r.value.code == AsciiUpper(code) && rooms == old(rooms)[r.value.id := r.value] && playerRooms == old(playerRooms)[playerId := r.value.id]
      ensures roomCodes == old(roomCodes) && quickMatchQueue == old(quickMatchQueue)
    {
      var key := AsciiUpper(code);
      if key !in roomCodes {
        return Failure(RoomCodeNotFound);
      }
      r := JoinRoom(roomCodes[key], playerId, playerName, now);
    }

    /** Pairs the requester with the first queued player of the same
        configuration in a new room, or queues the requester. */
    method FindQuickMatch(playerId: PlayerId, playerName: string, config: Engine.GameConfig,
                          idDraws: seq<string>, codeDraws: seq<string>, now: int) returns (r: Option<Room>)
      requires Valid()
      requires FirstFree(idDraws, rooms.Keys) >= 0 && FirstFree(codeDraws, roomCodes.Keys) >= 0
      modifies this
      ensures Valid()
      ensures FirstMatch(old(quickMatchQueue), playerId, config) == -1 ==>
        && r.None?
        && quickMatchQueue == QueueSet(old(quickMatchQueue), QueueEntry(playerId, playerName, config, now))
        && rooms == old(rooms) && playerRooms == old(playerRooms) && roomCodes == old(roomCodes)
      ensures FirstMatch(old(quickMatchQueue), playerId, config) >= 0 ==>
        var e := old(quickMatchQueue)[FirstMatch(old(quickMatchQueue), playerId, config)];
        && r.Some? && r.value.id !in old(rooms) && r.value.code !in old(roomCodes)
        && r.value == Joined(NewRoom(r.value.id, r.value.code, e.playerId, e.playerName, config, now), playerId, playerName, now)
        && rooms == old(rooms)[r.value.id := r.value]
        && roomCodes == old(roomCodes)[r.value.code := r.value.id]
        && playerRooms == old(playerRooms)[e.playerId := r.value.id][playerId := r.value.id]
        && quickMatchQueue == QueueDelete(old(quickMatchQueue), e.playerId)
    {
      var i := SearchQueue(quickMatchQueue, playerId, config);
      if i >= 0 {
        var room := MatchWith(quickMatchQueue[i], playerId, playerName, config, idDraws, codeDraws, now);
        r := Some(room);
      } else {
        var entry := QueueEntry(playerId, playerName, config, now);
        QueueSetSpec(quickMatchQueue, entry);
        quickMatchQueue := QueueSet(quickMatchQueue, entry);
        r := None;
      }
    }

    /** The match branch of `findQuickMatch`: a room for the queued player,
        joined by the requester, and the queued entry deleted. */
    method MatchWith(e: QueueEntry, playerId: PlayerId, playerName: string, config: Engine.GameConfig,
                     idDraws: seq<string>, codeDraws: seq<string>, now: int) returns (room: Room)
      requires Valid()
      requires FirstFree(idDraws, rooms.Keys) >= 0 && FirstFree(codeDraws, roomCodes.Keys) >= 0
      modifies this
      ensures Valid()
      ensures room.id !in old(rooms) && room.code !in old(roomCodes)
      ensures room == Joined(NewRoom(room.id, room.code, e.playerId, e.playerName, config, now), playerId, playerName, now)
      ensures rooms == old(rooms)[room.id := room]
      ensures roomCodes == old(roomCodes)[room.code := room.id]
      ensures playerRooms == old(playerRooms)[e.playerId := room.id][playerId := room.id]
      ensures quickMatchQueue == QueueDelete(old(quickMatchQueue), e.playerId)
    {
      var created := CreateRoom(e.playerId, e.playerName, config, idDraws, codeDraws, now);
      var joined := JoinRoom(created.id, playerId, playerName, now);
      assert joined == Success(Joined(created, playerId, playerName, now));
      room := joined.value;
      RemoveFromQuickMatchQueue(e.playerId);
    }

    method RemoveFromQuickMatchQueue(playerId: PlayerId)
      requires Valid()
      modifies this
      ensures Valid()
      ensures quickMatchQueue == QueueDelete(old(quickMatchQueue), playerId)
      ensures rooms == old(rooms) && playerRooms == old(playerRooms) && roomCodes == old(roomCodes)
    {
      QueueDeleteSpec(quickMatchQueue, playerId);
      quickMatchQueue := QueueDelete(quickMatchQueue, playerId);
    }

    /** Forgets a room, its code and the room of each of its players (the
        deletion `leaveRoom` and `cleanup` both perform). */
    method DeleteRoom(roomId: RoomId)
      requires Valid() && roomId in rooms
      modifies this
      ensures Valid()
      ensures rooms == old(rooms) - {roomId}
      ensures roomCodes == old(roomCodes) - {old(rooms)[roomId].code}
      ensures playerRooms == old(playerRooms) - IdSet(old(rooms)[roomId].players)
      ensures quickMatchQueue == old(quickMatchQueue)
    {
      var room := rooms[roomId];
      RemoveRoom(rooms, playerRooms, roomCodes, roomId);
      rooms := rooms - {roomId};
      roomCodes := roomCodes - {room.code};
      playerRooms := ForgetPlayers(playerRooms, room.players);
    }

    /** Marks the player disconnected and takes them off the queue; a waiting
        room nobody is connected to any more is deleted. */
    method LeaveRoom(playerId: PlayerId, now: int) returns (r: Option<Room>)
      requires Valid()
      modifies this
      ensures Valid()
      ensures playerId !in old(playerRooms) ==>
        && r.None? && quickMatchQueue == old(quickMatchQueue)
        && rooms == old(rooms) && playerRooms == old(playerRooms) && roomCodes == old(roomCodes)
      ensures playerId in old(playerRooms) ==>
        var id := old(playerRooms)[playerId];
        var room := Departed(old(rooms)[id], playerId, now);
        && quickMatchQueue == QueueDelete(old(quickMatchQueue), playerId)
        && (Abandoned(room) ==>
              && r.None? && rooms == old(rooms) - {id}
              && roomCodes == old(roomCodes) - {room.code}
              && playerRooms == old(playerRooms) - IdSet(room.players))
        && (!Abandoned(room) ==>
              && r == Some(room) && rooms == old(rooms)[id := room]
              && roomCodes == old(roomCodes) && playerRooms == old(playerRooms))
      ensures r.None? ==> playerId !in playerRooms
    {
      if playerId !in playerRooms {
        return None;
      }
      var roomId := playerRooms[playerId];
      var room := MarkDeparted(roomId, playerId, now);
      RemoveFromQuickMatchQueue(playerId);
      if Abandoned(room) {
        DeleteRoom(roomId);
        r := None;
      } else {
        r := Some(room);
      }
    }

    /** The player's seat in the room, if any, is marked disconnected. */
    method MarkDeparted(roomId: RoomId, playerId: PlayerId, now: int) returns (room: Room)
      requires Valid() && roomId in rooms
      modifies this
      ensures Valid()
      ensures room == Departed(old(rooms)[roomId], playerId, now)
      ensures IdSet(room.players) == IdSet(old(rooms)[roomId].players)
      ensures rooms == old(rooms)[roomId := room]
      ensures playerRooms == old(playerRooms) && roomCodes == old(roomCodes) && quickMatchQueue == old(quickMatchQueue)
    {
      room := Departed(rooms[roomId], playerId, now);
      DepartedKeepsSeats(rooms[roomId], playerId, now);
      ReplaceRoom(rooms, playerRooms, roomCodes, room);
      rooms := rooms[roomId := room];
    }

    /** Deals the first hand of a room's game between its two players. */
    method StartGame(roomId: RoomId, now: int, freshDeck: seq<Card>, pick: nat) returns (r: Result<Room, RoomError>)
      requires Valid()
      modifies this
      ensures Valid()
      ensures r == StartOutcome(old(rooms), roomId, now, freshDeck, pick)
      ensures r.Success? ==> rooms == old(rooms)[roomId := r.value]
      ensures r.Failure? ==> rooms == old(rooms)
      ensures playerRooms == old(playerRooms) && roomCodes == old(roomCodes) && quickMatchQueue == old(quickMatchQueue)
    {
      if roomId !in rooms {
        return Failure(RoomNotFound);
      }
      var room := rooms[roomId];
      if |room.players| != 2 {
        return Failure(NeedTwoPlayers);
      }
      if room.status != Waiting {
        return Failure(GameAlreadyStarted);
      }
      var playerIds := PlayerIds(room.players);
      assert playerIds[0] != playerIds[1];
      var game := Engine.InitializeGame(playerIds, room.config, freshDeck, pick).value;
      room := room.(game := Some(game), status := Playing, lastActivity := now);
      ReplaceRoom(rooms, playerRooms, roomCodes, room);
      rooms := rooms[roomId := room];
      r := Success(room);
    }

    /** Plays a card in a room's game; the room ends when the game has a winner. */
    method PlayCard(roomId: RoomId, playerId: PlayerId, cardId: string, now: int, freshDeck: seq<Card>)
      returns (r: Result<Room, RoomError>)
      requires Valid()
      modifies this
      ensures Valid()
      ensures old(roomId !in rooms || rooms[roomId].game.None?) ==> r == Failure(GameNotFound)
      ensures old(roomId in rooms && rooms[roomId].game.Some?) ==>
        r == Moved(old(rooms)[roomId], Engine.PlayOutcome(old(rooms)[roomId].game.value, playerId, cardId, freshDeck), now)
      ensures r.Success? ==> rooms == old(rooms)[roomId := r.value]
      ensures r.Failure? ==> rooms == old(rooms)
      ensures playerRooms == old(playerRooms) && roomCodes == old(roomCodes) && quickMatchQueue == old(quickMatchQueue)
    {
      if roomId !in rooms || rooms[roomId].game.None? {
        return Failure(GameNotFound);
      }
      var room := rooms[roomId];
      var outcome := Engine.PlayCard(room.game.value, playerId, cardId, freshDeck);
      if outcome.Failure? {
        return Failure(EngineRejected(outcome.error));
      }
      room := AfterMove(room, outcome.value, now);
      ReplaceRoom(rooms, playerRooms, roomCodes, room);
      rooms := rooms[roomId := room];
      r := Success(room);
    }

    /** Accepts or rejects the pending call in a room's game; the room ends
        when the game has a winner. */
    method RespondToCall(roomId: RoomId, playerId: PlayerId, accept: bool, now: int) returns (r: Result<Room, RoomError>)
      requires Valid()
      modifies this
      ensures Valid()
      ensures old(roomId !in rooms || rooms[roomId].game.None?) ==> r == Failure(GameNotFound)
      ensures old(roomId in rooms && rooms[roomId].game.Some?) ==>
        r == Moved(old(rooms)[roomId], Engine.RespondOutcome(old(rooms)[roomId].game.value, playerId, accept), now)
      ensures r.Success? ==> rooms == old(rooms)[roomId := r.value]
      ensures r.Failure? ==> rooms == old(rooms)
      ensures playerRooms == old(playerRooms) && roomCodes == old(roomCodes) && quickMatchQueue == old(quickMatchQueue)
    {
      if roomId !in rooms || rooms[roomId].game.None? {
        return Failure(GameNotFound);
      }
      var room := rooms[roomId];
      var outcome := Engine.RespondToCall(room.game.value, playerId, accept);
      if outcome.Failure? {
        return Failure(EngineRejected(outcome.error));
      }
      room := AfterMove(room, outcome.value, now);
      ReplaceRoom(rooms, playerRooms, roomCodes, room);
      rooms := rooms[roomId := room];
      r := Success(room);
    }

    method CallEnvido(roomId: RoomId, playerId: PlayerId, kind: Engine.CallType, now: int) returns (r: Result<Room, RoomError>)
      requires Valid() && Engine.IsEnvidoKind(kind)
      modifies this
      ensures Valid()
      ensures old(roomId !in rooms || rooms[roomId].game.None?) ==> r == Failure(GameNotFound)
      ensures old(roomId in rooms && rooms[roomId].game.Some?) ==>
        r == Called(old(rooms)[roomId], Engine.CallEnvido(old(rooms)[roomId].game.value, playerId, kind), now)
      ensures r.Success? ==> rooms == old(rooms)[roomId := r.value]
      ensures r.Failure? ==> rooms == old(rooms)
      ensures playerRooms == old(playerRooms) && roomCodes == old(roomCodes) && quickMatchQueue == old(quickMatchQueue)
    {
      if roomId !in rooms || rooms[roomId].game.None? {
        return Failure(GameNotFound);
      }
      var room := rooms[roomId];
      var outcome := Engine.CallEnvido(room.game.value, playerId, kind);
      if outcome.Failure? {
        return Failure(EngineRejected(outcome.error));
      }
      room := room.(game := Some(outcome.value), lastActivity := now);
      ReplaceRoom(rooms, playerRooms, roomCodes, room);
      rooms := rooms[roomId := room];
      r := Success(room);
    }

    method CallFlor(roomId: RoomId, playerId: PlayerId, now: int) returns (r: Result<Room, RoomError>)
      requires Valid()
      modifies this
      ensures Valid()
      ensures old(roomId !in rooms || rooms[roomId].game.None?) ==> r == Failure(GameNotFound)
      ensures old(roomId in rooms && rooms[roomId].game.Some?) ==>
        r == Called(old(rooms)[roomId], Engine.CallFlor(old(rooms)[roomId].game.value, playerId), now)
      ensures r.Success? ==> rooms == old(rooms)[roomId := r.value]
      ensures r.Failure? ==> rooms == old(rooms)
      ensures playerRooms == old(playerRooms) && roomCodes == old(roomCodes) && quickMatchQueue == old(quickMatchQueue)
    {
      if roomId !in rooms || rooms[roomId].game.None? {
        return Failure(GameNotFound);
      }
      var room := rooms[roomId];
      var outcome := Engine.CallFlor(room.game.value, playerId);
      if outcome.Failure? {
        return Failure(EngineRejected(outcome.error));
      }
      room := room.(game := Some(outcome.value), lastActivity := now);
      ReplaceRoom(rooms, playerRooms, roomCodes, room);
      rooms := rooms[roomId := room];
      r := Success(room);
    }

    /** Sweeps stale rooms, then drops old queue entries. */
    method Cleanup(now: int)
      requires Valid()
      modifies this
      ensures Valid()
      ensures rooms == old(rooms) - StaleIds(old(rooms), now)
      ensures roomCodes == old(roomCodes) - CodesOf(old(rooms), StaleIds(old(rooms), now))
      ensures playerRooms == old(playerRooms) - Occupants(old(rooms), StaleIds(old(rooms), now))
      ensures quickMatchQueue == FreshEntries(old(quickMatchQueue), now)
    {
      SweepRooms(now);
      FreshEntriesSpec(quickMatchQueue, now);
      quickMatchQueue := KeepFresh(quickMatchQueue, now);
    }

    /** The room loop of `cleanup`, visiting the rooms in any order. */
    method SweepRooms(now: int)
      requires Valid()
      modifies this
      ensures Valid()
      ensures rooms == old(rooms) - StaleIds(old(rooms), now)
      ensures roomCodes == old(roomCodes) - CodesOf(old(rooms), StaleIds(old(rooms), now))
      ensures playerRooms == old(playerRooms) - Occupants(old(rooms), StaleIds(old(rooms), now))
      ensures quickMatchQueue == old(quickMatchQueue)
    {
      var todo := rooms.Keys;
      ghost var swept: set<RoomId> := {};
      while todo != {}
        invariant Valid()
        invariant todo <= old(rooms).Keys
        invariant forall id :: id in swept <==> id in old(rooms) && id !in todo && Stale(old(rooms)[id], now)
        invariant rooms == old(rooms) - swept
        invariant roomCodes == old(roomCodes) - CodesOf(old(rooms), swept)
        invariant playerRooms == old(playerRooms) - Occupants(old(rooms), swept)
        invariant quickMatchQueue == old(quickMatchQueue)
        decreases |todo|
      {
        var roomId :| roomId in todo;
        var stale := SweepIfStale(roomId, now);
        if stale {
          SweepStep(old(rooms), old(playerRooms), old(roomCodes), swept, roomId);
          swept := swept + {roomId};
        }
        todo := todo - {roomId};
      }
      assert swept == StaleIds(old(rooms), now);
    }

    /** One visit of the room loop: the room is deleted when it is stale. */
    method SweepIfStale(roomId: RoomId, now: int) returns (stale: bool)
      requires Valid() && roomId in rooms
      modifies this
      ensures Valid()
      ensures stale == Stale(old(rooms)[roomId], now)
      ensures stale ==>
        && rooms == old(rooms) - {roomId}
        && roomCodes == old(roomCodes) - {old(rooms)[roomId].code}
        && playerRooms == old(playerRooms) - IdSet(old(rooms)[roomId].players)
      ensures !stale ==> rooms == old(rooms) && roomCodes == old(roomCodes) && playerRooms == old(playerRooms)
      ensures quickMatchQueue == old(quickMatchQueue)
    {
      var room := rooms[roomId];
      stale := false;
      if now - room.lastActivity > CleanupTimeout {
        if room.status == Ended || (room.status == Waiting && AllDisconnected(room.players)) {
          DeleteRoom(roomId);
          stale := true;
        }
      }
    }

    /** The lobby: the listed rooms' summaries, newest first, at most twenty,
        gathered in whatever order the map yields its rooms. */
    method GetWaitingRooms() returns (list: seq<WaitingRoom>, ghost ks: seq<RoomId>, ghost vs: seq<Room>)
      ensures InSomeOrder(rooms, ks, vs)
      ensures list == Listing(vs)
    {
      var todo := rooms.Keys;
      var values: seq<Room> := [];
      ks := [];
      while todo != {}
        invariant todo <= rooms.Keys
        invariant |ks| == |values|
        invariant forall i, j :: 0 <= i < j < |ks| ==> ks[i] != ks[j]
        invariant forall i :: 0 <= i < |ks| ==> ks[i] in rooms && ks[i] !in todo && values[i] == rooms[ks[i]]
        invariant forall id :: id in rooms ==> id in todo || id in ks
        decreases |todo|
      {
        var id :| id in todo;
        ks := ks + [id];
        values := values + [rooms[id]];
        todo := todo - {id};
      }
      vs := values;
      list := Listing(values);
    }
  }
}
