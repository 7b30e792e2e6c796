/** The roster rules of the room handlers: the settings `handleCreateRoom`
    derives from its request, who `handleJoinRoom` admits and where,
    what `handleDisconnect` does to the roster and the room, and how
    `restartGame` resets the players. */
module Lifecycle {
  import opened Wrappers
  import opened Geometry
  import opened Entities

  const MaxPlayersPerRoom: int := 4
  const DefaultBots: int := 8
  const MaxBots: int := 20
  const PlayerSpeed: real := 4.0

  // ---------------------------------------------------------------------
  // Room ids

  /** Upper-casing of one character; only the ASCII letters a-z change. */
  function UpperChar(c: char): char {
    if 'a' <= c <= 'z' then (c as int - 32) as char else c
  }

  /** `roomId.toUpperCase()` */
  function ToUpper(s: string): (r: string)
    ensures |r| == |s|
    ensures forall i :: 0 <= i < |s| ==> r[i] == UpperChar(s[i])
  {
    if s == [] then [] else [UpperChar(s[0])] + ToUpper(s[1..])
  }

  /** The ids `generateRoomId` produces: six capital letters. */
  predicate IsRoomId(id: string) {
    |id| == 6 && forall i :: 0 <= i < |id| ==> 'A' <= id[i] <= 'Z'
  }

  /** A generated id is its own upper-case form, so joining with it, or with
      any of its lower-case spellings, finds the room. */
  lemma RoomIdMatchesAnySpelling(id: string, typed: string)
    requires IsRoomId(id)
    requires |typed| == |id|
    requires forall i :: 0 <= i < |id| ==> typed[i] == id[i] || typed[i] == (id[i] as int + 32) as char
    ensures ToUpper(typed) == id
  {
    assert forall i :: 0 <= i < |id| ==> ToUpper(typed)[i] == id[i];
  }

  /** Upper-casing twice is upper-casing once. */
  lemma ToUpperIdempotent(s: string)
    ensures ToUpper(ToUpper(s)) == ToUpper(s)
  {
    assert forall i :: 0 <= i < |s| ==> ToUpper(ToUpper(s))[i] == ToUpper(s)[i];
  }

  // ---------------------------------------------------------------------
  // Room settings

  /** What `parseInt(numBots)` gives: the request had no `numBots` (the
      default 8 is used), an integer, or NaN. */
  datatype BotCountArg = Absent | Parsed(n: int) | NotANumber

  /** `Math.min(Math.max(parseInt(numBots) || 8, 0), 20)`: a falsy parse (0
      or NaN) becomes 8, then the count is clamped into [0, 20]. */
  function BotCount(arg: BotCountArg): (n: int)
    ensures 0 <= n <= MaxBots
    ensures arg.Parsed? && 1 <= arg.n <= MaxBots ==> n == arg.n
    ensures arg.Parsed? && arg.n < 0 ==> n == 0
    ensures arg.Parsed? && arg.n > MaxBots ==> n == MaxBots
    ensures !arg.Parsed? || arg.n == 0 ==> n == DefaultBots
  {
    var requested := match arg
      case Absent => DefaultBots
      case Parsed(k) => if k == 0 then DefaultBots else k
      case NotANumber => DefaultBots;
    if requested < 0 then 0 else if requested > MaxBots then MaxBots else requested
  }

  /** A room never asks for zero bots: a request for 0 is read as "unset". */
  lemma ZeroBotsMeansEight()
    ensures BotCount(Parsed(0)) == DefaultBots
  {
  }

  /** `{ easy: 1, medium: 2, hard: 3 }[difficulty] || 1`, with a missing
      difficulty defaulting to "easy". */
  function ZombieMultiplier(difficulty: Option<string>): (m: int)
    ensures 1 <= m <= 3
    ensures difficulty == Some("medium") ==> m == 2
    ensures difficulty == Some("hard") ==> m == 3
    ensures difficulty != Some("medium") && difficulty != Some("hard") ==> m == 1
  {
    match difficulty
    case None => 1
    case Some(d) => if d == "easy" then 1 else if d == "medium" then 2 else if d == "hard" then 3 else 1
  }

  // ---------------------------------------------------------------------
  // Players

  /** `spawnPositions[count % 4]`: the four corners 100 units in. */
  function SpawnPosition(count: nat): (p: (real, real))
    ensures 0.0 <= p.0 <= WorldWidth - PlayerSize && 0.0 <= p.1 <= WorldHeight - PlayerSize
  {
    match count % 4
    case 0 => (100.0, 100.0)
    case 1 => (WorldWidth - 100.0, 100.0)
    case 2 => (100.0, WorldHeight - 100.0)
    case _ => (WorldWidth - 100.0, WorldHeight - 100.0)
  }

  /** The four players of a full room start on four different corners. */
  lemma SpawnCornersDistinct(i: nat, j: nat)
    requires i < j < MaxPlayersPerRoom
    ensures SpawnPosition(i) != SpawnPosition(j)
  {
    assert i % 4 == i && j % 4 == j;
  }

  /** A freshly created or joined player: 20x20, health 100, speed 4, alive. */
  function NewPlayer(id: string, name: string, pos: (real, real), now: int, color: string): Player {
    Player(id, name, pos.0, pos.1, PlayerSize, PlayerSize, MaxHealth, MaxHealth, PlayerSpeed,
           color, true, 0, true, now)
  }

  /** `playerName || default` */
  function NameOr(name: Option<string>, default: string): string {
    if name.Some? && name.value != "" then name.value else default
  }

  /** The name a joining player gets when it sends none. */
  function GuestName(id: string): string {
    "Hráč " + id[..if |id| < 4 then |id| else 4]
  }

  datatype Admission = RoomFull | Admitted(players: map<string, Player>)

  /** The roster part of `handleJoinRoom`: a room with `maxPlayers` or more
      players is full; otherwise the joiner is put at the spawn corner of the
      current player count (replacing its own entry if it had one). */
  function Admit(players: map<string, Player>, maxPlayers: int, id: string, name: string,
                 now: int, color: string): (r: Admission)
    ensures r.RoomFull? <==> |players| >= maxPlayers
    ensures r.Admitted? ==> id in r.players && r.players.Keys == players.Keys + {id}
    ensures r.Admitted? ==>
      var p := r.players[id];
      p.id == id && p.name == name && (p.x, p.y) == SpawnPosition(|players|)
      && p.health == MaxHealth && p.alive && p.width == PlayerSize && p.height == PlayerSize
    ensures r.Admitted? ==> forall other :: other in players && other != id ==> r.players[other] == players[other]
    ensures r.Admitted? && id !in players ==> |r.players| == |players| + 1
    ensures r.Admitted? ==> |r.players| <= maxPlayers
  {
    if |players| >= maxPlayers then RoomFull
    else
      var r := players[id := NewPlayer(id, name, SpawnPosition(|players|), now, color)];
      assert r.Keys == players.Keys + {id};
      assert |r.Keys| <= |players.Keys| + |{id}|;
      Admitted(r)
  }

  /** The `maxPlayers + 1`-th join is refused and the roster keeps its size. */
  lemma FullRoomRejects(players: map<string, Player>, id: string, name: string, now: int, color: string)
    requires |players| == MaxPlayersPerRoom
    ensures Admit(players, MaxPlayersPerRoom, id, name, now, color) == RoomFull
  {
  }

  /** Joining does not exceed the room's capacity, so a roster never has more
      than four players: starting from one, any run of joins keeps it there. */
  lemma {:induction false} JoinsKeepCapacity(players: map<string, Player>, joins: seq<string>, now: int, color: string)
    requires |players| <= MaxPlayersPerRoom
    ensures |JoinAll(players, joins, now, color)| <= MaxPlayersPerRoom
    decreases |joins|
  {
    if joins != [] {
      var r := Admit(players, MaxPlayersPerRoom, joins[0], GuestName(joins[0]), now, color);
      if r.Admitted? {
        JoinsKeepCapacity(r.players, joins[1..], now, color);
      } else {
        JoinsKeepCapacity(players, joins[1..], now, color);
      }
    }
  }

  /** The roster after a run of join attempts by the given ids. */
  function JoinAll(players: map<string, Player>, joins: seq<string>, now: int, color: string): map<string, Player>
    decreases |joins|
  {
    if joins == [] then players
    else
      match Admit(players, MaxPlayersPerRoom, joins[0], GuestName(joins[0]), now, color)
      case RoomFull => JoinAll(players, joins[1..], now, color)
      case Admitted(r) => JoinAll(r, joins[1..], now, color)
  }

  /** What a disconnect leaves: the room is deleted because it became empty,
      deleted because its host left (the others get "game over"), or it
      stays with the smaller roster. */
  datatype Departure = DeletedEmpty | DeletedHostLeft | Remains(players: map<string, Player>)

  /** The roster part of `handleDisconnect`. */
  function Leave(players: map<string, Player>, hostId: string, id: string): (r: Departure)
    ensures r.DeletedEmpty? <==> players.Keys <= {id}
    ensures r.DeletedHostLeft? <==> !(players.Keys <= {id}) && id == hostId
    ensures r.Remains? ==> r.players == players - {id} && |r.players| > 0 && id != hostId
    ensures r.Remains? && hostId in players ==> hostId in r.players
    ensures r.Remains? ==> forall other :: other in r.players ==> r.players[other] == players[other]
  {
    var rest := players - {id};
    if rest.Keys == {} then DeletedEmpty
    else if id == hostId then DeletedHostLeft
    else Remains(rest)
  }

  // ---------------------------------------------------------------------
  // Restart

  /** One player in `restartGame`: full health, alive, re-placed, shot timer cleared. */
  function ResetPlayer(p: Player, pos: (real, real)): (q: Player)
    ensures q.health == MaxHealth && q.alive && q.lastShot == 0
    ensures q == p.(x := pos.0, y := pos.1, health := MaxHealth, alive := true, lastShot := 0)
  {
    p.(x := pos.0, y := pos.1, health := MaxHealth, alive := true, lastShot := 0)
  }

  /** The roster after `restartGame`: the same players, each reset. */
  function ResetRoster(players: map<string, Player>, place: string -> (real, real)): (r: map<string, Player>)
    ensures r.Keys == players.Keys
    ensures forall id :: id in r ==> r[id].health == MaxHealth && r[id].alive && r[id].lastShot == 0
    ensures forall id :: id in r ==> r[id].id == players[id].id && r[id].name == players[id].name
    ensures forall id :: id in r ==> r[id] == ResetPlayer(players[id], place(id))
  {
    map id | id in players :: ResetPlayer(players[id], place(id))
  }

  /** A roster with the same ids has the same head count. */
  lemma SameKeysSameSize(a: map<string, Player>, b: map<string, Player>)
    requires a.Keys == b.Keys
    ensures |a| == |b|
  {
    assert |a| == |a.Keys| && |b| == |b.Keys|;
  }

  /** The `forEach` loop of `restartGame` over the players. */
  method ResetPlayers(players: map<string, Player>, place: string -> (real, real)) returns (r: map<string, Player>)
    ensures r == ResetRoster(players, place)
  {
    r := players;
    var todo := players.Keys;
    while todo != {}
      invariant todo <= players.Keys && r.Keys == players.Keys
      invariant forall id :: id in players && id !in todo ==> r[id] == ResetPlayer(players[id], place(id))
      invariant forall id :: id in todo ==> r[id] == players[id]
      decreases todo
    {
      var id :| id in todo;
      r := r[id := ResetPlayer(players[id], place(id))];
      todo := todo - {id};
    }
  }
}
