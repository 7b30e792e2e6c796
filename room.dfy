/** A room of the `rooms` dictionary: one object whose fields the handlers
    and the tick update in place. Its settings are fixed at creation; its
    roster and entities change through the methods below, each specified by
    the functions of the other modules. */
module Rooms {
  import opened Wrappers
  import opened Geometry
  import opened Entities
  import opened Movement
  import opened GameRules
  import opened Lifecycle
  import opened Ticking

  class Room {
    var players: map<string, Player>
    var bots: seq<Bot>
    var bullets: seq<Bullet>
    var zombies: seq<Zombie>
    var particles: seq<Particle>
    var obstacles: seq<Obstacle>
    var helicopter: Option<Rect>
    var score: int
    var gameRunning: bool
    var started: bool
    var lastZombieHorde: int
    var lastZoneShrink: int
    var safeZone: SafeZone
    const zoneDamage: real
    const zombieHealthMultiplier: int
    const maxPlayers: int
    const hostId: string
    /** `room.autoStartTimer` is set: the join countdown has been armed. */
    var autoStartArmed: bool
    const difficulty: string
    const numBots: int

    /** The state a tick or a restart works on. */
    function State(): Snapshot
      reads this
    {
      Snapshot(players, bots, bullets, zombies, particles, obstacles, helicopter, score,
               gameRunning, lastZombieHorde, lastZoneShrink, safeZone, zoneDamage,
               zombieHealthMultiplier, numBots)
    }

    /** A room has between one and four players, among them its host. */
    ghost predicate Valid()
      reads this
    {
      RoomInv(State(), maxPlayers, hostId)
    }

    /** The room `handleCreateRoom` stores: empty arenas, the full zone, the
        normalised settings, and the creator as sole player and host. */
    constructor Create(hostId: string, playerName: Option<string>, difficulty: Option<string>,
                       botCount: BotCountArg, now: int, color: string)
      ensures Valid()
      ensures this.hostId == hostId
      ensures players == map[hostId := NewPlayer(hostId, NameOr(playerName, "Host"), SpawnPosition(0), now, color)]
      ensures bots == [] && bullets == [] && zombies == [] && particles == [] && obstacles == []
      ensures helicopter == None && score == 0 && gameRunning && !started && !autoStartArmed
      ensures lastZombieHorde == now && lastZoneShrink == now
      ensures safeZone == SafeZone(WorldWidth / 2.0, WorldHeight / 2.0, FullRadius) && zoneDamage == 2.0
      ensures zombieHealthMultiplier == ZombieMultiplier(difficulty)
      ensures numBots == BotCount(botCount)
      ensures this.difficulty == (if difficulty.Some? then difficulty.value else "easy")
    {
      players := map[hostId := NewPlayer(hostId, NameOr(playerName, "Host"), SpawnPosition(0), now, color)];
      bots, bullets, zombies, particles, obstacles := [], [], [], [], [];
      helicopter := None;
      score := 0;
      gameRunning, started := true, false;
      lastZombieHorde, lastZoneShrink := now, now;
      safeZone := SafeZone(WorldWidth / 2.0, WorldHeight / 2.0, FullRadius);
      zoneDamage := 2.0;
      zombieHealthMultiplier := ZombieMultiplier(difficulty);
      maxPlayers := MaxPlayersPerRoom;
      this.hostId := hostId;
      autoStartArmed := false;
      this.difficulty := if difficulty.Some? then difficulty.value else "easy";
      numBots := BotCount(botCount);
    }

    /** The room part of `handleJoinRoom`. `countdown` is whether this join
        armed the auto-start timer (the room then had at least one player and
        no timer yet). */
    method Join(id: string, name: string, now: int, color: string) returns (admitted: bool, countdown: bool)
      requires Valid()
      modifies this`players, this`autoStartArmed
      ensures Valid()
      ensures admitted <==> Admit(old(players), maxPlayers, id, name, now, color).Admitted?
      ensures admitted ==> players == Admit(old(players), maxPlayers, id, name, now, color).players
      ensures !admitted ==> players == old(players)
      ensures countdown <==> admitted && |old(players)| + 1 >= 2 && !old(autoStartArmed)
      ensures autoStartArmed == (old(autoStartArmed) || countdown)
    {
      var a := Admit(players, maxPlayers, id, name, now, color);
      countdown := false;
      if a.RoomFull? {
        return false, false;
      }
      admitted := true;
      countdown := |players| + 1 >= 2 && !autoStartArmed;
      players := a.players;
      if countdown {
        autoStartArmed := true;
      }
    }

    /** The roster part of `handleDisconnect`: the leaver's entry is deleted;
        the caller deletes the room unless it `Remains`. */
    method Leave(id: string) returns (d: Departure)
      requires Valid()
      modifies this`players
      ensures d == Lifecycle.Leave(old(players), hostId, id)
      ensures players == old(players) - {id}
      ensures d.Remains? ==> Valid()
    {
      d := Lifecycle.Leave(players, hostId, id);
      players := players - {id};
    }

    /** `handlePlayerInput` once the room is found. */
    method HandleInput(id: string, keys: Keys, now: int)
      requires Valid()
      modifies this`players
      ensures Valid()
      ensures players == ApplyInput(old(players), id, keys, obstacles, now)
    {
      players := ApplyInput(players, id, keys, obstacles, now);
    }

    /** `handleShoot` once the room is found; the velocity stands for the
        direction the source computes from the target point. */
    method HandleShoot(id: string, now: int, vx: real, vy: real) returns (fired: bool)
      requires Valid()
      modifies this`players, this`bullets
      ensures Valid()
      ensures fired == MayShoot(old(players), id, now)
      ensures Volley(players, bullets) == Shoot(old(players), old(bullets), id, now, vx, vy)
    {
      fired := MayShoot(players, id, now);
      var v := Shoot(players, bullets, id, now, vx, vy);
      players, bullets := v.players, v.bullets;
    }

    /** Writes a tick's or a restart's outcome back into the fields. */
    method Store(n: Snapshot)
      requires n.zoneDamage == zoneDamage && n.multiplier == zombieHealthMultiplier && n.numBots == numBots
      modifies this`players, this`bots, this`bullets, this`zombies, this`particles, this`obstacles,
               this`helicopter, this`score, this`gameRunning, this`lastZombieHorde, this`lastZoneShrink,
               this`safeZone
      ensures players == n.players && bots == n.bots && bullets == n.bullets && zombies == n.zombies
      ensures particles == n.particles && obstacles == n.obstacles && helicopter == n.helicopter
      ensures score == n.score && gameRunning == n.gameRunning && lastZombieHorde == n.lastZombieHorde
      ensures lastZoneShrink == n.lastZoneShrink && safeZone == n.safeZone
    {
      players := n.players;
      bots := n.bots;
      bullets := n.bullets;
      zombies := n.zombies;
      particles := n.particles;
      obstacles := n.obstacles;
      helicopter := n.helicopter;
      score := n.score;
      gameRunning := n.gameRunning;
      lastZombieHorde := n.lastZombieHorde;
      lastZoneShrink := n.lastZoneShrink;
      safeZone := n.safeZone;
    }

    /** `startGame`: a room that has not started yet is started, with a new
        layout, new bots and a horde of five; a started room is left alone. */
    method Start(l: Launch) returns (begun: bool)
      requires Valid() && Generated(l.obstacles) && Spawned(l.bots, numBots)
      modifies this`obstacles, this`bots, this`zombies, this`started
      ensures Valid() && started
      ensures begun <==> !old(started)
      ensures begun ==> State() == StartSpec(old(State()), l)
      ensures !begun ==> State() == old(State())
    {
      if started {
        return false;
      }
      ghost var s := State();
      StartKeepsRoom(s, l, maxPlayers, hostId);
      started := true;
      obstacles := l.obstacles;
      bots := l.bots;
      zombies := SpawnZombieHorde(zombies, StartHordeSize, l.draw, zombieHealthMultiplier as real);
      begun := true;
      assert State() == StartSpec(s, l);
    }

    /** `restartGame`: the match is reset and running again, and `started`
        is cleared. */
    method Restart(now: int, d: Redraw)
      requires Valid() && Generated(d.obstacles) && Spawned(d.bots, numBots)
      modifies this`players, this`bots, this`bullets, this`zombies, this`particles, this`obstacles,
               this`helicopter, this`score, this`gameRunning, this`lastZombieHorde, this`lastZoneShrink,
               this`safeZone, this`started
      ensures Valid()
      ensures State() == RestartSpec(old(State()), now, d)
      ensures !started
    {
      ghost var s := State();
      RestartKeepsRoom(s, now, d, maxPlayers, hostId);
      var roster := ResetPlayers(players, d.place);
      var next := Snapshot(roster, d.bots, [], [], [], d.obstacles, None, 0, true, now, now,
                           SafeZone(WorldWidth / 2.0, WorldHeight / 2.0, FullRadius),
                           zoneDamage, zombieHealthMultiplier, numBots);
      assert next == RestartSpec(s, now, d);
      Store(next);
      started := false;
    }

    /** `updateGame(roomId)` for a room that exists. `died` are the players
        reported by `playerDied`, `arrived` says the helicopter came in this
        tick, `winners` are the players that reached it. */
    method Tick(t: TickInput) returns (died: set<string>, arrived: bool, winners: set<string>)
      requires Valid()
      modifies this`players, this`bots, this`bullets, this`zombies, this`particles, this`obstacles,
               this`helicopter, this`score, this`gameRunning, this`lastZombieHorde, this`lastZoneShrink,
               this`safeZone
      ensures Valid()
      ensures State() == TickSpec(old(State()), t)
      ensures died == (if old(gameRunning) then Died(old(players), players) else {})
      ensures arrived <==> old(helicopter).None? && helicopter.Some?
      ensures winners == (if old(gameRunning) then Winners(players, helicopter) else {})
    {
      ghost var s := State();
      TickKeepsRoom(s, t, maxPlayers, hostId);
      var next;
      next, died, arrived, winners := UpdateGame(State(), t);
      Store(next);

    }
  }
}
