/** One call of `updateGame` and one `restartGame`, as functions of the
    room's mutable state. The steps that move entities by trigonometry (bot
    wandering and firing, zombie pursuit and zombie contact damage) are not
    part of this model; the remaining steps run in the source's order. */
module Ticking {
  import opened Wrappers
  import opened Geometry
  import opened Entities
  import opened Combat
  import opened GameRules
  import opened Lifecycle

  /** The part of a room that ticks and restarts change, with the settings they read. */
  datatype Snapshot = Snapshot(
    players: map<string, Player>,
    bots: seq<Bot>,
    bullets: seq<Bullet>,
    zombies: seq<Zombie>,
    particles: seq<Particle>,
    obstacles: seq<Obstacle>,
    helicopter: Option<Rect>,
    score: int,
    gameRunning: bool,
    lastZombieHorde: int,
    lastZoneShrink: int,
    safeZone: SafeZone,
    zoneDamage: real,
    multiplier: int,
    numBots: int)

  /** What every room keeps true between events. */
  predicate Inv(s: Snapshot) {
    && (forall id :: id in s.players ==> s.players[id].id == id)
    && s.safeZone.x == WorldWidth / 2.0 && s.safeZone.y == WorldHeight / 2.0
    && MinRadius <= s.safeZone.radius <= FullRadius
    && s.zoneDamage == 2.0
    && 1 <= s.multiplier <= 3
    && 0 <= s.numBots <= MaxBots
    && AllObstaclesLive(s.obstacles)
    && AllZombiesLive(s.zombies)
  }

  /** A room as the handlers keep it: the invariant above, and a roster of
      one to `maxPlayers` (four) players that includes the host. */
  predicate RoomInv(s: Snapshot, maxPlayers: int, hostId: string) {
    && Inv(s)
    && maxPlayers == MaxPlayersPerRoom
    && 0 < |s.players| <= maxPlayers
    && hostId in s.players
  }

  /** The horde draws, the helicopter corner and the clock of one tick. */
  datatype TickInput = TickInput(now: int, corner: Corner, draw: nat -> Draw)

  /** `updateGame(roomId)` on a room that exists. */
  function TickSpec(s: Snapshot, t: TickInput): (r: Snapshot)
    ensures !s.gameRunning ==> r == s
    ensures r.players.Keys == s.players.Keys
    ensures r.zoneDamage == s.zoneDamage && r.multiplier == s.multiplier && r.numBots == s.numBots
    ensures r.score >= s.score
    ensures s.gameRunning ==> forall i :: 0 <= i < |r.bullets| ==> r.bullets[i].life > 0 && StrictlyInWorld(r.bullets[i])
    ensures s.gameRunning ==> forall i :: 0 <= i < |r.bots| ==> r.bots[i].alive && r.bots[i].health > 0.0
    ensures MinRadius <= s.safeZone.radius ==> MinRadius <= r.safeZone.radius <= s.safeZone.radius
    ensures s.helicopter.Some? ==> r.helicopter == s.helicopter
    ensures s.gameRunning && s.helicopter.None? && r.helicopter.Some? ==> |r.bots| + AlivePlayers(r.players) <= 1
    ensures s.gameRunning && s.helicopter.None? && |r.bots| + AlivePlayers(r.players) <= 1 ==> r.helicopter.Some?
    // the match goes on exactly while a player lives and nobody reached the helicopter
    ensures r.gameRunning ==> s.gameRunning
    ensures s.gameRunning ==> (r.gameRunning <==> AlivePlayers(r.players) > 0 && Winners(r.players, r.helicopter) == {})
    // the zone follows the shrink timer
    ensures s.gameRunning ==>
      var z := ShrinkZone(s.safeZone, s.lastZoneShrink, t.now);
      r.safeZone == z.zone && r.lastZoneShrink == z.lastShrink
    // a horde comes exactly when its timer is due, after the combat steps
    ensures s.gameRunning ==>
      r.lastZombieHorde == (if t.now - s.lastZombieHorde > HordeInterval then t.now else s.lastZombieHorde)
    ensures s.gameRunning && t.now - s.lastZombieHorde > HordeInterval ==>
      var n := HordeSize(s.numBots, |r.bots|);
      n <= |r.zombies| && r.zombies[|r.zombies| - n..] == HordeOf(n, t.draw, s.multiplier as real)
    ensures s.gameRunning && t.now - s.lastZombieHorde <= HordeInterval ==> |r.zombies| <= |s.zombies| + |s.bots|
    ensures Inv(s) ==> Inv(r)
  {
    if !s.gameRunning then s
    else
      var players := PlayersZoneTick(s.players, s.safeZone, s.zoneDamage);
      var m := BotsAfterTick(s.bots, Camp(s.zombies, s.particles, s.score),
                             s.safeZone, s.zoneDamage, s.multiplier as real);
      var sw := BulletsAfterTick(s.bullets, Field(s.obstacles, m.camp.zombies, m.camp.particles, m.camp.score));
      var horde := HordeStep(sw.field.zombies, s.lastZombieHorde, t.now, s.numBots, |m.kept|,
                             t.draw, s.multiplier as real);
      var shrink := ShrinkZone(s.safeZone, s.lastZoneShrink, t.now);
      var heli := HelicopterAfter(s.helicopter, |m.kept| + AlivePlayers(players), t.corner);
      s.(players := players,
         bots := m.kept,
         bullets := sw.kept,
         zombies := horde.zombies,
         particles := ParticlesAfterTick(sw.field.particles),
         obstacles := sw.field.obstacles,
         helicopter := heli,
         score := sw.field.score,
         gameRunning := StillRunning(players, heli),
         lastZombieHorde := horde.lastHorde,
         safeZone := shrink.zone,
         lastZoneShrink := shrink.lastShrink)
  }

  /** One call of `updateGame`, step by step with the source's loops.
      `died` are the players it reports dead, `arrived` says the helicopter
      came in this tick and `winners` are the players that reached it. */
  method UpdateGame(s: Snapshot, t: TickInput) returns (r: Snapshot, died: set<string>, arrived: bool, winners: set<string>)
    ensures r == TickSpec(s, t)
    ensures died == (if s.gameRunning then Died(s.players, r.players) else {})
    ensures arrived <==> s.helicopter.None? && r.helicopter.Some?
    ensures winners == (if s.gameRunning then Winners(r.players, r.helicopter) else {})
  {
    if !s.gameRunning {
      return s, {}, false, {};
    }
    var players;
    players, died := ZoneTickPlayers(s.players, s.safeZone, s.zoneDamage);
    var bots, camp := UpdateBots(s.bots, Camp(s.zombies, s.particles, s.score), s.safeZone, s.zoneDamage,
                                 s.multiplier as real);
    var bullets, field := UpdateBullets(s.bullets, Field(s.obstacles, camp.zombies, camp.particles, camp.score));
    var zombies := field.zombies;
    var lastHorde := s.lastZombieHorde;
    if HordeDue(s.lastZombieHorde, t.now) {
      zombies := SpawnZombieHorde(zombies, HordeSize(s.numBots, |bots|), t.draw, s.multiplier as real);
      lastHorde := t.now;
    }
    var shrink := ShrinkZone(s.safeZone, s.lastZoneShrink, t.now);
    var particles := UpdateParticles(field.particles);
    var heli := HelicopterAfter(s.helicopter, |bots| + AlivePlayers(players), t.corner);
    arrived := s.helicopter.None? && heli.Some?;
    winners := Winners(players, heli);
    r := s.(players := players, bots := bots, bullets := bullets, zombies := zombies, particles := particles,
            obstacles := field.obstacles, helicopter := heli, score := field.score,
            gameRunning := StillRunning(players, heli), lastZombieHorde := lastHorde,
            safeZone := shrink.zone, lastZoneShrink := shrink.lastShrink);
  }

  /** The room after a run of ticks. */
  function TicksSpec(s: Snapshot, ts: seq<TickInput>): Snapshot
    decreases |ts|
  {
    if ts == [] then s else TicksSpec(TickSpec(s, ts[0]), ts[1..])
  }

  /** Over any run of ticks: the invariant holds throughout, the score never
      falls, the zone never grows, a helicopter once placed stays where it is,
      and a match that has stopped stays stopped. */
  lemma {:induction false} TicksPreserve(s: Snapshot, ts: seq<TickInput>)
    requires Inv(s)
    ensures var r := TicksSpec(s, ts);
      && Inv(r)
      && r.score >= s.score
      && r.safeZone.radius <= s.safeZone.radius
      && (s.helicopter.Some? ==> r.helicopter == s.helicopter)
      && (!s.gameRunning ==> r == s)
      && (r.gameRunning ==> s.gameRunning)
    decreases |ts|
  {
    if ts != [] {
      TicksPreserve(TickSpec(s, ts[0]), ts[1..]);
    }
  }

  const ObstacleCount: int := 40
  const ObstacleHealth: real := 150.0
  const StartHordeSize: nat := 5

  /** One obstacle of `generateObstaclesAndBunkers`: health 150, 20 to 80
      units a side, its corner inside the world. */
  predicate GeneratedObstacle(o: Obstacle) {
    && o.health == ObstacleHealth && o.maxHealth == ObstacleHealth
    && 20.0 <= o.width < 80.0 && 20.0 <= o.height < 80.0
    && 0.0 <= o.x < WorldWidth && 0.0 <= o.y < WorldHeight
  }

  /** The layout `generateObstaclesAndBunkers` produces: forty obstacles, each
      placed clear of the ones before it. */
  predicate Generated(obstacles: seq<Obstacle>) {
    && |obstacles| == ObstacleCount
    && (forall i :: 0 <= i < |obstacles| ==> GeneratedObstacle(obstacles[i]))
    && (forall i, j :: 0 <= i < j < |obstacles| ==> !CheckCollision(obstacles[j].Box(), obstacles[i].Box()))
  }

  /** One bot of `spawnBots`: 20x20, alive at full health, not yet fired,
      50 units or more from every edge. */
  predicate SpawnedBot(b: Bot) {
    && b.alive && b.health == MaxHealth && b.maxHealth == MaxHealth && b.lastShot == 0
    && b.width == PlayerSize && b.height == PlayerSize
    && 50.0 <= b.x < WorldWidth - 50.0 && 50.0 <= b.y < WorldHeight - 50.0
  }

  /** The squad `spawnBots` produces: exactly `numBots` bots, since a
      placement that keeps colliding stops retrying after 50 attempts and
      the bot is pushed anyway. */
  predicate Spawned(bots: seq<Bot>, numBots: int) {
    |bots| == numBots && forall i :: 0 <= i < |bots| ==> SpawnedBot(bots[i])
  }

  /** What `startGame` draws at random: the obstacle layout, the bots and the
      entry points of its horde of five. */
  datatype Launch = Launch(obstacles: seq<Obstacle>, bots: seq<Bot>, draw: nat -> Draw)

  /** `startGame` on a room that has not started: new obstacles, new bots,
      and a horde of five appended to the zombies; nothing else changes. */
  function StartSpec(s: Snapshot, l: Launch): (r: Snapshot)
    ensures r == s.(obstacles := l.obstacles, bots := l.bots, zombies := r.zombies)
    ensures |r.zombies| == |s.zombies| + StartHordeSize && r.zombies[..|s.zombies|] == s.zombies
    ensures forall i :: |s.zombies| <= i < |r.zombies| ==> r.zombies[i].health == HordeZombieHealth * s.multiplier as real
    ensures Inv(s) && Generated(l.obstacles) ==> Inv(r)
  {
    s.(obstacles := l.obstacles, bots := l.bots,
       zombies := WithHorde(s.zombies, StartHordeSize, l.draw, s.multiplier as real))
  }

  /** Starting keeps the roster, so it keeps a valid room valid. */
  lemma StartKeepsRoom(s: Snapshot, l: Launch, maxPlayers: int, hostId: string)
    requires RoomInv(s, maxPlayers, hostId) && Generated(l.obstacles)
    ensures RoomInv(StartSpec(s, l), maxPlayers, hostId)
  {
  }

  /** What `restartGame` draws at random: each player's new position, the
      new obstacle layout and the new bots. */
  datatype Redraw = Redraw(place: string -> (real, real), obstacles: seq<Obstacle>, bots: seq<Bot>)

  /** `restartGame` on a room that exists. */
  function RestartSpec(s: Snapshot, now: int, d: Redraw): (r: Snapshot)
    ensures r.gameRunning && r.score == 0
    ensures r.bullets == [] && r.zombies == [] && r.particles == [] && r.helicopter == None
    ensures r.safeZone == SafeZone(WorldWidth / 2.0, WorldHeight / 2.0, FullRadius)
    ensures r.lastZombieHorde == now && r.lastZoneShrink == now
    ensures r.players.Keys == s.players.Keys
    ensures forall id :: id in r.players ==> r.players[id].health == MaxHealth && r.players[id].alive
    ensures AlivePlayers(r.players) == |s.players|
    ensures r.obstacles == d.obstacles && r.bots == d.bots
    ensures Inv(s) && AllObstaclesLive(d.obstacles) ==> Inv(r)
  {
    var players := ResetRoster(s.players, d.place);
    assert (set id | id in players && players[id].alive) == players.Keys;
    Snapshot(players, d.bots, [], [], [], d.obstacles, None, 0, true, now, now,
             SafeZone(WorldWidth / 2.0, WorldHeight / 2.0, FullRadius),
             s.zoneDamage, s.multiplier, s.numBots)
  }

  /** Ticks and restarts keep the roster, so they keep a valid room valid. */
  lemma TickKeepsRoom(s: Snapshot, t: TickInput, maxPlayers: int, hostId: string)
    requires RoomInv(s, maxPlayers, hostId)
    ensures RoomInv(TickSpec(s, t), maxPlayers, hostId)
  {
    SameKeysSameSize(TickSpec(s, t).players, s.players);
  }

  lemma RestartKeepsRoom(s: Snapshot, now: int, d: Redraw, maxPlayers: int, hostId: string)
    requires RoomInv(s, maxPlayers, hostId) && AllObstaclesLive(d.obstacles)
    ensures RoomInv(RestartSpec(s, now, d), maxPlayers, hostId)
  {
    SameKeysSameSize(RestartSpec(s, now, d).players, s.players);
  }

  /** A restart clears the helicopter, so in a room with one player and no
      bots it arrives again on the first tick: the at-most-once rule holds
      per match, not per room. */
  lemma RestartReenablesHelicopter(s: Snapshot, now: int, d: Redraw, t: TickInput)
    requires d.bots == [] && |s.players| == 1
    ensures TickSpec(RestartSpec(s, now, d), t).helicopter.Some?
  {
    var r := RestartSpec(s, now, d);
    var players := PlayersZoneTick(r.players, r.safeZone, r.zoneDamage);
    var alive := set id | id in players && players[id].alive;
    assert alive <= players.Keys && |players.Keys| == |s.players.Keys| == 1;
    SubsetCard(alive, players.Keys);
    assert BotsAfterTick(r.bots, Camp(r.zombies, r.particles, r.score), r.safeZone, r.zoneDamage, r.multiplier as real).kept == [];
  }

  lemma SubsetCard<T>(a: set<T>, b: set<T>)
    requires a <= b
    ensures |a| <= |b|
  {
    assert b == a + (b - a);
  }
}
