/** The bookkeeping steps of `updateGame` that are not combat: zone damage
    and death of players, the horde timer, the safe-zone shrink, the
    helicopter guard, and the two ways a match ends. Times are the
    millisecond timestamps the tick receives as `now`. */
module GameRules {
  import opened Wrappers
  import opened Geometry
  import opened Entities

  const FullRadius: real := 600.0
  const MinRadius: real := 100.0
  const ShrinkStep: real := 20.0
  const ShrinkInterval: int := 10000
  const HordeInterval: int := 12000
  const MinHordeSize: int := 3
  const HordeZombieHealth: real := 50.0
  const HordeZombieSize: real := 15.0
  const HordeZombieDamage: real := 1.0
  const HelicopterSize: real := 60.0

  // ---------------------------------------------------------------------
  // Zone damage and death of players (first loop of updateGame)

  /** A living player takes zone damage and is marked dead once its health
      is not positive; a dead player is skipped. */
  function PlayerZoneTick(p: Player, zone: SafeZone, zoneDamage: real): (q: Player)
    ensures !p.alive ==> q == p
    ensures q == p.(health := q.health, alive := q.alive)
    ensures q.alive <==> p.alive && q.health > 0.0
    ensures zoneDamage >= 0.0 ==> q.health <= p.health
    ensures p.alive && !CentreOutside(p.Box(), zone) ==> q.health == p.health
    ensures p.alive ==> q.health == ZoneDamage(p.health, p.Box(), zone, zoneDamage)
  {
    if !p.alive then p
    else
      var h := ZoneDamage(p.health, p.Box(), zone, zoneDamage);
      p.(health := h, alive := h > 0.0)
  }

  /** The ids of the players that die in this step: alive before, dead after. */
  function Died(before: map<string, Player>, after: map<string, Player>): set<string> {
    set id | id in before && id in after && before[id].alive && !after[id].alive
  }

  /** The roster after the zone loop: same players, each ticked on its own. */
  function PlayersZoneTick(players: map<string, Player>, zone: SafeZone, zoneDamage: real): (r: map<string, Player>)
    ensures r.Keys == players.Keys
    ensures forall id :: id in r ==> (r[id].alive <==> players[id].alive && r[id].health > 0.0)
    ensures forall id :: id in r ==> r[id].id == players[id].id && r[id].x == players[id].x && r[id].y == players[id].y
    ensures forall id :: id in r ==> r[id] == PlayerZoneTick(players[id], zone, zoneDamage)
  {
    map id | id in players :: PlayerZoneTick(players[id], zone, zoneDamage)
  }

  /** `Object.keys(room.players).forEach(...)`: the players are visited one at
      a time; the set `died` is the ids reported by `playerDied`. */
  method ZoneTickPlayers(players: map<string, Player>, zone: SafeZone, zoneDamage: real)
    returns (r: map<string, Player>, died: set<string>)
    ensures r == PlayersZoneTick(players, zone, zoneDamage)
    ensures died == Died(players, r)
  {
    r, died := players, {};
    var todo := players.Keys;
    while todo != {}
      invariant todo <= players.Keys && r.Keys == players.Keys
      invariant forall id :: id in players && id !in todo ==> r[id] == PlayerZoneTick(players[id], zone, zoneDamage)
      invariant forall id :: id in todo ==> r[id] == players[id]
      invariant died == set id | id in players && id !in todo && players[id].alive && !r[id].alive
      decreases todo
    {
      var id :| id in todo;
      var q := PlayerZoneTick(players[id], zone, zoneDamage);
      r := r[id := q];
      if players[id].alive && !q.alive {
        died := died + {id};
      }
      todo := todo - {id};
    }
  }

  // ---------------------------------------------------------------------
  // Safe-zone shrink

  datatype Shrink = Shrink(zone: SafeZone, lastShrink: int)

  /** More than 10000 ms after the last shrink the radius drops by 20, but
      not below 100, and the time is recorded. */
  function ShrinkZone(zone: SafeZone, lastShrink: int, now: int): (r: Shrink)
    ensures now - lastShrink <= ShrinkInterval ==> r == Shrink(zone, lastShrink)
    ensures now - lastShrink > ShrinkInterval ==> r.lastShrink == now
    ensures r.zone.x == zone.x && r.zone.y == zone.y
    ensures MinRadius <= zone.radius ==> MinRadius <= r.zone.radius <= zone.radius
    ensures now - lastShrink > ShrinkInterval && zone.radius - ShrinkStep >= MinRadius ==>
      r.zone.radius == zone.radius - ShrinkStep
    ensures now - lastShrink > ShrinkInterval && zone.radius - ShrinkStep < MinRadius ==>
      r.zone.radius == MinRadius
  {
    if now - lastShrink > ShrinkInterval
    then Shrink(zone.(radius := Max(zone.radius - ShrinkStep, MinRadius)), now)
    else Shrink(zone, lastShrink)
  }

  /** The zone after a run of ticks at the given times. */
  function ZoneOver(s: Shrink, times: seq<int>): Shrink
    decreases |times|
  {
    if times == [] then s
    else ZoneOver(ShrinkZone(s.zone, s.lastShrink, times[0]), times[1..])
  }

  /** Over any run of ticks the radius never grows and never falls below 100. */
  lemma {:induction false} ZoneNeverGrows(s: Shrink, times: seq<int>)
    requires MinRadius <= s.zone.radius
    ensures MinRadius <= ZoneOver(s, times).zone.radius <= s.zone.radius
    decreases |times|
  {
    if times != [] {
      ZoneNeverGrows(ShrinkZone(s.zone, s.lastShrink, times[0]), times[1..]);
    }
  }

  /** The radius after k shrinks. */
  function Shrunk(radius: real, k: nat): real
    decreases k
  {
    if k == 0 then radius else Shrunk(Max(radius - ShrinkStep, MinRadius), k - 1)
  }

  /** k shrinks take the radius down by 20k until the floor of 100. */
  lemma {:induction false} ShrunkFormula(radius: real, k: nat)
    requires radius >= MinRadius
    ensures Shrunk(radius, k) == Max(radius - ShrinkStep * k as real, MinRadius)
    decreases k
  {
    if k > 0 {
      ShrunkFormula(Max(radius - ShrinkStep, MinRadius), k - 1);
    }
  }

  /** From the full radius, the floor is reached after 25 shrinks and not before. */
  lemma FloorAfterTwentyFiveShrinks()
    ensures Shrunk(FullRadius, 25) == MinRadius
    ensures Shrunk(FullRadius, 24) > MinRadius
  {
    ShrunkFormula(FullRadius, 25);
    ShrunkFormula(FullRadius, 24);
  }

  // ---------------------------------------------------------------------
  // Zombie horde

  /** `Math.max(3, room.numBots - room.bots.length)` */
  function HordeSize(numBots: int, botCount: int): (n: nat)
    ensures n >= MinHordeSize && n >= numBots - botCount
    ensures n == MinHordeSize || n == numBots - botCount
  {
    if numBots - botCount > MinHordeSize then numBots - botCount else MinHordeSize
  }

  predicate HordeDue(lastHorde: int, now: int) {
    now - lastHorde > HordeInterval
  }

  /** The world edge a horde zombie enters from, and where along it (a
      fraction in [0, 1) of the edge's length). */
  datatype Edge = Top | Bottom | Left | Right
  datatype Draw = Draw(edge: Edge, t: real)

  /** One zombie of `spawnZombieHorde`: 20 units beyond the drawn edge. */
  function HordeZombie(d: Draw, multiplier: real): (z: Zombie)
    ensures z.health == z.maxHealth == HordeZombieHealth * multiplier
    ensures z.width == z.height == HordeZombieSize && z.damage == HordeZombieDamage
  {
    var (x, y) := match d.edge
      case Top => (d.t * WorldWidth, -20.0)
      case Bottom => (d.t * WorldWidth, WorldHeight + 20.0)
      case Left => (-20.0, d.t * WorldHeight)
      case Right => (WorldWidth + 20.0, d.t * WorldHeight);
    Zombie(x, y, HordeZombieSize, HordeZombieSize,
           HordeZombieHealth * multiplier, HordeZombieHealth * multiplier, HordeZombieDamage)
  }

  /** Horde zombies enter from outside the world. */
  lemma HordeZombieStartsOutside(d: Draw, multiplier: real)
    requires 0.0 <= d.t < 1.0
    ensures var z := HordeZombie(d, multiplier);
            z.y < 0.0 || z.y > WorldHeight || z.x < 0.0 || z.x > WorldWidth
  {
  }

  /** The room's zombies after a horde of `count` has been appended. */
  function WithHorde(zombies: seq<Zombie>, count: nat, draw: nat -> Draw, multiplier: real): (r: seq<Zombie>)
    ensures |r| == |zombies| + count && r[..|zombies|] == zombies
    ensures forall i :: |zombies| <= i < |r| ==> r[i].health == HordeZombieHealth * multiplier
    ensures multiplier > 0.0 && AllZombiesLive(zombies) ==> AllZombiesLive(r)
  {
    var horde := HordeOf(count, draw, multiplier);
    assert forall i :: 0 <= i < count ==> horde[i] == HordeZombie(draw(i), multiplier);
    zombies + horde
  }

  /** The `count` zombies one call of `spawnZombieHorde` pushes. */
  function HordeOf(count: nat, draw: nat -> Draw, multiplier: real): seq<Zombie> {
    seq(count, i requires 0 <= i < count => HordeZombie(draw(i), multiplier))
  }

  datatype HordeTimer = HordeTimer(zombies: seq<Zombie>, lastHorde: int)

  /** The horde step of `updateGame`: more than 12000 ms after the last
      horde, `max(3, numBots - botCount)` zombies are appended and the time
      is recorded; otherwise nothing changes. */
  function HordeStep(zombies: seq<Zombie>, lastHorde: int, now: int, numBots: int, botCount: int,
                     draw: nat -> Draw, multiplier: real): (r: HordeTimer)
    ensures now - lastHorde <= HordeInterval ==> r == HordeTimer(zombies, lastHorde)
    ensures now - lastHorde > HordeInterval ==>
      && r.lastHorde == now
      && r.zombies == zombies + HordeOf(HordeSize(numBots, botCount), draw, multiplier)
    ensures now - lastHorde > HordeInterval ==> |r.zombies| >= |zombies| + MinHordeSize
    ensures multiplier > 0.0 && AllZombiesLive(zombies) ==> AllZombiesLive(r.zombies)
  {
    if HordeDue(lastHorde, now) then
      HordeTimer(WithHorde(zombies, HordeSize(numBots, botCount), draw, multiplier), now)
    else HordeTimer(zombies, lastHorde)
  }

  /** Hordes come at most once per 12000 ms: right after one, the timer is
      idle until more than 12000 ms have passed again. */
  lemma HordesAreSpaced(zombies: seq<Zombie>, lastHorde: int, now: int, later: int, numBots: int,
                        botCount: int, draw: nat -> Draw, multiplier: real)
    requires now - lastHorde > HordeInterval && now <= later <= now + HordeInterval
    ensures var h := HordeStep(zombies, lastHorde, now, numBots, botCount, draw, multiplier);
            HordeStep(h.zombies, h.lastHorde, later, numBots, botCount, draw, multiplier) == h
  {
  }

  /** `spawnZombieHorde`: the loop that pushes `count` zombies. */
  method SpawnZombieHorde(zombies: seq<Zombie>, count: nat, draw: nat -> Draw, multiplier: real)
    returns (r: seq<Zombie>)
    ensures r == WithHorde(zombies, count, draw, multiplier)
  {
    r := zombies;
    var i := 0;
    while i < count
      invariant 0 <= i <= count
      invariant r == zombies + HordeOf(i, draw, multiplier)
    {
      r := r + [HordeZombie(draw(i), multiplier)];
      i := i + 1;
    }
  }

  // ---------------------------------------------------------------------
  // Helicopter and the end of a match

  datatype Corner = TopLeft | TopRight | BottomLeft | BottomRight

  /** `spawnHelicopter`: a 60x60 box 50 units in from the drawn corner. */
  function HelicopterAt(c: Corner): (r: Rect)
    ensures r.width == HelicopterSize && r.height == HelicopterSize
    ensures 0.0 <= r.x && r.x + r.width <= WorldWidth && 0.0 <= r.y && r.y + r.height <= WorldHeight
  {
    match c
    case TopLeft => Rect(50.0, 50.0, HelicopterSize, HelicopterSize)
    case TopRight => Rect(WorldWidth - 110.0, 50.0, HelicopterSize, HelicopterSize)
    case BottomLeft => Rect(50.0, WorldHeight - 110.0, HelicopterSize, HelicopterSize)
    case BottomRight => Rect(WorldWidth - 110.0, WorldHeight - 110.0, HelicopterSize, HelicopterSize)
  }

  /** The number of players whose alive flag is set. */
  function AlivePlayers(players: map<string, Player>): nat {
    |set id | id in players && players[id].alive|
  }

  /** The helicopter guard: created when at most one soldier (remaining bots
      plus alive players) is left and there is none yet. */
  function HelicopterAfter(h: Option<Rect>, soldiers: int, c: Corner): (r: Option<Rect>)
    ensures h.Some? ==> r == h
    ensures h.None? ==> (r.Some? <==> soldiers <= 1)
    ensures h.None? && r.Some? ==> r.value == HelicopterAt(c)
  {
    if soldiers <= 1 && h.None? then Some(HelicopterAt(c)) else h
  }

  /** The helicopter over a run of ticks, each with its soldier count and drawn corner. */
  function HelicopterOver(h: Option<Rect>, ticks: seq<(int, Corner)>): Option<Rect>
    decreases |ticks|
  {
    if ticks == [] then h
    else HelicopterOver(HelicopterAfter(h, ticks[0].0, ticks[0].1), ticks[1..])
  }

  /** The helicopter is set at most once: whatever the later ticks, it stays
      the one placed at the first tick with at most one soldier. */
  lemma {:induction false} HelicopterSetOnce(h: Option<Rect>, ticks: seq<(int, Corner)>)
    ensures h.Some? ==> HelicopterOver(h, ticks) == h
    ensures h.None? && (forall i :: 0 <= i < |ticks| ==> ticks[i].0 > 1) ==> HelicopterOver(h, ticks) == None
    ensures h.None? ==> forall k :: 0 <= k < |ticks| && ticks[k].0 <= 1 && (forall i :: 0 <= i < k ==> ticks[i].0 > 1) ==>
      HelicopterOver(h, ticks) == Some(HelicopterAt(ticks[k].1))
    decreases |ticks|
  {
    if ticks != [] {
      var h' := HelicopterAfter(h, ticks[0].0, ticks[0].1);
      HelicopterSetOnce(h', ticks[1..]);
      if h.None? {
        forall k | 0 <= k < |ticks| && ticks[k].0 <= 1 && (forall i :: 0 <= i < k ==> ticks[i].0 > 1)
          ensures HelicopterOver(h, ticks) == Some(HelicopterAt(ticks[k].1))
        {
          if k > 0 {
            assert ticks[0].0 > 1;
            assert ticks[1..][k - 1] == ticks[k];
            forall i | 0 <= i < k - 1 ensures ticks[1..][i].0 > 1 {
              assert ticks[1..][i] == ticks[i + 1];
            }
          }
        }
        if forall i :: 0 <= i < |ticks| ==> ticks[i].0 > 1 {
          assert forall i :: 0 <= i < |ticks| - 1 ==> ticks[1..][i] == ticks[i + 1];
        }
      }
    }
  }

  /** The players touching the helicopter: each of them ends the match. */
  function Winners(players: map<string, Player>, h: Option<Rect>): (w: set<string>)
    ensures w <= players.Keys
    ensures h.None? ==> w == {}
    ensures forall id :: id in w ==> players[id].alive
    ensures h.Some? ==> forall id :: id in w ==> CheckCollision(players[id].Box(), h.value)
    ensures h.Some? ==> forall id :: id in players && players[id].alive && CheckCollision(players[id].Box(), h.value) ==> id in w
  {
    set id | id in players && players[id].alive && h.Some? && CheckCollision(players[id].Box(), h.value)
  }

  /** The match keeps running only if nobody reached the helicopter and some
      player is still alive. */
  function StillRunning(players: map<string, Player>, h: Option<Rect>): (b: bool)
    ensures b <==> AlivePlayers(players) > 0 && Winners(players, h) == {}
  {
    Winners(players, h) == {} && AlivePlayers(players) != 0
  }
}
