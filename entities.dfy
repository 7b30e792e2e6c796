/** The records a room holds (server.js object literals), the obstacle test
    and the safe-zone damage every combatant takes. Fields that only feed
    movement, AI or drawing (speeds of bots and zombies, wander state,
    colours of non-players, particle motion) are not part of this model. */
module Entities {
  import opened Geometry

  const PlayerSize: real := 20.0
  const MaxHealth: real := 100.0

  datatype Player = Player(
    id: string, name: string,
    x: real, y: real, width: real, height: real,
    health: real, maxHealth: real, speed: real, color: string,
    ready: bool, lastShot: int, alive: bool, lastInputTime: int)
  {
    function Box(): Rect { Rect(x, y, width, height) }
  }

  datatype Bot = Bot(
    x: real, y: real, width: real, height: real,
    health: real, maxHealth: real, lastShot: int, alive: bool)
  {
    function Box(): Rect { Rect(x, y, width, height) }
  }

  datatype Zombie = Zombie(
    x: real, y: real, width: real, height: real,
    health: real, maxHealth: real, damage: real)
  {
    function Box(): Rect { Rect(x, y, width, height) }
  }

  /** A bullet has no width or height field: its box has extent 0.0. */
  datatype Bullet = Bullet(
    x: real, y: real, vx: real, vy: real,
    life: int, damage: real, ownerId: string)
  {
    function Box(): Rect { Rect(x, y, 0.0, 0.0) }
  }

  /** Only the life counter of a particle matters to the simulation. */
  datatype Particle = Particle(life: int)

  datatype Obstacle = Obstacle(
    x: real, y: real, width: real, height: real,
    health: real, maxHealth: real)
  {
    function Box(): Rect { Rect(x, y, width, height) }
  }

  datatype SafeZone = SafeZone(x: real, y: real, radius: real)

  /** The obstacle test of `checkCollisionWithObstacles`: a live obstacle
      (health > 0) that the box overlaps. */
  predicate LiveOverlap(r: Rect, o: Obstacle) {
    o.health > 0.0 && CheckCollision(r, o.Box())
  }

  /** `obstacles.some(...)`, scanning from the front. */
  function CheckCollisionWithObstacles(r: Rect, obstacles: seq<Obstacle>): (b: bool)
    ensures b <==> exists i :: 0 <= i < |obstacles| && LiveOverlap(r, obstacles[i])
  {
    if obstacles == [] then false
    else LiveOverlap(r, obstacles[0]) || CheckCollisionWithObstacles(r, obstacles[1..])
  }

  predicate AllObstaclesLive(obstacles: seq<Obstacle>) {
    forall i :: 0 <= i < |obstacles| ==> obstacles[i].health > 0.0
  }

  predicate AllZombiesLive(zombies: seq<Zombie>) {
    forall i :: 0 <= i < |zombies| ==> zombies[i].health > 0.0
  }

  /** `Math.hypot(cx - zone.x, cy - zone.y) > zone.radius`, compared exactly. */
  predicate OutsideZone(cx: real, cy: real, zone: SafeZone) {
    zone.radius < 0.0
    || (cx - zone.x) * (cx - zone.x) + (cy - zone.y) * (cy - zone.y) > zone.radius * zone.radius
  }

  /** The centre of a box (a missing extent counting as 20) lies outside the zone. */
  predicate CentreOutside(box: Rect, zone: SafeZone) {
    OutsideZone(box.x + OrDefault(box.width, 20.0) / 2.0,
                box.y + OrDefault(box.height, 20.0) / 2.0, zone)
  }

  /** `applyZoneDamage`: an entity whose health is 0 is skipped; otherwise an
      entity whose centre (box defaulting to 20x20) lies outside the zone
      loses `zoneDamage / 60`. Returns the new health. */
  function ZoneDamage(health: real, box: Rect, zone: SafeZone, zoneDamage: real): (h: real)
    ensures health == 0.0 ==> h == 0.0
    ensures h == health || h == health - zoneDamage / 60.0
    ensures zoneDamage >= 0.0 ==> h <= health
    ensures !CentreOutside(box, zone) ==> h == health
    ensures health != 0.0 && CentreOutside(box, zone) ==> h == health - zoneDamage / 60.0
  {
    if health == 0.0 then health
    else if CentreOutside(box, zone) then health - zoneDamage / 60.0
    else health
  }

  /** The health of an entity that stays put for `n` ticks of zone damage. */
  function Exposed(health: real, box: Rect, zone: SafeZone, zoneDamage: real, n: nat): real
    decreases n
  {
    if n == 0 then health else ZoneDamage(Exposed(health, box, zone, zoneDamage, n - 1), box, zone, zoneDamage)
  }

  /** Outside the zone, health drains linearly, `zoneDamage / 60` per tick,
      for as long as it stays positive. */
  lemma {:induction false} ExposureIsLinear(health: real, box: Rect, zone: SafeZone, zoneDamage: real, n: nat)
    requires CentreOutside(box, zone) && zoneDamage > 0.0
    requires (n as real) * zoneDamage / 60.0 <= health
    ensures Exposed(health, box, zone, zoneDamage, n) == health - (n as real) * zoneDamage / 60.0
    decreases n
  {
    if n > 0 {
      var k := (n - 1) as real;
      assert k * zoneDamage / 60.0 + zoneDamage / 60.0 == (n as real) * zoneDamage / 60.0;
      ExposureIsLinear(health, box, zone, zoneDamage, n - 1);
    }
  }

  /** With the rooms' zone damage of 2, an entity at full health that stays
      outside the zone still has health after 2999 ticks, is not below zero
      after the 3000th, and has none left after the 3001st. With exact reals
      the 3000th tick lands on 0; the program's doubles leave a few
      picojoules there, so only these bounds hold for both. */
  lemma FullHealthLastsThreeThousandTicks(box: Rect, zone: SafeZone)
    requires CentreOutside(box, zone)
    ensures Exposed(MaxHealth, box, zone, 2.0, 2999) > 0.0
    ensures Exposed(MaxHealth, box, zone, 2.0, 3000) >= 0.0
    ensures Exposed(MaxHealth, box, zone, 2.0, 3001) <= 0.0
  {
    ExposureIsLinear(MaxHealth, box, zone, 2.0, 2999);
    ExposureIsLinear(MaxHealth, box, zone, 2.0, 3000);
  }

  /** `createExplosion`: twelve particles with life 30. */
  function Explosion(): (ps: seq<Particle>)
    ensures |ps| == 12 && forall i :: 0 <= i < 12 ==> ps[i].life == 30
  {
    seq(12, _ => Particle(30))
  }

  /** `array.splice(i, 1)`. */
  function RemoveAt<T>(s: seq<T>, i: nat): (r: seq<T>)
    requires i < |s|
    ensures |r| == |s| - 1
    ensures forall j :: 0 <= j < i ==> r[j] == s[j]
    ensures forall j :: i <= j < |r| ==> r[j] == s[j + 1]
  {
    s[..i] + s[i + 1..]
  }
}
