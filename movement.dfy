/** What a player's own events do to the roster: the movement step of
    `handlePlayerInput` and the cooldown gate of `handleShoot`. */
module Movement {
  import opened Geometry
  import opened Entities

  /** The held keys of a `playerInput` event. */
  datatype Keys = Keys(w: bool, s: bool, a: bool, d: bool)

  /** Each held key moves `speed` along its axis; opposite keys cancel and a
      diagonal is the sum of both axes (not normalised). */
  function ProposedX(p: Player, k: Keys): real {
    p.x - (if k.a then p.speed else 0.0) + (if k.d then p.speed else 0.0)
  }

  function ProposedY(p: Player, k: Keys): real {
    p.y - (if k.w then p.speed else 0.0) + (if k.s then p.speed else 0.0)
  }

  /** The proposal overlaps a live obstacle. */
  predicate Blocked(p: Player, k: Keys, obstacles: seq<Obstacle>) {
    CheckCollisionWithObstacles(Rect(ProposedX(p, k), ProposedY(p, k), p.width, p.height), obstacles)
  }

  predicate InWorld(p: Player) {
    0.0 <= p.x <= WorldWidth - p.width && 0.0 <= p.y <= WorldHeight - p.height
  }

  /** The movement step for a known, alive player: record the input time,
      take the proposal unless it is blocked, then clamp into the world. */
  function MovePlayer(p: Player, k: Keys, obstacles: seq<Obstacle>, now: int): (q: Player)
    ensures q == p.(x := q.x, y := q.y, lastInputTime := now)
    ensures 0.0 <= q.x && 0.0 <= q.y
    ensures p.width <= WorldWidth ==> q.x <= WorldWidth - p.width
    ensures p.height <= WorldHeight ==> q.y <= WorldHeight - p.height
    ensures Blocked(p, k, obstacles) ==>
      q.x == Clamp(p.x, WorldWidth - p.width) && q.y == Clamp(p.y, WorldHeight - p.height)
    ensures !Blocked(p, k, obstacles) ==>
      q.x == Clamp(ProposedX(p, k), WorldWidth - p.width) && q.y == Clamp(ProposedY(p, k), WorldHeight - p.height)
  {
    var nx, ny := ProposedX(p, k), ProposedY(p, k);
    var (x, y) := if !CheckCollisionWithObstacles(Rect(nx, ny, p.width, p.height), obstacles)
                  then (nx, ny) else (p.x, p.y);
    p.(x := Clamp(x, WorldWidth - p.width), y := Clamp(y, WorldHeight - p.height), lastInputTime := now)
  }

  /** A blocked proposal leaves a player who is inside the world where it was. */
  lemma BlockedMoveKeepsPosition(p: Player, k: Keys, obstacles: seq<Obstacle>, now: int)
    requires InWorld(p) && Blocked(p, k, obstacles)
    ensures MovePlayer(p, k, obstacles, now).x == p.x && MovePlayer(p, k, obstacles, now).y == p.y
  {
  }

  /** An unblocked proposal that stays inside the world is taken exactly. */
  lemma FreeMoveIsExact(p: Player, k: Keys, obstacles: seq<Obstacle>, now: int)
    requires !Blocked(p, k, obstacles)
    requires 0.0 <= ProposedX(p, k) <= WorldWidth - p.width
    requires 0.0 <= ProposedY(p, k) <= WorldHeight - p.height
    ensures MovePlayer(p, k, obstacles, now).x == ProposedX(p, k)
    ensures MovePlayer(p, k, obstacles, now).y == ProposedY(p, k)
  {
  }

  /** A player at (100,100) with speed 4 pressing "right" next to a live
      obstacle occupying (100,100,40,40) stays at (100,100). */
  lemma ObstacleStopsMoveRight(p: Player, now: int)
    requires p.x == 100.0 && p.y == 100.0 && p.width == 20.0 && p.height == 20.0 && p.speed == 4.0
    ensures var o := Obstacle(100.0, 100.0, 40.0, 40.0, 150.0, 150.0);
            var q := MovePlayer(p, Keys(false, false, false, true), [o], now);
            q.x == 100.0 && q.y == 100.0
  {
    var o := Obstacle(100.0, 100.0, 40.0, 40.0, 150.0, 150.0);
    assert LiveOverlap(Rect(104.0, 100.0, 20.0, 20.0), o);
  }

  /** `handlePlayerInput` on the roster: an unknown or dead player is
      ignored; otherwise only that player's entry changes. */
  function ApplyInput(players: map<string, Player>, id: string, k: Keys,
                      obstacles: seq<Obstacle>, now: int): (r: map<string, Player>)
    ensures r.Keys == players.Keys
    ensures (id !in players || !players[id].alive) ==> r == players
    ensures id in players && players[id].alive ==>
      r == players[id := MovePlayer(players[id], k, obstacles, now)]
    ensures forall other :: other in players && other != id ==> r[other] == players[other]
    ensures id in players && players[id].alive && players[id].width <= WorldWidth ==>
      0.0 <= r[id].x <= WorldWidth - players[id].width
  {
    if id in players && players[id].alive
    then players[id := MovePlayer(players[id], k, obstacles, now)]
    else players
  }

  const ShotCooldown: int := 150
  const PlayerBulletLife: int := 90
  const PlayerBulletDamage: real := 15.0

  /** The gate of `handleShoot`: a known, alive player whose last shot is at
      least 150 ms old. There is no check of the event's own timestamp. */
  predicate MayShoot(players: map<string, Player>, id: string, now: int) {
    id in players && players[id].alive && !(now - players[id].lastShot < ShotCooldown)
  }

  datatype Volley = Volley(players: map<string, Player>, bullets: seq<Bullet>)

  /** `handleShoot`: a bullet from the player's centre (velocity given; the
      direction is trigonometry on the target point), life 90, damage 15,
      owned by the shooter, and the shot time recorded. */
  function Shoot(players: map<string, Player>, bullets: seq<Bullet>, id: string,
                 now: int, vx: real, vy: real): (r: Volley)
    ensures MayShoot(players, id, now) ==>
      && r.players == players[id := players[id].(lastShot := now)]
      && |r.bullets| == |bullets| + 1 && r.bullets[..|bullets|] == bullets
      && var b := r.bullets[|bullets|];
         b.ownerId == id && b.life == PlayerBulletLife && b.damage == PlayerBulletDamage
         && b.x == players[id].x + 10.0 && b.y == players[id].y + 10.0
    ensures !MayShoot(players, id, now) ==> r == Volley(players, bullets)
  {
    if MayShoot(players, id, now) then
      var p := players[id];
      Volley(players[id := p.(lastShot := now)],
             bullets + [Bullet(p.x + 10.0, p.y + 10.0, vx, vy, PlayerBulletLife, PlayerBulletDamage, id)])
    else Volley(players, bullets)
  }

  /** Two shots from one player less than 150 ms apart add at most one bullet. */
  lemma CooldownAllowsOneShot(players: map<string, Player>, bullets: seq<Bullet>, id: string,
                              t1: int, t2: int, vx: real, vy: real)
    requires t1 <= t2 < t1 + ShotCooldown
    ensures var v1 := Shoot(players, bullets, id, t1, vx, vy);
            |Shoot(v1.players, v1.bullets, id, t2, vx, vy).bullets| <= |bullets| + 1
  {
    var v1 := Shoot(players, bullets, id, t1, vx, vy);
    if MayShoot(players, id, t1) {
      assert !MayShoot(v1.players, id, t2);
    }
  }
}
