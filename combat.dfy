/** The combat steps of one tick: `updateBullets`, the zombie-contact part of
    `updateBots` with `createSuperZombie`, and `updateParticles`. Each step is
    a specification function over the affected collections (folded over the
    filtered array from its first element to its last, as `Array.filter`
    visits it) and a method with the source's loops proved equal to it. */
module Combat {
  import opened Wrappers
  import opened Geometry
  import opened Entities

  const DefaultBulletDamage: real := 10.0
  const KillScore: int := 10
  const ContactDamage: real := 10.0
  const SuperZombieScore: int := 5
  const SuperZombieHealth: real := 200.0
  const SuperZombieSize: real := 30.0
  const SuperZombieDamage: real := 2.0

  // ---------------------------------------------------------------------
  // Reverse scans: `for (let i = a.length - 1; i >= 0; i--) if (hit(a[i])) ...`

  /** The highest index whose element satisfies `hit`, if any. */
  function LastWhere<T>(s: seq<T>, hit: T -> bool): (k: Option<nat>)
    ensures k.None? <==> forall i :: 0 <= i < |s| ==> !hit(s[i])
    ensures k.Some? ==> k.value < |s| && hit(s[k.value])
    ensures k.Some? ==> forall j :: k.value < j < |s| ==> !hit(s[j])
  {
    if s == [] then None
    else if hit(s[|s| - 1]) then Some(|s| - 1)
    else LastWhere(s[..|s| - 1], hit)
  }

  /** The reverse `for` loop that stops at the first hit it meets. */
  method FindLast<T>(s: seq<T>, hit: T -> bool) returns (k: Option<nat>)
    ensures k == LastWhere(s, hit)
  {
    var i := |s|;
    while i > 0
      invariant 0 <= i <= |s|
      invariant LastWhere(s, hit) == LastWhere(s[..i], hit)
    {
      assert s[..i][..i - 1] == s[..i - 1];
      if hit(s[i - 1]) {
        return Some(i - 1);
      }
      i := i - 1;
    }
    assert s[..0] == [];
    return None;
  }

  /** `obstacle.health > 0 && checkCollision(r, obstacle)` */
  function ObstacleHitBy(r: Rect): Obstacle -> bool {
    (o: Obstacle) => LiveOverlap(r, o)
  }

  /** `checkCollision(r, zombie)` */
  function ZombieHitBy(r: Rect): Zombie -> bool {
    (z: Zombie) => CheckCollision(r, z.Box())
  }

  // ---------------------------------------------------------------------
  // updateBullets

  /** What a bullet can change: the room's obstacles, zombies, particles and score. */
  datatype Field = Field(obstacles: seq<Obstacle>, zombies: seq<Zombie>, particles: seq<Particle>, score: int)

  /** The bullet after one tick of flight. */
  function Advance(b: Bullet): Bullet {
    b.(x := b.x + b.vx, y := b.y + b.vy, life := b.life - 1)
  }

  /** `bullet.damage || 10` */
  function DamageOf(b: Bullet): real {
    OrDefault(b.damage, DefaultBulletDamage)
  }

  predicate StrictlyInWorld(b: Bullet) {
    0.0 < b.x < WorldWidth && 0.0 < b.y < WorldHeight
  }

  /** Damage obstacle i; splice it out once its health is not positive. */
  function DamageObstacle(obs: seq<Obstacle>, i: nat, d: real): seq<Obstacle>
    requires i < |obs|
  {
    var o := obs[i].(health := obs[i].health - d);
    if o.health <= 0.0 then RemoveAt(obs, i) else obs[i := o]
  }

  /** Damage zombie j; splice it out and score 10 once its health is not positive. */
  function DamageZombie(f: Field, j: nat, d: real): Field
    requires j < |f.zombies|
  {
    var z := f.zombies[j].(health := f.zombies[j].health - d);
    if z.health <= 0.0 then f.(zombies := RemoveAt(f.zombies, j), score := f.score + KillScore)
    else f.(zombies := f.zombies[j := z])
  }

  datatype Fate = Fate(survives: bool, bullet: Bullet, field: Field)

  /** The `filter` callback of `updateBullets` for one bullet. */
  function BulletStep(b: Bullet, f: Field): (r: Fate)
    ensures r.bullet == Advance(b)
    // a bullet that is kept is alive and strictly inside the world, and changed nothing
    ensures r.survives ==> r.bullet.life > 0 && StrictlyInWorld(r.bullet) && r.field == f
    // the highest-index live obstacle it overlaps takes the damage and consumes it
    ensures LastWhere(f.obstacles, ObstacleHitBy(r.bullet.Box())).Some? ==>
      var i := LastWhere(f.obstacles, ObstacleHitBy(r.bullet.Box())).value;
      var h := f.obstacles[i].health - DamageOf(r.bullet);
      && !r.survives
      && r.field.zombies == f.zombies && r.field.score == f.score
      && r.field.particles == f.particles + Explosion()
      && (h <= 0.0 ==> r.field.obstacles == RemoveAt(f.obstacles, i))
      && (h > 0.0 ==> r.field.obstacles == f.obstacles[i := f.obstacles[i].(health := h)])
    // otherwise the highest-index zombie it overlaps takes the damage and consumes it
    ensures LastWhere(f.obstacles, ObstacleHitBy(r.bullet.Box())).None? &&
            LastWhere(f.zombies, ZombieHitBy(r.bullet.Box())).Some? ==>
      var j := LastWhere(f.zombies, ZombieHitBy(r.bullet.Box())).value;
      var h := f.zombies[j].health - DamageOf(r.bullet);
      && !r.survives
      && r.field.obstacles == f.obstacles
      && r.field.particles == f.particles + Explosion()
      && (h <= 0.0 ==> r.field.zombies == RemoveAt(f.zombies, j) && r.field.score == f.score + KillScore)
      && (h > 0.0 ==> r.field.zombies == f.zombies[j := f.zombies[j].(health := h)] && r.field.score == f.score)
    // a bullet that hits nothing survives exactly when it is alive and inside
    ensures LastWhere(f.obstacles, ObstacleHitBy(r.bullet.Box())).None? &&
            LastWhere(f.zombies, ZombieHitBy(r.bullet.Box())).None? ==>
      r.field == f && (r.survives <==> r.bullet.life > 0 && StrictlyInWorld(r.bullet))
    // bookkeeping that holds in every case
    ensures r.field.score - f.score == KillScore * (|f.zombies| - |r.field.zombies|)
    ensures |r.field.zombies| <= |f.zombies| && |r.field.obstacles| <= |f.obstacles|
    ensures AllObstaclesLive(f.obstacles) ==> AllObstaclesLive(r.field.obstacles)
    ensures AllZombiesLive(f.zombies) ==> AllZombiesLive(r.field.zombies)
  {
    var m := Advance(b);
    match LastWhere(f.obstacles, ObstacleHitBy(m.Box()))
    case Some(i) =>
      Fate(false, m, f.(obstacles := DamageObstacle(f.obstacles, i, DamageOf(m)),
                        particles := f.particles + Explosion()))
    case None =>
      match LastWhere(f.zombies, ZombieHitBy(m.Box()))
      case Some(j) =>
        Fate(false, m, DamageZombie(f, j, DamageOf(m)).(particles := f.particles + Explosion()))
      case None =>
        Fate(m.life > 0 && StrictlyInWorld(m), m, f)
  }

  datatype Sweep = Sweep(kept: seq<Bullet>, field: Field)

  /** `updateBullets`: the bullets in order, each against the field the
      previous ones left behind. */
  function BulletsAfterTick(bullets: seq<Bullet>, f: Field): (r: Sweep)
    ensures |r.kept| <= |bullets|
    ensures forall i :: 0 <= i < |r.kept| ==> r.kept[i].life > 0 && StrictlyInWorld(r.kept[i])
    ensures r.field.score - f.score == KillScore * (|f.zombies| - |r.field.zombies|)
    ensures |r.field.zombies| <= |f.zombies| && |r.field.obstacles| <= |f.obstacles|
    ensures AllObstaclesLive(f.obstacles) ==> AllObstaclesLive(r.field.obstacles)
    ensures AllZombiesLive(f.zombies) ==> AllZombiesLive(r.field.zombies)
    decreases |bullets|
  {
    if bullets == [] then Sweep([], f)
    else
      var prev := BulletsAfterTick(bullets[..|bullets| - 1], f);
      var fate := BulletStep(bullets[|bullets| - 1], prev.field);
      Sweep(if fate.survives then prev.kept + [fate.bullet] else prev.kept, fate.field)
  }

  /** In a room with no obstacles and no zombies the bullets change nothing
      in the field, and all of them are kept exactly when each one is still
      alive and strictly inside the world after its move. */
  lemma {:induction false} EmptyFieldOnlyAges(bullets: seq<Bullet>, f: Field)
    requires f.obstacles == [] && f.zombies == []
    ensures BulletsAfterTick(bullets, f).field == f
    ensures |BulletsAfterTick(bullets, f).kept| == |bullets| <==>
            forall i :: 0 <= i < |bullets| ==> Advance(bullets[i]).life > 0 && StrictlyInWorld(Advance(bullets[i]))
    decreases |bullets|
  {
    if bullets != [] {
      var init := bullets[..|bullets| - 1];
      EmptyFieldOnlyAges(init, f);
      var fate := BulletStep(bullets[|bullets| - 1], f);
      assert LastWhere(f.obstacles, ObstacleHitBy(fate.bullet.Box())).None?;
      assert LastWhere(f.zombies, ZombieHitBy(fate.bullet.Box())).None?;
      assert forall i :: 0 <= i < |init| ==> init[i] == bullets[i];
    }
  }

  /** The `filter` callback of `updateBullets`, with its two reverse loops. */
  method StepBullet(b: Bullet, f: Field) returns (survives: bool, m: Bullet, g: Field)
    ensures Fate(survives, m, g) == BulletStep(b, f)
  {
    m := Advance(b);
    var i := FindLast(f.obstacles, ObstacleHitBy(m.Box()));
    if i.Some? {
      g := f.(obstacles := DamageObstacle(f.obstacles, i.value, DamageOf(m)),
              particles := f.particles + Explosion());
      return false, m, g;
    }
    var j := FindLast(f.zombies, ZombieHitBy(m.Box()));
    if j.Some? {
      g := DamageZombie(f, j.value, DamageOf(m)).(particles := f.particles + Explosion());
      return false, m, g;
    }
    survives, g := m.life > 0 && StrictlyInWorld(m), f;
  }

  /** `updateBullets`: `room.bullets = room.bullets.filter(...)`. */
  method UpdateBullets(bullets: seq<Bullet>, f: Field) returns (kept: seq<Bullet>, g: Field)
    ensures Sweep(kept, g) == BulletsAfterTick(bullets, f)
  {
    kept, g := [], f;
    var i := 0;
    while i < |bullets|
      invariant 0 <= i <= |bullets|
      invariant Sweep(kept, g) == BulletsAfterTick(bullets[..i], f)
    {
      assert bullets[..i + 1][..i] == bullets[..i];
      assert bullets[..i + 1][i] == bullets[i];
      var survives, m, g';
      survives, m, g' := StepBullet(bullets[i], g);
      kept := if survives then kept + [m] else kept;
      assert Sweep(kept, g') == BulletsAfterTick(bullets[..i + 1], f);
      g := g';
      i := i + 1;
    }
    assert bullets[..i] == bullets;
  }

  // ---------------------------------------------------------------------
  // updateBots: zombie contact, super-zombie conversion and zone damage

  /** What a bot can change: the room's zombies, particles and score. */
  datatype Camp = Camp(zombies: seq<Zombie>, particles: seq<Particle>, score: int)

  /** `createSuperZombie(x, y, room)` */
  function CreateSuperZombie(c: Camp, x: real, y: real, multiplier: real): (r: Camp)
    ensures r.particles == c.particles
    ensures |r.zombies| == |c.zombies| + 1 && r.zombies[..|c.zombies|] == c.zombies
    ensures var z := r.zombies[|c.zombies|];
            z.x == x && z.y == y && z.health == SuperZombieHealth * multiplier
    ensures r.score == c.score + SuperZombieScore
  {
    c.(zombies := c.zombies + [Zombie(x, y, SuperZombieSize, SuperZombieSize,
                                      SuperZombieHealth * multiplier, SuperZombieHealth * multiplier,
                                      SuperZombieDamage)],
       score := c.score + SuperZombieScore)
  }

  datatype BotFate = BotFate(keep: bool, bot: Bot, camp: Camp)

  /** The part of the `updateBots` callback after movement and firing: the
      highest-index zombie the bot overlaps hurts it by 10 (one zombie per
      tick); a bot brought to 0 or below becomes a super zombie at its
      position; otherwise zone damage applies and the bot stays while its
      health is positive. */
  function BotStep(bot: Bot, c: Camp, zone: SafeZone, zoneDamage: real, multiplier: real): (r: BotFate)
    ensures r.keep ==> bot.alive && r.bot.alive && r.bot.health > 0.0
    ensures !bot.alive ==> !r.keep && r.camp == c
    ensures |c.zombies| <= |r.camp.zombies| <= |c.zombies| + 1
    ensures r.camp.zombies[..|c.zombies|] == c.zombies
    ensures r.camp.score - c.score == SuperZombieScore * (|r.camp.zombies| - |c.zombies|)
    // a conversion happens exactly when contact damage killed the bot
    ensures |r.camp.zombies| == |c.zombies| + 1 <==>
      bot.alive && LastWhere(c.zombies, ZombieHitBy(bot.Box())).Some? && bot.health - ContactDamage <= 0.0
    ensures |r.camp.zombies| == |c.zombies| + 1 ==>
      !r.keep && !r.bot.alive && r.camp.zombies[|c.zombies|].x == bot.x && r.camp.zombies[|c.zombies|].y == bot.y
    ensures multiplier > 0.0 && AllZombiesLive(c.zombies) ==> AllZombiesLive(r.camp.zombies)
    // a converted bot took the contact damage, and its explosion is drawn
    ensures |r.camp.zombies| == |c.zombies| + 1 ==>
      && r.bot == bot.(health := bot.health - ContactDamage, alive := false)
      && r.camp.particles == c.particles + Explosion()
    // a live bot that is not converted takes contact damage (when touching a
    // zombie) and then zone damage, and is kept exactly while it has health
    ensures bot.alive && |r.camp.zombies| == |c.zombies| ==>
      var hit := LastWhere(c.zombies, ZombieHitBy(bot.Box())).Some?;
      && r.bot == bot.(health := ZoneDamage(bot.health - (if hit then ContactDamage else 0.0),
                                            bot.Box(), zone, zoneDamage))
      && (r.keep <==> r.bot.health > 0.0)
      && r.camp == c.(particles := c.particles + (if hit then Explosion() else []))
  {
    if !bot.alive then BotFate(false, bot, c)
    else match LastWhere(c.zombies, ZombieHitBy(bot.Box()))
      case Some(_) =>
        var hurt := bot.(health := bot.health - ContactDamage);
        var c1 := c.(particles := c.particles + Explosion());
        if hurt.health <= 0.0 then
          BotFate(false, hurt.(alive := false), CreateSuperZombie(c1, bot.x, bot.y, multiplier))
        else
          var z := hurt.(health := ZoneDamage(hurt.health, hurt.Box(), zone, zoneDamage));
          BotFate(z.health > 0.0, z, c1)
      case None =>
        var z := bot.(health := ZoneDamage(bot.health, bot.Box(), zone, zoneDamage));
        BotFate(z.health > 0.0, z, c)
  }

  datatype Muster = Muster(kept: seq<Bot>, camp: Camp)

  /** The zombie-contact pass of `updateBots`, bots in order. */
  function BotsAfterTick(bots: seq<Bot>, c: Camp, zone: SafeZone, zoneDamage: real, multiplier: real): (r: Muster)
    ensures forall i :: 0 <= i < |r.kept| ==> r.kept[i].alive && r.kept[i].health > 0.0
    ensures |c.zombies| <= |r.camp.zombies|
    ensures r.camp.zombies[..|c.zombies|] == c.zombies
    ensures r.camp.score - c.score == SuperZombieScore * (|r.camp.zombies| - |c.zombies|)
    // every bot is kept, converted into one super zombie, or dropped
    ensures |r.kept| + (|r.camp.zombies| - |c.zombies|) <= |bots|
    ensures multiplier > 0.0 && AllZombiesLive(c.zombies) ==> AllZombiesLive(r.camp.zombies)
    decreases |bots|
  {
    if bots == [] then Muster([], c)
    else
      var prev := BotsAfterTick(bots[..|bots| - 1], c, zone, zoneDamage, multiplier);
      var fate := BotStep(bots[|bots| - 1], prev.camp, zone, zoneDamage, multiplier);
      var r := Muster(if fate.keep then prev.kept + [fate.bot] else prev.kept, fate.camp);
      assert r.camp.zombies[..|prev.camp.zombies|] == prev.camp.zombies;
      assert prev.camp.zombies[..|c.zombies|] == c.zombies;
      r
  }

  /** The bot-contact `filter` callback, with its reverse loop over zombies. */
  method StepBot(bot: Bot, c: Camp, zone: SafeZone, zoneDamage: real, multiplier: real)
    returns (keep: bool, b: Bot, d: Camp)
    ensures BotFate(keep, b, d) == BotStep(bot, c, zone, zoneDamage, multiplier)
  {
    b, d := bot, c;
    if !b.alive {
      return false, b, d;
    }
    var i := FindLast(c.zombies, ZombieHitBy(b.Box()));
    if i.Some? {
      b := b.(health := b.health - ContactDamage);
      d := d.(particles := d.particles + Explosion());
      if b.health <= 0.0 {
        d := CreateSuperZombie(d, b.x, b.y, multiplier);
        b := b.(alive := false);
        return false, b, d;
      }
    }
    b := b.(health := ZoneDamage(b.health, b.Box(), zone, zoneDamage));
    keep := b.health > 0.0;
  }

  /** `updateBots` without movement and firing: `room.bots = room.bots.filter(...)`. */
  method UpdateBots(bots: seq<Bot>, c: Camp, zone: SafeZone, zoneDamage: real, multiplier: real)
    returns (kept: seq<Bot>, d: Camp)
    ensures Muster(kept, d) == BotsAfterTick(bots, c, zone, zoneDamage, multiplier)
  {
    kept, d := [], c;
    var i := 0;
    while i < |bots|
      invariant 0 <= i <= |bots|
      invariant Muster(kept, d) == BotsAfterTick(bots[..i], c, zone, zoneDamage, multiplier)
    {
      assert bots[..i + 1][..i] == bots[..i];
      assert bots[..i + 1][i] == bots[i];
      var keep, b, d';
      keep, b, d' := StepBot(bots[i], d, zone, zoneDamage, multiplier);
      kept := if keep then kept + [b] else kept;
      assert Muster(kept, d') == BotsAfterTick(bots[..i + 1], c, zone, zoneDamage, multiplier);
      d := d';
      i := i + 1;
    }
    assert bots[..i] == bots;
  }

  // ---------------------------------------------------------------------
  // updateParticles

  /** `updateParticles`: every particle loses one life and only those still
      alive are kept, in order. */
  function ParticlesAfterTick(ps: seq<Particle>): (r: seq<Particle>)
    ensures |r| <= |ps|
    ensures forall i :: 0 <= i < |r| ==> r[i].life > 0
    decreases |ps|
  {
    if ps == [] then []
    else
      var p := ps[|ps| - 1].(life := ps[|ps| - 1].life - 1);
      ParticlesAfterTick(ps[..|ps| - 1]) + (if p.life > 0 then [p] else [])
  }

  /** The filter keeps every particle that has life left after ageing, with
      one life fewer. */
  lemma {:induction false} AgedParticlesKept(ps: seq<Particle>)
    ensures forall i :: 0 <= i < |ps| && ps[i].life > 1 ==> Particle(ps[i].life - 1) in ParticlesAfterTick(ps)
    decreases |ps|
  {
    if ps != [] {
      var n := |ps| - 1;
      var prev := ps[..n];
      AgedParticlesKept(prev);
      var r := ParticlesAfterTick(ps);
      var tail := if ps[n].life - 1 > 0 then [Particle(ps[n].life - 1)] else [];
      assert r == ParticlesAfterTick(prev) + tail;
      forall i | 0 <= i < |ps| && ps[i].life > 1
        ensures Particle(ps[i].life - 1) in r
      {
        if i < n {
          assert prev[i] == ps[i];
          assert Particle(ps[i].life - 1) in ParticlesAfterTick(prev);
        } else {
          assert r[|r| - 1] == Particle(ps[i].life - 1);
        }
      }
    }
  }

  /** Every particle the filter keeps is a particle of the input, aged by one. */
  lemma {:induction false} KeptParticlesAged(ps: seq<Particle>)
    ensures forall p :: p in ParticlesAfterTick(ps) ==> Particle(p.life + 1) in ps
    decreases |ps|
  {
    if ps != [] {
      var n := |ps| - 1;
      var prev := ps[..n];
      KeptParticlesAged(prev);
      var r := ParticlesAfterTick(ps);
      var tail := if ps[n].life - 1 > 0 then [Particle(ps[n].life - 1)] else [];
      assert r == ParticlesAfterTick(prev) + tail;
      forall p | p in r
        ensures Particle(p.life + 1) in ps
      {
        if p in ParticlesAfterTick(prev) {
          assert Particle(p.life + 1) in prev;
        } else {
          assert ps[n] == Particle(p.life + 1);
        }
      }
    }
  }

  /** The indices of the particles that survive one more tick. */
  function LongLived(ps: seq<Particle>): set<nat> {
    set i: nat | i < |ps| && ps[i].life > 1
  }

  /** `updateParticles` keeps exactly as many particles as have more than
      one life left. */
  lemma {:induction false} ParticlesKeptCount(ps: seq<Particle>)
    ensures |ParticlesAfterTick(ps)| == |LongLived(ps)|
    decreases |ps|
  {
    if ps != [] {
      var n := |ps| - 1;
      var prev := ps[..n];
      ParticlesKeptCount(prev);
      assert LongLived(prev) == set i: nat | i < n && ps[i].life > 1;
      if ps[n].life > 1 {
        assert LongLived(ps) == LongLived(prev) + {n};
        assert n !in LongLived(prev);
      } else {
        assert LongLived(ps) == LongLived(prev);
      }
    }
  }

  /** Particles that all have the same life L age together: one fewer life
      each while L > 1, and all gone when L is 1 or less. */
  lemma {:induction false} UniformParticlesAge(ps: seq<Particle>, life: int)
    requires forall i :: 0 <= i < |ps| ==> ps[i].life == life
    ensures life > 1 ==> ParticlesAfterTick(ps) == seq(|ps|, _ => Particle(life - 1))
    ensures life <= 1 ==> ParticlesAfterTick(ps) == []
    decreases |ps|
  {
    if ps != [] {
      UniformParticlesAge(ps[..|ps| - 1], life);
    }
  }

  /** The particles left after n ticks. */
  function ParticlesAfter(ps: seq<Particle>, n: nat): seq<Particle>
    decreases n
  {
    if n == 0 then ps else ParticlesAfter(ParticlesAfterTick(ps), n - 1)
  }

  /** An explosion's twelve particles are all drawn for 29 more ticks and
      are gone after the 30th. */
  lemma ExplosionLifetime()
    ensures |ParticlesAfter(Explosion(), 29)| == 12
    ensures ParticlesAfter(Explosion(), 30) == []
  {
    UniformAgeing(Explosion(), 30, 29);
    UniformAgeing(Explosion(), 30, 30);
  }

  lemma {:induction false} UniformAgeing(ps: seq<Particle>, life: int, n: nat)
    requires life >= 1
    requires forall i :: 0 <= i < |ps| ==> ps[i].life == life
    ensures n < life ==> ParticlesAfter(ps, n) == seq(|ps|, _ => Particle(life - n))
    ensures n >= life ==> ParticlesAfter(ps, n) == []
    decreases n
  {
    if n > 0 {
      UniformParticlesAge(ps, life);
      var next := ParticlesAfterTick(ps);
      assert ParticlesAfter(ps, n) == ParticlesAfter(next, n - 1);
      if life > 1 {
        UniformAgeing(next, life - 1, n - 1);
      } else {
        EmptyStaysEmpty(n - 1);
      }
    }
  }

  lemma {:induction false} EmptyStaysEmpty(n: nat)
    ensures ParticlesAfter([], n) == []
  {
    if n > 0 {
      EmptyStaysEmpty(n - 1);
    }
  }

  /** `updateParticles`: `room.particles = room.particles.filter(...)`. */
  method UpdateParticles(ps: seq<Particle>) returns (r: seq<Particle>)
    ensures r == ParticlesAfterTick(ps)
  {
    r := [];
    var i := 0;
    while i < |ps|
      invariant 0 <= i <= |ps|
      invariant r == ParticlesAfterTick(ps[..i])
    {
      assert ps[..i + 1][..i] == ps[..i];
      var p := ps[i].(life := ps[i].life - 1);
      if p.life > 0 {
        r := r + [p];
      }
      i := i + 1;
    }
    assert ps[..i] == ps;
  }
}
