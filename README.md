# Survival shooter room server, modelled in Dafny

This project models the authoritative part of the game server in
`server.js`. The server keeps a dictionary of rooms. Each room holds up to
four human players, bot allies, zombies, bullets, explosion particles,
destructible obstacles, a safe zone that shrinks, and the rescue helicopter.
Socket events create, join and leave rooms, start a match, move players,
fire shots and restart a match. A 16 ms timer runs `updateGame` on every running room.

The model is split into these modules:

- `Geometry`: the world size, the `checkCollision` overlap test and the clamp into the world.
- `Entities`: the records a room holds, `checkCollisionWithObstacles`, `applyZoneDamage`, `createExplosion` and array splicing.
- `Movement`: the movement step of `handlePlayerInput` and the cooldown gate of `handleShoot`.
- `Combat`: `updateBullets`, the zombie-contact part of `updateBots` (with `createSuperZombie`) and `updateParticles`.
  - Each step is a specification function, folded over the array in the order `Array.filter` visits it.
  - Each step also has a method with the source's loops, including the reverse `for` scans, proved equal to that function.
- `GameRules`: the player loop of `updateGame`, the horde timer and `spawnZombieHorde`, the zone shrink, `spawnHelicopter` and its guard, and the two ways a match ends.
- `Lifecycle`: the roster rules.
  - The settings `handleCreateRoom` derives from its request.
  - Upper-casing of room ids.
  - Who `handleJoinRoom` admits, and at which spawn corner.
  - What `handleDisconnect` does to the roster.
  - How `restartGame` resets the players.
- `Ticking`: the room state as a value (`Snapshot`), with one `updateGame` call as `TickSpec`, `startGame` as `StartSpec` and `restartGame` as `RestartSpec`.
  - The method `UpdateGame` runs the steps in the source's order and is proved equal to `TickSpec`.
  - The invariant `Inv` is preserved by both.
- `Rooms`: class `Room`, whose fields the handlers and the tick update in place. Each method is proved against the functions above.
- `Registry`: class `Server`, holding the `rooms` dictionary and the socket handlers that look a room up.

## How the nondeterminism is handled

Randomness, the clock and the socket layer are inputs to the model:

- Every `Date.now()` is a parameter `now`.
- Room ids, player colours, horde positions, the helicopter corner, new player positions on restart, and the regenerated obstacles and bots are parameters too.
  - A horde draw is an edge plus a fraction of its length.
  - The regenerated values are bundled in `Redraw`.
- The room a socket belongs to is a parameter `roomOf`. It stands for the `clientSocket.rooms` lookup.
- The direction of a shot becomes a velocity parameter, since it is trigonometry on the target point.

## Model

| member | source | states |
|---|---|---|
| Geometry.CheckCollision | server.js:45-50 | the four strict comparisons of `checkCollision`, a missing or zero extent on the first box read as 4: boxes separated along either axis never collide, and a collision needs a positive combined extent on both axes |
| Geometry.CollisionIffCommonPoint | server.js:45-50 | for boxes with positive extents, the four-comparison test holds exactly when the two open boxes share a point |
| Geometry.CollisionSymmetric | server.js:45-50 | for boxes with positive extents, the overlap test does not depend on argument order |
| Geometry.MissingExtentIsFour | server.js:45-50 | a first box without width or height (a bullet) is tested as a 4x4 box at its corner |
| Geometry.Clamp | server.js:570-571 | the clamped coordinate lies in [0, limit], equals the input when it is already inside, and is the nearer bound otherwise |
| Geometry.ClampIdempotent | server.js:570-571 | clamping a clamped coordinate changes nothing |
| Entities.CheckCollisionWithObstacles | server.js:52-54 | true exactly when some obstacle with positive health overlaps the box |
| Entities.ZoneDamage | server.js:348-357 | health 0 is skipped; otherwise the entity loses exactly zoneDamage/60 when its centre (size defaulting to 20) is outside the zone, and nothing when inside |
| Entities.ExposureIsLinear | server.js:348-357 | an entity that stays outside the zone loses exactly zoneDamage/60 per tick, n × zoneDamage/60 after n ticks, while its health stays positive |
| Entities.FullHealthLastsThreeThousandTicks | server.js:348-357 | with the rooms' zone damage of 2, full health outside the zone is still positive after 2999 ticks, not below zero after 3000 and gone after 3001 |
| Entities.Explosion | server.js:387-398 | an explosion is twelve particles with life 30 |
| Entities.RemoveAt | server.js:203 | splicing one element keeps the elements before it and shifts the rest down by one |
| Movement.MovePlayer | server.js:553-571 | only x, y and the input time change; the result lies in the world; a blocked proposal keeps the old position (clamped), an unblocked one is taken (clamped) |
| Movement.BlockedMoveKeepsPosition | server.js:563-567 | a player inside the world whose proposal hits a live obstacle does not move |
| Movement.FreeMoveIsExact | server.js:563-571 | an unblocked proposal inside the world is taken exactly |
| Movement.ObstacleStopsMoveRight | server.js:555-567 | a player at (100,100) pressing "d" next to a live obstacle at (100,100,40,40) stays at (100,100) |
| Movement.ApplyInput | server.js:546-572 | an unknown or dead player leaves the roster unchanged; otherwise only that player's entry changes, to the movement step, and stays in the world |
| Movement.Shoot | server.js:574-596 | when the player exists, is alive and its last shot is at least 150 ms old, one bullet (life 90, damage 15, owner = shooter, from the player's centre) is appended and the shot time recorded; otherwise nothing changes |
| Movement.CooldownAllowsOneShot | server.js:580-595 | two shots by one player less than 150 ms apart add at most one bullet |
| Combat.LastWhere | server.js:198-222 | the result is the highest index that satisfies the test, or none when no element does |
| Combat.FindLast | server.js:198-222 | the reverse scan that stops at the first hit finds exactly the highest matching index |
| Combat.BulletStep | server.js:191-223 | the bullet moves and ages; the highest-index live obstacle it overlaps is damaged or destroyed and consumes it; otherwise the highest-index zombie it overlaps is damaged or killed for 10 points and consumes it; otherwise it survives exactly while alive and strictly inside the world |
| Combat.BulletsAfterTick | server.js:190-224 | every kept bullet is alive and inside the world; the score grows by 10 per zombie removed; obstacles and zombies stay live |
| Combat.EmptyFieldOnlyAges | server.js:190-224 | with no obstacles and no zombies the field is unchanged, and all bullets are kept exactly when each is alive and inside after moving |
| Combat.StepBullet | server.js:191-223 | the callback with its two reverse loops equals `BulletStep` |
| Combat.UpdateBullets | server.js:190-224 | the filter loop equals `BulletsAfterTick` |
| Combat.CreateSuperZombie | server.js:359-371 | appends one zombie at the bot's position with health 200 × multiplier and adds 5 to the score |
| Combat.BotStep | server.js:159-187 | a dead bot is dropped; a conversion happens exactly when the bot is alive, overlaps a zombie and the 10 contact damage takes it to 0 or below, and then the bot is marked dead, a super zombie appears at its position, the score grows by 5 and an explosion is drawn; a live bot that is not converted loses 10 when it touches a zombie (with an explosion) and then takes zone damage, and is kept exactly while its health is positive |
| Combat.BotsAfterTick | server.js:158-188 | kept bots are alive with positive health; existing zombies stay in place; each bot is kept, converted or dropped; the score grows by 5 per super zombie |
| Combat.StepBot | server.js:159-187 | the callback with its reverse loop equals `BotStep` |
| Combat.UpdateBots | server.js:158-188 | the filter loop equals `BotsAfterTick` |
| Combat.ParticlesAfterTick | server.js:264-272 | every kept particle has positive life and none are added |
| Combat.AgedParticlesKept | server.js:264-272 | every particle with more than one life left is kept with one life fewer |
| Combat.KeptParticlesAged | server.js:264-272 | every kept particle is an input particle aged by one tick |
| Combat.ParticlesKeptCount | server.js:264-272 | the filter keeps exactly as many particles as have more than one life left |
| Combat.UniformParticlesAge | server.js:264-272 | particles of equal life L all age by one when L > 1 and all vanish when L ≤ 1 |
| Combat.UniformAgeing | server.js:264-272 | particles of equal life L are all present with life L − n after n < L ticks and all gone after L ticks |
| Combat.EmptyStaysEmpty | server.js:264-272 | no particles stay no particles |
| Combat.ExplosionLifetime | server.js:387-398 | an explosion's twelve particles survive 29 ticks and are gone after 30 |
| Combat.UpdateParticles | server.js:264-272 | the filter loop equals `ParticlesAfterTick` |
| GameRules.PlayerZoneTick | server.js:675-685 | a dead player is untouched; a living one changes only health and alive flag, its new health is the zone damage step (zoneDamage/60 outside the zone, nothing inside), and it is marked dead exactly when its health is no longer positive |
| GameRules.PlayersZoneTick | server.js:675-685 | same ids; each player becomes `PlayerZoneTick` of itself, so it is alive afterwards exactly when it was alive and its health is positive, and positions are unchanged |
| GameRules.ZoneTickPlayers | server.js:675-685 | the loop over the player ids equals `PlayersZoneTick`, and the reported deaths are exactly the players alive before and dead after |
| GameRules.ShrinkZone | server.js:697-700 | more than 10000 ms after the last shrink the radius drops by 20 but not below 100 and the time is recorded; otherwise nothing changes; the centre never moves |
| GameRules.ZoneNeverGrows | server.js:697-700 | over any run of ticks the radius never grows and never drops below 100 |
| GameRules.ShrunkFormula | server.js:697-700 | k shrinks give max(r − 20k, 100) |
| GameRules.FloorAfterTwentyFiveShrinks | server.js:430 | from 600 the floor of 100 is reached after 25 shrinks and not after 24 |
| GameRules.HordeSize | server.js:692 | the horde has max(3, numBots − remaining bots) zombies |
| GameRules.HordeZombie | server.js:122-141 | a horde zombie has health 50 × multiplier, size 15 and damage 1 |
| GameRules.HordeZombieStartsOutside | server.js:123-130 | a horde zombie starts outside the world |
| GameRules.WithHorde | server.js:118-144 | the horde is appended after the existing zombies, each with health 50 × multiplier |
| GameRules.HordeStep | server.js:691-695 | more than 12000 ms after the last horde, max(3, numBots − bots) zombies are appended (at least three) and the time is recorded; otherwise nothing changes; live zombies stay live |
| GameRules.HordesAreSpaced | server.js:691-695 | right after a horde, the timer stays idle for the next 12000 ms |
| GameRules.SpawnZombieHorde | server.js:118-144 | the push loop equals `WithHorde` |
| GameRules.HelicopterAt | server.js:146-156 | the helicopter is a 60x60 box inside the world |
| GameRules.HelicopterAfter | server.js:706-710 | an existing helicopter stays; a missing one appears exactly when at most one soldier is left |
| GameRules.HelicopterSetOnce | server.js:706-710 | over any run of ticks the helicopter is placed once, at the first tick with at most one soldier, and never moves |
| GameRules.Winners | server.js:712-719 | the winners are exactly the living players that overlap the helicopter, and there are none while it is absent |
| GameRules.StillRunning | server.js:712-726 | the match goes on exactly while some player is alive and nobody reached the helicopter |
| Lifecycle.ToUpper | server.js:472 | upper-casing keeps the length and maps each character on its own |
| Lifecycle.RoomIdMatchesAnySpelling | server.js:36-38 | a generated id (six capital letters) is found from any spelling of it in lower or upper case |
| Lifecycle.ToUpperIdempotent | server.js:472 | upper-casing twice is upper-casing once |
| Lifecycle.BotCount | server.js:415-438 | the bot count lies in [0, 20]; a count of 1..20 is kept, a negative one becomes 0, a larger one 20, and a missing, zero or unparsable one 8 |
| Lifecycle.ZeroBotsMeansEight | server.js:438 | asking for 0 bots gives 8 |
| Lifecycle.ZombieMultiplier | server.js:415-432 | "medium" gives 2, "hard" gives 3, anything else (including a missing difficulty) gives 1 |
| Lifecycle.SpawnPosition | server.js:489-498 | each spawn corner lies inside the world for a 20x20 player |
| Lifecycle.SpawnCornersDistinct | server.js:489-498 | the first four joiners get four different corners |
| Lifecycle.Admit | server.js:478-511 | a room is full exactly when it has maxPlayers or more players; otherwise the joiner gets the spawn corner of the current count, full health and alive; the others are untouched; the roster never exceeds maxPlayers |
| Lifecycle.FullRoomRejects | server.js:482-485 | a room with four players rejects the next join |
| Lifecycle.JoinsKeepCapacity | server.js:478-511 | any run of join attempts on a roster of at most four players leaves at most four |
| Lifecycle.Leave | server.js:605-629 | the room is deleted as empty exactly when no one else is left, deleted for host departure exactly when others remain and the host left, and otherwise kept with the leaver removed and the host still present |
| Lifecycle.ResetPlayer | server.js:760-767 | a restarted player has full health, is alive, has its shot timer cleared, and is moved to the drawn position |
| Lifecycle.ResetRoster | server.js:760-767 | same ids; every player becomes `ResetPlayer` of itself at its drawn position: full health, alive, shot timer cleared, all other fields kept |
| Lifecycle.ResetPlayers | server.js:760-767 | the loop over the player ids equals `ResetRoster` |
| Ticking.TickSpec | server.js:671-742 | ids are kept; the score never falls; kept bullets and bots are live; the zone follows `ShrinkZone`'s timer; a horde of max(3, numBots − bots) is appended last exactly when more than 12000 ms have passed, and otherwise the zombies grow by at most one per bot; the helicopter is placed once and only with at most one soldier; a running match goes on exactly while a player is alive and nobody reached the helicopter; a stopped room is unchanged; `Inv` is preserved |
| Ticking.UpdateGame | server.js:671-742 | the step-by-step tick equals `TickSpec`, reports the players that died, whether the helicopter arrived, and who reached it |
| Ticking.TicksPreserve | server.js:671-742 | over any run of ticks the invariant holds, the score never falls, the zone never grows, the helicopter never moves, and a stopped match stays stopped |
| Ticking.RestartSpec | server.js:744-772 | a restart runs the match again with score 0, no bullets, zombies, particles or helicopter, the full zone, the new obstacles and bots, and every player alive at full health |
| Ticking.TickKeepsRoom | server.js:671-742 | a tick keeps a valid room valid (invariant, one to four players, host present) |
| Ticking.RestartKeepsRoom | server.js:744-772 | a restart keeps a valid room valid |
| Ticking.RestartReenablesHelicopter | server.js:744-758 | with one player and no bots, the first tick after a restart brings the helicopter again |
| Ticking.StartSpec | server.js:636-669 | starting replaces the obstacles and bots with the drawn ones and appends a horde of five zombies of health 50 × multiplier; nothing else changes; `Inv` is preserved for a generated layout |
| Ticking.StartKeepsRoom | server.js:636-669 | a start keeps a valid room valid |
| Rooms.Room.Create | server.js:413-468 | the new room is valid, with the creator as host and sole player at the first corner, empty arenas, the full zone and the normalised settings |
| Rooms.Room.Join | server.js:478-533 | the roster becomes `Admit`'s; the countdown is armed exactly when the join is admitted, the count before it plus one is at least two, and none was armed (so a repeat join by an id already in a one-player room arms it too) |
| Rooms.Room.Leave | server.js:612-628 | the leaver's entry is removed and the outcome is `Leave`'s; a remaining room stays valid |
| Rooms.Room.HandleInput | server.js:551-571 | the roster becomes `ApplyInput`'s and the room stays valid |
| Rooms.Room.HandleShoot | server.js:579-595 | players and bullets become `Shoot`'s, and `fired` says the gate let the shot through |
| Rooms.Room.Restart | server.js:744-772 | given a generated layout and exactly numBots fresh bots, the room's state becomes `RestartSpec` of the old state, `started` is cleared, and the room stays valid |
| Rooms.Room.Tick | server.js:671-742 | the room's state becomes `TickSpec` of the old state, the room stays valid, and deaths, arrival and winners are reported |
| Rooms.Room.Start | server.js:636-669 | a room that has not started becomes started with state `StartSpec` of the old state; a started room is left unchanged; the room stays valid |
| Registry.Server.constructor | server.js:26 | the server starts with no rooms |
| Registry.Server.CreateRoom | server.js:413-468 | the fresh room is stored under the generated id, replacing any room with that id, and every stored room stays valid; the new room has the creator as sole player and host at the first spawn corner, empty arenas, no helicopter, score 0, a running game that has not started, no armed countdown, the full zone at the world's centre, both timers at the creation time and the normalised difficulty and bot count |
| Registry.Server.JoinRoom | server.js:470-477 | an id that does not upper-case to a stored room is rejected, and one that does is handled as `Enter` says, with the default guest name when none is given; only that room's roster and countdown flag may change |
| Registry.Server.Enter | server.js:479-533 | a full room is rejected unchanged, and otherwise the joiner is admitted and the countdown armed as `Room.Join` says; the dictionary is unchanged and every room stays valid |
| Registry.Server.PlayerInput | server.js:546-572 | without an existing room nothing happens; otherwise that room's roster becomes `ApplyInput`'s and nothing else in any room may change |
| Registry.Server.Shoot | server.js:574-596 | a bullet is fired exactly when the room exists and the cooldown gate passes; only that room's players and bullets may change, as `Shoot` says |
| Registry.Server.RestartGame | server.js:598-603 | only the host of an existing room restarts it, and then the room's state is `RestartSpec` of the old state; a refused restart leaves the room's state and its `started` flag as they were; only that room's game fields and `started` may change, never its roster settings or countdown flag |
| Registry.Server.StartGame | server.js:535-544 | only the host of an existing room that has not started starts it, and then the room's state is `StartSpec` of the old state; otherwise nothing changes |
| Registry.Server.Disconnect | server.js:605-611 | a disconnect outside any known room changes nothing; otherwise the outcome is `Depart`'s; only that room's roster may change |
| Registry.Server.Depart | server.js:612-629 | the leaver is removed from the room found, the room is deleted from the dictionary exactly when `Leave` says so, and every remaining room stays valid |
| Registry.Server.UpdateGame | server.js:671-742 | a missing room is a no-op; an existing room ticks as `TickSpec` and reports the players that died this tick, whether the helicopter appeared and who reached it (nothing for a stopped match); only that room's game fields may change, never its `started` or countdown flag |

## Left out

- Bot movement (`aiMove`), bot firing (`shoot`, `findNearestZombie`) and all angle or trigonometry computations are not modelled. They need floating-point trigonometry and random wander. The contact, conversion and zone-damage part of `updateBots` is modelled.
- `Combat.BotStep`: tests zombie contact and zone damage at the bot's position before this tick's move, because `aiMove` runs first in the source and is not modelled. The bullets a bot fires in `updateBots` are likewise missing from the `updateBullets` step that follows.
- `updateZombies` is not part of this model. It covers zombie pursuit, contact damage to players and bots, and zombie zone damage. `TickSpec` runs the remaining steps in the source's order, without it.
- The auto-start timer callback and the 1 Hz countdown are not modelled. They are timers and emits. `Room.Join` records only whether the countdown was armed, so in the model a room starts only through `StartGame`. The game interval that `startGame` schedules is `UpdateGame` called per tick.
- `generateObstaclesAndBunkers`, `spawnBots`, `generateRoomId` and `generatePlayerColor` draw at random. Their results are inputs (`Launch`, `Redraw`, the room id, the colour).
  - `Generated` constrains a drawn layout: forty obstacles of health 150, each clear of the earlier ones.
  - `Spawned` constrains the drawn bots: exactly numBots, each alive at full health.
  - `CreateRoom` requires the six-capital-letter form `generateRoomId` produces.
  - Bunkers are not represented.
- Socket emits, `console.log`, `setInterval`/`clearInterval` bookkeeping and the HTTP server are not modelled. They are I/O.
- Particle motion (position, velocity, gravity, size, colour) is not modelled. Only the life counter decides whether a particle stays.
- `Lifecycle.ToUpper`: upper-cases ASCII a–z only, not the full Unicode mapping of `toUpperCase`.
- `Lifecycle.ZombieMultiplier`: a difficulty such as "constructor" or "toString", which names an inherited object property, is not modelled. Neither is NaN from `parseInt` beyond the `NotANumber` case of `BotCount`.
- A `joinRoom` event without a room id is not modelled: the source throws a TypeError when it upper-cases `undefined`.
- Real numbers are exact here. JavaScript doubles and their rounding are not modelled.
- Entities.FullHealthLastsThreeThousandTicks: states only bounds that hold under both exact reals and doubles. With exact reals, full health reaches exactly 0 at tick 3000. The program's doubles leave about 3.1e-12 there, so its player dies at tick 3001.
- The order in which `Object.keys` visits players is not modelled. The player loops act on each player independently, so the result does not depend on it.
- When a socket belongs to several rooms, the model handles only the one room `roomOf` names, as the source's `find` does.

Where the behaviour described for this server and the code differ, the model follows the code:

- A shot has no staleness check against the client timestamp.
- Bullets have no 1500 ms age limit.
- Bullets hit only obstacles and zombies, never bots or players.
- A requested bot count of 0 becomes 8.
- Joining a room that has already started is allowed.
- The horde and shrink timers use a strict `>`.
- A generated room id that collides with an existing room replaces that room instead of being retried.
