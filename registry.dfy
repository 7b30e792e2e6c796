/** The server's `rooms` dictionary and the socket handlers that look a room
    up in it. The room a socket is in (`Object.keys(clientSocket.rooms)`)
    is passed in as `roomOf`: `None` when the socket is in no room. */
module Registry {
  import opened Wrappers
  import opened Geometry
  import opened Entities
  import opened Movement
  import opened GameRules
  import opened Lifecycle
  import opened Ticking
  import opened Rooms

  datatype JoinOutcome = RoomNotFound | RoomIsFull | Joined(roomId: string, countdown: bool)

  class Server {
    var rooms: map<string, Room>

    /** Every room in the dictionary is a valid room, stored under one id. */
    ghost predicate Valid()
      reads this, rooms.Values
    {
      && (forall id :: id in rooms ==> rooms[id].Valid())
      && (forall a, b :: a in rooms && b in rooms && a != b ==> rooms[a] != rooms[b])
    }

    /** The room a lookup by `key` would find, as a frame. */
    function Found(key: Option<string>): set<Room>
      reads this
    {
      if key.Some? && key.value in rooms then {rooms[key.value]} else {}
    }

    constructor ()
      ensures Valid() && rooms == map[]
    {
      rooms := map[];
    }

    /** `handleCreateRoom`: a new room under the generated id (an existing
        room with the same id is replaced), with the creator as host. */
    method CreateRoom(roomId: string, hostId: string, playerName: Option<string>, difficulty: Option<string>,
                      botCount: BotCountArg, now: int, color: string) returns (room: Room)
      requires Valid() && IsRoomId(roomId)
      modifies this`rooms
      ensures Valid()
      ensures fresh(room) && rooms == old(rooms)[roomId := room]
      ensures room.hostId == hostId && room.players.Keys == {hostId}
      ensures room.players[hostId].name == NameOr(playerName, "Host")
      ensures room.zombieHealthMultiplier == ZombieMultiplier(difficulty) && room.numBots == BotCount(botCount)
      ensures room.players == map[hostId := NewPlayer(hostId, NameOr(playerName, "Host"), SpawnPosition(0), now, color)]
      ensures room.bots == [] && room.bullets == [] && room.zombies == [] && room.particles == [] && room.obstacles == []
      ensures room.helicopter == None && room.score == 0 && room.gameRunning && !room.started && !room.autoStartArmed
      ensures room.safeZone == SafeZone(WorldWidth / 2.0, WorldHeight / 2.0, FullRadius)
      ensures room.lastZombieHorde == now == room.lastZoneShrink
    {
      room := new Room.Create(hostId, playerName, difficulty, botCount, now, color);
      rooms := rooms[roomId := room];
    }

    /** `handleJoinRoom`: the typed id is upper-cased and looked up; an
        unknown room and a full room reject the joiner, anyone else is
        admitted at the spawn corner of the current head count. */
    method JoinRoom(typed: string, id: string, playerName: Option<string>, now: int, color: string)
      returns (o: JoinOutcome)
      requires Valid()
      modifies Found(Some(ToUpper(typed)))`players, Found(Some(ToUpper(typed)))`autoStartArmed
      ensures Valid() && rooms == old(rooms)
      ensures ToUpper(typed) !in rooms <==> o == RoomNotFound
      ensures ToUpper(typed) in rooms ==>
        var room := rooms[ToUpper(typed)];
        && (o == RoomIsFull <==> |old(room.players)| >= room.maxPlayers)
        && (o == RoomIsFull ==> room.players == old(room.players))
        && (o.Joined? ==>
              && o.roomId == ToUpper(typed)
              && room.players == Admit(old(room.players), room.maxPlayers, id,
                                       NameOr(playerName, GuestName(id)), now, color).players
              && (o.countdown <==> |old(room.players)| + 1 >= 2 && !old(room.autoStartArmed)))
        && room.autoStartArmed == (old(room.autoStartArmed) || (o.Joined? && o.countdown))
    {
      var key := ToUpper(typed);
      if key !in rooms {
        return RoomNotFound;
      }
      o := Enter(key, id, NameOr(playerName, GuestName(id)), now, color);
    }

    /** `handleJoinRoom` once the room is found. */
    method Enter(key: string, id: string, name: string, now: int, color: string) returns (o: JoinOutcome)
      requires Valid() && key in rooms
      modifies Found(Some(key))`players, Found(Some(key))`autoStartArmed
      ensures Valid() && rooms == old(rooms)
      ensures var room := rooms[key];
        && (o == RoomIsFull <==> |old(room.players)| >= room.maxPlayers)
        && (o == RoomIsFull ==> room.players == old(room.players))
        && (o.Joined? ==>
              && o.roomId == key
              && room.players == Admit(old(room.players), room.maxPlayers, id, name, now, color).players
              && (o.countdown <==> |old(room.players)| + 1 >= 2 && !old(room.autoStartArmed)))
        && room.autoStartArmed == (old(room.autoStartArmed) || (o.Joined? && o.countdown))
      ensures o != RoomNotFound
    {
      var room := rooms[key];
      var admitted, countdown := room.Join(id, name, now, color);
      o := if admitted then Joined(key, countdown) else RoomIsFull;
    }

    /** `handlePlayerInput`: ignored unless the socket is in an existing
        room; the room then applies the move. */
    method PlayerInput(roomOf: Option<string>, id: string, keys: Keys, now: int)
      requires Valid()
      modifies Found(roomOf)`players
      ensures Valid() && rooms == old(rooms)
      ensures roomOf.Some? && roomOf.value in rooms ==>
        var room := rooms[roomOf.value];
        room.players == ApplyInput(old(room.players), id, keys, room.obstacles, now)
    {
      if roomOf.Some? && roomOf.value in rooms {
        rooms[roomOf.value].HandleInput(id, keys, now);
      }
    }

    /** `handleShoot`: ignored unless the socket is in an existing room;
        `fired` says a bullet was added. */
    method Shoot(roomOf: Option<string>, id: string, now: int, vx: real, vy: real) returns (fired: bool)
      requires Valid()
      modifies Found(roomOf)`players, Found(roomOf)`bullets
      ensures Valid() && rooms == old(rooms)
      ensures fired <==> roomOf.Some? && roomOf.value in rooms && MayShoot(old(rooms[roomOf.value].players), id, now)
      ensures roomOf.Some? && roomOf.value in rooms ==>
        var room := rooms[roomOf.value];
        Volley(room.players, room.bullets) == Movement.Shoot(old(room.players), old(room.bullets), id, now, vx, vy)
    {
      fired := false;
      if roomOf.Some? && roomOf.value in rooms {
        fired := rooms[roomOf.value].HandleShoot(id, now, vx, vy);
      }
    }

    /** `handleStartGame`: only the host of an existing room that has not
        started yet starts it. */
    method StartGame(roomOf: Option<string>, id: string, l: Launch) returns (begun: bool)
      requires Valid()
      requires roomOf.Some? && roomOf.value in rooms ==>
        Generated(l.obstacles) && Spawned(l.bots, rooms[roomOf.value].numBots)
      modifies Found(roomOf)`obstacles, Found(roomOf)`bots, Found(roomOf)`zombies, Found(roomOf)`started
      ensures Valid() && rooms == old(rooms)
      ensures begun <==> roomOf.Some? && roomOf.value in rooms && !old(rooms[roomOf.value].started)
                         && id == rooms[roomOf.value].hostId
      ensures begun ==>
        var room := rooms[roomOf.value];
        room.started && room.State() == StartSpec(old(room.State()), l)
      ensures !begun ==> forall r :: r in Found(roomOf) ==> r.State() == old(r.State()) && r.started == old(r.started)
    {
      begun := false;
      if roomOf.Some? && roomOf.value in rooms && !rooms[roomOf.value].started && id == rooms[roomOf.value].hostId {
        begun := rooms[roomOf.value].Start(l);
      }
    }

    /** `handleRestartGame`: only the host of an existing room restarts it. */
    method RestartGame(roomOf: Option<string>, id: string, now: int, d: Redraw) returns (restarted: bool)
      requires Valid()
      requires roomOf.Some? && roomOf.value in rooms ==>
        Generated(d.obstacles) && Spawned(d.bots, rooms[roomOf.value].numBots)
      modifies Found(roomOf)`players, Found(roomOf)`bots, Found(roomOf)`bullets, Found(roomOf)`zombies,
               Found(roomOf)`particles, Found(roomOf)`obstacles, Found(roomOf)`helicopter,
               Found(roomOf)`score, Found(roomOf)`gameRunning, Found(roomOf)`lastZombieHorde,
               Found(roomOf)`lastZoneShrink, Found(roomOf)`safeZone, Found(roomOf)`started
      ensures Valid() && rooms == old(rooms)
      ensures restarted <==> roomOf.Some? && roomOf.value in rooms && id == rooms[roomOf.value].hostId
      ensures restarted ==>
        var room := rooms[roomOf.value];
        room.State() == RestartSpec(old(room.State()), now, d) && !room.started
      ensures !restarted ==> forall r :: r in Found(roomOf) ==> r.State() == old(r.State()) && r.started == old(r.started)
    {
      restarted := false;
      if roomOf.Some? && roomOf.value in rooms && id == rooms[roomOf.value].hostId {
        rooms[roomOf.value].Restart(now, d);
        restarted := true;
      }
    }

    /** `handleDisconnect`: the player leaves the socket's room, and the
        room is deleted when it is left empty or its host left. */
    method Disconnect(roomOf: Option<string>, id: string) returns (d: Option<Departure>)
      requires Valid()
      modifies this`rooms, Found(roomOf)`players
      ensures Valid()
      ensures d.Some? <==> roomOf.Some? && roomOf.value in old(rooms)
      ensures d.Some? ==> d.value == Lifecycle.Leave(old(rooms[roomOf.value].players), old(rooms[roomOf.value]).hostId, id)
      ensures d.Some? ==> old(rooms[roomOf.value]).players == old(rooms[roomOf.value].players) - {id}
      ensures rooms == if d.Some? && !d.value.Remains? then old(rooms) - {roomOf.value} else old(rooms)
    {
      if roomOf.None? || roomOf.value !in rooms {
        return None;
      }
      var departure := Depart(roomOf.value, id);
      d := Some(departure);
    }

    /** `handleDisconnect` once the room is found. */
    method Depart(key: string, id: string) returns (d: Departure)
      requires Valid() && key in rooms
      modifies this`rooms, Found(Some(key))`players
      ensures Valid()
      ensures d == Lifecycle.Leave(old(rooms[key].players), old(rooms[key]).hostId, id)
      ensures old(rooms[key]).players == old(rooms[key].players) - {id}
      ensures rooms == if d.Remains? then old(rooms) else old(rooms) - {key}
    {
      var room := rooms[key];
      d := room.Leave(id);
      if !d.Remains? {
        rooms := rooms - {key};
        assert forall k :: k in rooms ==> rooms[k] == old(rooms)[k] && rooms[k] != room;
      }
    }

    /** `updateGame(roomId)`: nothing for a deleted room, one tick otherwise. */
    method UpdateGame(roomId: string, t: TickInput) returns (died: set<string>, arrived: bool, winners: set<string>)
      requires Valid()
      modifies Found(Some(roomId))`players, Found(Some(roomId))`bots, Found(Some(roomId))`bullets,
               Found(Some(roomId))`zombies, Found(Some(roomId))`particles, Found(Some(roomId))`obstacles,
               Found(Some(roomId))`helicopter, Found(Some(roomId))`score, Found(Some(roomId))`gameRunning,
               Found(Some(roomId))`lastZombieHorde, Found(Some(roomId))`lastZoneShrink,
               Found(Some(roomId))`safeZone
      ensures Valid() && rooms == old(rooms)
      ensures roomId !in rooms ==> died == {} && !arrived && winners == {}
      ensures roomId in rooms ==>
        var room := rooms[roomId];
        && room.State() == TickSpec(old(room.State()), t)
        && died == (if old(room.gameRunning) then Died(old(room.players), room.players) else {})
        && (arrived <==> old(room.helicopter).None? && room.helicopter.Some?)
        && winners == (if old(room.gameRunning) then Winners(room.players, room.helicopter) else {})
    {
      if roomId !in rooms {
        return {}, false, {};
      }
      died, arrived, winners := rooms[roomId].Tick(t);
    }
  }
}
