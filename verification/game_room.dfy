/** The `GameRoom` class of the server: an insertion-ordered player map, a
    phase, a level counter and the switch map. */
module GameRooms {
  import opened Optional
  import opened OrderedMaps
  import opened Decimal
  import opened Switches

  const MaxPlayersPerRoom: nat := 16
  const MinPlayersPerRoom: nat := 2

  /** Avatar colours as 24-bit RGB values (written `#RRGGBB` on the wire),
      indexed by slot number minus one. */
  const PlayerColors: seq<int> := [
    0xFF6B6B, 0x4ECDC4, 0x45B7D1, 0x96CEB4, 0xFECA57, 0xFF9FF3, 0x54A0FF, 0x5F27CD,
    0x00D2D3, 0xFF9F43, 0xE74C3C, 0x3498DB, 0x2ECC71, 0xF39C12, 0x9B59B6, 0x1ABC9C]

  const PlayerSize: int := 30
  const SpawnY: real := 600.0

  /** Spawn abscissa of the player in slot `number`. */
  function SpawnX(number: int): real {
    (100 + number * 40) as real
  }

  datatype Phase = Waiting | Playing | Completed

  /** A player record. Positions and velocities are whatever the owning
      client last reported. */
  datatype Player = Player(
    id: string,
    number: int,
    name: string,
    x: real,
    y: real,
    width: int,
    height: int,
    velocityX: real,
    velocityY: real,
    color: int,
    onGround: bool,
    isAlive: bool,
    isConnected: bool,
    joinedAt: int)

  /** The fields a `playerMove` event may carry; absent ones are kept. */
  datatype PlayerPatch = PlayerPatch(
    x: Option<real>,
    y: Option<real>,
    velocityX: Option<real>,
    velocityY: Option<real>,
    onGround: Option<bool>)

  datatype Room = Room(
    id: string,
    players: OMap<string, Player>,
    phase: Phase,
    level: int,
    switches: SwitchMap,
    createdAt: int,
    lastActivity: int)

  /** The maps of a room are well-formed JavaScript maps. */
  predicate RoomValid(r: Room) {
    Valid(r.players) && Valid(r.switches)
  }

  predicate IsMember(r: Room, socketId: string) {
    socketId in r.players.entries
  }

  function PlayerCount(r: Room): nat {
    Size(r.players)
  }

  /** `new GameRoom(roomId)`. */
  function NewRoom(roomId: string, now: int): (r: Room)
    ensures RoomValid(r)
    ensures r.id == roomId && r.phase == Waiting && r.level == 1
    ensures PlayerCount(r) == 0 && Size(r.switches) == 0
    ensures r.createdAt == now && r.lastActivity == now
  {
    Room(roomId, Empty(), Waiting, 1, Empty(), now, now)
  }

  /** The record of a player who takes slot `number`. */
  function FreshPlayer(socketId: string, number: int, playerName: string, now: int): (p: Player)
    requires 1 <= number <= MaxPlayersPerRoom
    ensures p.color == PlayerColors[number - 1]
  {
    Player(
      socketId, number,
      if playerName != [] then playerName else "Player " + NatToString(number),
      SpawnX(number), SpawnY, PlayerSize, PlayerSize, 0.0, 0.0,
      PlayerColors[number - 1], false, true, true, now)
  }

  /** Outcome of `addPlayer`: its boolean result and the room after it. */
  datatype Added = Added(ok: bool, room: Room)

  /** `addPlayer(socket, playerName)`: refuses a full room (even for a
      present id), refreshes a present id, and otherwise appends a player
      in slot `size + 1`. An empty `playerName` is falsy. */
  function AddPlayer(r: Room, socketId: string, playerName: string, now: int): (res: Added)
    requires RoomValid(r)
    ensures RoomValid(res.room)
    // full room: refused, nothing changes
    ensures PlayerCount(r) >= MaxPlayersPerRoom ==> !res.ok && res.room == r
    ensures PlayerCount(r) < MaxPlayersPerRoom ==> res.ok && IsMember(res.room, socketId)
    // reconnection: same slot, same order, refreshed name and flag
    ensures PlayerCount(r) < MaxPlayersPerRoom && IsMember(r, socketId) ==>
      var old_ := r.players.entries[socketId];
      var new_ := res.room.players.entries[socketId];
      && res.ok
      && res.room.players.keys == r.players.keys
      && res.room.players.entries == r.players.entries[socketId := new_]
      && new_ == old_.(name := new_.name, isConnected := true)
      && new_.name == (if playerName != [] then playerName else old_.name)
    // fresh player: appended in slot size + 1
    ensures PlayerCount(r) < MaxPlayersPerRoom && !IsMember(r, socketId) ==>
      var p := res.room.players.entries[socketId];
      && res.ok
      && res.room.players.keys == r.players.keys + [socketId]
      && res.room.players.entries == r.players.entries[socketId := p]
      && p.id == socketId
      && p.number == PlayerCount(r) + 1
      && 1 <= p.number <= MaxPlayersPerRoom
      && p.color == PlayerColors[p.number - 1]
      && p.name == (if playerName != [] then playerName else "Player " + NatToString(p.number))
      && p.x == SpawnX(p.number) && p.y == SpawnY
      && p.velocityX == 0.0 && p.velocityY == 0.0
      && p.isConnected && p.joinedAt == now
    // the rest of the room is untouched
    ensures res.room.id == r.id && res.room.phase == r.phase && res.room.level == r.level
    ensures res.room.switches == r.switches && res.room.createdAt == r.createdAt
    ensures res.ok ==> res.room.lastActivity == now
  {
    if PlayerCount(r) >= MaxPlayersPerRoom then
      Added(false, r)
    else if IsMember(r, socketId) then
      var p := r.players.entries[socketId];
      var p' := p.(name := if playerName != [] then playerName else p.name, isConnected := true);
      Added(true, r.(players := Set(r.players, socketId, p'), lastActivity := now))
    else
      var number := PlayerCount(r) + 1;
      var p := FreshPlayer(socketId, number, playerName, now);
      Added(true, r.(players := Set(r.players, socketId, p), lastActivity := now))
  }

  /** Outcome of `removePlayer`: whether the room should now be deleted,
      and the room after it. */
  datatype Removed = Removed(roomEmpty: bool, room: Room)

  /** `removePlayer(playerId)`. */
  function RemovePlayer(r: Room, socketId: string, now: int): (res: Removed)
    requires RoomValid(r)
    ensures RoomValid(res.room)
    ensures res.roomEmpty <==> IsMember(r, socketId) && PlayerCount(r) == 1
    ensures !IsMember(r, socketId) ==> res.room == r
    ensures IsMember(r, socketId) ==>
      && !IsMember(res.room, socketId)
      && PlayerCount(res.room) == PlayerCount(r) - 1
      && res.room.players.entries == r.players.entries - {socketId}
      && res.room.lastActivity == now
    ensures forall p :: 0 <= p < |r.players.keys| && r.players.keys[p] == socketId ==>
      res.room.players.keys == r.players.keys[..p] + r.players.keys[p + 1..]
    ensures res.room.id == r.id && res.room.phase == r.phase && res.room.level == r.level
    ensures res.room.switches == r.switches
  {
    if IsMember(r, socketId) then
      var r' := r.(players := Delete(r.players, socketId), lastActivity := now);
      Removed(PlayerCount(r') == 0, r')
    else
      Removed(false, r)
  }

  /** `Object.assign(player, playerData)` for the five fields the client's
      `playerMove` sends; other fields of a payload are not modelled. */
  function Merge(p: Player, patch: PlayerPatch): (q: Player)
    ensures q.id == p.id && q.number == p.number && q.name == p.name && q.color == p.color
    ensures q.isConnected == p.isConnected && q.joinedAt == p.joinedAt
    ensures q.width == p.width && q.height == p.height && q.isAlive == p.isAlive
    ensures q.x == (if patch.x.Some? then patch.x.value else p.x)
    ensures q.y == (if patch.y.Some? then patch.y.value else p.y)
    ensures q.velocityX == (if patch.velocityX.Some? then patch.velocityX.value else p.velocityX)
    ensures q.velocityY == (if patch.velocityY.Some? then patch.velocityY.value else p.velocityY)
    ensures q.onGround == (if patch.onGround.Some? then patch.onGround.value else p.onGround)
  {
    p.(x := if patch.x.Some? then patch.x.value else p.x,
       y := if patch.y.Some? then patch.y.value else p.y,
       velocityX := if patch.velocityX.Some? then patch.velocityX.value else p.velocityX,
       velocityY := if patch.velocityY.Some? then patch.velocityY.value else p.velocityY,
       onGround := if patch.onGround.Some? then patch.onGround.value else p.onGround)
  }

  /** `updatePlayer(playerId, playerData)`: merges into a member's record,
      and is a no-op for a stranger. */
  function UpdatePlayer(r: Room, socketId: string, patch: PlayerPatch, now: int): (r': Room)
    requires RoomValid(r)
    ensures RoomValid(r')
    ensures !IsMember(r, socketId) ==> r' == r
    ensures IsMember(r, socketId) ==>
      && r'.players.keys == r.players.keys
      && r'.players.entries == r.players.entries[socketId := Merge(r.players.entries[socketId], patch)]
      && r'.lastActivity == now
    ensures r'.id == r.id && r'.phase == r.phase && r'.level == r.level && r'.switches == r.switches
  {
    if IsMember(r, socketId) then
      r.(players := Set(r.players, socketId, Merge(r.players.entries[socketId], patch)), lastActivity := now)
    else r
  }

  /** `canStartGame()`. */
  predicate CanStartGame(r: Room) {
    PlayerCount(r) >= MinPlayersPerRoom && r.phase == Waiting
  }

  /** `getPlayersArray()`: the player records in join order. */
  function PlayersArray(r: Room): (ps: seq<Player>)
    requires RoomValid(r)
    ensures |ps| == PlayerCount(r)
    ensures forall i :: 0 <= i < |ps| ==> ps[i] == r.players.entries[r.players.keys[i]]
  {
    Values(r.players)
  }
}
