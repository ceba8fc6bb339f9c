/** The socket event handlers of the server, as transitions of the room
    registry (`gameRooms`) together with each connection's current room
    tag (`socket.roomId`). Emitted events are returned as replies. */
module Server {
  import opened Optional
  import opened OrderedMaps
  import opened Switches
  import opened GameRooms
  import opened RoomCodes
  import opened PuzzleEvaluator

  /** Level-advance delay after `levelCompleted`, in milliseconds. */
  const LevelAdvanceDelay: int := 3000

  /** `rooms` is `gameRooms`; `roomOf[sock]` is `socket.roomId`. */
  datatype ServerState = ServerState(rooms: map<string, Room>, roomOf: map<string, string>)

  predicate RoomsValid(s: ServerState) {
    forall c :: c in s.rooms ==> RoomValid(s.rooms[c])
  }

  /** The room the connection is tagged with, if that room still exists. */
  predicate InRoom(s: ServerState, sock: string) {
    sock in s.roomOf && s.roomOf[sock] in s.rooms
  }

  /** The `joinRoom` payload: the legacy bare string, or an object. */
  datatype JoinData =
    | LegacyCode(code: string)
    | JoinPayload(roomId: Option<string>, playerName: Option<string>)

  function JoinRoomId(d: JoinData): Option<string> {
    match d
    case LegacyCode(code) => Some(code)
    case JoinPayload(roomId, _) => roomId
  }

  /** The name `joinRoom` passes on: 'Player' unless a non-empty one came. */
  function JoinPlayerName(d: JoinData): (name: string)
    ensures name != []
  {
    match d
    case LegacyCode(_) => "Player"
    case JoinPayload(_, playerName) => OrElse(playerName, "Player")
  }

  /** What the joining connection is told. */
  datatype JoinReply =
    | RoomError
    | RoomFull(currentPlayers: nat, maxPlayers: nat)
    | Joined(players: seq<Player>, phase: Phase, level: int, playerCount: nat)

  datatype JoinResult = JoinResult(state: ServerState, reply: JoinReply)

  /** The first part of `joinRoom` for a connection already tagged with a
      room: leave it, and delete it if nobody is left. The tag itself is
      kept. */
  function LeaveCurrentRoom(s: ServerState, sock: string, now: int): (s': ServerState)
    requires RoomsValid(s)
    ensures RoomsValid(s')
    ensures s'.roomOf == s.roomOf
    ensures !InRoom(s, sock) ==> s' == s
    ensures InRoom(s, sock) ==>
      var c := s.roomOf[sock];
      var removed := RemovePlayer(s.rooms[c], sock, now);
      && (c in s'.rooms <==> PlayerCount(removed.room) > 0)
      && (c in s'.rooms ==> s'.rooms[c] == removed.room)
      && (forall c' :: c' != c ==> (c' in s'.rooms <==> c' in s.rooms))
      && (forall c' :: c' != c && c' in s.rooms ==> s'.rooms[c'] == s.rooms[c'])
  {
    if InRoom(s, sock) then
      var c := s.roomOf[sock];
      var removed := RemovePlayer(s.rooms[c], sock, now);
      if PlayerCount(removed.room) == 0 then s.(rooms := s.rooms - {c})
      else s.(rooms := s.rooms[c := removed.room])
    else s
  }

  /** The second part of `joinRoom`, for an accepted `code`: get or create
      the room, then `addPlayer`. On success the socket is tagged with the
      room and receives its state; otherwise it receives `roomFull` and its
      tag is left alone. */
  function EnterRoom(s: ServerState, sock: string, code: string, name: string, now: int): (res: JoinResult)
    requires RoomsValid(s)
    ensures RoomsValid(res.state)
    ensures var room := if code in s.rooms then s.rooms[code] else NewRoom(code, now);
      var added := AddPlayer(room, sock, name, now);
      && res.state.rooms == s.rooms[code := added.room]
      && (res.reply.Joined? <==> added.ok)
      && (added.ok ==> res.state.roomOf == s.roomOf[sock := code])
      && (!added.ok ==> res.state.roomOf == s.roomOf && res.reply == RoomFull(PlayerCount(room), MaxPlayersPerRoom))
    ensures res.reply.Joined? ==>
      && IsMember(res.state.rooms[code], sock)
      && res.reply.players == PlayersArray(res.state.rooms[code])
      && res.reply.playerCount == PlayerCount(res.state.rooms[code])
  {
    var room := if code in s.rooms then s.rooms[code] else NewRoom(code, now);
    var added := AddPlayer(room, sock, name, now);
    var rooms := s.rooms[code := added.room];
    if added.ok then
      var r := added.room;
      JoinResult(ServerState(rooms, s.roomOf[sock := code]),
                 Joined(PlayersArray(r), r.phase, r.level, PlayerCount(r)))
    else
      JoinResult(ServerState(rooms, s.roomOf), RoomFull(PlayerCount(room), MaxPlayersPerRoom))
  }

  /** The `joinRoom` handler: a code that does not normalise to six
      characters is refused before anything changes; otherwise the socket
      leaves its current room and enters the new one. */
  function JoinRoom(s: ServerState, sock: string, data: JoinData, now: int): (res: JoinResult)
    requires RoomsValid(s)
    ensures RoomsValid(res.state)
    // a rejected code creates no room and keeps the previous membership
    ensures JoinCode(JoinRoomId(data)).None? ==> res == JoinResult(s, RoomError)
    // after a successful join the socket is tagged with the room it joined
    ensures res.reply.Joined? ==>
      && JoinCode(JoinRoomId(data)).Some?
      && res.state.roomOf == s.roomOf[sock := JoinCode(JoinRoomId(data)).value]
      && JoinCode(JoinRoomId(data)).value in res.state.rooms
      && IsMember(res.state.rooms[JoinCode(JoinRoomId(data)).value], sock)
    // only a successful join changes the tag
    ensures !res.reply.Joined? ==> res.state.roomOf == s.roomOf
  {
    match JoinCode(JoinRoomId(data))
    case None => JoinResult(s, RoomError)
    case Some(code) => EnterRoom(LeaveCurrentRoom(s, sock, now), sock, code, JoinPlayerName(data), now)
  }

  /** The `startGame` handler: starts the room only when `canStartGame()`
      holds; otherwise nothing changes and nothing is emitted. */
  function StartGame(s: ServerState, sock: string): (res: (ServerState, bool))
    requires RoomsValid(s)
    ensures RoomsValid(res.0)
    ensures res.1 <==> InRoom(s, sock) && CanStartGame(s.rooms[s.roomOf[sock]])
    ensures res.1 ==>
      var c := s.roomOf[sock];
      res.0 == s.(rooms := s.rooms[c := s.rooms[c].(phase := Playing)])
    ensures !res.1 ==> res.0 == s
  {
    if InRoom(s, sock) && CanStartGame(s.rooms[s.roomOf[sock]]) then
      var c := s.roomOf[sock];
      (s.(rooms := s.rooms[c := s.rooms[c].(phase := Playing)]), true)
    else (s, false)
  }

  /** The `playerMove` handler (the relay to the other members is not
      modelled). */
  function PlayerMove(s: ServerState, sock: string, patch: PlayerPatch, now: int): (s': ServerState)
    requires RoomsValid(s)
    ensures RoomsValid(s')
    ensures !InRoom(s, sock) ==> s' == s
    ensures InRoom(s, sock) ==>
      var c := s.roomOf[sock];
      s' == s.(rooms := s.rooms[c := UpdatePlayer(s.rooms[c], sock, patch, now)])
  {
    if InRoom(s, sock) then
      var c := s.roomOf[sock];
      s.(rooms := s.rooms[c := UpdatePlayer(s.rooms[c], sock, patch, now)])
    else s
  }

  datatype SwitchResult = SwitchResult(state: ServerState, outcome: Outcome)

  /** The `switchActivated` handler: stores the record the switch type
      calls for, then runs the evaluator of that type. Cooperative and
      untyped activations are never evaluated. */
  function SwitchActivated(s: ServerState, sock: string, key: SwitchKey, kind: SwitchKind, now: int): (res: SwitchResult)
    requires RoomsValid(s)
    ensures RoomsValid(res.state)
    ensures InRoom(s, sock) ==> s.roomOf[sock] in res.state.rooms
    ensures !InRoom(s, sock) ==> res == SwitchResult(s, NotEvaluated)
    ensures InRoom(s, sock) ==>
      var c := s.roomOf[sock];
      var r := s.rooms[c];
      var r' := res.state.rooms[c];
      && res.state == s.(rooms := s.rooms[c := r'])
      && r' == r.(switches := r'.switches)
      && r'.switches == Set(r.switches, key, ActivatedBy(sock, kind))
      && (kind.Synchronized? ==> res.outcome == CheckSynchronized(r'.switches, now))
      && (kind.Pattern? ==> res.outcome == CheckPattern(r'.switches))
      && (kind.Cooperative? || kind.Untyped? ==> res.outcome == NotEvaluated)
  {
    if InRoom(s, sock) then
      var c := s.roomOf[sock];
      var r := s.rooms[c];
      var switches := Set(r.switches, key, ActivatedBy(sock, kind));
      var outcome :=
        match kind
        case Synchronized(_) => CheckSynchronized(switches, now)
        case Pattern(_) => CheckPattern(switches)
        case _ => NotEvaluated;
      SwitchResult(s.(rooms := s.rooms[c := r.(switches := switches)]), outcome)
    else SwitchResult(s, NotEvaluated)
  }

  /** The `switchDeactivated` handler: the entry becomes exactly
      `{active: false}`, whatever it held before. */
  function SwitchDeactivated(s: ServerState, sock: string, key: SwitchKey): (s': ServerState)
    requires RoomsValid(s)
    ensures RoomsValid(s')
    ensures !InRoom(s, sock) ==> s' == s
    ensures InRoom(s, sock) ==> s.roomOf[sock] in s'.rooms
    ensures InRoom(s, sock) ==>
      var c := s.roomOf[sock];
      var r' := s'.rooms[c];
      && s' == s.(rooms := s.rooms[c := r'])
      && r' == s.rooms[c].(switches := r'.switches)
      && key in r'.switches.entries && r'.switches.entries[key] == Deactivated
      && (forall k :: k != key ==> (k in r'.switches.entries <==> k in s.rooms[c].switches.entries))
      && (forall k :: k != key && k in s.rooms[c].switches.entries ==>
            r'.switches.entries[k] == s.rooms[c].switches.entries[k])
  {
    if InRoom(s, sock) then
      var c := s.roomOf[sock];
      var r := s.rooms[c];
      s.(rooms := s.rooms[c := r.(switches := Set(r.switches, key, Deactivated))])
    else s
  }

  /** The `levelCompleted` handler: the level goes up by one and the room
      shows `completed`; the advance itself is `AdvanceLevel`, run later. */
  function LevelCompleted(s: ServerState, sock: string): (s': ServerState)
    requires RoomsValid(s)
    ensures RoomsValid(s')
    ensures !InRoom(s, sock) ==> s' == s
    ensures InRoom(s, sock) ==>
      var c := s.roomOf[sock];
      var r := s.rooms[c];
      s' == s.(rooms := s.rooms[c := r.(level := r.level + 1, phase := Completed)])
  {
    if InRoom(s, sock) then
      var c := s.roomOf[sock];
      var r := s.rooms[c];
      s.(rooms := s.rooms[c := r.(level := r.level + 1, phase := Completed)])
    else s
  }

  /** The `nextLevel` broadcast of the level-advance timer. */
  datatype NextLevel = NextLevel(level: int, playerCount: nat)

  /** The body of the level-advance timer, applied to the captured room:
      back to `playing`, the level left as `levelCompleted` set it. */
  function AdvanceLevel(r: Room): (res: (Room, NextLevel))
    ensures res.0 == r.(phase := Playing)
    ensures res.1 == NextLevel(r.level, PlayerCount(r))
  {
    (r.(phase := Playing), NextLevel(r.level, PlayerCount(r)))
  }

  /** The body of an evaluator's reset timer, applied to the captured
      room, with the evident intent of the reset timer: the captured
      switches are deactivated under their own keys (see `ResetAsWritten`
      for what `server.js` writes instead). */
  function ResetFires(r: Room, o: Outcome): (r': Room)
    requires o.ResetScheduled? && RoomValid(r)
    ensures RoomValid(r')
    ensures r' == r.(switches := ResetSwitches(r.switches, o.snapshot))
  {
    r.(switches := ResetSwitches(r.switches, o.snapshot))
  }

  /** The `disconnect` handler: the player leaves, and the room is deleted
      exactly when `removePlayer` reports it empty. */
  function Disconnect(s: ServerState, sock: string, now: int): (s': ServerState)
    requires RoomsValid(s)
    ensures RoomsValid(s')
    ensures s'.roomOf == s.roomOf - {sock}
    ensures !InRoom(s, sock) ==> s'.rooms == s.rooms
    ensures InRoom(s, sock) ==>
      var c := s.roomOf[sock];
      var removed := RemovePlayer(s.rooms[c], sock, now);
      && (c !in s'.rooms <==> removed.roomEmpty)
      && (!removed.roomEmpty ==> s'.rooms == s.rooms[c := removed.room])
      && (removed.roomEmpty ==> s'.rooms == s.rooms - {c})
  {
    var rooms :=
      if InRoom(s, sock) then
        var c := s.roomOf[sock];
        var removed := RemovePlayer(s.rooms[c], sock, now);
        if removed.roomEmpty then s.rooms - {c} else s.rooms[c := removed.room]
      else s.rooms;
    ServerState(rooms, s.roomOf - {sock})
  }

  /** `getRoomInfo()`. */
  datatype RoomInfo = RoomInfo(id: string, playerCount: nat, maxPlayers: nat, phase: Phase,
                               level: int, createdAt: int, lastActivity: int)

  datatype Validation = InvalidFormat | DoesNotExist | ValidRoom(info: RoomInfo)

  /** The `validateRoom` handler: the same code rule as `joinRoom`, then a
      read-only lookup. */
  function ValidateRoom(s: ServerState, roomId: Option<string>): (v: Validation)
    ensures ValidateCode(roomId).None? ==> v == InvalidFormat
    ensures ValidateCode(roomId).Some? && ValidateCode(roomId).value !in s.rooms ==> v == DoesNotExist
    ensures ValidateCode(roomId).Some? && ValidateCode(roomId).value in s.rooms ==> v.ValidRoom?
    ensures v.ValidRoom? ==>
      var code := ValidateCode(roomId).value;
      && code in s.rooms
      && v.info.id == s.rooms[code].id
      && v.info.playerCount == PlayerCount(s.rooms[code])
      && v.info.maxPlayers == MaxPlayersPerRoom
      && v.info.phase == s.rooms[code].phase
      && v.info.level == s.rooms[code].level
      && v.info.createdAt == s.rooms[code].createdAt
      && v.info.lastActivity == s.rooms[code].lastActivity
  {
    match ValidateCode(roomId)
    case None => InvalidFormat
    case Some(code) =>
      if code in s.rooms then
        var r := s.rooms[code];
        ValidRoom(RoomInfo(r.id, PlayerCount(r), MaxPlayersPerRoom, r.phase, r.level, r.createdAt, r.lastActivity))
      else DoesNotExist
  }
}
