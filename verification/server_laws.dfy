/** The registry invariant the server handlers maintain, and laws about
    joining, starting and leaving. */
module ServerLaws {
  import opened Optional
  import opened OrderedMaps
  import opened Switches
  import opened GameRooms
  import opened RoomCodes
  import opened PuzzleEvaluator
  import opened Server

  /** A registered room: its id is its key, the key is a normalised code
      six UTF-16 code units long, it is neither empty nor over capacity, and its
      level counter starts at 1 and never goes below. */
  predicate RoomInv(code: string, r: Room) {
    && RoomValid(r)
    && r.id == code
    && Utf16Length(code) == RoomCodeLength && Normalize(code) == code
    && 1 <= PlayerCount(r) <= MaxPlayersPerRoom
    && r.level >= 1
  }

  predicate ServerInv(s: ServerState) {
    forall c | c in s.rooms :: RoomInv(c, s.rooms[c])
  }

  lemma InvRoomsValid(s: ServerState)
    requires ServerInv(s)
    ensures RoomsValid(s)
  {
  }

  /** Everything that can happen to the server: a socket event, or one of
      the timers the handlers set firing on the room registered under
      `code`. */
  datatype Event =
    | JoinEvent(sock: string, data: JoinData, now: int)
    | StartEvent(sock: string)
    | MoveEvent(sock: string, patch: PlayerPatch, now: int)
    | ActivateEvent(sock: string, key: SwitchKey, kind: SwitchKind, now: int)
    | DeactivateEvent(sock: string, key: SwitchKey)
    | CompleteEvent(sock: string)
    | AdvanceTimer(code: string)
    | ResetTimer(code: string, outcome: Outcome)
    | DisconnectEvent(sock: string, now: int)

  /** One transition of the server. The reset timer runs the intended
      reset `ResetFires`, not the as-written `ResetAsWritten`. */
  function Step(s: ServerState, e: Event): (s': ServerState)
    requires RoomsValid(s)
    ensures RoomsValid(s')
  {
    match e
    case JoinEvent(sock, data, now) => JoinRoom(s, sock, data, now).state
    case StartEvent(sock) => StartGame(s, sock).0
    case MoveEvent(sock, patch, now) => PlayerMove(s, sock, patch, now)
    case ActivateEvent(sock, key, kind, now) => SwitchActivated(s, sock, key, kind, now).state
    case DeactivateEvent(sock, key) => SwitchDeactivated(s, sock, key)
    case CompleteEvent(sock) => LevelCompleted(s, sock)
    case AdvanceTimer(code) =>
      if code in s.rooms then s.(rooms := s.rooms[code := AdvanceLevel(s.rooms[code]).0]) else s
    case ResetTimer(code, outcome) =>
      if code in s.rooms && outcome.ResetScheduled? then
        s.(rooms := s.rooms[code := ResetFires(s.rooms[code], outcome)])
      else s
    case DisconnectEvent(sock, now) => Disconnect(s, sock, now)
  }

  /** What one transition leaves alone: only `joinRoom` and `disconnect`
      change a connection's room tag, and only `joinRoom` registers a
      room. */
  lemma StepFrame(s: ServerState, e: Event)
    requires RoomsValid(s)
    ensures !(e.JoinEvent? || e.DisconnectEvent?) ==> Step(s, e).roomOf == s.roomOf
    ensures !e.JoinEvent? ==> Step(s, e).rooms.Keys <= s.rooms.Keys
  {
    match e
    case JoinEvent(_, _, _) =>
    case StartEvent(_) =>
    case MoveEvent(_, _, _) =>
    case ActivateEvent(_, _, _, _) =>
    case DeactivateEvent(_, _) =>
    case CompleteEvent(_) =>
    case AdvanceTimer(_) =>
    case ResetTimer(_, _) =>
    case DisconnectEvent(_, _) =>
  }

  /** A firing reset timer leaves none of the switches it captured active
      in the room registered under its code. */
  lemma ResetTimerDisarms(s: ServerState, code: string, o: Outcome)
    requires RoomsValid(s) && code in s.rooms && o.ResetScheduled?
    ensures var s' := Step(s, ResetTimer(code, o));
      && code in s'.rooms
      && forall k :: k in KeysOf(o.snapshot) ==>
           k in s'.rooms[code].switches.entries && !s'.rooms[code].switches.entries[k].active
  {
  }

  function Run(s: ServerState, events: seq<Event>): (s': ServerState)
    requires RoomsValid(s)
    ensures RoomsValid(s')
    decreases |events|
  {
    if |events| == 0 then s else Run(Step(s, events[0]), events[1..])
  }

  lemma LeavePreservesInv(s: ServerState, sock: string, now: int)
    requires ServerInv(s)
    ensures ServerInv(LeaveCurrentRoom(s, sock, now))
  {
    var s' := LeaveCurrentRoom(s, sock, now);
    if InRoom(s, sock) {
      var c := s.roomOf[sock];
      var removed := RemovePlayer(s.rooms[c], sock, now);
      if PlayerCount(removed.room) > 0 {
        assert RoomInv(c, s.rooms[c]);
        assert RoomInv(c, removed.room);
        ReplaceRoomKeepsInv(s, c, removed.room);
      } else {
        assert s' == s.(rooms := s.rooms - {c});
      }
    }
  }

  lemma EnterPreservesInv(s: ServerState, sock: string, code: string, name: string, now: int)
    requires ServerInv(s)
    requires Utf16Length(code) == RoomCodeLength && Normalize(code) == code
    ensures ServerInv(EnterRoom(s, sock, code, name, now).state)
  {
    var room := if code in s.rooms then s.rooms[code] else NewRoom(code, now);
    var added := AddPlayer(room, sock, name, now);
    assert RoomInv(code, added.room);
  }

  lemma JoinPreservesInv(s: ServerState, sock: string, data: JoinData, now: int)
    requires ServerInv(s)
    ensures ServerInv(JoinRoom(s, sock, data, now).state)
  {
    if JoinCode(JoinRoomId(data)).Some? {
      LeavePreservesInv(s, sock, now);
      EnterPreservesInv(LeaveCurrentRoom(s, sock, now), sock, JoinCode(JoinRoomId(data)).value,
                        JoinPlayerName(data), now);
    }
  }

  /** Replacing a registered room by one that keeps the invariant keeps
      the registry invariant. */
  lemma ReplaceRoomKeepsInv(s: ServerState, c: string, r: Room)
    requires ServerInv(s) && c in s.rooms && RoomInv(c, r)
    ensures ServerInv(s.(rooms := s.rooms[c := r]))
  {
  }

  /** A room that differs from a registered one only in its phase, level
      (not lowered), switches or player records (same keys) keeps the
      invariant. */
  lemma SameShapeKeepsInv(c: string, r: Room, r': Room)
    requires RoomInv(c, r) && RoomValid(r')
    requires r'.id == r.id && r'.players.keys == r.players.keys && r'.level >= r.level
    ensures RoomInv(c, r')
  {
  }

  lemma ActivatePreservesInv(s: ServerState, sock: string, key: SwitchKey, kind: SwitchKind, now: int)
    requires ServerInv(s)
    ensures ServerInv(SwitchActivated(s, sock, key, kind, now).state)
  {
    if InRoom(s, sock) {
      var c := s.roomOf[sock];
      var r' := SwitchActivated(s, sock, key, kind, now).state.rooms[c];
      SameShapeKeepsInv(c, s.rooms[c], r');
      ReplaceRoomKeepsInv(s, c, r');
    }
  }

  lemma DisconnectPreservesInv(s: ServerState, sock: string, now: int)
    requires ServerInv(s)
    ensures ServerInv(Disconnect(s, sock, now))
  {
    if InRoom(s, sock) {
      var c := s.roomOf[sock];
      var removed := RemovePlayer(s.rooms[c], sock, now);
      assert !removed.roomEmpty ==> RoomInv(c, removed.room);
    }
  }

  lemma StartPreservesInv(s: ServerState, sock: string)
    requires ServerInv(s)
    ensures ServerInv(StartGame(s, sock).0)
  {
    if StartGame(s, sock).1 {
      var c := s.roomOf[sock];
      SameShapeKeepsInv(c, s.rooms[c], s.rooms[c].(phase := Playing));
      ReplaceRoomKeepsInv(s, c, s.rooms[c].(phase := Playing));
    }
  }

  lemma MovePreservesInv(s: ServerState, sock: string, patch: PlayerPatch, now: int)
    requires ServerInv(s)
    ensures ServerInv(PlayerMove(s, sock, patch, now))
  {
    if InRoom(s, sock) {
      var c := s.roomOf[sock];
      var r' := UpdatePlayer(s.rooms[c], sock, patch, now);
      SameShapeKeepsInv(c, s.rooms[c], r');
      ReplaceRoomKeepsInv(s, c, r');
    }
  }

  lemma DeactivatePreservesInv(s: ServerState, sock: string, key: SwitchKey)
    requires ServerInv(s)
    ensures ServerInv(SwitchDeactivated(s, sock, key))
  {
    if InRoom(s, sock) {
      var c := s.roomOf[sock];
      var r' := SwitchDeactivated(s, sock, key).rooms[c];
      SameShapeKeepsInv(c, s.rooms[c], r');
      ReplaceRoomKeepsInv(s, c, r');
    }
  }

  lemma CompletePreservesInv(s: ServerState, sock: string)
    requires ServerInv(s)
    ensures ServerInv(LevelCompleted(s, sock))
  {
    if InRoom(s, sock) {
      var c := s.roomOf[sock];
      var r' := s.rooms[c].(level := s.rooms[c].level + 1, phase := Completed);
      SameShapeKeepsInv(c, s.rooms[c], r');
      ReplaceRoomKeepsInv(s, c, r');
    }
  }

  lemma TimerPreservesInv(s: ServerState, e: Event)
    requires ServerInv(s) && (e.AdvanceTimer? || e.ResetTimer?)
    ensures ServerInv(Step(s, e))
  {
    match e
    case AdvanceTimer(c) =>
      if c in s.rooms {
        var r' := AdvanceLevel(s.rooms[c]).0;
        SameShapeKeepsInv(c, s.rooms[c], r');
        ReplaceRoomKeepsInv(s, c, r');
      }
    case ResetTimer(c, o) =>
      if c in s.rooms && o.ResetScheduled? {
        var r' := ResetFires(s.rooms[c], o);
        SameShapeKeepsInv(c, s.rooms[c], r');
        ReplaceRoomKeepsInv(s, c, r');
      }
  }

  lemma StepPreservesInv(s: ServerState, e: Event)
    requires ServerInv(s)
    ensures ServerInv(Step(s, e))
  {
    match e
    case JoinEvent(sock, data, now) => JoinPreservesInv(s, sock, data, now);
    case StartEvent(sock) => StartPreservesInv(s, sock);
    case MoveEvent(sock, patch, now) => MovePreservesInv(s, sock, patch, now);
    case ActivateEvent(sock, key, kind, now) => ActivatePreservesInv(s, sock, key, kind, now);
    case DeactivateEvent(sock, key) => DeactivatePreservesInv(s, sock, key);
    case CompleteEvent(sock) => CompletePreservesInv(s, sock);
    case AdvanceTimer(_) => TimerPreservesInv(s, e);
    case ResetTimer(_, _) => TimerPreservesInv(s, e);
    case DisconnectEvent(sock, now) => DisconnectPreservesInv(s, sock, now);
  }

  /** The registry invariant holds after any sequence of events from an
      empty server. */
  lemma {:induction false} RunPreservesInv(s: ServerState, events: seq<Event>)
    requires ServerInv(s)
    ensures ServerInv(Run(s, events))
    decreases |events|
  {
    if |events| > 0 {
      StepPreservesInv(s, events[0]);
      RunPreservesInv(Step(s, events[0]), events[1..]);
    }
  }

  /** Joining a code nobody uses creates the room in the waiting phase at
      level 1, with the joining socket as its only player. */
  lemma JoinFreshCode(s: ServerState, sock: string, data: JoinData, now: int)
    requires RoomsValid(s)
    requires JoinCode(JoinRoomId(data)).Some? && JoinCode(JoinRoomId(data)).value !in s.rooms
    ensures var code := JoinCode(JoinRoomId(data)).value;
      var res := JoinRoom(s, sock, data, now);
      && res.reply.Joined? && res.reply.playerCount == 1
      && code in res.state.rooms
      && res.state.rooms[code].players.keys == [sock]
      && res.state.rooms[code].phase == Waiting
      && res.state.rooms[code].level == 1
  {
    var code := JoinCode(JoinRoomId(data)).value;
    var left := LeaveCurrentRoom(s, sock, now);
    assert code !in left.rooms;
    var added := AddPlayer(NewRoom(code, now), sock, JoinPlayerName(data), now);
    assert added.room.players.keys == [sock];
  }

  /** A join refused because the room is full still took the socket out of
      its previous room, but keeps its tag: the socket stays tagged with a
      room it is no longer a member of. */
  lemma RefusedJoinLeavesStaleTag(s: ServerState, sock: string, data: JoinData, now: int)
    requires RoomsValid(s)
    ensures var res := JoinRoom(s, sock, data, now);
      res.reply.RoomFull? && InRoom(res.state, sock) ==>
        !IsMember(res.state.rooms[res.state.roomOf[sock]], sock)
  {
    var res := JoinRoom(s, sock, data, now);
    if res.reply.RoomFull? && InRoom(res.state, sock) {
      var code := JoinCode(JoinRoomId(data)).value;
      var left := LeaveCurrentRoom(s, sock, now);
      var c := s.roomOf[sock];
      assert c in left.rooms ==> !IsMember(left.rooms[c], sock);
    }
  }

  /** When the last player disconnects the room is deleted, and the next
      join with its code starts over with a fresh room. */
  lemma LastLeaveResetsRoom(s: ServerState, sock: string, other: string, data: JoinData, now: int, later: int)
    requires RoomsValid(s) && InRoom(s, sock)
    requires IsMember(s.rooms[s.roomOf[sock]], sock) && PlayerCount(s.rooms[s.roomOf[sock]]) == 1
    requires JoinCode(JoinRoomId(data)) == Some(s.roomOf[sock])
    ensures var s1 := Disconnect(s, sock, now);
      var res := JoinRoom(s1, other, data, later);
      && s.roomOf[sock] !in s1.rooms
      && res.reply.Joined?
      && res.state.rooms[s.roomOf[sock]].level == 1
      && res.state.rooms[s.roomOf[sock]].phase == Waiting
      && res.state.rooms[s.roomOf[sock]].players.keys == [other]
  {
    var s1 := Disconnect(s, sock, now);
    JoinFreshCode(s1, other, data, later);
  }

  /** `joinRoom` takes the socket out of its tagged room before
      `addPlayer` runs, so re-joining the same room with others still in
      it re-admits the socket as a newcomer: it moves to the end of the
      join order and takes slot `size + 1` rather than its old slot. */
  lemma RejoinIsNewcomer(s: ServerState, sock: string, data: JoinData, now: int)
    requires ServerInv(s) && InRoom(s, sock)
    requires IsMember(s.rooms[s.roomOf[sock]], sock) && PlayerCount(s.rooms[s.roomOf[sock]]) >= 2
    requires JoinCode(JoinRoomId(data)) == Some(s.roomOf[sock])
    ensures var c := s.roomOf[sock];
      var r' := JoinRoom(s, sock, data, now).state.rooms[c];
      && JoinRoom(s, sock, data, now).reply.Joined?
      && PlayerCount(r') == PlayerCount(s.rooms[c])
      && r'.players.keys[|r'.players.keys| - 1] == sock
      && r'.players.entries[sock].number == PlayerCount(s.rooms[c])
  {
    var c := s.roomOf[sock];
    var s1 := LeaveCurrentRoom(s, sock, now);
    var removed := RemovePlayer(s.rooms[c], sock, now);
    assert c in s1.rooms && s1.rooms[c] == removed.room;
    var name := JoinPlayerName(data);
    assert JoinRoom(s, sock, data, now) == EnterRoom(s1, sock, c, name, now);
    AddNewcomer(removed.room, sock, name, now);
  }

  /** `addPlayer` of a newcomer to a room with space appends them. */
  lemma AddNewcomer(r: Room, sock: string, name: string, now: int)
    requires RoomValid(r) && !IsMember(r, sock) && PlayerCount(r) < MaxPlayersPerRoom
    ensures var added := AddPlayer(r, sock, name, now);
      && added.ok
      && added.room.players.keys == r.players.keys + [sock]
      && PlayerCount(added.room) == PlayerCount(r) + 1
      && added.room.players.entries[sock].number == PlayerCount(r) + 1
  {
  }

  /** A connection with no room tag that joins a room `validateRoom`
      reports enters that very room: it is not recreated, and keeps its
      phase, level and creation time. */
  lemma ValidatedRoomIsEntered(s: ServerState, sock: string, roomId: Option<string>, playerName: Option<string>, now: int)
    requires RoomsValid(s) && sock !in s.roomOf
    requires ValidateRoom(s, roomId).ValidRoom?
    ensures var code := ValidateCode(roomId).value;
      var res := JoinRoom(s, sock, JoinPayload(roomId, playerName), now);
      && code in res.state.rooms
      && res.state.rooms[code].phase == s.rooms[code].phase
      && res.state.rooms[code].level == s.rooms[code].level
      && res.state.rooms[code].createdAt == s.rooms[code].createdAt
  {
    JoinAndValidateAgree(roomId);
    assert LeaveCurrentRoom(s, sock, now) == s;
  }

  /** The initial server: no rooms, no tagged sockets. */
  const Initial: ServerState := ServerState(map[], map[])

  /** The first join of an unused code leaves the joiner alone in a
      waiting room, tagged with it. */
  lemma FirstJoin(a: string, code: string, now: int)
    requires Utf16Length(code) == RoomCodeLength && Normalize(code) == code
    ensures var s1 := JoinRoom(Initial, a, JoinPayload(Some(code), None), now).state;
      && RoomsValid(s1)
      && s1.roomOf == map[a := code]
      && code in s1.rooms
      && PlayerCount(s1.rooms[code]) == 1 && IsMember(s1.rooms[code], a)
      && s1.rooms[code].players.keys == [a]
      && s1.rooms[code].phase == Waiting
  {
    var data := JoinPayload(Some(code), None);
    assert code != [];
    assert JoinCode(JoinRoomId(data)) == Some(code);
    JoinFreshCode(Initial, a, data, now);
  }

  /** A newcomer joining a room of one, without a previous room, makes it
      a room of two in the same phase. */
  lemma SecondJoin(s1: ServerState, b: string, code: string, now: int)
    requires RoomsValid(s1) && b !in s1.roomOf
    requires Utf16Length(code) == RoomCodeLength && Normalize(code) == code
    requires code in s1.rooms && PlayerCount(s1.rooms[code]) == 1 && !IsMember(s1.rooms[code], b)
    ensures var s2 := JoinRoom(s1, b, JoinPayload(Some(code), None), now).state;
      && RoomsValid(s2)
      && b in s2.roomOf && s2.roomOf[b] == code
      && code in s2.rooms
      && PlayerCount(s2.rooms[code]) == 2
      && s2.rooms[code].phase == s1.rooms[code].phase
      && (s1.rooms[code].phase == Waiting ==>
            StartGame(s2, b).1 && StartGame(s2, b).0.rooms[code].phase == Playing)
  {
    var data := JoinPayload(Some(code), None);
    assert code != [];
    assert JoinCode(JoinRoomId(data)) == Some(code);
    assert LeaveCurrentRoom(s1, b, now) == s1;
    var res := EnterRoom(s1, b, code, JoinPlayerName(data), now);
    assert JoinRoom(s1, b, data, now) == res;
    var added := AddPlayer(s1.rooms[code], b, JoinPlayerName(data), now);
    assert added.ok && PlayerCount(added.room) == 2;
    assert res.state.rooms[code] == added.room;
  }

  /** A player alone in a room cannot start it. */
  lemma AloneCannotStart(a: string, code: string, now: int)
    requires Utf16Length(code) == RoomCodeLength && Normalize(code) == code
    ensures !StartGame(JoinRoom(Initial, a, JoinPayload(Some(code), None), now).state, a).1
  {
    FirstJoin(a, code, now);
  }

  /** Two players join the same code; once the second is in, `startGame`
      from the second starts the room. */
  lemma TwoPlayersStart(a: string, b: string, code: string, now: int)
    requires a != b
    requires Utf16Length(code) == RoomCodeLength && Normalize(code) == code
    ensures var data := JoinPayload(Some(code), None);
      var s2 := JoinRoom(JoinRoom(Initial, a, data, now).state, b, data, now).state;
      && StartGame(s2, b).1
      && StartGame(s2, b).0.rooms[code].phase == Playing
  {
    var data := JoinPayload(Some(code), None);
    FirstJoin(a, code, now);
    var s1 := JoinRoom(Initial, a, data, now).state;
    assert b !in s1.rooms[code].players.keys && b !in s1.roomOf;
    SecondJoin(s1, b, code, now);
  }

  /** The two steps of `levelCompleted`: the report raises the level and
      shows `completed`; when the advance timer fires the room is playing
      again at that same level, which the `nextLevel` broadcast carries. */
  lemma CompleteThenAdvance(s: ServerState, sock: string)
    requires RoomsValid(s) && InRoom(s, sock)
    ensures var c := s.roomOf[sock];
      var s1 := LevelCompleted(s, sock);
      var s2 := Step(s1, AdvanceTimer(c));
      && s1.rooms[c].phase == Completed
      && s2.rooms[c] == s.rooms[c].(level := s.rooms[c].level + 1, phase := Playing)
      && AdvanceLevel(s1.rooms[c]).1 == NextLevel(s.rooms[c].level + 1, PlayerCount(s.rooms[c]))
  {
  }

  /** `validateRoom` reports a room exactly when the id passes the code
      rule of `joinRoom` and the code is registered. */
  lemma ValidateMatchesJoin(s: ServerState, roomId: Option<string>, playerName: Option<string>)
    ensures ValidateRoom(s, roomId).ValidRoom? <==>
      var code := JoinCode(JoinRoomId(JoinPayload(roomId, playerName)));
      code.Some? && code.value in s.rooms
  {
    JoinAndValidateAgree(roomId);
  }
}
