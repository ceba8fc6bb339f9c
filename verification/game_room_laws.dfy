/** Laws relating the `GameRoom` operations to each other. */
module GameRoomLaws {
  import opened OrderedMaps
  import opened Decimal
  import opened GameRooms

  /** A player who joins and leaves again leaves the player map exactly as
      it was, order included. */
  lemma AddRemoveRoundTrip(r: Room, socketId: string, playerName: string, now: int, later: int)
    requires RoomValid(r)
    requires PlayerCount(r) < MaxPlayersPerRoom && !IsMember(r, socketId)
    ensures var removed := RemovePlayer(AddPlayer(r, socketId, playerName, now).room, socketId, later);
            && removed.room.players == r.players
            && (removed.roomEmpty <==> PlayerCount(r) == 0)
  {
    var p := FreshPlayer(socketId, PlayerCount(r) + 1, playerName, now);
    assert AddPlayer(r, socketId, playerName, now).room.players == Set(r.players, socketId, p);
    DeleteUndoesSet(r.players, socketId, p);
  }

  /** A member re-joining keeps the player count, the slot number and the
      map order. */
  lemma ReconnectKeepsSlot(r: Room, socketId: string, playerName: string, now: int)
    requires RoomValid(r)
    requires PlayerCount(r) < MaxPlayersPerRoom && IsMember(r, socketId)
    ensures var added := AddPlayer(r, socketId, playerName, now);
      && added.ok
      && PlayerCount(added.room) == PlayerCount(r)
      && added.room.players.keys == r.players.keys
      && added.room.players.entries[socketId].number == r.players.entries[socketId].number
      && added.room.players.entries[socketId].isConnected
  {
  }

  /** The room after the players `ids` join in turn, each with no name. */
  function JoinAll(r: Room, ids: seq<string>, now: int): (r': Room)
    requires RoomValid(r)
    ensures RoomValid(r')
    ensures r'.phase == r.phase && r'.level == r.level
  {
    if |ids| == 0 then r
    else AddPlayer(JoinAll(r, ids[..|ids| - 1], now), ids[|ids| - 1], [], now).room
  }

  /** The players of `r` are exactly `ids`, in slots 1, 2, 3, ... in that
      order. */
  predicate SlotsInOrder(r: Room, ids: seq<string>)
    requires RoomValid(r)
  {
    && r.players.keys == ids
    && forall i :: 0 <= i < |ids| ==> r.players.entries[ids[i]].number == i + 1
  }

  /** One more nameless newcomer takes the next slot. */
  lemma JoinNextSlot(r: Room, ids: seq<string>, x: string, now: int)
    requires RoomValid(r) && SlotsInOrder(r, ids)
    requires x !in ids && |ids| < MaxPlayersPerRoom
    ensures SlotsInOrder(AddPlayer(r, x, [], now).room, ids + [x])
  {
    var r' := AddPlayer(r, x, [], now).room;
    assert r'.players.entries == r.players.entries[x := r'.players.entries[x]];
    assert r'.players.entries[x].number == |ids| + 1;
    forall i | 0 <= i < |ids| ensures (ids + [x])[i] == ids[i] && ids[i] != x {}
  }

  /** Dropping the last element of a list without repetitions leaves one
      without repetitions that does not hold it. */
  lemma DistinctInit(ids: seq<string>)
    requires Distinct(ids) && |ids| > 0
    ensures Distinct(ids[..|ids| - 1]) && ids[|ids| - 1] !in ids[..|ids| - 1]
  {
    var init := ids[..|ids| - 1];
    forall i | 0 <= i < |init| ensures init[i] == ids[i] && init[i] != ids[|ids| - 1] {}
  }

  /** Distinct sockets joining an empty room take slots 1, 2, 3, ... in join
      order. */
  lemma {:induction false} SlotsFollowJoinOrder(r: Room, ids: seq<string>, now: int)
    requires RoomValid(r) && PlayerCount(r) == 0
    requires Distinct(ids) && |ids| <= MaxPlayersPerRoom
    ensures SlotsInOrder(JoinAll(r, ids, now), ids)
  {
    if |ids| > 0 {
      var init := ids[..|ids| - 1];
      var last := ids[|ids| - 1];
      assert ids == init + [last];
      DistinctInit(ids);
      SlotsFollowJoinOrder(r, init, now);
      JoinNextSlot(JoinAll(r, init, now), init, last, now);
    }
  }

  /** Slot numbers are `size + 1`, so after a departure a newcomer can be
      given the slot of someone still in the room, and with it the same
      palette colour. */
  lemma SlotNumberReused(code: string, a: string, b: string, c: string, now: int)
    requires a != b && b != c && a != c
    ensures var r2 := JoinAll(NewRoom(code, now), [a, b], now);
      var r3 := RemovePlayer(r2, a, now).room;
      var r4 := AddPlayer(r3, c, [], now).room;
      && IsMember(r4, b) && IsMember(r4, c)
      && r4.players.entries[b].number == r4.players.entries[c].number == 2
  {
    SlotsFollowJoinOrder(NewRoom(code, now), [a, b], now);
    var r2 := JoinAll(NewRoom(code, now), [a, b], now);
    assert [a, b][1] == b;
    var r3 := RemovePlayer(r2, a, now).room;
    assert r3.players.keys == [b] by {
      assert r2.players.keys[0] == a;
    }
    assert r3.players.entries[b].number == 2;
    assert !IsMember(r3, c);
  }
}
