/** The client's reducers for the server's puzzle and level events, and the
    count-based predicates behind the goal check and the start button. */
module Client {
  import opened Switches
  import opened GameRooms
  import opened Levels

  /** `gameState` together with the current level's switch and door arrays. */
  datatype ClientState = ClientState(
    players: seq<Player>,
    status: Phase,
    level: int,
    switches: seq<SwitchSpec>,
    doors: seq<DoorSpec>)

  /** The `puzzleSolved` handler: every door opens, whatever its type. */
  function PuzzleSolved(doors: seq<DoorSpec>): (r: seq<DoorSpec>)
    ensures |r| == |doors|
    ensures forall i :: 0 <= i < |r| ==>
      r[i].open && r[i].id == doors[i].id && r[i].detail == doors[i].detail
  {
    seq(|doors|, i requires 0 <= i < |doors| => doors[i].(open := true))
  }

  /** A switch after a reset of its type: inactive, and a pattern switch
      also forgets that it was pressed. */
  function ResetSwitch(s: SwitchSpec): (r: SwitchSpec)
    ensures !r.active && r.id == s.id && r.requiredPlayers == s.requiredPlayers
    ensures SwitchType(r) == SwitchType(s)
    ensures r.detail.PatternSwitch? ==>
      !r.detail.activated && r.detail.sequenceOrder == s.detail.sequenceOrder
    ensures !r.detail.PatternSwitch? ==> r.detail == s.detail
  {
    if s.detail.PatternSwitch? then s.(active := false, detail := s.detail.(activated := false))
    else s.(active := false)
  }

  datatype Arrays = Arrays(switches: seq<SwitchSpec>, doors: seq<DoorSpec>)

  /** The `puzzleReset` handler for puzzle type `kind`: switches of that
      type are reset and doors of that type close; every other switch and
      door is left as it was. */
  function PuzzleReset(switches: seq<SwitchSpec>, doors: seq<DoorSpec>, kind: PuzzleKind): (r: Arrays)
    ensures |r.switches| == |switches| && |r.doors| == |doors|
    ensures forall i :: 0 <= i < |switches| ==>
      if SwitchType(switches[i]) == kind then r.switches[i] == ResetSwitch(switches[i])
      else r.switches[i] == switches[i]
    ensures forall i :: 0 <= i < |doors| ==>
      if DoorType(doors[i]) == kind then !r.doors[i].open && r.doors[i] == doors[i].(open := false)
      else r.doors[i] == doors[i]
  {
    Arrays(
      seq(|switches|, i requires 0 <= i < |switches| =>
        if SwitchType(switches[i]) == kind then ResetSwitch(switches[i]) else switches[i]),
      seq(|doors|, i requires 0 <= i < |doors| =>
        if DoorType(doors[i]) == kind then doors[i].(open := false) else doors[i]))
  }

  /** Resetting twice is resetting once. */
  lemma PuzzleResetIdempotent(switches: seq<SwitchSpec>, doors: seq<DoorSpec>, kind: PuzzleKind)
    ensures var once := PuzzleReset(switches, doors, kind);
            PuzzleReset(once.switches, once.doors, kind) == once
  {
    var once := PuzzleReset(switches, doors, kind);
    var twice := PuzzleReset(once.switches, once.doors, kind);
    assert twice.switches == once.switches;
    assert twice.doors == once.doors;
  }

  /** In a freshly generated level, a reset of the level's own puzzle type
      undoes a `puzzleSolved`: every door is closed again. */
  lemma ResetUndoesSolved(l: Level)
    requires WellFormed(l)
    ensures PuzzleReset(l.switches, PuzzleSolved(l.doors), KindOf(l.puzzleType)).doors == l.doors
  {
    var p := Puzzle(l.switches, l.doors);
    assert KindsMatch(l.puzzleType, p) && InitiallyIdle(p);
    var r := PuzzleReset(l.switches, PuzzleSolved(l.doors), KindOf(l.puzzleType)).doors;
    forall i | 0 <= i < |l.doors|
      ensures r[i] == l.doors[i]
    {
      assert DoorType(PuzzleSolved(l.doors)[i]) == DoorType(l.doors[i]);
    }
  }

  /** The `levelCompleted` handler of the client. */
  function LevelCompletedClient(st: ClientState, nextLevel: int): (st': ClientState)
    ensures st'.status == Completed && st'.level == nextLevel
    ensures st'.players == st.players && st'.switches == st.switches && st'.doors == st.doors
  {
    st.(level := nextLevel, status := Completed)
  }

  /** The position reset of `nextLevel` for the player at index `k`. */
  function ResetPosition(p: Player, k: nat): (q: Player)
    ensures q.x == (100 + 40 * k) as real && q.y == SpawnY
    ensures q.velocityX == 0.0 && q.velocityY == 0.0 && !q.onGround
    ensures q.id == p.id && q.number == p.number && q.name == p.name && q.color == p.color
  {
    p.(x := (100 + 40 * k) as real, y := 600.0, velocityX := 0.0, velocityY := 0.0, onGround := false)
  }

  /** The `nextLevel` handler: status `playing`, the level regenerated for
      the announced player count, and every player back at the start line
      in list order. */
  function NextLevelClient(st: ClientState, level: int, playerCount: nat, random: nat -> real): (st': ClientState)
    requires RandomInRange(random)
    ensures st'.status == Playing && st'.level == level
    ensures var l := GenerateLevel(level, playerCount, random);
            st'.switches == l.switches && st'.doors == l.doors
    ensures |st'.players| == |st.players|
    ensures forall k :: 0 <= k < |st.players| ==> st'.players[k] == ResetPosition(st.players[k], k)
  {
    var l := GenerateLevel(level, playerCount, random);
    ClientState(
      seq(|st.players|, k requires 0 <= k < |st.players| => ResetPosition(st.players[k], k)),
      Playing, level, l.switches, l.doors)
  }

  /** The client restarts a player one slot to the left of where the
      server spawned them: the client counts from index 0, the server from
      slot number 1. */
  lemma NextLevelSpawnOffset(st: ClientState, level: int, playerCount: nat, random: nat -> real, k: nat)
    requires RandomInRange(random)
    requires k < |st.players| && st.players[k].number == k + 1
    ensures NextLevelClient(st, level, playerCount, random).players[k].x == SpawnX(st.players[k].number) - 40.0
  {
  }

  /** The number of players that are at the goal. */
  function CountTrue(atGoal: seq<bool>): (n: nat)
    ensures n <= |atGoal|
    ensures n == |atGoal| <==> forall i :: 0 <= i < |atGoal| ==> atGoal[i]
  {
    if |atGoal| == 0 then 0
    else
      assert forall i :: 1 <= i < |atGoal| ==> atGoal[i] == atGoal[1..][i - 1];
      (if atGoal[0] then 1 else 0) + CountTrue(atGoal[1..])
  }

  /** The condition under which `checkGoal` reports `levelCompleted`:
      `atGoal[i]` says whether player i overlaps the goal. */
  function GoalReached(atGoal: seq<bool>): (b: bool)
    ensures b <==> |atGoal| >= MinPlayersPerRoom && forall i :: 0 <= i < |atGoal| ==> atGoal[i]
  {
    CountTrue(atGoal) == |atGoal| && |atGoal| >= 2
  }

  /** `canStart` of `updateUI`. */
  function StartEnabled(playerCount: nat, status: Phase): (b: bool)
    ensures b <==> playerCount >= MinPlayersPerRoom && status == Waiting
  {
    playerCount >= 2 && status == Waiting
  }

  /** The start button is enabled exactly when the server would start the
      game, as long as the client sees the room's player list and phase. */
  lemma StartButtonMatchesServer(r: Room)
    requires RoomValid(r)
    ensures StartEnabled(|PlayersArray(r)|, r.phase) <==> CanStartGame(r)
  {
  }
}
