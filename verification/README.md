# Cooperative platformer: room server and level logic

A Dafny model of the core of a browser-based cooperative puzzle platformer:
a Socket.IO server that keeps game rooms and evaluates puzzle switches, and the
client logic that builds levels and reacts to the server's puzzle events.

What is modelled:

- **Rooms** (`GameRooms`, `GameRoomLaws`) — the server's `GameRoom` class.
  - The player map is an insertion-ordered map (`OrderedMaps.OMap`), because
    the join order decides slot numbers and the order of `getPlayersArray`.
  - A room holds at most 16 players. A fresh player takes slot `size + 1` and
    the colour of that slot. `addPlayer` keeps the slot of a socket that is
    already a member, but `joinRoom` never reaches that case (see below).
- **Room codes** (`RoomCodes`). The code is trimmed and upper-cased, and
  refused unless its `length` is six. `length` counts UTF-16 code units, so a
  character outside the Basic Multilingual Plane counts twice. `joinRoom` and `validateRoom`
  apply the same rule.
- **Handlers** (`Server`). The socket handlers are functions from the room
  registry (`gameRooms`) and the connections' room tags (`socket.roomId`) to
  the next state and the reply:
  - `joinRoom`, `startGame`, `playerMove`, `switchActivated`,
    `switchDeactivated`, `levelCompleted`, `disconnect`, `validateRoom`.
  - Each `setTimeout` body is a separate transition (`AdvanceTimer`,
    `ResetTimer` in `ServerLaws.Event`) applied to the room registered under
    the code.
  - The reset timer runs the corrected reset of the finding below
    (`Server.ResetFires`), not the body as written (`ResetAsWritten`). The
    server invariant says nothing about switches, so it holds either way.
  - `ServerLaws.RunPreservesInv` proves that every room stays well-formed over
    any sequence of events:
    - its code is normalised and six UTF-16 code units long;
    - it holds 1 to 16 players;
    - its level is at least 1.
- **Puzzle evaluation** (`PuzzleEvaluator`, `PuzzleLaws`) —
  `checkSynchronizedSwitches` and `checkPatternSequence`.
  - A synchronized puzzle is solved when every active synchronized switch was
    pressed within 2000 ms of the evaluation.
  - A pattern puzzle is solved when the orders of the active pattern switches
    are a permutation of `1..k`.
  - A failed attempt schedules a reset of the switches it looked at.
- **Levels** (`Levels`) — `generateLevel` with its three generators, and the
  Fisher–Yates shuffle `generateRandomSequence`. The shuffle is proved to
  yield a permutation of `1..n`, and every generated level is proved
  well-formed:
  - ids are unique;
  - switch and door kinds agree with the puzzle type;
  - everything starts idle;
  - doors require every switch;
  - pattern doors carry the switch orders.
- **Client reducers** (`Client`):
  - `puzzleSolved` and `puzzleReset` on the level's switches and doors;
  - the `levelCompleted` and `nextLevel` screens;
  - the player counts behind `checkGoal` and the start button.

Modelling choices:

- `Math.random()` is a stream `random: nat -> real` of draws in `[0, 1)`.
  `Date.now()` is a `now: int` parameter.
- Emitted events are returned as replies or as an `Outcome`.
- Avatar colours are 24-bit RGB integers rather than `#RRGGBB` strings.
- Stored switch records carry no `id` field. The model keys them by
  `SwitchKey`, where `Undefined` is JavaScript's `undefined`.

Behaviour the proofs make explicit:

- Slot numbers are reused:
  - after a player leaves, the next one takes slot `size + 1`;
  - so two members can share a number and a colour (`GameRoomLaws.SlotNumberReused`).
- A single synchronized press evaluated within the window solves the puzzle
  (`PuzzleLaws.LoneSyncPress`).
- A lone pattern press solves the pattern puzzle exactly when its order is 1
  (`PuzzleLaws.LonePatternPress`).
- Cooperative activations are stored but never evaluated.
- A join refused with `roomFull` has still taken the socket out of its
  previous room while keeping its tag (`ServerLaws.RefusedJoinLeavesStaleTag`).
  `startGame`, `levelCompleted` and `switchActivated` check no membership, so
  that socket can still act on the room.
- `joinRoom` takes a tagged socket out of its room before `addPlayer` runs.
  A socket that joins its own room again, with others still in it, is
  re-admitted as a newcomer. It moves to the end of the join order and takes
  slot `size + 1` instead of its old slot (`ServerLaws.RejoinIsNewcomer`).
- A code with a surrogate pair: `AB😀CD` is five characters but six code
  units, so it is accepted (`RoomCodes.SurrogatePairAccepted`).
- `levelCompleted` has no guard: any tagged socket advances the level.
- `joinRoom` always passes a non-empty name (`'Player'` by default), so the
  `Player N` default inside `addPlayer` is never reached from `joinRoom`.
- The client's `nextLevel` puts player `k` at `100 + 40k`, while the server
  spawns slot `n` at `100 + 40n`. The two differ by 40 (`Client.NextLevelSpawnOffset`).

## Model

| member | source | states |
|---|---|---|
| Optional.OrElse | server.js:191-192 | a present non-empty string is kept, a missing or empty one is replaced by the fallback |
| Decimal.ParsePrinted | server.js:51 | the decimal rendering used in generated names and ids reads back as the same number |
| Decimal.PrefixedInjective | public/game.js:123 | ids built as a fixed prefix followed by distinct numbers are distinct |
| OrderedMaps.Set | server.js:65 | `Map.set` keeps the key order for a present key and appends a new key; entries are updated at that key only |
| OrderedMaps.Delete | server.js:72 | `Map.delete` removes the key from the entries and from its position in the order, leaving the rest in order |
| OrderedMaps.DeleteUndoesSet | server.js:65-72 | deleting a freshly added key restores the map, order included |
| OrderedMaps.Values | server.js:94-96 | the values listed in insertion order, one per key |
| OrderedMaps.Entries | server.js:113 | the entries listed in insertion order, with each key's current value; line 113 iterates `values()`, and the model keeps each value's key beside it so that the intended reset can name the switch (the as-written reset ignores it) |
| RoomCodes.Trim | server.js:196 | the result has no leading or trailing whitespace |
| RoomCodes.TrimStripsPadding | server.js:196 | trimming removes exactly a whitespace prefix and a whitespace suffix |
| RoomCodes.NormalizeIdempotent | server.js:196 | trimming and upper-casing a normalised code changes nothing |
| RoomCodes.JoinCode | server.js:186-202 | a join proceeds exactly when the id is present, non-empty and normalises to six UTF-16 code units, and then uses the normalised code |
| RoomCodes.ValidateCode | server.js:446-454 | `validateRoom` accepts exactly the ids that normalise to six UTF-16 code units |
| RoomCodes.Utf16LengthBmp | server.js:199 | without supplementary-plane characters, `length` is the character count |
| RoomCodes.SurrogatePairAccepted | server.js:199 | five characters including one emoji make an accepted six-unit code |
| RoomCodes.SurrogatePairTooLong | server.js:199 | six characters including one emoji are seven units and refused |
| RoomCodes.DefaultRejected | server.js:188-202 | the default room id `room1` can never pass the length check |
| RoomCodes.JoinAndValidateAgree | server.js:196-202 | `joinRoom` and `validateRoom` accept the same ids and produce the same code |
| GameRooms.NewRoom | server.js:19-28 | a new room is empty, waiting, at level 1, with no switches |
| GameRooms.FreshPlayer | server.js:44-63 | a player in slot n gets the n-th palette colour |
| GameRooms.AddPlayer | server.js:30-68 | a full room refuses and is unchanged; a member is refreshed in place; a newcomer is appended in slot size+1 with its colour, name, spawn point and zero velocity |
| GameRooms.RemovePlayer | server.js:70-80 | a member is removed from the map and the order; the room is reported empty exactly when it held only that member |
| GameRooms.Merge | server.js:85 | the reported movement fields overwrite the record; absent ones and every other field (identity, size, colour, liveness, connection, join time) are kept |
| GameRooms.UpdatePlayer | server.js:82-88 | a member's record is merged in place, order unchanged; a stranger changes nothing |
| GameRooms.PlayersArray | server.js:94-96 | the player records in join order, one per member |
| GameRoomLaws.AddRemoveRoundTrip | server.js:30-80 | adding a newcomer and removing them again restores the player map, order included |
| GameRoomLaws.ReconnectKeepsSlot | server.js:36-42 | a member joining again keeps the player count, slot number and order |
| GameRoomLaws.JoinNextSlot | server.js:44-67 | when slots follow join order, the next newcomer takes the next slot |
| GameRoomLaws.SlotsFollowJoinOrder | server.js:46 | in an empty room, the i-th distinct joiner holds slot i+1, in join order |
| GameRoomLaws.SlotNumberReused | server.js:46-58 | after a leave, a newcomer can take the slot of a remaining player |
| Sorting.Sort | server.js:151-153 | the result is ascending and a permutation of the input |
| Sorting.SortedUnique | server.js:151-153 | two ascending permutations of the same values are equal, so the comparator sort's result is determined |
| Sorting.SortedIsOneToIff | server.js:151-157 | comparing the sorted orders with `[1..k]` succeeds exactly when the orders are a permutation of `1..k` |
| PuzzleEvaluator.FilterEntries | server.js:113-114 | `filter` keeps exactly the entries satisfying the predicate, in order, with distinct keys |
| PuzzleEvaluator.SyncSnapshot | server.js:113-114 | the evaluator looks at exactly the active synchronized switches of the room |
| PuzzleEvaluator.PatternSnapshot | server.js:146-147 | the evaluator looks at exactly the active pattern switches of the room |
| PuzzleEvaluator.CheckSynchronized | server.js:112-143 | nothing happens without an active synchronized switch; solved iff all active ones are within 2000 ms; otherwise a reset of the snapshot after 2000 ms |
| PuzzleEvaluator.CheckPattern | server.js:145-177 | nothing happens without an active pattern switch; solved iff the active orders are a permutation of `1..k`; otherwise a reset of the snapshot after 1000 ms |
| PuzzleEvaluator.ResetAsWritten | server.js:131-134 | the timer body as written (both evaluators): writes land on key `undefined`; every other entry is unchanged |
| PuzzleEvaluator.ResetSwitches | server.js:165-168 | the intended timer body (both evaluators): each captured switch is inactive under its own key with its other fields kept; other entries unchanged |
| PuzzleLaws.PatternOrderInsensitive | server.js:150-157 | the pattern verdict depends only on the multiset of active orders, not on press order |
| PuzzleLaws.LonePatternSnapshot | server.js:146-147 | with no other pattern switch active, the snapshot is the single pressed switch |
| PuzzleLaws.LonePatternPress | server.js:145-177 | a lone pattern press solves iff its order is 1, and schedules a reset otherwise |
| PuzzleLaws.LoneSyncPress | server.js:112-143 | a lone synchronized press solves iff it is evaluated within 2000 ms, and schedules a reset otherwise |
| PuzzleLaws.SyncResetDisarms | server.js:131-134 | the intended reset leaves no synchronized switch active |
| PuzzleLaws.DisarmedSyncNotEvaluated | server.js:116 | with no active synchronized switch the evaluator does nothing |
| PuzzleLaws.PatternResetDisarms | server.js:165-168 | the intended reset leaves no pattern switch active |
| PuzzleLaws.DisarmedPatternNotEvaluated | server.js:149 | with no active pattern switch the evaluator does nothing |
| PuzzleLaws.SyncResetAsWrittenKeepsArmed | server.js:131-134 | the reset as written leaves every failed synchronized switch active, so the next evaluation sees them again; this holds on every repeated failure, including after earlier resets left an inactive record under `undefined` |
| PuzzleLaws.PatternResetAsWrittenKeepsArmed | server.js:165-168 | the reset as written leaves every pressed pattern switch active, on every repeated failure as well |
| PuzzleLaws.ResetCounterexample | server.js:131-134 | a switch pressed at 0 and evaluated at 2001: as written it stays active and a stray `undefined` entry appears; the intended reset clears it |
| Server.JoinPlayerName | server.js:186-193 | the name passed on to `addPlayer` is never empty |
| Server.LeaveCurrentRoom | server.js:204-214 | the socket leaves its tagged room, which is deleted iff now empty; other rooms and all tags are unchanged |
| Server.EnterRoom | server.js:216-261 | the room is fetched or created and `addPlayer` runs; on success the socket is tagged and receives the ordered player list and count, otherwise it receives `roomFull` with its tag unchanged |
| Server.JoinRoom | server.js:183-262 | a refused code changes nothing and replies with an error; a successful join tags the socket with a room it is a member of; only success changes tags |
| Server.StartGame | server.js:264-278 | the room starts iff the socket's room has at least two players and is waiting; otherwise nothing changes |
| Server.PlayerMove | server.js:280-292 | only the mover's room changes, by `UpdatePlayer` (whose contract states the in-place merge) |
| Server.SwitchActivated | server.js:294-351 | the pressed switch is stored as active by the socket; the evaluator of its type runs on the updated map; cooperative and untyped presses are not evaluated |
| Server.SwitchDeactivated | server.js:353-365 | the switch entry becomes inactive with nothing else kept; other entries unchanged |
| Server.LevelCompleted | server.js:391-409 | the room's level goes up by one and it shows completed; nothing else changes (the two-step behaviour with the timer is `ServerLaws.CompleteThenAdvance`) |
| Server.AdvanceLevel | server.js:411-417 | the timer puts the room back into play and broadcasts its level and player count (the level it resumes at is stated by `ServerLaws.CompleteThenAdvance`) |
| Server.ResetFires | server.js:163-174 | the reset timer applies the intended reset to the captured snapshot and changes nothing else in the room; that no captured switch stays active is `PuzzleEvaluator.ResetSwitches` and `ServerLaws.ResetTimerDisarms` |
| Server.Disconnect | server.js:421-442 | the socket's tag is dropped; it leaves its room, which is deleted exactly when it becomes empty |
| Server.ValidateRoom | server.js:445-468 | a malformed code is reported as invalid, an unknown one as missing, and a well-formed registered one always as valid, with its id, count, limit, phase, level, `createdAt` and `lastActivity` |
| ServerLaws.LeavePreservesInv | server.js:204-214 | leaving keeps every room well-formed |
| ServerLaws.EnterPreservesInv | server.js:216-261 | entering a room under a normalised six-unit code keeps every room well-formed |
| ServerLaws.JoinPreservesInv | server.js:183-262 | `joinRoom` keeps every room well-formed |
| ServerLaws.StartPreservesInv | server.js:264-278 | `startGame` keeps every room well-formed |
| ServerLaws.MovePreservesInv | server.js:280-292 | `playerMove` keeps every room well-formed |
| ServerLaws.ActivatePreservesInv | server.js:294-351 | `switchActivated` keeps every room well-formed |
| ServerLaws.DeactivatePreservesInv | server.js:353-365 | `switchDeactivated` keeps every room well-formed |
| ServerLaws.CompletePreservesInv | server.js:391-409 | `levelCompleted` keeps every room well-formed, the level staying at least 1 |
| ServerLaws.TimerPreservesInv | server.js:411-417 | the level-advance and reset timers keep every room well-formed |
| ServerLaws.DisconnectPreservesInv | server.js:421-442 | `disconnect` keeps every room well-formed, deleting rooms that become empty |
| ServerLaws.Step | server.js:180-443 | one event or timer body keeps every room valid; the reset timer runs the corrected reset of the finding |
| ServerLaws.StepFrame | server.js:180-443 | only `joinRoom` and `disconnect` change a room tag, and only `joinRoom` registers a room |
| ServerLaws.ResetTimerDisarms | server.js:131-134 | in the model's transition system, a firing reset timer leaves none of its captured switches active |
| ServerLaws.StepPreservesInv | server.js:180-443 | every handler and timer keeps every room well-formed |
| ServerLaws.RunPreservesInv | server.js:180-443 | any sequence of events keeps every room well-formed: a normalised six-unit code, 1 to 16 players, level at least 1 |
| ServerLaws.JoinFreshCode | server.js:216-221 | joining an unused code creates a waiting level-1 room with the joiner as its only player |
| ServerLaws.RefusedJoinLeavesStaleTag | server.js:204-260 | after a `roomFull` refusal the socket is tagged with a room it is not a member of |
| ServerLaws.LastLeaveResetsRoom | server.js:427-431 | when the last player disconnects the room is deleted, and the next join of its code starts a fresh waiting room at level 1 |
| ServerLaws.AloneCannotStart | server.js:90-92 | a player alone in a freshly joined room cannot start it |
| ServerLaws.TwoPlayersStart | server.js:264-278 | once a second player has joined the same code, `startGame` starts the room |
| ServerLaws.CompleteThenAdvance | server.js:391-417 | completion shows completed with the level raised; the timer then resumes play at that level and broadcasts it |
| ServerLaws.ValidateMatchesJoin | server.js:445-468 | `validateRoom` reports a room iff the id passes `joinRoom`'s code rule and the code is registered |
| ServerLaws.ValidatedRoomIsEntered | server.js:216-222 | an untagged socket joining a room `validateRoom` reported enters it unchanged in phase, level and creation time |
| ServerLaws.RejoinIsNewcomer | server.js:204-222 | re-joining one's own room of two or more players re-admits the socket as a newcomer: last in join order, slot equal to the room size |
| Levels.GenerateCooperative | public/game.js:115-150 | one switch and one door per player, capped at four; switches and doors are numbered from 1 and every switch needs the whole player count |
| Levels.GenerateSynchronized | public/game.js:152-188 | one numbered single-player switch per player with the 2000 ms window and no activation time, and the single `master_door` requiring every switch within that window |
| Levels.RandomIndex | public/game.js:234 | the drawn index is below the bound |
| Levels.Swap | public/game.js:235 | exchanging two positions keeps the elements and changes only those positions |
| Levels.ShuffleFrom | public/game.js:232-236 | the backwards swap loop permutes its input |
| Levels.GenerateRandomSequence | public/game.js:230-238 | the result has the requested length and is a permutation of `1..n` |
| Levels.RandomSequenceIsPermutation | public/game.js:230-238 | the shuffled sequence holds each of `1..n` exactly once and nothing else |
| Levels.GeneratePattern | public/game.js:190-228 | one switch and one door per player, capped at five, both numbered from 1 |
| Levels.PatternSwitches | public/game.js:195-211 | switch i is numbered i+1, needs one player and carries the i-th entry of the sequence as its order |
| Levels.PatternDoors | public/game.js:213-227 | door i is numbered i+1 and requires the first i+1 entries of the sequence |
| Levels.TemplateFor | public/game.js:85 | level 2 is synchronized, level 3 is pattern, every other level falls back to the cooperative template |
| Levels.GenerateLevel | public/game.js:83-113 | the level carries the player count and its template's puzzle type, with the switch and door counts of that type |
| Levels.NumberedSwitchesUnique | public/game.js:122-123 | numbered switch ids are pairwise distinct |
| Levels.NumberedDoorsUnique | public/game.js:139-140 | numbered door ids are pairwise distinct |
| Levels.CooperativeWellFormed | public/game.js:115-150 | cooperative puzzles have unique ids, cooperative kinds, idle switches, and closed doors requiring all switches |
| Levels.SynchronizedWellFormed | public/game.js:152-188 | synchronized puzzles have unique ids, idle switches without activation time, and a master door requiring all switches within 2000 ms |
| Levels.PatternPuzzleWellFormed | public/game.js:190-228 | a pattern puzzle built from a permutation of `1..n` is well-formed and its doors carry the switch orders |
| Levels.PatternWellFormed | public/game.js:190-228 | generated pattern puzzles are well-formed |
| Levels.GeneratedLevelWellFormed | public/game.js:83-113 | every generated level is well-formed for its puzzle type |
| Client.PuzzleSolved | public/game.js:504-513 | every door opens, and nothing else about the doors changes |
| Client.ResetSwitch | public/game.js:521-528 | a switch becomes inactive; a pattern switch also loses its activated flag; identity and type are kept |
| Client.PuzzleReset | public/game.js:515-536 | switches of the reset type are cleared and their doors closed; other switches and doors are unchanged |
| Client.PuzzleResetIdempotent | public/game.js:515-536 | resetting twice is resetting once |
| Client.ResetUndoesSolved | public/game.js:504-536 | on a generated level, a reset of its own type after `puzzleSolved` restores the doors |
| Client.LevelCompletedClient | public/game.js:1271-1281 | the client shows completed at the next level and keeps players, switches and doors |
| Client.ResetPosition | public/game.js:1292-1298 | player k goes to `(100 + 40k, 600)` with zero velocity, off the ground, identity kept |
| Client.NextLevelClient | public/game.js:1283-1302 | the client plays the generated next level, with every player reset to its spawn by index |
| Client.NextLevelSpawnOffset | public/game.js:1292-1293 | the client's spawn for slot k+1 lies 40 to the left of the server's spawn for that slot |
| Client.CountTrue | public/game.js:759-767 | the count of players at the goal equals the player count iff every player is at the goal |
| Client.GoalReached | public/game.js:767 | the goal is reached iff there are at least two players and all are at the goal |
| Client.StartEnabled | public/game.js:1158 | the start button is enabled iff at least two players wait |
| Client.StartButtonMatchesServer | public/game.js:1158 | the start button is enabled exactly when the server would start the room |

## Left out

- Socket.IO delivery, broadcasts to other members, HTTP serving and the Express app: I/O. Replies are returned instead of emitted.
- Timers: the model does not schedule them or tie them to the handler that set them. A timer body is an unconstrained event (`AdvanceTimer`, `ResetTimer`) applied to whichever room is registered under the code when it fires. This over-approximates the source, whose closures act on the captured room object (server.js:131-134, 163-174, 411-417): in the model a timer can also fire on a room deleted and recreated under the same code, which the source never touches, and the invariant is proved for those runs too.
- Room-id and timestamp bookkeeping beyond `createdAt`/`lastActivity`, and the `doors` map of `GameRoom`: the handlers never read them.
- `generateRoomCode`: it only draws random characters; the model treats every accepted code alike.
- Platforms, goal geometry, physics, collision, rendering, input and the client handlers `switchUpdate`, `gameStarted` and `playerUpdate`: rendering and floating-point simulation outside the puzzle logic.
- Switch activation with an `activationTime` that is `undefined` or `NaN`: JavaScript comparisons with `NaN` are not modelled, so activation times are integers.
- RoomCodes.Normalize: upper-casing covers ASCII letters only, not the full Unicode case mapping of `toUpperCase`; whitespace is the ASCII and common Unicode space characters.
- Server.JoinRoom, Server.ValidateRoom, Server.SwitchActivated, Server.SwitchDeactivated, Server.LevelCompleted: the model covers the payload shapes the client sends (public/game.js:380, 711-748, 770-774). Other shapes make the handler throw a `TypeError` part-way, which is not modelled: a `null` payload at `data.roomId` (server.js:191, 446), a non-string `roomId` at `toUpperCase` (server.js:196), a `null` switch payload at `switchData.type` / `switchData.id` (server.js:300, 357), and `levelCompleted` without a payload, which raises the level and sets `completed`, then throws at `data.level` (server.js:402) before arming the advance timer, leaving the room completed for good.
- GameRooms.Merge: the `playerMove` payload is restricted to the five fields the client sends (position, velocity, `onGround`); `Object.assign` would copy any field a client sends, including `id`, `number`, `name`, `color` and `isConnected`, and arbitrary payloads are not modelled.
- GameRooms.FreshPlayer: the colour is a 24-bit integer, not the `#RRGGBB` string sent to clients.
- Levels.GenerateLevel: the `default` branch of the puzzle-type switch cannot be reached, because every template has one of the three types.

## Findings

| source | as written | input that shows it | evidently intended | confidence | as-written member | corrected member |
|---|---|---|---|---|---|---|
| server.js:131-134, server.js:165-168 | the reset timers write `room.switches.set(switchData.id, …)`, but stored switch records have no `id` field, so every write goes to the key `undefined` and the failed switches stay active | switch `switch1` activated at time 0, synchronized check at time 2001: after the timer `switch1` is still active and a stray `undefined` entry exists | each captured switch is stored again under its own key with `active: false` | high (not executed) | PuzzleLaws.ResetCounterexample | PuzzleLaws.SyncResetDisarms |
