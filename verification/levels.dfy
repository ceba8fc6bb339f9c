/** Level generation of the client: the three templates and their puzzle
    generators (geometry and colours are not modelled), and the
    Fisher-Yates shuffle behind the pattern puzzle. `Math.random` is a
    stream `random` of draws in [0, 1): `random(k)` is the k-th draw. */
module Levels {
  import opened Optional
  import opened Decimal
  import opened Switches
  import opened Sorting

  const CooperativeSwitchCap: nat := 4
  const PatternSwitchCap: nat := 5

  datatype PuzzleLayout = CooperativeSwitches | SynchronizedTiming | PatternRecognition

  datatype Template = Template(name: string, description: string, puzzleType: PuzzleLayout)

  /** `levelTemplates`. */
  const LevelTemplates: map<int, Template> := map[
    1 := Template("Cooperative Switches", "All players must work together to activate switches", CooperativeSwitches),
    2 := Template("Synchronized Timing", "Players must activate switches in perfect synchronization", SynchronizedTiming),
    3 := Template("Pattern Recognition", "Players must follow a specific sequence to unlock doors", PatternRecognition)]

  /** The type-specific fields of a generated switch. */
  datatype SwitchDetail =
    | CooperativeSwitch
    | SynchronizedSwitch(timeWindow: int, activationTime: Option<int>)
    | PatternSwitch(sequenceOrder: int, activated: bool)

  datatype SwitchSpec = SwitchSpec(id: string, active: bool, requiredPlayers: int, detail: SwitchDetail)

  /** The type-specific fields of a generated door. */
  datatype DoorDetail =
    | CooperativeDoor(requiredSwitches: seq<string>)
    | SynchronizedDoor(requiredSwitches: seq<string>, timeWindow: int)
    | PatternDoor(requiredSequence: seq<int>)

  datatype DoorSpec = DoorSpec(id: string, open: bool, detail: DoorDetail)

  /** The `type` field of a switch. */
  function SwitchType(s: SwitchSpec): PuzzleKind {
    match s.detail
    case CooperativeSwitch => CooperativePuzzle
    case SynchronizedSwitch(_, _) => SynchronizedPuzzle
    case PatternSwitch(_, _) => PatternPuzzle
  }

  /** The `type` field of a door. */
  function DoorType(d: DoorSpec): PuzzleKind {
    match d.detail
    case CooperativeDoor(_) => CooperativePuzzle
    case SynchronizedDoor(_, _) => SynchronizedPuzzle
    case PatternDoor(_) => PatternPuzzle
  }

  datatype Puzzle = Puzzle(switches: seq<SwitchSpec>, doors: seq<DoorSpec>)

  datatype Level = Level(name: string, description: string, puzzleType: PuzzleLayout,
                         playerCount: nat, switches: seq<SwitchSpec>, doors: seq<DoorSpec>)

  function SwitchId(n: nat): string {
    "switch" + NatToString(n)
  }

  function DoorId(n: nat): string {
    "door" + NatToString(n)
  }

  /** `switches.map(s => s.id)`. */
  function IdsOf(switches: seq<SwitchSpec>): (ids: seq<string>)
    ensures |ids| == |switches|
    ensures forall i :: 0 <= i < |ids| ==> ids[i] == switches[i].id
  {
    seq(|switches|, i requires 0 <= i < |switches| => switches[i].id)
  }

  function Min(a: int, b: int): int {
    if a <= b then a else b
  }

  /** `generateCooperativeSwitches`: every switch needs all players on it. */
  function GenerateCooperative(playerCount: nat): (p: Puzzle)
    ensures |p.switches| == |p.doors| == Min(playerCount, CooperativeSwitchCap)
    ensures NumberedSwitches(p.switches) && NumberedDoors(p.doors)
    ensures forall i :: 0 <= i < |p.switches| ==> p.switches[i].requiredPlayers == playerCount
  {
    var n := Min(playerCount, CooperativeSwitchCap);
    var switches := seq(n, i requires 0 <= i < n => SwitchSpec(SwitchId(i + 1), false, playerCount, CooperativeSwitch));
    var doors := seq(n, i requires 0 <= i < n => DoorSpec(DoorId(i + 1), false, CooperativeDoor(IdsOf(switches))));
    Puzzle(switches, doors)
  }

  /** `generateSynchronizedTiming`: one single-player switch per player,
      all behind the one master door. */
  function GenerateSynchronized(playerCount: nat): (p: Puzzle)
    ensures |p.switches| == playerCount && |p.doors| == 1
    ensures NumberedSwitches(p.switches)
    ensures forall i :: 0 <= i < |p.switches| ==>
      p.switches[i].requiredPlayers == 1 && p.switches[i].detail == SynchronizedSwitch(SyncTimeWindow, None)
    ensures p.doors[0].id == "master_door"
    ensures p.doors[0].detail == SynchronizedDoor(IdsOf(p.switches), SyncTimeWindow)
  {
    var switches := seq(playerCount, i requires 0 <= i < playerCount =>
      SwitchSpec(SwitchId(i + 1), false, 1, SynchronizedSwitch(SyncTimeWindow, None)));
    Puzzle(switches, [DoorSpec("master_door", false, SynchronizedDoor(IdsOf(switches), SyncTimeWindow))])
  }

  ghost predicate RandomInRange(random: nat -> real) {
    forall k: nat :: 0.0 <= random(k) < 1.0
  }

  /** `Math.floor(r * bound)` for a draw `r` in [0, 1). */
  function RandomIndex(r: real, bound: nat): (j: nat)
    requires 0.0 <= r < 1.0 && bound > 0
    ensures j < bound
  {
    assert r * bound as real < bound as real by {
      assert (1.0 - r) * bound as real > 0.0;
    }
    (r * bound as real).Floor
  }

  function Swap(s: seq<int>, i: nat, j: nat): (r: seq<int>)
    requires i < |s| && j < |s|
    ensures |r| == |s| && multiset(r) == multiset(s)
    ensures r[i] == s[j] && r[j] == s[i]
    ensures forall k :: 0 <= k < |s| && k != i && k != j ==> r[k] == s[k]
  {
    s[i := s[j]][j := s[i]]
  }

  /** The loop of `generateRandomSequence` from index `i` down to 1, the
      k-th step using draw `draw + k`. */
  function ShuffleFrom(s: seq<int>, i: int, random: nat -> real, draw: nat): (r: seq<int>)
    requires -1 <= i < |s|
    requires RandomInRange(random)
    ensures |r| == |s|
    ensures multiset(r) == multiset(s)
    decreases i
  {
    if i <= 0 then s
    else
      var j := RandomIndex(random(draw), i + 1);
      ShuffleFrom(Swap(s, i, j), i - 1, random, draw + 1)
  }

  /** `generateRandomSequence(length)`: a permutation of `1..length`,
      whatever the draws. */
  function GenerateRandomSequence(length: nat, random: nat -> real): (r: seq<int>)
    requires RandomInRange(random)
    ensures |r| == length
    ensures multiset(r) == multiset(OneTo(length))
  {
    ShuffleFrom(OneTo(length), length - 1, random, 0)
  }

  /** The switches of a pattern puzzle for a shuffled `sequence`. */
  function PatternSwitches(sequence: seq<int>): (switches: seq<SwitchSpec>)
    ensures |switches| == |sequence|
    ensures NumberedSwitches(switches)
    ensures forall i :: 0 <= i < |switches| ==>
      switches[i].requiredPlayers == 1 && switches[i].detail == PatternSwitch(sequence[i], false)
  {
    seq(|sequence|, i requires 0 <= i < |sequence| =>
      SwitchSpec(SwitchId(i + 1), false, 1, PatternSwitch(sequence[i], false)))
  }

  /** The doors of a pattern puzzle for a shuffled `sequence`. */
  function PatternDoors(sequence: seq<int>): (doors: seq<DoorSpec>)
    ensures |doors| == |sequence|
    ensures NumberedDoors(doors)
    ensures forall i :: 0 <= i < |doors| ==> doors[i].detail == PatternDoor(sequence[..i + 1])
  {
    seq(|sequence|, i requires 0 <= i < |sequence| =>
      DoorSpec(DoorId(i + 1), false, PatternDoor(sequence[..i + 1])))
  }

  /** `generatePatternRecognition`: single-player switches numbered in a
      shuffled order. */
  function GeneratePattern(playerCount: nat, random: nat -> real): (p: Puzzle)
    requires RandomInRange(random)
    ensures |p.switches| == |p.doors| == Min(playerCount, PatternSwitchCap)
    ensures NumberedSwitches(p.switches) && NumberedDoors(p.doors)
  {
    var sequence := GenerateRandomSequence(Min(playerCount, PatternSwitchCap), random);
    Puzzle(PatternSwitches(sequence), PatternDoors(sequence))
  }

  /** The template `generateLevel` uses: the one for `levelNumber`, or
      template 1 when there is none. */
  function TemplateFor(levelNumber: int): (t: Template)
    ensures t.puzzleType == if levelNumber == 2 then SynchronizedTiming
                            else if levelNumber == 3 then PatternRecognition
                            else CooperativeSwitches
  {
    if levelNumber in LevelTemplates then LevelTemplates[levelNumber] else LevelTemplates[1]
  }

  /** `generateLevel(levelNumber, playerCount)`. */
  function GenerateLevel(levelNumber: int, playerCount: nat, random: nat -> real): (l: Level)
    requires RandomInRange(random)
    ensures l.playerCount == playerCount
    ensures l.puzzleType == TemplateFor(levelNumber).puzzleType
    // one switch per player, capped at four (cooperative) or five (pattern)
    ensures |l.switches| == match l.puzzleType
      case CooperativeSwitches => Min(playerCount, CooperativeSwitchCap)
      case SynchronizedTiming => playerCount
      case PatternRecognition => Min(playerCount, PatternSwitchCap)
    // a synchronized level has the single master door
    ensures |l.doors| == if l.puzzleType == SynchronizedTiming then 1 else |l.switches|
  {
    var t := TemplateFor(levelNumber);
    var p :=
      match t.puzzleType
      case CooperativeSwitches => GenerateCooperative(playerCount)
      case SynchronizedTiming => GenerateSynchronized(playerCount)
      case PatternRecognition => GeneratePattern(playerCount, random);
    Level(t.name, t.description, t.puzzleType, playerCount, p.switches, p.doors)
  }

  /** The puzzle kind of each layout. */
  function KindOf(layout: PuzzleLayout): PuzzleKind {
    match layout
    case CooperativeSwitches => CooperativePuzzle
    case SynchronizedTiming => SynchronizedPuzzle
    case PatternRecognition => PatternPuzzle
  }

  function OrderOf(s: SwitchSpec): int {
    if s.detail.PatternSwitch? then s.detail.sequenceOrder else 0
  }

  /** The pattern the switches of a level spell out, in switch order. */
  function PatternOrders(switches: seq<SwitchSpec>): (orders: seq<int>)
    ensures |orders| == |switches|
    ensures forall i :: 0 <= i < |switches| ==> orders[i] == OrderOf(switches[i])
  {
    seq(|switches|, i requires 0 <= i < |switches| => OrderOf(switches[i]))
  }

  predicate UniqueIds(p: Puzzle) {
    && (forall i, j :: 0 <= i < j < |p.switches| ==> p.switches[i].id != p.switches[j].id)
    && (forall i, j :: 0 <= i < j < |p.doors| ==> p.doors[i].id != p.doors[j].id)
  }

  predicate KindsMatch(layout: PuzzleLayout, p: Puzzle) {
    && (forall i :: 0 <= i < |p.switches| ==> SwitchType(p.switches[i]) == KindOf(layout))
    && (forall i :: 0 <= i < |p.doors| ==> DoorType(p.doors[i]) == KindOf(layout))
  }

  predicate InitiallyIdle(p: Puzzle) {
    && (forall i :: 0 <= i < |p.switches| ==> !p.switches[i].active)
    && (forall i :: 0 <= i < |p.doors| ==> !p.doors[i].open)
  }

  /** Cooperative and synchronized doors require every switch of the level. */
  predicate DoorsRequireAll(p: Puzzle) {
    forall i :: 0 <= i < |p.doors| && !p.doors[i].detail.PatternDoor? ==>
      p.doors[i].detail.requiredSwitches == IdsOf(p.switches)
  }

  /** The switch orders are a permutation of 1..n, and door i requires the
      first i+1 of them. */
  predicate PatternConsistent(p: Puzzle) {
    var orders := PatternOrders(p.switches);
    && multiset(orders) == multiset(OneTo(|orders|))
    && |p.doors| == |orders|
    && forall i :: 0 <= i < |p.doors| ==>
         p.doors[i].detail.PatternDoor? && p.doors[i].detail.requiredSequence == orders[..i + 1]
  }

  /** What the client relies on in a generated puzzle of a layout. */
  predicate PuzzleWellFormed(layout: PuzzleLayout, p: Puzzle) {
    && UniqueIds(p)
    && KindsMatch(layout, p)
    && InitiallyIdle(p)
    && DoorsRequireAll(p)
    && (layout == PatternRecognition ==> PatternConsistent(p))
  }

  predicate WellFormed(l: Level) {
    PuzzleWellFormed(l.puzzleType, Puzzle(l.switches, l.doors))
  }

  /** Each of 1..n occurs exactly once in `OneTo(n)`. */
  lemma {:induction false} OneToCount(n: nat, v: int)
    ensures multiset(OneTo(n))[v] == if 1 <= v <= n then 1 else 0
  {
    if n > 0 {
      assert OneTo(n) == OneTo(n - 1) + [n];
      OneToCount(n - 1, v);
    }
  }

  /** A sequence in which no value occurs twice has no repeated entry. */
  lemma CountAtMostOneDistinct(s: seq<int>)
    requires forall v :: multiset(s)[v] <= 1
    ensures forall i, j :: 0 <= i < j < |s| ==> s[i] != s[j]
  {
    forall i, j | 0 <= i < j < |s|
      ensures s[i] != s[j]
    {
      assert s == s[..i] + [s[i]] + s[i + 1..j] + [s[j]] + s[j + 1..];
      assert multiset(s)[s[i]] >= 1 + multiset{s[j]}[s[i]];
    }
  }

  /** The shuffled sequence holds every number from 1 to `length` exactly
      once, and nothing else. */
  lemma RandomSequenceIsPermutation(length: nat, random: nat -> real)
    requires RandomInRange(random)
    ensures forall v :: v in GenerateRandomSequence(length, random) <==> 1 <= v <= length
    ensures forall i, j :: 0 <= i < j < length ==>
      GenerateRandomSequence(length, random)[i] != GenerateRandomSequence(length, random)[j]
  {
    var r := GenerateRandomSequence(length, random);
    forall v
      ensures v in r <==> 1 <= v <= length
      ensures multiset(r)[v] <= 1
    {
      OneToCount(length, v);
      assert v in r <==> v in multiset(r);
    }
    CountAtMostOneDistinct(r);
  }

  /** Switch i carries the id `switch<i+1>`. */
  predicate NumberedSwitches(switches: seq<SwitchSpec>) {
    forall i :: 0 <= i < |switches| ==> switches[i].id == SwitchId(i + 1)
  }

  /** Door i carries the id `door<i+1>`. */
  predicate NumberedDoors(doors: seq<DoorSpec>) {
    forall i :: 0 <= i < |doors| ==> doors[i].id == DoorId(i + 1)
  }

  lemma NumberedSwitchesUnique(switches: seq<SwitchSpec>)
    requires NumberedSwitches(switches)
    ensures forall i, j :: 0 <= i < j < |switches| ==> switches[i].id != switches[j].id
  {
    forall i, j | 0 <= i < j < |switches|
      ensures switches[i].id != switches[j].id
    {
      PrefixedInjective("switch", i + 1, j + 1);
    }
  }

  lemma NumberedDoorsUnique(doors: seq<DoorSpec>)
    requires NumberedDoors(doors)
    ensures forall i, j :: 0 <= i < j < |doors| ==> doors[i].id != doors[j].id
  {
    forall i, j | 0 <= i < j < |doors|
      ensures doors[i].id != doors[j].id
    {
      PrefixedInjective("door", i + 1, j + 1);
    }
  }

  lemma CooperativeWellFormed(playerCount: nat)
    ensures PuzzleWellFormed(CooperativeSwitches, GenerateCooperative(playerCount))
  {
    var p := GenerateCooperative(playerCount);
    NumberedSwitchesUnique(p.switches);
    NumberedDoorsUnique(p.doors);
  }

  lemma SynchronizedWellFormed(playerCount: nat)
    ensures PuzzleWellFormed(SynchronizedTiming, GenerateSynchronized(playerCount))
  {
    NumberedSwitchesUnique(GenerateSynchronized(playerCount).switches);
  }

  /** The pattern layout is well formed for any permutation of 1..n. */
  lemma PatternPuzzleWellFormed(sequence: seq<int>)
    requires multiset(sequence) == multiset(OneTo(|sequence|))
    ensures PuzzleWellFormed(PatternRecognition, Puzzle(PatternSwitches(sequence), PatternDoors(sequence)))
  {
    NumberedSwitchesUnique(PatternSwitches(sequence));
    NumberedDoorsUnique(PatternDoors(sequence));
    assert PatternOrders(PatternSwitches(sequence)) == sequence;
  }

  lemma PatternWellFormed(playerCount: nat, random: nat -> real)
    requires RandomInRange(random)
    ensures PuzzleWellFormed(PatternRecognition, GeneratePattern(playerCount, random))
  {
    PatternPuzzleWellFormed(GenerateRandomSequence(Min(playerCount, PatternSwitchCap), random));
  }

  /** Every level `generateLevel` produces is well formed. */
  lemma GeneratedLevelWellFormed(levelNumber: int, playerCount: nat, random: nat -> real)
    requires RandomInRange(random)
    ensures WellFormed(GenerateLevel(levelNumber, playerCount, random))
  {
    match TemplateFor(levelNumber).puzzleType
    case CooperativeSwitches => CooperativeWellFormed(playerCount);
    case SynchronizedTiming => SynchronizedWellFormed(playerCount);
    case PatternRecognition => PatternWellFormed(playerCount, random);
  }
}
