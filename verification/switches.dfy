/** The switch records the server keeps per room, keyed by the id the
    client sent with `switchActivated` / `switchDeactivated`. */
module Switches {
  import opened Optional
  import opened OrderedMaps

  /** Window of the synchronized puzzle, in milliseconds; both the server
      evaluator and the level generator use it. */
  const SyncTimeWindow: int := 2000

  /** The three puzzle types a switch or door belongs to. */
  datatype PuzzleKind = CooperativePuzzle | SynchronizedPuzzle | PatternPuzzle

  /** A key of the switch map. `Undefined` is JavaScript's `undefined`,
      which a `Map` accepts as a key like any other. */
  datatype SwitchKey = Undefined | Named(name: string)

  /** The type tag of a stored record with its type-specific payload;
      `Untyped` is a record with no `type` field (the default branch of
      `switchActivated`, and every `switchDeactivated` record). */
  datatype SwitchKind =
    | Cooperative(playersOnSwitch: int)
    | Synchronized(activationTime: int)
    | Pattern(sequenceOrder: int)
    | Untyped

  /** A stored switch record. It carries no `id` field: the id is only the
      map key. */
  datatype SwitchRecord = SwitchRecord(active: bool, activatedBy: Option<string>, kind: SwitchKind)

  type SwitchMap = OMap<SwitchKey, SwitchRecord>
  type SwitchEntry = (SwitchKey, SwitchRecord)

  /** What `switchDeactivated` stores: exactly `{active: false}`. */
  const Deactivated: SwitchRecord := SwitchRecord(false, None, Untyped)

  /** What `switchActivated` stores for a switch pressed by `socketId`. */
  function ActivatedBy(socketId: string, kind: SwitchKind): (r: SwitchRecord)
    ensures r.active && r.activatedBy == Some(socketId) && r.kind == kind
  {
    SwitchRecord(true, Some(socketId), kind)
  }
}
