/** The server's puzzle evaluators `checkSynchronizedSwitches` and
    `checkPatternSequence`, and the switch resets their timers perform. */
module PuzzleEvaluator {
  import opened OrderedMaps
  import opened Switches
  import opened Sorting

  /** Delay of the pattern reset, in milliseconds. */
  const PatternResetDelay: int := 1000

  /** What an evaluation emits: nothing (no active switch of its type),
      `puzzleSolved`, or a `puzzleReset` scheduled after `delay` ms that will
      deactivate the captured `snapshot` of switches. */
  datatype Outcome =
    | NotEvaluated
    | Solved(puzzle: PuzzleKind)
    | ResetScheduled(puzzle: PuzzleKind, snapshot: seq<SwitchEntry>, delay: int)

  predicate DistinctKeys(es: seq<SwitchEntry>) {
    forall i, j | 0 <= i < j < |es| :: es[i].0 != es[j].0
  }

  function KeysOf(es: seq<SwitchEntry>): set<SwitchKey> {
    set i | 0 <= i < |es| :: es[i].0
  }

  predicate ActiveSync(e: SwitchEntry) {
    e.1.active && e.1.kind.Synchronized?
  }

  predicate ActivePattern(e: SwitchEntry) {
    e.1.active && e.1.kind.Pattern?
  }

  /** `r` is `es` with some entries dropped and the rest in their order. */
  predicate Subsequence(r: seq<SwitchEntry>, es: seq<SwitchEntry>)
    decreases |es|
  {
    if es == [] then r == []
    else (r != [] && r[0] == es[0] && Subsequence(r[1..], es[1..])) || Subsequence(r, es[1..])
  }

  /** `Array.prototype.filter` on map entries: keeps order and distinct keys. */
  function FilterEntries(es: seq<SwitchEntry>, p: SwitchEntry -> bool): (r: seq<SwitchEntry>)
    ensures |r| <= |es|
    ensures Subsequence(r, es)
    ensures forall e :: e in r <==> e in es && p(e)
    ensures DistinctKeys(es) ==> DistinctKeys(r)
  {
    if |es| == 0 then []
    else
      var rest := FilterEntries(es[1..], p);
      if p(es[0]) then
        assert DistinctKeys(es) ==> forall e :: e in rest ==> e.0 != es[0].0 by {
          if DistinctKeys(es) {
            forall e | e in rest ensures e.0 != es[0].0 {
              var k :| 0 <= k < |es[1..]| && es[1..][k] == e;
              assert es[k + 1] == e;
            }
          }
        }
        assert ([es[0]] + rest)[1..] == rest;
        [es[0]] + rest
      else rest
  }

  /** An entry of a well-formed map is a key with its current value. */
  lemma InEntries(m: SwitchMap, e: SwitchEntry)
    requires Valid(m)
    ensures e in Entries(m) <==> e.0 in m.entries && e.1 == m.entries[e.0]
  {
    var es := Entries(m);
    if e.0 in m.entries && e.1 == m.entries[e.0] {
      var i :| 0 <= i < |m.keys| && m.keys[i] == e.0;
      assert es[i] == e;
    }
  }

  lemma EntriesDistinctKeys(m: SwitchMap)
    requires Valid(m)
    ensures DistinctKeys(Entries(m))
  {
  }

  /** The switches a `checkSynchronizedSwitches` call looks at: the active
      synchronized ones, in map order. */
  function SyncSnapshot(m: SwitchMap): (r: seq<SwitchEntry>)
    requires Valid(m)
    ensures DistinctKeys(r)
    ensures forall e :: e in r <==> e.0 in m.entries && e.1 == m.entries[e.0] && ActiveSync(e)
  {
    EntriesDistinctKeys(m);
    forall e { InEntries(m, e); }
    FilterEntries(Entries(m), ActiveSync)
  }

  /** The switches a `checkPatternSequence` call looks at. */
  function PatternSnapshot(m: SwitchMap): (r: seq<SwitchEntry>)
    requires Valid(m)
    ensures DistinctKeys(r)
    ensures forall e :: e in r <==> e.0 in m.entries && e.1 == m.entries[e.0] && ActivePattern(e)
  {
    EntriesDistinctKeys(m);
    forall e { InEntries(m, e); }
    FilterEntries(Entries(m), ActivePattern)
  }

  predicate IsActiveSyncKey(m: SwitchMap, k: SwitchKey) {
    k in m.entries && m.entries[k].active && m.entries[k].kind.Synchronized?
  }

  predicate WithinWindow(r: SwitchRecord, now: int)
    requires r.kind.Synchronized?
  {
    now - r.kind.activationTime <= SyncTimeWindow
  }

  /** The snapshot holds exactly the active synchronized switches. */
  lemma SyncSnapshotCovers(m: SwitchMap, now: int)
    requires Valid(m)
    ensures |SyncSnapshot(m)| == 0 <==> forall k :: !IsActiveSyncKey(m, k)
    ensures (forall i :: 0 <= i < |SyncSnapshot(m)| ==> WithinWindow(SyncSnapshot(m)[i].1, now)) <==>
            (forall k :: IsActiveSyncKey(m, k) ==> WithinWindow(m.entries[k], now))
  {
    var snap := SyncSnapshot(m);
    assert forall k :: IsActiveSyncKey(m, k) ==> (k, m.entries[k]) in snap;
    assert forall i :: 0 <= i < |snap| ==> snap[i] in snap;
    if |snap| > 0 {
      assert snap[0] in snap;
      assert IsActiveSyncKey(m, snap[0].0);
    }
  }

  /** `checkSynchronizedSwitches(room)` at time `now`: solved exactly when
      some synchronized switch is active and every active one was
      activated within the window; inactive switches are never looked at. */
  function CheckSynchronized(m: SwitchMap, now: int): (o: Outcome)
    requires Valid(m)
    ensures o.NotEvaluated? <==> forall k :: !IsActiveSyncKey(m, k)
    ensures o.Solved? <==>
      && (exists k :: IsActiveSyncKey(m, k))
      && (forall k :: IsActiveSyncKey(m, k) ==> WithinWindow(m.entries[k], now))
    ensures o.Solved? ==> o.puzzle == SynchronizedPuzzle
    ensures o.ResetScheduled? ==>
      && o.puzzle == SynchronizedPuzzle && o.delay == SyncTimeWindow
      && o.snapshot == SyncSnapshot(m)
  {
    var snap := SyncSnapshot(m);
    SyncSnapshotCovers(m, now);
    if |snap| == 0 then NotEvaluated
    else if forall i :: 0 <= i < |snap| ==> WithinWindow(snap[i].1, now) then
      Solved(SynchronizedPuzzle)
    else
      ResetScheduled(SynchronizedPuzzle, snap, SyncTimeWindow)
  }

  /** The sequence orders of a snapshot, in map order. */
  function Orders(es: seq<SwitchEntry>): (r: seq<int>)
    requires forall i :: 0 <= i < |es| ==> es[i].1.kind.Pattern?
    ensures |r| == |es|
    ensures forall i :: 0 <= i < |es| ==> r[i] == es[i].1.kind.sequenceOrder
  {
    seq(|es|, i requires 0 <= i < |es| => es[i].1.kind.sequenceOrder)
  }

  /** The orders of the active pattern switches. */
  function ActiveOrders(m: SwitchMap): seq<int>
    requires Valid(m)
  {
    var snap := PatternSnapshot(m);
    assert forall i :: 0 <= i < |snap| ==> snap[i] in snap;
    Orders(snap)
  }

  /** `checkPatternSequence(room)`: solved exactly when some pattern switch
      is active and the orders of the active ones are a permutation of
      `1..k`. Only the set of pressed switches matters, not the order in
      which they were pressed. */
  function CheckPattern(m: SwitchMap): (o: Outcome)
    requires Valid(m)
    ensures o.NotEvaluated? <==> |ActiveOrders(m)| == 0
    ensures o.Solved? <==>
      |ActiveOrders(m)| > 0 && multiset(ActiveOrders(m)) == multiset(OneTo(|ActiveOrders(m)|))
    ensures o.Solved? ==> o.puzzle == PatternPuzzle
    ensures o.ResetScheduled? ==>
      && o.puzzle == PatternPuzzle && o.delay == PatternResetDelay
      && o.snapshot == PatternSnapshot(m)
  {
    var snap := PatternSnapshot(m);
    if |snap| == 0 then NotEvaluated
    else
      var orders := ActiveOrders(m);
      SortedIsOneToIff(orders);
      if Sort(orders) == OneTo(|snap|) then Solved(PatternPuzzle)
      else ResetScheduled(PatternPuzzle, snap, PatternResetDelay)
  }

  /** The id a stored record reports. Stored records are built without an
      `id` field, so it is always `undefined`. */
  function RecordId(r: SwitchRecord): SwitchKey {
    Undefined
  }

  /** The timer body of both evaluators AS WRITTEN:
      `room.switches.set(switchData.id, {...switchData, active: false})`
      for each captured record. Every write lands on the key `undefined`,
      so the captured switches themselves stay as they were. */
  function ResetAsWritten(m: SwitchMap, snapshot: seq<SwitchEntry>): (r: SwitchMap)
    requires Valid(m)
    ensures Valid(r)
    ensures forall k :: k != Undefined ==> (k in r.entries <==> k in m.entries)
    ensures forall k :: k != Undefined && k in m.entries ==> r.entries[k] == m.entries[k]
    ensures |snapshot| > 0 ==>
      Undefined in r.entries && r.entries[Undefined] == snapshot[|snapshot| - 1].1.(active := false)
    ensures |snapshot| == 0 ==> r == m
    decreases |snapshot|
  {
    if |snapshot| == 0 then m
    else ResetAsWritten(Set(m, RecordId(snapshot[0].1), snapshot[0].1.(active := false)), snapshot[1..])
  }

  /** The keys of a non-empty snapshot are its head's key and its tail's
      keys; with distinct keys the head's key is not among the tail's. */
  lemma KeysOfCons(es: seq<SwitchEntry>)
    requires |es| > 0
    ensures KeysOf(es) == {es[0].0} + KeysOf(es[1..])
    ensures DistinctKeys(es) ==> es[0].0 !in KeysOf(es[1..]) && DistinctKeys(es[1..])
  {
    var tail := es[1..];
    assert forall i :: 0 <= i < |tail| ==> tail[i] == es[i + 1];
    forall k | k in KeysOf(es) ensures k in {es[0].0} + KeysOf(tail) {
      var i :| 0 <= i < |es| && es[i].0 == k;
      if i > 0 { assert tail[i - 1].0 == k; }
    }
  }

  /** The timer body as intended: each captured switch is stored again
      under its own key with `active: false`, keeping its other fields;
      switches outside the snapshot are untouched. */
  function ResetSwitches(m: SwitchMap, snapshot: seq<SwitchEntry>): (r: SwitchMap)
    requires Valid(m)
    ensures Valid(r)
    ensures forall k :: k !in KeysOf(snapshot) ==> (k in r.entries <==> k in m.entries)
    ensures forall k :: k !in KeysOf(snapshot) && k in m.entries ==> r.entries[k] == m.entries[k]
    ensures forall k :: k in KeysOf(snapshot) ==> k in r.entries && !r.entries[k].active
    ensures DistinctKeys(snapshot) ==>
      forall i :: 0 <= i < |snapshot| ==> r.entries[snapshot[i].0] == snapshot[i].1.(active := false)
    decreases |snapshot|
  {
    if |snapshot| == 0 then m
    else
      var e := snapshot[0];
      var r := ResetSwitches(Set(m, e.0, e.1.(active := false)), snapshot[1..]);
      KeysOfCons(snapshot);
      assert forall i :: 1 <= i < |snapshot| ==> snapshot[i] == snapshot[1..][i - 1];
      r
  }
}
