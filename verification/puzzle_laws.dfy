/** Laws of the server's puzzle evaluators and of their reset timers. */
module PuzzleLaws {
  import opened Optional
  import opened OrderedMaps
  import opened Switches
  import opened Sorting
  import opened PuzzleEvaluator

  /** The pattern verdict depends only on which orders are active, not on
      the order in which their switches were pressed (nor on map order). */
  lemma PatternOrderInsensitive(m1: SwitchMap, m2: SwitchMap)
    requires Valid(m1) && Valid(m2)
    requires multiset(ActiveOrders(m1)) == multiset(ActiveOrders(m2))
    ensures CheckPattern(m1).Solved? <==> CheckPattern(m2).Solved?
    ensures CheckPattern(m1).NotEvaluated? <==> CheckPattern(m2).NotEvaluated?
  {
    assert |multiset(ActiveOrders(m1))| == |ActiveOrders(m1)|;
    assert |multiset(ActiveOrders(m2))| == |ActiveOrders(m2)|;
  }

  /** The first two entries of a list are members of it. */
  lemma FrontMembers<T>(s: seq<T>)
    ensures |s| >= 1 ==> s[0] in s
    ensures |s| >= 2 ==> s[1] in s
  {
  }

  /** A duplicate-free list of entries that all equal `e`, and contains it,
      is `[e]`. */
  lemma OnlyEntry(es: seq<SwitchEntry>, e: SwitchEntry)
    requires DistinctKeys(es) && e in es
    requires forall x :: x in es ==> x == e
    ensures es == [e]
  {
    FrontMembers(es);
  }

  /** No pattern switch is active in `m`. */
  predicate NoActivePattern(m: SwitchMap) {
    forall k :: k in m.entries ==> !ActivePattern((k, m.entries[k]))
  }

  /** With no pattern switch active, the press is all a pattern
      evaluation sees. */
  lemma LonePatternSnapshot(m: SwitchMap, k: SwitchKey, rec: SwitchRecord)
    requires Valid(m) && NoActivePattern(m) && rec.active && rec.kind.Pattern?
    ensures PatternSnapshot(Set(m, k, rec)) == [(k, rec)]
  {
    var snap := PatternSnapshot(Set(m, k, rec));
    assert (k, rec) in snap;
    forall x | x in snap ensures x == (k, rec) {}
    OnlyEntry(snap, (k, rec));
  }

  /** With no pattern switch active, the first press solves the pattern
      puzzle exactly when it carries order 1; any other first press
      schedules a reset. */
  lemma LonePatternPress(m: SwitchMap, k: SwitchKey, socketId: string, order: int)
    requires Valid(m) && NoActivePattern(m)
    ensures var o := CheckPattern(Set(m, k, ActivatedBy(socketId, Pattern(order))));
      && (o.Solved? <==> order == 1)
      && (order != 1 ==> o.ResetScheduled?)
  {
    var m' := Set(m, k, ActivatedBy(socketId, Pattern(order)));
    LonePatternSnapshot(m, k, ActivatedBy(socketId, Pattern(order)));
    assert ActiveOrders(m') == [order];
    assert OneTo(1) == [1];
    assert multiset([order]) == multiset([1]) <==> order == 1 by {
      assert multiset([order])[1] == if order == 1 then 1 else 0;
    }
  }

  /** No synchronized switch is active in `m`. */
  predicate NoActiveSync(m: SwitchMap) {
    forall k | k in m.entries :: !IsActiveSyncKey(m, k)
  }

  /** With no synchronized switch active, a single press solves the
      synchronized puzzle as soon as it is evaluated within the window:
      nobody else has to be on a switch. */
  lemma LoneSyncPress(m: SwitchMap, k: SwitchKey, socketId: string, activationTime: int, now: int)
    requires Valid(m) && NoActiveSync(m)
    ensures var o := CheckSynchronized(Set(m, k, ActivatedBy(socketId, Synchronized(activationTime))), now);
      && (o.Solved? <==> now - activationTime <= SyncTimeWindow)
      && (now - activationTime > SyncTimeWindow ==> o.ResetScheduled?)
  {
    var m' := Set(m, k, ActivatedBy(socketId, Synchronized(activationTime)));
    assert IsActiveSyncKey(m', k);
    assert forall k' :: IsActiveSyncKey(m', k') ==> k' == k by {
      forall k' | k' != k ensures !IsActiveSyncKey(m', k') {
        assert !IsActiveSyncKey(m, k');
      }
    }
  }

  /** The intended reset of a failed synchronized attempt disarms the
      puzzle: afterwards no synchronized switch is active. (The snapshot a
      failed `CheckSynchronized` schedules is `SyncSnapshot(m)`.) */
  lemma SyncResetDisarms(m: SwitchMap)
    requires Valid(m)
    ensures NoActiveSync(ResetSwitches(m, SyncSnapshot(m)))
  {
    var snap := SyncSnapshot(m);
    forall k | IsActiveSyncKey(m, k) ensures k in KeysOf(snap) {
      assert (k, m.entries[k]) in snap;
    }
  }

  /** Once disarmed, a later synchronized evaluation finds nothing to
      judge. */
  lemma DisarmedSyncNotEvaluated(m: SwitchMap, later: int)
    requires Valid(m) && NoActiveSync(m)
    ensures CheckSynchronized(m, later).NotEvaluated?
  {
  }

  /** The intended reset of a failed pattern attempt disarms the puzzle:
      afterwards no pattern switch is active. (The snapshot a failed
      `CheckPattern` schedules is `PatternSnapshot(m)`.) */
  lemma PatternResetDisarms(m: SwitchMap)
    requires Valid(m)
    ensures NoActivePattern(ResetSwitches(m, PatternSnapshot(m)))
  {
    var snap := PatternSnapshot(m);
    forall k | k in m.entries && ActivePattern((k, m.entries[k])) ensures k in KeysOf(snap) {
      assert (k, m.entries[k]) in snap;
    }
  }

  /** Once disarmed, a later pattern evaluation finds nothing to judge. */
  lemma DisarmedPatternNotEvaluated(m: SwitchMap)
    requires Valid(m) && NoActivePattern(m)
    ensures CheckPattern(m).NotEvaluated?
  {
    FrontMembers(PatternSnapshot(m));
  }

  /** The reset AS WRITTEN leaves every switch that was active and
      synchronized at evaluation time active, so the failed attempt is
      never cleared and the next evaluation sees it again. */
  lemma SyncResetAsWrittenKeepsArmed(m: SwitchMap, now: int, later: int)
    requires Valid(m) && !IsActiveSyncKey(m, Undefined)
    requires CheckSynchronized(m, now).ResetScheduled?
    ensures var r := ResetAsWritten(m, CheckSynchronized(m, now).snapshot);
      && (forall k :: IsActiveSyncKey(m, k) ==> IsActiveSyncKey(r, k))
      && !CheckSynchronized(r, later).NotEvaluated?
  {
    var r := ResetAsWritten(m, SyncSnapshot(m));
    assert forall k :: IsActiveSyncKey(m, k) ==> k != Undefined && r.entries[k] == m.entries[k];
    var k :| IsActiveSyncKey(m, k);
    assert IsActiveSyncKey(r, k);
  }

  /** The pattern reset AS WRITTEN leaves the pressed pattern switches
      active as well. */
  lemma PatternResetAsWrittenKeepsArmed(m: SwitchMap)
    requires Valid(m) && !(Undefined in m.entries && ActivePattern((Undefined, m.entries[Undefined])))
    requires CheckPattern(m).ResetScheduled?
    ensures var r := ResetAsWritten(m, CheckPattern(m).snapshot);
      forall k :: k in m.entries && ActivePattern((k, m.entries[k])) ==>
        k in r.entries && ActivePattern((k, r.entries[k]))
  {
  }

  /** A concrete run: switch "switch1" pressed at time 0 and evaluated at
      time 2001 fails the window. The reset as written leaves it active and
      writes a stray entry under `undefined`; the intended reset clears it. */
  lemma ResetCounterexample()
    ensures var m := Set(Empty(), Named("switch1"), ActivatedBy("p1", Synchronized(0)));
      var o := CheckSynchronized(m, 2001);
      && o.ResetScheduled?
      && ResetAsWritten(m, o.snapshot).entries[Named("switch1")].active
      && Undefined in ResetAsWritten(m, o.snapshot).entries
      && !ResetSwitches(m, o.snapshot).entries[Named("switch1")].active
  {
    var m: SwitchMap := Set(Empty(), Named("switch1"), ActivatedBy("p1", Synchronized(0)));
    assert IsActiveSyncKey(m, Named("switch1"));
    assert !WithinWindow(m.entries[Named("switch1")], 2001);
    var o := CheckSynchronized(m, 2001);
    assert (Named("switch1"), m.entries[Named("switch1")]) in o.snapshot;
    assert Named("switch1") in KeysOf(o.snapshot);
  }
}
