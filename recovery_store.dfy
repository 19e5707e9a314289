/** The store behind the recovery service: the three stored collections and
    the id source as fields, one method per exported operation. Every public
    operation first runs the maintenance sweep with the same clock reading,
    then does its own work; `writes` records every storage write in order. */
module RecoveryStore {
  import opened Util
  import opened Calendar
  import opened Seqs
  import opened Records
  import opened Recovery

  class Store {
    var obligations: seq<Obligation>
    var events: seq<SessionEvent>
    var ledger: seq<LedgerEntry>
    /** How many ids the id source has handed out. */
    var serial: nat
    /** Every write to storage, oldest first. */
    var writes: seq<StorageKey>
    /** The device's time zone name. */
    const timezone: string

    /** A store over what the keys hold when the app starts; `zone` is what the
        platform reports as the time zone, empty when it reports none. */
    constructor(stored: Stored, zone: string)
      ensures State() == stored && writes == []
      ensures timezone == if zone == "" then "UTC" else zone
    {
      obligations := stored.obligations;
      events := stored.events;
      ledger := stored.ledger;
      serial := stored.serial;
      writes := [];
      timezone := if zone == "" then "UTC" else zone;
    }

    function State(): Stored
      reads this
    {
      Stored(obligations, events, ledger, serial)
    }

    /** `generateId()`. */
    method NextId() returns (id: string)
      modifies this
      ensures id == IdOf(old(serial)) && serial == old(serial) + 1
      ensures obligations == old(obligations) && events == old(events) && ledger == old(ledger)
      ensures writes == old(writes)
    {
      id := IdOf(serial);
      serial := serial + 1;
    }

    /** `runRecoveryMaintenance(now)`. */
    method RunMaintenance(now: Instant)
      modifies this
      ensures State() == Sweep(old(State()), now)
      ensures writes == old(writes) + SweepWrites(old(State()), now)
    {
      var week := WeekStartKey(now);
      ghost var s0 := State();
      ghost var s1 := Sweep(s0, now);
      var next, nextLedger, hasObligationChanges, hasLedgerChanges := FinalizeObligations(obligations, ledger, serial, now);
      var resetLedger, anyReset := ResetStaleEntries(nextLedger, now, week);
      hasLedgerChanges := hasLedgerChanges || anyReset;
      assert hasLedgerChanges <==> LedgerChanged(s0, now);
      var newSerial := serial + |nextLedger| - |ledger|;
      var newObligations := if hasObligationChanges then Take(next, MaxRecords) else obligations;
      var newLedger := if hasLedgerChanges then Take(SortDesc(resetLedger, GeneratedAt), MaxRecords) else ledger;
      assert newSerial == s1.serial && newObligations == s1.obligations && newLedger == s1.ledger;
      var newWrites := (if hasObligationChanges then [ObligationsKey] else []) + (if hasLedgerChanges then [LedgerKey] else []);
      assert newWrites == SweepWrites(s0, now);
      obligations, ledger, serial := newObligations, newLedger, newSerial;
      writes := writes + newWrites;
    }

    /** `createExerciseObligation`: after the sweep, prepends one open obligation due at the end of today. */
    method CreateObligation(mealRecordId: string, exerciseType: ExerciseType, targetCount: int, now: Instant)
      returns (saved: Obligation)
      modifies this
      ensures var s := Sweep(old(State()), now);
        saved == NewObligation(IdOf(s.serial), mealRecordId, exerciseType, targetCount, now, timezone) &&
        State() == s.(obligations := Take([saved] + s.obligations, MaxRecords), serial := s.serial + 1)
      ensures writes == old(writes) + SweepWrites(old(State()), now) + [ObligationsKey]
    {
      RunMaintenance(now);
      var id := NextId();
      saved := Obligation(id, mealRecordId, now, EndOfDay(now), LocalDateKey(now), WeekStartKey(now), timezone,
                          exerciseType, Max(1, targetCount), 0, Open, None);
      obligations := Take([saved] + obligations, MaxRecords);
      writes := writes + [ObligationsKey];
    }

    /** `updateExerciseObligationTarget`: retargets every open obligation with that id. */
    method UpdateObligationTarget(obligationId: string, exerciseType: ExerciseType, targetCount: int, now: Instant)
      modifies this
      ensures var s := Sweep(old(State()), now);
        State() == if AnyOpenWithId(s.obligations, obligationId)
          then s.(obligations := Take(RetargetAll(s.obligations, obligationId, exerciseType, targetCount), MaxRecords))
          else s
      ensures writes == old(writes) + SweepWrites(old(State()), now) +
        (if AnyOpenWithId(Sweep(old(State()), now).obligations, obligationId) then [ObligationsKey] else [])
    {
      RunMaintenance(now);
      var next, changed := RetargetObligations(obligations, obligationId, exerciseType, targetCount);
      if changed {
        obligations := Take(next, MaxRecords);
        writes := writes + [ObligationsKey];
      }
    }

    /** `saveExerciseSessionEvent`: prepends one event stamped now. */
    method SaveSessionEvent(obligationId: string, eventType: EventType, countSnapshot: int, now: Instant)
      modifies this
      ensures var s := Sweep(old(State()), now);
        State() == s.(events := Take([NewEvent(IdOf(s.serial), obligationId, eventType, countSnapshot, now)] + s.events, MaxRecords),
                      serial := s.serial + 1)
      ensures writes == old(writes) + SweepWrites(old(State()), now) + [SessionEventsKey]
    {
      RunMaintenance(now);
      var id := NextId();
      var nextEvent := SessionEvent(id, obligationId, now, eventType, Max(0, countSnapshot));
      events := Take([nextEvent] + events, MaxRecords);
      writes := writes + [SessionEventsKey];
    }

    /** `getSessionRestoreState`. */
    method GetSessionRestoreState(obligationId: string, now: Instant) returns (r: RestoreState)
      modifies this
      ensures State() == Sweep(old(State()), now) && writes == old(writes) + SweepWrites(old(State()), now)
      ensures r == Restore(events, obligationId)
    {
      RunMaintenance(now);
      r := Restore(events, obligationId);
    }

    /** `addObligationProgress`: credits the first obligation with that id and returns what it did not absorb. */
    method AddObligationProgress(obligationId: string, count: int, now: Instant) returns (left: int)
      modifies this
      ensures var s := Sweep(old(State()), now);
        var (next, leftover, wrote) := Progress(s.obligations, obligationId, count, now);
        State() == s.(obligations := next) && left == leftover &&
        writes == old(writes) + SweepWrites(old(State()), now) + (if wrote then [ObligationsKey] else [])
    {
      RunMaintenance(now);
      var next, wrote;
      next, left, wrote := CreditObligation(obligations, obligationId, count, now);
      if wrote {
        obligations := next;
        writes := writes + [ObligationsKey];
      }
    }

    /** `applyRecoveryFromExercise`: spends totalCount on this week's open entries, oldest first. */
    method ApplyRecoveryFromExercise(totalCount: int, now: Instant)
      modifies this
      ensures var s := Sweep(old(State()), now);
        State() == s.(ledger := Recover(s.ledger, totalCount, now).0)
      ensures writes == old(writes) + SweepWrites(old(State()), now) +
        (if Recover(Sweep(old(State()), now).ledger, totalCount, now).1 then [LedgerKey] else [])
    {
      RunMaintenance(now);
      if totalCount <= 0 {
        return;
      }
      var ordered := SortAsc(ledger, GeneratedAt);
      var entries, remaining, changed := SpendOnEntries(ordered, totalCount, WeekStartKey(now));
      ghost var r := Recover(ledger, totalCount, now);
      assert r.1 == changed && (changed ==> r.0 == Take(SortDesc(entries, GeneratedAt), MaxRecords));
      if changed {
        ledger := Take(SortDesc(entries, GeneratedAt), MaxRecords);
        writes := writes + [LedgerKey];
      }
    }

    /** `getWeeklyRecoveryStatus`. */
    method GetWeeklyRecoveryStatus(now: Instant) returns (r: WeeklyStatus)
      modifies this
      ensures State() == Sweep(old(State()), now) && writes == old(writes) + SweepWrites(old(State()), now)
      ensures r == Weekly(ledger, WeekStartKey(now))
    {
      RunMaintenance(now);
      r := Weekly(ledger, WeekStartKey(now));
    }

    /** `getTodayObligationStatus`. */
    method GetTodayObligationStatus(now: Instant) returns (r: TodayStatus)
      modifies this
      ensures State() == Sweep(old(State()), now) && writes == old(writes) + SweepWrites(old(State()), now)
      ensures r == Today(obligations, LocalDateKey(now))
    {
      RunMaintenance(now);
      r := Today(obligations, LocalDateKey(now));
    }

    /** `getTodayOpenObligations`. */
    method GetTodayOpenObligations(now: Instant) returns (r: seq<PendingObligation>)
      modifies this
      ensures State() == Sweep(old(State()), now) && writes == old(writes) + SweepWrites(old(State()), now)
      ensures r == TodayOpenList(obligations, LocalDateKey(now))
    {
      RunMaintenance(now);
      r := TodayOpenList(obligations, LocalDateKey(now));
    }
  }

  /** The `forEach` over the obligations in the sweep: finalizes the due ones and
      appends an entry for each that fell short and has none yet; ids are drawn
      from the source starting at serial. */
  method FinalizeObligations(obs: seq<Obligation>, ledger: seq<LedgerEntry>, serial: nat, now: Instant)
    returns (next: seq<Obligation>, nextLedger: seq<LedgerEntry>, hasObligationChanges: bool, hasLedgerChanges: bool)
    ensures next == FinalizeAll(obs, now)
    ensures nextLedger == Spawn(obs, ledger, now, serial)
    ensures hasObligationChanges <==> AnyDue(obs, now)
    ensures hasLedgerChanges <==> |nextLedger| > |ledger|
  {
    next := obs;
    nextLedger := ledger;
    hasObligationChanges := false;
    hasLedgerChanges := false;
    for i := 0 to |obs|
      invariant |next| == |obs|
      invariant forall k :: 0 <= k < i ==> next[k] == Finalize(obs[k], now)
      invariant forall k :: i <= k < |obs| ==> next[k] == obs[k]
      invariant nextLedger == Spawn(obs[..i], ledger, now, serial)
      invariant hasObligationChanges <==> exists k :: 0 <= k < i && IsDue(obs[k], now)
      invariant hasLedgerChanges <==> |nextLedger| > |ledger|
    {
      var finalized, due, added;
      finalized, nextLedger, due, added := VisitNext(obs, i, ledger, now, serial, nextLedger);
      next := next[i := finalized];
      hasObligationChanges := hasObligationChanges || due;
      hasLedgerChanges := hasLedgerChanges || added;
    }
    assert obs[..|obs|] == obs;
  }

  /** The pass over `obs[i]` with the ledger as the earlier passes left it. */
  method VisitNext(obs: seq<Obligation>, i: nat, ledger: seq<LedgerEntry>, now: Instant, serial: nat,
                   acc: seq<LedgerEntry>)
    returns (finalized: Obligation, acc': seq<LedgerEntry>, due: bool, added: bool)
    requires i < |obs| && acc == Spawn(obs[..i], ledger, now, serial)
    ensures finalized == Finalize(obs[i], now) && (due <==> IsDue(obs[i], now))
    ensures acc' == Spawn(obs[..i + 1], ledger, now, serial)
    ensures |acc'| == |acc| + (if added then 1 else 0)
  {
    SpawnStep(obs, i, ledger, now, serial);
    finalized, acc', due, added := VisitObligation(obs[i], now, acc, IdOf(serial + |acc| - |ledger|));
  }

  /** One pass of the sweep's `forEach` over the obligations: the obligation
      afterwards and the ledger with the entry it may have opened, which gets
      the id `freshId`. */
  method VisitObligation(o: Obligation, now: Instant, nextLedger: seq<LedgerEntry>, freshId: string)
    returns (finalized: Obligation, ledger': seq<LedgerEntry>, due: bool, added: bool)
    ensures finalized == Finalize(o, now) && (due <==> IsDue(o, now))
    ensures ledger' == if NeedsEntry(o, now, nextLedger) then nextLedger + [NewEntry(o, now, freshId)] else nextLedger
    ensures added <==> NeedsEntry(o, now, nextLedger)
  {
    finalized, ledger', due, added := o, nextLedger, false, false;
    if o.status != Open {
      return;
    }
    if o.dueAt > now {
      return;
    }
    due := true;
    if o.completedCount >= o.targetCount {
      finalized := o.(status := Completed, finalizedAt := Some(now));
      return;
    }
    finalized := o.(status := Unmet, finalizedAt := Some(now));
    var remainingCount := Max(0, o.targetCount - o.completedCount);
    if remainingCount <= 0 {
      return;
    }
    if HasLiveEntry(nextLedger, o.id) {
      return;
    }
    added := true;
    ledger' := nextLedger + [LedgerEntry(freshId, o.id, o.weekStartLocal, now, remainingCount, 0,
                                         remainingCount, EntryOpen, None)];
  }

  /** The `forEach` over the ledger in the sweep: resets the open entries of
      weeks before `week` (an entry is skipped when its key is `>=` the
      current week's key, so reset exactly when it is `<`). */
  method ResetStaleEntries(spawned: seq<LedgerEntry>, now: Instant, week: string)
    returns (nextLedger: seq<LedgerEntry>, anyReset: bool)
    ensures nextLedger == ResetAll(spawned, now, week)
    ensures anyReset <==> AnyStale(spawned, week)
  {
    nextLedger := spawned;
    anyReset := false;
    for j := 0 to |spawned|
      invariant |nextLedger| == |spawned|
      invariant forall k :: 0 <= k < j ==> nextLedger[k] == ResetStale(spawned[k], now, week)
      invariant forall k :: j <= k < |spawned| ==> nextLedger[k] == spawned[k]
      invariant anyReset <==> exists k :: 0 <= k < j && Stale(spawned[k], week)
    {
      var entry := nextLedger[j];
      if entry.status == EntryOpen && LexLess(entry.weekStartLocal, week) {
        anyReset := true;
        nextLedger := nextLedger[j := entry.(status := Reset, resetAt := Some(now), remainingCount := 0)];
      }
    }
  }

  /** The `forEach` in `updateExerciseObligationTarget`. */
  method RetargetObligations(obs: seq<Obligation>, obligationId: string, exerciseType: ExerciseType, targetCount: int)
    returns (next: seq<Obligation>, changed: bool)
    ensures next == RetargetAll(obs, obligationId, exerciseType, targetCount)
    ensures changed <==> AnyOpenWithId(obs, obligationId)
  {
    next := obs;
    changed := false;
    for i := 0 to |obs|
      invariant |next| == |obs|
      invariant forall k :: 0 <= k < i ==> next[k] == Retarget(obs[k], obligationId, exerciseType, targetCount)
      invariant forall k :: i <= k < |obs| ==> next[k] == obs[k]
      invariant changed <==> exists k :: 0 <= k < i && IsOpenWithId(obs[k], obligationId)
    {
      var o := obs[i];
      if o.id == obligationId && o.status == Open {
        next := next[i := o.(exerciseType := exerciseType, targetCount := Max(1, targetCount))];
        changed := true;
      }
    }
  }

  /** The `for` loop in `applyRecoveryFromExercise` over the entries in ascending
      `generatedAt` order: the entries afterwards, what is left, and whether any
      entry changed. */
  method SpendOnEntries(ordered: seq<LedgerEntry>, totalCount: int, week: string)
    returns (entries: seq<LedgerEntry>, remaining: int, changed: bool)
    requires totalCount > 0
    ensures (entries, remaining) == Allocate(ordered, totalCount, week)
    ensures changed <==> remaining < totalCount
  {
    entries := ordered;
    remaining := totalCount;
    changed := false;
    var i := 0;
    while i < |ordered|
      invariant 0 <= i <= |ordered|
      invariant entries == Allocate(ordered[..i], totalCount, week).0 + ordered[i..]
      invariant remaining == Allocate(ordered[..i], totalCount, week).1
      invariant changed <==> remaining < totalCount
    {
      if remaining <= 0 {
        break;
      }
      var consumedAny;
      entries, remaining, consumedAny := SpendNext(ordered, i, totalCount, week, entries, remaining);
      changed := changed || consumedAny;
      i := i + 1;
    }
    if i < |ordered| {
      AllocateRest(ordered, i, totalCount, week);
    } else {
      assert ordered[..i] == ordered && ordered[i..] == [];
      assert entries == Allocate(ordered, totalCount, week).0 + [];
    }
    ghost var a := Allocate(ordered, totalCount, week);
    assert entries == a.0 && remaining == a.1;
  }

  /** One turn of that loop, at `ordered[i]`, with something left to spend. */
  method SpendNext(ordered: seq<LedgerEntry>, i: nat, totalCount: int, week: string,
                   entries: seq<LedgerEntry>, remaining: int)
    returns (entries': seq<LedgerEntry>, left: int, consumedAny: bool)
    requires i < |ordered| && remaining > 0
    requires entries == Allocate(ordered[..i], totalCount, week).0 + ordered[i..]
    requires remaining == Allocate(ordered[..i], totalCount, week).1
    ensures entries' == Allocate(ordered[..i + 1], totalCount, week).0 + ordered[i + 1..]
    ensures left == Allocate(ordered[..i + 1], totalCount, week).1
    ensures left <= remaining && (consumedAny <==> left < remaining)
  {
    AllocateStep(ordered, i, totalCount, week);
    ghost var done := Allocate(ordered[..i], totalCount, week).0;
    assert entries[i] == ordered[i];
    var drawn;
    drawn, left, consumedAny := DrawFromEntry(entries[i], remaining, week);
    entries' := entries[i := drawn];
    assert entries' == done + [drawn] + ordered[i + 1..];
  }

  /** The body of `addObligationProgress` after the sweep: the obligations to
      store, the repetitions left over, and whether anything is written. */
  method CreditObligation(obs: seq<Obligation>, obligationId: string, count: int, now: Instant)
    returns (next: seq<Obligation>, left: int, wrote: bool)
    ensures (next, left, wrote) == Progress(obs, obligationId, count, now)
  {
    var k := FindById(obs, obligationId);
    if k.None? || obs[k.value].status != Open || count <= 0 {
      return obs, Max(0, count), false;
    }
    var obligation := obs[k.value];
    var remainingBefore := Max(0, obligation.targetCount - obligation.completedCount);
    var consumed := Min(count, remainingBefore);
    obligation := obligation.(completedCount := obligation.completedCount + consumed);
    if obligation.completedCount >= obligation.targetCount {
      obligation := obligation.(status := Completed, finalizedAt := Some(now));
    }
    next := Take(obs[k.value := obligation], MaxRecords);
    left := Max(0, count - consumed);
    wrote := true;
  }

  /** One pass of the recovery loop once something is left to spend: the entry
      afterwards, what is left, and whether the entry took anything. */
  method DrawFromEntry(entry: LedgerEntry, remaining: int, week: string)
    returns (drawn: LedgerEntry, left: int, consumedAny: bool)
    requires remaining > 0
    ensures (drawn, left) == Draw(entry, remaining, week)
    ensures consumedAny <==> left < remaining
  {
    drawn, left, consumedAny := entry, remaining, false;
    if entry.status != EntryOpen || entry.weekStartLocal != week {
      return;
    }
    var consumed := Min(remaining, entry.remainingCount);
    if consumed <= 0 {
      return;
    }
    left := remaining - consumed;
    drawn := entry.(recoveredCount := entry.recoveredCount + consumed,
                    remainingCount := entry.remainingCount - consumed);
    consumedAny := true;
    if drawn.remainingCount <= 0 {
      drawn := drawn.(remainingCount := 0, status := Closed);
    }
  }
}
