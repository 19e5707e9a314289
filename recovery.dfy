/** The exercise obligation and weekly recovery ledger: its records, and the
    pure meaning of every step the store takes — the maintenance sweep, the
    obligation updates, progress allocation, session restore and the
    read-only aggregates. The store that keeps the three collections and
    performs these steps in place is in module RecoveryStore. */
module Recovery {
  import opened Util
  import opened Calendar
  import opened Seqs
  import opened Records

  /** `writeArray` never stores more than this many items. */
  const MaxRecords: nat := 500

  datatype ObligationStatus = Open | Completed | Unmet

  /** One day's exercise owed for a meal. `dueAt` is the last millisecond of the
      local day it was created on; the two date fields are `YYYY-MM-DD` keys. */
  datatype Obligation = Obligation(
    id: string,
    mealRecordId: string,
    createdAt: Instant,
    dueAt: Instant,
    dueLocalDate: string,
    weekStartLocal: string,
    timezone: string,
    exerciseType: ExerciseType,
    targetCount: int,
    completedCount: int,
    status: ObligationStatus,
    finalizedAt: Option<Instant>)

  datatype EventType = Start | Pause | Resume | End

  datatype SessionEvent = SessionEvent(
    id: string,
    obligationId: string,
    timestamp: Instant,
    eventType: EventType,
    countSnapshot: int)

  datatype EntryStatus = EntryOpen | Closed | Reset

  /** The shortfall of one unmet obligation, still recoverable during its week. */
  datatype LedgerEntry = LedgerEntry(
    id: string,
    obligationId: string,
    weekStartLocal: string,
    generatedAt: Instant,
    initialUnmetCount: int,
    recoveredCount: int,
    remainingCount: int,
    status: EntryStatus,
    resetAt: Option<Instant>)

  /** The three storage keys. */
  datatype StorageKey = ObligationsKey | SessionEventsKey | LedgerKey

  /** What the three keys hold, plus the state of the id source. */
  datatype Stored = Stored(
    obligations: seq<Obligation>,
    events: seq<SessionEvent>,
    ledger: seq<LedgerEntry>,
    serial: nat)

  /** The id source: the k-th id handed out. Ids drawn from one source never repeat. */
  function IdOf(k: nat): string
  {
    "r" + DecimalString(k)
  }

  function GeneratedAt(e: LedgerEntry): int { e.generatedAt }

  function Timestamp(e: SessionEvent): int { e.timestamp }

  function CreatedAt(o: Obligation): int { o.createdAt }

  /** `Math.max(0, targetCount - completedCount)`. */
  function Shortfall(o: Obligation): nat
  {
    Max(0, o.targetCount - o.completedCount)
  }

  // ---------------------------------------------------------------------
  // The sweep, step 1: finalize overdue obligations

  predicate IsDue(o: Obligation, now: Instant)
  {
    o.status == Open && o.dueAt <= now
  }

  function Finalize(o: Obligation, now: Instant): (r: Obligation)
    ensures !IsDue(o, now) ==> r == o
    ensures IsDue(o, now) ==>
      r.status != Open && r.finalizedAt == Some(now) &&
      (r.status == Completed <==> o.completedCount >= o.targetCount)
    ensures r.(status := o.status, finalizedAt := o.finalizedAt) == o
    ensures !IsDue(r, now)
  {
    if !IsDue(o, now) then o
    else if o.completedCount >= o.targetCount then o.(status := Completed, finalizedAt := Some(now))
    else o.(status := Unmet, finalizedAt := Some(now))
  }

  function FinalizeAll(obs: seq<Obligation>, now: Instant): (r: seq<Obligation>)
    ensures |r| == |obs| && forall i :: 0 <= i < |obs| ==> r[i] == Finalize(obs[i], now)
  {
    seq(|obs|, i requires 0 <= i < |obs| => Finalize(obs[i], now))
  }

  predicate AnyDue(obs: seq<Obligation>, now: Instant)
  {
    exists i :: 0 <= i < |obs| && IsDue(obs[i], now)
  }

  // ---------------------------------------------------------------------
  // The sweep, step 2: one ledger entry per newly unmet obligation

  /** An entry that still stands for its obligation (the `find` in the sweep). */
  predicate LiveFor(e: LedgerEntry, oid: string)
  {
    e.obligationId == oid && e.status != Reset
  }

  predicate HasLiveEntry(s: seq<LedgerEntry>, oid: string)
  {
    exists i :: 0 <= i < |s| && LiveFor(s[i], oid)
  }

  function IsLive(oid: string): LedgerEntry -> bool
  {
    e => LiveFor(e, oid)
  }

  function One(e: LedgerEntry): int { 1 }

  function LiveCount(s: seq<LedgerEntry>, oid: string): int
  {
    SumWhere(s, IsLive(oid), One)
  }

  /** No obligation has two entries that are not reset. */
  ghost predicate AtMostOneLive(s: seq<LedgerEntry>)
  {
    forall oid :: LiveCount(s, oid) <= 1
  }

  function NewEntry(o: Obligation, now: Instant, id: string): LedgerEntry
  {
    LedgerEntry(id, o.id, o.weekStartLocal, now, Shortfall(o), 0, Shortfall(o), EntryOpen, None)
  }

  predicate NeedsEntry(o: Obligation, now: Instant, acc: seq<LedgerEntry>)
  {
    IsDue(o, now) && o.completedCount < o.targetCount && Shortfall(o) > 0 && !HasLiveEntry(acc, o.id)
  }

  /** The ledger after the sweep has visited the obligations in order: the old
      entries, then one new entry per obligation that needed one, with ids drawn
      from the source in that order. */
  function Spawn(obs: seq<Obligation>, ledger: seq<LedgerEntry>, now: Instant, serial: nat): (r: seq<LedgerEntry>)
    ensures |ledger| <= |r| <= |ledger| + |obs| && r[..|ledger|] == ledger
  {
    if obs == [] then ledger
    else
      var acc := Spawn(obs[..|obs| - 1], ledger, now, serial);
      var o := obs[|obs| - 1];
      if NeedsEntry(o, now, acc) then acc + [NewEntry(o, now, IdOf(serial + |acc| - |ledger|))] else acc
  }

  /** One more obligation visited by the sweep. */
  lemma SpawnStep(obs: seq<Obligation>, i: nat, ledger: seq<LedgerEntry>, now: Instant, serial: nat)
    requires i < |obs|
    ensures var acc := Spawn(obs[..i], ledger, now, serial);
      Spawn(obs[..i + 1], ledger, now, serial) ==
        if NeedsEntry(obs[i], now, acc) then acc + [NewEntry(obs[i], now, IdOf(serial + |acc| - |ledger|))] else acc
  {
    assert obs[..i + 1][..i] == obs[..i];
  }

  // ---------------------------------------------------------------------
  // The sweep, step 3: reset open entries of past weeks

  /** An open entry whose week key sorts before the current week's key. */
  predicate Stale(e: LedgerEntry, week: string)
  {
    e.status == EntryOpen && LexLess(e.weekStartLocal, week)
  }

  function ResetStale(e: LedgerEntry, now: Instant, week: string): (r: LedgerEntry)
    ensures Stale(e, week) ==> r.status == Reset && r.remainingCount == 0 && r.resetAt == Some(now)
    ensures !Stale(e, week) ==> r == e
    ensures r.(status := e.status, remainingCount := e.remainingCount, resetAt := e.resetAt) == e
    ensures !Stale(r, week)
  {
    if Stale(e, week) then e.(status := Reset, resetAt := Some(now), remainingCount := 0) else e
  }

  function ResetAll(s: seq<LedgerEntry>, now: Instant, week: string): (r: seq<LedgerEntry>)
    ensures |r| == |s| && forall i :: 0 <= i < |s| ==> r[i] == ResetStale(s[i], now, week)
  {
    seq(|s|, i requires 0 <= i < |s| => ResetStale(s[i], now, week))
  }

  predicate AnyStale(s: seq<LedgerEntry>, week: string)
  {
    exists i :: 0 <= i < |s| && Stale(s[i], week)
  }

  // ---------------------------------------------------------------------
  // The whole sweep

  function Spawned(s: Stored, now: Instant): seq<LedgerEntry>
  {
    Spawn(s.obligations, s.ledger, now, s.serial)
  }

  /** `hasLedgerChanges`: an entry was added or an entry was reset. */
  predicate LedgerChanged(s: Stored, now: Instant)
  {
    |Spawned(s, now)| > |s.ledger| || AnyStale(Spawned(s, now), WeekStartKey(now))
  }

  /** `runRecoveryMaintenance(now)` on what the three keys hold. */
  function Sweep(s: Stored, now: Instant): Stored
  {
    var spawned := Spawned(s, now);
    Stored(
      if AnyDue(s.obligations, now) then Take(FinalizeAll(s.obligations, now), MaxRecords) else s.obligations,
      s.events,
      if LedgerChanged(s, now) then Take(SortDesc(ResetAll(spawned, now, WeekStartKey(now)), GeneratedAt), MaxRecords)
      else s.ledger,
      s.serial + |spawned| - |s.ledger|)
  }

  /** The keys the sweep writes, in order. */
  function SweepWrites(s: Stored, now: Instant): seq<StorageKey>
  {
    (if AnyDue(s.obligations, now) then [ObligationsKey] else []) +
    (if LedgerChanged(s, now) then [LedgerKey] else [])
  }

  // ---------------------------------------------------------------------
  // What the sweep guarantees

  lemma {:induction false} SpawnNoDue(obs: seq<Obligation>, ledger: seq<LedgerEntry>, now: Instant, serial: nat)
    requires !AnyDue(obs, now)
    ensures Spawn(obs, ledger, now, serial) == ledger
  {
    if obs != [] {
      var init := obs[..|obs| - 1];
      assert forall i :: 0 <= i < |init| ==> init[i] == obs[i];
      SpawnNoDue(init, ledger, now, serial);
      assert !IsDue(obs[|obs| - 1], now);
    }
  }

  /** e is the entry the sweep opens for obligation o at instant now. */
  predicate OpenedFor(e: LedgerEntry, o: Obligation, now: Instant)
  {
    e.obligationId == o.id && IsDue(o, now) && o.completedCount < o.targetCount &&
    e.weekStartLocal == o.weekStartLocal && e.generatedAt == now && e.status == EntryOpen &&
    e.initialUnmetCount == e.remainingCount == o.targetCount - o.completedCount &&
    e.recoveredCount == 0 && e.resetAt == None
  }

  /** Entries the sweep adds are fresh, open and owe exactly the shortfall of a
      due obligation that fell short, whose week they copy. */
  ghost predicate AddedFresh(r: seq<LedgerEntry>, ledger: seq<LedgerEntry>, obs: seq<Obligation>, now: Instant, serial: nat)
  {
    forall k :: |ledger| <= k < |r| ==>
      r[k].id == IdOf(serial + k - |ledger|) && exists i :: 0 <= i < |obs| && OpenedFor(r[k], obs[i], now)
  }

  lemma {:induction false} SpawnAddsFreshEntries(obs: seq<Obligation>, ledger: seq<LedgerEntry>, now: Instant, serial: nat)
    ensures AddedFresh(Spawn(obs, ledger, now, serial), ledger, obs, now, serial)
  {
    if obs != [] {
      var init := obs[..|obs| - 1];
      SpawnAddsFreshEntries(init, ledger, now, serial);
      var acc := Spawn(init, ledger, now, serial);
      var o := obs[|obs| - 1];
      var r := Spawn(obs, ledger, now, serial);
      forall k | |ledger| <= k < |r|
        ensures r[k].id == IdOf(serial + k - |ledger|) && exists i :: 0 <= i < |obs| && OpenedFor(r[k], obs[i], now)
      {
        if k < |acc| {
          assert r[k] == acc[k];
          var i :| 0 <= i < |init| && OpenedFor(acc[k], init[i], now);
          assert init[i] == obs[i];
        } else {
          assert r[k] == NewEntry(o, now, IdOf(serial + |acc| - |ledger|));
          assert OpenedFor(r[k], obs[|obs| - 1], now);
        }
      }
    }
  }

  lemma HasLiveEntryAppend(acc: seq<LedgerEntry>, e: LedgerEntry, oid: string)
    requires HasLiveEntry(acc, oid)
    ensures HasLiveEntry(acc + [e], oid)
  {
    var i :| 0 <= i < |acc| && LiveFor(acc[i], oid);
    assert (acc + [e])[i] == acc[i];
  }

  /** After the sweep every due obligation that fell short has an entry that is not reset. */
  lemma {:induction false} SpawnCovers(obs: seq<Obligation>, ledger: seq<LedgerEntry>, now: Instant, serial: nat)
    ensures var r := Spawn(obs, ledger, now, serial);
      forall i :: 0 <= i < |obs| && IsDue(obs[i], now) && obs[i].completedCount < obs[i].targetCount ==>
        HasLiveEntry(r, obs[i].id)
  {
    if obs != [] {
      var init := obs[..|obs| - 1];
      assert forall i :: 0 <= i < |init| ==> init[i] == obs[i];
      SpawnCovers(init, ledger, now, serial);
      var acc := Spawn(init, ledger, now, serial);
      var o := obs[|obs| - 1];
      var r := Spawn(obs, ledger, now, serial);
      forall i | 0 <= i < |obs| && IsDue(obs[i], now) && obs[i].completedCount < obs[i].targetCount
        ensures HasLiveEntry(r, obs[i].id)
      {
        if NeedsEntry(o, now, acc) {
          var e := NewEntry(o, now, IdOf(serial + |acc| - |ledger|));
          if i < |init| {
            HasLiveEntryAppend(acc, e, obs[i].id);
          } else {
            assert r[|acc|] == e;
          }
        }
      }
    }
  }

  lemma LiveCountAppend(acc: seq<LedgerEntry>, e: LedgerEntry, oid: string)
    ensures LiveCount(acc + [e], oid) == LiveCount(acc, oid) + (if LiveFor(e, oid) then 1 else 0)
  {
    SumWhereAppend(acc, [e], IsLive(oid), One);
  }

  lemma LiveCountZero(s: seq<LedgerEntry>, oid: string)
    requires !HasLiveEntry(s, oid)
    ensures LiveCount(s, oid) == 0
  {
    SumWhereNone(s, IsLive(oid), One);
  }

  lemma {:induction false} SpawnKeepsOneLive(obs: seq<Obligation>, ledger: seq<LedgerEntry>, now: Instant, serial: nat)
    requires AtMostOneLive(ledger)
    ensures AtMostOneLive(Spawn(obs, ledger, now, serial))
  {
    if obs != [] {
      var init := obs[..|obs| - 1];
      SpawnKeepsOneLive(init, ledger, now, serial);
      var acc := Spawn(init, ledger, now, serial);
      var o := obs[|obs| - 1];
      if NeedsEntry(o, now, acc) {
        var e := NewEntry(o, now, IdOf(serial + |acc| - |ledger|));
        forall oid
          ensures LiveCount(acc + [e], oid) <= 1
        {
          LiveCountAppend(acc, e, oid);
          if oid == o.id { LiveCountZero(acc, oid); }
        }
      }
    }
  }

  lemma {:induction false} ResetAllLiveCount(s: seq<LedgerEntry>, now: Instant, week: string, oid: string)
    ensures LiveCount(ResetAll(s, now, week), oid) <= LiveCount(s, oid)
  {
    if s != [] {
      var r := ResetAll(s, now, week);
      assert r[1..] == ResetAll(s[1..], now, week);
      ResetAllLiveCount(s[1..], now, week, oid);
    }
  }

  /** The sweep never gives an obligation a second entry that is not reset. */
  lemma SweepKeepsOneLive(s: Stored, now: Instant)
    requires AtMostOneLive(s.ledger)
    ensures AtMostOneLive(Sweep(s, now).ledger)
  {
    var spawned := Spawned(s, now);
    SpawnKeepsOneLive(s.obligations, s.ledger, now, s.serial);
    if LedgerChanged(s, now) {
      var week := WeekStartKey(now);
      var reset := ResetAll(spawned, now, week);
      var sorted := SortDesc(reset, GeneratedAt);
      forall oid
        ensures LiveCount(Take(sorted, MaxRecords), oid) <= 1
      {
        ResetAllLiveCount(spawned, now, week, oid);
        SortDescSum(reset, GeneratedAt, IsLive(oid), One);
        SumWhereTake(sorted, MaxRecords, IsLive(oid), One);
      }
    }
  }

  /** The bookkeeping every entry keeps: counters never negative, recovered plus
      remaining equal to the initial shortfall until the entry is reset, an open
      entry still owes something, and a closed or reset one owes nothing. */
  predicate WellFormedEntry(e: LedgerEntry)
  {
    0 <= e.recoveredCount && 0 <= e.remainingCount &&
    (e.status != Reset ==> e.recoveredCount + e.remainingCount == e.initialUnmetCount) &&
    (e.status == EntryOpen <==> e.remainingCount > 0)
  }

  ghost predicate WellFormedLedger(s: seq<LedgerEntry>)
  {
    forall x :: x in s ==> WellFormedEntry(x)
  }

  lemma {:induction false} SpawnKeepsWellFormed(obs: seq<Obligation>, ledger: seq<LedgerEntry>, now: Instant, serial: nat)
    requires WellFormedLedger(ledger)
    ensures WellFormedLedger(Spawn(obs, ledger, now, serial))
  {
    if obs != [] {
      SpawnKeepsWellFormed(obs[..|obs| - 1], ledger, now, serial);
    }
  }

  /** The sweep keeps every entry well formed. */
  lemma SweepKeepsWellFormed(s: Stored, now: Instant)
    requires WellFormedLedger(s.ledger)
    ensures WellFormedLedger(Sweep(s, now).ledger)
  {
    var spawned := Spawned(s, now);
    SpawnKeepsWellFormed(s.obligations, s.ledger, now, s.serial);
    if LedgerChanged(s, now) {
      var week := WeekStartKey(now);
      var reset := ResetAll(spawned, now, week);
      assert WellFormedLedger(reset) by {
        forall x | x in reset ensures WellFormedEntry(x) {
          var i :| 0 <= i < |reset| && reset[i] == x;
          assert spawned[i] in spawned;
        }
      }
      var sorted := SortDesc(reset, GeneratedAt);
      assert forall x :: x in sorted ==> x in multiset(reset);
      TakeMultiset(sorted, MaxRecords);
      assert forall x :: x in Take(sorted, MaxRecords) ==> x in multiset(sorted);
    }
  }

  /** After a sweep no obligation is still open past its due time and no open
      entry belongs to a past week. */
  lemma SweepLeavesNothingPending(s: Stored, now: Instant)
    ensures !AnyDue(Sweep(s, now).obligations, now)
    ensures !AnyStale(Sweep(s, now).ledger, WeekStartKey(now))
  {
    var week := WeekStartKey(now);
    if AnyDue(s.obligations, now) {
      FinalizedNoneDue(s.obligations, now);
    }
    if LedgerChanged(s, now) {
      ResetNoneStale(Spawned(s, now), now, week);
    }
  }

  lemma FinalizedNoneDue(obs: seq<Obligation>, now: Instant)
    ensures !AnyDue(Take(FinalizeAll(obs, now), MaxRecords), now)
  {
    var t := Take(FinalizeAll(obs, now), MaxRecords);
    forall i | 0 <= i < |t| ensures !IsDue(t[i], now) {
      assert t[i] == Finalize(obs[i], now);
    }
  }

  lemma ResetNoneStale(spawned: seq<LedgerEntry>, now: Instant, week: string)
    ensures !AnyStale(Take(SortDesc(ResetAll(spawned, now, week), GeneratedAt), MaxRecords), week)
  {
    var reset := ResetAll(spawned, now, week);
    var sorted := SortDesc(reset, GeneratedAt);
    var t := Take(sorted, MaxRecords);
    TakeMultiset(sorted, MaxRecords);
    forall i | 0 <= i < |t| ensures !Stale(t[i], week) {
      assert t[i] in multiset(sorted);
      assert t[i] in reset;
    }
  }

  /** Running the sweep twice with the same clock changes nothing the second time
      and writes nothing. */
  lemma SweepIdempotent(s: Stored, now: Instant)
    ensures SweepWrites(Sweep(s, now), now) == []
    ensures Sweep(Sweep(s, now), now) == Sweep(s, now)
  {
    var t := Sweep(s, now);
    SweepLeavesNothingPending(s, now);
    SpawnNoDue(t.obligations, t.ledger, now, t.serial);
  }

  /** With four-digit years, the string test that resets an entry is the
      chronological one: its week began before the Monday of the current week. */
  lemma ResetIsChronological(e: LedgerEntry, d: nat, now: Instant)
    requires e.weekStartLocal == DayKey(d) && FourDigitYear(d)
    requires FourDigitYear(MondayOnOrBefore(DayOf(now)))
    ensures Stale(e, WeekStartKey(now)) <==> e.status == EntryOpen && d < MondayOnOrBefore(DayOf(now))
  {
    DayKeyOrder(d, MondayOnOrBefore(DayOf(now)));
  }

  // ---------------------------------------------------------------------
  // Creating and retargeting obligations

  /** The obligation `createExerciseObligation` saves at instant now. */
  function NewObligation(id: string, mealRecordId: string, exerciseType: ExerciseType, targetCount: int,
                         now: Instant, timezone: string): (o: Obligation)
    ensures o.id == id && o.mealRecordId == mealRecordId && o.exerciseType == exerciseType && o.timezone == timezone
    ensures o.status == Open && o.completedCount == 0 && o.finalizedAt == None && o.createdAt == now
    ensures o.targetCount >= 1 && (targetCount >= 1 ==> o.targetCount == targetCount)
    ensures o.dueLocalDate == LocalDateKey(now) && o.weekStartLocal == WeekStartKey(now)
    ensures now <= o.dueAt && DayOf(o.dueAt) == DayOf(now) && DayOf(o.dueAt + 1) == DayOf(now) + 1
  {
    Obligation(id, mealRecordId, now, EndOfDay(now), LocalDateKey(now), WeekStartKey(now), timezone,
               exerciseType, Max(1, targetCount), 0, Open, None)
  }

  /** A new obligation stays open through every sweep of its own local day
      before its last millisecond, and any sweep on a later day finalizes it. */
  lemma NewObligationDueAtDayEnd(o: Obligation, now: Instant, t: Instant)
    requires o == NewObligation(o.id, o.mealRecordId, o.exerciseType, o.targetCount, now, o.timezone)
    ensures DayOf(t) > DayOf(now) ==> IsDue(o, t)
    ensures IsDue(o, t) ==> DayOf(t) >= DayOf(now)
    ensures t < o.dueAt ==> !IsDue(o, t)
  {
    if DayOf(t) > DayOf(now) {
      assert DayOf(t) >= DayOf(o.dueAt + 1);
      DayOfMonotone(t, o.dueAt);
    }
    if IsDue(o, t) {
      DayOfMonotone(o.dueAt, t);
    }
  }

  lemma DayOfMonotone(a: Instant, b: Instant)
    ensures a <= b ==> DayOf(a) <= DayOf(b)
    ensures DayOf(a) < DayOf(b) ==> a < b
  {
  }

  /** The obligation after `updateExerciseObligationTarget` visited it. */
  function Retarget(o: Obligation, id: string, exerciseType: ExerciseType, targetCount: int): (r: Obligation)
    ensures r != o ==> o.id == id && o.status == Open
    ensures o.id == id && o.status == Open ==>
      r.exerciseType == exerciseType && r.targetCount >= 1 && (targetCount >= 1 ==> r.targetCount == targetCount)
    ensures r.(exerciseType := o.exerciseType, targetCount := o.targetCount) == o
  {
    if o.id != id || o.status != Open then o else o.(exerciseType := exerciseType, targetCount := Max(1, targetCount))
  }

  function RetargetAll(obs: seq<Obligation>, id: string, exerciseType: ExerciseType, targetCount: int): (r: seq<Obligation>)
    ensures |r| == |obs| && forall i :: 0 <= i < |obs| ==> r[i] == Retarget(obs[i], id, exerciseType, targetCount)
  {
    seq(|obs|, i requires 0 <= i < |obs| => Retarget(obs[i], id, exerciseType, targetCount))
  }

  predicate IsOpenWithId(o: Obligation, id: string)
  {
    o.id == id && o.status == Open
  }

  predicate AnyOpenWithId(obs: seq<Obligation>, id: string)
  {
    exists i :: 0 <= i < |obs| && IsOpenWithId(obs[i], id)
  }

  // ---------------------------------------------------------------------
  // Session events and restore

  /** The event `saveExerciseSessionEvent` records at instant now. */
  function NewEvent(id: string, obligationId: string, eventType: EventType, countSnapshot: int, now: Instant): (e: SessionEvent)
    ensures e.obligationId == obligationId && e.eventType == eventType && e.timestamp == now && e.id == id
    ensures e.countSnapshot >= 0 && (countSnapshot >= 0 ==> e.countSnapshot == countSnapshot)
  {
    SessionEvent(id, obligationId, now, eventType, Max(0, countSnapshot))
  }

  function ForObligation(oid: string): SessionEvent -> bool
  {
    (e: SessionEvent) => e.obligationId == oid
  }

  datatype RestoreState = RestoreState(hasEvents: bool, isPaused: bool, countSnapshot: int, lastEventType: Option<EventType>)

  /** `getSessionRestoreState`: the obligation's events, latest first; the first one decides. */
  function Restore(events: seq<SessionEvent>, oid: string): (r: RestoreState)
    ensures r.countSnapshot >= 0
    ensures !r.hasEvents <==> (forall i :: 0 <= i < |events| ==> events[i].obligationId != oid)
    ensures !r.hasEvents ==> r == RestoreState(false, false, 0, None)
    ensures r.hasEvents ==> r.lastEventType.Some? && (r.isPaused <==> r.lastEventType == Some(Pause))
  {
    var filtered := SortDesc(Filter(events, ForObligation(oid)), Timestamp);
    FilterMembers(events, ForObligation(oid));
    SortDescLength(Filter(events, ForObligation(oid)), Timestamp);
    if |filtered| == 0 then
      assert forall i :: 0 <= i < |events| ==> events[i] !in Filter(events, ForObligation(oid));
      RestoreState(false, false, 0, None)
    else
      var latest := filtered[0];
      assert latest in multiset(Filter(events, ForObligation(oid)));
      RestoreState(true, latest.eventType == Pause, Max(0, latest.countSnapshot), Some(latest.eventType))
  }

  /** The restored state comes from the obligation's latest event, the first
      stored one among those with the largest timestamp. */
  lemma RestoreIsLatest(events: seq<SessionEvent>, oid: string)
    requires exists i :: 0 <= i < |events| && events[i].obligationId == oid
    ensures var f := Filter(events, ForObligation(oid));
      |f| > 0 &&
      var e := f[FirstMax(f, Timestamp)];
      e in events && e.obligationId == oid &&
      (forall i :: 0 <= i < |events| && events[i].obligationId == oid ==> events[i].timestamp <= e.timestamp) &&
      Restore(events, oid) == RestoreState(true, e.eventType == Pause, Max(0, e.countSnapshot), Some(e.eventType))
  {
    var f := Filter(events, ForObligation(oid));
    FilterMembers(events, ForObligation(oid));
    var i :| 0 <= i < |events| && events[i].obligationId == oid;
    assert events[i] in f;
    SortDescHead(f, Timestamp);
    var e := f[FirstMax(f, Timestamp)];
    forall j | 0 <= j < |events| && events[j].obligationId == oid
      ensures events[j].timestamp <= e.timestamp
    {
      assert events[j] in f;
      var k :| 0 <= k < |f| && f[k] == events[j];
    }
  }

  /** Restoring right after an event was saved, at an instant no earlier than the
      obligation's other events, gives back that event (a round trip). */
  lemma RestoreAfterSave(events: seq<SessionEvent>, id: string, oid: string, eventType: EventType, countSnapshot: int, now: Instant)
    requires forall i :: 0 <= i < |events| && events[i].obligationId == oid ==> events[i].timestamp <= now
    ensures Restore(Take([NewEvent(id, oid, eventType, countSnapshot, now)] + events, MaxRecords), oid) ==
      RestoreState(true, eventType == Pause, Max(0, countSnapshot), Some(eventType))
  {
    var ev := NewEvent(id, oid, eventType, countSnapshot, now);
    var stored := Take([ev] + events, MaxRecords);
    assert stored[0] == ev;
    assert stored == [ev] + stored[1..];
    assert forall i :: 0 <= i < |stored[1..]| ==> stored[1..][i] == events[i];
    var f := Filter(stored, ForObligation(oid));
    assert f == [ev] + Filter(stored[1..], ForObligation(oid));
    FilterMembers(stored[1..], ForObligation(oid));
    forall j | 0 <= j < |f| ensures f[j].timestamp <= now {
      if j > 0 {
        var x := f[j];
        assert x in Filter(stored[1..], ForObligation(oid));
        var k :| 0 <= k < |stored[1..]| && stored[1..][k] == x;
      }
    }
    RestoreIsLatest(stored, oid);
    FirstMaxHead(f, Timestamp);
  }

  lemma FirstMaxHead(s: seq<SessionEvent>, key: SessionEvent -> int)
    requires |s| > 0 && forall j :: 0 <= j < |s| ==> key(s[j]) <= key(s[0])
    ensures FirstMax(s, key) == 0
  {
  }

  // ---------------------------------------------------------------------
  // Progress on one obligation

  /** `obligations.find(item => item.id === id)`: the first obligation with that id. */
  function FindById(obs: seq<Obligation>, id: string): (r: Option<nat>)
    ensures r.Some? ==> r.value < |obs| && obs[r.value].id == id && forall i :: 0 <= i < r.value ==> obs[i].id != id
    ensures r.None? <==> forall i :: 0 <= i < |obs| ==> obs[i].id != id
  {
    if obs == [] then None
    else if obs[0].id == id then Some(0)
    else match FindById(obs[1..], id)
      case None => None
      case Some(k) => Some(k + 1)
  }

  /** The part of count the obligation absorbs: never more than it still owes. */
  function Consumed(o: Obligation, count: int): int
  {
    Min(count, Shortfall(o))
  }

  /** The obligation after `addObligationProgress` gave it count repetitions. */
  function Advance(o: Obligation, count: int, now: Instant): (r: Obligation)
    requires count > 0
    ensures 0 <= Consumed(o, count) <= count
    ensures r.completedCount == o.completedCount + Consumed(o, count)
    ensures o.completedCount <= o.targetCount ==> r.completedCount <= o.targetCount
    ensures count - Consumed(o, count) == Max(0, count - Shortfall(o))
    ensures r.completedCount >= o.targetCount ==> r.status == Completed && r.finalizedAt == Some(now)
    ensures r.completedCount < o.targetCount ==> r.(completedCount := o.completedCount) == o
    ensures r.(completedCount := o.completedCount, status := o.status, finalizedAt := o.finalizedAt) == o
  {
    var advanced := o.(completedCount := o.completedCount + Consumed(o, count));
    if advanced.completedCount >= advanced.targetCount then advanced.(status := Completed, finalizedAt := Some(now))
    else advanced
  }

  /** `addObligationProgress` on the stored obligations: the obligations
      afterwards, the repetitions left over, and whether they are written. */
  function Progress(obs: seq<Obligation>, id: string, count: int, now: Instant): (r: (seq<Obligation>, int, bool))
    ensures r.1 >= 0
    ensures !r.2 ==> r.0 == obs && r.1 == Max(0, count)
    ensures r.2 <==> count > 0 && FindById(obs, id).Some? && obs[FindById(obs, id).value].status == Open
    ensures r.2 ==> var k := FindById(obs, id).value;
      r.0 == Take(obs[k := Advance(obs[k], count, now)], MaxRecords) && r.1 == count - Consumed(obs[k], count)
  {
    match FindById(obs, id)
    case None => (obs, Max(0, count), false)
    case Some(k) =>
      if obs[k].status != Open || count <= 0 then (obs, Max(0, count), false)
      else (Take(obs[k := Advance(obs[k], count, now)], MaxRecords), count - Consumed(obs[k], count), true)
  }

  // ---------------------------------------------------------------------
  // Recovery: spending leftover repetitions on this week's open entries

  predicate Eligible(e: LedgerEntry, week: string)
  {
    e.status == EntryOpen && e.weekStartLocal == week
  }

  /** after is before with some repetitions moved from remaining to recovered,
      closed once nothing remains; an entry that is not eligible is untouched. */
  predicate Drawn(before: LedgerEntry, after: LedgerEntry, week: string)
  {
    after.(recoveredCount := before.recoveredCount, remainingCount := before.remainingCount, status := before.status) == before &&
    after.recoveredCount + after.remainingCount == before.recoveredCount + before.remainingCount &&
    before.recoveredCount <= after.recoveredCount &&
    (after.status != before.status ==> after.status == Closed && after.remainingCount == 0) &&
    (!Eligible(before, week) ==> after == before)
  }

  /** One pass of the `for` loop in `applyRecoveryFromExercise`: the entry and
      what is left to spend. */
  function Draw(e: LedgerEntry, left: int, week: string): (r: (LedgerEntry, int))
    ensures Drawn(e, r.0, week)
    ensures r.1 <= left && (left <= 0 ==> r.1 == left)
    ensures left > 0 ==> r.1 == Max(0, left - PositiveRemaining(e, week))
    ensures r.0.recoveredCount == e.recoveredCount + (left - r.1)
    ensures r.0.remainingCount == e.remainingCount - (left - r.1)
    ensures WellFormedEntry(e) ==> WellFormedEntry(r.0)
  {
    if left <= 0 then (e, left)
    else if !Eligible(e, week) then (e, left)
    else
      var consumed := Min(left, e.remainingCount);
      if consumed <= 0 then (e, left)
      else
        var drawn := e.(recoveredCount := e.recoveredCount + consumed, remainingCount := e.remainingCount - consumed);
        if drawn.remainingCount <= 0 then (drawn.(remainingCount := 0, status := Closed), left - consumed)
        else (drawn, left - consumed)
  }

  /** What an eligible entry can still absorb. */
  function PositiveRemaining(e: LedgerEntry, week: string): nat
  {
    if Eligible(e, week) then Max(0, e.remainingCount) else 0
  }

  function EligibleIn(week: string): LedgerEntry -> bool
  {
    (e: LedgerEntry) => Eligible(e, week)
  }

  function Absorbable(week: string): LedgerEntry -> int
  {
    (e: LedgerEntry) => PositiveRemaining(e, week)
  }

  /** The total this week's open entries can absorb. */
  function EligibleRemaining(s: seq<LedgerEntry>, week: string): int
  {
    SumWhere(s, EligibleIn(week), Absorbable(week))
  }

  /** The `for` loop over the entries in order: the entries after it and the amount left over. */
  function Allocate(s: seq<LedgerEntry>, total: int, week: string): (r: (seq<LedgerEntry>, int))
    ensures |r.0| == |s| && r.1 <= total
  {
    if s == [] then ([], total)
    else
      var (done, left) := Allocate(s[..|s| - 1], total, week);
      var (e, left') := Draw(s[|s| - 1], left, week);
      (done + [e], left')
  }

  /** Each entry comes out of the loop as itself with some repetitions moved from remaining to recovered. */
  lemma {:induction false} AllocateDraws(s: seq<LedgerEntry>, total: int, week: string)
    ensures var after := Allocate(s, total, week).0;
      forall i :: 0 <= i < |s| ==> Drawn(s[i], after[i], week)
  {
    if s != [] {
      var init, last := s[..|s| - 1], s[|s| - 1];
      AllocateDraws(init, total, week);
      var (done, left) := Allocate(init, total, week);
      var after := Allocate(s, total, week).0;
      assert after == done + [Draw(last, left, week).0];
      forall i | 0 <= i < |s| ensures Drawn(s[i], after[i], week) {
        if i < |init| { assert s[i] == init[i] && after[i] == done[i]; }
      }
    }
  }

  lemma SumWhereSingle<T>(x: T, p: T -> bool, f: T -> int)
    ensures SumWhere([x], p, f) == if p(x) then f(x) else 0
  {
    assert [x][1..] == [];
  }

  /** What the loop leaves over: whatever exceeds this week's open shortfall. */
  lemma {:induction false} AllocateLeftover(s: seq<LedgerEntry>, total: int, week: string)
    requires total > 0
    ensures Allocate(s, total, week).1 == Max(0, total - EligibleRemaining(s, week))
  {
    if s != [] {
      var init, last := s[..|s| - 1], s[|s| - 1];
      assert s == init + [last];
      AllocateLeftover(init, total, week);
      SumWhereAppend(init, [last], EligibleIn(week), Absorbable(week));
      SumWhereSingle(last, EligibleIn(week), Absorbable(week));
    }
  }

  function InWeek(week: string): LedgerEntry -> bool
  {
    (e: LedgerEntry) => e.weekStartLocal == week
  }

  function RemainingOf(e: LedgerEntry): int { e.remainingCount }

  function RecoveredOf(e: LedgerEntry): int { e.recoveredCount }

  function InitialOf(e: LedgerEntry): int { e.initialUnmetCount }

  /** Every repetition spent moves from the week's remaining total to its
      recovered total; what was owed originally does not change. */
  lemma {:induction false} AllocateSums(s: seq<LedgerEntry>, total: int, week: string)
    ensures var (after, left) := Allocate(s, total, week);
      SumWhere(after, InWeek(week), RecoveredOf) == SumWhere(s, InWeek(week), RecoveredOf) + (total - left) &&
      SumWhere(after, InWeek(week), RemainingOf) == SumWhere(s, InWeek(week), RemainingOf) - (total - left) &&
      SumWhere(after, InWeek(week), InitialOf) == SumWhere(s, InWeek(week), InitialOf)
  {
    if s != [] {
      var init, last := s[..|s| - 1], s[|s| - 1];
      assert s == init + [last];
      AllocateSums(init, total, week);
      var (done, left) := Allocate(init, total, week);
      var (e, left') := Draw(last, left, week);
      assert Allocate(s, total, week) == (done + [e], left');
      var fs: seq<LedgerEntry -> int> := [RecoveredOf, RemainingOf, InitialOf];
      forall f | f in fs
        ensures SumWhere(done + [e], InWeek(week), f) == SumWhere(done, InWeek(week), f) + SumWhere([e], InWeek(week), f)
        ensures SumWhere(s, InWeek(week), f) == SumWhere(init, InWeek(week), f) + SumWhere([last], InWeek(week), f)
      {
        SumWhereAppend(done, [e], InWeek(week), f);
        SumWhereAppend(init, [last], InWeek(week), f);
      }
      SumWhereSingle(e, InWeek(week), RecoveredOf);
      SumWhereSingle(last, InWeek(week), RecoveredOf);
      SumWhereSingle(e, InWeek(week), RemainingOf);
      SumWhereSingle(last, InWeek(week), RemainingOf);
      SumWhereSingle(e, InWeek(week), InitialOf);
      SumWhereSingle(last, InWeek(week), InitialOf);
    }
  }

  /** While something is left to spend, every eligible entry already visited has been closed. */
  lemma {:induction false} AllocateDrains(s: seq<LedgerEntry>, total: int, week: string)
    requires Allocate(s, total, week).1 > 0
    ensures forall i :: 0 <= i < |s| && Eligible(s[i], week) && s[i].remainingCount > 0 ==>
      Allocate(s, total, week).0[i].status == Closed
  {
    if s != [] {
      var init, last := s[..|s| - 1], s[|s| - 1];
      var (done, left) := Allocate(init, total, week);
      AllocateDrains(init, total, week);
      var r := Allocate(s, total, week);
      assert r.0 == done + [Draw(last, left, week).0];
      forall i | 0 <= i < |init| ensures r.0[i] == done[i] && s[i] == init[i] { }
    }
  }

  /** First in, first out: an entry is drawn on only after every earlier eligible
      entry has been closed. */
  lemma {:induction false} AllocateFifo(s: seq<LedgerEntry>, total: int, week: string)
    ensures var after := Allocate(s, total, week).0;
      forall i, j :: 0 <= i < j < |s| && Eligible(s[i], week) && s[i].remainingCount > 0 && after[j] != s[j] ==>
        after[i].status == Closed
  {
    if s != [] {
      var init, last := s[..|s| - 1], s[|s| - 1];
      var (done, left) := Allocate(init, total, week);
      AllocateFifo(init, total, week);
      var after := Allocate(s, total, week).0;
      assert after == done + [Draw(last, left, week).0];
      forall i, j | 0 <= i < j < |s| && Eligible(s[i], week) && s[i].remainingCount > 0 && after[j] != s[j]
        ensures after[i].status == Closed
      {
        assert s[i] == init[i] && after[i] == done[i];
        if j < |init| {
          assert s[j] == init[j] && after[j] == done[j];
        } else {
          assert left > 0;
          AllocateDrains(init, total, week);
        }
      }
    }
  }

  /** Allocation keeps every entry well formed. */
  lemma AllocateKeepsWellFormed(s: seq<LedgerEntry>, total: int, week: string)
    requires forall i :: 0 <= i < |s| ==> WellFormedEntry(s[i])
    ensures var after := Allocate(s, total, week).0;
      forall i :: 0 <= i < |after| ==> WellFormedEntry(after[i])
  {
    if s != [] {
      var init, last := s[..|s| - 1], s[|s| - 1];
      AllocateKeepsWellFormed(init, total, week);
      var (done, left) := Allocate(init, total, week);
      var after := Allocate(s, total, week).0;
      assert after == done + [Draw(last, left, week).0];
      forall i | 0 <= i < |after| ensures WellFormedEntry(after[i]) {
        if i < |init| { assert after[i] == done[i]; }
      }
    }
  }

  /** `applyRecoveryFromExercise(total)` on the ledger the sweep left: the new
      ledger, and whether it is written. */
  function Recover(ledger: seq<LedgerEntry>, total: int, now: Instant): (seq<LedgerEntry>, bool)
  {
    if total <= 0 then (ledger, false)
    else
      var ordered := SortAsc(ledger, GeneratedAt);
      var (after, left) := Allocate(ordered, total, WeekStartKey(now));
      if left < total then (Take(SortDesc(after, GeneratedAt), MaxRecords), true) else (ledger, false)
  }

  // ---------------------------------------------------------------------
  // Read-only aggregates

  datatype WeeklyStatus = WeeklyStatus(weekStartLocal: string, remainingCount: int, generatedCount: int, resolvedCount: int)

  /** `getWeeklyRecoveryStatus`: totals over the entries of the given week. */
  function Weekly(ledger: seq<LedgerEntry>, week: string): (r: WeeklyStatus)
    ensures r.weekStartLocal == week
    ensures r.remainingCount == SumWhere(ledger, InWeek(week), RemainingOf)
    ensures r.generatedCount == SumWhere(ledger, InWeek(week), InitialOf)
    ensures r.resolvedCount == SumWhere(ledger, InWeek(week), RecoveredOf)
  {
    var currentWeek := Filter(ledger, InWeek(week));
    FilterSum(ledger, InWeek(week), RemainingOf);
    FilterSum(ledger, InWeek(week), InitialOf);
    FilterSum(ledger, InWeek(week), RecoveredOf);
    WeeklyStatus(week,
      SumWhere(currentWeek, InWeek(week), RemainingOf),
      SumWhere(currentWeek, InWeek(week), InitialOf),
      SumWhere(currentWeek, InWeek(week), RecoveredOf))
  }

  /** The weekly totals do not depend on the order the entries are stored in. */
  lemma WeeklyOfSorted(ledger: seq<LedgerEntry>, week: string)
    ensures Weekly(SortAsc(ledger, GeneratedAt), week) == Weekly(ledger, week)
    ensures Weekly(SortDesc(ledger, GeneratedAt), week) == Weekly(ledger, week)
  {
    SortAscSum(ledger, GeneratedAt, InWeek(week), RemainingOf);
    SortAscSum(ledger, GeneratedAt, InWeek(week), InitialOf);
    SortAscSum(ledger, GeneratedAt, InWeek(week), RecoveredOf);
    SortDescSum(ledger, GeneratedAt, InWeek(week), RemainingOf);
    SortDescSum(ledger, GeneratedAt, InWeek(week), InitialOf);
    SortDescSum(ledger, GeneratedAt, InWeek(week), RecoveredOf);
  }

  /** While none of the week's entries has been reset, what was recovered and
      what remains add up to what was generated; over well-formed entries no
      total is negative. */
  lemma WeeklyBalance(ledger: seq<LedgerEntry>, week: string)
    requires forall i :: 0 <= i < |ledger| ==> WellFormedEntry(ledger[i])
    ensures Weekly(ledger, week).remainingCount >= 0 && Weekly(ledger, week).resolvedCount >= 0
    ensures (forall i :: 0 <= i < |ledger| && ledger[i].weekStartLocal == week ==> ledger[i].status != Reset) ==>
      Weekly(ledger, week).generatedCount == Weekly(ledger, week).resolvedCount + Weekly(ledger, week).remainingCount
  {
    SumWhereNonNegative(ledger, InWeek(week), RemainingOf);
    SumWhereNonNegative(ledger, InWeek(week), RecoveredOf);
    if forall i :: 0 <= i < |ledger| && ledger[i].weekStartLocal == week ==> ledger[i].status != Reset {
      BalanceSum(ledger, week);
    }
  }

  lemma {:induction false} BalanceSum(s: seq<LedgerEntry>, week: string)
    requires forall i :: 0 <= i < |s| ==> WellFormedEntry(s[i])
    requires forall i :: 0 <= i < |s| && s[i].weekStartLocal == week ==> s[i].status != Reset
    ensures SumWhere(s, InWeek(week), InitialOf) == SumWhere(s, InWeek(week), RecoveredOf) + SumWhere(s, InWeek(week), RemainingOf)
  {
    if s != [] {
      BalanceSum(s[1..], week);
    }
  }

  /** The amount the recovery loop spends: the smaller of the total and what
      this week's open entries still owe. */
  lemma RecoverSpends(ledger: seq<LedgerEntry>, total: int, week: string)
    requires total > 0
    ensures total - Allocate(SortAsc(ledger, GeneratedAt), total, week).1 == Min(total, EligibleRemaining(ledger, week))
  {
    var ordered := SortAsc(ledger, GeneratedAt);
    SortAscSum(ledger, GeneratedAt, EligibleIn(week), Absorbable(week));
    AllocateLeftover(ordered, total, week);
    SumWhereNonNegative(ordered, EligibleIn(week), Absorbable(week));
  }

  lemma RecoverStores(ledger: seq<LedgerEntry>, total: int, now: Instant)
    requires |ledger| <= MaxRecords && total > 0
    ensures var r := Allocate(SortAsc(ledger, GeneratedAt), total, WeekStartKey(now));
      Recover(ledger, total, now).0 == if r.1 < total then SortDesc(r.0, GeneratedAt) else ledger
  {
    var r := Allocate(SortAsc(ledger, GeneratedAt), total, WeekStartKey(now));
    SortAscLength(ledger, GeneratedAt);
    SortDescLength(r.0, GeneratedAt);
  }

  /** Spending on a ledger that fits the cap lowers the week's remaining total
      and raises its recovered total by exactly the amount spent, the smaller of
      the total and what the week's open entries still owe. */
  lemma WeeklyAfterRecover(ledger: seq<LedgerEntry>, total: int, now: Instant)
    requires |ledger| <= MaxRecords && total > 0
    ensures var week := WeekStartKey(now);
      var before := Weekly(ledger, week);
      var after := Weekly(Recover(ledger, total, now).0, week);
      var spent := Min(total, EligibleRemaining(ledger, week));
      after.remainingCount == before.remainingCount - spent &&
      after.resolvedCount == before.resolvedCount + spent &&
      after.generatedCount == before.generatedCount
  {
    var week := WeekStartKey(now);
    var ordered := SortAsc(ledger, GeneratedAt);
    var r := Allocate(ordered, total, week);
    RecoverSpends(ledger, total, week);
    RecoverStores(ledger, total, now);
    AllocateSums(ordered, total, week);
    WeeklyOfSorted(ledger, week);
    WeeklyOfSorted(r.0, week);
  }

  predicate IsOpenOn(o: Obligation, key: string)
  {
    o.dueLocalDate == key && o.status == Open
  }

  function OpenOn(key: string): Obligation -> bool
  {
    (o: Obligation) => IsOpenOn(o, key)
  }

  function ShortfallOf(o: Obligation): int { Shortfall(o) }

  datatype TodayStatus = TodayStatus(dateKey: string, openObligationCount: int, remainingCount: int)

  /** `getTodayObligationStatus`: how many of the day's obligations are open and what they still owe. */
  function Today(obs: seq<Obligation>, key: string): (r: TodayStatus)
    ensures r.dateKey == key && 0 <= r.openObligationCount <= |obs| && r.remainingCount >= 0
    ensures r.openObligationCount == 0 ==> r.remainingCount == 0
    ensures r.openObligationCount == |Passing(obs, OpenOn(key))|
    ensures r.remainingCount == SumWhere(obs, OpenOn(key), ShortfallOf)
  {
    var todayOpen := Filter(obs, OpenOn(key));
    SumWhereNonNegative(todayOpen, OpenOn(key), ShortfallOf);
    FilterSum(obs, OpenOn(key), ShortfallOf);
    FilterCount(obs, OpenOn(key));
    if todayOpen == [] then TodayStatus(key, 0, 0)
    else TodayStatus(key, |todayOpen|, SumWhere(todayOpen, OpenOn(key), ShortfallOf))
  }

  datatype PendingObligation = PendingObligation(obligation: Obligation, remainingCount: int)

  function Pending(o: Obligation): PendingObligation
  {
    PendingObligation(o, Shortfall(o))
  }

  function Annotate(obs: seq<Obligation>): (r: seq<PendingObligation>)
    ensures |r| == |obs| && forall i :: 0 <= i < |obs| ==> r[i] == Pending(obs[i])
  {
    seq(|obs|, i requires 0 <= i < |obs| => Pending(obs[i]))
  }

  predicate IsPending(p: PendingObligation) { p.remainingCount > 0 }

  function PendingCreatedAt(p: PendingObligation): int { p.obligation.createdAt }

  function PendingRemaining(p: PendingObligation): int { p.remainingCount }

  /** `getTodayOpenObligations`: the day's open obligations that still owe
      something, with what they owe, oldest first. */
  function TodayOpenList(obs: seq<Obligation>, key: string): (r: seq<PendingObligation>)
    ensures SortedAsc(r, PendingCreatedAt)
  {
    SortAsc(Filter(Annotate(Filter(obs, OpenOn(key))), IsPending), PendingCreatedAt)
  }

  lemma AnnotateMembers(obs: seq<Obligation>)
    ensures forall x :: x in Annotate(obs) <==> x == Pending(x.obligation) && x.obligation in obs
  {
    var annotated := Annotate(obs);
    forall x
      ensures x in annotated <==> x == Pending(x.obligation) && x.obligation in obs
    {
      if x in annotated {
        var i :| 0 <= i < |annotated| && annotated[i] == x;
      }
      if x == Pending(x.obligation) && x.obligation in obs {
        var i :| 0 <= i < |obs| && obs[i] == x.obligation;
        assert annotated[i] == x;
      }
    }
  }

  /** The list holds exactly the day's open obligations that still owe something. */
  lemma TodayOpenListMembers(obs: seq<Obligation>, key: string)
    ensures forall x :: x in TodayOpenList(obs, key) <==>
      (x.remainingCount > 0 && x == Pending(x.obligation) && x.obligation in obs && IsOpenOn(x.obligation, key))
  {
    var todayOpen := Filter(obs, OpenOn(key));
    var annotated := Annotate(todayOpen);
    var pending := Filter(annotated, IsPending);
    FilterMembers(obs, OpenOn(key));
    AnnotateMembers(todayOpen);
    FilterMembers(annotated, IsPending);
    var r := SortAsc(pending, PendingCreatedAt);
    assert forall x :: x in r <==> x in multiset(pending);
  }

  /** Over obligations all due on `key` and still open, the annotated pending
      entries owe in total what the obligations fall short. */
  lemma {:induction false} AnnotateSum(obs: seq<Obligation>, key: string)
    requires forall i :: 0 <= i < |obs| ==> IsOpenOn(obs[i], key)
    ensures SumWhere(Annotate(obs), IsPending, PendingRemaining) == SumWhere(obs, OpenOn(key), ShortfallOf)
  {
    if obs != [] {
      assert Annotate(obs)[1..] == Annotate(obs[1..]);
      assert forall i :: 0 <= i < |obs[1..]| ==> IsOpenOn(obs[1..][i], key) by {
        forall i | 0 <= i < |obs[1..]| ensures IsOpenOn(obs[1..][i], key) {
          assert obs[1..][i] == obs[i + 1];
        }
      }
      AnnotateSum(obs[1..], key);
      assert IsOpenOn(obs[0], key);
    }
  }

  /** The list and the status agree: the list owes in total what the status
      reports, and it holds at most the reported number of open obligations. */
  lemma TodayListMatchesStatus(obs: seq<Obligation>, key: string)
    ensures SumWhere(TodayOpenList(obs, key), IsPending, PendingRemaining) == Today(obs, key).remainingCount
    ensures |TodayOpenList(obs, key)| <= Today(obs, key).openObligationCount
  {
    var todayOpen := Filter(obs, OpenOn(key));
    var annotated := Annotate(todayOpen);
    var pending := Filter(annotated, IsPending);
    FilterMembers(obs, OpenOn(key));
    assert forall i :: 0 <= i < |todayOpen| ==> IsOpenOn(todayOpen[i], key) by {
      forall i | 0 <= i < |todayOpen| ensures IsOpenOn(todayOpen[i], key) {
        assert todayOpen[i] in todayOpen;
      }
    }
    AnnotateSum(todayOpen, key);
    FilterSum(annotated, IsPending, PendingRemaining);
    SortAscSum(pending, PendingCreatedAt, IsPending, PendingRemaining);
    SortAscLength(pending, PendingCreatedAt);
    if todayOpen == [] {
      assert pending == [];
    }
  }

  /** One more entry visited by the recovery loop. */
  lemma AllocateStep(s: seq<LedgerEntry>, i: nat, total: int, week: string)
    requires i < |s|
    ensures var a := Allocate(s[..i], total, week);
      Allocate(s[..i + 1], total, week) == (a.0 + [Draw(s[i], a.1, week).0], Draw(s[i], a.1, week).1)
  {
    assert s[..i + 1][..i] == s[..i];
  }

  /** Once nothing is left to spend, the rest of the entries pass through unchanged
      (the loop's `break`). */
  lemma {:induction false} AllocateRest(s: seq<LedgerEntry>, i: nat, total: int, week: string)
    requires i <= |s| && Allocate(s[..i], total, week).1 <= 0
    ensures Allocate(s, total, week) == (Allocate(s[..i], total, week).0 + s[i..], Allocate(s[..i], total, week).1)
  {
    if i < |s| {
      var init, last := s[..|s| - 1], s[|s| - 1];
      assert init[..i] == s[..i];
      AllocateRest(init, i, total, week);
      var a := Allocate(s[..i], total, week);
      assert Allocate(init, total, week) == (a.0 + init[i..], a.1);
      assert Draw(last, a.1, week) == (last, a.1);
      assert Allocate(s, total, week) == (a.0 + init[i..] + [last], a.1);
      assert s[i..] == init[i..] + [last];
      assert a.0 + init[i..] + [last] == a.0 + s[i..];
    } else {
      assert s[..i] == s;
      assert s[i..] == [];
      assert Allocate(s[..i], total, week).0 + s[i..] == Allocate(s[..i], total, week).0;
    }
  }
}
