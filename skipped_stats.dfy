/** The calories saved by skipping meals, counted for the current day, the
    current week (starting on Sunday) and the current month. The counters are
    kept in one stored record with the instant of its last update; reading it
    zeroes every counter whose period has passed since. */
module SkippedStats {
  import opened Util
  import opened Calendar
  import opened Records

  /** The stored record. `lastUpdated` is `None` when its timestamp does not
      parse to a date. */
  datatype SkippedStats = SkippedStats(today: int, thisWeek: int, thisMonth: int, lastUpdated: Option<Instant>)

  /** `isSameDay`: the same year, month and day of the month. */
  predicate SameDay(a: Instant, b: Instant)
  {
    var da, db := DateOfDay(DayOf(a)), DateOfDay(DayOf(b));
    da.year == db.year && da.month == db.month && da.day == db.day
  }

  /** `isSameWeek`: the same Sunday starts both weeks. */
  predicate SameWeek(a: Instant, b: Instant)
  {
    SundayOnOrBefore(DayOf(a)) == SundayOnOrBefore(DayOf(b))
  }

  /** `isSameMonth`: the same year and month. */
  predicate SameMonth(a: Instant, b: Instant)
  {
    var da, db := DateOfDay(DayOf(a)), DateOfDay(DayOf(b));
    da.year == db.year && da.month == db.month
  }

  /** The three comparisons with an unparsable date, which is the same as
      nothing (`NaN` equals nothing). */
  predicate SameDayAs(last: Option<Instant>, now: Instant)
  {
    last.Some? && SameDay(last.value, now)
  }

  predicate SameWeekAs(last: Option<Instant>, now: Instant)
  {
    last.Some? && SameWeek(last.value, now)
  }

  predicate SameMonthAs(last: Option<Instant>, now: Instant)
  {
    last.Some? && SameMonth(last.value, now)
  }

  /** Two instants are on the same calendar date exactly when they are on the
      same day; a same day is then in the same week and the same month. */
  lemma SameDayFacts(a: Instant, b: Instant)
    ensures SameDay(a, b) <==> DayOf(a) == DayOf(b)
    ensures SameDay(a, b) ==> SameWeek(a, b) && SameMonth(a, b)
  {
    var da, db := DateOfDay(DayOf(a)), DateOfDay(DayOf(b));
    if SameDay(a, b) {
      assert da == db;
      assert DayOf(a) == DayNumber(da) == DayNumber(db) == DayOf(b);
    }
  }

  /** A week holds at most seven days, and on a Sunday a new one begins. */
  lemma WeekFacts(a: Instant, b: Instant)
    ensures SameWeek(a, b) ==> -7 < DayOf(a) - DayOf(b) < 7
    ensures DayOf(a) < DayOf(b) && Weekday(DayOf(b)) == 0 ==> !SameWeek(a, b)
  {
  }

  /** `getSkippedStats` on a parsed record: each counter is zeroed when its
      period differs from that of the last update; the timestamp is kept. */
  function Refresh(stats: SkippedStats, now: Instant): (r: SkippedStats)
    ensures r.lastUpdated == stats.lastUpdated
    ensures r.today == if SameDayAs(stats.lastUpdated, now) then stats.today else 0
    ensures r.thisWeek == if SameWeekAs(stats.lastUpdated, now) then stats.thisWeek else 0
    ensures r.thisMonth == if SameMonthAs(stats.lastUpdated, now) then stats.thisMonth else 0
  {
    var t := if !SameDayAs(stats.lastUpdated, now) then 0 else stats.today;
    var w := if !SameWeekAs(stats.lastUpdated, now) then 0 else stats.thisWeek;
    var m := if !SameMonthAs(stats.lastUpdated, now) then 0 else stats.thisMonth;
    SkippedStats(t, w, m, stats.lastUpdated)
  }

  /** A record whose timestamp does not parse has every counter zeroed. */
  lemma RefreshUnparsable(stats: SkippedStats, now: Instant)
    requires stats.lastUpdated == None
    ensures var r := Refresh(stats, now); r.today == 0 && r.thisWeek == 0 && r.thisMonth == 0
  {
  }

  /** What `getSkippedStats` returns: the defaults, stamped with the instant
      the module was loaded, when nothing readable is stored. */
  function Read(slot: Slot<SkippedStats>, now: Instant, loadTime: Instant): (r: SkippedStats)
    ensures slot.Holds? ==> r == Refresh(slot.value, now)
    ensures !slot.Holds? ==> r == SkippedStats(0, 0, 0, Some(loadTime))
  {
    if slot.Holds? then Refresh(slot.value, now) else SkippedStats(0, 0, 0, Some(loadTime))
  }

  /** `updateSkippedStats(calories)` on the record read: the calories added to
      every counter, stamped now. */
  function Update(current: SkippedStats, calories: int, now: Instant): (r: SkippedStats)
    ensures r.today - current.today == r.thisWeek - current.thisWeek == r.thisMonth - current.thisMonth == calories
    ensures r.lastUpdated == Some(now)
  {
    SkippedStats(current.today + calories, current.thisWeek + calories, current.thisMonth + calories, Some(now))
  }

  /** Counters as they should stand: none negative, and the day's total within
      the week's and the month's. */
  predicate Ordered(s: SkippedStats)
  {
    0 <= s.today <= s.thisWeek && s.today <= s.thisMonth
  }

  /** Reading keeps the counters ordered: a day kept means its week and month
      are kept as well, and zeroing a counter cannot break the order. */
  lemma RefreshOrdered(stats: SkippedStats, now: Instant)
    requires Ordered(stats)
    ensures Ordered(Refresh(stats, now))
  {
    if stats.lastUpdated.Some? {
      SameDayFacts(stats.lastUpdated.value, now);
    }
  }

  /** Saving a non-negative number of calories keeps the counters ordered. */
  lemma UpdateOrdered(current: SkippedStats, calories: int, now: Instant)
    requires Ordered(current) && calories >= 0
    ensures Ordered(Update(current, calories, now))
  {
  }

  /** Reading back at the same instant what an update wrote gives its counters
      unchanged: nothing that was just stamped is stale. */
  lemma ReadAfterUpdate(current: SkippedStats, calories: int, now: Instant, loadTime: Instant)
    ensures Read(Holds(Update(current, calories, now)), now, loadTime) == Update(current, calories, now)
  {
    SameDayFacts(now, now);
  }

  /** Reading on a later day zeroes the day's counter, whatever was stored. */
  lemma ReadLaterDay(stats: SkippedStats, now: Instant, loadTime: Instant)
    requires stats.lastUpdated.Some? && DayOf(stats.lastUpdated.value) != DayOf(now)
    ensures Read(Holds(stats), now, loadTime).today == 0
  {
    SameDayFacts(stats.lastUpdated.value, now);
  }

  /** The stored record and the writes made to it. */
  class SkippedStatsStore {
    /** What `@CheerChoice:skippedStats` holds, parsed. */
    var slot: Slot<SkippedStats>
    /** Every record written, oldest first. */
    var written: seq<SkippedStats>
    /** The instant the module was loaded; the defaults carry it. */
    const loadTime: Instant

    constructor(stored: Slot<SkippedStats>, loadTime: Instant)
      ensures slot == stored && written == [] && this.loadTime == loadTime
    {
      slot := stored;
      written := [];
      this.loadTime := loadTime;
    }

    /** `getSkippedStats` at instant `now`; it never writes. */
    method GetSkippedStats(now: Instant) returns (stats: SkippedStats)
      ensures stats == Read(slot, now, loadTime)
    {
      if !slot.Holds? {
        return SkippedStats(0, 0, 0, Some(loadTime));
      }
      stats := slot.value;
      var last := stats.lastUpdated;
      if !SameDayAs(last, now) {
        stats := stats.(today := 0);
      }
      if !SameWeekAs(last, now) {
        stats := stats.(thisWeek := 0);
      }
      if !SameMonthAs(last, now) {
        stats := stats.(thisMonth := 0);
      }
    }

    /** `updateSkippedStats(calories)` at instant `now`. */
    method UpdateSkippedStats(calories: int, now: Instant) returns (updated: SkippedStats)
      modifies this
      ensures updated == Update(Read(old(slot), now, loadTime), calories, now)
      ensures slot == Holds(updated) && written == old(written) + [updated]
    {
      var current := GetSkippedStats(now);
      updated := SkippedStats(current.today + calories, current.thisWeek + calories, current.thisMonth + calories, Some(now));
      slot := Holds(updated);
      written := written + [updated];
    }

    /** `resetSkippedStats`: the key is removed. */
    method ResetSkippedStats()
      modifies this
      ensures slot == Missing && written == old(written)
    {
      slot := Missing;
    }
  }
}
