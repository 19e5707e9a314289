/** The statistics screen: over the last seven days or the month so far, the
    calories saved per day by skipped meals, the ate/skipped counts, and a
    summary of the exercise sessions. Days are local day numbers; `today` is
    the day of the clock reading. */
module Stats {
  import opened Util
  import opened Calendar
  import opened Records
  import opened Seqs

  datatype Period = Week | Month

  datatype DailyCalories = DailyCalories(dateKey: string, calories: int)
  datatype ChoiceRatio = ChoiceRatio(ateCount: int, skippedCount: int, total: int)
  datatype ByType = ByType(squat: int, situp: int, pushup: int)
  datatype ExerciseSummary = ExerciseSummary(byType: ByType, totalReps: int, totalCaloriesBurned: int, totalSessions: int)
  datatype StatsData = StatsData(
    dailyCalories: seq<DailyCalories>,
    totalSavedCalories: int,
    choiceRatio: ChoiceRatio,
    exerciseSummary: ExerciseSummary)

  // ---------------------------------------------------------------------
  // The range of days

  /** `new Date(year, month, 1)`: the first day of day n's month. */
  function MonthStart(n: nat): (r: nat)
    ensures r <= n && n - r == DateOfDay(n).day - 1
  {
    var d := DateOfDay(n);
    DayNumber(Date(d.year, d.month, 1))
  }

  /** `count` consecutive day numbers from `from`. */
  function Days(from: nat, count: nat): (r: seq<nat>)
    ensures |r| == count && forall k :: 0 <= k < count ==> r[k] == from + k
  {
    seq(count, (k: int) requires 0 <= k < count => (from + k) as nat)
  }

  lemma DaysNext(from: nat, count: nat)
    ensures Days(from, count + 1) == Days(from, count) + [from + count]
  {
  }

  /** The days `getRangeDates` lists: the seven days ending today for a week,
      the first of the month through today for a month. A week needs six
      days before today, which every day from 0001-01-07 on has. */
  function RangeDays(period: Period, today: nat): (r: seq<nat>)
    requires period == Week ==> today >= 6
    ensures |r| >= 1 && r[|r| - 1] == today
  {
    if period == Week then Days(today - 6, 7)
    else Days(MonthStart(today), today - MonthStart(today) + 1)
  }

  /** The range is consecutive and ends today; a week has seven days and a
      month lists every date of the current month up to today's, from the 1st. */
  lemma RangeFacts(period: Period, today: nat)
    requires period == Week ==> today >= 6
    ensures var r := RangeDays(period, today);
      (forall k :: 0 <= k < |r| ==> r[k] == r[0] + k) &&
      (period == Week ==> |r| == 7) &&
      (period == Month ==> (|r| == DateOfDay(today).day &&
        forall k :: 0 <= k < |r| ==> DateOfDay(r[k]) == DateOfDay(today).(day := k + 1)))
  {
    if period == Month {
      var r := RangeDays(period, today);
      var d := DateOfDay(today);
      var ms := MonthStart(today);
      DateRoundTrip(Date(d.year, d.month, 1));
      forall k | 0 <= k < |r|
        ensures DateOfDay(r[k]) == d.(day := k + 1)
      {
        DaysWithinMonth(ms, k);
      }
    }
  }

  /** `getRangeDates`, for today's day number. */
  method GetRangeDates(period: Period, today: nat) returns (dates: seq<nat>)
    requires period == Week ==> today >= 6
    ensures dates == RangeDays(period, today)
  {
    dates := [];
    if period == Week {
      var i := 6;
      while i >= 0
        invariant -1 <= i <= 6
        invariant dates == Days(today - 6, 6 - i)
        decreases i + 1
      {
        DaysNext(today - 6, 6 - i);
        dates := dates + [today - i];
        i := i - 1;
      }
    } else {
      var monthStart := MonthStart(today);
      var date: nat := monthStart;
      // The source compares the two midnights; one day number per midnight.
      while date <= today
        invariant monthStart <= date <= today + 1
        invariant dates == Days(monthStart, date - monthStart)
        decreases today + 1 - date
      {
        DaysNext(monthStart, date - monthStart);
        dates := dates + [date];
        date := date + 1;
      }
    }
  }

  /** `isInRange`. */
  predicate InRange(t: Instant, start: int, end: int)
  {
    start <= t <= end
  }

  /** From the first millisecond of day `first` to the last of day `last` are
      exactly the instants on the days from `first` to `last`. */
  lemma InRangeDays(t: Instant, first: nat, last: nat)
    ensures InRange(t, StartOfDayNumber(first), StartOfDayNumber(last) + DayMs - 1) <==> first <= DayOf(t) <= last
  {
    var q := t / DayMs;
    assert t == q * DayMs + t % DayMs && 0 <= t % DayMs < DayMs;
  }

  // ---------------------------------------------------------------------
  // The statistics, as functions of the records

  function MealIn(start: int, end: int): MealRecord -> bool
  {
    (m: MealRecord) => InRange(m.timestamp, start, end)
  }

  function ExerciseIn(start: int, end: int): ExerciseRecord -> bool
  {
    (e: ExerciseRecord) => InRange(e.timestamp, start, end)
  }

  predicate IsSkipped(m: MealRecord) { m.choice == Skipped }
  predicate IsAte(m: MealRecord) { m.choice == Ate }
  predicate IsOther(m: MealRecord) { m.choice.OtherChoice? }
  predicate NotAte(m: MealRecord) { m.choice != Ate }
  predicate AnyMeal(m: MealRecord) { true }
  function Calories(m: MealRecord): int { m.estimatedCalories }

  function OfType(t: ExerciseType): ExerciseRecord -> bool
  {
    (e: ExerciseRecord) => e.exerciseType == t
  }

  predicate NotSquat(e: ExerciseRecord) { e.exerciseType != Squat }
  predicate AnyExercise(e: ExerciseRecord) { true }
  function Reps(e: ExerciseRecord): int { e.count }
  function Burned(e: ExerciseRecord): int { e.caloriesBurned }

  /** `getDateKey(new Date(meal.timestamp))`. */
  function MealKey(m: MealRecord): string
  {
    DayKey(DayOf(m.timestamp))
  }

  function OnKey(k: string): MealRecord -> bool
  {
    (m: MealRecord) => MealKey(m) == k
  }

  function KeyIn(keys: seq<string>): MealRecord -> bool
  {
    (m: MealRecord) => MealKey(m) in keys
  }

  function DayKeys(days: seq<nat>): (keys: seq<string>)
    ensures |keys| == |days| && forall i :: 0 <= i < |days| ==> keys[i] == DayKey(days[i])
  {
    seq(|days|, (i: int) requires 0 <= i < |days| => DayKey(days[i]))
  }

  /** One entry per key: the calories of the skipped meals whose day has that key. */
  function DailyOf(keys: seq<string>, skipped: seq<MealRecord>): (r: seq<DailyCalories>)
    ensures |r| == |keys|
    ensures forall i :: 0 <= i < |keys| ==> r[i] == DailyCalories(keys[i], SumWhere(skipped, OnKey(keys[i]), Calories))
  {
    if keys == [] then []
    else [DailyCalories(keys[0], SumWhere(skipped, OnKey(keys[0]), Calories))] + DailyOf(keys[1..], skipped)
  }

  /** A sequence of the per-type session counts. */
  function CountTypes(exercises: seq<ExerciseRecord>): ByType
  {
    ByType(|Filter(exercises, OfType(Squat))|, |Filter(exercises, OfType(Situp))|, |Filter(exercises, OfType(Pushup))|)
  }

  /** The first millisecond of the range's first day. */
  function RangeStart(dates: seq<nat>): int
    requires |dates| > 0
  {
    StartOfDayNumber(dates[0])
  }

  /** The last millisecond of the range's last day (`setHours(23, 59, 59, 999)`). */
  function RangeEnd(dates: seq<nat>): int
    requires |dates| > 0
  {
    StartOfDayNumber(dates[|dates| - 1]) + DayMs - 1
  }

  function MealsIn(meals: seq<MealRecord>, dates: seq<nat>): seq<MealRecord>
    requires |dates| > 0
  {
    Filter(meals, MealIn(RangeStart(dates), RangeEnd(dates)))
  }

  function ExercisesIn(exercises: seq<ExerciseRecord>, dates: seq<nat>): seq<ExerciseRecord>
    requires |dates| > 0
  {
    Filter(exercises, ExerciseIn(RangeStart(dates), RangeEnd(dates)))
  }

  /** `choiceRatio`, for the meals in the range. */
  function ChoiceRatioOf(inMeals: seq<MealRecord>): ChoiceRatio
  {
    ChoiceRatio(|Filter(inMeals, IsAte)|, |Filter(inMeals, IsSkipped)|, |inMeals|)
  }

  /** `exerciseSummary`, for the sessions in the range. */
  function SummaryOf(inExercises: seq<ExerciseRecord>): ExerciseSummary
  {
    ExerciseSummary(CountTypes(inExercises), SumWhere(inExercises, AnyExercise, Reps),
      SumWhere(inExercises, AnyExercise, Burned), |inExercises|)
  }

  /** `calculateStats`: the records whose instant lies in the range, the daily
      bars of the skipped meals, their total, the choice counts and the
      exercise summary. */
  function Stats(meals: seq<MealRecord>, exercises: seq<ExerciseRecord>, period: Period, today: nat): StatsData
    requires period == Week ==> today >= 6
  {
    var dates := RangeDays(period, today);
    var inMeals := MealsIn(meals, dates);
    var skipped := Filter(inMeals, IsSkipped);
    StatsData(
      DailyOf(DayKeys(dates), skipped),
      SumWhere(skipped, AnyMeal, Calories),
      ChoiceRatioOf(inMeals),
      SummaryOf(ExercisesIn(exercises, dates)))
  }

  // ---------------------------------------------------------------------
  // The computation, as the source does it

  /** The `dailyMap` of `calculateStats`: every key starts at 0 and each
      skipped meal whose key is present adds its calories. */
  method DailyTotals(keys: seq<string>, skipped: seq<MealRecord>) returns (m: map<string, int>)
    ensures forall k :: k in m <==> k in keys
    ensures forall k :: k in m ==> m[k] == SumWhere(skipped, OnKey(k), Calories)
  {
    m := map[];
    var i := 0;
    while i < |keys|
      invariant 0 <= i <= |keys|
      invariant forall k :: k in m <==> k in keys[..i]
      invariant forall k :: k in m ==> m[k] == 0
    {
      assert keys[..i + 1] == keys[..i] + [keys[i]];
      m := m[keys[i] := 0];
      i := i + 1;
    }
    assert keys[..i] == keys;
    i := 0;
    while i < |skipped|
      invariant 0 <= i <= |skipped|
      invariant forall k :: k in m <==> k in keys
      invariant forall k :: k in m ==> m[k] == SumWhere(skipped[..i], OnKey(k), Calories)
    {
      m := AddMeal(m, skipped, i);
      i := i + 1;
    }
    assert skipped[..i] == skipped;
  }

  /** One step of the `dailyMap` loop. */
  method AddMeal(m: map<string, int>, skipped: seq<MealRecord>, i: nat) returns (m': map<string, int>)
    requires i < |skipped|
    requires forall k :: k in m ==> m[k] == SumWhere(skipped[..i], OnKey(k), Calories)
    ensures forall k :: k in m' <==> k in m
    ensures forall k :: k in m' ==> m'[k] == SumWhere(skipped[..i + 1], OnKey(k), Calories)
  {
    forall k | k in m
      ensures SumWhere(skipped[..i + 1], OnKey(k), Calories) ==
        SumWhere(skipped[..i], OnKey(k), Calories) + (if MealKey(skipped[i]) == k then skipped[i].estimatedCalories else 0)
    {
      SumWhereSnoc(skipped, i, OnKey(k), Calories);
    }
    var meal := skipped[i];
    var dateKey := MealKey(meal);
    if dateKey !in m {
      return m;
    }
    m' := m[dateKey := m[dateKey] + meal.estimatedCalories];
  }

  /** The `byType` counts of `calculateStats`. */
  method CountByType(exercises: seq<ExerciseRecord>) returns (b: ByType)
    ensures b == CountTypes(exercises)
  {
    b := ByType(0, 0, 0);
    var i := 0;
    while i < |exercises|
      invariant 0 <= i <= |exercises|
      invariant b == CountTypes(exercises[..i])
    {
      var e := exercises[i];
      CountTypesSnoc(exercises, i);
      match e.exerciseType {
        case Squat => b := b.(squat := b.squat + 1);
        case Situp => b := b.(situp := b.situp + 1);
        case Pushup => b := b.(pushup := b.pushup + 1);
      }
      i := i + 1;
    }
    assert exercises[..i] == exercises;
  }

  lemma CountTypesSnoc(exercises: seq<ExerciseRecord>, i: nat)
    requires i < |exercises|
    ensures var b := CountTypes(exercises[..i]); var t := exercises[i].exerciseType;
      CountTypes(exercises[..i + 1]) ==
        ByType(b.squat + (if t == Squat then 1 else 0), b.situp + (if t == Situp then 1 else 0), b.pushup + (if t == Pushup then 1 else 0))
  {
    FilterSnoc(exercises, i, OfType(Squat));
    FilterSnoc(exercises, i, OfType(Situp));
    FilterSnoc(exercises, i, OfType(Pushup));
  }

  /** The `dailyCalories` of `calculateStats`: one entry per listed day, read
      from the map. */
  method BuildDaily(keys: seq<string>, dailyMap: map<string, int>, skipped: seq<MealRecord>) returns (daily: seq<DailyCalories>)
    requires forall k :: k in dailyMap <==> k in keys
    requires forall k :: k in dailyMap ==> dailyMap[k] == SumWhere(skipped, OnKey(k), Calories)
    ensures daily == DailyOf(keys, skipped)
  {
    daily := seq(|keys|, (i: int) requires 0 <= i < |keys| && keys[i] in dailyMap =>
      DailyCalories(keys[i], dailyMap[keys[i]]));
    assert forall i :: 0 <= i < |keys| ==> daily[i] == DailyOf(keys, skipped)[i];
  }

  /** `calculateStats(meals, exercises, period)` on day `today`. */
  method CalculateStats(meals: seq<MealRecord>, exercises: seq<ExerciseRecord>, period: Period, today: nat)
    returns (r: StatsData)
    requires period == Week ==> today >= 6
    ensures r == Stats(meals, exercises, period, today)
  {
    var dates := GetRangeDates(period, today);
    var rangeStart := StartOfDayNumber(dates[0]);
    var rangeEnd := StartOfDayNumber(dates[|dates| - 1]) + DayMs - 1;
    var filteredMeals := Filter(meals, MealIn(rangeStart, rangeEnd));
    var filteredExercises := Filter(exercises, ExerciseIn(rangeStart, rangeEnd));
    assert filteredMeals == MealsIn(meals, dates) && filteredExercises == ExercisesIn(exercises, dates);
    var skippedMeals := Filter(filteredMeals, IsSkipped);
    var totalSavedCalories := SumWhere(skippedMeals, AnyMeal, Calories);
    var keys := DayKeys(dates);
    var dailyMap := DailyTotals(keys, skippedMeals);
    var dailyCalories := BuildDaily(keys, dailyMap, skippedMeals);
    var ateCount := |Filter(filteredMeals, IsAte)|;
    var choiceRatio := ChoiceRatio(ateCount, |skippedMeals|, |filteredMeals|);
    var byType := CountByType(filteredExercises);
    var totalReps := SumWhere(filteredExercises, AnyExercise, Reps);
    var totalCaloriesBurned := SumWhere(filteredExercises, AnyExercise, Burned);
    var exerciseSummary := ExerciseSummary(byType, totalReps, totalCaloriesBurned, |filteredExercises|);
    assert exerciseSummary == SummaryOf(ExercisesIn(exercises, dates));
    assert choiceRatio == ChoiceRatioOf(MealsIn(meals, dates));
    r := StatsData(dailyCalories, totalSavedCalories, choiceRatio, exerciseSummary);
  }

  // ---------------------------------------------------------------------
  // What the statistics promise

  function SumDaily(ds: seq<DailyCalories>): int
  {
    if ds == [] then 0 else ds[0].calories + SumDaily(ds[1..])
  }

  /** For distinct keys, the per-key sums add up to the sum over the meals
      whose key is one of them. */
  lemma {:induction false} DailyOfSum(keys: seq<string>, skipped: seq<MealRecord>)
    requires forall i, j :: 0 <= i < j < |keys| ==> keys[i] != keys[j]
    ensures SumDaily(DailyOf(keys, skipped)) == SumWhere(skipped, KeyIn(keys), Calories)
  {
    if keys != [] {
      DailyOfSum(keys[1..], skipped);
      HeadNotInTail(keys);
      assert DailyOf(keys, skipped)[1..] == DailyOf(keys[1..], skipped);
      forall i | 0 <= i < |skipped|
        ensures (KeyIn(keys)(skipped[i]) <==> OnKey(keys[0])(skipped[i]) || KeyIn(keys[1..])(skipped[i]))
        ensures !(OnKey(keys[0])(skipped[i]) && KeyIn(keys[1..])(skipped[i]))
      {
        assert keys == [keys[0]] + keys[1..];
      }
      SumWhereSplit(skipped, KeyIn(keys), OnKey(keys[0]), KeyIn(keys[1..]), Calories);
    } else {
      SumWhereNone(skipped, KeyIn(keys), Calories);
    }
  }

  lemma HeadNotInTail(keys: seq<string>)
    requires |keys| > 0 && forall i, j :: 0 <= i < j < |keys| ==> keys[i] != keys[j]
    ensures keys[0] !in keys[1..]
  {
    forall j | 0 <= j < |keys| - 1
      ensures keys[1..][j] != keys[0]
    {
      assert keys[1..][j] == keys[j + 1];
    }
  }

  /** Every skipped meal kept by a range of consecutive days has the key of
      one of the range's days, so summing over those keys is summing over all. */
  lemma SkippedKeysInRange(meals: seq<MealRecord>, dates: seq<nat>)
    requires |dates| > 0 && forall k :: 0 <= k < |dates| ==> dates[k] == dates[0] + k
    ensures var skipped := Filter(MealsIn(meals, dates), IsSkipped);
      SumWhere(skipped, KeyIn(DayKeys(dates)), Calories) == SumWhere(skipped, AnyMeal, Calories)
  {
    var inMeals := MealsIn(meals, dates);
    var skipped := Filter(inMeals, IsSkipped);
    FilterMembers(meals, MealIn(RangeStart(dates), RangeEnd(dates)));
    FilterMembers(inMeals, IsSkipped);
    var keys := DayKeys(dates);
    forall i | 0 <= i < |skipped|
      ensures MealKey(skipped[i]) in keys
    {
      var m := skipped[i];
      assert m in skipped;
      assert m in inMeals;
      InRangeDays(m.timestamp, dates[0], dates[|dates| - 1]);
      var k := DayOf(m.timestamp) - dates[0];
      assert dates[k] == DayOf(m.timestamp);
      assert keys[k] == MealKey(m);
    }
    SumWhereSamePred(skipped, KeyIn(keys), AnyMeal, Calories);
  }

  /** Days with four-digit years in increasing order have distinct keys. */
  lemma KeysDistinct(dates: seq<nat>)
    requires forall k :: 0 <= k < |dates| ==> FourDigitYear(dates[k])
    requires forall i, j :: 0 <= i < j < |dates| ==> dates[i] < dates[j]
    ensures var keys := DayKeys(dates); forall i, j :: 0 <= i < j < |keys| ==> keys[i] != keys[j]
  {
    var keys := DayKeys(dates);
    forall i, j | 0 <= i < j < |keys|
      ensures keys[i] != keys[j]
    {
      DayKeyOrder(dates[i], dates[j]);
    }
  }

  /** Over consecutive days with four-digit years, the per-day sums of the
      skipped meals in the range add up to their total. */
  lemma DailyTotal(meals: seq<MealRecord>, dates: seq<nat>)
    requires |dates| > 0 && forall k :: 0 <= k < |dates| ==> dates[k] == dates[0] + k
    requires forall k :: 0 <= k < |dates| ==> FourDigitYear(dates[k])
    ensures var skipped := Filter(MealsIn(meals, dates), IsSkipped);
      SumDaily(DailyOf(DayKeys(dates), skipped)) == SumWhere(skipped, AnyMeal, Calories)
  {
    var skipped := Filter(MealsIn(meals, dates), IsSkipped);
    var keys := DayKeys(dates);
    KeysDistinct(dates);
    DailyOfSum(keys, skipped);
    SkippedKeysInRange(meals, dates);
  }

  /** The daily bars add up to the total saved: every skipped meal in the range
      falls on exactly one listed day (for dates with four-digit years, whose
      keys are distinct). */
  lemma DailySumsToTotal(meals: seq<MealRecord>, exercises: seq<ExerciseRecord>, period: Period, today: nat)
    requires period == Week ==> today >= 6
    requires FourDigitYear(RangeDays(period, today)[0]) && FourDigitYear(today)
    ensures var s := Stats(meals, exercises, period, today); SumDaily(s.dailyCalories) == s.totalSavedCalories
  {
    var dates := RangeDays(period, today);
    RangeFacts(period, today);
    DailyTotal(meals, dates);
  }

  /** Every meal is counted as eaten, as skipped, or (for a record with neither
      choice) in neither; with only the two choices stored, the counts add up
      to the total. */
  lemma ChoiceCounts(inMeals: seq<MealRecord>)
    ensures var c := ChoiceRatioOf(inMeals);
      c.ateCount + c.skippedCount <= c.total &&
      ((forall i :: 0 <= i < |inMeals| ==> !inMeals[i].choice.OtherChoice?) ==> c.ateCount + c.skippedCount == c.total)
  {
    FilterAllPass(inMeals, AnyMeal);
    FilterLengthSplit(inMeals, AnyMeal, IsAte, NotAte);
    FilterLengthSplit(inMeals, NotAte, IsSkipped, IsOther);
    if forall i :: 0 <= i < |inMeals| ==> !inMeals[i].choice.OtherChoice? {
      NoOtherChoice(inMeals);
    }
  }

  lemma NoOtherChoice(inMeals: seq<MealRecord>)
    requires forall i :: 0 <= i < |inMeals| ==> !inMeals[i].choice.OtherChoice?
    ensures Filter(inMeals, IsOther) == []
  {
    FilterNone(inMeals, IsOther);
  }

  /** The per-type counts add up to the number of sessions. */
  lemma SessionCounts(inExercises: seq<ExerciseRecord>)
    ensures var e := SummaryOf(inExercises);
      e.byType.squat + e.byType.situp + e.byType.pushup == e.totalSessions
  {
    FilterAllPass(inExercises, AnyExercise);
    FilterLengthSplit(inExercises, AnyExercise, OfType(Squat), NotSquat);
    FilterLengthSplit(inExercises, NotSquat, OfType(Situp), OfType(Pushup));
  }
}
