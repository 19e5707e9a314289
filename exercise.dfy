/** Repetition arithmetic: how many repetitions to suggest for a meal's
    calories, how many calories a number of repetitions burns, when a
    suggestion counts as too many, and how many sets it splits into. Numbers
    are exact reals here; the source computes in IEEE doubles. */
module ExerciseCalculator {
  import opened Util
  import opened Records
  import opened Js

  /** The share of a meal's calories the suggestion aims to offset. */
  const BalanceRatio: real := 0.25
  const MinRecommendedReps: int := 8
  const MaxRepsMultiplier: int := 5
  const TooManyRepsThreshold: int := 60

  datatype ExerciseDefinition = ExerciseDefinition(
    id: string,
    name: string,
    nameEn: string,
    caloriesPerRep: real,
    icon: string,
    defaultReps: int,
    description: string)

  /** The shipped table `EXERCISES`. */
  function Definition(t: ExerciseType): (d: ExerciseDefinition)
    ensures d.caloriesPerRep > 0.0 && d.defaultReps > 0
  {
    match t
    case Squat => ExerciseDefinition("squat", "スクワット", "Squats", 0.5, "🏋️", 20, "Lower body strength")
    case Situp => ExerciseDefinition("situp", "腹筋", "Sit-ups", 0.3, "🤸", 30, "Core strength")
    case Pushup => ExerciseDefinition("pushup", "腕立て伏せ", "Push-ups", 0.4, "💪", 15, "Upper body strength")
  }

  /** The suggestion never goes above this for an exercise. */
  function Cap(ex: ExerciseDefinition): int
  {
    ex.defaultReps * MaxRepsMultiplier
  }

  /** `calculateRecommendedReps`. With no calories the exercise's default is
      suggested. Otherwise the suggestion is the fewest repetitions that burn a
      quarter of the calories, raised to 8 and cut to five times the default.
      A zero calorie rate divides to +Infinity, which the cut turns into the cap. */
  function RecommendedReps(calories: real, ex: ExerciseDefinition): (r: int)
    ensures calories <= 0.0 ==> r == ex.defaultReps
    ensures calories > 0.0 ==> r <= Cap(ex)
    ensures calories > 0.0 && Cap(ex) >= MinRecommendedReps ==> r >= MinRecommendedReps
    ensures calories > 0.0 && ex.caloriesPerRep > 0.0 && r < Cap(ex) ==>
      (r as real) * ex.caloriesPerRep >= calories * BalanceRatio
    ensures calories > 0.0 && ex.caloriesPerRep > 0.0 && MinRecommendedReps < r <= Cap(ex) ==>
      ((r - 1) as real) * ex.caloriesPerRep < calories * BalanceRatio
    ensures calories > 0.0 && Cap(ex) <= MinRecommendedReps ==> r == Cap(ex)
  {
    if calories <= 0.0 then ex.defaultReps
    else
      var adjustedCalories := calories * BalanceRatio;
      var maxForExercise := ex.defaultReps * MaxRepsMultiplier;
      if ex.caloriesPerRep == 0.0 then maxForExercise
      else
        var rawReps := Ceil(adjustedCalories / ex.caloriesPerRep);
        var r := Min(Max(rawReps, MinRecommendedReps), maxForExercise);
        ClampedFacts(adjustedCalories, ex.caloriesPerRep, rawReps, r, maxForExercise);
        r
  }

  lemma ClampedFacts(a: real, c: real, raw: int, r: int, cap: int)
    requires c != 0.0 && raw == Ceil(a / c) && r == Min(Max(raw, MinRecommendedReps), cap)
    ensures c > 0.0 && r < cap ==> (r as real) * c >= a
    ensures c > 0.0 && MinRecommendedReps < r <= cap ==> ((r - 1) as real) * c < a
  {
    if c > 0.0 {
      QuotientBounds(a, c, raw);
      if r < cap {
        MultiplyMonotone(raw as real, r as real, c);
      } else if MinRecommendedReps < r {
        // the cut to the cap applied, so the raw quotient reached it
        assert r <= raw;
        MultiplyMonotone((r - 1) as real, (raw - 1) as real, c);
      }
    }
  }

  /** Ceil(a / c) repetitions of c reach a, and one fewer does not. */
  lemma QuotientBounds(a: real, c: real, n: int)
    requires c > 0.0 && n == Ceil(a / c)
    ensures (n as real) * c >= a && ((n - 1) as real) * c < a
  {
    var q := a / c;
    assert q * c == a;
    assert (n as real) >= q;
    MultiplyMonotone(q, n as real, c);
    assert ((n - 1) as real) < q;
    MultiplyStrict((n - 1) as real, q, c);
  }

  lemma MultiplyMonotone(x: real, y: real, c: real)
    requires x <= y && c > 0.0
    ensures x * c <= y * c
  {
  }

  lemma MultiplyStrict(x: real, y: real, c: real)
    requires x < y && c > 0.0
    ensures x * c < y * c
  {
  }

  /** More calories never lower the suggestion. */
  lemma RecommendedRepsMonotone(c1: real, c2: real, ex: ExerciseDefinition)
    requires 0.0 < c1 <= c2
    ensures RecommendedReps(c1, ex) <= RecommendedReps(c2, ex)
  {
    if ex.caloriesPerRep > 0.0 {
      var a1, a2 := c1 * BalanceRatio, c2 * BalanceRatio;
      MultiplyMonotone(a1 / ex.caloriesPerRep, a2 / ex.caloriesPerRep, ex.caloriesPerRep);
      assert a1 / ex.caloriesPerRep <= a2 / ex.caloriesPerRep by {
        DivideMonotone(a1, a2, ex.caloriesPerRep);
      }
      CeilMonotone(a1 / ex.caloriesPerRep, a2 / ex.caloriesPerRep);
    } else if ex.caloriesPerRep < 0.0 {
      NegativeRateFloor(c1, ex);
      NegativeRateFloor(c2, ex);
    }
  }

  lemma DivideMonotone(a1: real, a2: real, c: real)
    requires a1 <= a2 && c > 0.0
    ensures a1 / c <= a2 / c
  {
    var q1, q2 := a1 / c, a2 / c;
    assert q1 * c == a1 && q2 * c == a2;
    if q1 > q2 {
      MultiplyStrict(q2, q1, c);
    }
  }

  /** With a negative calorie rate the raw quotient is negative, so the floor of
      8 (cut to the cap) decides. */
  lemma NegativeRateFloor(calories: real, ex: ExerciseDefinition)
    requires calories > 0.0 && ex.caloriesPerRep < 0.0
    ensures RecommendedReps(calories, ex) == Min(MinRecommendedReps, Cap(ex))
  {
    var a := calories * BalanceRatio;
    var q := a / ex.caloriesPerRep;
    NegativeQuotient(a, ex.caloriesPerRep);
  }

  lemma NegativeQuotient(a: real, c: real)
    requires a > 0.0 && c < 0.0
    ensures a / c < 0.0
  {
  }

  /** With the shipped table every suggestion for a meal with calories lies
      between 8 and the exercise's cap of 100, 150 or 75. */
  lemma ShippedSuggestionBounds(calories: real, t: ExerciseType)
    requires calories > 0.0
    ensures var r := RecommendedReps(calories, Definition(t));
      MinRecommendedReps <= r <= Cap(Definition(t)) &&
      Cap(Definition(t)) == (match t case Squat => 100 case Situp => 150 case Pushup => 75)
  {
  }

  /** `isTooManyReps`. */
  predicate IsTooManyReps(reps: int)
  {
    reps >= TooManyRepsThreshold
  }

  /** With the shipped table, the suggestion is flagged as too many exactly
      when a quarter of the calories needs more than 59 repetitions. */
  lemma TooManyRepsOnShipped(calories: real, t: ExerciseType)
    requires calories > 0.0
    ensures IsTooManyReps(RecommendedReps(calories, Definition(t))) <==>
      calories * BalanceRatio > 59.0 * Definition(t).caloriesPerRep
  {
    var ex := Definition(t);
    var a := calories * BalanceRatio;
    var raw := Ceil(a / ex.caloriesPerRep);
    QuotientBounds(a, ex.caloriesPerRep, raw);
    assert RecommendedReps(calories, ex) >= TooManyRepsThreshold <==> raw >= TooManyRepsThreshold;
    if raw >= 60 {
      MultiplyMonotone(59.0, (raw - 1) as real, ex.caloriesPerRep);
    } else {
      MultiplyMonotone(raw as real, 59.0, ex.caloriesPerRep);
    }
  }

  /** `calculateBurnedCalories`. */
  function BurnedCalories(reps: int, ex: ExerciseDefinition): (r: int)
    ensures (r as real) - 0.5 <= (reps as real) * ex.caloriesPerRep < (r as real) + 0.5
  {
    Round((reps as real) * ex.caloriesPerRep)
  }

  /** Squats burn half a calorie each, so n squats burn n/2 rounded half up. */
  lemma SquatCalories(reps: int)
    ensures BurnedCalories(reps, Definition(Squat)) == (reps + 1) / 2
  {
    var r := BurnedCalories(reps, Definition(Squat));
    var q := (reps + 1) / 2;
    assert (reps + 1) == 2 * q + (reps + 1) % 2;
    assert (r as real) * 2.0 - 1.0 <= reps as real < (r as real) * 2.0 + 1.0;
    assert 2 * r - 1 <= reps < 2 * r + 1;
  }

  /** `calculateSets`: `Math.ceil(totalReps / repsPerSet)`. A zero set size
      makes the source return Infinity or NaN, which is not an integer. */
  function CalculateSets(totalReps: int, repsPerSet: int): (sets: int)
    requires repsPerSet != 0
    ensures repsPerSet > 0 ==> (sets - 1) * repsPerSet < totalReps <= sets * repsPerSet
  {
    var sets := Ceil((totalReps as real) / (repsPerSet as real));
    SetsFacts(totalReps, repsPerSet, sets);
    sets
  }

  lemma SetsFacts(t: int, p: int, sets: int)
    requires p != 0 && sets == Ceil((t as real) / (p as real))
    ensures p > 0 ==> (sets - 1) * p < t <= sets * p
  {
    if p > 0 {
      QuotientBounds(t as real, p as real, sets);
      assert ((sets - 1) * p) as real == ((sets - 1) as real) * (p as real);
      assert (sets * p) as real == (sets as real) * (p as real);
    }
  }

  /** For a positive set size the number of sets is the integer ceiling
      `(totalReps + repsPerSet - 1) / repsPerSet`; with the default size of 20
      that is at least one set for any positive total. */
  lemma SetsIntegerForm(totalReps: int, repsPerSet: int)
    requires repsPerSet > 0
    ensures CalculateSets(totalReps, repsPerSet) == (totalReps + repsPerSet - 1) / repsPerSet
    ensures totalReps > 0 ==> CalculateSets(totalReps, repsPerSet) >= 1
  {
    var p := repsPerSet;
    var k := (totalReps + p - 1) / p;
    var m := (totalReps + p - 1) % p;
    assert totalReps + p - 1 == k * p + m && 0 <= m < p;
    assert (k - 1) * p == k * p - p;
    CeilingUnique(CalculateSets(totalReps, p), k, totalReps, p);
    if totalReps > 0 && k < 1 {
      MultiplyLe(k, 0, p);
    }
  }

  /** At most one x has (x - 1) * p < t <= x * p. */
  lemma CeilingUnique(x: int, y: int, t: int, p: int)
    requires p > 0
    requires (x - 1) * p < t <= x * p && (y - 1) * p < t <= y * p
    ensures x == y
  {
    if x < y {
      MultiplyLe(x, y - 1, p);
    } else if y < x {
      MultiplyLe(y, x - 1, p);
    }
  }

  lemma MultiplyLe(a: int, b: int, p: int)
    requires a <= b && p > 0
    ensures a * p <= b * p
  {
  }
}
