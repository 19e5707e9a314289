/** The meal and exercise histories: two stored lists, each handed out newest
    first and capped at 500 records when saved or pruned. Deleting a meal also
    deletes the exercise records linked to it. */
module RecordStore {
  import opened Util
  import opened Records
  import opened Seqs

  const MaxRecords: nat := 500

  function MealTime(m: MealRecord): int { m.timestamp }
  function ExerciseTime(e: ExerciseRecord): int { e.timestamp }

  /** `readRecords`: the stored list, or nothing when the key is empty, does
      not parse, or does not hold an array. */
  function Stored<T>(slot: Slot<seq<T>>): seq<T>
  {
    if slot.Holds? then slot.value else []
  }

  /** `records.slice(0, limit)`: a negative limit counts back from the end. */
  function Slice<T>(s: seq<T>, limit: int): (r: seq<T>)
    ensures limit >= 0 ==> |r| == Min(limit, |s|)
    ensures limit < 0 ==> |r| == Max(0, |s| + limit)
    ensures r == s[..|r|]
  {
    if limit >= 0 then Take(s, limit) else s[..Max(0, |s| + limit)]
  }

  /** The list after `save...Record`: the new record put in front, the whole
      sorted newest first and cut to 500. */
  function Saved<T>(saved: T, records: seq<T>, key: T -> int): seq<T>
  {
    Take(SortDesc([saved] + records, key), MaxRecords)
  }

  /** What a save stores: newest first, one longer up to the cap, and only the
      new record and records that were there; the new record is kept while the
      cap is not reached, and comes first when nothing stored is newer. */
  lemma SavedFacts<T>(saved: T, records: seq<T>, key: T -> int)
    requires SortedDesc(records, key)
    ensures var r := Saved(saved, records, key);
      SortedDesc(r, key) &&
      |r| == Min(|records| + 1, MaxRecords) &&
      multiset(r) <= multiset(records) + multiset{saved} &&
      (|records| < MaxRecords ==> saved in r) &&
      ((forall i :: 0 <= i < |records| ==> key(records[i]) <= key(saved)) ==> r[0] == saved)
  {
    var all := [saved] + records;
    var sorted := SortDesc(all, key);
    SortDescLength(all, key);
    TakeSortedDesc(sorted, MaxRecords, key);
    TakeMultiset(sorted, MaxRecords);
    if |records| < MaxRecords {
      assert Take(sorted, MaxRecords) == sorted;
      assert saved in multiset(sorted);
    }
    if forall i :: 0 <= i < |records| ==> key(records[i]) <= key(saved) {
      SortDescHead(all, key);
      assert FirstMax(all, key) == 0;
    }
  }

  /** The stored list after pruning: newest first, cut to 500. */
  function Pruned<T>(records: seq<T>, key: T -> int): seq<T>
  {
    Take(SortDesc(records, key), MaxRecords)
  }

  /** Pruning twice is pruning once. */
  lemma PruneIdempotent<T>(records: seq<T>, key: T -> int)
    ensures Pruned(Pruned(records, key), key) == Pruned(records, key)
  {
    var p := Pruned(records, key);
    TakeSortedDesc(SortDesc(records, key), MaxRecords, key);
    SortDescOfSorted(p, key);
  }

  /** `records.filter((record) => record.id !== id)`. */
  function IdIsNot(id: string): MealRecord -> bool
  {
    (m: MealRecord) => m.id != id
  }

  function ExerciseIdIsNot(id: string): ExerciseRecord -> bool
  {
    (e: ExerciseRecord) => e.id != id
  }

  /** `record.mealRecordId !== id`: a record with no meal is never linked. */
  function NotLinkedTo(id: string): ExerciseRecord -> bool
  {
    (e: ExerciseRecord) => e.mealRecordId != Some(id)
  }

  /** After deleting a meal, exactly the other meals remain, exactly the
      exercises not linked to it remain, and both lists stay newest first. */
  lemma DeleteMealFacts(meals: seq<MealRecord>, exercises: seq<ExerciseRecord>, id: string)
    ensures var m := Filter(SortDesc(meals, MealTime), IdIsNot(id));
      forall x :: x in m <==> x in meals && x.id != id
    ensures var e := Filter(SortDesc(exercises, ExerciseTime), NotLinkedTo(id));
      forall x :: x in e <==> x in exercises && x.mealRecordId != Some(id)
    ensures SortedDesc(Filter(SortDesc(meals, MealTime), IdIsNot(id)), MealTime)
  {
    var sm := SortDesc(meals, MealTime);
    var se := SortDesc(exercises, ExerciseTime);
    FilterMembers(sm, IdIsNot(id));
    FilterMembers(se, NotLinkedTo(id));
    assert forall x :: x in sm <==> x in meals by {
      forall x ensures x in sm <==> x in meals {
        assert x in sm <==> x in multiset(sm);
        assert x in meals <==> x in multiset(meals);
      }
    }
    assert forall x :: x in se <==> x in exercises by {
      forall x ensures x in se <==> x in exercises {
        assert x in se <==> x in multiset(se);
        assert x in exercises <==> x in multiset(exercises);
      }
    }
    FilterSorted(sm, IdIsNot(id), MealTime);
  }

  /** The two stored lists and the identifiers drawn for new records. */
  class Store {
    /** What `@CheerChoice:mealRecords` holds, parsed. */
    var meals: Slot<seq<MealRecord>>
    /** What `@CheerChoice:exerciseRecords` holds, parsed. */
    var exercises: Slot<seq<ExerciseRecord>>

    constructor(storedMeals: Slot<seq<MealRecord>>, storedExercises: Slot<seq<ExerciseRecord>>)
      ensures meals == storedMeals && exercises == storedExercises
    {
      meals := storedMeals;
      exercises := storedExercises;
    }

    /** `getMealRecords`: the stored meals, newest first (the sort is stable). */
    method GetMealRecords() returns (r: seq<MealRecord>)
      ensures r == SortDesc(Stored(meals), MealTime)
      ensures SortedDesc(r, MealTime) && multiset(r) == multiset(Stored(meals))
    {
      var records := Stored(meals);
      r := SortDesc(records, MealTime);
    }

    /** `getExerciseRecords`. */
    method GetExerciseRecords() returns (r: seq<ExerciseRecord>)
      ensures r == SortDesc(Stored(exercises), ExerciseTime)
      ensures SortedDesc(r, ExerciseTime) && multiset(r) == multiset(Stored(exercises))
    {
      var records := Stored(exercises);
      r := SortDesc(records, ExerciseTime);
    }

    /** `getRecentMealRecords(limit)`: the first `limit` of the newest-first list. */
    method GetRecentMealRecords(limit: int) returns (r: seq<MealRecord>)
      ensures r == Slice(SortDesc(Stored(meals), MealTime), limit)
      ensures limit >= 0 ==> |r| == Min(limit, |Stored(meals)|)
    {
      var records := GetMealRecords();
      SortDescLength(Stored(meals), MealTime);
      r := Slice(records, limit);
    }

    /** `saveMealRecord(record)`, with `id` the identifier `generateId` drew. */
    method SaveMealRecord(record: MealRecord, id: string) returns (saved: MealRecord)
      modifies this
      ensures saved == record.(id := id)
      ensures meals == Holds(Saved(saved, SortDesc(Stored(old(meals)), MealTime), MealTime))
      ensures exercises == old(exercises)
    {
      var records := GetMealRecords();
      saved := record.(id := id);
      meals := Holds(Take(SortDesc([saved] + records, MealTime), MaxRecords));
    }

    /** `saveExerciseRecord(record)`, with `id` the identifier `generateId` drew. */
    method SaveExerciseRecord(record: ExerciseRecord, id: string) returns (saved: ExerciseRecord)
      modifies this
      ensures saved == record.(id := id)
      ensures exercises == Holds(Saved(saved, SortDesc(Stored(old(exercises)), ExerciseTime), ExerciseTime))
      ensures meals == old(meals)
    {
      var records := GetExerciseRecords();
      saved := record.(id := id);
      exercises := Holds(Take(SortDesc([saved] + records, ExerciseTime), MaxRecords));
    }

    /** `deleteMealRecord(id)`: the meal goes, and so do the exercises linked to it. */
    method DeleteMealRecord(id: string)
      modifies this
      ensures meals == Holds(Filter(SortDesc(Stored(old(meals)), MealTime), IdIsNot(id)))
      ensures exercises == Holds(Filter(SortDesc(Stored(old(exercises)), ExerciseTime), NotLinkedTo(id)))
    {
      var records := GetMealRecords();
      meals := Holds(Filter(records, IdIsNot(id)));
      var exerciseRecords := GetExerciseRecords();
      exercises := Holds(Filter(exerciseRecords, NotLinkedTo(id)));
    }

    /** `deleteExerciseRecord(id)`. */
    method DeleteExerciseRecord(id: string)
      modifies this
      ensures exercises == Holds(Filter(SortDesc(Stored(old(exercises)), ExerciseTime), ExerciseIdIsNot(id)))
      ensures meals == old(meals)
    {
      var records := GetExerciseRecords();
      exercises := Holds(Filter(records, ExerciseIdIsNot(id)));
    }

    /** `pruneOldRecords`: both lists rewritten newest first and cut to 500. */
    method PruneOldRecords()
      modifies this
      ensures meals == Holds(Pruned(Stored(old(meals)), MealTime))
      ensures exercises == Holds(Pruned(Stored(old(exercises)), ExerciseTime))
    {
      var mealRecords := GetMealRecords();
      var exerciseRecords := GetExerciseRecords();
      meals := Holds(Take(mealRecords, MaxRecords));
      exercises := Holds(Take(exerciseRecords, MaxRecords));
    }
  }
}
