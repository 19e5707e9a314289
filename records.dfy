/** The app's stored record shapes shared by several services, and what a
    storage read can come back with. Timestamps, stored as ISO strings, are
    modelled as the instants they denote. */
module Records {
  import opened Util
  import opened Calendar

  datatype ExerciseType = Squat | Situp | Pushup

  /** What the user did with a meal. Records read back from storage are not
      checked, so a stored choice can be something else. */
  datatype Choice = Ate | Skipped | OtherChoice(raw: string)

  datatype MealRecord = MealRecord(
    id: string,
    timestamp: Instant,
    photoUri: string,
    estimatedCalories: int,
    foodName: string,
    confidence: int,
    choice: Choice)

  datatype ExerciseRecord = ExerciseRecord(
    id: string,
    mealRecordId: Option<string>,
    timestamp: Instant,
    exerciseType: ExerciseType,
    count: int,
    targetCount: int,
    caloriesBurned: int)

  /** What `AsyncStorage.getItem` followed by `JSON.parse` yields for one key:
      nothing stored (or an empty string), text that does not parse or does not
      have the expected shape, or a value. */
  datatype Slot<T> = Missing | Unreadable | Holds(value: T)
}
