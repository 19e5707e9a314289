# CheerChoice in Dafny

CheerChoice is a mobile app. It photographs a meal, has a language model estimate the calories, and lets the user choose to eat or to skip it. A skipped meal is paid for with squats, sit-ups or push-ups. This project models the app's bookkeeping and proves what that bookkeeping promises:

- **Recovery module** (`recovery.dfy`, `recovery_store.dfy`):
  - the exercise *obligations* created for a meal;
  - the session events recorded while exercising;
  - the weekly *recovery ledger* of repetitions still owed;
  - the maintenance sweep that closes the day's obligations and resets last week's debt.
- **Per-device stores:**
  - meal and exercise histories (`record_store.dfy`, sorting and filtering in `seqs.dfy`);
  - the skipped-calorie counters (`skipped_stats.dfy`);
  - the user's settings (`settings.dfy`);
  - the AI-photo allowance (`usage.dfy`).
- **Calculations:**
  - the statistics screen's aggregation (`stats.dfy`);
  - the repetition suggestion (`exercise.dfy`).
- **Migration** (`migration.dfy`): the one-off copy of everything stored on the device to the cloud database, re-keying every record with a UUID.
- **Edge functions** (`estimation.dfy`, `estimation_v1.dfy`, `estimation_v2.dfy`): the checks the two calorie-estimation functions apply to a request and to the model's reply.

The shared vocabulary lives in three files:

- `calendar.dfy` covers local days and weeks, and the `YYYY-MM-DD` keys.
- `js.dfy` covers JavaScript values, `Number()`, `Math.round` and `Math.ceil`.
- `util.dfy` covers `trim`, `indexOf` and `slice`.

The model takes the source's own form:

- **Classes.** Each service whose functions read and rewrite a storage key becomes a class. These are `RecordStore.Store`, `RecoveryStore.Store`, `Settings.SettingsStore`, `Usage.UsageStore`, `SkippedStats.SkippedStatsStore` and `Migration.Migrator`. Each method:
  - changes the fields standing for the keys;
  - records what it writes;
  - is proved against a function of the old state.
- **Loops.** Each loop of the source is a `while` loop with its invariants. The loops are:
  - the sweep over obligations and ledger entries;
  - the spending of repetitions;
  - the date range;
  - the day-by-day totals;
  - the per-type counts;
  - the five payload builders;
  - the seven upserts.
- **Pure functions** are functions. The properties are lemmas about those functions.

Conventions:

- **Time.** An instant is an integer number of milliseconds on the device's local clock. Day numbers count from 0001-01-01, and 1970-01-01 is day 719162. Days, weeks (Monday or Sunday start) and months are derived from the day number by the proleptic Gregorian calendar.
- **Storage.** A stored key is a `Slot`: missing (or the empty string), unreadable, or holding a parsed value.
- **Clock, randomness and identifiers** are parameters. Examples are `now`, `today`, the random nibble source `rand`, and the serial number behind `generateId`.

## Model

| member | source | states |
|---|---|---|
| Calendar.StartOfDay | src/utils/statsCalculator.ts:31-35 | midnight of an instant's day: same day, not after it, less than a day before |
| Calendar.EndOfDay | src/services/recoveryService.ts:34-38 | 23:59:59.999 of an instant's day: same day, not before it, and one millisecond later is the next day |
| Calendar.DateOfDay | src/services/recoveryService.ts:18-23 | the calendar date of a day number is a valid date that numbers back to that day |
| Calendar.DateRoundTrip | src/services/recoveryService.ts:18-23 | a valid date numbered and turned back into a date is itself |
| Calendar.DayNumberOrder | src/services/recoveryService.ts:18-23 | day numbers order dates chronologically and are one-to-one |
| Calendar.MondayOnOrBefore | src/services/recoveryService.ts:25-32 | `getWeekStartLocalDateKey`'s day: a Monday, at most six days before the given day |
| Calendar.MondayIsWeekStart | src/services/recoveryService.ts:25-32 | two days share a week start exactly when they fall in the same Monday-to-Sunday week; week starts are monotone and a Monday is its own week start |
| Calendar.SundayOnOrBefore | src/services/storageService.ts:36-46 | the Sunday that starts a day's week: at most six days before, and equal to the day exactly on a Sunday |
| Calendar.DateKeyOrder | src/services/recoveryService.ts:18-23 | for four-digit years, `YYYY-MM-DD` keys compare as strings exactly as the dates compare, and equal keys mean equal dates |
| Calendar.DayKeyOrder | src/services/recoveryService.ts:18-23 | the same for day numbers: the string order of day keys is the order of the days |
| ExerciseCalculator.Definition | src/constants/Exercises.ts:18-46 | every shipped exercise has a positive calorie rate and a positive default repetition count |
| ExerciseCalculator.RecommendedReps | src/utils/exerciseCalculator.ts:20-36 | no calories: the default; otherwise at most five times the default and at least 8 (when the cap allows), and exactly the cap when the cap is 8 or less. Below the cap the repetitions burn at least a quarter of the calories. Above 8, up to and including the cap, one fewer would not |
| ExerciseCalculator.RecommendedRepsMonotone | src/utils/exerciseCalculator.ts:20-36 | more calories never suggest fewer repetitions |
| ExerciseCalculator.NegativeRateFloor | src/utils/exerciseCalculator.ts:28-35 | with a negative calorie rate the suggestion is the floor of 8, or the cap when it is lower |
| ExerciseCalculator.ShippedSuggestionBounds | src/utils/exerciseCalculator.ts:8-36 | for the shipped exercises every suggestion lies between 8 and caps of 100 (squat), 150 (sit-up), 75 (push-up) |
| ExerciseCalculator.TooManyRepsOnShipped | src/utils/exerciseCalculator.ts:58-60 | for the shipped exercises the too-many warning (60 or more) fires exactly when a quarter of the calories exceeds 59 repetitions' worth |
| ExerciseCalculator.BurnedCalories | src/utils/exerciseCalculator.ts:45-50 | the burned calories are within half a calorie of repetitions times rate |
| ExerciseCalculator.SquatCalories | src/utils/exerciseCalculator.ts:49 | at half a calorie per squat, n squats burn (n + 1) / 2 calories, halves rounded up |
| ExerciseCalculator.CalculateSets | src/utils/exerciseCalculator.ts:69-71 | for a positive set size, the fewest sets that hold all repetitions |
| ExerciseCalculator.SetsIntegerForm | src/utils/exerciseCalculator.ts:69-71 | that count is the integer ceiling (t + p - 1) / p, and at least one set for any positive total |
| Js.Get | src/services/settingsService.ts:18-32 | reading a property: undefined on anything but an object, otherwise the last member with that key |
| Js.ToNumber | src/services/settingsService.ts:18 | `Number(v)`: a number is itself, undefined is NaN, null is 0 |
| Js.NumberOr | src/services/migrationService.ts:145 | `Number(v) \|\| d`: either `Number(v)` or the default, and the default whenever `Number(v)` is falsy |
| Js.StringToNumber | src/services/settingsService.ts:18 | `Number(s)` of a text: blank text is 0, and text of decimal digits (after trimming) is their value |
| Js.Round | src/services/settingsService.ts:20 | `Math.round`: the integer within half of x, halves rounded up |
| Js.Ceil | src/utils/exerciseCalculator.ts:29 | `Math.ceil`: the least integer not below x |
| Util.Take | src/services/recoveryService.ts:59 | `slice(0, n)`: a prefix of length min(n, length) |
| Util.TrimEnds | supabase/functions/calorie-estimation-v2/index.ts:44-45 | a trimmed text neither starts nor ends with white space, and is empty exactly when the text is all white space |
| Util.IndexOf | supabase/functions/calorie-estimation-v2/index.ts:48-50 | `indexOf(p, from)`: the first occurrence at or after `from`, or -1 when there is none |
| Util.Trim | supabase/functions/calorie-estimation-v2/index.ts:44 | `trim()`: a contiguous part of the text, starting where the leading white space ends |
| Util.TrimIdempotent | supabase/functions/calorie-estimation-v2/index.ts:44 | trimming twice is trimming once |
| Util.IndexOfChar | supabase/functions/calorie-estimation-v2/index.ts:60 | `indexOf(c)`: the first position holding c, or -1 when there is none |
| Util.LastIndexOfChar | supabase/functions/calorie-estimation-v2/index.ts:61 | `lastIndexOf(c)`: the last position holding c, or -1 when there is none |
| Settings.SanitizeGoal | src/services/settingsService.ts:18-21 | the goal is always within 100-1000. A value that is not a finite number gives 300. Otherwise it is rounded and then clamped |
| Settings.SanitizeVoice | src/services/settingsService.ts:25-28 | a boolean is kept; anything else gives `true` |
| Settings.SanitizeLanguage | src/services/settingsService.ts:29-32 | "en", "ja" and "auto" are kept; anything else gives Auto |
| Settings.Sanitize | src/services/settingsService.ts:17-34 | the result is valid settings whose three fields are the three sanitized members |
| Settings.SanitizeNonObject | src/services/settingsService.ts:17-34 | a stored value that is not an object gives the defaults |
| Settings.SanitizeIdempotent | src/services/settingsService.ts:17-34 | sanitizing settings that were already sanitized and stored changes nothing |
| Settings.EncodeFields | src/services/settingsService.ts:56 | the stored object holds each field under its key |
| Settings.EncodeRoundTrip | src/services/settingsService.ts:52-56 | valid settings written and sanitized back are themselves |
| Settings.Read | src/services/settingsService.ts:36-48 | `getSettings`: the sanitized stored value. An empty, unreadable or null key gives the defaults |
| Settings.UpdateFields | src/services/settingsService.ts:50-55 | each field of the update is the sanitized new value when the partial names it, and the current value otherwise |
| Settings.MergedKey | src/services/settingsService.ts:52-55 | `{...current, ...partial}`: a key the partial names comes from the partial, any other from the current settings |
| Settings.UpdateNothing | src/services/settingsService.ts:50-55 | an empty update leaves valid settings as they are |
| Settings.SettingsStore.GetSettings | src/services/settingsService.ts:36-48 | returns the read settings, which are valid |
| Settings.SettingsStore.UpdateSettings | src/services/settingsService.ts:50-58 | returns the update of the read settings, and stores and logs exactly that |
| Settings.ReadAfterUpdate | src/services/settingsService.ts:36-58 | reading after an update gives back what the update returned |
| Usage.Normalize | src/services/usageService.ts:16-26 | a new day zeroes today's count and moves the date, keeping the lifetime count; the same day leaves the data alone |
| Usage.NormalizeIdempotent | src/services/usageService.ts:16-26 | normalizing twice on one day is normalizing once |
| Usage.Read | src/services/usageService.ts:28-50 | `getUsageData`: the normalized stored data. An empty or unreadable key gives zero counts dated the day the module loaded |
| Usage.AfterRead | src/services/usageService.ts:38-43 | the stored value is rewritten, normalized, exactly when normalizing changed it |
| Usage.AfterReadKeepsUsed | src/services/usageService.ts:36-43 | a read never changes the stored lifetime count |
| Usage.Remaining | src/services/usageService.ts:52-66 | the remaining uses are never negative and are positive exactly when `canUseAI` answers yes. They never exceed 20 a day for premium or 15 in all for free |
| Usage.Increment | src/services/usageService.ts:68-78 | both counts go up by one and the date becomes today |
| Usage.IncrementOnCounts | src/services/usageService.ts:68-78 | n increments on any days raise the stored lifetime count by exactly n |
| Usage.FreeTierExhausted | src/services/usageService.ts:52-57 | after 15 increments a free user can no longer use the AI, on any later day and whether or not a read came first |
| Usage.UsageStore.GetUsageData | src/services/usageService.ts:28-50 | returns the read data, and writes the normalized data only when it changed |
| Usage.UsageStore.CanUseAI | src/services/usageService.ts:52-58 | answers the limit check on the read data; the store changes as a read changes it |
| Usage.UsageStore.GetRemainingAIUses | src/services/usageService.ts:60-66 | returns the remaining uses of the read data; the store changes as a read changes it |
| Usage.UsageStore.IncrementAIUsage | src/services/usageService.ts:68-78 | returns and stores the increment of the read data, after any write the read made |
| SkippedStats.SameDayFacts | src/services/storageService.ts:25-31 | two instants share year, month and date exactly when they share a day number, and then also a week and a month |
| SkippedStats.WeekFacts | src/services/storageService.ts:36-46 | instants in the same Sunday-started week are less than seven days apart, and a later Sunday starts a new week |
| SkippedStats.Refresh | src/services/storageService.ts:70-89 | each counter is kept when the last update falls in the same day, week or month as now, and is zeroed otherwise; the timestamp is kept |
| SkippedStats.RefreshUnparsable | src/services/storageService.ts:71-87 | an unparsable last-update time zeroes all three counters |
| SkippedStats.Read | src/services/storageService.ts:61-94 | `getSkippedStats`: the refreshed stored counters, or zero counters stamped with the module's load time when nothing readable is stored |
| SkippedStats.Update | src/services/storageService.ts:99-112 | all three counters grow by the same calories, and the timestamp becomes now |
| SkippedStats.RefreshOrdered | src/services/storageService.ts:74-87 | refreshing keeps 0 ≤ today ≤ week and today ≤ month (a week spanning the 1st can exceed the month) |
| SkippedStats.UpdateOrdered | src/services/storageService.ts:103-108 | adding non-negative calories keeps 0 ≤ today ≤ week and today ≤ month |
| SkippedStats.ReadAfterUpdate | src/services/storageService.ts:61-112 | reading at the moment of an update gives what the update returned |
| SkippedStats.ReadLaterDay | src/services/storageService.ts:75-77 | on a later day today's counter reads as zero |
| SkippedStats.SkippedStatsStore.GetSkippedStats | src/services/storageService.ts:61-94 | returns the read counters without writing |
| SkippedStats.SkippedStatsStore.UpdateSkippedStats | src/services/storageService.ts:99-117 | returns, stores and logs the update of the read counters |
| SkippedStats.SkippedStatsStore.ResetSkippedStats | src/services/storageService.ts:122-128 | removes the key |
| Seqs.SortDesc | src/services/recordService.ts:12-16 | newest first, and a permutation of the input |
| Seqs.SortDescHead | src/services/recordService.ts:12-16 | the first element is the earliest of the newest: the sort is stable at the front |
| Seqs.SortDescStable | src/services/recordService.ts:12-16 | the sort is stable: for every key, the elements with that key come out in their input order |
| Seqs.SortDescOfSorted | src/services/recordService.ts:12-16 | sorting a list already newest first returns it unchanged |
| Seqs.Filter | src/services/recordService.ts:73 | every kept element passes, and the kept elements are a sub-multiset of the input |
| Seqs.FilterMembers | src/services/recordService.ts:73 | an element is kept exactly when it is in the input and passes |
| Seqs.SortAsc | src/services/recoveryService.ts:269-271 | oldest first, and a permutation of the input |
| Seqs.SortAscStable | src/services/recoveryService.ts:269-271 | the ascending sort is stable in the same sense |
| RecordStore.Slice | src/services/recordService.ts:46-49 | `slice(0, limit)`: a prefix of length min(limit, n); a negative limit drops that many from the end |
| RecordStore.SavedFacts | src/services/recordService.ts:51-59 | after a save the list is newest first and one longer up to 500. It holds only the new record and old ones, holds the new record while below the cap, and puts it first when nothing stored is newer |
| RecordStore.PruneIdempotent | src/services/recordService.ts:87-97 | pruning twice is pruning once |
| RecordStore.DeleteMealFacts | src/services/recordService.ts:71-79 | after deleting a meal, exactly the other meals and exactly the exercises not linked to it remain; meals stay newest first |
| RecordStore.Store.GetMealRecords | src/services/recordService.ts:36-39 | the stored meals newest first, a permutation of what is stored |
| RecordStore.Store.GetExerciseRecords | src/services/recordService.ts:41-44 | the stored exercises newest first, a permutation of what is stored |
| RecordStore.Store.GetRecentMealRecords | src/services/recordService.ts:46-49 | the first `limit` of the sorted meals |
| RecordStore.Store.SaveMealRecord | src/services/recordService.ts:51-59 | returns the record with its new id; stores the saved list; leaves the exercises alone |
| RecordStore.Store.SaveExerciseRecord | src/services/recordService.ts:61-69 | returns the record with its new id; stores the saved list; leaves the meals alone |
| RecordStore.Store.DeleteMealRecord | src/services/recordService.ts:71-79 | stores the sorted meals without that id and the sorted exercises not linked to it |
| RecordStore.Store.DeleteExerciseRecord | src/services/recordService.ts:81-85 | stores the sorted exercises without that id; leaves the meals alone |
| RecordStore.Store.PruneOldRecords | src/services/recordService.ts:87-97 | rewrites both lists sorted and cut to 500 |
| Stats.MonthStart | src/utils/statsCalculator.ts:61 | the first of the month: as many days back as the date's day of the month, less one |
| Stats.RangeFacts | src/utils/statsCalculator.ts:48-71 | the range is consecutive days ending today; a week has 7, and a month runs from day 1 through today's date |
| Stats.GetRangeDates | src/utils/statsCalculator.ts:48-71 | both loops build exactly that range |
| Stats.InRangeDays | src/utils/statsCalculator.ts:80-93 | an instant lies between the first midnight and 23:59:59.999 of the last day exactly when its day is in the range |
| Stats.DayKeys | src/utils/statsCalculator.ts:37-46 | one key per date, in order |
| Stats.KeysDistinct | src/utils/statsCalculator.ts:37-46 | distinct days with four-digit years have distinct keys |
| Stats.DailyOf | src/utils/statsCalculator.ts:106-125 | one entry per key, each holding the skipped calories of meals on that key |
| Stats.DailyTotals | src/utils/statsCalculator.ts:106-116 | the map has exactly the range's keys, each holding its day's skipped calories |
| Stats.AddMeal | src/utils/statsCalculator.ts:110-116 | adding one meal keeps the keys and keeps each total equal to the sum over the meals seen |
| Stats.BuildDaily | src/utils/statsCalculator.ts:118-125 | reading the map back in date order gives the daily list |
| Stats.CountByType | src/utils/statsCalculator.ts:135-138 | the loop yields the per-type session counts |
| Stats.CalculateStats | src/utils/statsCalculator.ts:85-159 | the aggregation loops produce exactly the statistics the definition describes |
| Stats.DailyOfSum | src/utils/statsCalculator.ts:101-125 | for distinct keys, the daily amounts sum to the skipped calories whose key is in the range |
| Stats.SkippedKeysInRange | src/utils/statsCalculator.ts:110-114 | every skipped meal in the range has its key in the range, so none is dropped |
| Stats.DailyTotal | src/utils/statsCalculator.ts:100-125 | the daily amounts sum to the total of the skipped meals in the range |
| Stats.DailySumsToTotal | src/utils/statsCalculator.ts:100-125 | the chart's bars add up to `totalSavedCalories` |
| Stats.ChoiceCounts | src/utils/statsCalculator.ts:127-133 | ate plus skipped never exceeds the total, and equals it when every choice is one of the two |
| Stats.SessionCounts | src/utils/statsCalculator.ts:135-151 | the per-type counts add up to the number of sessions |
| Recovery.Finalize | src/services/recoveryService.ts:80-96 | an open obligation past its deadline is closed at now. It becomes completed exactly when its target was met, and unmet otherwise. Nothing else changes, and a closed one is no longer due |
| Recovery.FinalizeAll | src/services/recoveryService.ts:80-120 | every obligation is finalized in place |
| Recovery.Spawn | src/services/recoveryService.ts:97-119 | the ledger only grows, by at most one entry per obligation, keeping its old entries in front |
| Recovery.SpawnStep | src/services/recoveryService.ts:97-119 | each visited obligation adds its entry exactly when it needs one |
| Recovery.SpawnNoDue | src/services/recoveryService.ts:80-86 | when nothing is due the ledger is unchanged |
| Recovery.SpawnAddsFreshEntries | src/services/recoveryService.ts:102-119 | every added entry is a fresh open entry for an unmet due obligation, owing its shortfall |
| Recovery.SpawnCovers | src/services/recoveryService.ts:89-119 | afterwards every due obligation that fell short has a live entry |
| Recovery.SpawnKeepsOneLive | src/services/recoveryService.ts:102-107 | no obligation gains a second live entry |
| Recovery.SpawnKeepsWellFormed | src/services/recoveryService.ts:110-119 | a well-formed ledger stays well-formed |
| Recovery.ResetStale | src/services/recoveryService.ts:122-133 | an open entry of an earlier week is reset at now with nothing remaining; others are untouched; no entry stays stale |
| Recovery.ResetAll | src/services/recoveryService.ts:122-133 | every entry is reset in place |
| Recovery.ResetAllLiveCount | src/services/recoveryService.ts:122-133 | resetting never adds live entries |
| Recovery.ResetNoneStale | src/services/recoveryService.ts:122-139 | the stored ledger has no stale entries |
| Recovery.ResetIsChronological | src/services/recoveryService.ts:126 | the string test `weekStartLocal >= currentWeekStart` is the chronological test for four-digit years |
| Recovery.SweepKeepsOneLive | src/services/recoveryService.ts:68-141 | maintenance keeps at most one live entry per obligation |
| Recovery.SweepKeepsWellFormed | src/services/recoveryService.ts:68-141 | maintenance keeps the ledger well-formed |
| Recovery.SweepLeavesNothingPending | src/services/recoveryService.ts:68-141 | afterwards nothing is due and nothing is stale |
| Recovery.SweepIdempotent | src/services/recoveryService.ts:68-141 | a second sweep at the same instant writes nothing and changes nothing |
| Recovery.FinalizedNoneDue | src/services/recoveryService.ts:80-96 | the stored obligations have none due |
| Recovery.NewObligation | src/services/recoveryService.ts:151-163 | a new obligation is open with nothing done and a target of at least 1. It is due at the end of today, keyed by today and this week |
| Recovery.NewObligationDueAtDayEnd | src/services/recoveryService.ts:34-38 | it falls due on any later day, never on an earlier one, and not before its deadline |
| Recovery.Retarget | src/services/recoveryService.ts:175-182 | only the open obligation with that id changes, and only its type and target, with a target of at least 1 |
| Recovery.RetargetAll | src/services/recoveryService.ts:175-182 | every obligation is retargeted in place |
| Recovery.NewEvent | src/services/recoveryService.ts:195-201 | the event records the obligation, type and time, with a count of at least 0 |
| Recovery.Restore | src/services/recoveryService.ts:212-236 | there are events exactly when some event is for this obligation. Without any the state is empty. With some, paused means the last type is pause |
| Recovery.RestoreIsLatest | src/services/recoveryService.ts:217-235 | the restored state comes from the obligation's latest event (the first of the latest on ties) |
| Recovery.RestoreAfterSave | src/services/recoveryService.ts:188-236 | right after saving an event that is not older than the others, restore gives that event back |
| Recovery.FindById | src/services/recoveryService.ts:244 | the first obligation with the id, or none when there is none |
| Recovery.Advance | src/services/recoveryService.ts:249-255 | progress adds min(count, shortfall) without passing the target. The leftover is what exceeds the shortfall. Reaching the target completes the obligation at now |
| Recovery.Progress | src/services/recoveryService.ts:243-257 | the leftover is never negative. Without an open obligation of that id, or with no count, nothing changes and the count comes back. Otherwise that obligation advances and the list is stored |
| Recovery.Draw | src/services/recoveryService.ts:279-293 | one entry takes what it can of the repetitions left, moving them from remaining to recovered and closing it when drained; other entries and non-positive amounts are untouched |
| Recovery.Allocate | src/services/recoveryService.ts:273-294 | allocation keeps the ledger's length and never increases what is left |
| Recovery.AllocateDraws | src/services/recoveryService.ts:275-294 | each entry is changed only as one draw changes it |
| Recovery.AllocateLeftover | src/services/recoveryService.ts:273-294 | what is left is the excess over this week's open remaining total |
| Recovery.AllocateSums | src/services/recoveryService.ts:282-289 | the week's recovered total grows and its remaining total shrinks by exactly what was spent; what was owed is unchanged |
| Recovery.AllocateDrains | src/services/recoveryService.ts:275-294 | when repetitions are left over, every eligible entry was closed |
| Recovery.AllocateFifo | src/services/recoveryService.ts:269-294 | oldest first: an entry is drawn from only after every earlier eligible entry is closed |
| Recovery.AllocateKeepsWellFormed | src/services/recoveryService.ts:282-293 | allocation keeps every entry well-formed |
| Recovery.Weekly | src/services/recoveryService.ts:308-320 | the weekly totals are the sums of remaining, owed and recovered over this week's entries |
| Recovery.WeeklyOfSorted | src/services/recoveryService.ts:312-318 | the totals do not depend on the ledger's order |
| Recovery.WeeklyBalance | src/services/recoveryService.ts:312-319 | the totals are non-negative, and when nothing this week was reset, owed = recovered + remaining |
| Recovery.RecoverSpends | src/services/recoveryService.ts:260-299 | exercising spends min(total, this week's open remaining) |
| Recovery.RecoverStores | src/services/recoveryService.ts:260-299 | what is stored is the allocated ledger newest first, and only when something was spent |
| Recovery.WeeklyAfterRecover | src/services/recoveryService.ts:260-320 | after exercising, this week's remaining total falls and its recovered total rises by what was spent; the owed total is unchanged |
| Recovery.Today | src/services/recoveryService.ts:328-344 | today's status carries today's key. Its count is the number of positions holding an obligation due today and still open. Its remaining count is the sum of those obligations' shortfalls. It owes nothing when none is open |
| Recovery.Annotate | src/services/recoveryService.ts:359-362 | each obligation paired with what it still owes |
| Recovery.AnnotateMembers | src/services/recoveryService.ts:359-362 | annotation yields exactly the obligations of the list, each with its own shortfall |
| Recovery.TodayOpenList | src/services/recoveryService.ts:350-365 | the open list is oldest first |
| Recovery.TodayOpenListMembers | src/services/recoveryService.ts:357-364 | it holds exactly today's open obligations that still owe something |
| Recovery.AnnotateSum | src/services/recoveryService.ts:357-361 | over obligations all due today and open, the annotated entries still owing something owe in total the obligations' summed shortfall |
| Recovery.TodayListMatchesStatus | src/services/recoveryService.ts:328-365 | the list's owed repetitions add up to today's status, and it is no longer than the open count |
| RecoveryStore.Store.constructor | src/services/recoveryService.ts:40-42 | the time zone falls back to "UTC" when the device reports none |
| RecoveryStore.Store.NextId | src/services/recoveryService.ts:14-16 | each identifier is drawn once, from a counter; nothing stored changes |
| RecoveryStore.Store.RunMaintenance | src/services/recoveryService.ts:68-141 | the new state is the sweep of the old, and exactly the changed keys are written |
| RecoveryStore.Store.CreateObligation | src/services/recoveryService.ts:143-166 | after the sweep the new obligation is put first and the list cut to 500 |
| RecoveryStore.Store.UpdateObligationTarget | src/services/recoveryService.ts:168-186 | after the sweep the matching open obligation is retargeted, and the list is written only when one matched |
| RecoveryStore.Store.SaveSessionEvent | src/services/recoveryService.ts:188-203 | after the sweep the new event is put first and the list cut to 500 |
| RecoveryStore.Store.GetSessionRestoreState | src/services/recoveryService.ts:212-236 | sweeps then restores from the swept events |
| RecoveryStore.Store.AddObligationProgress | src/services/recoveryService.ts:238-258 | sweeps then applies progress, writing only when progress was made |
| RecoveryStore.Store.ApplyRecoveryFromExercise | src/services/recoveryService.ts:260-299 | sweeps then spends the repetitions, writing only when something was spent |
| RecoveryStore.Store.GetWeeklyRecoveryStatus | src/services/recoveryService.ts:308-320 | sweeps then reports this week's totals |
| RecoveryStore.Store.GetTodayObligationStatus | src/services/recoveryService.ts:328-344 | sweeps then reports today's status |
| RecoveryStore.Store.GetTodayOpenObligations | src/services/recoveryService.ts:350-365 | sweeps then lists today's open obligations |
| RecoveryStore.FinalizeObligations | src/services/recoveryService.ts:76-120 | the loop finalizes every obligation and spawns the entries. Obligations changed exactly when something was due, and the ledger exactly when an entry was added |
| RecoveryStore.VisitNext | src/services/recoveryService.ts:80-120 | one step of that loop extends the spawned ledger by the next obligation |
| RecoveryStore.VisitObligation | src/services/recoveryService.ts:80-119 | one obligation is finalized and adds its entry exactly when it needs one |
| RecoveryStore.ResetStaleEntries | src/services/recoveryService.ts:122-133 | the loop resets every stale entry and reports whether any was |
| RecoveryStore.RetargetObligations | src/services/recoveryService.ts:174-182 | the loop retargets and reports whether an open obligation matched |
| RecoveryStore.SpendOnEntries | src/services/recoveryService.ts:273-294 | the loop with its early exit computes the allocation, and reports a change exactly when something was spent |
| RecoveryStore.SpendNext | src/services/recoveryService.ts:275-294 | one step draws from the next entry |
| RecoveryStore.CreditObligation | src/services/recoveryService.ts:243-257 | the imperative progress step computes exactly the progress function |
| RecoveryStore.DrawFromEntry | src/services/recoveryService.ts:282-293 | the in-place draw computes exactly the draw function |
| Migration.UuidGroups | src/services/migrationService.ts:49-51 | the UUID test accepts exactly 8-4-4-4-12 hex groups with version 4 and variant 8, 9, a or b, in either case |
| Migration.HexCharFacts | src/services/migrationService.ts:58 | each random nibble prints as a lower-case hex digit, and 8-11 print as variant digits |
| Migration.VariantNibble | src/services/migrationService.ts:57 | `(r & 3) \| 8` is 8-11 and keeps r's low two bits |
| Migration.FillFacts | src/services/migrationService.ts:53-60 | filling the pattern puts hex digits for `x`, variant digits for `y`, and keeps everything else |
| Migration.GeneratedIsUuid | src/services/migrationService.ts:53-60 | every generated identifier passes the UUID test |
| Migration.NormalizeCases | src/services/migrationService.ts:62-73 | a blank id gets a fresh UUID. An id already mapped gets its mapping. Otherwise a UUID is kept or replaced by a fresh one, and is recorded in the map when there is one |
| Migration.NormalizeExtends | src/services/migrationService.ts:67-72 | the map only grows, and afterwards maps the raw id to the result |
| Migration.NormalizeAgain | src/services/migrationService.ts:62-73 | normalizing the same id with the updated map gives the same id and leaves the map alone |
| Migration.NormalizeIsUuid | src/services/migrationService.ts:62-73 | every normalized id is a UUID, and a map of UUIDs stays one |
| Migration.MealRows | src/services/migrationService.ts:136-150 | one row per meal; the obligation map is untouched |
| Migration.ExerciseRows | src/services/migrationService.ts:152-169 | one row per exercise; the obligation map is untouched |
| Migration.ObligationRows | src/services/migrationService.ts:171-190 | one row per obligation |
| Migration.EventRows | src/services/migrationService.ts:192-204 | one row per event; the meal map is untouched |
| Migration.LedgerRows | src/services/migrationService.ts:206-222 | one row per entry; the meal map is untouched |
| Migration.MealRecorded | src/services/migrationService.ts:136-137 | each meal's new id is what the meal map holds for its old id |
| Migration.ExerciseReference | src/services/migrationService.ts:154-156 | an exercise without a meal keeps none; one with a meal points at that meal's mapped id |
| Migration.ObligationRecorded | src/services/migrationService.ts:172-173 | each obligation's id and meal are what the two maps hold |
| Migration.EventReference | src/services/migrationService.ts:194 | each event points at its obligation's mapped id |
| Migration.LedgerReference | src/services/migrationService.ts:208 | each ledger entry points at its obligation's mapped id |
| Migration.ParseArray | src/services/migrationService.ts:75-85 | a stored array, or empty when missing, unreadable or not an array |
| Migration.ParseObject | src/services/migrationService.ts:87-97 | a stored object (not null, not an array), or none |
| Migration.SettingsPayloadOfStored | src/services/migrationService.ts:224-236 | settings the app stored migrate with their own goal, voice flag and language |
| Migration.SettingsGoalNotClamped | src/services/migrationService.ts:228 | unlike `sanitizeSettings`, the migration does not clamp: every finite nonzero stored goal is uploaded as it is (zero becomes 300), while the app reads 1000.5 or more as 1000 and below 99.5 as 100 |
| Migration.SettingsGoalFiveThousand | src/services/migrationService.ts:228 | one case of that: a stored goal of 5000 is uploaded as 5000 where the app reads 1000 |
| Migration.UsagePayloadOfStored | src/services/migrationService.ts:238-247 | usage data migrates with its counts, and today's date when its own is empty |
| Migration.BuildPayloads | src/services/migrationService.ts:114-247 | one row per stored record in each table, and a settings or usage row exactly when an object is stored |
| Migration.ExerciseMealAgrees | src/services/migrationService.ts:136-169 | an exercise and the meal it names end up with the same new id |
| Migration.ObligationMealAgrees | src/services/migrationService.ts:136-190 | an obligation and its meal end up with the same new id |
| Migration.SharedMealAgrees | src/services/migrationService.ts:152-190 | an exercise and an obligation naming the same meal agree on its new id |
| Migration.EventObligationAgrees | src/services/migrationService.ts:171-204 | an event and its obligation end up with the same new id |
| Migration.LedgerObligationAgrees | src/services/migrationService.ts:171-222 | a ledger entry and its obligation end up with the same new id |
| Migration.AttemptedFacts | src/services/migrationService.ts:249-308 | the upserts run in table order and stop at the first failure, which is the last one attempted; with no failure all run |
| Migration.UploadedAll | src/services/migrationService.ts:249-308 | when no table fails, every table is attempted in order and the migration is done |
| Migration.Migrator.GenerateUuidNow | src/services/migrationService.ts:53-60 | draws the next 31 nibbles as a UUID |
| Migration.Migrator.NormalizeUuid | src/services/migrationService.ts:62-73 | the method returns, draws and records exactly what the normalization function describes |
| Migration.Migrator.RecordId | src/services/migrationService.ts:70-72 | a new raw id keeps itself when it is a UUID and otherwise gets a fresh one, and is recorded |
| Migration.Migrator.MealRowFor | src/services/migrationService.ts:136-149 | one meal's row and map update |
| Migration.Migrator.ExerciseRowFor | src/services/migrationService.ts:152-168 | one exercise's row and map update |
| Migration.Migrator.ObligationRowFor | src/services/migrationService.ts:171-189 | one obligation's row and both map updates |
| Migration.Migrator.EventRowFor | src/services/migrationService.ts:192-203 | one event's row and map update |
| Migration.Migrator.LedgerRowFor | src/services/migrationService.ts:206-221 | one entry's row and map update |
| Migration.Migrator.MealPayload | src/services/migrationService.ts:136-150 | the loop builds the meal rows and the meal map |
| Migration.Migrator.ExercisePayload | src/services/migrationService.ts:152-169 | the loop builds the exercise rows |
| Migration.Migrator.ObligationPayload | src/services/migrationService.ts:171-190 | the loop builds the obligation rows and the obligation map |
| Migration.Migrator.EventPayload | src/services/migrationService.ts:192-204 | the loop builds the event rows |
| Migration.Migrator.LedgerPayload | src/services/migrationService.ts:206-222 | the loop builds the ledger rows |
| Migration.Migrator.ReadPayloads | src/services/migrationService.ts:114-247 | the seven payloads are exactly the ones the build function describes |
| Migration.Migrator.UploadTable | src/services/migrationService.ts:249-254 | a table with a payload is upserted; an empty one is skipped |
| Migration.Migrator.Upsert | src/services/migrationService.ts:250 | the upsert is logged and fails exactly for a failing table |
| Migration.Migrator.UploadPayloads | src/services/migrationService.ts:249-311 | the tables attempted are those of the failure prefix, the outcome is the first failure or success, and the marker is set only on success |
| Migration.Migrator.RunInitialMigrationIfNeeded | src/services/migrationService.ts:103-312 | nothing happens once migrated or without a client; otherwise the built payloads are uploaded and the marker set on success |
| Migration.Migrator.BootstrapSupabase | src/services/migrationService.ts:35-47 | without configuration or a user the app stays local; otherwise it runs the migration and reports its result |
| Estimation.ValidateAccepts | supabase/functions/calorie-estimation-v2/index.ts:31-41 | the check accepts exactly objects with a non-blank name string, numeric calories and confidence, a portion string, and an object range with numeric bounds |
| Estimation.AsEstimate | supabase/functions/calorie-estimation/index.ts:3-12 | a valid value describes an estimate with its non-blank name and its bounds |
| Estimation.EstimateRoundTrip | supabase/functions/calorie-estimation/index.ts:25-47 | every estimate with a non-blank name passes the check when written out, and reads back as itself |
| Estimation.FallbackFacts | supabase/functions/calorie-estimation-v2/index.ts:60-65 | the fallback finds a brace-delimited part of the text exactly when a `{` comes before a `}` |
| EstimationV2.FencedBodyFacts | supabase/functions/calorie-estimation-v2/index.ts:48-58 | a fenced body exists exactly when two non-overlapping fences exist, and lies between them |
| EstimationV2.ExtractJsonEnds | supabase/functions/calorie-estimation-v2/index.ts:43-46 | a blank reply gives none; a reply that is an object comes back trimmed |
| EstimationV2.ExtractJsonFound | supabase/functions/calorie-estimation-v2/index.ts:43-66 | every answer is brace-delimited and part of the trimmed reply |
| EstimationV2.ExtractJsonNone | supabase/functions/calorie-estimation-v2/index.ts:43-66 | there is an answer exactly when the reply has a `{` before a `}` |
| EstimationV2.ExtractJsonFenced | supabase/functions/calorie-estimation-v2/index.ts:46-65 | a fenced object wins over the braces of the whole reply |
| EstimationV2.ModeOf | supabase/functions/calorie-estimation-v2/index.ts:110 | detailed exactly when the body says "detailed" |
| EstimationV2.LocaleOf | supabase/functions/calorie-estimation-v2/index.ts:111 | Japanese exactly when the body says "ja" |
| EstimationV2.ReadRequestFacts | supabase/functions/calorie-estimation-v2/index.ts:105-111 | a request goes on exactly when its image is a non-blank string, sent trimmed; a missing or blank image gets 400 |
| EstimationV2.ReadRequestNonObject | supabase/functions/calorie-estimation-v2/index.ts:105-108 | a body that is not an object is refused with 400 |
| EstimationV2.AdmitFacts | supabase/functions/calorie-estimation-v2/index.ts:88-111 | only a POST with the key configured and a JSON body with a usable image goes on. Otherwise: 405, then 500, then 400 |
| EstimationV2.BuildInstructionMode | supabase/functions/calorie-estimation-v2/index.ts:68-86 | the instruction opens with the preamble followed by the sentence for the mode |
| EstimationV2.BuildInstructionLocale | supabase/functions/calorie-estimation-v2/index.ts:68-86 | the sentence for the locale follows the one for the mode |
| EstimationV1.FenceMatchIsFirst | supabase/functions/calorie-estimation/index.ts:61 | the scan finds exactly the match the regular expression's backtracking search finds, and none when it does not match |
| EstimationV1.ExtractJsonStringEnds | supabase/functions/calorie-estimation/index.ts:49-58 | a blank reply gives none; a reply that is an object comes back trimmed |
| EstimationV1.ExtractJsonStringFound | supabase/functions/calorie-estimation/index.ts:49-77 | every answer is brace-delimited and part of the trimmed reply |
| EstimationV1.ExtractJsonStringNone | supabase/functions/calorie-estimation/index.ts:49-77 | there is an answer exactly when the reply has a `{` before a `}` |
| EstimationV1.ExtractJsonStringFenced | supabase/functions/calorie-estimation/index.ts:60-74 | a fenced group that trims to an object wins over the braces of the whole reply |
| EstimationV1.PrecheckFacts | supabase/functions/calorie-estimation/index.ts:80-89 | only a POST with both settings and a bearer header goes on; a POST failing any is 401, anything else 405 |
| EstimationV1.AdmitFacts | supabase/functions/calorie-estimation/index.ts:79-117 | only a request passing the credentials, token, key and body checks reaches the model, with its image trimmed. Refusals are 401, then 500, then 400 |

## Left out

- Storage I/O: AsyncStorage calls, `JSON.parse` and `JSON.stringify` are not modelled as text. A stored key is a `Slot`, already parsed into the record types. Parse failures and wrong shapes are the `Unreadable` case. A record with missing or ill-typed fields is not represented.
- Time zones: the local clock has a fixed offset, so daylight-saving changes are not modelled. One `now` is taken per operation, where the source reads the clock several times.
- Time stamps: ISO timestamp strings are represented by the instants they denote.
- The clock and `Math.random` are parameters. `generateId` is a counter, so identifiers are assumed unique and their base-36 text is not modelled.
- Floating point: the arithmetic is exact over reals and integers. Counts and calories are integers wherever the source only ever stores integers. `Number()` of arbitrary text is modelled only for blank and all-digit strings.
- The Supabase client, anonymous sign-in and the network are parameters: whether the project is configured, the user id, whether a client exists, and which tables fail to upsert. The upserts' contents on the server, conflict handling and duplicate ids inside one payload are not modelled.
- `Map<string, string>` is a small class holding a Dafny `map`.
- The edge functions are modelled only up to the call to the model. Not modelled:
  - the OpenAI request itself, the 20-second timeout, and the 502 and 504 answers built around its response;
  - the `/auth/v1/user` call in the first function, which is the parameter `tokenAccepted`;
  - the fixed instruction text of the first function;
  - the request body's JSON text, which is already parsed (`None` when it is not JSON).
- `EstimationV2.BuildInstruction`: the five sentences are shown to appear in order, but the instruction is not shown to determine the mode and the locale.
- Console logging and `getDayLabel`. The statistics screen's labels come from `toLocaleDateString`, which is locale data.
- ExerciseCalculator.CalculateSets: requires a set size other than 0, since JavaScript would answer `Infinity` or `NaN` there. The only caller passes the default of 20.
- Stats.GetRangeDates: the week range requires today's day number to be at least 6, so that the week starts on or after 0001-01-01. The statistics proofs about date keys require four-digit years.
- Stats.CalculateStats: the daily labels are not computed.
- RecordStore.Store.SaveMealRecord: the identifier is an argument rather than the `Date.now()` and `Math.random` text.
