# PeakPhysique core in Dafny

PeakPhysique is an Android fitness app. It records workouts: timestamped sessions of sets, each set an exercise name with reps, weight and notes as typed. It also records body-weight entries and a few goals. This project models the deterministic logic that sits between the app's database and its screens, and proves what that logic computes.

- **Achievement feed** (`Feed`, FeedViewModel):
  - Personal-record (PR) detection per workout and exercise, against strictly earlier workouts, with an integer percentage increase.
  - The longest run of workouts exactly one `DAYS.between` apart, and the streak entry it yields.
  - The "Just now / N hours / N days / N months ago" label.
  - The stable sort of the feed by the instant read back from each label.
- **Statistics**:
  - `Progress` (ProgressViewModel): current and starting body weight; per-exercise (min, max) of the weights that parse; this month's workout count and PR count.
  - `Account` (AccountViewModel): the total number of workouts, the running-maximum "records broken" count, and the months-active span.
  - `Records`: the running-maximum reasoning both share.
- **History calendar** (`History`, HistoryScreen):
  - Filtering workouts to a month and to a day.
  - The per-exercise cards of the selected day.
  - Wrap-around month navigation.
  - The Sunday-first grid with per-cell flags and background colour.
- **Session and settings state**:
  - `Tracking` (TrackingViewModel): the in-progress list of sets.
  - `TrackingForm` (TrackingScreen): the input form, its validators and its dialogs.
  - `Settings` (SettingsRepository, SettingsViewModel) and `Survey` (SurveyViewModel): the null-coalescing goal merge and the stored settings.
  - `LogWeight` (LogWeightScreen): the weight text and its error flag.
- **Tables**:
  - `Models`: the entities.
  - `WorkoutTables` (WorkoutDAO): workouts and sets as in-memory tables with primary keys, a foreign key with cascading delete, `REPLACE` conflict handling, and the date-ordered and range queries.
  - `WeightTables` (WeightDAO): the body-weight table.
  - `Keyed`: the primary-key-and-REPLACE reasoning the tables share.
- **Support modules**:
  - `Calendar`: the proleptic Gregorian calendar of `java.time`.
  - `Text`: number printing and parsing.
  - `Seqs`: filter, stable insertion sort and flat-map, with their lemmas.
  - `Wrappers`: `Option`.

Time is a `LocalDateTime` value: a date and a second of the day. Its instant is `Timestamp = epochDay * 86400 + secondOfDay`, and the lemma `Calendar.TimestampOrder` ties that instant to `isBefore`. Java's `HOURS.between` and `DAYS.between` are the difference in seconds divided with truncation toward zero. `MONTHS.between` follows `java.time`'s rule: compare the dates, then move the end date by a day when the end's time of day is earlier.

The clock and the UUID generator are parameters (`now`, `workoutId`). Every Room `Flow` and `collect { }` body is modelled as a method or function over one snapshot of the table.

A table is a sequence of rows in insertion (rowid) order with unique keys. `KeyMap` is its map view. `INSERT OR REPLACE` deletes the row with the same key and appends the new one. Because the delete is a real delete, replacing a workout also cascades to its sets; `WorkoutTables.WorkoutDao.InsertWorkout` and `WorkoutTables.InsertWorkoutRows` state this.

A set batch whose foreign key fails is rejected whole, and `insertWorkoutWithSets` is a transaction: on failure nothing changes. An `ORDER BY date DESC` keeps rows of equal date in table order, so every listing is a stable sort.

Behaviour of the code as written that the model keeps, each stated by a lemma:

- **The streak entry is added once per workout**, because `checkWorkoutStreak` is called inside the per-workout loop. The generated list holds it `n` times or not at all (`Feed.StreakCount`). Its label comes from the latest workout, not from the end of the longest run.
- **Two workouts less than 24 hours apart** have `DAYS.between` = 0, so they reset the run (`Feed.SameDayResets`).
- **The feed is sorted by re-reading the labels.** A "1 months ago" label is read back as `now.minusMonths(1)`, which can come after the instant of a later "29 days ago" label. So the feed can list an older workout first (`Feed.MonthLabelOutOfOrder`: on 1 March 2026, 30 January sorts before 31 January).
- **The monthly statistics** keep only workouts strictly after `now.withDayOfMonth(1)`, an instant that keeps the current time of day (`Progress.MonthStart`). A workout on the first of the month earlier in the day than `now` is not counted.
- **`monthsActive`** is `MONTHS.between` of the two first-of-month instants, plus one. Each instant keeps its workout's time of day, so it is one less when the latest workout's time of day is earlier than the earliest workout's (`Account.MonthsActiveSpan`). The Kotlin `Int` conversion and addition wrap at 32 bits (`Account.Wrap32`).
- **Log Weight** accepts a positive number, then clears the text. It stores nothing.

## Model

| member | source | states |
|---|---|---|
| Models.ToSetEntity | app/src/main/java/com/peakphysique/app/viewmodel/TrackingViewModel.kt:95-104 | the entity built from a session set carries the given workout id |
| Models.SetEntityRoundTrip | app/src/main/java/com/peakphysique/app/model/Models.kt:64-84 | `SetEntity` is `WorkoutSet` plus `workoutId`: converting either way and back is the identity |
| Models.Readings | app/src/main/java/com/peakphysique/app/viewmodel/FeedViewModel.kt:58 | one parse result per set, in order |
| Models.Present | app/src/main/java/com/peakphysique/app/viewmodel/FeedViewModel.kt:58 | `mapNotNull` keeps at most as many values, and none exactly when no value parsed |
| Models.PresentIn | app/src/main/java/com/peakphysique/app/viewmodel/FeedViewModel.kt:58 | a value is kept iff it was a successful parse |
| Models.MaxOf | app/src/main/java/com/peakphysique/app/viewmodel/ProgressViewModel.kt:87 | the maximum is an element and bounds every element |
| Models.MinOf | app/src/main/java/com/peakphysique/app/viewmodel/ProgressViewModel.kt:86 | the minimum is an element and is below every element |
| Models.AllSetsIn | app/src/main/java/com/peakphysique/app/viewmodel/FeedViewModel.kt:56 | `flatMap { it.sets }` holds exactly the sets of some workout |
| Models.AllSetsConcat | app/src/main/java/com/peakphysique/app/viewmodel/ProgressViewModel.kt:80 | flattening distributes over concatenation |
| Models.TotalSetsSortBy | app/src/main/java/com/peakphysique/app/viewmodel/AccountViewModel.kt:49 | sorting the workouts keeps the total number of sets |
| Models.Named | app/src/main/java/com/peakphysique/app/viewmodel/FeedViewModel.kt:57 | the filtered sets all carry the name and are no more than the input |
| Models.NamedIn | app/src/main/java/com/peakphysique/app/viewmodel/FeedViewModel.kt:57 | a set is kept iff it is in the input and has the name |
| Models.GroupNames | app/src/main/java/com/peakphysique/app/viewmodel/FeedViewModel.kt:47 | the `groupBy` keys, in first-appearance order, are distinct |
| Models.GroupNamesIn | app/src/main/java/com/peakphysique/app/viewmodel/FeedViewModel.kt:47 | a name is a group key iff some set has it |
| Models.NamedHead | app/src/main/java/com/peakphysique/app/view/HistoryScreen.kt:80-85 | the first set of a group is the first set with that name |
| Models.SortByDate | app/src/main/java/com/peakphysique/app/viewmodel/AccountViewModel.kt:49 | `sortedBy { date }` is a permutation in non-decreasing date order |
| Keyed.KeyMapRows | app/src/main/java/com/peakphysique/app/model/Models.kt:47-51 | a key is in the table's map iff some row has it, and maps to such a row |
| Keyed.KeyMapUnique | app/src/main/java/com/peakphysique/app/model/Models.kt:77-78 | with unique primary keys, every row is what its key maps to |
| Keyed.KeyMapHolds | app/src/main/java/com/peakphysique/app/model/Models.kt:77-78 | with unique primary keys, a row is in the table iff its key maps to it |
| Keyed.KeyMapDrop | app/src/main/java/com/peakphysique/app/database/dao/WorkoutDAO.kt:61-67 | deleting by key removes exactly that key from the map |
| Keyed.FilterUnique | app/src/main/java/com/peakphysique/app/model/Models.kt:71 | deleting rows keeps the primary keys unique |
| Keyed.KeyMapUpsert | app/src/main/java/com/peakphysique/app/database/dao/WorkoutDAO.kt:48-49 | a REPLACE insert maps the row's key to the row and changes no other key |
| Keyed.UpsertUnique | app/src/main/java/com/peakphysique/app/database/dao/WorkoutDAO.kt:48-49 | a REPLACE insert keeps the primary keys unique |
| Keyed.KeyMapUpsertAll | app/src/main/java/com/peakphysique/app/database/dao/WorkoutDAO.kt:57-58 | inserting a batch with REPLACE maps each key of the batch to its last row in the batch and keeps every other key |
| Keyed.UpsertAllUnique | app/src/main/java/com/peakphysique/app/database/dao/WorkoutDAO.kt:57-58 | a batch of REPLACE inserts keeps the primary keys unique |
| Keyed.UpsertAllIn | app/src/main/java/com/peakphysique/app/database/dao/WorkoutDAO.kt:57-58 | after a batch, a row is present iff it is the batch's row for its key or, for a key the batch lacks, an old row |
| WorkoutTables.CascadeIn | app/src/main/java/com/peakphysique/app/model/Models.kt:66-72 | the cascade keeps exactly the sets referring to another workout |
| WorkoutTables.DropConsistent | app/src/main/java/com/peakphysique/app/model/Models.kt:64-72 | removing a workout together with its sets keeps both keys unique and every foreign key resolved |
| WorkoutTables.InsertWorkoutRows | app/src/main/java/com/peakphysique/app/database/dao/WorkoutDAO.kt:48-49 | REPLACE of a workout maps its id to it, keeps the other workouts, drops the sets of the replaced row, and keeps the constraints |
| WorkoutTables.InsertSetsRows | app/src/main/java/com/peakphysique/app/database/dao/WorkoutDAO.kt:57-58 | a batch whose foreign keys resolve adds or replaces its sets, keeps every other set, and keeps the constraints |
| WorkoutTables.DeleteWorkoutRows | app/src/main/java/com/peakphysique/app/database/dao/WorkoutDAO.kt:61-67 | deleting a workout removes its id and exactly the sets referring to it, and keeps the constraints |
| WorkoutTables.SavedWorkoutSets | app/src/main/java/com/peakphysique/app/database/dao/WorkoutDAO.kt:76-80 | after saving a workout with a batch, its sets are exactly the batch's rows per id (the batch itself when its ids are distinct) |
| WorkoutTables.Attach | app/src/main/java/com/peakphysique/app/model/Models.kt:93-100 | each `WorkoutWithSets` pairs a workout with the sets referring to it, in query order |
| WorkoutTables.WorkoutsOf | app/src/main/java/com/peakphysique/app/model/Models.kt:93-100 | the workouts of a joined result, in order |
| WorkoutTables.AttachedSets | app/src/main/java/com/peakphysique/app/model/Models.kt:95-99 | `WorkoutWithSets.sets` holds exactly the sets whose `workoutId` is the workout's id |
| WorkoutTables.AttachWorkouts | app/src/main/java/com/peakphysique/app/model/Models.kt:93-100 | the relation lists exactly the queried workouts, in order |
| WorkoutTables.AllWorkoutsListed | app/src/main/java/com/peakphysique/app/database/dao/WorkoutDAO.kt:27-29 | `getAllWorkoutsWithSets` lists every workout exactly once |
| WorkoutTables.AllWorkoutsNewestFirst | app/src/main/java/com/peakphysique/app/database/dao/WorkoutDAO.kt:27-29 | the listing is ordered by date, newest first |
| WorkoutTables.AllWorkoutsSets | app/src/main/java/com/peakphysique/app/database/dao/WorkoutDAO.kt:27-29 | each listed workout carries exactly its own sets |
| WorkoutTables.RangeListing | app/src/main/java/com/peakphysique/app/database/dao/WorkoutDAO.kt:39-40 | `getWorkoutsInRange` lists exactly the workouts dated from start to end, both included |
| WorkoutTables.RangeSets | app/src/main/java/com/peakphysique/app/database/dao/WorkoutDAO.kt:39-40 | each workout in the range carries exactly its own sets |
| WorkoutTables.WorkoutDao.constructor | app/src/main/java/com/peakphysique/app/database/dao/WorkoutDAO.kt:19-81 | an empty database meets the key and foreign-key constraints |
| WorkoutTables.WorkoutDao.InsertWorkout | app/src/main/java/com/peakphysique/app/database/dao/WorkoutDAO.kt:48-49 | REPLACE of the workout; the replaced row's sets are deleted by cascade; the constraints are kept |
| WorkoutTables.WorkoutDao.InsertSets | app/src/main/java/com/peakphysique/app/database/dao/WorkoutDAO.kt:57-58 | succeeds iff every set refers to an existing workout, then REPLACE of each set; on failure nothing changes |
| WorkoutTables.WorkoutDao.DeleteWorkout | app/src/main/java/com/peakphysique/app/database/dao/WorkoutDAO.kt:61-67 | removes the workout and, by cascade, its sets; nothing else changes |
| WorkoutTables.WorkoutDao.InsertWorkoutWithSets | app/src/main/java/com/peakphysique/app/database/dao/WorkoutDAO.kt:76-80 | the workout, then its sets, in one transaction: succeeds iff the sets' foreign keys resolve after the workout insert, and on failure both tables are as before |
| WeightTables.SortedNewestFirst | app/src/main/java/com/peakphysique/app/database/dao/WeightDAO.kt:15-16 | sorting by the negated instant yields dates that never increase |
| WeightTables.AllWeightsListing | app/src/main/java/com/peakphysique/app/database/dao/WeightDAO.kt:15-16 | `getAllWeights` is every entry exactly once, newest first |
| WeightTables.NewestAndOldest | app/src/main/java/com/peakphysique/app/viewmodel/ProgressViewModel.kt:66-71 | the first listed entry is the newest and the last the oldest of the table |
| WeightTables.LatestWeightIsNewest | app/src/main/java/com/peakphysique/app/database/dao/WeightDAO.kt:18-19 | `getLatestWeight` is null iff the table is empty, otherwise an entry with no later entry |
| WeightTables.RangeListing | app/src/main/java/com/peakphysique/app/database/dao/WeightDAO.kt:21-22 | `getWeightsInRange` is exactly the entries from start to end, both included, newest first |
| WeightTables.InsertWeightListing | app/src/main/java/com/peakphysique/app/database/dao/WeightDAO.kt:12-13 | after an insert the listing holds exactly one more entry, the new one |
| WeightTables.WeightDao.constructor | app/src/main/java/com/peakphysique/app/database/dao/WeightDAO.kt:10-23 | the table starts empty |
| WeightTables.WeightDao.InsertWeight | app/src/main/java/com/peakphysique/app/database/dao/WeightDAO.kt:12-13 | a plain insert appends exactly one row |
| Calendar.LengthOfMonth | app/src/main/java/com/peakphysique/app/view/HistoryScreen.kt:248 | 28 to 31 days; 29 exactly for February of a proleptic Gregorian leap year, 28 for other Februaries |
| Calendar.DayOfWeek | app/src/main/java/com/peakphysique/app/view/HistoryScreen.kt:247 | `dayOfWeek.value` is in 1..7 (Monday 1 … Sunday 7) |
| Calendar.EpochDayOfEpoch | app/src/main/java/com/peakphysique/app/view/HistoryScreen.kt:247 | 1970-01-01 is epoch day 0 and a Thursday |
| Calendar.TimestampOrder | app/src/main/java/com/peakphysique/app/viewmodel/FeedViewModel.kt:55 | `isBefore` on date-times is `<` on instants, and equal instants are equal date-times |
| Calendar.MinusDays | app/src/main/java/com/peakphysique/app/viewmodel/TrackingViewModel.kt:52 | `minusDays(n)` is n·86400 seconds earlier and keeps the time of day |
| Calendar.WithDayOfMonth1 | app/src/main/java/com/peakphysique/app/viewmodel/ProgressViewModel.kt:101 | `withDayOfMonth(1)` keeps year, month and time of day and is not after the input |
| Calendar.PlusMonths | app/src/main/java/com/peakphysique/app/viewmodel/FeedViewModel.kt:91-93 | moves the month by n, clamps the day to the new month's length, and keeps the time of day |
| Calendar.DaysBetweenNonNegative | app/src/main/java/com/peakphysique/app/viewmodel/FeedViewModel.kt:117 | `DAYS.between` of dates in order is not negative |
| Text.NatToString | app/src/main/java/com/peakphysique/app/viewmodel/FeedViewModel.kt:152-154 | a count prints as digits with no leading zero |
| Text.NatToStringValue | app/src/main/java/com/peakphysique/app/viewmodel/FeedViewModel.kt:152-154 | the printed digits denote the count |
| Text.ParseInteger | app/src/main/java/com/peakphysique/app/viewmodel/FeedViewModel.kt:86 | a parsed integer comes from non-empty text, and an all-digit text denotes its digits |
| Text.ParseLong | app/src/main/java/com/peakphysique/app/viewmodel/FeedViewModel.kt:86 | `toLongOrNull` succeeds iff the integer fits in 64 bits |
| Text.ParseInt | app/src/main/java/com/peakphysique/app/view/HistoryScreen.kt:84 | `toIntOrNull` succeeds iff the integer fits in 32 bits |
| Text.ParseLongOfNatToString | app/src/main/java/com/peakphysique/app/viewmodel/FeedViewModel.kt:86 | a printed count that fits in 64 bits reads back as itself |
| Text.ParseDecimalOfNatToString | app/src/main/java/com/peakphysique/app/view/LogWeightScreen.kt:70 | a printed whole number reads back as that number |
| Text.ParseDecimalWithSuffix | app/src/main/java/com/peakphysique/app/view/TrackingScreen.kt:59-60 | a printed whole number followed by a type suffix `f`, `F`, `d` or `D` reads back as that number, as the floating-point grammar allows |
| Text.ParsedIsNotBlank | app/src/main/java/com/peakphysique/app/view/TrackingScreen.kt:57-61 | text that parses as a number is not blank |
| Text.BlankIsNotParsed | app/src/main/java/com/peakphysique/app/view/TrackingScreen.kt:57-61 | blank text does not parse as a number |
| Text.ContainsAt | app/src/main/java/com/peakphysique/app/viewmodel/FeedViewModel.kt:84 | text containing another at some position `contains` it |
| Text.IndexOf | app/src/main/java/com/peakphysique/app/viewmodel/FeedViewModel.kt:86 | the first position of a character, or the length when absent |
| Text.FirstWord | app/src/main/java/com/peakphysique/app/viewmodel/FeedViewModel.kt:86 | `split(" ")[0]` is the longest prefix without a space |
| Text.FirstWordOfNumber | app/src/main/java/com/peakphysique/app/viewmodel/FeedViewModel.kt:86 | the first word of "digits then a space" is the digits |
| Feed.WholeHours | app/src/main/java/com/peakphysique/app/viewmodel/FeedViewModel.kt:147 | `HOURS.between` is below 1 iff under an hour, and for a non-negative age is the whole hours in it |
| Feed.WholeDays | app/src/main/java/com/peakphysique/app/viewmodel/FeedViewModel.kt:148 | `DAYS.between` is below 1 iff under a day, and for a non-negative age is the whole days in it |
| Feed.WholeMonths | app/src/main/java/com/peakphysique/app/viewmodel/FeedViewModel.kt:154 | from 30 days on, `days / 30` is at least 1 and is the whole 30-day periods in the age |
| Feed.AgeOf | app/src/main/java/com/peakphysique/app/viewmodel/FeedViewModel.kt:145-155 | the four buckets, each iff its bounds on the age: just now under an hour (including the future), hours in 1..23, days in 1..29, months of at least 1, each count the whole units elapsed |
| Feed.NumberNotInWords | app/src/main/java/com/peakphysique/app/viewmodel/FeedViewModel.kt:152-154 | a printed count contains no letter |
| Feed.LabelCount | app/src/main/java/com/peakphysique/app/viewmodel/FeedViewModel.kt:86 | the sort key's `split(" ")[0].toLongOrNull()` of a label reads back its count |
| Feed.LabelHolds | app/src/main/java/com/peakphysique/app/viewmodel/FeedViewModel.kt:85-93 | a label contains its unit word |
| Feed.LabelLacks | app/src/main/java/com/peakphysique/app/viewmodel/FeedViewModel.kt:84-93 | a label does not contain a word with a letter outside the label's text |
| Feed.HoursLabel | app/src/main/java/com/peakphysique/app/viewmodel/FeedViewModel.kt:85-87 | an "N hours ago" label sorts at now minus N hours |
| Feed.DaysLabel | app/src/main/java/com/peakphysique/app/viewmodel/FeedViewModel.kt:88-90 | an "N days ago" label sorts at now minus N days |
| Feed.MonthsLabel | app/src/main/java/com/peakphysique/app/viewmodel/FeedViewModel.kt:91-93 | an "N months ago" label sorts at now minus N calendar months |
| Feed.SortKeyOfRender | app/src/main/java/com/peakphysique/app/viewmodel/FeedViewModel.kt:82-96 | every rendered label reads back as the instant its bucket names |
| Feed.SortKeyOfTimeAgo | app/src/main/java/com/peakphysique/app/viewmodel/FeedViewModel.kt:82-96 | the label of an instant reads back as its bucket's instant; hour and day labels land within an hour or a day after the labelled instant |
| Feed.MonthLabelOutOfOrder | app/src/main/java/com/peakphysique/app/viewmodel/FeedViewModel.kt:91-93 | on 2026-03-01 a workout of 30 January ("1 months ago") sorts newer than one of 31 January ("29 days ago") |
| Feed.ExerciseMax | app/src/main/java/com/peakphysique/app/viewmodel/FeedViewModel.kt:51 | `maxOfOrNull { toDoubleOrNull() ?: 0.0 } ?: 0.0` is 0 for no sets and bounds every set's weight |
| Feed.ExerciseMaxAttained | app/src/main/java/com/peakphysique/app/viewmodel/FeedViewModel.kt:51 | the maximum of a non-empty group is some set's weight (0 if unparsed) |
| Feed.MaxOrZero | app/src/main/java/com/peakphysique/app/viewmodel/FeedViewModel.kt:59 | `maxOrNull() ?: 0.0` is 0 for none, otherwise an element bounding all |
| Feed.PreviousMaxBound | app/src/main/java/com/peakphysique/app/viewmodel/FeedViewModel.kt:54-59 | every parsed weight of the exercise in a strictly earlier workout is at most the previous max |
| Feed.PreviousMaxAttained | app/src/main/java/com/peakphysique/app/viewmodel/FeedViewModel.kt:54-59 | a positive previous max is the parsed weight of some set of the exercise in a strictly earlier workout |
| Feed.PreviousMaxNone | app/src/main/java/com/peakphysique/app/viewmodel/FeedViewModel.kt:54-59 | with no parsed weight of the exercise in an earlier workout, the previous max is 0 |
| Feed.PreviousMaxIgnores | app/src/main/java/com/peakphysique/app/viewmodel/FeedViewModel.kt:55 | a workout not strictly earlier, including one of the same date, does not affect the previous max |
| Feed.FirstAppearanceNoPr | app/src/main/java/com/peakphysique/app/viewmodel/FeedViewModel.kt:62 | an exercise with no earlier parsed weight never yields a PR |
| Feed.Increase | app/src/main/java/com/peakphysique/app/viewmodel/FeedViewModel.kt:63 | `((max − prev) / prev × 100).toInt()`: the truncated percentage, capped at `Int.MAX_VALUE`, at least 0, and 0 iff the increase is under 1% |
| Feed.Announcements | app/src/main/java/com/peakphysique/app/viewmodel/FeedViewModel.kt:62-72 | at most one PR entry per exercise, each labelled with the workout's time |
| Feed.AnnouncedIff | app/src/main/java/com/peakphysique/app/viewmodel/FeedViewModel.kt:62-72 | a PR entry for a name is emitted iff that name's candidate beats its previous max |
| Feed.AnnouncedFrom | app/src/main/java/com/peakphysique/app/viewmodel/FeedViewModel.kt:64-71 | every emitted entry is the announcement of a beating candidate |
| Feed.Candidates | app/src/main/java/com/peakphysique/app/viewmodel/FeedViewModel.kt:49 | one candidate per exercise group, in group order |
| Feed.CandidateAt | app/src/main/java/com/peakphysique/app/viewmodel/FeedViewModel.kt:49-59 | the candidate of a group is its max against the previous max |
| Feed.AnnouncedByName | app/src/main/java/com/peakphysique/app/viewmodel/FeedViewModel.kt:49-72 | over the group names, a PR for a name is emitted iff the name is a group and its candidate beats |
| Feed.PrEmitted | app/src/main/java/com/peakphysique/app/viewmodel/FeedViewModel.kt:47-72 | a workout yields a PR entry for E iff it has a set of E, its max E weight exceeds the earlier max, and that max is positive |
| Feed.Dates | app/src/main/java/com/peakphysique/app/viewmodel/FeedViewModel.kt:109 | the workout dates, in order |
| Feed.DayGaps | app/src/main/java/com/peakphysique/app/viewmodel/FeedViewModel.kt:116-117 | one `DAYS.between` per adjacent pair of sorted dates |
| Feed.Run | app/src/main/java/com/peakphysique/app/viewmodel/FeedViewModel.kt:118-123 | the current streak after i steps is between 1 and i + 1 |
| Feed.LongestRun | app/src/main/java/com/peakphysique/app/viewmodel/FeedViewModel.kt:120 | the maximum streak is in 1..k and bounds every current streak |
| Feed.LongestRunAttained | app/src/main/java/com/peakphysique/app/viewmodel/FeedViewModel.kt:120 | the maximum streak is reached at some step |
| Feed.RunIsChain | app/src/main/java/com/peakphysique/app/viewmodel/FeedViewModel.kt:118-123 | a current streak of r covers r − 1 gaps of exactly one day, preceded by a gap that is not |
| Feed.SameDayResets | app/src/main/java/com/peakphysique/app/viewmodel/FeedViewModel.kt:117-122 | two workouts less than 24 hours apart reset the streak to 1 |
| Feed.LatestDate | app/src/main/java/com/peakphysique/app/viewmodel/FeedViewModel.kt:131 | `sortedDates.last()` is a workout date with no later one |
| Feed.LongestStreak | app/src/main/java/com/peakphysique/app/viewmodel/FeedViewModel.kt:112-124 | the loop's `maxStreak` is the longest run of one-day gaps, plus one |
| Feed.RunStep | app/src/main/java/com/peakphysique/app/viewmodel/FeedViewModel.kt:118-123 | one loop step: a one-day gap extends the streak and otherwise resets it to 1; the maximum follows |
| Feed.CheckWorkoutStreak | app/src/main/java/com/peakphysique/app/viewmodel/FeedViewModel.kt:108-136 | null for no workouts or a longest run under 5, else a streak entry of that length labelled by the latest workout |
| Feed.StreakList | app/src/main/java/com/peakphysique/app/viewmodel/FeedViewModel.kt:76-78 | the `?.let { add }` adds at most one entry, a streak |
| Feed.NoStreakInPrs | app/src/main/java/com/peakphysique/app/viewmodel/FeedViewModel.kt:64-71 | the PR pass adds no streak entry |
| Feed.WorkoutStreakCount | app/src/main/java/com/peakphysique/app/viewmodel/FeedViewModel.kt:76-78 | each workout's pass adds the streak entry once when there is one |
| Feed.StreakCount | app/src/main/java/com/peakphysique/app/viewmodel/FeedViewModel.kt:45-79 | the generated list holds the streak entry once per workout when the streak is at least 5, otherwise never |
| Feed.WorkoutPrs | app/src/main/java/com/peakphysique/app/viewmodel/FeedViewModel.kt:45-79 | a workout's pass announces E iff the workout has E and beats the earlier max |
| Feed.PrInFeed | app/src/main/java/com/peakphysique/app/viewmodel/FeedViewModel.kt:45-79 | the generated list has a PR of E iff some workout has E and beats its earlier max |
| Feed.PublishedOrder | app/src/main/java/com/peakphysique/app/viewmodel/FeedViewModel.kt:82-96 | the feed is a permutation of the generated entries, newest read-back instant first, and entries with equal instants keep generation order |
| Feed.GroupStep | app/src/main/java/com/peakphysique/app/viewmodel/FeedViewModel.kt:49-73 | one group step appends the group's PR entry exactly when it beats |
| Feed.PrPass | app/src/main/java/com/peakphysique/app/viewmodel/FeedViewModel.kt:47-73 | the inner loop appends exactly the workout's PR entries |
| Feed.GenerateEntries | app/src/main/java/com/peakphysique/app/viewmodel/FeedViewModel.kt:43-79 | the outer loop builds, per workout, its PR entries then the streak entry |
| Feed.WorkoutStep | app/src/main/java/com/peakphysique/app/viewmodel/FeedViewModel.kt:45-79 | one pass of the outer loop extends the list by that workout's entries |
| Feed.FeedViewModel.constructor | app/src/main/java/com/peakphysique/app/viewmodel/FeedViewModel.kt:36 | the feed starts empty |
| Feed.FeedViewModel.Collect | app/src/main/java/com/peakphysique/app/viewmodel/FeedViewModel.kt:42-97 | after one emission the feed is the generated entries sorted newest first |
| Records.Lifts | app/src/main/java/com/peakphysique/app/viewmodel/AccountViewModel.kt:53 | one (name, weight or 0) lift per set |
| Records.LiftsAppend | app/src/main/java/com/peakphysique/app/viewmodel/AccountViewModel.kt:51-52 | lifts distribute over concatenation |
| Records.Best | app/src/main/java/com/peakphysique/app/viewmodel/AccountViewModel.kt:54 | the running max of a name is at least 0 and bounds every lift of that name |
| Records.BestAttained | app/src/main/java/com/peakphysique/app/viewmodel/AccountViewModel.kt:54-58 | a positive running max is some lift's weight |
| Records.RecordIffAboveBest | app/src/main/java/com/peakphysique/app/viewmodel/AccountViewModel.kt:56 | a lift is a record iff it exceeds the running max of its name |
| Records.RecordCountAtMostSets | app/src/main/java/com/peakphysique/app/viewmodel/AccountViewModel.kt:56-59 | at most one record per set |
| Records.BestAppend | app/src/main/java/com/peakphysique/app/viewmodel/AccountViewModel.kt:56-58 | the running max rises to a heavier lift of its name and is otherwise unchanged |
| Records.RecordCountAppend | app/src/main/java/com/peakphysique/app/viewmodel/AccountViewModel.kt:56-59 | one more lift adds one record exactly when it is a record |
| Records.VisitAt | app/src/main/java/com/peakphysique/app/viewmodel/AccountViewModel.kt:54-58 | after a visit the map holds a name iff its running max is positive, and holds that max |
| Records.RecordStep | app/src/main/java/com/peakphysique/app/viewmodel/AccountViewModel.kt:53-59 | the test `weight > currentMax` is the record condition, and the map keeps tracking the running maxima |
| Records.VisitStep | app/src/main/java/com/peakphysique/app/viewmodel/ProgressViewModel.kt:126-132 | one set visited: the map keeps tracking the maxima and the count grows exactly for a record |
| Records.LiftsOfWorkouts | app/src/main/java/com/peakphysique/app/viewmodel/AccountViewModel.kt:51-52 | the lifts of one more workout are appended in order |
| Records.VisitSets | app/src/main/java/com/peakphysique/app/viewmodel/AccountViewModel.kt:52-60 | the inner loop leaves the map tracking the maxima and the count equal to the records so far |
| Records.NamesWithWeight | app/src/main/java/com/peakphysique/app/viewmodel/AccountViewModel.kt:53-58 | the distinct names with a positive weight |
| Records.RecordCountAtLeastNames | app/src/main/java/com/peakphysique/app/viewmodel/AccountViewModel.kt:51-60 | there is at least one record per name with a positive weight |
| Account.RecordsBrokenBounds | app/src/main/java/com/peakphysique/app/viewmodel/AccountViewModel.kt:45-64 | records broken is at most the number of sets and at least the number of names with a positive weight |
| Account.CountRecordsBroken | app/src/main/java/com/peakphysique/app/viewmodel/AccountViewModel.kt:45-63 | the nested loop, in ascending date order with maxima starting at 0, counts exactly the records |
| Account.FirstWorkoutDate | app/src/main/java/com/peakphysique/app/viewmodel/AccountViewModel.kt:72 | `minOf { date }` is a workout date with none earlier |
| Account.LastWorkoutDate | app/src/main/java/com/peakphysique/app/viewmodel/AccountViewModel.kt:73 | `maxOf { date }` is a workout date with none later |
| Account.Wrap32 | app/src/main/java/com/peakphysique/app/viewmodel/AccountViewModel.kt:75-78 | Kotlin `Int` wrap-around stays in the 32-bit range and is the identity there |
| Account.MonthsBetweenFirstDays | app/src/main/java/com/peakphysique/app/viewmodel/AccountViewModel.kt:75-77 | `MONTHS.between` of two first-of-month instants is the month difference, less one when the later one's time of day is earlier |
| Account.MonthsActiveSpan | app/src/main/java/com/peakphysique/app/viewmodel/AccountViewModel.kt:72-78 | months active is the calendar-month span plus one, less one when the latest workout is earlier in the day than the earliest; so it is in 1..span + 1 |
| Account.MonthsActiveOrderFree | app/src/main/java/com/peakphysique/app/viewmodel/AccountViewModel.kt:72-73 | months active depends only on the workouts, not their order |
| Account.AccountViewModel.constructor | app/src/main/java/com/peakphysique/app/viewmodel/AccountViewModel.kt:18-25 | all three counters start at 0 |
| Account.AccountViewModel.LoadWorkoutStats | app/src/main/java/com/peakphysique/app/viewmodel/AccountViewModel.kt:33-43 | one emission sets the total to the list size, the records broken and the months active |
| Account.AccountViewModel.CalculateRecordsBroken | app/src/main/java/com/peakphysique/app/viewmodel/AccountViewModel.kt:45-64 | writes the records broken and nothing else |
| Account.AccountViewModel.CalculateMonthsActive | app/src/main/java/com/peakphysique/app/viewmodel/AccountViewModel.kt:66-81 | writes the months active (0 for no workouts) and nothing else |
| Progress.ParsedWeightsIn | app/src/main/java/com/peakphysique/app/viewmodel/ProgressViewModel.kt:84 | the weights of a group are exactly its parsed weights |
| Progress.WeightsOfIn | app/src/main/java/com/peakphysique/app/viewmodel/ProgressViewModel.kt:83-84 | a value is among an exercise's weights iff some set of it parses to the value |
| Progress.WeightsOfNonEmpty | app/src/main/java/com/peakphysique/app/viewmodel/ProgressViewModel.kt:86 | an exercise has weights iff some set of it has a weight that parses |
| Progress.StrengthHasWeights | app/src/main/java/com/peakphysique/app/viewmodel/ProgressViewModel.kt:86-87 | an exercise is a key iff it has weights |
| Progress.StrengthKeys | app/src/main/java/com/peakphysique/app/viewmodel/ProgressViewModel.kt:80-91 | the strength map has key E iff some set named E has a weight that parses |
| Progress.StrengthValue | app/src/main/java/com/peakphysique/app/viewmodel/ProgressViewModel.kt:89 | the pair is the least and the greatest parsed weight of E, so first ≤ second |
| Progress.StrengthIgnoresUnparsed | app/src/main/java/com/peakphysique/app/viewmodel/ProgressViewModel.kt:84 | a set whose weight does not parse changes nothing |
| Progress.ProgressStep | app/src/main/java/com/peakphysique/app/viewmodel/ProgressViewModel.kt:83-91 | one group step adds (min, max) exactly for a group with weights |
| Progress.ExerciseProgress | app/src/main/java/com/peakphysique/app/viewmodel/ProgressViewModel.kt:78-92 | the loop fills the map with exactly the strength progress |
| Progress.MonthStart | app/src/main/java/com/peakphysique/app/viewmodel/ProgressViewModel.kt:101 | a workout of this month is after `withDayOfMonth(1)` iff it is after the 1st, or on the 1st later in the day than now |
| Progress.MonthlyWindowContents | app/src/main/java/com/peakphysique/app/viewmodel/ProgressViewModel.kt:121-124 | the workouts visited are exactly those after the month start, in ascending date order |
| Progress.MonthlyWindowSize | app/src/main/java/com/peakphysique/app/viewmodel/ProgressViewModel.kt:103-105 | as many workouts are visited as are counted this month |
| Progress.MonthlyPRsBound | app/src/main/java/com/peakphysique/app/viewmodel/ProgressViewModel.kt:125-133 | the monthly PR count is at most the number of sets visited |
| Progress.EarlierIgnored | app/src/main/java/com/peakphysique/app/viewmodel/ProgressViewModel.kt:124 | a workout before the month start changes neither the count nor the PRs |
| Progress.WindowVisit | app/src/main/java/com/peakphysique/app/viewmodel/ProgressViewModel.kt:123-126 | a visited workout appends its sets to the lifts seen |
| Progress.WindowSkip | app/src/main/java/com/peakphysique/app/viewmodel/ProgressViewModel.kt:124 | a skipped workout adds nothing |
| Progress.CalculateMonthlyPRs | app/src/main/java/com/peakphysique/app/viewmodel/ProgressViewModel.kt:114-137 | the loop counts exactly the records among this month's sets, with maxima starting at 0 |
| Progress.ProgressViewModel.constructor | app/src/main/java/com/peakphysique/app/viewmodel/ProgressViewModel.kt:23-42 | weights null, goal 0, empty map, counts 0, default goals |
| Progress.ProgressViewModel.ObserveGoals | app/src/main/java/com/peakphysique/app/viewmodel/ProgressViewModel.kt:56-62 | goal weight becomes the stored weight goal and the strength goals the stored goals; nothing else changes |
| Progress.ProgressViewModel.LoadWeightProgress | app/src/main/java/com/peakphysique/app/viewmodel/ProgressViewModel.kt:64-73 | current weight is the first (newest) entry's, starting weight the last's; an empty list changes nothing |
| Progress.ProgressViewModel.LoadStrengthProgress | app/src/main/java/com/peakphysique/app/viewmodel/ProgressViewModel.kt:75-96 | writes the strength progress of all sets and nothing else |
| Progress.ProgressViewModel.LoadMonthlyStats | app/src/main/java/com/peakphysique/app/viewmodel/ProgressViewModel.kt:98-112 | writes this month's workout count and PR count, both from `now.withDayOfMonth(1)` |
| History.MonthDaysIn | app/src/main/java/com/peakphysique/app/view/HistoryScreen.kt:61-68 | a day is listed iff some workout of the month falls on it |
| History.WorkoutDates | app/src/main/java/com/peakphysique/app/view/HistoryScreen.kt:61-68 | `distinct()` leaves no repeated day |
| History.WorkoutDatesIn | app/src/main/java/com/peakphysique/app/view/HistoryScreen.kt:61-68 | the workout days are exactly the days of the month's workouts, each in 1..31 |
| History.SelectedDateWorkoutsIn | app/src/main/java/com/peakphysique/app/view/HistoryScreen.kt:71-76 | the selected day's workouts are exactly those whose year, month and day match |
| History.CardOfFirstSet | app/src/main/java/com/peakphysique/app/view/HistoryScreen.kt:79-88 | a card counts the group's sets and shows the first set's reps and weight, 0 when unparsed |
| History.CardsOver | app/src/main/java/com/peakphysique/app/view/HistoryScreen.kt:80-87 | one card per group, in group order |
| History.CardsOfWorkout | app/src/main/java/com/peakphysique/app/view/HistoryScreen.kt:79-88 | a workout shows a card for E iff it has a set of E, and no exercise twice |
| History.DisplayedExercises | app/src/main/java/com/peakphysique/app/view/HistoryScreen.kt:79-88 | the day shows a card for E iff a selected workout has a set of E |
| History.MonthNavigation | app/src/main/java/com/peakphysique/app/view/HistoryScreen.kt:106-112 | both buttons keep the month in 1..12, move by one month, and undo each other |
| History.TodayCell | app/src/main/java/com/peakphysique/app/view/HistoryScreen.kt:156-158 | a day is the current day iff it is today's date in the viewed month |
| History.FirstDayOfWeek | app/src/main/java/com/peakphysique/app/view/HistoryScreen.kt:247 | the leading blanks, `dayOfWeek mod 7`, are 0..6 |
| History.CalendarView | app/src/main/java/com/peakphysique/app/view/HistoryScreen.kt:239-272 | the grid is the blanks then one cell per day 1..length with its workout, selected and today flags |
| History.WeekdayColumn | app/src/main/java/com/peakphysique/app/view/HistoryScreen.kt:247-269 | each day lands in its weekday's column, Sunday first |
| History.BackgroundPriority | app/src/main/java/com/peakphysique/app/view/HistoryScreen.kt:287-292 | background: selected, else workout day, else today, else transparent |
| History.HistoryScreen.constructor | app/src/main/java/com/peakphysique/app/view/HistoryScreen.kt:53-55 | the selection starts at today, a valid month |
| History.HistoryScreen.PreviousMonthClicked | app/src/main/java/com/peakphysique/app/view/HistoryScreen.kt:106-115 | the previous month, wrapping January to December of the year before, with day 1; the month stays in 1..12 |
| History.HistoryScreen.NextMonthClicked | app/src/main/java/com/peakphysique/app/view/HistoryScreen.kt:129-138 | the next month, wrapping December to January of the year after, with day 1; the month stays in 1..12 |
| History.HistoryScreen.DateClicked | app/src/main/java/com/peakphysique/app/view/HistoryScreen.kt:159-161 | a click selects that day in the same month |
| History.HistoryScreen.Grid | app/src/main/java/com/peakphysique/app/view/HistoryScreen.kt:151-162 | the grid for the selection, with today's flag on today's date |
| Tracking.WithoutIn | app/src/main/java/com/peakphysique/app/viewmodel/TrackingViewModel.kt:75-79 | removal keeps exactly the sets with another id |
| Tracking.WithoutOrder | app/src/main/java/com/peakphysique/app/viewmodel/TrackingViewModel.kt:75-79 | removal works set by set and keeps the order |
| Tracking.WithoutAbsent | app/src/main/java/com/peakphysique/app/viewmodel/TrackingViewModel.kt:75-79 | removing an absent id is a no-op |
| Tracking.WithoutIdempotent | app/src/main/java/com/peakphysique/app/viewmodel/TrackingViewModel.kt:75-79 | removing twice is removing once |
| Tracking.SetEntities | app/src/main/java/com/peakphysique/app/viewmodel/TrackingViewModel.kt:95-104 | one entity per session set, in order, with id, name, reps, weight and notes copied and the new workout's id |
| Tracking.SetEntitiesUnique | app/src/main/java/com/peakphysique/app/viewmodel/TrackingViewModel.kt:95-104 | distinct set ids stay distinct |
| Tracking.SavedSession | app/src/main/java/com/peakphysique/app/viewmodel/TrackingViewModel.kt:86-108 | after saving, the new workout is stored and its sets are exactly the session's entities |
| Tracking.RecentWindow | app/src/main/java/com/peakphysique/app/viewmodel/TrackingViewModel.kt:51-54 | a workout is recent iff it is dated from 30 days before now up to now |
| Tracking.TrackingViewModel.constructor | app/src/main/java/com/peakphysique/app/viewmodel/TrackingViewModel.kt:34 | the session starts empty |
| Tracking.TrackingViewModel.AddSet | app/src/main/java/com/peakphysique/app/viewmodel/TrackingViewModel.kt:65-69 | appends the set at the end |
| Tracking.TrackingViewModel.RemoveSet | app/src/main/java/com/peakphysique/app/viewmodel/TrackingViewModel.kt:75-79 | drops every set with the id |
| Tracking.TrackingViewModel.SaveWorkout | app/src/main/java/com/peakphysique/app/viewmodel/TrackingViewModel.kt:86-108 | stores the workout and the session's entities, then empties the session |
| Tracking.TrackingViewModel.DeleteWorkout | app/src/main/java/com/peakphysique/app/viewmodel/TrackingViewModel.kt:115-119 | deletes the workout and, by cascade, its sets |
| Tracking.TrackingViewModel.ClearWorkout | app/src/main/java/com/peakphysique/app/viewmodel/TrackingViewModel.kt:124-126 | empties the session and leaves the database alone |
| TrackingForm.ValidInputIsNumeric | app/src/main/java/com/peakphysique/app/view/TrackingScreen.kt:57-61 | Add Set is enabled iff an exercise is chosen and reps and weight are numbers |
| TrackingForm.FieldStates | app/src/main/java/com/peakphysique/app/view/TrackingScreen.kt:107 | a field is exactly one of blank, in error (non-blank, not a number) and numeric |
| TrackingForm.PlaceholderNotAnOption | app/src/main/java/com/peakphysique/app/view/TrackingScreen.kt:36-41 | the placeholder is not one of the exercises |
| TrackingForm.AddedWeightReadable | app/src/main/java/com/peakphysique/app/view/TrackingScreen.kt:149-163 | a set added from valid input has the typed weight as its parsed weight |
| TrackingForm.TrackingScreen.constructor | app/src/main/java/com/peakphysique/app/view/TrackingScreen.kt:35-54 | placeholder exercise, empty fields, closed menu and dialogs |
| TrackingForm.TrackingScreen.ToggleMenu | app/src/main/java/com/peakphysique/app/view/TrackingScreen.kt:78 | flips the menu and changes nothing else |
| TrackingForm.TrackingScreen.DismissMenu | app/src/main/java/com/peakphysique/app/view/TrackingScreen.kt:84 | closes the menu and changes nothing else |
| TrackingForm.TrackingScreen.SelectExercise | app/src/main/java/com/peakphysique/app/view/TrackingScreen.kt:88-91 | picks the exercise and closes the menu |
| TrackingForm.TrackingScreen.EditReps | app/src/main/java/com/peakphysique/app/view/TrackingScreen.kt:103 | replaces the reps text only |
| TrackingForm.TrackingScreen.EditWeight | app/src/main/java/com/peakphysique/app/view/TrackingScreen.kt:115 | replaces the weight text only |
| TrackingForm.TrackingScreen.EditNotes | app/src/main/java/com/peakphysique/app/view/TrackingScreen.kt:128-131 | accepts text of at most 300 characters, otherwise keeps the notes; the cap is preserved |
| TrackingForm.TrackingScreen.AddSetClicked | app/src/main/java/com/peakphysique/app/view/TrackingScreen.kt:148-163 | when enabled, appends the set and clears reps, weight and notes, keeping the exercise; otherwise nothing changes |
| TrackingForm.TrackingScreen.CompleteWorkoutClicked | app/src/main/java/com/peakphysique/app/view/TrackingScreen.kt:171-173 | opens the dialog only when there are sets |
| TrackingForm.TrackingScreen.ConfirmComplete | app/src/main/java/com/peakphysique/app/view/TrackingScreen.kt:252-255 | with the dialog open, saves the session as one workout; closes the dialog |
| TrackingForm.TrackingScreen.DismissComplete | app/src/main/java/com/peakphysique/app/view/TrackingScreen.kt:238 | closes the dialog and changes nothing else |
| TrackingForm.TrackingScreen.DeleteIconClicked | app/src/main/java/com/peakphysique/app/view/TrackingScreen.kt:218-221 | remembers the set and shows the delete dialog |
| TrackingForm.TrackingScreen.ConfirmDelete | app/src/main/java/com/peakphysique/app/view/TrackingScreen.kt:279-283 | removes the chosen set's id, then resets the choice and hides the dialog |
| TrackingForm.TrackingScreen.CancelDelete | app/src/main/java/com/peakphysique/app/view/TrackingScreen.kt:290-293 | resets the choice and hides the dialog; the session is untouched |
| Settings.MergeReplacesGiven | app/src/main/java/com/peakphysique/app/viewmodel/SettingsViewModel.kt:30-35 | a goal passed non-null is replaced, an omitted one kept |
| Settings.MergeIdentityAndIdempotent | app/src/main/java/com/peakphysique/app/viewmodel/SettingsViewModel.kt:30-35 | no arguments leave the goals unchanged, and repeating an update changes nothing more |
| Settings.MergeCompose | app/src/main/java/com/peakphysique/app/viewmodel/SurveyViewModel.kt:24-36 | two updates equal one update whose later arguments win |
| Settings.SettingsRepository.constructor | app/src/main/java/com/peakphysique/app/database/repository/SettingsRepository.kt:10-11 | an unwritten store: light mode, no name, goals 0, survey not completed |
| Settings.SettingsRepository.SetDarkMode | app/src/main/java/com/peakphysique/app/database/repository/SettingsRepository.kt:38-40 | stores the flag only |
| Settings.SettingsRepository.GetDisplayName | app/src/main/java/com/peakphysique/app/database/repository/SettingsRepository.kt:42-44 | the stored name, or "User" when absent |
| Settings.SettingsRepository.SetDisplayName | app/src/main/java/com/peakphysique/app/database/repository/SettingsRepository.kt:46-48 | stores the name only |
| Settings.SettingsRepository.UpdateGoals | app/src/main/java/com/peakphysique/app/database/repository/SettingsRepository.kt:59-68 | stores the four goals only |
| Settings.SettingsRepository.SetSurveyCompleted | app/src/main/java/com/peakphysique/app/viewmodel/SurveyViewModel.kt:41 | sets the survey-completed flag only |
| Settings.SettingsViewModel.constructor | app/src/main/java/com/peakphysique/app/viewmodel/SettingsViewModel.kt:14-17 | dark mode and goals start from the store |
| Settings.SettingsViewModel.UpdateDarkMode | app/src/main/java/com/peakphysique/app/viewmodel/SettingsViewModel.kt:20-23 | both the stored and the in-memory flag become the value |
| Settings.SettingsViewModel.UpdateGoal | app/src/main/java/com/peakphysique/app/viewmodel/SettingsViewModel.kt:25-38 | merges the given goals and writes exactly the in-memory goals to the store |
| Survey.SurveyViewModel.constructor | app/src/main/java/com/peakphysique/app/viewmodel/SurveyViewModel.kt:14-18 | an empty name and default goals, not read from the store |
| Survey.SurveyViewModel.UpdateName | app/src/main/java/com/peakphysique/app/viewmodel/SurveyViewModel.kt:20-22 | replaces the name wholesale |
| Survey.SurveyViewModel.UpdateGoals | app/src/main/java/com/peakphysique/app/viewmodel/SurveyViewModel.kt:24-36 | merges the given goals; the store is not written |
| Survey.SurveyViewModel.SaveSurveyData | app/src/main/java/com/peakphysique/app/viewmodel/SurveyViewModel.kt:38-42 | stores the name and the goals and marks the survey completed |
| LogWeight.AcceptedTexts | app/src/main/java/com/peakphysique/app/view/LogWeightScreen.kt:70-72 | every positive whole number is accepted and blank text never is |
| LogWeight.LogWeightScreen.constructor | app/src/main/java/com/peakphysique/app/view/LogWeightScreen.kt:32-33 | empty text, no error |
| LogWeight.LogWeightScreen.Edit | app/src/main/java/com/peakphysique/app/view/LogWeightScreen.kt:49-52 | an edit replaces the text and clears the error |
| LogWeight.LogWeightScreen.Submit | app/src/main/java/com/peakphysique/app/view/LogWeightScreen.kt:69-78 | accepted iff the text is a number above 0; accepted clears text and error, rejected keeps the text and shows the error; nothing is stored |
| Seqs.FilterIn | app/src/main/java/com/peakphysique/app/viewmodel/TrackingViewModel.kt:77 | `filter` keeps exactly the elements satisfying the predicate |
| Seqs.Dedup | app/src/main/java/com/peakphysique/app/view/HistoryScreen.kt:68 | `distinct()` has no repeats and is no longer than its input |
| Seqs.DedupIn | app/src/main/java/com/peakphysique/app/view/HistoryScreen.kt:68 | `distinct()` keeps every value |
| Seqs.SortBy | app/src/main/java/com/peakphysique/app/database/dao/WorkoutDAO.kt:27-29 | the sort is a permutation ordered by the key |
| Seqs.SortByIn | app/src/main/java/com/peakphysique/app/database/dao/WorkoutDAO.kt:27-29 | sorting keeps exactly the elements |
| Seqs.SortByStable | app/src/main/java/com/peakphysique/app/viewmodel/FeedViewModel.kt:82 | elements with equal keys keep their relative order |

## Left out

- **Coroutines and flows**: `viewModelScope`, `stateIn`, `StateFlow` and `collect`. Each collect body is a method over one emitted snapshot; there is no concurrency in the model.
- **The clock**: `LocalDateTime.now()` is a `now` parameter. The source reads the clock anew in `recentWorkouts` (twice), in every `getTimeAgo` call and in every sort-key evaluation; the model reads one instant per operation.
- **Random UUIDs**: the workout id of `saveWorkout` is a parameter.
- **Floating point**: `Float` and `Double` weights and goals are exact reals. There is no rounding, underflow, NaN or infinity.
- **The weight-to-text formatting**: `${maxWeight}lbs` in the PR achievement text is not rendered. The entry carries the exercise, the weight and the increase as values.
- **Number parsing, `toDoubleOrNull` and `toFloatOrNull`** (`Text.ParseDecimal`): the model reads decimal notation only: padding characters 0 to 32 around the number, an optional sign, digits with an optional point, and an optional type suffix `f`, `F`, `d` or `D`. Exponents (`1e2`), hexadecimal floats, `NaN` and `Infinity` are not modelled; the model rejects them where the JVM accepts them. This can change `TrackingForm.IsValidInput`, the reps and weight error flags, `LogWeight.Accepts`, and which weights count in `Feed`, `Progress` and `Account`.
- **Number parsing, `toIntOrNull` and `toLongOrNull`** (`Text.ParseInteger`): the model reads an optional `+` or `-` and ASCII digits, with no padding and no fraction, as Kotlin does. Kotlin reads each digit with `Character.digit`, which also accepts the decimal digits of other scripts (Arabic-Indic, fullwidth and so on); the model rejects those. In `Feed` the label count is text the app prints in ASCII digits, so nothing changes there. In `History` the card's reps are typed by the user, and reps typed in another script's digits show 0 in the model.
- **Kotlin `Int` overflow of counters**: workout, set and record counts are unbounded naturals. Only the months-active arithmetic and the PR percentage model the 32-bit range.
- **The `Converters` date round-trip through ISO strings**: it is not part of this model. Dates are stored and compared as values, so SQL `ORDER BY` and `BETWEEN` on the stored text are modelled as date order.
- **The order among equal dates in SQLite**: taken to be table order. SQLite does not promise it.
- **The order of `getWorkoutsInRange`** (`WorkoutTables.WorkoutsInRange`): the query has no `ORDER BY`, so SQLite may list the rows in any order. The model lists them in table order. `WorkoutTables.RangeListing` and `WorkoutTables.RangeSets` state membership and the attached sets only, not the order.
- **Sub-second precision**: `LocalDateTime` keeps the nanosecond of the second; the model's date-time keeps whole seconds (`Calendar.Timestamp`). Two instants in the same second are equal in the model, which changes four results:
  - `Feed.PreviousMax`: a workout saved earlier in the same second counts as earlier in the source (`<` compares nanoseconds) but not in the model (`Feed.PreviousMaxIgnores`).
  - `Models.SortByDate`, `WorkoutTables.AllWorkoutsWithSets` and `WeightTables.AllWeights`: rows in the same second but in different nanoseconds are ordered by nanosecond in the source and by table order in the model.
  - `Progress.MonthStart`: `isAfter(now.withDayOfMonth(1))` also compares nanoseconds. A workout on the first of the month in the same second as `now`'s time of day is after that instant in the source when its nanosecond is later, and is never after it in the model.
  - `Account.MonthsBetweenFirstDays` and `Account.MonthsActiveSpan`: `MONTHS.between` compares time of day down to the nanosecond. When both times fall in the same second, the source can count one month less, and the model never does.
- **Note length**: counted in characters, not UTF-16 code units.
- **SettingsRepository's change listener and `goalsFlow`**: the store is a record of its values. `ProgressViewModel.observeGoals` takes the goals read from the store as a parameter.
- **`setSurveyCompleted`**: it is called by SurveyViewModel but not defined in SettingsRepository. It is modelled as a flag the store sets.
- **`WeightEntity` and `Goals`**: they are not part of the source as shown. They are minimal records with a weight and a date, and four goals defaulting to 0.
- **Compose rendering**: layout, text styles, the "No workouts" message, the month-name header and navigation are not modelled. The calendar model goes as far as the cell list and each cell's background colour.
- **The step counter, the progress bars' fractions, login and registration screens, and repository delegation classes**: they are outside the modelled core.
