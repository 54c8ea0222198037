# Workout training log — a Dafny model

This project models the core of the workout app, a training log that works offline-first.

**The record store (`src/lib/training-db.ts`).** Six tables hold the data: sessions, exercise sets, readiness check-ins, weigh-ins, settings and training recommendations. Every record carries a sync envelope:
- an id;
- creation and update instants;
- a deletion instant, which marks the record as a tombstone;
- a version counter.

Records are never removed. A delete writes a tombstone, and every change bumps the version.

**The other parts modelled:**
- **The authentication store (`src/lib/auth-context/index.tsx`).** It is a reference-counted listener registry. It starts the auth runtime for the first subscriber and tears it down after the last one leaves.
- **The CSV and report export** of the progress card and the settings page.
- **The week view of the workout page:**
  - the week range;
  - logs grouped by day;
  - the selected day's logs;
  - the week summary;
  - the rule that picks the selected day.

**How the model is built:**
- **Tables.** The `Db` datatype holds six maps from id to record. The functions of `StoreModel` describe what each store operation does to the `Db`, as a `Step` (the result plus the new tables).
- **The database class.** `TrainingDb.TrainingLogsDatabase` keeps the six maps as fields. Each changing method is proved to move from `old(State())` to exactly what the `StoreModel` function prescribes, and to keep `StoreModel.Valid`.
- **The invariant `Valid`:**
  - every record is keyed by its id and has a positive version;
  - there is one live readiness log and one live weigh-in per date;
  - there is one settings record per key;
  - every set points to a stored session and carries that session's date, split and workout type;
  - a live set has a live session.
- **Reads.** Each read method is specified by what it lists (`Tables.Lists`: stored, matching, no duplicates, nothing missed) and by its order (`Sorting.Sorted` under the source's comparator).
- **Fresh values.** The clock and the id generator are parameters: a `Fresh(id, at)` for each new record and a `now` for each change. Dexie's `add` fails on an id that is already stored. That failure is modelled as `Err(ConstraintError)`; inside a transaction it aborts the transaction and leaves every table unchanged.

## Model

| member | source | states |
|---|---|---|
| Records.CreateSyncMeta | src/lib/training-db.ts:113-122 | a new envelope has the fresh id, version 1, no deletion instant, and equal creation and update instants |
| Records.TouchVersion | src/lib/training-db.ts:124-130 | a change raises the version by exactly one and sets `updatedAt` to now; id, creation instant, deletion mark and fields are kept |
| Records.VersionCountsMutations | src/lib/training-db.ts:124-130 | after n changes a record's version has grown by n; it keeps its id, creation instant and fields, and was last updated at the last instant |
| Records.SessionOrderConsistent | src/lib/training-db.ts:132-137 | the session comparator is total and transitive, so the sorted order is well defined |
| Records.SessionOrderMeaning | src/lib/training-db.ts:132-137 | a session precedes another exactly when its date is later, or the dates are equal and its `updatedAt` is not earlier |
| Records.SetOrderMeaning | src/lib/training-db.ts:139-144 | a set precedes another exactly when its exercise order is smaller, or equal with a set order not larger |
| Records.DateOrdersConsistent | src/lib/training-db.ts:345-395 | the ascending and descending date comparators of readiness logs, weigh-ins and recommendations are total and transitive |
| TrainingDb.TrainingLogsDatabase.constructor | src/lib/training-db.ts:79-98 | a new database has six empty tables, which satisfy the invariant |
| TrainingDb.GroupBySession | src/lib/training-db.ts:157-162 | the map built in the loop gives each session id exactly its sets, in input order, and has no empty or foreign bucket |
| TrainingDb.TrainingLogsDatabase.GetSetsBySessionIds | src/lib/training-db.ts:146-165 | for each requested id: exactly the live sets of that session, sorted by exercise order then set order; only requested ids appear |
| TrainingDb.TrainingLogsDatabase.AttachSets | src/lib/training-db.ts:213-220 | the sessions keep their order and each gets exactly its live sets, sorted |
| StoreModel.SaveSessionWithSets | src/lib/training-db.ts:167-204 | returns the new session id. Every set gets that session id, the session's date, split and workout type, its own line's values and a fresh envelope. Old sets and other tables are untouched. It succeeds iff every new id is free, and otherwise nothing changes |
| TrainingDb.SaveSessionIn | src/lib/training-db.ts:196-201 | the transaction's `add` and record-by-record `bulkAdd` yield exactly `StoreModel.SaveSessionWithSets`; a taken id aborts and leaves both tables as they were |
| TrainingDb.TrainingLogsDatabase.SaveSessionWithSets | src/lib/training-db.ts:167-204 | the staged `bulkAdd` loop yields exactly `StoreModel.SaveSessionWithSets`, and the invariant is kept |
| StoreModel.SaveSessionKeepsValid | src/lib/training-db.ts:167-204 | saving a session keeps the invariant. No record is removed, no id or creation instant changes, and no version drops |
| TrainingDb.TrainingLogsDatabase.GetSessionsByDateRange | src/lib/training-db.ts:206-221 | exactly the live sessions dated from start to end, both ends included; newest first, each with its live sets |
| TrainingDb.TrainingLogsDatabase.GetAllSessionsWithSets | src/lib/training-db.ts:223-233 | exactly the live sessions, newest first, each with its live sets |
| TrainingDb.TrainingLogsDatabase.GetLastSessionByWorkoutType | src/lib/training-db.ts:235-259 | none exactly when no live session has that workout and split. Otherwise a matching session that precedes every other match, with its live sets |
| TrainingDb.TrainingLogsDatabase.GetRecentSessionsByWorkoutType | src/lib/training-db.ts:261-280 | the first `limit` matches (JavaScript `slice(0, limit)`, negative limits included), sorted, with their sets. No match that was left out precedes one that was kept |
| TrainingDb.PrefixOfListing | src/lib/training-db.ts:277-279 | a prefix of a sorted listing is sorted and matching, and no match that was cut off precedes one of its rows |
| TrainingDb.SliceEnd | src/lib/training-db.ts:278 | the length `slice(0, limit)` keeps never exceeds the list |
| StoreModel.Tombstone | src/lib/training-db.ts:291-294 | a tombstone carries the deletion instant, one more version and `updatedAt` now; id, creation instant and fields are kept |
| StoreModel.SoftDeleteSession | src/lib/training-db.ts:282-308 | a missing or already deleted session changes nothing. Otherwise the session and each of its live sets become tombstones at that instant: deletion mark and `updatedAt` set, one more version, id, creation instant and fields kept; other sets, other sessions and other tables are unchanged |
| TrainingDb.SoftDeleteIn | src/lib/training-db.ts:282-308 | the session's tombstone and the scan and `bulkPut` of its live sets yield exactly the training tables of `StoreModel.SoftDeleteSession` |
| TrainingDb.TombstoneEach | src/lib/training-db.ts:296-306 | the `bulkPut` of the tombstoned live sets yields exactly the cascade |
| TrainingDb.TrainingLogsDatabase.SoftDeleteSession | src/lib/training-db.ts:282-308 | the method yields exactly `StoreModel.SoftDeleteSession`, and the invariant is kept |
| StoreModel.CascadeKeepsTrainingValid | src/lib/training-db.ts:290-306 | after the cascade no live set belongs to the deleted session, and sets still follow their sessions |
| StoreModel.SoftDeleteKeepsValid | src/lib/training-db.ts:282-308 | deleting keeps the invariant; afterwards the session is not live and has no live set |
| StoreModel.UpsertByDate | src/lib/training-db.ts:310-343 | if a live record exists for the input's date, it is rewritten under the same id with one more version. Otherwise a new version-1 record is added, which fails iff its id is taken |
| StoreModel.UpsertKeepsOneLivePerDate | src/lib/training-db.ts:310-385 | after a save the returned record is the one live record for its date and holds the input; one live record per date is kept |
| StoreModel.UpsertTwiceSameDate | src/lib/training-db.ts:317-329 | a second save for the same date returns the same id and raises the version once more; it is 2 when the date had no record before |
| TrainingDb.UpsertIn | src/lib/training-db.ts:310-343 | the lookup by date and the `put` or `add` yield exactly `UpsertByDate` |
| TrainingDb.TrainingLogsDatabase.SaveReadinessLog | src/lib/training-db.ts:310-343 | the method yields exactly the readiness save, and the invariant is kept |
| TrainingDb.TrainingLogsDatabase.SaveWeightLog | src/lib/training-db.ts:361-385 | the method yields exactly the weigh-in save, and the invariant is kept |
| StoreModel.SaveReadinessKeepsValid | src/lib/training-db.ts:310-343 | saving a readiness log keeps the invariant and removes no record; every live log on the date is the returned one and holds the input |
| StoreModel.SaveWeightKeepsValid | src/lib/training-db.ts:361-385 | saving a weigh-in keeps the invariant and removes no record; every live weigh-in on the date is the returned one and holds the input |
| TrainingDb.TrainingLogsDatabase.GetLatestReadinessLog | src/lib/training-db.ts:345-349 | none exactly when no log is live; otherwise a live log whose date is at least every live log's date |
| TrainingDb.TrainingLogsDatabase.GetReadinessLogsByDateRange | src/lib/training-db.ts:351-359 | exactly the live logs dated from start to end, both ends included, latest date first |
| TrainingDb.TrainingLogsDatabase.GetWeightLogs | src/lib/training-db.ts:387-390 | exactly the live weigh-ins, earliest date first |
| TrainingDb.TrainingLogsDatabase.GetAllReadinessLogs | src/lib/training-db.ts:392-395 | exactly the live readiness logs, earliest date first |
| TrainingDb.TrainingLogsDatabase.GetSetting | src/lib/training-db.ts:397-400 | the live record of the key, or none when the key's record is absent or tombstoned |
| TrainingDb.TrainingLogsDatabase.GetAllSettings | src/lib/training-db.ts:402-404 | exactly the live settings |
| StoreModel.PutSetting | src/lib/training-db.ts:406-425 | the key's record, live or tombstoned, is revived with the value under its id and creation instant, with one more version. A key without a record gets a new one, which fails iff the id is taken |
| StoreModel.PutSettingKeepsOneRowPerKey | src/lib/training-db.ts:406-425 | afterwards the key's only record is the returned one, live and holding the value; one record per key is kept |
| TrainingDb.PutSettingIn | src/lib/training-db.ts:406-425 | the lookup by key and the `put` or `add` yield exactly `PutSetting` |
| TrainingDb.TrainingLogsDatabase.SetSetting | src/lib/training-db.ts:406-425 | the method yields exactly the settings write, and the invariant is kept |
| StoreModel.SetSettingKeepsValid | src/lib/training-db.ts:406-425 | writing a setting keeps the invariant; no record is removed and no version drops |
| StoreModel.AddRecommendation | src/lib/training-db.ts:427-440 | a new live version-1 record with the input's fields and status, pending when none is given; it fails iff the id is taken |
| TrainingDb.TrainingLogsDatabase.AddRecommendation | src/lib/training-db.ts:427-440 | the method yields exactly `StoreModel.AddRecommendation`, and the invariant is kept |
| StoreModel.AddRecommendationKeepsValid | src/lib/training-db.ts:427-440 | adding a recommendation keeps the invariant; no record is removed, no id or creation instant changes and no version drops |
| StoreModel.AddRecommendationIfMissing | src/lib/training-db.ts:442-462 | null with no change when a live pending record has the same date, kind, workout and split; otherwise exactly `addRecommendation` |
| TrainingDb.TrainingLogsDatabase.AddRecommendationIfMissing | src/lib/training-db.ts:442-462 | the method yields exactly `StoreModel.AddRecommendationIfMissing`, and the invariant is kept |
| StoreModel.AddRecommendationIfMissingKeepsValid | src/lib/training-db.ts:442-462 | the conditional add keeps the invariant and only lets records grow in the same way |
| StoreModel.AddIfMissingTwice | src/lib/training-db.ts:442-462 | with a pending or default status, a repeated call adds nothing and returns null |
| StoreModel.AddIfMissingIgnoresSettledTwin | src/lib/training-db.ts:446-454 | a recommendation added as accepted or dismissed is no twin: the same call made again adds a second record with the same fields |
| StoreModel.UpdateRecommendationStatus | src/lib/training-db.ts:464-474 | a missing or deleted id changes nothing. A live one takes the status, one more version and `updatedAt` now; the others are kept |
| TrainingDb.TrainingLogsDatabase.UpdateRecommendationStatus | src/lib/training-db.ts:464-474 | the method yields exactly `StoreModel.UpdateRecommendationStatus`, and the invariant is kept |
| StoreModel.UpdateRecommendationStatusKeepsValid | src/lib/training-db.ts:464-474 | a status update keeps the invariant; no record is removed and no version drops |
| TrainingDb.TrainingLogsDatabase.GetRecommendations | src/lib/training-db.ts:476-482 | exactly the live recommendations, of the given status when one is given, latest date first |
| TrainingDb.TrainingLogsDatabase.GetBackupSnapshot | src/lib/training-db.ts:484-501 | every live record of every table, each list complete and in its read's order, stamped with the export instant |
| AuthContext.ApplyPatch | src/lib/auth-context/index.tsx:31-35 | fields absent from the patch are kept; present ones are replaced |
| AuthContext.AddListener | src/lib/auth-context/index.tsx:77 | the registry gains the listener and nothing else; a registered listener changes nothing; no duplicates arise |
| AuthContext.RemoveListener | src/lib/auth-context/index.tsx:85 | the registry loses exactly the listener; no duplicates arise |
| AuthContext.RemoveAfterAdd | src/lib/auth-context/index.tsx:77-85 | adding a new listener and removing it restores the registry |
| AuthContext.AuthStore.constructor | src/lib/auth-context/index.tsx:12-19 | the initial snapshot has no user and is loading; no subscribers, no runtime, no listeners |
| AuthContext.AuthStore.EmitChange | src/lib/auth-context/index.tsx:25-29 | every registered listener is called once, in insertion order, and nothing else changes |
| AuthContext.AuthStore.UpdateSnapshot | src/lib/auth-context/index.tsx:31-37 | the snapshot takes the patch, then every listener is called |
| AuthContext.AuthStore.Subscribe | src/lib/auth-context/index.tsx:76-82 | registers the listener and counts one more subscriber; a runtime starts only on the 0→1 step |
| AuthContext.AuthStore.Unsubscribe | src/lib/auth-context/index.tsx:84-96 | removes the listener and counts one less. On reaching 0 the runtime is stopped and the snapshot reset, with no notification |
| AuthContext.AuthStore.InitialSessionResolved | src/lib/auth-context/index.tsx:42-55 | a stopped runtime's late result is ignored. Otherwise the user is set, loading ends, listeners are called, and a sync is requested iff there is a user |
| AuthContext.AuthStore.AuthStateChanged | src/lib/auth-context/index.tsx:59-68 | the event's user is set, loading ends, listeners are called, and a sync is requested iff there is a user |
| AuthContext.NormalizeBasePath | src/lib/auth-context/index.tsx:104-105 | an empty base becomes "/"; a base that ends with "/" is kept as it is; any other base gets exactly one "/" appended |
| AuthContext.GetEmailRedirectUrl | src/lib/auth-context/index.tsx:99-107 | undefined exactly without a window. Otherwise the origin, then the base kept as it is when it ends with "/", the base plus "/" when it does not, or "/" when it is empty, then "auth/callback" |
| Csv.QuoteField | src/features/progress/components/data-export-card.tsx:124 | a field starts and ends with a double quote |
| Csv.CollapseEscape | src/features/progress/components/data-export-card.tsx:124 | collapsing doubled quotes undoes the escaping of any value |
| Csv.QuoteFieldRoundTrip | src/features/progress/components/data-export-card.tsx:124 | stripping a field's outer quotes and collapsing doubled ones gives the value back |
| Csv.ParseEncodeCsv | src/features/progress/components/data-export-card.tsx:121-127 | the CSV text of any non-empty list of non-empty rows reads back as exactly those rows, so "," and "\n" joining loses nothing |
| TrainingExport.SetRow | src/features/progress/components/data-export-card.tsx:104-117 | twelve columns: the session's date, split, workout type, label and formatted duration; the set's exercise, formatted `setOrder + 1`, load and reps; rpe and rir formatted when present and "" when missing; the technique or "" |
| TrainingExport.PushSessionRows | src/features/progress/components/data-export-card.tsx:103-118 | the inner loop appends exactly one row per set of the session, in order |
| TrainingExport.BuildCsvRows | src/features/progress/components/data-export-card.tsx:85-119 | the nested loops produce the header followed by the rows of every set, session after session, one row per set |
| TrainingExport.SetRowsAppend | src/features/progress/components/data-export-card.tsx:102-103 | the rows follow the order of the sessions, then of their sets |
| TrainingExport.SetRowsCount | src/features/progress/components/data-export-card.tsx:40-43 | there are exactly as many data rows as the summed set counts |
| TrainingExport.SetRowsWidth | src/features/progress/components/data-export-card.tsx:104-117 | every data row has twelve fields |
| TrainingExport.ExportReadsBack | src/features/progress/components/data-export-card.tsx:121-127 | an export with a twelve-column header reads back as that header and one row per set |
| TrainingExport.RecentSessions | src/features/progress/components/data-export-card.tsx:51-57 | the first min(12, n) sessions, in snapshot order, each with its set count |
| TrainingExport.RecentIgnoresLaterSessions | src/features/progress/components/data-export-card.tsx:51 | sessions after the twelfth do not affect the list |
| TrainingExport.TotalSetsPrefix | src/features/progress/components/data-export-card.tsx:40-43 | the first k sessions never hold more sets than all of them |
| DataExportCard.HandleExportCsv | src/features/progress/components/data-export-card.tsx:83-134 | the text is the Portuguese header and one row per set, quoted and joined, and it reads back as exactly those rows |
| DataExportCard.CreateTrainingReportData | src/features/progress/components/data-export-card.tsx:37-59 | the counts are the array lengths and the summed set count. Recent sessions are the first min(12, n) sessions in snapshot order, each with its date, split, label, duration and set count |
| DataExportCard.ReportCountsCsvRows | src/features/progress/components/data-export-card.tsx:40-43 | the report's set total equals the number of data rows of the CSV |
| DataExportCard.RecentSetsWithinTotal | src/features/progress/components/data-export-card.tsx:40-57 | the listed sessions' sets are at most the set total |
| SettingsPage.HandleExportCsv | src/pages/settings-page.tsx:37-86 | the text is the English header and one row per set, and it reads back as exactly those rows |
| SettingsPage.SameRowsAsProgressExport | src/pages/settings-page.tsx:58-79 | both CSV exports hold the same data rows and differ only in the header |
| SettingsPage.Totals | src/pages/settings-page.tsx:92-95 | session, summed set, readiness and weigh-in counts |
| SettingsPage.RecentRows | src/pages/settings-page.tsx:140-153 | exactly min(12, n) lines, the first sessions in snapshot order, each with its date, split, label, duration and set count |
| WorkoutRoute.EffectiveMode | src/routes/workout.tsx:72-83 | the chosen mode when the split offers it, otherwise the split's first; always an offered mode, and none only for a split without modes |
| WorkoutRoute.WeekRangeOf | src/routes/workout.tsx:85-88 | start and end are the 1st and 7th dates of the week |
| WorkoutRoute.WeekRangeCoversWeek | src/routes/workout.tsx:85-90 | for seven ascending dates, the inclusive range from start to end contains every day of the week |
| WorkoutRoute.LogsByDate | src/routes/workout.tsx:96-102 | one bucket per date that occurs, holding exactly that date's logs in input order |
| WorkoutRoute.SelectedLogs | src/routes/workout.tsx:104-106 | the logs of the selected date, each as often as in the input, sorted by `updatedAt` descending |
| WorkoutRoute.SelectedLogsMeaning | src/routes/workout.tsx:104-106 | a log is listed iff it is in the week and on the selected date; `updatedAt` never increases along the list |
| WorkoutRoute.Summarize | src/routes/workout.tsx:108-122 | the loop with the mutated accumulator computes the reduction `Tally` |
| WorkoutRoute.TallyTotals | src/routes/workout.tsx:108-122 | `totalSessions` is the number of logs, and the per-type counts sum to it |
| WorkoutRoute.TallyTypes | src/routes/workout.tsx:112-114 | the per-type entries are exactly the workout types that occur, each once |
| WorkoutRoute.TallyCounts | src/routes/workout.tsx:112-114 | each type's count is the number of logs of that type |
| WorkoutRoute.PickDate | src/routes/workout.tsx:137-147 | the preferred date if given and in the week; else the current date if in the week; else the week's first day. Always a day of the week |
| WorkoutRoute.WeekView.constructor | src/routes/workout.tsx:73-79 | the page opens on the current week with today selected |
| WorkoutRoute.WeekView.SetWeekAndSelectedDate | src/routes/workout.tsx:124-148 | an empty week changes nothing; otherwise the week switches and the selected day is the one `PickDate` chooses |
| WorkoutRoute.WeekView.SaveSession | src/routes/workout.tsx:150-162 | the add-session mutation: the store equals the save, followed on success by `addRecommendationIfMissing` of the suggestion when there is one. A failure of either step changes no selection. After both succeed the week switches only when the saved date's week differs, and the saved date becomes selected whenever it is one of its week's dates |

## Left out

- Dexie and IndexedDB: the schema strings, indexes, the query DSL and persistence. Tables are maps, and a transaction is one atomic step. The order in which a scan visits records is left open: every read is proved for any scan order.
- Fresh values: `Temporal.Now`, `crypto.randomUUID` and the id fallback. They are parameters: one `Fresh(id, at)` per new record and one `now` per operation.
- StoreModel.SoftDeleteSession: the source reads the clock separately for `touchVersion` and for the deletion instant. The model uses one instant, so `updatedAt` equals `deletedAt` here, whereas the source's two readings may differ by microseconds.
- Concurrency: `Promise.all` in `getBackupSnapshot` is modelled as five sequential reads. The race between the lookup and the write in the un-transacted upserts is not modelled.
- The sync engine and `scheduleSync`: sync requests are only counted. Supabase's `getSession` and `onAuthStateChange` become events delivered to the store's methods. React's `useSyncExternalStore` and the trivial getter `getAuthSnapshot` are not modelled.
- `AuthContext.AuthStore`: listeners are identified by numbers, and calling one is recorded in a log.
- Floating point: `weightKg`, `rpe` and `sleepHours` are reals.
  - JavaScript's number formatting is the parameter `show` of the export functions.
  - The `|| 0` guard on `durationMin` in the week summary only matters for `NaN`, which has no counterpart here.
- `localeCompare` on ISO dates and instants is modelled as character-by-character comparison. UTF-16 code units are not distinguished from characters.
- The calendar helpers `getWeekDates`, `getISOWeekInputValue` and `parseISODate`, and the split registry, are not part of this model. Their results are parameters.
- I/O and presentation: rendering, `downloadTextFile`, the JSON backup download, the print popup and `new Date().toLocaleString()` (a parameter of the report).
- The query hooks of `src/features/*/queries.ts`: their cache invalidation and the `scheduleSync` call of the weigh-in hook are not modelled. The add-session mutation, which `saveSession` awaits, is modelled inside `WorkoutRoute.WeekView.SaveSession`.
- `buildProgressionSuggestion` is not part of this model. The suggestion it makes from the two latest sessions of the saved workout is the parameter `suggestion` of `WorkoutRoute.WeekView.SaveSession`, so the read of those two sessions is not modelled either.
- `getRecentSessionsByWorkoutType`'s default `limit = 3`: the limit is always passed explicitly.
