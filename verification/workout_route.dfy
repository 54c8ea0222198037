/**
 * The week view of the workout page (src/routes/workout.tsx): which week
 * mode is shown, the date range the week's query covers, the week's logs
 * grouped by day, the logs of the selected day, the week's summary, and the
 * rule that picks the selected day when the week changes or a session is
 * saved.
 *
 * The calendar helpers of the page (`getWeekDates`, `getISOWeekInputValue`,
 * `parseISODate`) are not part of this model: their results are parameters.
 */
module WorkoutRoute {
  import opened Wrappers
  import opened IsoText
  import opened Sorting
  import opened Records
  import opened StoreModel
  import opened TrainingDb

  type WeekMode = string

  /* ---------------------------------------------------------------- */
  /* Week mode and week range                                           */
  /* ---------------------------------------------------------------- */

  /**
   * `effectiveMode`: the chosen mode when the split offers it, otherwise the
   * split's first mode (`undefined`, here `None`, for a split with no modes).
   */
  function EffectiveMode(weekModes: seq<WeekMode>, mode: WeekMode): (m: Option<WeekMode>)
    ensures m.Some? <==> weekModes != []
    ensures m.Some? ==> m.value in weekModes
    ensures mode in weekModes ==> m == Some(mode)
    ensures mode !in weekModes && weekModes != [] ==> m == Some(weekModes[0])
  {
    if mode in weekModes then Some(mode)
    else if weekModes == [] then None
    else Some(weekModes[0])
  }

  /** Index access on a JavaScript array: `undefined` past the end. */
  function At(dates: seq<IsoDate>, i: nat): Option<IsoDate> {
    if i < |dates| then Some(dates[i]) else None
  }

  datatype WeekRange = WeekRange(start: Option<IsoDate>, end: Option<IsoDate>)

  /** `weekStartISO` and `weekEndISO`: the first and the seventh of the week's dates. */
  function WeekRangeOf(weekDates: seq<IsoDate>): (r: WeekRange)
    ensures |weekDates| >= 7 ==> r == WeekRange(Some(weekDates[0]), Some(weekDates[6]))
    ensures |weekDates| == 0 ==> r == WeekRange(None, None)
  {
    WeekRange(At(weekDates, 0), At(weekDates, 6))
  }

  /** Each date of the list comes before the next one. */
  predicate Consecutive(dates: seq<IsoDate>) {
    forall i | 0 <= i < |dates| - 1 :: Less(dates[i], dates[i + 1])
  }

  lemma {:induction false} ConsecutiveAscending(dates: seq<IsoDate>, i: nat, j: nat)
    requires Consecutive(dates)
    requires i <= j < |dates|
    ensures AtMost(dates[i], dates[j])
    ensures i < j ==> Less(dates[i], dates[j])
    decreases j - i
  {
    if i + 1 < j {
      ConsecutiveAscending(dates, i + 1, j);
      LessTransitive(dates[i], dates[i + 1], dates[j]);
    }
  }

  /**
   * The range the week's query asks for (both ends included) holds every
   * day of a week of seven ascending dates.
   */
  lemma WeekRangeCoversWeek(weekDates: seq<IsoDate>)
    requires |weekDates| == 7 && Consecutive(weekDates)
    ensures var r := WeekRangeOf(weekDates);
      r.start.Some? && r.end.Some? &&
      forall i | 0 <= i < 7 :: InRange(weekDates[i], r.start.value, r.end.value)
  {
    forall i | 0 <= i < 7 ensures InRange(weekDates[i], weekDates[0], weekDates[6]) {
      ConsecutiveAscending(weekDates, 0, i);
      ConsecutiveAscending(weekDates, i, 6);
    }
  }

  /* ---------------------------------------------------------------- */
  /* Logs by day and logs of the selected day                           */
  /* ---------------------------------------------------------------- */

  function OnDate(d: IsoDate): SessionWithSets -> bool {
    (e: SessionWithSets) => e.session.body.date == d
  }

  lemma {:induction false} FilterNone(s: seq<SessionWithSets>, d: IsoDate)
    requires forall k | 0 <= k < |s| :: s[k].session.body.date != d
    ensures Filter(s, OnDate(d)) == []
  {
    if s != [] {
      FilterNone(s[1..], d);
    }
  }

  /** The dates of `byDate` are exactly those of `logs`. */
  ghost predicate BucketKeys(byDate: map<IsoDate, seq<SessionWithSets>>, logs: seq<SessionWithSets>) {
    forall d :: d in byDate <==> exists k | 0 <= k < |logs| :: logs[k].session.body.date == d
  }

  /** Each bucket of `byDate` holds exactly the logs of its date, in order. */
  ghost predicate BucketContents(byDate: map<IsoDate, seq<SessionWithSets>>, logs: seq<SessionWithSets>) {
    forall d | d in byDate :: byDate[d] == Filter(logs, OnDate(d))
  }

  /** The bucket of the pushed log's date gets the log, and no other date appears. */
  lemma BucketKeysStep(byDate: map<IsoDate, seq<SessionWithSets>>, logs: seq<SessionWithSets>, x: SessionWithSets,
                       bucket: seq<SessionWithSets>)
    requires BucketKeys(byDate, logs)
    ensures BucketKeys(byDate[x.session.body.date := bucket], logs + [x])
  {
    var b := byDate[x.session.body.date := bucket];
    var s := logs + [x];
    forall d ensures d in b <==> exists k | 0 <= k < |s| :: s[k].session.body.date == d {
      if d in b && d != x.session.body.date {
        var k :| 0 <= k < |logs| && logs[k].session.body.date == d;
        assert s[k] == logs[k];
      }
      if d == x.session.body.date {
        assert s[|logs|] == x;
      }
      if exists k | 0 <= k < |s| :: s[k].session.body.date == d {
        var k :| 0 <= k < |s| && s[k].session.body.date == d;
        if k < |logs| {
          assert logs[k] == s[k];
        }
      }
    }
  }

  /** The bucket of a date, or an empty one when the date has none yet. */
  function BucketOf(byDate: map<IsoDate, seq<SessionWithSets>>, d: IsoDate): seq<SessionWithSets> {
    if d in byDate then byDate[d] else []
  }

  /** A date that has no bucket has no log. */
  lemma BucketMissing(byDate: map<IsoDate, seq<SessionWithSets>>, logs: seq<SessionWithSets>, d: IsoDate)
    requires BucketKeys(byDate, logs) && BucketContents(byDate, logs)
    ensures BucketOf(byDate, d) == Filter(logs, OnDate(d))
  {
    if d !in byDate {
      FilterNone(logs, d);
    }
  }

  /** Pushing a log onto the bucket of its date keeps every bucket exact. */
  lemma BucketContentsStep(byDate: map<IsoDate, seq<SessionWithSets>>, logs: seq<SessionWithSets>, x: SessionWithSets)
    requires BucketKeys(byDate, logs) && BucketContents(byDate, logs)
    ensures var date := x.session.body.date;
      BucketContents(byDate[date := BucketOf(byDate, date) + [x]], logs + [x])
  {
    var date := x.session.body.date;
    var b := byDate[date := BucketOf(byDate, date) + [x]];
    forall d | d in b ensures b[d] == Filter(logs + [x], OnDate(d)) {
      FilterAppend(logs, [x], OnDate(d));
      FilterOne(x, OnDate(d));
      if d == date {
        BucketMissing(byDate, logs, d);
      }
    }
  }

  /** One turn of the grouping loop: log `i` joins the bucket of its date. */
  lemma BucketStep(byDate: map<IsoDate, seq<SessionWithSets>>, logs: seq<SessionWithSets>, i: nat)
    requires i < |logs|
    requires BucketKeys(byDate, logs[..i]) && BucketContents(byDate, logs[..i])
    ensures var date := logs[i].session.body.date;
      var b := byDate[date := BucketOf(byDate, date) + [logs[i]]];
      BucketKeys(b, logs[..i + 1]) && BucketContents(b, logs[..i + 1])
  {
    var date := logs[i].session.body.date;
    assert logs[..i + 1] == logs[..i] + [logs[i]];
    BucketKeysStep(byDate, logs[..i], logs[i], BucketOf(byDate, date) + [logs[i]]);
    BucketContentsStep(byDate, logs[..i], logs[i]);
  }

  /**
   * `logsByDate`: one bucket per date that occurs among the week's logs,
   * holding exactly the logs of that date in their original order.
   */
  method LogsByDate(weekLogs: seq<SessionWithSets>) returns (byDate: map<IsoDate, seq<SessionWithSets>>)
    ensures forall d :: d in byDate <==> exists k | 0 <= k < |weekLogs| :: weekLogs[k].session.body.date == d
    ensures forall d | d in byDate :: byDate[d] == Filter(weekLogs, OnDate(d))
  {
    byDate := map[];
    for i := 0 to |weekLogs|
      invariant BucketKeys(byDate, weekLogs[..i]) && BucketContents(byDate, weekLogs[..i])
    {
      var entry := weekLogs[i];
      var date := entry.session.body.date;
      BucketStep(byDate, weekLogs, i);
      // the empty bucket set for a new date, then `push`
      var bucket := BucketOf(byDate, date);
      byDate := byDate[date := bucket + [entry]];
    }
    assert weekLogs[..|weekLogs|] == weekLogs;
  }

  /** `b.session.updatedAt.localeCompare(a.session.updatedAt)`: most recently updated first. */
  function CompareUpdatedDescending(a: SessionWithSets, b: SessionWithSets): int {
    Compare(b.session.meta.updatedAt, a.session.meta.updatedAt)
  }

  lemma UpdatedOrderConsistent()
    ensures TotalPreorder(CompareUpdatedDescending)
  {
    forall a: SessionWithSets, b: SessionWithSets
      ensures CompareUpdatedDescending(a, b) <= 0 || CompareUpdatedDescending(b, a) <= 0
    {
      CompareTotal(b.session.meta.updatedAt, a.session.meta.updatedAt);
    }
    forall a: SessionWithSets, b: SessionWithSets, c: SessionWithSets |
      CompareUpdatedDescending(a, b) <= 0 && CompareUpdatedDescending(b, c) <= 0
      ensures CompareUpdatedDescending(a, c) <= 0
    {
      CompareTransitive(c.session.meta.updatedAt, b.session.meta.updatedAt, a.session.meta.updatedAt);
    }
  }

  /**
   * `selectedLogs`: the week's logs of the selected day, most recently
   * updated first; the same logs, each as often as in the week's list.
   */
  function SelectedLogs(weekLogs: seq<SessionWithSets>, selectedDate: IsoDate): (r: seq<SessionWithSets>)
    ensures multiset(r) == multiset(Filter(weekLogs, OnDate(selectedDate)))
    ensures Sorted(r, CompareUpdatedDescending)
  {
    var matching := Filter(weekLogs, OnDate(selectedDate));
    UpdatedOrderConsistent();
    SortBySorted(matching, CompareUpdatedDescending);
    SortBy(matching, CompareUpdatedDescending)
  }

  /**
   * The selected day's list holds exactly the week's logs of that day, and
   * along it `updatedAt` never increases.
   */
  lemma SelectedLogsMeaning(weekLogs: seq<SessionWithSets>, selectedDate: IsoDate)
    ensures var r := SelectedLogs(weekLogs, selectedDate);
      (forall e :: e in r <==> e in weekLogs && e.session.body.date == selectedDate) &&
      (forall i, j | 0 <= i < j < |r| :: AtMost(r[j].session.meta.updatedAt, r[i].session.meta.updatedAt))
  {
    var r := SelectedLogs(weekLogs, selectedDate);
    var matching := Filter(weekLogs, OnDate(selectedDate));
    forall e ensures e in r <==> e in weekLogs && e.session.body.date == selectedDate {
      assert e in r <==> e in multiset(r);
      assert e in matching <==> e in multiset(matching);
      if e in weekLogs && e.session.body.date == selectedDate {
        var k :| 0 <= k < |weekLogs| && weekLogs[k] == e;
      }
    }
    forall i, j | 0 <= i < j < |r|
      ensures AtMost(r[j].session.meta.updatedAt, r[i].session.meta.updatedAt)
    {
      assert CompareUpdatedDescending(r[i], r[j]) <= 0;
    }
  }

  /* ---------------------------------------------------------------- */
  /* The week's summary                                                 */
  /* ---------------------------------------------------------------- */

  /** One entry of `byWorkoutType`, an object whose keys keep insertion order. */
  datatype TypeCount = TypeCount(workoutType: WorkoutType, count: nat)

  datatype WeekSummary = WeekSummary(
    totalSessions: nat,
    totalMinutes: int,
    byWorkoutType: seq<TypeCount>)

  /** `byWorkoutType[type] = (byWorkoutType[type] ?? 0) + 1` */
  function Bump(entries: seq<TypeCount>, t: WorkoutType): (r: seq<TypeCount>)
    decreases |entries|
  {
    if entries == [] then [TypeCount(t, 1)]
    else if entries[0].workoutType == t then [entries[0].(count := entries[0].count + 1)] + entries[1..]
    else [entries[0]] + Bump(entries[1..], t)
  }

  /** The reducer: one more session, its minutes, one more of its workout type. */
  function Include(acc: WeekSummary, entry: SessionWithSets): WeekSummary {
    WeekSummary(
      acc.totalSessions + 1,
      acc.totalMinutes + entry.session.body.durationMin,
      Bump(acc.byWorkoutType, entry.session.body.workoutType))
  }

  /** `weekLogs.reduce(include, {totalSessions: 0, totalMinutes: 0, byWorkoutType: {}})` */
  function Tally(logs: seq<SessionWithSets>): WeekSummary
    decreases |logs|
  {
    if logs == [] then WeekSummary(0, 0, [])
    else Include(Tally(logs[..|logs| - 1]), logs[|logs| - 1])
  }

  /** The summary loop, updating the accumulator in place as the reducer does. */
  method Summarize(weekLogs: seq<SessionWithSets>) returns (summary: WeekSummary)
    ensures summary == Tally(weekLogs)
  {
    var totalSessions, totalMinutes, byWorkoutType := 0, 0, [];
    for i := 0 to |weekLogs|
      invariant WeekSummary(totalSessions, totalMinutes, byWorkoutType) == Tally(weekLogs[..i])
    {
      var entry := weekLogs[i];
      totalSessions := totalSessions + 1;
      totalMinutes := totalMinutes + entry.session.body.durationMin;
      byWorkoutType := Bump(byWorkoutType, entry.session.body.workoutType);
      assert weekLogs[..i + 1][..i] == weekLogs[..i];
    }
    assert weekLogs[..|weekLogs|] == weekLogs;
    summary := WeekSummary(totalSessions, totalMinutes, byWorkoutType);
  }

  function SumCounts(entries: seq<TypeCount>): nat
    decreases |entries|
  {
    if entries == [] then 0 else entries[0].count + SumCounts(entries[1..])
  }

  /** The count recorded for `t` (zero when `t` has no entry). */
  function CountOf(entries: seq<TypeCount>, t: WorkoutType): nat
    decreases |entries|
  {
    if entries == [] then 0
    else (if entries[0].workoutType == t then entries[0].count else 0) + CountOf(entries[1..], t)
  }

  /** The workout types that have an entry. */
  function TypesOf(entries: seq<TypeCount>): set<WorkoutType>
    decreases |entries|
  {
    if entries == [] then {} else {entries[0].workoutType} + TypesOf(entries[1..])
  }

  /** No workout type has two entries. */
  predicate DistinctTypes(entries: seq<TypeCount>)
    decreases |entries|
  {
    entries == [] || (entries[0].workoutType !in TypesOf(entries[1..]) && DistinctTypes(entries[1..]))
  }

  /** The workout types of the logs. */
  function LogTypes(logs: seq<SessionWithSets>): set<WorkoutType>
    decreases |logs|
  {
    if logs == [] then {} else LogTypes(logs[..|logs| - 1]) + {logs[|logs| - 1].session.body.workoutType}
  }

  function OfType(t: WorkoutType): SessionWithSets -> bool {
    (e: SessionWithSets) => e.session.body.workoutType == t
  }

  lemma {:induction false} BumpSum(entries: seq<TypeCount>, t: WorkoutType)
    ensures SumCounts(Bump(entries, t)) == SumCounts(entries) + 1
    decreases |entries|
  {
    if entries != [] && entries[0].workoutType != t {
      BumpSum(entries[1..], t);
    }
  }

  lemma {:induction false} BumpCount(entries: seq<TypeCount>, t: WorkoutType, u: WorkoutType)
    ensures CountOf(Bump(entries, t), u) == CountOf(entries, u) + (if u == t then 1 else 0)
    decreases |entries|
  {
    if entries != [] && entries[0].workoutType != t {
      BumpCount(entries[1..], t, u);
    }
  }

  lemma {:induction false} BumpTypes(entries: seq<TypeCount>, t: WorkoutType)
    ensures TypesOf(Bump(entries, t)) == TypesOf(entries) + {t}
    ensures DistinctTypes(entries) ==> DistinctTypes(Bump(entries, t))
    decreases |entries|
  {
    if entries != [] {
      if entries[0].workoutType == t {
        assert Bump(entries, t)[1..] == entries[1..];
      } else {
        BumpTypes(entries[1..], t);
        assert Bump(entries, t)[1..] == Bump(entries[1..], t);
      }
    }
  }

  /** The summary counts every log once, and its per-type counts add up to that total. */
  lemma {:induction false} TallyTotals(logs: seq<SessionWithSets>)
    ensures Tally(logs).totalSessions == |logs|
    ensures SumCounts(Tally(logs).byWorkoutType) == |logs|
    decreases |logs|
  {
    if logs != [] {
      var init := logs[..|logs| - 1];
      TallyTotals(init);
      BumpSum(Tally(init).byWorkoutType, logs[|logs| - 1].session.body.workoutType);
    }
  }

  /** Each workout type that occurs has exactly one entry, and no other type has one. */
  lemma {:induction false} TallyTypes(logs: seq<SessionWithSets>)
    ensures TypesOf(Tally(logs).byWorkoutType) == LogTypes(logs)
    ensures DistinctTypes(Tally(logs).byWorkoutType)
    decreases |logs|
  {
    if logs != [] {
      var init := logs[..|logs| - 1];
      TallyTypes(init);
      BumpTypes(Tally(init).byWorkoutType, logs[|logs| - 1].session.body.workoutType);
    }
  }

  /** The entry of each workout type holds the number of the week's logs of that type. */
  lemma {:induction false} TallyCounts(logs: seq<SessionWithSets>, t: WorkoutType)
    ensures CountOf(Tally(logs).byWorkoutType, t) == |Filter(logs, OfType(t))|
    decreases |logs|
  {
    if logs != [] {
      var init, last := logs[..|logs| - 1], logs[|logs| - 1];
      TallyCounts(init, t);
      BumpCount(Tally(init).byWorkoutType, last.session.body.workoutType, t);
      assert logs == init + [last];
      FilterAppend(init, [last], OfType(t));
      assert Filter([last], OfType(t)) == if last.session.body.workoutType == t then [last] else [];
    }
  }

  /* ---------------------------------------------------------------- */
  /* The selected day                                                   */
  /* ---------------------------------------------------------------- */

  /** A date argument JavaScript treats as present: given and not the empty string. */
  predicate Given(preferred: Option<IsoDate>) {
    preferred.Some? && preferred.value != ""
  }

  /**
   * The updater passed to `setSelectedDate`: the preferred date when it is
   * in the week, else the current selection when it is in the week, else
   * the week's first day.
   */
  function PickDate(weekDates: seq<IsoDate>, preferred: Option<IsoDate>, current: IsoDate): (d: IsoDate)
    requires weekDates != []
    ensures d in weekDates
    ensures Given(preferred) && preferred.value in weekDates ==> d == preferred.value
    ensures !(Given(preferred) && preferred.value in weekDates) && current in weekDates ==> d == current
    ensures !(Given(preferred) && preferred.value in weekDates) && current !in weekDates ==> d == weekDates[0]
  {
    if Given(preferred) && preferred.value in weekDates then preferred.value
    else if current in weekDates then current
    else weekDates[0]
  }

  /** Choosing the same week again without a preferred date keeps the selected day. */
  lemma PickDateStable(weekDates: seq<IsoDate>, preferred: Option<IsoDate>, current: IsoDate)
    requires weekDates != []
    ensures PickDate(weekDates, None, PickDate(weekDates, preferred, current)) == PickDate(weekDates, preferred, current)
  {
  }

  /** The page's week and selected day. */
  class WeekView {
    var weekValue: string
    var selectedDate: IsoDate

    /** The current week and today's date, as the page starts. */
    constructor(currentWeek: string, today: IsoDate)
      ensures weekValue == currentWeek && selectedDate == today
    {
      weekValue := currentWeek;
      selectedDate := today;
    }

    /**
     * `setWeekAndSelectedDate`; `nextWeekDates` are the ISO dates of
     * `getWeekDates(nextWeekValue)`. An empty week changes nothing;
     * otherwise the week switches and the selected day stays in it.
     */
    method SetWeekAndSelectedDate(nextWeekValue: string, nextWeekDates: seq<IsoDate>, preferredDate: Option<IsoDate>)
      modifies this
      ensures nextWeekDates == [] ==> weekValue == old(weekValue) && selectedDate == old(selectedDate)
      ensures nextWeekDates != [] ==>
        weekValue == nextWeekValue &&
        selectedDate == PickDate(nextWeekDates, preferredDate, old(selectedDate)) &&
        selectedDate in nextWeekDates
    {
      if nextWeekDates == [] {
        return;
      }
      weekValue := nextWeekValue;
      selectedDate := PickDate(nextWeekDates, preferredDate, selectedDate);
    }

    /**
     * `saveSession`: the add-session mutation, then the selection of the
     * session's day. The mutation stores the session through the database;
     * its success handler then offers `suggestion` (what
     * `buildProgressionSuggestion` makes of the two latest sessions of that
     * workout) to `addRecommendationIfMissing`, with `recFresh` for the new
     * record. If either step fails the mutation rejects and no selection
     * changes; a session saved before a failed suggestion stays saved.
     * `savedWeek` is the ISO week of the session's date (`None` when the date
     * does not parse) and `savedWeekDates` that week's dates. A save into
     * another week moves the view to that week.
     */
    method SaveSession(db: TrainingLogsDatabase, input: SaveSessionInput, sessionFresh: Fresh, setFresh: seq<Fresh>,
                       suggestion: Option<RecommendationInput>, recFresh: Fresh,
                       savedWeek: Option<string>, savedWeekDates: seq<IsoDate>)
      returns (r: Result<Id>)
      requires db.Valid() && |setFresh| == |input.sets|
      modifies this, db
      ensures db.Valid()
      ensures var saved := StoreModel.SaveSessionWithSets(old(db.State()), input, sessionFresh, setFresh);
        if saved.result.Err? || suggestion.None? then
          db.State() == saved.db && r == saved.result
        else
          var offered := StoreModel.AddRecommendationIfMissing(saved.db, suggestion.value, recFresh);
          db.State() == offered.db &&
          (offered.result.Ok? ==> r == saved.result) &&
          (offered.result.Err? ==> r == Err(offered.result.error))
      ensures r.Err? ==> weekValue == old(weekValue) && selectedDate == old(selectedDate)
      ensures r.Ok? && (savedWeek.None? || savedWeek.value == old(weekValue)) ==>
        weekValue == old(weekValue) && selectedDate == input.session.date
      ensures r.Ok? && savedWeek.Some? && savedWeek.value != old(weekValue) && savedWeekDates != [] ==>
        weekValue == savedWeek.value &&
        selectedDate == PickDate(savedWeekDates, Some(input.session.date), old(selectedDate))
      ensures r.Ok? && savedWeek.Some? && savedWeek.value != old(weekValue) && savedWeekDates == [] ==>
        weekValue == old(weekValue) && selectedDate == old(selectedDate)
      ensures r.Ok? && input.session.date != "" && input.session.date in savedWeekDates ==>
        selectedDate == input.session.date
    {
      r := db.SaveSessionWithSets(input, sessionFresh, setFresh);
      if r.Err? {
        return;
      }
      if suggestion.Some? {
        var offered := db.AddRecommendationIfMissing(suggestion.value, recFresh);
        if offered.Err? {
          r := Err(offered.error);
          return;
        }
      }
      var target := if savedWeek.Some? then savedWeek.value else weekValue;
      if target != weekValue {
        SetWeekAndSelectedDate(target, savedWeekDates, Some(input.session.date));
        return;
      }
      selectedDate := input.session.date;
    }
  }
}
