/**
 * The training log's database object (src/lib/training-db.ts): six tables
 * that the exported operations query and change. Each reading operation is
 * specified by what it lists, in what order; each changing operation by the
 * function of StoreModel that describes its effect on the tables.
 */
module TrainingDb {
  import opened Wrappers
  import opened IsoText
  import opened Sorting
  import opened Records
  import opened Tables
  import opened StoreModel

  datatype SessionWithSets = SessionWithSets(session: Row<Session>, sets: seq<Row<ExerciseSet>>)

  datatype BackupSnapshot = BackupSnapshot(
    exportedAt: Timestamp,
    sessions: seq<SessionWithSets>,
    readinessLogs: seq<Row<Readiness>>,
    weightLogs: seq<Row<Weight>>,
    settings: seq<Row<Setting>>,
    recommendations: seq<Row<Recommendation>>)

  /* The filters of the queries. */

  function LiveRow<T>(): Row<T> -> bool {
    (r: Row<T>) => Live(r)
  }

  function LiveSetOf(sid: Id): Row<ExerciseSet> -> bool {
    (s: Row<ExerciseSet>) => Live(s) && s.body.sessionId == sid
  }

  function LiveSetOfAny(ids: seq<Id>): Row<ExerciseSet> -> bool {
    (s: Row<ExerciseSet>) => Live(s) && s.body.sessionId in ids
  }

  function BelongsTo(sid: Id): Row<ExerciseSet> -> bool {
    (s: Row<ExerciseSet>) => s.body.sessionId == sid
  }

  /** `where("date").between(start, end, true, true)` on live sessions. */
  function LiveSessionInRange(start: IsoDate, end: IsoDate): Row<Session> -> bool {
    (s: Row<Session>) => Live(s) && InRange(s.body.date, start, end)
  }

  function LiveSessionOfType(workoutType: WorkoutType, splitType: SplitType): Row<Session> -> bool {
    (s: Row<Session>) => Live(s) && s.body.workoutType == workoutType && s.body.splitType == splitType
  }

  function LiveReadinessInRange(start: IsoDate, end: IsoDate): Row<Readiness> -> bool {
    (r: Row<Readiness>) => Live(r) && InRange(r.body.date, start, end)
  }

  function LiveDated<T>(dateOf: T -> IsoDate, d: IsoDate): Row<T> -> bool {
    (r: Row<T>) => Live(r) && dateOf(r.body) == d
  }

  function KeyIs(key: string): Row<Setting> -> bool {
    (r: Row<Setting>) => r.body.key == key
  }

  function PendingTwinOf(input: RecommendationInput): Row<Recommendation> -> bool {
    (r: Row<Recommendation>) => PendingTwin(r, input)
  }

  /** `getRecommendations(status?)`: every live recommendation, or those with the given status. */
  function LiveWithStatus(status: Option<RecommendationStatus>): Row<Recommendation> -> bool {
    (r: Row<Recommendation>) => Live(r) && (status.Some? ==> r.body.status == status.value)
  }

  /** `grouped.get(id) ?? []` */
  function Lookup(grouped: map<Id, seq<Row<ExerciseSet>>>, id: Id): seq<Row<ExerciseSet>> {
    if id in grouped then grouped[id] else []
  }

  function SessionsOf(entries: seq<SessionWithSets>): (ss: seq<Row<Session>>)
    ensures |ss| == |entries|
  {
    seq(|entries|, i requires 0 <= i < |entries| => entries[i].session)
  }

  function IdsOf(ss: seq<Row<Session>>): (ids: seq<Id>)
    ensures |ids| == |ss|
  {
    seq(|ss|, i requires 0 <= i < |ss| => ss[i].meta.id)
  }

  /** `rows` lists the records of `t` that satisfy `keep`, ordered by `cmp`. */
  ghost predicate SortedListing<T>(rows: seq<Row<T>>, t: Table<T>, keep: Row<T> -> bool, cmp: (Row<T>, Row<T>) -> int) {
    Lists(rows, t, keep) && Sorted(rows, cmp)
  }

  /** `sets` are the live sets of session `sid`, by exercise order, then set order. */
  ghost predicate LiveSetsOf(db: Db, sid: Id, sets: seq<Row<ExerciseSet>>) {
    SortedListing(sets, db.exerciseSets, LiveSetOf(sid), CompareSets)
  }

  ghost predicate SetsAttached(db: Db, entries: seq<SessionWithSets>) {
    forall i | 0 <= i < |entries| :: LiveSetsOf(db, entries[i].session.meta.id, entries[i].sets)
  }

  /** The end index of JavaScript's `slice(0, limit)` on a list of length `len`. */
  function SliceEnd(len: nat, limit: int): (e: nat)
    ensures e <= len
  {
    if limit < 0 then (if len + limit > 0 then len + limit else 0)
    else if limit < len then limit
    else len
  }

  /** A scan followed by `sort(cmp)`. */
  method SortedScan<T(!new)>(t: Table<T>, keep: Row<T> -> bool, cmp: (Row<T>, Row<T>) -> int)
    returns (rows: seq<Row<T>>)
    requires WellKeyed(t) && TotalPreorder(cmp)
    ensures SortedListing(rows, t, keep, cmp)
    ensures |rows| == |MatchingIds(t, keep)|
  {
    var scanned := ScanTable(t, keep);
    rows := SortBy(scanned, cmp);
    SortBySorted(scanned, cmp);
    ListsPermutation(scanned, rows, t, keep);
  }

  /**
   * The first `e` rows of a sorted listing: stored, matching, distinct,
   * sorted, and none of them after any matching record that was cut off.
   */
  lemma PrefixOfListing<T>(rows: seq<Row<T>>, t: Table<T>, keep: Row<T> -> bool,
                           cmp: (Row<T>, Row<T>) -> int, e: nat)
    requires SortedListing(rows, t, keep, cmp) && e <= |rows|
    ensures Selects(rows[..e], t, keep) && Sorted(rows[..e], cmp)
    ensures forall i, k | 0 <= i < e && k in t && keep(t[k]) && t[k] !in rows[..e] :: cmp(rows[i], t[k]) <= 0
  {
    var prefix := rows[..e];
    assert rows == prefix + rows[e..];
    assert multiset(rows) == multiset(prefix) + multiset(rows[e..]);
    forall i | 0 <= i < e ensures multiset(prefix)[prefix[i]] == 1 {
      assert rows[i] == prefix[i];
    }
    forall i, k | 0 <= i < e && k in t && keep(t[k]) && t[k] !in prefix
      ensures cmp(rows[i], t[k]) <= 0
    {
      var j :| 0 <= j < |rows| && rows[j] == t[k];
    }
  }

  /**
   * The save-by-date of `saveReadinessLog` and `saveWeightLog`: look up the
   * live record of the input's date, then rewrite it or add a new one.
   */
  method UpsertIn<T>(t: Table<T>, dateOf: T -> IsoDate, input: T, f: Fresh, now: Timestamp)
    returns (result: Result<Id>, t': Table<T>)
    requires DatedValid(t, dateOf)
    ensures Upsert(result, t') == UpsertByDate(t, dateOf, input, f, now)
  {
    var current := ScanTable(t, LiveDated(dateOf, dateOf(input)));
    if |current| > 0 {
      var cur := current[0];
      assert LiveOnDate(t, dateOf, dateOf(input), cur.meta.id);
      return Ok(cur.meta.id), t[cur.meta.id := Overwrite(cur, input, now)];
    }
    assert forall k :: !LiveOnDate(t, dateOf, dateOf(input), k);
    var record := Row(CreateSyncMeta(f), input);
    if record.meta.id in t {
      return Err(ConstraintError), t;
    }
    return Ok(record.meta.id), t[record.meta.id := record];
  }

  /** Every group of `grouped` is non-empty and names the session of some set of `sets`. */
  ghost predicate GroupsNamed(grouped: map<Id, seq<Row<ExerciseSet>>>, sets: seq<Row<ExerciseSet>>) {
    forall k | k in grouped :: grouped[k] != [] && exists i | 0 <= i < |sets| :: sets[i].body.sessionId == k
  }

  /** Each session id's group holds exactly its sets of `sets`, in order. */
  ghost predicate GroupsFiltered(grouped: map<Id, seq<Row<ExerciseSet>>>, sets: seq<Row<ExerciseSet>>) {
    forall k :: Lookup(grouped, k) == Filter(sets, BelongsTo(k))
  }

  /** Appending a set to its group keeps every group named by some set. */
  lemma GroupStepNamed(grouped: map<Id, seq<Row<ExerciseSet>>>, sets: seq<Row<ExerciseSet>>, x: Row<ExerciseSet>)
    requires GroupsNamed(grouped, sets)
    ensures GroupsNamed(grouped[x.body.sessionId := Lookup(grouped, x.body.sessionId) + [x]], sets + [x])
  {
    var g := grouped[x.body.sessionId := Lookup(grouped, x.body.sessionId) + [x]];
    var s := sets + [x];
    forall k | k in g ensures exists i | 0 <= i < |s| :: s[i].body.sessionId == k {
      if k == x.body.sessionId {
        assert s[|sets|] == x;
      } else {
        var i :| 0 <= i < |sets| && sets[i].body.sessionId == k;
        assert s[i] == sets[i];
      }
    }
  }

  /** Appending a set to its group keeps each group equal to its session's sets, in order. */
  lemma GroupStepFiltered(grouped: map<Id, seq<Row<ExerciseSet>>>, sets: seq<Row<ExerciseSet>>, x: Row<ExerciseSet>)
    requires GroupsFiltered(grouped, sets)
    ensures GroupsFiltered(grouped[x.body.sessionId := Lookup(grouped, x.body.sessionId) + [x]], sets + [x])
  {
    var g := grouped[x.body.sessionId := Lookup(grouped, x.body.sessionId) + [x]];
    forall k ensures Lookup(g, k) == Filter(sets + [x], BelongsTo(k)) {
      FilterAppend(sets, [x], BelongsTo(k));
      FilterOne(x, BelongsTo(k));
    }
  }

  /** One turn of the grouping loop: appending set `i` to its group groups the first `i + 1` sets. */
  lemma GroupStep(grouped: map<Id, seq<Row<ExerciseSet>>>, sets: seq<Row<ExerciseSet>>, i: nat)
    requires i < |sets|
    requires GroupsNamed(grouped, sets[..i]) && GroupsFiltered(grouped, sets[..i])
    ensures var g := grouped[sets[i].body.sessionId := Lookup(grouped, sets[i].body.sessionId) + [sets[i]]];
      GroupsNamed(g, sets[..i + 1]) && GroupsFiltered(g, sets[..i + 1])
  {
    assert sets[..i + 1] == sets[..i] + [sets[i]];
    GroupStepNamed(grouped, sets[..i], sets[i]);
    GroupStepFiltered(grouped, sets[..i], sets[i]);
  }

  /**
   * The transaction of `saveSessionWithSets`: `add` of the session, then
   * `bulkAdd` of its sets, record by record; an id already taken aborts it
   * and leaves both tables as they were.
   */
  method SaveSessionIn(db: Db, input: SaveSessionInput, sessionFresh: Fresh, setFresh: seq<Fresh>)
    returns (r: Result<Id>, sessions: Table<Session>, sets: Table<ExerciseSet>)
    requires |setFresh| == |input.sets|
    ensures Step(r, db.(sessions := sessions, exerciseSets := sets))
      == StoreModel.SaveSessionWithSets(db, input, sessionFresh, setFresh)
  {
    sessions, sets := db.sessions, db.exerciseSets;
    var session := Row(CreateSyncMeta(sessionFresh), input.session);
    var setRecords := SetRecords(input.sets, session, setFresh);
    if session.meta.id in sessions {
      return Err(ConstraintError), sessions, sets;
    }
    var staged := sets;
    var i := 0;
    while i < |setRecords|
      invariant 0 <= i <= |setRecords|
      invariant BulkAdd(sets, setRecords) == BulkAdd(staged, setRecords[i..])
    {
      assert setRecords[i..][1..] == setRecords[i + 1..];
      if setRecords[i].meta.id in staged {
        return Err(ConstraintError), sessions, sets;
      }
      staged := staged[setRecords[i].meta.id := setRecords[i]];
      i := i + 1;
    }
    return Ok(session.meta.id), sessions[session.meta.id := session], staged;
  }

  /**
   * The grouping loop of `getSetsBySessionIds`: each set is appended to the
   * group of its session, so every group keeps the order of `sets`.
   */
  method GroupBySession(sets: seq<Row<ExerciseSet>>) returns (grouped: map<Id, seq<Row<ExerciseSet>>>)
    ensures forall k | k in grouped :: grouped[k] != [] && exists i | 0 <= i < |sets| :: sets[i].body.sessionId == k
    ensures forall k :: Lookup(grouped, k) == Filter(sets, BelongsTo(k))
  {
    grouped := map[];
    for i := 0 to |sets|
      invariant GroupsNamed(grouped, sets[..i]) && GroupsFiltered(grouped, sets[..i])
    {
      var set_ := sets[i];
      var current := Lookup(grouped, set_.body.sessionId);
      GroupStep(grouped, sets, i);
      grouped := grouped[set_.body.sessionId := current + [set_]];
    }
    assert sets[..|sets|] == sets;
  }

  /**
   * The `bulkPut` of `softDeleteSession`: each listed set is replaced by its
   * tombstone, one record at a time.
   */
  method TombstoneEach(t: Table<ExerciseSet>, sets: seq<Row<ExerciseSet>>, sid: Id, now: Timestamp)
    returns (t': Table<ExerciseSet>)
    requires WellKeyed(t) && Lists(sets, t, LiveSetOf(sid))
    ensures t' == CascadeAll(t, sid, now)
  {
    t' := t;
    var i := 0;
    while i < |sets|
      invariant 0 <= i <= |sets|
      invariant t'.Keys == t.Keys
      invariant forall k | k in t :: t'[k] == if t[k] in sets[..i] then Tombstone(t[k], now) else t[k]
    {
      assert sets[..i + 1] == sets[..i] + [sets[i]];
      t' := t'[sets[i].meta.id := Tombstone(sets[i], now)];
      i := i + 1;
    }
    assert sets[..i] == sets;
  }

  /**
   * `softDeleteSession` on the two training tables: tombstones a live
   * session and then, one `put` per record, each of its live sets, all with
   * the same deletion instant.
   */
  method SoftDeleteIn(db: Db, sid: Id, now: Timestamp) returns (sessions: Table<Session>, sets: Table<ExerciseSet>)
    requires WellKeyed(db.sessions) && WellKeyed(db.exerciseSets)
    ensures sessions == StoreModel.SoftDeleteSession(db, sid, now).sessions
    ensures sets == StoreModel.SoftDeleteSession(db, sid, now).exerciseSets
  {
    sessions, sets := db.sessions, db.exerciseSets;
    if sid !in sessions || !Live(sessions[sid]) {
      return;
    }
    var session := sessions[sid];
    var deletedTimestamp := now;
    sessions := sessions[session.meta.id := Tombstone(session, deletedTimestamp)];
    var live := ScanTable(sets, LiveSetOf(sid));
    if |live| > 0 {
      sets := TombstoneEach(sets, live, sid, deletedTimestamp);
    } else {
      CascadeAllNone(sets, live, sid, now);
    }
  }

  /** Without live sets of the session there is nothing to tombstone. */
  lemma CascadeAllNone(t: Table<ExerciseSet>, sets: seq<Row<ExerciseSet>>, sid: Id, now: Timestamp)
    requires Lists(sets, t, LiveSetOf(sid)) && |sets| == 0
    ensures CascadeAll(t, sid, now) == t
  {
    assert forall k | k in t :: !LiveSetOf(sid)(t[k]);
  }

  /**
   * `setSetting` on the settings table: look up the record of `key`, live or
   * not, then rewrite it or add a new one.
   */
  method PutSettingIn(t: Table<Setting>, key: string, value: string, f: Fresh, now: Timestamp)
    returns (result: Result<Id>, t': Table<Setting>)
    requires SettingsValid(t)
    ensures Upsert(result, t') == PutSetting(t, key, value, f, now)
  {
    var found := ScanTable(t, KeyIs(key));
    if |found| > 0 {
      var current := found[0];
      assert HasKey(t, key, current.meta.id);
      var touched := TouchVersion(current, now);
      return Ok(current.meta.id), t[current.meta.id := Row(touched.meta.(deletedAt := None), current.body.(value := value))];
    }
    assert forall k :: !HasKey(t, key, k);
    var setting := Row(CreateSyncMeta(f), Setting(key, value));
    if setting.meta.id in t {
      return Err(ConstraintError), t;
    }
    return Ok(setting.meta.id), t[setting.meta.id := setting];
  }

  class TrainingLogsDatabase {
    var sessions: Table<Session>
    var exerciseSets: Table<ExerciseSet>
    var readinessLogs: Table<Readiness>
    var weightLogs: Table<Weight>
    var appSettings: Table<Setting>
    var recommendations: Table<Recommendation>

    ghost function State(): Db
      reads this
    {
      Db(sessions, exerciseSets, readinessLogs, weightLogs, appSettings, recommendations)
    }

    ghost predicate Valid()
      reads this
    {
      StoreModel.Valid(State())
    }

    /** A new, empty database. */
    constructor()
      ensures State() == EmptyDb && Valid()
    {
      sessions, exerciseSets, readinessLogs := map[], map[], map[];
      weightLogs, appSettings, recommendations := map[], map[], map[];
      EmptyDbValid();
    }

    /* ------------------------------------------------------------ */
    /* Sessions and their sets                                        */
    /* ------------------------------------------------------------ */

    /**
     * `getSetsBySessionIds`: the live sets of the given sessions, grouped by
     * session and in set order within each group; a session without live
     * sets has no group.
     */
    method GetSetsBySessionIds(ids: seq<Id>) returns (grouped: map<Id, seq<Row<ExerciseSet>>>)
      requires Valid()
      ensures forall k | k in grouped :: k in ids && grouped[k] != []
      ensures forall k | k in ids :: LiveSetsOf(State(), k, Lookup(grouped, k))
    {
      if |ids| == 0 {
        return map[];
      }
      SetOrderConsistent();
      var sets := SortedScan(exerciseSets, LiveSetOfAny(ids), CompareSets);
      grouped := GroupBySession(sets);
      forall k | k in ids ensures LiveSetsOf(State(), k, Lookup(grouped, k)) {
        ListsFilter(sets, exerciseSets, LiveSetOfAny(ids), BelongsTo(k), LiveSetOf(k));
        FilterSorted(sets, BelongsTo(k), CompareSets);
      }
    }

    /** Each session of `ordered` together with its live sets. */
    method AttachSets(ordered: seq<Row<Session>>) returns (entries: seq<SessionWithSets>)
      requires Valid()
      ensures SessionsOf(entries) == ordered
      ensures SetsAttached(State(), entries)
    {
      var ids := IdsOf(ordered);
      var setsBySession := GetSetsBySessionIds(ids);
      entries := seq(|ordered|, i requires 0 <= i < |ordered| =>
        SessionWithSets(ordered[i], Lookup(setsBySession, ordered[i].meta.id)));
      assert forall i | 0 <= i < |ordered| :: ordered[i].meta.id == ids[i];
    }

    /**
     * `saveSessionWithSets`: the set records are staged one by one; the first
     * id that is taken aborts the transaction, otherwise the session and the
     * staged sets are stored together.
     */
    method SaveSessionWithSets(input: SaveSessionInput, sessionFresh: Fresh, setFresh: seq<Fresh>)
      returns (r: Result<Id>)
      requires Valid() && |setFresh| == |input.sets|
      modifies this
      ensures Step(r, State()) == StoreModel.SaveSessionWithSets(old(State()), input, sessionFresh, setFresh)
      ensures Valid()
    {
      var db := Db(sessions, exerciseSets, readinessLogs, weightLogs, appSettings, recommendations);
      SaveSessionKeepsValid(db, input, sessionFresh, setFresh);
      r, sessions, exerciseSets := SaveSessionIn(db, input, sessionFresh, setFresh);
    }

    /**
     * `getSessionsByDateRange`: the live sessions dated from `start` to `end`
     * inclusive, newest first, each with its live sets.
     */
    method GetSessionsByDateRange(start: IsoDate, end: IsoDate) returns (r: seq<SessionWithSets>)
      requires Valid()
      ensures SortedListing(SessionsOf(r), sessions, LiveSessionInRange(start, end), CompareSessionsDescending)
      ensures SetsAttached(State(), r)
    {
      SessionOrderConsistent();
      var found := SortedScan(sessions, LiveSessionInRange(start, end), CompareSessionsDescending);
      r := AttachSets(found);
    }

    /** `getAllSessionsWithSets`: every live session, newest first, each with its live sets. */
    method GetAllSessionsWithSets() returns (r: seq<SessionWithSets>)
      requires Valid()
      ensures SortedListing(SessionsOf(r), sessions, LiveRow(), CompareSessionsDescending)
      ensures SetsAttached(State(), r)
    {
      SessionOrderConsistent();
      var found := SortedScan(sessions, LiveRow(), CompareSessionsDescending);
      r := AttachSets(found);
    }

    /**
     * `getLastSessionByWorkoutType`: the newest live session of that workout
     * and split with its live sets, or none when there is no such session.
     */
    method GetLastSessionByWorkoutType(workoutType: WorkoutType, splitType: SplitType)
      returns (r: Option<SessionWithSets>)
      requires Valid()
      ensures var matches := LiveSessionOfType(workoutType, splitType);
        (r.None? <==> forall k | k in sessions :: !matches(sessions[k])) &&
        (r.Some? ==>
          var s := r.value.session;
          s.meta.id in sessions && sessions[s.meta.id] == s && matches(s) &&
          (forall k | k in sessions && matches(sessions[k]) :: CompareSessionsDescending(s, sessions[k]) <= 0) &&
          LiveSetsOf(State(), s.meta.id, r.value.sets))
    {
      SessionOrderConsistent();
      SetOrderConsistent();
      var found := SortedScan(sessions, LiveSessionOfType(workoutType, splitType), CompareSessionsDescending);
      if |found| == 0 {
        return None;
      }
      var latest := found[0];
      forall k | k in sessions && LiveSessionOfType(workoutType, splitType)(sessions[k])
        ensures CompareSessionsDescending(latest, sessions[k]) <= 0
      {
        var j :| 0 <= j < |found| && found[j] == sessions[k];
        SessionOrderMeaning(latest, latest);
      }
      var sets := SortedScan(exerciseSets, LiveSetOf(latest.meta.id), CompareSets);
      return Some(SessionWithSets(latest, sets));
    }

    /**
     * `getRecentSessionsByWorkoutType`: the first `limit` live sessions of that
     * workout and split, newest first (JavaScript's `slice(0, limit)`), each
     * with its live sets. Every matching session left out is no newer than
     * any that was kept.
     */
    method GetRecentSessionsByWorkoutType(workoutType: WorkoutType, splitType: SplitType, limit: int)
      returns (r: seq<SessionWithSets>)
      requires Valid()
      ensures var matches := LiveSessionOfType(workoutType, splitType);
        Selects(SessionsOf(r), sessions, matches) &&
        Sorted(SessionsOf(r), CompareSessionsDescending) &&
        |r| == SliceEnd(|MatchingIds(sessions, matches)|, limit) &&
        (forall i, k | 0 <= i < |r| && k in sessions && matches(sessions[k]) && sessions[k] !in SessionsOf(r) ::
          CompareSessionsDescending(r[i].session, sessions[k]) <= 0)
      ensures SetsAttached(State(), r)
    {
      SessionOrderConsistent();
      var matches := LiveSessionOfType(workoutType, splitType);
      var found := SortedScan(sessions, matches, CompareSessionsDescending);
      var selected := found[..SliceEnd(|found|, limit)];
      PrefixOfListing(found, sessions, matches, CompareSessionsDescending, |selected|);
      r := AttachSets(selected);
      forall i, k | 0 <= i < |r| && k in sessions && matches(sessions[k]) && sessions[k] !in SessionsOf(r)
        ensures CompareSessionsDescending(r[i].session, sessions[k]) <= 0
      {
        assert r[i].session == selected[i] == found[i];
      }
    }

    /**
     * `softDeleteSession`: tombstones a live session and then, one `put` per
     * record, each of its live sets, all with the same deletion instant.
     */
    method SoftDeleteSession(sid: Id, now: Timestamp)
      requires Valid()
      modifies this
      ensures State() == StoreModel.SoftDeleteSession(old(State()), sid, now)
      ensures Valid()
    {
      var db := Db(sessions, exerciseSets, readinessLogs, weightLogs, appSettings, recommendations);
      SoftDeleteKeepsValid(db, sid, now);
      sessions, exerciseSets := SoftDeleteIn(db, sid, now);
    }

    /* ------------------------------------------------------------ */
    /* Readiness and weight logs                                      */
    /* ------------------------------------------------------------ */

    /** `saveReadinessLog`: one live log per date, rewritten in place when it exists. */
    method SaveReadinessLog(input: Readiness, f: Fresh, now: Timestamp) returns (r: Result<Id>)
      requires Valid()
      modifies this
      ensures Step(r, State()) == StoreModel.SaveReadinessLog(old(State()), input, f, now)
      ensures Valid()
    {
      SaveReadinessKeepsValid(State(), input, f, now);
      r, readinessLogs := UpsertIn(readinessLogs, ReadinessDate, input, f, now);
    }

    /** `saveWeightLog`: one live weigh-in per date, rewritten in place when it exists. */
    method SaveWeightLog(input: Weight, f: Fresh, now: Timestamp) returns (r: Result<Id>)
      requires Valid()
      modifies this
      ensures Step(r, State()) == StoreModel.SaveWeightLog(old(State()), input, f, now)
      ensures Valid()
    {
      SaveWeightKeepsValid(State(), input, f, now);
      r, weightLogs := UpsertIn(weightLogs, WeightDate, input, f, now);
    }

    /** `getLatestReadinessLog`: the live log with the latest date, if any. */
    method GetLatestReadinessLog() returns (r: Option<Row<Readiness>>)
      requires Valid()
      ensures r.None? <==> forall k | k in readinessLogs :: !Live(readinessLogs[k])
      ensures r.Some? ==>
        r.value.meta.id in readinessLogs && readinessLogs[r.value.meta.id] == r.value && Live(r.value) &&
        forall k | k in readinessLogs && Live(readinessLogs[k]) :: AtMost(readinessLogs[k].body.date, r.value.body.date)
    {
      DateOrdersConsistent();
      var logs := SortedScan(readinessLogs, LiveRow(), CompareReadinessDescending);
      if |logs| == 0 {
        return None;
      }
      forall k | k in readinessLogs && Live(readinessLogs[k])
        ensures AtMost(readinessLogs[k].body.date, logs[0].body.date)
      {
        var j :| 0 <= j < |logs| && logs[j] == readinessLogs[k];
        assert CompareReadinessDescending(logs[0], logs[j]) <= 0;
      }
      return Some(logs[0]);
    }

    /** `getReadinessLogsByDateRange`: live logs dated from `start` to `end` inclusive, latest first. */
    method GetReadinessLogsByDateRange(start: IsoDate, end: IsoDate) returns (r: seq<Row<Readiness>>)
      requires Valid()
      ensures SortedListing(r, readinessLogs, LiveReadinessInRange(start, end), CompareReadinessDescending)
    {
      DateOrdersConsistent();
      r := SortedScan(readinessLogs, LiveReadinessInRange(start, end), CompareReadinessDescending);
    }

    /** `getAllReadinessLogs`: every live log, earliest first. */
    method GetAllReadinessLogs() returns (r: seq<Row<Readiness>>)
      requires Valid()
      ensures SortedListing(r, readinessLogs, LiveRow(), CompareReadinessAscending)
    {
      DateOrdersConsistent();
      r := SortedScan(readinessLogs, LiveRow(), CompareReadinessAscending);
    }

    /** `getWeightLogs`: every live weigh-in, earliest first. */
    method GetWeightLogs() returns (r: seq<Row<Weight>>)
      requires Valid()
      ensures SortedListing(r, weightLogs, LiveRow(), CompareWeightAscending)
    {
      DateOrdersConsistent();
      r := SortedScan(weightLogs, LiveRow(), CompareWeightAscending);
    }

    /* ------------------------------------------------------------ */
    /* Settings                                                       */
    /* ------------------------------------------------------------ */

    /** `getSetting`: the record of `key` when it is live; a tombstoned or missing key gives none. */
    method GetSetting(key: string) returns (r: Option<Row<Setting>>)
      requires Valid()
      ensures r.Some? ==>
        HasKey(appSettings, key, r.value.meta.id) && appSettings[r.value.meta.id] == r.value && Live(r.value)
      ensures r.None? ==> forall k | HasKey(appSettings, key, k) :: !Live(appSettings[k])
    {
      var found := ScanTable(appSettings, KeyIs(key));
      if |found| == 0 {
        return None;
      }
      var setting := found[0];
      forall k | HasKey(appSettings, key, k) ensures k == setting.meta.id {
      }
      return if Live(setting) then Some(setting) else None;
    }

    /** `getAllSettings`: every live setting, in no particular order. */
    method GetAllSettings() returns (r: seq<Row<Setting>>)
      requires Valid()
      ensures Lists(r, appSettings, LiveRow())
    {
      r := ScanTable(appSettings, LiveRow());
    }

    /** `setSetting`: writes `value` under `key`, reviving a deleted record of that key. */
    method SetSetting(key: string, value: string, f: Fresh, now: Timestamp) returns (r: Result<Id>)
      requires Valid()
      modifies this
      ensures Step(r, State()) == StoreModel.SetSetting(old(State()), key, value, f, now)
      ensures Valid()
    {
      SetSettingKeepsValid(State(), key, value, f, now);
      r, appSettings := PutSettingIn(appSettings, key, value, f, now);
    }

    /* ------------------------------------------------------------ */
    /* Recommendations                                                */
    /* ------------------------------------------------------------ */

    /** `addRecommendation` */
    method AddRecommendation(input: RecommendationInput, f: Fresh) returns (r: Result<Id>)
      requires Valid()
      modifies this
      ensures Step(r, State()) == StoreModel.AddRecommendation(old(State()), input, f)
      ensures Valid()
    {
      AddRecommendationKeepsValid(State(), input, f);
      var recommendation := NewRecommendation(input, f);
      if recommendation.meta.id in recommendations {
        return Err(ConstraintError);
      }
      recommendations := recommendations[recommendation.meta.id := recommendation];
      return Ok(recommendation.meta.id);
    }

    /** `addRecommendationIfMissing`: null when a pending twin exists, otherwise `addRecommendation`. */
    method AddRecommendationIfMissing(input: RecommendationInput, f: Fresh) returns (r: Result<Option<Id>>)
      requires Valid()
      modifies this
      ensures Step(r, State()) == StoreModel.AddRecommendationIfMissing(old(State()), input, f)
      ensures Valid()
    {
      var existing := ScanTable(recommendations, PendingTwinOf(input));
      if |existing| > 0 {
        assert existing[0].meta.id in recommendations;
        return Ok(None);
      }
      assert forall k | k in recommendations :: !PendingTwin(recommendations[k], input);
      var added := AddRecommendation(input, f);
      r := match added
        case Ok(id) => Ok(Some(id))
        case Err(e) => Err(e);
    }

    /** `updateRecommendationStatus` */
    method UpdateRecommendationStatus(id: Id, status: RecommendationStatus, now: Timestamp)
      requires Valid()
      modifies this
      ensures State() == StoreModel.UpdateRecommendationStatus(old(State()), id, status, now)
      ensures Valid()
    {
      UpdateRecommendationStatusKeepsValid(State(), id, status, now);
      if id !in recommendations || !Live(recommendations[id]) {
        return;
      }
      var recommendation := recommendations[id];
      recommendations := recommendations[recommendation.meta.id :=
        TouchVersion(recommendation, now).(body := recommendation.body.(status := status))];
    }

    /** `getRecommendations(status?)`: live recommendations, optionally of one status, latest date first. */
    method GetRecommendations(status: Option<RecommendationStatus>) returns (r: seq<Row<Recommendation>>)
      requires Valid()
      ensures SortedListing(r, recommendations, LiveWithStatus(status), CompareRecommendationsDescending)
    {
      DateOrdersConsistent();
      r := SortedScan(recommendations, LiveWithStatus(status), CompareRecommendationsDescending);
    }

    /** `getBackupSnapshot`: every live record of every table, each list in its read order. */
    method GetBackupSnapshot(now: Timestamp) returns (b: BackupSnapshot)
      requires Valid()
      ensures b.exportedAt == now
      ensures SortedListing(SessionsOf(b.sessions), sessions, LiveRow(), CompareSessionsDescending)
      ensures SetsAttached(State(), b.sessions)
      ensures SortedListing(b.readinessLogs, readinessLogs, LiveRow(), CompareReadinessAscending)
      ensures SortedListing(b.weightLogs, weightLogs, LiveRow(), CompareWeightAscending)
      ensures Lists(b.settings, appSettings, LiveRow())
      ensures SortedListing(b.recommendations, recommendations, LiveRow(), CompareRecommendationsDescending)
    {
      var allSessions := GetAllSessionsWithSets();
      var readiness := GetAllReadinessLogs();
      var weights := GetWeightLogs();
      var settings := GetAllSettings();
      var recs := GetRecommendations(None);
      assert forall x :: LiveWithStatus(None)(x) == LiveRow()(x);
      assert Lists(recs, recommendations, LiveRow());
      b := BackupSnapshot(now, allSessions, readiness, weights, settings, recs);
    }
  }
}
