/**
 * The training log's tables as one value, the invariant every operation
 * keeps, and what each mutation of src/lib/training-db.ts does to the
 * tables. The class in TrainingDb performs these mutations step by step;
 * its methods are specified by the functions here.
 */
module StoreModel {
  import opened Wrappers
  import opened IsoText
  import opened Sorting
  import opened Records
  import opened Tables

  datatype Db = Db(
    sessions: Table<Session>,
    exerciseSets: Table<ExerciseSet>,
    readinessLogs: Table<Readiness>,
    weightLogs: Table<Weight>,
    appSettings: Table<Setting>,
    recommendations: Table<Recommendation>)

  const EmptyDb := Db(map[], map[], map[], map[], map[], map[])

  /** Dexie rejects a record whose primary key is already stored. */
  datatype StoreError = ConstraintError

  datatype Result<T> = Ok(value: T) | Err(error: StoreError)

  /** What a mutation returns together with the tables after it. */
  datatype Step<R> = Step(result: R, db: Db)

  /* ---------------------------------------------------------------- */
  /* Invariants                                                         */
  /* ---------------------------------------------------------------- */

  ghost predicate VersionsPositive<T>(t: Table<T>) {
    forall k | k in t :: t[k].meta.version >= 1
  }

  /** At most one live record per value of `keyOf` (the natural key). */
  ghost predicate OneLivePerKey<T>(t: Table<T>, keyOf: T -> string) {
    forall a, b | a in t && b in t && Live(t[a]) && Live(t[b]) && keyOf(t[a].body) == keyOf(t[b].body) :: a == b
  }

  /** At most one record, live or tombstoned, per settings key (the unique `&key` index). */
  ghost predicate OneRowPerSettingKey(t: Table<Setting>) {
    forall a, b | a in t && b in t && t[a].body.key == t[b].body.key :: a == b
  }

  /**
   * Every set belongs to a stored session, carries that session's date,
   * split and workout type, and is live only while its session is live.
   */
  ghost predicate SetsFollowSessions(sessions: Table<Session>, sets: Table<ExerciseSet>) {
    forall k | k in sets ::
      var s := sets[k].body;
      s.sessionId in sessions &&
      s.date == sessions[s.sessionId].body.date &&
      s.splitType == sessions[s.sessionId].body.splitType &&
      s.workoutType == sessions[s.sessionId].body.workoutType &&
      (Live(sets[k]) ==> Live(sessions[s.sessionId]))
  }

  function ReadinessDate(b: Readiness): IsoDate { b.date }
  function WeightDate(b: Weight): IsoDate { b.date }

  /** The invariant of one table: keyed by id, versions start at 1. */
  ghost predicate TableValid<T>(t: Table<T>) {
    WellKeyed(t) && VersionsPositive(t)
  }

  ghost predicate TrainingValid(sessions: Table<Session>, sets: Table<ExerciseSet>) {
    TableValid(sessions) && TableValid(sets) && SetsFollowSessions(sessions, sets)
  }

  ghost predicate DatedValid<T>(t: Table<T>, dateOf: T -> IsoDate) {
    TableValid(t) && OneLivePerKey(t, dateOf)
  }

  ghost predicate SettingsValid(t: Table<Setting>) {
    TableValid(t) && OneRowPerSettingKey(t)
  }

  ghost predicate Valid(db: Db) {
    TrainingValid(db.sessions, db.exerciseSets) &&
    DatedValid(db.readinessLogs, ReadinessDate) &&
    DatedValid(db.weightLogs, WeightDate) &&
    SettingsValid(db.appSettings) &&
    TableValid(db.recommendations)
  }

  /**
   * Records are never physically removed, their id and creation instant
   * never change, and their version never goes down.
   */
  ghost predicate Grows<T>(t: Table<T>, u: Table<T>) {
    t.Keys <= u.Keys &&
    forall k | k in t ::
      u[k].meta.id == t[k].meta.id &&
      u[k].meta.createdAt == t[k].meta.createdAt &&
      u[k].meta.version >= t[k].meta.version
  }

  ghost predicate Evolves(db: Db, db': Db) {
    Grows(db.sessions, db'.sessions) && Grows(db.exerciseSets, db'.exerciseSets) &&
    Grows(db.readinessLogs, db'.readinessLogs) && Grows(db.weightLogs, db'.weightLogs) &&
    Grows(db.appSettings, db'.appSettings) && Grows(db.recommendations, db'.recommendations)
  }

  /* Replacing one table: the other tables keep their part of the invariant. */

  lemma ReplaceRecommendations(db: Db, t: Table<Recommendation>)
    requires Valid(db) && TableValid(t) && Grows(db.recommendations, t)
    ensures Valid(db.(recommendations := t)) && Evolves(db, db.(recommendations := t))
  {
  }

  lemma ReplaceSettings(db: Db, t: Table<Setting>)
    requires Valid(db) && SettingsValid(t) && Grows(db.appSettings, t)
    ensures Valid(db.(appSettings := t)) && Evolves(db, db.(appSettings := t))
  {
  }

  lemma ReplaceReadiness(db: Db, t: Table<Readiness>)
    requires Valid(db) && DatedValid(t, ReadinessDate) && Grows(db.readinessLogs, t)
    ensures Valid(db.(readinessLogs := t)) && Evolves(db, db.(readinessLogs := t))
  {
  }

  lemma ReplaceWeight(db: Db, t: Table<Weight>)
    requires Valid(db) && DatedValid(t, WeightDate) && Grows(db.weightLogs, t)
    ensures Valid(db.(weightLogs := t)) && Evolves(db, db.(weightLogs := t))
  {
  }

  lemma ReplaceTraining(db: Db, sessions: Table<Session>, sets: Table<ExerciseSet>)
    requires Valid(db) && TrainingValid(sessions, sets)
    requires Grows(db.sessions, sessions) && Grows(db.exerciseSets, sets)
    ensures Valid(db.(sessions := sessions, exerciseSets := sets))
    ensures Evolves(db, db.(sessions := sessions, exerciseSets := sets))
  {
  }

  lemma EmptyDbValid()
    ensures Valid(EmptyDb)
  {
  }

  /* ---------------------------------------------------------------- */
  /* saveSessionWithSets                                                */
  /* ---------------------------------------------------------------- */

  /** One line of the session being saved, before it becomes a record. */
  datatype SetInput = SetInput(
    exerciseName: string,
    exerciseOrder: int,
    setOrder: int,
    weightKg: real,
    reps: int,
    rpe: Option<real>,
    rir: Option<int>,
    technique: Option<string>)

  datatype SaveSessionInput = SaveSessionInput(session: Session, sets: seq<SetInput>)

  /** The record created for `line`: it copies the session's id, date, split and workout type. */
  function SetRecord(line: SetInput, parent: Row<Session>, f: Fresh): Row<ExerciseSet> {
    Row(CreateSyncMeta(f), ExerciseSet(
      parent.meta.id, parent.body.date, parent.body.splitType, parent.body.workoutType,
      line.exerciseName, line.exerciseOrder, line.setOrder, line.weightKg, line.reps,
      line.rpe, line.rir, line.technique))
  }

  function SetRecords(lines: seq<SetInput>, parent: Row<Session>, fs: seq<Fresh>): (rows: seq<Row<ExerciseSet>>)
    requires |fs| == |lines|
    ensures |rows| == |lines|
  {
    seq(|lines|, i requires 0 <= i < |lines| => SetRecord(lines[i], parent, fs[i]))
  }

  /** The set records carry the handed-out ids, in order. */
  lemma SetRecordsIds(lines: seq<SetInput>, parent: Row<Session>, fs: seq<Fresh>)
    requires |fs| == |lines|
    ensures var rows := SetRecords(lines, parent, fs);
      (forall i | 0 <= i < |rows| :: rows[i].meta.id == fs[i].id) &&
      (set i | 0 <= i < |rows| :: rows[i].meta.id) == (set i | 0 <= i < |fs| :: fs[i].id) &&
      (DistinctIds(rows) <==> forall i, j | 0 <= i < j < |fs| :: fs[i].id != fs[j].id)
  {
    var rows := SetRecords(lines, parent, fs);
    assert forall i | 0 <= i < |rows| :: rows[i].meta.id == fs[i].id;
  }

  /** The ids handed out for new records are pairwise distinct and none is stored yet. */
  ghost predicate FreshIn<T>(fs: seq<Fresh>, t: Table<T>) {
    (forall i, j | 0 <= i < j < |fs| :: fs[i].id != fs[j].id) &&
    (forall i | 0 <= i < |fs| :: fs[i].id !in t)
  }

  /**
   * `saveSessionWithSets`: the session and all of its sets are added in one
   * transaction. Either every record is stored or, when an id is already
   * taken, the transaction aborts and nothing changes.
   */
  function SaveSessionWithSets(db: Db, input: SaveSessionInput, sessionFresh: Fresh, setFresh: seq<Fresh>): (r: Step<Result<Id>>)
    requires |setFresh| == |input.sets|
    ensures r.result.Ok? <==> sessionFresh.id !in db.sessions && FreshIn(setFresh, db.exerciseSets)
    ensures r.result.Err? ==> r.db == db
    ensures r.result.Ok? ==> r.result.value == sessionFresh.id
    ensures r.result.Ok? ==>
      r.db.sessions == db.sessions[sessionFresh.id := Row(CreateSyncMeta(sessionFresh), input.session)]
    ensures r.result.Ok? ==>
      r.db.exerciseSets.Keys == db.exerciseSets.Keys + (set i | 0 <= i < |setFresh| :: setFresh[i].id) &&
      (forall k | k in db.exerciseSets :: r.db.exerciseSets[k] == db.exerciseSets[k])
    ensures r.result.Ok? ==> forall i | 0 <= i < |input.sets| ::
      var s := r.db.exerciseSets[setFresh[i].id];
      var line := input.sets[i];
      s.meta == CreateSyncMeta(setFresh[i]) &&
      s.body.sessionId == sessionFresh.id &&
      s.body.date == input.session.date &&
      s.body.splitType == input.session.splitType &&
      s.body.workoutType == input.session.workoutType &&
      s.body.exerciseName == line.exerciseName &&
      s.body.exerciseOrder == line.exerciseOrder && s.body.setOrder == line.setOrder &&
      s.body.weightKg == line.weightKg && s.body.reps == line.reps &&
      s.body.rpe == line.rpe && s.body.rir == line.rir && s.body.technique == line.technique
    ensures r.db.readinessLogs == db.readinessLogs && r.db.weightLogs == db.weightLogs &&
      r.db.appSettings == db.appSettings && r.db.recommendations == db.recommendations
  {
    var session := Row(CreateSyncMeta(sessionFresh), input.session);
    var setRecords := SetRecords(input.sets, session, setFresh);
    SetRecordsIds(input.sets, session, setFresh);
    match Add(db.sessions, session)
    case None => Step(Err(ConstraintError), db)
    case Some(sessions') =>
      var added := if |setRecords| > 0 then BulkAdd(db.exerciseSets, setRecords) else Some(db.exerciseSets);
      match added
      case None => Step(Err(ConstraintError), db)
      case Some(sets') => Step(Ok(session.meta.id), db.(sessions := sessions', exerciseSets := sets'))
  }

  /* ---------------------------------------------------------------- */
  /* softDeleteSession                                                  */
  /* ---------------------------------------------------------------- */

  /** `{...touchVersion(record), deletedAt}`: the record turned into a tombstone at `now`. */
  function Tombstone<T>(r: Row<T>, now: Timestamp): (t: Row<T>)
    ensures t.meta.deletedAt == Some(now) && !Live(t)
    ensures t.meta.version == r.meta.version + 1 && t.meta.updatedAt == now
    ensures t.meta.id == r.meta.id && t.meta.createdAt == r.meta.createdAt && t.body == r.body
  {
    var touched := TouchVersion(r, now);
    touched.(meta := touched.meta.(deletedAt := Some(now)))
  }

  /** A set record after its session `sid` was deleted at `now`. */
  function Cascade(s: Row<ExerciseSet>, sid: Id, now: Timestamp): Row<ExerciseSet> {
    if Live(s) && s.body.sessionId == sid then Tombstone(s, now) else s
  }

  /**
   * `softDeleteSession`: a live session becomes a tombstone and so does each
   * of its live sets, all with the same deletion instant; a missing or
   * already deleted session leaves everything as it is.
   */
  function SoftDeleteSession(db: Db, sid: Id, now: Timestamp): (r: Db)
    ensures sid !in db.sessions || !Live(db.sessions[sid]) ==> r == db
    ensures r.sessions.Keys == db.sessions.Keys && r.exerciseSets.Keys == db.exerciseSets.Keys
    ensures sid in db.sessions && Live(db.sessions[sid]) ==>
      r.sessions == db.sessions[sid := Tombstone(db.sessions[sid], now)] &&
      forall k | k in db.exerciseSets ::
        var s := db.exerciseSets[k];
        if Live(s) && s.body.sessionId == sid then
          r.exerciseSets[k] == Tombstone(s, now)
        else
          r.exerciseSets[k] == s
    ensures r.readinessLogs == db.readinessLogs && r.weightLogs == db.weightLogs &&
      r.appSettings == db.appSettings && r.recommendations == db.recommendations
  {
    if sid !in db.sessions || !Live(db.sessions[sid]) then db
    else
      db.(sessions := db.sessions[sid := Tombstone(db.sessions[sid], now)],
          exerciseSets := CascadeAll(db.exerciseSets, sid, now))
  }

  function CascadeAll(sets: Table<ExerciseSet>, sid: Id, now: Timestamp): Table<ExerciseSet> {
    map k | k in sets :: Cascade(sets[k], sid, now)
  }

  /**
   * Tombstoning a live session together with its live sets keeps the
   * training tables consistent and leaves no live set of that session.
   */
  lemma CascadeKeepsTrainingValid(sessions: Table<Session>, sets: Table<ExerciseSet>, sid: Id, now: Timestamp)
    requires TrainingValid(sessions, sets) && sid in sessions && Live(sessions[sid])
    ensures var sessions', sets' := sessions[sid := Tombstone(sessions[sid], now)], CascadeAll(sets, sid, now);
      TrainingValid(sessions', sets') && Grows(sessions, sessions') && Grows(sets, sets') &&
      forall k | k in sets' && Live(sets'[k]) :: sets'[k].body.sessionId != sid
  {
    var sessions', sets' := sessions[sid := Tombstone(sessions[sid], now)], CascadeAll(sets, sid, now);
    assert TableValid(sessions');
    assert TableValid(sets') by {
      forall k | k in sets' ensures sets'[k].meta.id == k && sets'[k].meta.version >= 1 {
        assert sets[k].meta.id == k;
      }
    }
    assert SetsFollowSessions(sessions', sets') by {
      forall k | k in sets'
        ensures var s := sets'[k].body;
          s.sessionId in sessions' &&
          s.date == sessions'[s.sessionId].body.date &&
          s.splitType == sessions'[s.sessionId].body.splitType &&
          s.workoutType == sessions'[s.sessionId].body.workoutType &&
          (Live(sets'[k]) ==> Live(sessions'[s.sessionId]))
      {
        assert sets'[k].body == sets[k].body;
        assert sets[k].body.sessionId in sessions;
      }
    }
  }

  /* ---------------------------------------------------------------- */
  /* saveReadinessLog and saveWeightLog                                 */
  /* ---------------------------------------------------------------- */

  datatype Upsert<T> = Upsert(result: Result<Id>, table: Table<T>)

  ghost predicate LiveOnDate<T>(t: Table<T>, dateOf: T -> IsoDate, d: IsoDate, k: Id) {
    k in t && Live(t[k]) && dateOf(t[k].body) == d
  }

  /** The stored record for the input's date, rewritten with the input's values at `now`. */
  function Overwrite<T>(cur: Row<T>, input: T, now: Timestamp): Row<T> {
    TouchVersion(cur, now).(body := input)
  }

  /**
   * The save-by-date shared by `saveReadinessLog` and `saveWeightLog`: the
   * live record for the input's date is rewritten in place (same id, one
   * version more); when there is none a new record is added.
   */
  ghost function UpsertByDate<T>(t: Table<T>, dateOf: T -> IsoDate, input: T, f: Fresh, now: Timestamp): (r: Upsert<T>)
    requires WellKeyed(t)
    ensures (exists k :: LiveOnDate(t, dateOf, dateOf(input), k)) ==>
      r.result.Ok? && LiveOnDate(t, dateOf, dateOf(input), r.result.value) &&
      r.table == t[r.result.value := Overwrite(t[r.result.value], input, now)]
    ensures (forall k :: !LiveOnDate(t, dateOf, dateOf(input), k)) ==>
      (r.result.Ok? <==> f.id !in t) &&
      (r.result.Ok? ==> r.result.value == f.id && r.table == t[f.id := Row(CreateSyncMeta(f), input)]) &&
      (r.result.Err? ==> r.table == t)
  {
    if exists k :: LiveOnDate(t, dateOf, dateOf(input), k) then
      var k :| LiveOnDate(t, dateOf, dateOf(input), k);
      var cur := t[k];
      Upsert(Ok(cur.meta.id), t[cur.meta.id := Overwrite(cur, input, now)])
    else
      var record := Row(CreateSyncMeta(f), input);
      match Add(t, record)
      case None => Upsert(Err(ConstraintError), t)
      case Some(t') => Upsert(Ok(record.meta.id), t')
  }

  /**
   * Storing the live `row` under `id`, when no other live record has its
   * date, keeps one live record per date and leaves `row` the only one.
   */
  lemma PutRowKeepsDatedValid<T>(t: Table<T>, dateOf: T -> IsoDate, id: Id, row: Row<T>, u: Table<T>)
    requires WellKeyed(t) && VersionsPositive(t) && OneLivePerKey(t, dateOf) && u == t[id := row]
    requires row.meta.id == id && row.meta.version >= 1 && Live(row)
    requires forall x | x in t && x != id :: !LiveOnDate(t, dateOf, dateOf(row.body), x)
    requires id in t ==> row.meta.createdAt == t[id].meta.createdAt && row.meta.version >= t[id].meta.version
    ensures WellKeyed(u) && VersionsPositive(u) && OneLivePerKey(u, dateOf) && Grows(t, u)
    ensures forall k | LiveOnDate(u, dateOf, dateOf(row.body), k) :: k == id
  {
    forall a, b | a in u && b in u && Live(u[a]) && Live(u[b]) && dateOf(u[a].body) == dateOf(u[b].body)
      ensures a == b
    {
      if a != id && b != id {
        assert dateOf(t[a].body) == dateOf(t[b].body);
      }
    }
  }

  /**
   * A successful save leaves exactly one live record for the input's date,
   * holding the input's values; the table stays well keyed and only grows.
   */
  lemma UpsertKeepsOneLivePerDate<T>(t: Table<T>, dateOf: T -> IsoDate, input: T, f: Fresh, now: Timestamp)
    requires WellKeyed(t) && VersionsPositive(t) && OneLivePerKey(t, dateOf)
    ensures var r := UpsertByDate(t, dateOf, input, f, now);
      WellKeyed(r.table) && VersionsPositive(r.table) && OneLivePerKey(r.table, dateOf) && Grows(t, r.table) &&
      (r.result.Ok? ==>
        LiveOnDate(r.table, dateOf, dateOf(input), r.result.value) &&
        r.table[r.result.value].body == input &&
        forall k | LiveOnDate(r.table, dateOf, dateOf(input), k) :: k == r.result.value)
  {
    var r := UpsertByDate(t, dateOf, input, f, now);
    var d := dateOf(input);
    if r.result.Ok? {
      var id := r.result.value;
      if exists k :: LiveOnDate(t, dateOf, d, k) {
        var k :| LiveOnDate(t, dateOf, d, k);
        assert k == id;
      }
      PutRowKeepsDatedValid(t, dateOf, id, r.table[id], r.table);
    }
  }

  /**
   * Saving twice for one date: the second save rewrites the record the
   * first one produced, under the same id, and bumps its version once more;
   * when the date had no record before, that version is 2.
   */
  lemma {:induction false} UpsertTwiceSameDate<T>(t: Table<T>, dateOf: T -> IsoDate, a: T, b: T,
                                                  f1: Fresh, f2: Fresh, n1: Timestamp, n2: Timestamp)
    requires WellKeyed(t) && VersionsPositive(t) && OneLivePerKey(t, dateOf)
    requires dateOf(a) == dateOf(b)
    requires UpsertByDate(t, dateOf, a, f1, n1).result.Ok?
    ensures var r1 := UpsertByDate(t, dateOf, a, f1, n1);
      var r2 := UpsertByDate(r1.table, dateOf, b, f2, n2);
      var id := r1.result.value;
      r2.result == r1.result &&
      r2.table.Keys == r1.table.Keys &&
      r2.table[id].body == b &&
      r2.table[id].meta.version == r1.table[id].meta.version + 1 &&
      ((forall k :: !LiveOnDate(t, dateOf, dateOf(a), k)) ==> r2.table[id].meta.version == 2)
  {
    var r1 := UpsertByDate(t, dateOf, a, f1, n1);
    UpsertKeepsOneLivePerDate(t, dateOf, a, f1, n1);
    var id := r1.result.value;
    assert LiveOnDate(r1.table, dateOf, dateOf(b), id);
  }

  ghost function SaveReadinessLog(db: Db, input: Readiness, f: Fresh, now: Timestamp): (r: Step<Result<Id>>)
    requires WellKeyed(db.readinessLogs)
  {
    var u := UpsertByDate(db.readinessLogs, ReadinessDate, input, f, now);
    Step(u.result, db.(readinessLogs := u.table))
  }

  ghost function SaveWeightLog(db: Db, input: Weight, f: Fresh, now: Timestamp): (r: Step<Result<Id>>)
    requires WellKeyed(db.weightLogs)
  {
    var u := UpsertByDate(db.weightLogs, WeightDate, input, f, now);
    Step(u.result, db.(weightLogs := u.table))
  }

  /* ---------------------------------------------------------------- */
  /* setSetting                                                         */
  /* ---------------------------------------------------------------- */

  ghost predicate HasKey(t: Table<Setting>, key: string, k: Id) {
    k in t && t[k].body.key == key
  }

  /**
   * `setSetting` on the settings table: the record for `key`, live or
   * tombstoned, gets the new value and is made live again under its old id,
   * creation instant and one version more; only a key without a record gets
   * a new one, which fails when the new id is taken.
   */
  ghost function PutSetting(t: Table<Setting>, key: string, value: string, f: Fresh, now: Timestamp): (r: Upsert<Setting>)
    requires WellKeyed(t)
    ensures r.result.Err? ==> r.table == t
    ensures r.result.Ok? ==>
      var id := r.result.value;
      id in r.table && Live(r.table[id]) && r.table[id].body == Setting(key, value) &&
      r.table.Keys == t.Keys + {id} &&
      forall k | k in t && k != id :: r.table[k] == t[k]
    ensures (exists k :: HasKey(t, key, k)) ==>
      r.result.Ok? && HasKey(t, key, r.result.value) &&
      r.table[r.result.value].meta.id == t[r.result.value].meta.id &&
      r.table[r.result.value].meta.createdAt == t[r.result.value].meta.createdAt &&
      r.table[r.result.value].meta.version == t[r.result.value].meta.version + 1 &&
      r.table[r.result.value].meta.updatedAt == now
    ensures (forall k :: !HasKey(t, key, k)) ==>
      (r.result.Ok? <==> f.id !in t) &&
      (r.result.Ok? ==> r.result.value == f.id && r.table[f.id].meta == CreateSyncMeta(f))
  {
    if exists k :: HasKey(t, key, k) then
      var k :| HasKey(t, key, k);
      var cur := t[k];
      assert cur.meta.id == k;
      var touched := TouchVersion(cur, now);
      Upsert(Ok(cur.meta.id), t[cur.meta.id := Row(touched.meta.(deletedAt := None), cur.body.(value := value))])
    else
      var setting := Row(CreateSyncMeta(f), Setting(key, value));
      match Add(t, setting)
      case None => Upsert(Err(ConstraintError), t)
      case Some(t') => Upsert(Ok(setting.meta.id), t')
  }

  /** Storing `row` under `id`, when no other record has its key, keeps one record per key. */
  lemma PutRowKeepsSettingsValid(t: Table<Setting>, id: Id, row: Row<Setting>, u: Table<Setting>)
    requires SettingsValid(t) && u == t[id := row]
    requires row.meta.id == id && row.meta.version >= 1
    requires forall x | x in t && x != id :: !HasKey(t, row.body.key, x)
    requires id in t ==> row.meta.createdAt == t[id].meta.createdAt && row.meta.version >= t[id].meta.version
    ensures SettingsValid(u) && Grows(t, u)
    ensures forall k | HasKey(u, row.body.key, k) :: k == id
  {
    forall a, b | a in u && b in u && u[a].body.key == u[b].body.key
      ensures a == b
    {
      if a != id && b != id {
        assert t[a].body.key == t[b].body.key;
      }
    }
  }

  /**
   * After `setSetting(key, value)` succeeds, the one record for `key` is the
   * returned one, it is live and holds `value`, so `getSetting(key)` finds
   * it; the table keeps one record per key.
   */
  lemma PutSettingKeepsOneRowPerKey(t: Table<Setting>, key: string, value: string, f: Fresh, now: Timestamp)
    requires SettingsValid(t)
    ensures var r := PutSetting(t, key, value, f, now);
      SettingsValid(r.table) && Grows(t, r.table) &&
      (r.result.Ok? ==> forall k | HasKey(r.table, key, k) ::
        k == r.result.value && Live(r.table[k]) && r.table[k].body.value == value)
  {
    var r := PutSetting(t, key, value, f, now);
    if r.result.Ok? {
      var id := r.result.value;
      if exists k :: HasKey(t, key, k) {
        var k :| HasKey(t, key, k);
        assert k == id;
        PutRowKeepsSettingsValid(t, id, r.table[id], r.table);
      } else {
        PutRowKeepsSettingsValid(t, id, r.table[id], r.table);
      }
    }
  }

  ghost function SetSetting(db: Db, key: string, value: string, f: Fresh, now: Timestamp): (r: Step<Result<Id>>)
    requires WellKeyed(db.appSettings)
  {
    var u := PutSetting(db.appSettings, key, value, f, now);
    Step(u.result, db.(appSettings := u.table))
  }
  /* ---------------------------------------------------------------- */
  /* Recommendations                                                    */
  /* ---------------------------------------------------------------- */

  datatype RecommendationInput = RecommendationInput(
    date: IsoDate,
    splitType: Option<SplitType>,
    workoutType: Option<WorkoutType>,
    kind: string,
    status: Option<RecommendationStatus>,
    message: string,
    reason: string)

  function NewRecommendation(input: RecommendationInput, f: Fresh): Row<Recommendation> {
    Row(CreateSyncMeta(f), Recommendation(
      input.date, input.splitType, input.workoutType, input.kind,
      input.status.GetOr(Pending), input.message, input.reason))
  }

  /** `addRecommendation`: a new live record whose status defaults to pending. */
  function AddRecommendation(db: Db, input: RecommendationInput, f: Fresh): (r: Step<Result<Id>>)
    ensures r.result.Ok? <==> f.id !in db.recommendations
    ensures r.result.Err? ==> r.db == db
    ensures r.result.Ok? ==>
      r.result.value == f.id &&
      r.db.recommendations.Keys == db.recommendations.Keys + {f.id} &&
      (forall k | k in db.recommendations :: r.db.recommendations[k] == db.recommendations[k]) &&
      var rec := r.db.recommendations[f.id];
      Live(rec) && rec.meta.version == 1 && rec.meta.id == f.id &&
      rec.body.status == (if input.status.Some? then input.status.value else Pending) &&
      rec.body.date == input.date && rec.body.kind == input.kind &&
      rec.body.splitType == input.splitType && rec.body.workoutType == input.workoutType &&
      rec.body.message == input.message && rec.body.reason == input.reason
    ensures r.db.sessions == db.sessions && r.db.exerciseSets == db.exerciseSets &&
      r.db.readinessLogs == db.readinessLogs && r.db.weightLogs == db.weightLogs &&
      r.db.appSettings == db.appSettings
  {
    var rec := NewRecommendation(input, f);
    match Add(db.recommendations, rec)
    case None => Step(Err(ConstraintError), db)
    case Some(t') => Step(Ok(rec.meta.id), db.(recommendations := t'))
  }

  /** A live, pending recommendation of the same date, kind, workout and split as `input`. */
  predicate PendingTwin(r: Row<Recommendation>, input: RecommendationInput) {
    Live(r) && r.body.status == Pending && r.body.kind == input.kind &&
    r.body.workoutType == input.workoutType && r.body.splitType == input.splitType &&
    r.body.date == input.date
  }

  /** `addRecommendationIfMissing`: adds only when no pending twin is stored. */
  ghost function AddRecommendationIfMissing(db: Db, input: RecommendationInput, f: Fresh): (r: Step<Result<Option<Id>>>)
    ensures (exists k :: k in db.recommendations && PendingTwin(db.recommendations[k], input)) ==>
      r == Step(Ok(None), db)
    ensures (forall k | k in db.recommendations :: !PendingTwin(db.recommendations[k], input)) ==>
      var a := AddRecommendation(db, input, f);
      r.db == a.db && (r.result.Ok? <==> a.result.Ok?) && (r.result.Ok? ==> r.result.value == Some(a.result.value))
  {
    if exists k :: k in db.recommendations && PendingTwin(db.recommendations[k], input) then
      Step(Ok(None), db)
    else
      var a := AddRecommendation(db, input, f);
      match a.result
      case Ok(id) => Step(Ok(Some(id)), a.db)
      case Err(e) => Step(Err(e), a.db)
  }

  /**
   * `updateRecommendationStatus`: a live recommendation takes the new status
   * and one more version; a missing or deleted one is left alone.
   */
  function UpdateRecommendationStatus(db: Db, id: Id, status: RecommendationStatus, now: Timestamp): (r: Db)
    ensures id !in db.recommendations || !Live(db.recommendations[id]) ==> r == db
    ensures id in db.recommendations && Live(db.recommendations[id]) ==>
      var old_ := db.recommendations[id];
      r.recommendations.Keys == db.recommendations.Keys &&
      (forall k | k in db.recommendations && k != id :: r.recommendations[k] == db.recommendations[k]) &&
      r.recommendations[id].body == old_.body.(status := status) &&
      Live(r.recommendations[id]) &&
      r.recommendations[id].meta.version == old_.meta.version + 1 &&
      r.recommendations[id].meta.updatedAt == now
    ensures r.sessions == db.sessions && r.exerciseSets == db.exerciseSets &&
      r.readinessLogs == db.readinessLogs && r.weightLogs == db.weightLogs &&
      r.appSettings == db.appSettings
  {
    if id !in db.recommendations || !Live(db.recommendations[id]) then db
    else
      var cur := db.recommendations[id];
      db.(recommendations := db.recommendations[id := TouchVersion(cur, now).(body := cur.body.(status := status))])
  }

  /* ---------------------------------------------------------------- */
  /* Every mutation keeps the invariant                                 */
  /* ---------------------------------------------------------------- */

  /**
   * Adding a live session together with new sets that copy its id, date,
   * split and workout type keeps the training tables consistent.
   */
  lemma AddSessionWithSetsValid(sessions: Table<Session>, sets: Table<ExerciseSet>,
                                session: Row<Session>, sets': Table<ExerciseSet>)
    requires TrainingValid(sessions, sets)
    requires session.meta.id !in sessions && session.meta.version >= 1 && Live(session)
    requires sets.Keys <= sets'.Keys && forall k | k in sets :: sets'[k] == sets[k]
    requires forall k | k in sets' && k !in sets ::
      sets'[k].meta.id == k && sets'[k].meta.version >= 1 &&
      sets'[k].body.sessionId == session.meta.id && sets'[k].body.date == session.body.date &&
      sets'[k].body.splitType == session.body.splitType && sets'[k].body.workoutType == session.body.workoutType
    ensures var sessions' := sessions[session.meta.id := session];
      TrainingValid(sessions', sets') && Grows(sessions, sessions') && Grows(sets, sets')
  {
    var sessions' := sessions[session.meta.id := session];
    forall k | k in sets'
      ensures var s := sets'[k].body;
        s.sessionId in sessions' &&
        s.date == sessions'[s.sessionId].body.date &&
        s.splitType == sessions'[s.sessionId].body.splitType &&
        s.workoutType == sessions'[s.sessionId].body.workoutType &&
        (Live(sets'[k]) ==> Live(sessions'[s.sessionId]))
    {
      if k in sets {
        assert sets[k].body.sessionId in sessions;
      }
    }
  }

  /** Saving a session keeps every set attached to a stored, live session with the same date and types. */
  lemma SaveSessionKeepsValid(db: Db, input: SaveSessionInput, sessionFresh: Fresh, setFresh: seq<Fresh>)
    requires Valid(db) && |setFresh| == |input.sets|
    ensures Valid(SaveSessionWithSets(db, input, sessionFresh, setFresh).db)
    ensures Evolves(db, SaveSessionWithSets(db, input, sessionFresh, setFresh).db)
  {
    var r := SaveSessionWithSets(db, input, sessionFresh, setFresh);
    if r.result.Ok? {
      var session := Row(CreateSyncMeta(sessionFresh), input.session);
      var sets' := r.db.exerciseSets;
      forall k | k in sets' && k !in db.exerciseSets
        ensures sets'[k].meta.id == k && sets'[k].meta.version >= 1 &&
          sets'[k].body.sessionId == session.meta.id && sets'[k].body.date == session.body.date &&
          sets'[k].body.splitType == session.body.splitType && sets'[k].body.workoutType == session.body.workoutType
      {
        var i :| 0 <= i < |setFresh| && setFresh[i].id == k;
      }
      AddSessionWithSetsValid(db.sessions, db.exerciseSets, session, sets');
      ReplaceTraining(db, r.db.sessions, sets');
    }
  }

  /**
   * After `softDeleteSession` the session is hidden and none of its sets is
   * live; the invariant holds and nothing was removed.
   */
  lemma SoftDeleteKeepsValid(db: Db, sid: Id, now: Timestamp)
    requires Valid(db)
    ensures var r := SoftDeleteSession(db, sid, now);
      Valid(r) && Evolves(db, r) &&
      (sid in r.sessions ==> !Live(r.sessions[sid])) &&
      forall k | k in r.exerciseSets :: Live(r.exerciseSets[k]) ==> r.exerciseSets[k].body.sessionId != sid
  {
    var r := SoftDeleteSession(db, sid, now);
    if sid in db.sessions && Live(db.sessions[sid]) {
      CascadeKeepsTrainingValid(db.sessions, db.exerciseSets, sid, now);
      ReplaceTraining(db, r.sessions, r.exerciseSets);
    } else {
      forall k | k in r.exerciseSets && Live(r.exerciseSets[k])
        ensures r.exerciseSets[k].body.sessionId != sid
      {
        assert db.exerciseSets[k].body.sessionId in db.sessions;
      }
    }
  }

  /** Deleting a session a second time changes nothing, whatever the clock says. */
  lemma SoftDeleteIdempotent(db: Db, sid: Id, first: Timestamp, second: Timestamp)
    ensures SoftDeleteSession(SoftDeleteSession(db, sid, first), sid, second) == SoftDeleteSession(db, sid, first)
  {
  }

  lemma SaveReadinessKeepsValid(db: Db, input: Readiness, f: Fresh, now: Timestamp)
    requires Valid(db)
    ensures var r := SaveReadinessLog(db, input, f, now);
      Valid(r.db) && Evolves(db, r.db) &&
      (r.result.Ok? ==> forall k | LiveOnDate(r.db.readinessLogs, ReadinessDate, input.date, k) ::
        k == r.result.value && r.db.readinessLogs[k].body == input)
  {
    UpsertKeepsOneLivePerDate(db.readinessLogs, ReadinessDate, input, f, now);
  }

  lemma SaveWeightKeepsValid(db: Db, input: Weight, f: Fresh, now: Timestamp)
    requires Valid(db)
    ensures var r := SaveWeightLog(db, input, f, now);
      Valid(r.db) && Evolves(db, r.db) &&
      (r.result.Ok? ==> forall k | LiveOnDate(r.db.weightLogs, WeightDate, input.date, k) ::
        k == r.result.value && r.db.weightLogs[k].body == input)
  {
    UpsertKeepsOneLivePerDate(db.weightLogs, WeightDate, input, f, now);
  }

  lemma SetSettingKeepsValid(db: Db, key: string, value: string, f: Fresh, now: Timestamp)
    requires Valid(db)
    ensures Valid(SetSetting(db, key, value, f, now).db) && Evolves(db, SetSetting(db, key, value, f, now).db)
  {
    PutSettingKeepsOneRowPerKey(db.appSettings, key, value, f, now);
    ReplaceSettings(db, SetSetting(db, key, value, f, now).db.appSettings);
  }

  lemma AddRecommendationKeepsValid(db: Db, input: RecommendationInput, f: Fresh)
    requires Valid(db)
    ensures Valid(AddRecommendation(db, input, f).db) && Evolves(db, AddRecommendation(db, input, f).db)
  {
    var r := AddRecommendation(db, input, f);
    if r.result.Ok? {
      ReplaceRecommendations(db, r.db.recommendations);
    }
  }

  lemma AddRecommendationIfMissingKeepsValid(db: Db, input: RecommendationInput, f: Fresh)
    requires Valid(db)
    ensures Valid(AddRecommendationIfMissing(db, input, f).db) && Evolves(db, AddRecommendationIfMissing(db, input, f).db)
  {
    AddRecommendationKeepsValid(db, input, f);
  }

  lemma UpdateRecommendationStatusKeepsValid(db: Db, id: Id, status: RecommendationStatus, now: Timestamp)
    requires Valid(db)
    ensures Valid(UpdateRecommendationStatus(db, id, status, now)) && Evolves(db, UpdateRecommendationStatus(db, id, status, now))
  {
    var r := UpdateRecommendationStatus(db, id, status, now);
    ReplaceRecommendations(db, r.recommendations);
  }

  /**
   * A recommendation added with the default (pending) status is not added
   * again: the second `addRecommendationIfMissing` finds it and returns null.
   */
  lemma AddIfMissingTwice(db: Db, input: RecommendationInput, f1: Fresh, f2: Fresh)
    requires input.status.None? || input.status == Some(Pending)
    requires AddRecommendationIfMissing(db, input, f1).result.Ok?
    ensures var r1 := AddRecommendationIfMissing(db, input, f1);
      AddRecommendationIfMissing(r1.db, input, f2) == Step(Ok(None), r1.db)
  {
    var r1 := AddRecommendationIfMissing(db, input, f1);
    if r1.result.value.Some? {
      assert PendingTwin(r1.db.recommendations[f1.id], input);
    } else {
      var k :| k in db.recommendations && PendingTwin(db.recommendations[k], input);
      assert k in r1.db.recommendations;
    }
  }

  /**
   * The duplicate check looks only for pending twins: a recommendation
   * created with another status does not stop the same one being added again.
   */
  lemma AddIfMissingIgnoresSettledTwin(db: Db, input: RecommendationInput, f1: Fresh, f2: Fresh)
    requires input.status == Some(Accepted) || input.status == Some(Dismissed)
    requires forall k | k in db.recommendations :: !PendingTwin(db.recommendations[k], input)
    requires f1.id !in db.recommendations && f2.id !in db.recommendations && f1.id != f2.id
    ensures var r1 := AddRecommendationIfMissing(db, input, f1);
      var r2 := AddRecommendationIfMissing(r1.db, input, f2);
      r1.result == Ok(Some(f1.id)) && r2.result == Ok(Some(f2.id)) &&
      r2.db.recommendations[f1.id].body == r2.db.recommendations[f2.id].body
  {
    var r1 := AddRecommendationIfMissing(db, input, f1);
    assert forall k | k in r1.db.recommendations :: !PendingTwin(r1.db.recommendations[k], input) by {
      forall k | k in r1.db.recommendations ensures !PendingTwin(r1.db.recommendations[k], input) {
        if k != f1.id {
          assert k in db.recommendations;
        }
      }
    }
  }
}
