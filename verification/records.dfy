/**
 * The records of the training log (src/lib/training-db.ts) and the sync
 * envelope every one of them carries.
 */
module Records {
  import opened Wrappers
  import opened IsoText
  import opened Sorting

  type Id = string
  /** An ISO 8601 instant, as produced by the clock. */
  type Timestamp = string
  /** An ISO 8601 calendar date (YYYY-MM-DD). */
  type IsoDate = string
  type SplitType = string
  type WorkoutType = string

  /**
   * The sync envelope: `deletedAt` is `None` while the record is live and
   * holds the deletion instant once it is a tombstone.
   */
  datatype SyncMeta = SyncMeta(
    id: Id,
    createdAt: Timestamp,
    updatedAt: Timestamp,
    deletedAt: Option<Timestamp>,
    version: int)

  /** A stored record: the envelope spread together with the entity's own fields. */
  datatype Row<T> = Row(meta: SyncMeta, body: T)

  predicate Live<T>(r: Row<T>) {
    r.meta.deletedAt.None?
  }

  /** One value of `createId()` and one reading of the clock. */
  datatype Fresh = Fresh(id: Id, at: Timestamp)

  datatype Session = Session(
    date: IsoDate,
    splitType: SplitType,
    workoutType: WorkoutType,
    workoutLabel: string,
    durationMin: int,
    notes: string)

  datatype ExerciseSet = ExerciseSet(
    sessionId: Id,
    date: IsoDate,
    splitType: SplitType,
    workoutType: WorkoutType,
    exerciseName: string,
    exerciseOrder: int,
    setOrder: int,
    weightKg: real,
    reps: int,
    rpe: Option<real>,
    rir: Option<int>,
    technique: Option<string>)

  datatype Readiness = Readiness(
    date: IsoDate,
    sleepHours: real,
    sleepQuality: int,
    stress: int,
    pain: int,
    readinessScore: int,
    notes: string)

  datatype Weight = Weight(date: IsoDate, weightKg: real, notes: string)

  datatype Setting = Setting(key: string, value: string)

  datatype RecommendationStatus = Pending | Accepted | Dismissed

  datatype Recommendation = Recommendation(
    date: IsoDate,
    splitType: Option<SplitType>,
    workoutType: Option<WorkoutType>,
    kind: string,
    status: RecommendationStatus,
    message: string,
    reason: string)

  /** `createSyncMeta`: the envelope of a record that is being created. */
  function CreateSyncMeta(f: Fresh): (m: SyncMeta)
    ensures m.id == f.id
    ensures m.version == 1 && m.deletedAt == None
    ensures m.createdAt == m.updatedAt == f.at
  {
    SyncMeta(f.id, f.at, f.at, None, 1)
  }

  /** `touchVersion`: a record that is being changed at instant `now`. */
  function TouchVersion<T>(r: Row<T>, now: Timestamp): (t: Row<T>)
    ensures t.meta.version == r.meta.version + 1
    ensures t.meta.updatedAt == now
    ensures t.meta.id == r.meta.id && t.meta.createdAt == r.meta.createdAt
    ensures t.meta.deletedAt == r.meta.deletedAt && t.body == r.body
  {
    r.(meta := r.meta.(updatedAt := now, version := r.meta.version + 1))
  }

  /** The record after one `touchVersion` per instant in `stamps`, in order. */
  function TouchAll<T>(r: Row<T>, stamps: seq<Timestamp>): Row<T>
    decreases |stamps|
  {
    if stamps == [] then r else TouchAll(TouchVersion(r, stamps[0]), stamps[1..])
  }

  /**
   * A record created once and then changed n times has version n + 1, keeps
   * its id, creation instant and fields, and was last updated at the last
   * instant.
   */
  lemma {:induction false} VersionCountsMutations<T>(r: Row<T>, stamps: seq<Timestamp>)
    ensures TouchAll(r, stamps).meta.version == r.meta.version + |stamps|
    ensures TouchAll(r, stamps).meta.id == r.meta.id
    ensures TouchAll(r, stamps).meta.createdAt == r.meta.createdAt
    ensures TouchAll(r, stamps).body == r.body
    ensures TouchAll(r, stamps).meta.updatedAt == if stamps == [] then r.meta.updatedAt else stamps[|stamps| - 1]
    decreases |stamps|
  {
    if stamps != [] {
      VersionCountsMutations(TouchVersion(r, stamps[0]), stamps[1..]);
    }
  }

  /** `sortSessionsDescending`: newest date first, then most recently updated first. */
  function CompareSessionsDescending(a: Row<Session>, b: Row<Session>): int {
    if a.body.date != b.body.date then
      (if Less(a.body.date, b.body.date) then 1 else -1)
    else
      Compare(b.meta.updatedAt, a.meta.updatedAt)
  }

  /** `sortSets`: by exercise order, then by set order, both ascending. */
  function CompareSets(a: Row<ExerciseSet>, b: Row<ExerciseSet>): int {
    if a.body.exerciseOrder != b.body.exerciseOrder then
      a.body.exerciseOrder - b.body.exerciseOrder
    else
      a.body.setOrder - b.body.setOrder
  }

  function CompareReadinessAscending(a: Row<Readiness>, b: Row<Readiness>): int {
    Compare(a.body.date, b.body.date)
  }

  function CompareReadinessDescending(a: Row<Readiness>, b: Row<Readiness>): int {
    Compare(b.body.date, a.body.date)
  }

  function CompareWeightAscending(a: Row<Weight>, b: Row<Weight>): int {
    Compare(a.body.date, b.body.date)
  }

  function CompareRecommendationsDescending(a: Row<Recommendation>, b: Row<Recommendation>): int {
    Compare(b.body.date, a.body.date)
  }

  /** `sortSessionsDescending` is a consistent comparator, so the sort it drives is well defined. */
  lemma SessionOrderConsistent()
    ensures TotalPreorder(CompareSessionsDescending)
  {
    forall a: Row<Session>, b: Row<Session>
      ensures CompareSessionsDescending(a, b) <= 0 || CompareSessionsDescending(b, a) <= 0
    {
      LessTrichotomy(a.body.date, b.body.date);
      CompareTotal(b.meta.updatedAt, a.meta.updatedAt);
    }
    forall a: Row<Session>, b: Row<Session>, c: Row<Session> |
      CompareSessionsDescending(a, b) <= 0 && CompareSessionsDescending(b, c) <= 0
      ensures CompareSessionsDescending(a, c) <= 0
    {
      var x, y, z := a.body.date, b.body.date, c.body.date;
      LessTrichotomy(x, y);
      LessTrichotomy(y, z);
      if x != y && y != z {
        LessTransitive(z, y, x);
      }
      if x == z && x != y {
        LessTrichotomy(x, y);
      }
      if x == y && y == z {
        CompareTransitive(c.meta.updatedAt, b.meta.updatedAt, a.meta.updatedAt);
      }
    }
  }

  /**
   * What the session order means: along a sorted list dates never increase,
   * and within one date `updatedAt` never increases.
   */
  lemma SessionOrderMeaning(a: Row<Session>, b: Row<Session>)
    ensures CompareSessionsDescending(a, b) <= 0 <==>
      Less(b.body.date, a.body.date) ||
      (a.body.date == b.body.date && AtMost(b.meta.updatedAt, a.meta.updatedAt))
  {
    LessTrichotomy(a.body.date, b.body.date);
  }

  lemma SetOrderConsistent()
    ensures TotalPreorder(CompareSets)
  {
  }

  /** What the set order means: exercise order first, set order within one exercise. */
  lemma SetOrderMeaning(a: Row<ExerciseSet>, b: Row<ExerciseSet>)
    ensures CompareSets(a, b) <= 0 <==>
      a.body.exerciseOrder < b.body.exerciseOrder ||
      (a.body.exerciseOrder == b.body.exerciseOrder && a.body.setOrder <= b.body.setOrder)
  {
  }

  lemma DateOrdersConsistent()
    ensures TotalPreorder(CompareReadinessAscending)
    ensures TotalPreorder(CompareReadinessDescending)
    ensures TotalPreorder(CompareWeightAscending)
    ensures TotalPreorder(CompareRecommendationsDescending)
  {
    forall x: string, y: string ensures Compare(x, y) <= 0 || Compare(y, x) <= 0 {
      CompareTotal(x, y);
    }
    forall x: string, y: string, z: string | Compare(x, y) <= 0 && Compare(y, z) <= 0
      ensures Compare(x, z) <= 0
    {
      CompareTransitive(x, y, z);
    }
  }
}
