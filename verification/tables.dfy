/**
 * The record store underneath the training log: each table maps a record's
 * id to the record. Dexie's schema, indexes and query builder are not
 * modelled; a query is a scan of one table with a filter, and the order in
 * which the scan visits rows is left open.
 */
module Tables {
  import opened Wrappers
  import opened Records
  import opened Sorting

  type Table<T> = map<Id, Row<T>>

  /** Every record is stored under its own id. */
  ghost predicate WellKeyed<T>(t: Table<T>) {
    forall k | k in t :: t[k].meta.id == k
  }

  ghost function MatchingIds<T>(t: Table<T>, keep: Row<T> -> bool): set<Id> {
    set k | k in t && keep(t[k])
  }

  /** No value occurs twice in `s`. */
  ghost predicate NoDup<T>(s: seq<T>) {
    forall i | 0 <= i < |s| :: multiset(s)[s[i]] == 1
  }

  /**
   * `rows` lists the records of `t` that satisfy `keep`: each of them once,
   * and nothing else, in some order.
   */
  ghost predicate Lists<T>(rows: seq<Row<T>>, t: Table<T>, keep: Row<T> -> bool) {
    Selects(rows, t, keep) &&
    (forall k | k in t && keep(t[k]) :: t[k] in rows)
  }

  /** Every entry of `rows` is a stored record satisfying `keep`, and none occurs twice. */
  ghost predicate Selects<T>(rows: seq<Row<T>>, t: Table<T>, keep: Row<T> -> bool) {
    (forall i | 0 <= i < |rows| :: rows[i].meta.id in t && t[rows[i].meta.id] == rows[i] && keep(rows[i])) &&
    NoDup(rows)
  }

  /** `table.filter(keep).toArray()`: the matching records, in the order the scan visits them. */
  method ScanTable<T>(t: Table<T>, keep: Row<T> -> bool) returns (rows: seq<Row<T>>)
    requires WellKeyed(t)
    ensures Lists(rows, t, keep)
    ensures |rows| == |MatchingIds(t, keep)|
  {
    rows := [];
    var todo := t.Keys;
    ghost var hits: set<Id> := {};
    while todo != {}
      invariant ScannedSoFar(t, keep, rows, todo, hits)
      decreases |todo|
    {
      var k :| k in todo;
      ScanStep(t, keep, rows, todo, hits, k);
      if keep(t[k]) {
        rows := rows + [t[k]];
        hits := hits + {k};
      }
      todo := todo - {k};
    }
    ScanDone(t, keep, rows, hits);
  }

  /**
   * With the keys `todo` still to visit, `rows` lists the visited records
   * that match, whose ids are `hits`.
   */
  ghost predicate ScannedSoFar<T>(t: Table<T>, keep: Row<T> -> bool, rows: seq<Row<T>>, todo: set<Id>, hits: set<Id>) {
    todo <= t.Keys && hits <= t.Keys - todo &&
    (forall j | j in t && j !in todo :: j in hits <==> keep(t[j])) &&
    (forall i | 0 <= i < |rows| :: rows[i].meta.id in hits && t[rows[i].meta.id] == rows[i]) &&
    (forall k | k in hits :: t[k] in rows) &&
    NoDup(rows) &&
    |rows| == |hits|
  }

  /** Visiting key `k`: its record is appended exactly when it matches. */
  lemma ScanStep<T>(t: Table<T>, keep: Row<T> -> bool, rows: seq<Row<T>>, todo: set<Id>, hits: set<Id>, k: Id)
    requires WellKeyed(t)
    requires ScannedSoFar(t, keep, rows, todo, hits)
    requires k in todo
    ensures keep(t[k]) ==> ScannedSoFar(t, keep, rows + [t[k]], todo - {k}, hits + {k})
    ensures !keep(t[k]) ==> ScannedSoFar(t, keep, rows, todo - {k}, hits)
  {
    if keep(t[k]) {
      NoDupAppend(rows, t[k]);
    }
  }

  /** Once every key is visited, `rows` lists the matching records. */
  lemma ScanDone<T>(t: Table<T>, keep: Row<T> -> bool, rows: seq<Row<T>>, hits: set<Id>)
    requires ScannedSoFar(t, keep, rows, {}, hits)
    ensures Lists(rows, t, keep) && |rows| == |MatchingIds(t, keep)|
  {
    assert hits == MatchingIds(t, keep);
  }

  lemma NoDupAppend<T>(s: seq<T>, x: T)
    requires NoDup(s) && x !in s
    ensures NoDup(s + [x])
  {
    var s' := s + [x];
    forall i | 0 <= i < |s'| ensures multiset(s')[s'[i]] == 1 {
      if i < |s| {
        assert s'[i] == s[i] && s[i] != x;
      }
    }
  }

  /** A listing stays a listing when it is reordered. */
  lemma ListsPermutation<T>(a: seq<Row<T>>, b: seq<Row<T>>, t: Table<T>, keep: Row<T> -> bool)
    requires Lists(a, t, keep)
    requires multiset(a) == multiset(b)
    ensures Lists(b, t, keep)
  {
    forall i | 0 <= i < |b| ensures b[i] in a && multiset(b)[b[i]] == 1 {
      assert b[i] in multiset(b);
      var j :| 0 <= j < |a| && a[j] == b[i];
    }
    forall k | k in t && keep(t[k]) ensures t[k] in b {
      assert t[k] in multiset(a);
    }
  }

  /** Filtering a listing by `p` lists the records that satisfy both filters. */
  lemma ListsFilter<T>(rows: seq<Row<T>>, t: Table<T>, keep: Row<T> -> bool, p: Row<T> -> bool,
                       both: Row<T> -> bool)
    requires Lists(rows, t, keep)
    requires forall r :: both(r) == (keep(r) && p(r))
    ensures Lists(Filter(rows, p), t, both)
  {
    var f := Filter(rows, p);
    forall i | 0 <= i < |f| ensures multiset(f)[f[i]] == 1 {
      FilterCount(rows, p, f[i]);
      var j :| 0 <= j < |rows| && rows[j] == f[i];
    }
    forall k | k in t && both(t[k]) ensures t[k] in f {
      var i :| 0 <= i < |rows| && rows[i] == t[k];
    }
  }

  /** Dexie's `add`: fails when a record with the same id is already stored. */
  function Add<T>(t: Table<T>, r: Row<T>): (u: Option<Table<T>>)
    ensures u.Some? <==> r.meta.id !in t
    ensures u.Some? ==> u.value == t[r.meta.id := r]
  {
    if r.meta.id in t then None else Some(t[r.meta.id := r])
  }

  ghost predicate DistinctIds<T>(rows: seq<Row<T>>) {
    forall i, j | 0 <= i < j < |rows| :: rows[i].meta.id != rows[j].meta.id
  }

  /**
   * Dexie's `bulkAdd` inside a transaction: the records are added one after
   * another, and the first id that is already present aborts the whole call.
   */
  function BulkAdd<T>(t: Table<T>, rows: seq<Row<T>>): (u: Option<Table<T>>)
    ensures u.Some? <==> DistinctIds(rows) && forall i | 0 <= i < |rows| :: rows[i].meta.id !in t
    ensures u.Some? ==> u.value.Keys == t.Keys + set i | 0 <= i < |rows| :: rows[i].meta.id
    ensures u.Some? ==> forall k | k in t :: u.value[k] == t[k]
    ensures u.Some? ==> forall i | 0 <= i < |rows| :: u.value[rows[i].meta.id] == rows[i]
    decreases |rows|
  {
    if rows == [] then Some(t)
    else match Add(t, rows[0])
      case None => None
      case Some(t') => BulkAdd(t', rows[1..])
  }
}
