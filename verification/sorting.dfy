/**
 * `Array.prototype.sort` with a comparator and `Array.prototype.filter`,
 * the two list operations every read of the store ends with.
 *
 * A comparator follows JavaScript's convention: a negative result puts its
 * first argument first, a positive one its second, zero keeps input order.
 * JavaScript's sort is stable; `SortBy` is a stable insertion sort.
 */
module Sorting {

  /** Every element may precede every later one: `cmp(s[i], s[j]) <= 0` for i < j. */
  predicate Sorted<T>(s: seq<T>, cmp: (T, T) -> int) {
    forall i, j | 0 <= i < j < |s| :: cmp(s[i], s[j]) <= 0
  }

  /** A comparator that is consistent: any two elements are ordered, and the order is transitive. */
  ghost predicate TotalPreorder<T(!new)>(cmp: (T, T) -> int) {
    (forall a, b :: cmp(a, b) <= 0 || cmp(b, a) <= 0) &&
    (forall a, b, c :: cmp(a, b) <= 0 && cmp(b, c) <= 0 ==> cmp(a, c) <= 0)
  }

  /** Places `x` in front of the first element it may precede. */
  function Insert<T>(x: T, s: seq<T>, cmp: (T, T) -> int): (r: seq<T>)
    ensures |r| == |s| + 1
    ensures multiset(r) == multiset(s) + multiset{x}
  {
    if s == [] || cmp(x, s[0]) <= 0 then [x] + s
    else
      assert s == [s[0]] + s[1..];
      [s[0]] + Insert(x, s[1..], cmp)
  }

  /** The stable sort of `s` by `cmp`. */
  function SortBy<T>(s: seq<T>, cmp: (T, T) -> int): (r: seq<T>)
    ensures |r| == |s|
    ensures multiset(r) == multiset(s)
  {
    if s == [] then []
    else
      assert s == [s[0]] + s[1..];
      Insert(s[0], SortBy(s[1..], cmp), cmp)
  }

  lemma {:induction false} InsertSorted<T(!new)>(x: T, s: seq<T>, cmp: (T, T) -> int)
    requires TotalPreorder(cmp)
    requires Sorted(s, cmp)
    ensures Sorted(Insert(x, s, cmp), cmp)
  {
    if s != [] && cmp(x, s[0]) > 0 {
      var rest := Insert(x, s[1..], cmp);
      InsertSorted(x, s[1..], cmp);
      var r := [s[0]] + rest;
      forall i, j | 0 <= i < j < |r| ensures cmp(r[i], r[j]) <= 0 {
        if i == 0 {
          // r[j] is x or an element of s[1..], and s[0] may precede both
          assert r[j] in multiset(rest);
          assert r[j] == x || r[j] in multiset(s[1..]);
          if r[j] != x {
            var k :| 1 <= k < |s| && s[k] == r[j];
          }
        }
      }
    }
  }

  /** The result of `SortBy` is ordered by a consistent comparator. */
  lemma {:induction false} SortBySorted<T(!new)>(s: seq<T>, cmp: (T, T) -> int)
    requires TotalPreorder(cmp)
    ensures Sorted(SortBy(s, cmp), cmp)
  {
    if s != [] {
      SortBySorted(s[1..], cmp);
      InsertSorted(s[0], SortBy(s[1..], cmp), cmp);
    }
  }

  /** The elements of `s` that satisfy `p`, in their order in `s`. */
  function Filter<T>(s: seq<T>, p: T -> bool): (r: seq<T>)
    ensures |r| <= |s|
    ensures forall i | 0 <= i < |r| :: r[i] in s && p(r[i])
    ensures forall i | 0 <= i < |s| && p(s[i]) :: s[i] in r
  {
    if s == [] then []
    else
      (if p(s[0]) then [s[0]] else []) + Filter(s[1..], p)
  }

  lemma {:induction false} FilterCount<T>(s: seq<T>, p: T -> bool, x: T)
    ensures multiset(Filter(s, p))[x] == if p(x) then multiset(s)[x] else 0
  {
    if s != [] {
      FilterCount(s[1..], p, x);
      assert s == [s[0]] + s[1..];
    }
  }

  /** An element that may precede every element of a sorted sequence may go in front of it. */
  lemma SortedCons<T>(x: T, t: seq<T>, cmp: (T, T) -> int)
    requires Sorted(t, cmp)
    requires forall j | 0 <= j < |t| :: cmp(x, t[j]) <= 0
    ensures Sorted([x] + t, cmp)
  {
    var s := [x] + t;
    forall i, j | 0 <= i < j < |s| ensures cmp(s[i], s[j]) <= 0 {
      assert s[j] == t[j - 1];
      if i > 0 {
        assert s[i] == t[i - 1];
      }
    }
  }

  lemma {:induction false} FilterSorted<T>(s: seq<T>, p: T -> bool, cmp: (T, T) -> int)
    requires Sorted(s, cmp)
    ensures Sorted(Filter(s, p), cmp)
  {
    if s != [] {
      var tail := Filter(s[1..], p);
      assert Sorted(s[1..], cmp);
      FilterSorted(s[1..], p, cmp);
      if p(s[0]) {
        forall j | 0 <= j < |tail| ensures cmp(s[0], tail[j]) <= 0 {
          var k :| 0 <= k < |s[1..]| && s[1..][k] == tail[j];
          assert s[k + 1] == tail[j];
        }
        SortedCons(s[0], tail, cmp);
      } else {
        assert Filter(s, p) == tail;
      }
    }
  }

  /** A one-element sequence is kept or dropped whole. */
  lemma FilterOne<T>(x: T, p: T -> bool)
    ensures Filter([x], p) == if p(x) then [x] else []
  {
    assert [x][1..] == [];
  }

  lemma {:induction false} FilterAppend<T>(a: seq<T>, b: seq<T>, p: T -> bool)
    ensures Filter(a + b, p) == Filter(a, p) + Filter(b, p)
  {
    if a == [] {
      assert a + b == b;
    } else {
      assert (a + b)[1..] == a[1..] + b;
      FilterAppend(a[1..], b, p);
    }
  }
}
