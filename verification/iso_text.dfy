/**
 * ISO 8601 dates and instants are stored as text and ordered by comparing
 * that text character by character: JavaScript's `<` on strings, IndexedDB's
 * key order on string keys, and (on the ASCII text of ISO dates)
 * `localeCompare`.
 */
module IsoText {

  /** Strict lexicographic order: `a` sorts before `b`. */
  predicate Less(a: string, b: string)
    decreases |a|
  {
    if a == [] then b != []
    else if b == [] then false
    else a[0] < b[0] || (a[0] == b[0] && Less(a[1..], b[1..]))
  }

  /** `a` sorts before `b` or equals it. */
  predicate AtMost(a: string, b: string) {
    a == b || Less(a, b)
  }

  /** `a.localeCompare(b)`: negative, zero or positive. */
  function Compare(a: string, b: string): (r: int)
    ensures r == 0 <==> a == b
    ensures r < 0 <==> Less(a, b)
    ensures r > 0 <==> Less(b, a)
    ensures -1 <= r <= 1
  {
    LessIrreflexive(a);
    LessTrichotomy(a, b);
    if Less(a, b) then -1 else if a == b then 0 else 1
  }

  /** Dexie's `between(lower, upper, true, true)`: both bounds included. */
  predicate InRange(d: string, lower: string, upper: string) {
    AtMost(lower, d) && AtMost(d, upper)
  }

  lemma {:induction false} LessIrreflexive(a: string)
    ensures !Less(a, a)
    decreases |a|
  {
    if a != [] {
      LessIrreflexive(a[1..]);
    }
  }

  /** Exactly one of `Less(a, b)`, `a == b`, `Less(b, a)` holds. */
  lemma {:induction false} LessTrichotomy(a: string, b: string)
    ensures Less(a, b) || a == b || Less(b, a)
    ensures !(Less(a, b) && Less(b, a))
    decreases |a|
  {
    if a != [] && b != [] && a[0] == b[0] {
      LessTrichotomy(a[1..], b[1..]);
      if a[1..] == b[1..] {
        assert a == [a[0]] + a[1..] && b == [b[0]] + b[1..];
      }
    }
  }

  lemma {:induction false} LessTransitive(a: string, b: string, c: string)
    requires Less(a, b) && Less(b, c)
    ensures Less(a, c)
    decreases |a|
  {
    if a != [] && a[0] == b[0] && b[0] == c[0] {
      LessTransitive(a[1..], b[1..], c[1..]);
    }
  }

  lemma AtMostTransitive(a: string, b: string, c: string)
    requires AtMost(a, b) && AtMost(b, c)
    ensures AtMost(a, c)
  {
    if Less(a, b) && Less(b, c) {
      LessTransitive(a, b, c);
    }
  }

  /** Any two strings are comparable. */
  lemma AtMostTotal(a: string, b: string)
    ensures AtMost(a, b) || AtMost(b, a)
  {
    LessTrichotomy(a, b);
  }

  lemma CompareTotal(a: string, b: string)
    ensures Compare(a, b) <= 0 || Compare(b, a) <= 0
  {
    LessTrichotomy(a, b);
  }

  lemma CompareTransitive(a: string, b: string, c: string)
    requires Compare(a, b) <= 0 && Compare(b, c) <= 0
    ensures Compare(a, c) <= 0
  {
    if Less(a, b) && Less(b, c) {
      LessTransitive(a, b, c);
    }
  }
}
