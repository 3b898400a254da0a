/**
 * Stable sorting by an integer key.
 *
 * Every sort in the modelled code is `Array.prototype.sort` with a numeric
 * comparator, `(a, b) => key(a) - key(b)` (ascending) or `(a, b) => key(b) -
 * key(a)` (descending). That library sort is stable, and a stable sort has
 * exactly one result, so the insertion sort below is that result.
 */
module Sorting {
  datatype Direction = Ascending | Descending

  /** Keys `a` then `b` are in `d` order (ties allowed). */
  predicate InOrder(d: Direction, a: int, b: int) {
    if d.Ascending? then a <= b else a >= b
  }

  ghost predicate SortedBy<T>(s: seq<T>, key: T -> int, d: Direction) {
    forall i, j :: 0 <= i < j < |s| ==> InOrder(d, key(s[i]), key(s[j]))
  }

  /** Inserts `x` in front of the first element it may precede. */
  function Insert<T>(x: T, s: seq<T>, key: T -> int, d: Direction): seq<T> {
    if s == [] || InOrder(d, key(x), key(s[0])) then [x] + s
    else [s[0]] + Insert(x, s[1..], key, d)
  }

  lemma {:induction false} InsertPermutes<T>(x: T, s: seq<T>, key: T -> int, d: Direction)
    ensures multiset(Insert(x, s, key, d)) == multiset(s) + multiset{x}
    ensures |Insert(x, s, key, d)| == |s| + 1
  {
    if s != [] && !InOrder(d, key(x), key(s[0])) {
      InsertPermutes(x, s[1..], key, d);
      assert s == [s[0]] + s[1..];
    }
  }

  lemma {:induction false} InsertSorted<T>(x: T, s: seq<T>, key: T -> int, d: Direction)
    requires SortedBy(s, key, d)
    ensures SortedBy(Insert(x, s, key, d), key, d)
  {
    if s != [] && !InOrder(d, key(x), key(s[0])) {
      var rest := Insert(x, s[1..], key, d);
      InsertSorted(x, s[1..], key, d);
      InsertPermutes(x, s[1..], key, d);
      forall k | 0 <= k < |rest| ensures InOrder(d, key(s[0]), key(rest[k])) {
        assert rest[k] in multiset(rest);
      }
    }
  }

  /** The stable sort of `s` by `key` in direction `d`. */
  function SortBy<T>(s: seq<T>, key: T -> int, d: Direction): seq<T> {
    if s == [] then [] else Insert(s[0], SortBy(s[1..], key, d), key, d)
  }

  /** The sort orders the elements by key and keeps every one of them. */
  lemma {:induction false} SortByOrders<T>(s: seq<T>, key: T -> int, d: Direction)
    ensures SortedBy(SortBy(s, key, d), key, d)
    ensures multiset(SortBy(s, key, d)) == multiset(s)
    ensures |SortBy(s, key, d)| == |s|
  {
    if s != [] {
      SortByOrders(s[1..], key, d);
      InsertSorted(s[0], SortBy(s[1..], key, d), key, d);
      InsertPermutes(s[0], SortBy(s[1..], key, d), key, d);
      assert s == [s[0]] + s[1..];
    }
  }
}
