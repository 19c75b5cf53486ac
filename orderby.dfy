/** Row ids filtered and ordered the way a Django queryset does it: `filter(...)`
    keeps the rows that satisfy a condition, `order_by("f")` sorts them by a key
    ascending and `order_by("-f")` descending. Keys are integers; a (date, time)
    pair is turned into one through `Times.Instant`. */
module OrderBy {

  /** Whether a row with key `a` may be listed before a row with key `b`. */
  predicate Precedes(a: int, b: int, descending: bool)
  {
    if descending then a >= b else a <= b
  }

  ghost predicate Ordered(xs: seq<nat>, key: nat -> int, descending: bool)
  {
    forall i, j :: 0 <= i < j < |xs| ==> Precedes(key(xs[i]), key(xs[j]), descending)
  }

  /** The ids 0, 1, ..., n - 1 of a table with n rows, in insertion order. */
  function Range(n: nat): (r: seq<nat>)
    ensures |r| == n
    ensures forall i :: 0 <= i < n ==> r[i] == i
  {
    if n == 0 then [] else Range(n - 1) + [n - 1]
  }

  /** Every id of a table occurs in `Range` exactly once. */
  lemma {:induction false} RangeCounts(n: nat, x: nat)
    ensures multiset(Range(n))[x] == if x < n then 1 else 0
  {
    if n > 0 {
      var shorter := Range(n - 1);
      RangeCounts(n - 1, x);
      assert Range(n) == shorter + [n - 1];
      assert multiset(shorter + [n - 1]) == multiset(shorter) + multiset([n - 1]);
    }
  }

  /** `queryset.filter(p)`: keeps exactly the occurrences that satisfy `p`. */
  function Filter(xs: seq<nat>, p: nat -> bool): (r: seq<nat>)
    ensures forall x :: multiset(r)[x] == if p(x) then multiset(xs)[x] else 0
  {
    if xs == [] then []
    else
      assert xs == [xs[0]] + xs[1..];
      (if p(xs[0]) then [xs[0]] else []) + Filter(xs[1..], p)
  }

  /** Any rearrangement of the ids of a table that satisfy `p` holds each of those
      ids once and nothing else. */
  lemma FilterRangeCounts(n: nat, p: nat -> bool, r: seq<nat>)
    requires multiset(r) == multiset(Filter(Range(n), p))
    ensures forall x: nat :: multiset(r)[x] == if x < n && p(x) then 1 else 0
    ensures forall i :: 0 <= i < |r| ==> r[i] < n
  {
    forall x: nat ensures multiset(r)[x] == if x < n && p(x) then 1 else 0 {
      RangeCounts(n, x);
    }
    forall i | 0 <= i < |r| ensures r[i] < n {
      assert r[i] in multiset(r);
    }
  }

  /** Puts `x` into an ordered list at a place where the order is kept. */
  function Insert(x: nat, xs: seq<nat>, key: nat -> int, descending: bool): (r: seq<nat>)
    requires Ordered(xs, key, descending)
    ensures multiset(r) == multiset(xs) + multiset{x}
    ensures Ordered(r, key, descending)
    decreases |xs|
  {
    if xs == [] || Precedes(key(x), key(xs[0]), descending) then
      [x] + xs
    else
      assert xs == [xs[0]] + xs[1..];
      var rest := Insert(x, xs[1..], key, descending);
      HeadPrecedesAll(xs[0], x, xs[1..], rest, key, descending);
      [xs[0]] + rest
  }

  lemma HeadPrecedesAll(h: nat, x: nat, tail: seq<nat>, rest: seq<nat>, key: nat -> int, descending: bool)
    requires Precedes(key(h), key(x), descending)
    requires forall j :: 0 <= j < |tail| ==> Precedes(key(h), key(tail[j]), descending)
    requires multiset(rest) == multiset(tail) + multiset{x}
    ensures forall j :: 0 <= j < |rest| ==> Precedes(key(h), key(rest[j]), descending)
  {
    forall j | 0 <= j < |rest|
      ensures Precedes(key(h), key(rest[j]), descending)
    {
      assert rest[j] in multiset(rest);
      if rest[j] != x {
        assert rest[j] in multiset(tail);
      }
    }
  }

  /** `order_by`: an ordered rearrangement of the rows (insertion sort). */
  function SortBy(xs: seq<nat>, key: nat -> int, descending: bool): (r: seq<nat>)
    ensures multiset(r) == multiset(xs)
    ensures Ordered(r, key, descending)
  {
    if xs == [] then []
    else
      assert xs == [xs[0]] + xs[1..];
      Insert(xs[0], SortBy(xs[1..], key, descending), key, descending)
  }
}
