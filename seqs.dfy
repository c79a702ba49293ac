/**
 * Order-preserving filtering and stable sorting of sequences: what
 * `Array.prototype.filter`, `Array.prototype.sort` and the database's
 * `WHERE` / `ORDER BY` do to a list of rows.
 */
module Seqs {
  import opened Common

  /** The first element of `xs` satisfying `p`, as `findFirst`/`findUnique`
      return the first matching row, or None when no element satisfies it. */
  function Find<T>(xs: seq<T>, p: T -> bool): (r: Option<T>)
    ensures r.Some? ==> r.value in xs && p(r.value)
    ensures r.None? ==> forall i :: 0 <= i < |xs| ==> !p(xs[i])
    ensures r.Some? ==> exists i :: 0 <= i < |xs| && xs[i] == r.value && forall j :: 0 <= j < i ==> !p(xs[j])
  {
    if xs == [] then None
    else if p(xs[0]) then Some(xs[0])
    else Find(xs[1..], p)
  }

  /** The elements of `xs` satisfying `p`, in their original order. */
  function Filter<T(!new)>(xs: seq<T>, p: T -> bool): (r: seq<T>)
    ensures |r| <= |xs|
    ensures forall x :: x in r <==> x in xs && p(x)
    ensures multiset(r) <= multiset(xs)
  {
    if xs == [] then []
    else
      var rest := Filter(xs[1..], p);
      assert xs == [xs[0]] + xs[1..];
      if p(xs[0]) then [xs[0]] + rest else rest
  }

  /** Filtering distributes over concatenation: the kept elements of a
      list are kept in the order the list had them. */
  lemma {:induction false} FilterAppend<T(!new)>(a: seq<T>, b: seq<T>, p: T -> bool)
    ensures Filter(a + b, p) == Filter(a, p) + Filter(b, p)
  {
    if a == [] {
      assert a + b == b;
    } else {
      assert (a + b)[1..] == a[1..] + b;
      FilterAppend(a[1..], b, p);
    }
  }

  /** Filtering keeps an element exactly as often as the list holds it. */
  lemma {:induction false} FilterCount<T(!new)>(xs: seq<T>, p: T -> bool, x: T)
    ensures multiset(Filter(xs, p))[x] == if p(x) then multiset(xs)[x] else 0
  {
    if xs != [] {
      assert xs == [xs[0]] + xs[1..];
      FilterCount(xs[1..], p, x);
    }
  }

  /** Filtering twice with the same predicate changes nothing the second time. */
  lemma {:induction false} FilterIdempotent<T(!new)>(xs: seq<T>, p: T -> bool)
    ensures Filter(Filter(xs, p), p) == Filter(xs, p)
  {
    if xs != [] {
      FilterIdempotent(xs[1..], p);
    }
  }

  /** Filtering with `p` then with `q` keeps what satisfies both. */
  lemma {:induction false} FilterFilter<T(!new)>(xs: seq<T>, p: T -> bool, q: T -> bool, pq: T -> bool)
    requires forall x :: pq(x) == (p(x) && q(x))
    ensures Filter(Filter(xs, p), q) == Filter(xs, pq)
  {
    if xs != [] {
      FilterFilter(xs[1..], p, q, pq);
    }
  }

  /** Filters with predicates that agree on every element agree. */
  lemma {:induction false} FilterExt<T(!new)>(xs: seq<T>, p: T -> bool, q: T -> bool)
    requires forall x :: p(x) == q(x)
    ensures Filter(xs, p) == Filter(xs, q)
  {
    if xs != [] {
      FilterExt(xs[1..], p, q);
    }
  }

  /** A filter that keeps the elements it is given leaves the list alone. */
  lemma {:induction false} FilterAll<T(!new)>(xs: seq<T>, p: T -> bool)
    requires forall x :: x in xs ==> p(x)
    ensures Filter(xs, p) == xs
  {
    if xs != [] {
      FilterAll(xs[1..], p);
    }
  }

  /**
   * Stable insertion of `x` in front of the already-sorted `xs`: `after(a, b)`
   * is the comparator's "a goes after b" (`compare(a, b) > 0`), so `x` passes
   * every element it goes after and stops before the first one it does not.
   */
  function Insert<T>(x: T, xs: seq<T>, after: (T, T) -> bool): (r: seq<T>)
    ensures |r| == |xs| + 1
    ensures multiset(r) == multiset(xs) + multiset{x}
  {
    if xs == [] then [x]
    else if after(x, xs[0]) then
      assert xs == [xs[0]] + xs[1..];
      [xs[0]] + Insert(x, xs[1..], after)
    else [x] + xs
  }

  /** A stable sort under the comparator `after`: elements the comparator
      does not separate keep their original order. */
  function SortWith<T>(xs: seq<T>, after: (T, T) -> bool): (r: seq<T>)
    ensures |r| == |xs|
    ensures multiset(r) == multiset(xs)
  {
    if xs == [] then []
    else
      assert xs == [xs[0]] + xs[1..];
      Insert(xs[0], SortWith(xs[1..], after), after)
  }

  /** `xs` is in non-increasing order of `key`. */
  predicate NonIncreasing<T>(xs: seq<T>, key: T -> int) {
    forall i, j :: 0 <= i < j < |xs| ==> key(xs[i]) >= key(xs[j])
  }

  lemma {:induction false} InsertNonIncreasing<T>(x: T, xs: seq<T>, after: (T, T) -> bool, key: T -> int)
    requires forall a, b :: after(a, b) == (key(a) < key(b))
    requires NonIncreasing(xs, key)
    ensures NonIncreasing(Insert(x, xs, after), key)
  {
    if xs != [] && after(x, xs[0]) {
      InsertNonIncreasing(x, xs[1..], after, key);
      var r := Insert(x, xs[1..], after);
      assert multiset(r) == multiset(xs[1..]) + multiset{x};
      forall j | 0 <= j < |r| ensures key(xs[0]) >= key(r[j]) {
        assert r[j] in multiset(r);
        if r[j] != x {
          assert r[j] in multiset(xs[1..]);
          var k :| 0 <= k < |xs[1..]| && xs[1..][k] == r[j];
          assert xs[1 + k] == r[j];
        }
      }
    }
  }

  /** Sorting with the comparator `b.key - a.key` (descending) yields a list
      in non-increasing key order. */
  lemma {:induction false} SortDescNonIncreasing<T>(xs: seq<T>, after: (T, T) -> bool, key: T -> int)
    requires forall a, b :: after(a, b) == (key(a) < key(b))
    ensures NonIncreasing(SortWith(xs, after), key)
  {
    if xs != [] {
      SortDescNonIncreasing(xs[1..], after, key);
      InsertNonIncreasing(xs[0], SortWith(xs[1..], after), after, key);
    }
  }

  /** A comparator that never separates two elements (`return 0`) leaves
      the list in its original order. */
  lemma {:induction false} SortNeverAfter<T>(xs: seq<T>, after: (T, T) -> bool)
    requires forall a, b :: !after(a, b)
    ensures SortWith(xs, after) == xs
  {
    if xs != [] {
      SortNeverAfter(xs[1..], after);
    }
  }
}
