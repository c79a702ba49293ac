/**
 * The `Pagination` component: the page count, the clamped page request,
 * the short list of page numbers around the current page, and the "…"
 * markers between numbers that are not consecutive.
 */
module Pagination {
  import opened Common
  import opened Seqs

  /** `Math.max(1, Math.ceil(totalItems / pageSize))`. */
  function TotalPages(totalItems: nat, pageSize: int): (t: int)
    requires pageSize >= 1
    ensures t >= 1
    ensures t * pageSize >= totalItems
    ensures t == 1 || (t - 1) * pageSize < totalItems
  {
    Max(1, CeilDiv(totalItems, pageSize))
  }

  /** The component draws nothing exactly when every item fits on one page. */
  lemma OnePageDrawsNothing(totalItems: nat, pageSize: int)
    requires pageSize >= 1
    ensures TotalPages(totalItems, pageSize) <= 1 <==> totalItems <= pageSize
  {
    var t := TotalPages(totalItems, pageSize);
    if t >= 2 {
      assert (t - 1) * pageSize >= pageSize;
    }
  }

  /** `go(p)`: the page handed to `onPageChange`. */
  function Go(totalPages: int, p: int): (r: int)
    requires totalPages >= 1
    ensures 1 <= r <= totalPages
    ensures 1 <= p <= totalPages ==> r == p
    ensures p < 1 ==> r == 1
    ensures p > totalPages ==> r == totalPages
  {
    Min(totalPages, Max(1, p))
  }

  /** No two elements are equal. */
  predicate Distinct(xs: seq<int>) {
    forall i, j :: 0 <= i < j < |xs| ==> xs[i] != xs[j]
  }

  /** Strictly increasing. */
  predicate Increasing(xs: seq<int>) {
    forall i, j :: 0 <= i < j < |xs| ==> xs[i] < xs[j]
  }

  /** `[...new Set(xs)]`: each value once, at its first position. */
  function Dedup(xs: seq<int>): (r: seq<int>)
    ensures forall x :: x in r <==> x in xs
    ensures Distinct(r)
    ensures |r| <= |xs|
    decreases |xs|
  {
    if xs == [] then []
    else
      var rest := Dedup(Filter(xs[1..], (y: int) => y != xs[0]));
      assert xs[0] !in rest;
      [xs[0]] + rest
  }

  /** The pages the component starts from. */
  function Candidates(currentPage: int, totalPages: int): (r: seq<int>)
    ensures |r| == 5
    ensures forall n :: n in r <==> Candidate(n, currentPage, totalPages)
  {
    [1, currentPage - 1, currentPage, currentPage + 1, totalPages]
  }

  /** One of the five pages the component considers. */
  predicate Candidate(n: int, currentPage: int, totalPages: int) {
    n == 1 || n == currentPage - 1 || n == currentPage || n == currentPage + 1 || n == totalPages
  }

  /** The comparator `(a, b) => a - b`: `a` goes after `b` when it is larger. */
  predicate Later(a: int, b: int) { a > b }

  function Negate(x: int): int { -x }

  /** `pages`: the distinct candidates within [1, totalPages], ascending. */
  function PageNumbers(currentPage: int, totalPages: int): seq<int> {
    SortWith(InRange(currentPage, totalPages), Later)
  }

  lemma {:induction false} DistinctCounts(xs: seq<int>)
    requires Distinct(xs)
    ensures forall x :: multiset(xs)[x] <= 1
  {
    if xs != [] {
      DistinctCounts(xs[1..]);
      assert xs == [xs[0]] + xs[1..];
      assert xs[0] !in xs[1..];
    }
  }

  lemma {:induction false} CountsDistinct(xs: seq<int>)
    requires forall x :: multiset(xs)[x] <= 1
    ensures Distinct(xs)
  {
    if xs != [] {
      var tail := xs[1..];
      assert xs == [xs[0]] + tail;
      assert multiset(xs) == multiset{xs[0]} + multiset(tail);
      assert forall x :: multiset(xs)[x] == multiset{xs[0]}[x] + multiset(tail)[x];
      CountsDistinct(tail);
      assert multiset(tail)[xs[0]] == 0;
      forall i, j | 0 <= i < j < |xs| ensures xs[i] != xs[j] {
        assert xs[j] == tail[j - 1] && xs[j] in multiset(tail);
        if i > 0 {
          assert xs[i] == tail[i - 1];
        }
      }
    }
  }

  /** The pages within range, before sorting. */
  function InRange(currentPage: int, totalPages: int): (f: seq<int>)
    ensures |f| <= 5
    ensures forall n :: n in f <==> Candidate(n, currentPage, totalPages) && 1 <= n <= totalPages
  {
    Filter(Dedup(Candidates(currentPage, totalPages)), (n: int) => 1 <= n <= totalPages)
  }

  lemma PageNumbersIncreasing(currentPage: int, totalPages: int)
    ensures Increasing(PageNumbers(currentPage, totalPages))
  {
    var d := Dedup(Candidates(currentPage, totalPages));
    var f := InRange(currentPage, totalPages);
    var p := SortWith(f, Later);
    DistinctCounts(d);
    assert forall x :: multiset(p)[x] <= 1 by {
      assert multiset(p) == multiset(f) <= multiset(d);
    }
    CountsDistinct(p);
    SortDescNonIncreasing(f, Later, Negate);
  }

  lemma PageNumbersMembers(currentPage: int, totalPages: int)
    ensures var p := PageNumbers(currentPage, totalPages);
      |p| <= 5 &&
      forall n :: n in p <==> Candidate(n, currentPage, totalPages) && 1 <= n <= totalPages
  {
    var f := InRange(currentPage, totalPages);
    var p := SortWith(f, Later);
    forall n ensures n in p <==> n in f {
      assert n in p <==> n in multiset(p);
      assert n in f <==> n in multiset(f);
    }
  }

  /** The listed pages are strictly increasing, lie in [1, totalPages], are
      taken from the five candidates, number at most five, start at 1, end at
      totalPages, and include the current page whenever it is in range. */
  lemma PageNumbersSpec(currentPage: int, totalPages: int)
    requires totalPages >= 1
    ensures var p := PageNumbers(currentPage, totalPages);
      Increasing(p) && 1 <= |p| <= 5 &&
      (forall n :: n in p <==> Candidate(n, currentPage, totalPages) && 1 <= n <= totalPages) &&
      p[0] == 1 && p[|p| - 1] == totalPages &&
      (1 <= currentPage <= totalPages ==> currentPage in p)
  {
    var p := PageNumbers(currentPage, totalPages);
    PageNumbersIncreasing(currentPage, totalPages);
    PageNumbersMembers(currentPage, totalPages);
    assert 1 in p && totalPages in p;
    var i :| 0 <= i < |p| && p[i] == 1;
    var j :| 0 <= j < |p| && p[j] == totalPages;
    assert p[0] <= p[i];
    assert p[|p| - 1] >= p[j];
    assert p[0] in p && p[|p| - 1] in p;
  }

  /** An entry of the rendered list: a page button or a "…" marker. */
  datatype Item = Page(n: int) | Dots

  /** The list with a "…" between every two consecutive numbers that differ
      by more than one. */
  function Dotted(p: seq<int>): seq<Item> {
    if |p| == 0 then []
    else if |p| == 1 then [Page(p[0])]
    else [Page(p[0])] + Gap(p[0], p[1]) + Dotted(p[1..])
  }

  /** The marker between two neighbouring listed pages: "…" exactly when
      some page is skipped. */
  function Gap(a: int, b: int): seq<Item> {
    if b - a > 1 then [Dots] else []
  }

  /** The `withDots` loop. */
  method WithDots(pages: seq<int>) returns (r: seq<Item>)
    ensures r == Dotted(pages)
  {
    r := [];
    var i := 0;
    assert pages[0..] == pages;
    while i < |pages|
      invariant 0 <= i <= |pages|
      invariant r + Dotted(pages[i..]) == Dotted(pages)
    {
      DottedStep(pages, i);
      var old_r := r;
      r := r + [Page(pages[i])];
      if i < |pages| - 1 && pages[i + 1] - pages[i] > 1 {
        r := r + [Dots];
      }
      assert r == old_r + [Page(pages[i])] + (if i + 1 < |pages| then Gap(pages[i], pages[i + 1]) else []);
      i := i + 1;
    }
    assert pages[i..] == [];
  }

  /** One step of the loop: the entry for the i-th page and what follows it. */
  lemma DottedStep(p: seq<int>, i: int)
    requires 0 <= i < |p|
    ensures Dotted(p[i..]) == [Page(p[i])] + (if i + 1 < |p| then Gap(p[i], p[i + 1]) else []) + Dotted(p[i + 1..])
  {
    var t := p[i..];
    assert t[0] == p[i];
    assert t[1..] == p[i + 1..];
    if i + 1 < |p| {
      assert t[1] == p[i + 1];
    } else {
      assert p[i + 1..] == [];
    }
  }

  /** The page numbers of a rendered list, in order. */
  function PagesOf(items: seq<Item>): seq<int> {
    if items == [] then []
    else if items[0].Page? then [items[0].n] + PagesOf(items[1..])
    else PagesOf(items[1..])
  }

  lemma {:induction false} PagesOfAppend(a: seq<Item>, b: seq<Item>)
    ensures PagesOf(a + b) == PagesOf(a) + PagesOf(b)
  {
    if a != [] {
      assert (a + b)[1..] == a[1..] + b;
      PagesOfAppend(a[1..], b);
    } else {
      assert a + b == b;
    }
  }

  /** Dropping the markers gives back the page numbers, in order. */
  lemma {:induction false} DottedKeepsPages(p: seq<int>)
    ensures PagesOf(Dotted(p)) == p
  {
    if |p| >= 2 {
      var gap := Gap(p[0], p[1]);
      DottedKeepsPages(p[1..]);
      PagesOfAppend([Page(p[0])] + gap, Dotted(p[1..]));
      PagesOfAppend([Page(p[0])], gap);
      assert PagesOf([Page(p[0])]) == [p[0]];
      assert p == [p[0]] + p[1..];
    } else if |p| == 1 {
      assert PagesOf([Page(p[0])]) == [p[0]];
    }
  }

  /** A list of pages starts and ends with a page, never with "…", and never
      has two "…" side by side. */
  lemma {:induction false} DottedShape(p: seq<int>)
    requires p != []
    ensures var d := Dotted(p);
      d != [] && d[0] == Page(p[0]) && d[|d| - 1] == Page(p[|p| - 1]) &&
      forall i :: 0 <= i < |d| - 1 ==> !(d[i].Dots? && d[i + 1].Dots?)
  {
    if |p| >= 2 {
      DottedShape(p[1..]);
      var gap := Gap(p[0], p[1]);
      var rest := Dotted(p[1..]);
      var d := [Page(p[0])] + gap + rest;
      assert d == Dotted(p);
      forall i | 0 <= i < |d| - 1 ensures !(d[i].Dots? && d[i + 1].Dots?) {
        if i >= 1 + |gap| {
          assert d[i] == rest[i - 1 - |gap|] && d[i + 1] == rest[i - |gap|];
        } else if i == |gap| {
          assert d[i + 1] == rest[0];
        }
      }
    }
  }

  /** Between the i-th and the next listed page lies exactly one "…" when they
      differ by more than one, and nothing otherwise. */
  lemma {:induction false} DottedSplit(p: seq<int>, i: int)
    requires 0 <= i < |p| - 1
    ensures Dotted(p) == Dotted(p[..i + 1]) + Gap(p[i], p[i + 1]) + Dotted(p[i + 1..])
  {
    if i == 0 {
      assert p[..1] == [p[0]];
    } else {
      var q, h := p[1..], p[..i + 1];
      assert q[i] == p[i + 1] && q[i - 1] == p[i];
      DottedSplit(q, i - 1);
      assert q[..i] == h[1..] && q[i..] == p[i + 1..];
      assert h[0] == p[0] && h[1] == p[1] && |h| >= 2;
      var first, mid := Gap(p[0], p[1]), Gap(p[i], p[i + 1]);
      calc {
        Dotted(p);
        [Page(p[0])] + first + Dotted(q);
        [Page(p[0])] + first + (Dotted(h[1..]) + mid + Dotted(p[i + 1..]));
        ([Page(p[0])] + first + Dotted(h[1..])) + mid + Dotted(p[i + 1..]);
        Dotted(h) + mid + Dotted(p[i + 1..]);
      }
    }
  }

  /** What the component renders, when it renders anything: the entries, the
      state of the two arrows and the pages they request. */
  datatype View = View(items: seq<Item>, prevDisabled: bool, nextDisabled: bool, prevTarget: int, nextTarget: int)

  method Render(totalItems: nat, pageSize: int, currentPage: int) returns (v: Option<View>)
    requires pageSize >= 1
    ensures v.None? <==> TotalPages(totalItems, pageSize) <= 1
    ensures v.Some? ==> var t := TotalPages(totalItems, pageSize);
      v.value.items == Dotted(PageNumbers(currentPage, t)) &&
      (v.value.prevDisabled <==> currentPage == 1) &&
      (v.value.nextDisabled <==> currentPage == t) &&
      v.value.prevTarget == Go(t, currentPage - 1) &&
      v.value.nextTarget == Go(t, currentPage + 1)
  {
    var totalPages := TotalPages(totalItems, pageSize);
    if totalPages <= 1 {
      return None;
    }
    var pages := PageNumbers(currentPage, totalPages);
    var items := WithDots(pages);
    v := Some(View(items, currentPage == 1, currentPage == totalPages,
                   Go(totalPages, currentPage - 1), Go(totalPages, currentPage + 1)));
  }

  /** Two increasing lists with the same members are equal. */
  lemma {:induction false} IncreasingUnique(p: seq<int>, q: seq<int>)
    requires Increasing(p) && Increasing(q)
    requires forall n :: n in p <==> n in q
    ensures p == q
  {
    if p != [] && q != [] {
      assert p[0] in q && q[0] in p;
      var k :| 0 <= k < |q| && q[k] == p[0];
      var m :| 0 <= m < |p| && p[m] == q[0];
      assert p[0] <= p[m] && q[0] <= q[k];
      forall n ensures n in p[1..] <==> n in q[1..] {
        assert n in p[1..] <==> n in p && n != p[0];
        assert n in q[1..] <==> n in q && n != q[0];
      }
      IncreasingUnique(p[1..], q[1..]);
      assert p == [p[0]] + p[1..] && q == [q[0]] + q[1..];
    } else if p != [] {
      HeadIn(p);
      assert false;
    } else if q != [] {
      HeadIn(q);
      assert false;
    }
  }

  lemma HeadIn(p: seq<int>)
    requires p != []
    ensures p[0] in p
  {
  }

  /** Away from both ends the list is 1 … c-1 c c+1 … totalPages. */
  lemma MiddlePages(currentPage: int, totalPages: int)
    requires 4 <= currentPage && currentPage + 3 <= totalPages
    ensures PageNumbers(currentPage, totalPages) == [1, currentPage - 1, currentPage, currentPage + 1, totalPages]
    ensures Dotted(PageNumbers(currentPage, totalPages)) ==
      [Page(1), Dots, Page(currentPage - 1), Page(currentPage), Page(currentPage + 1), Dots, Page(totalPages)]
  {
    var q := [1, currentPage - 1, currentPage, currentPage + 1, totalPages];
    PageNumbersSpec(currentPage, totalPages);
    MiddleCandidates(currentPage, totalPages);
    IncreasingUnique(PageNumbers(currentPage, totalPages), q);
    DottedMiddle(currentPage, totalPages);
  }

  lemma MiddleCandidates(c: int, t: int)
    requires 4 <= c && c + 3 <= t
    ensures var q := [1, c - 1, c, c + 1, t];
      Increasing(q) && forall n :: n in q <==> Candidate(n, c, t) && 1 <= n <= t
  {
  }

  lemma DottedMiddle(c: int, t: int)
    requires 4 <= c && c + 3 <= t
    ensures Dotted([1, c - 1, c, c + 1, t]) == [Page(1), Dots, Page(c - 1), Page(c), Page(c + 1), Dots, Page(t)]
  {
    var q := [1, c - 1, c, c + 1, t];
    assert Dotted(q[4..]) == [Page(t)];
    assert q[3..][1..] == q[4..];
    assert Dotted(q[3..]) == [Page(c + 1), Dots, Page(t)];
    assert q[2..][1..] == q[3..];
    assert Dotted(q[2..]) == [Page(c), Page(c + 1), Dots, Page(t)];
    assert q[1..][1..] == q[2..];
    assert Dotted(q[1..]) == [Page(c - 1), Page(c), Page(c + 1), Dots, Page(t)];
  }
}
