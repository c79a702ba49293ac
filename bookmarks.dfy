/**
 * The bookmark table of `BookmarksService`: a set of (user, story) pairs
 * kept as rows, with at most one row per pair.
 */
module Bookmarks {
  import opened Common
  import opened Seqs

  datatype Bookmark = Bookmark(userId: int, storyId: int)

  /** The `userId_storyId` unique constraint. */
  predicate UniquePairs(rows: seq<Bookmark>) {
    forall i, j :: 0 <= i < j < |rows| ==> rows[i] != rows[j]
  }

  /** The table after `upsert` with an empty `update`: an existing pair is
      left as it is, a new one is added. */
  function Add(rows: seq<Bookmark>, b: Bookmark): seq<Bookmark> {
    if b in rows then rows else rows + [b]
  }

  /** The table after deleting the pair. */
  function Delete(rows: seq<Bookmark>, b: Bookmark): seq<Bookmark> {
    Filter(rows, (x: Bookmark) => x != b)
  }

  /** After adding, the table holds exactly the old pairs and the new one,
      still once each. */
  lemma AddContents(rows: seq<Bookmark>, b: Bookmark)
    requires UniquePairs(rows)
    ensures forall x :: x in Add(rows, b) <==> x == b || x in rows
    ensures UniquePairs(Add(rows, b))
  {
  }

  /** Adding the same pair twice is adding it once. */
  lemma AddIdempotent(rows: seq<Bookmark>, b: Bookmark)
    ensures Add(Add(rows, b), b) == Add(rows, b)
  {
  }

  /** Deleting removes exactly that pair and keeps the others in order. */
  lemma DeleteContents(rows: seq<Bookmark>, b: Bookmark)
    requires UniquePairs(rows)
    ensures forall x :: x in Delete(rows, b) <==> x in rows && x != b
    ensures UniquePairs(Delete(rows, b))
    ensures b in rows ==> |Delete(rows, b)| == |rows| - 1
  {
    KeepUnique(rows, x => x != b);
    if b in rows {
      FilterCount(rows, x => x != b, b);
      CountOnce(rows, b);
      var kept := Delete(rows, b);
      forall x ensures multiset(kept)[x] == (multiset(rows) - multiset{b})[x] {
        FilterCount(rows, y => y != b, x);
      }
      assert multiset(kept) == multiset(rows) - multiset{b};
      assert |multiset(kept)| == |multiset(rows)| - 1;
    }
  }

  /** A pair stored once occurs once. */
  lemma {:induction false} CountOnce(rows: seq<Bookmark>, b: Bookmark)
    requires UniquePairs(rows) && b in rows
    ensures multiset(rows)[b] == 1
  {
    assert rows == [rows[0]] + rows[1..];
    if rows[0] == b {
      assert b !in rows[1..];
    } else {
      CountOnce(rows[1..], b);
    }
  }

  /** Filtering a table without duplicates leaves none. */
  lemma {:induction false} KeepUnique(rows: seq<Bookmark>, p: Bookmark -> bool)
    requires UniquePairs(rows)
    ensures UniquePairs(Filter(rows, p))
  {
    if rows != [] {
      KeepUnique(rows[1..], p);
      assert rows[0] !in rows[1..];
    }
  }

  /** One page of a user's bookmarks. */
  datatype BookmarkPage = BookmarkPage(data: seq<Bookmark>, totalPages: nat, currentPage: int)

  function OfUser(rows: seq<Bookmark>, userId: int): seq<Bookmark> {
    Filter(rows, (b: Bookmark) => b.userId == userId)
  }

  /** `getBookmarks`: page `page` of the user's bookmarks in table order,
      with the page count over all of them. */
  function BookmarksPage(rows: seq<Bookmark>, userId: int, page: int, limit: int): (r: Result<BookmarkPage>)
    requires limit >= 1
    ensures r.Err? <==> page < 1
    ensures r.Err? ==> r.error == InvalidQuery
    ensures r.Ok? ==> |r.value.data| <= limit && r.value.currentPage == page
    ensures r.Ok? ==> PageOf(OfUser(rows, userId), page, limit) == Ok(r.value.data)
    ensures r.Ok? ==> r.value.totalPages == CeilDiv(|OfUser(rows, userId)|, limit)
  {
    var mine := OfUser(rows, userId);
    var data := PageOf(mine, page, limit);
    if data.Err? then Err(data.error)
    else Ok(BookmarkPage(data.value, CeilDiv(|mine|, limit), page))
  }

  /** A page holds only the user's own bookmarks, and the page count covers
      all of them: `totalPages * limit` bookmarks fit, one page fewer would
      not. */
  lemma BookmarksPageSound(rows: seq<Bookmark>, userId: int, page: int, limit: int)
    requires limit >= 1
    ensures BookmarksPage(rows, userId, page, limit).Ok? ==>
      var p := BookmarksPage(rows, userId, page, limit).value;
      (forall b :: b in p.data ==> b in rows && b.userId == userId) &&
      p.totalPages * limit >= |OfUser(rows, userId)| &&
      (p.totalPages == 0 || (p.totalPages - 1) * limit < |OfUser(rows, userId)|)
  {
    var r := BookmarksPage(rows, userId, page, limit);
    if r.Ok? {
      var mine, data := OfUser(rows, userId), r.value.data;
      forall b | b in data ensures b in rows && b.userId == userId {
        var i :| 0 <= i < |data| && data[i] == b;
        assert mine[(page - 1) * limit + i] == b;
      }
    }
  }

  class BookmarkService {
    var rows: seq<Bookmark>

    predicate Valid()
      reads this
    {
      UniquePairs(rows)
    }

    constructor(initial: seq<Bookmark>)
      requires UniquePairs(initial)
      ensures Valid() && rows == initial
    {
      rows := initial;
    }

    /** `addBookmark`: `stories` is the set of existing story ids. */
    method AddBookmark(userId: int, storyId: int, stories: set<int>) returns (r: Result<Bookmark>)
      requires Valid()
      modifies this
      ensures Valid()
      ensures storyId !in stories ==> r == Err(NotFound("Story not found")) && rows == old(rows)
      ensures storyId in stories ==> r == Ok(Bookmark(userId, storyId)) && rows == Add(old(rows), Bookmark(userId, storyId))
    {
      if storyId !in stories {
        return Err(NotFound("Story not found"));
      }
      var b := Bookmark(userId, storyId);
      AddContents(rows, b);
      if b !in rows {
        rows := rows + [b];
      }
      r := Ok(b);
    }

    /** `removeBookmark`: deleting a pair that is not there fails. */
    method RemoveBookmark(userId: int, storyId: int) returns (r: Result<Bookmark>)
      requires Valid()
      modifies this
      ensures Valid()
      ensures Bookmark(userId, storyId) !in old(rows) ==> r == Err(MissingRecord) && rows == old(rows)
      ensures Bookmark(userId, storyId) in old(rows) ==> r == Ok(Bookmark(userId, storyId)) && rows == Delete(old(rows), Bookmark(userId, storyId))
    {
      var b := Bookmark(userId, storyId);
      if b !in rows {
        return Err(MissingRecord);
      }
      DeleteContents(rows, b);
      rows := Delete(rows, b);
      r := Ok(b);
    }

    method GetBookmarks(userId: int, page: int, limit: int) returns (r: Result<BookmarkPage>)
      requires limit >= 1
      ensures r == BookmarksPage(rows, userId, page, limit)
    {
      r := BookmarksPage(rows, userId, page, limit);
    }
  }

  /** Two `addBookmark` calls for the same pair leave one bookmark. */
  lemma AddTwiceStoresOnce(rows: seq<Bookmark>, b: Bookmark)
    requires UniquePairs(rows)
    ensures multiset(Add(Add(rows, b), b))[b] == 1
  {
    AddIdempotent(rows, b);
    AddContents(rows, b);
    CountOnce(Add(rows, b), b);
  }
}
