/**
 * The reading-progress table of `ReadProgressService`
 * (backend/src/read-progress/read-progress.service.ts): one row per
 * (user, story), upserted whenever a reader reports a chapter, and the
 * "chapters read" number meant for popup-ad triggering.
 */
module ReadProgress {
  import opened Common
  import opened Seqs

  /** What the chapter table says about a chapter: its story and its
      number within that story. */
  datatype Chapter = Chapter(storyId: int, number: int)

  /** The chapter table, by chapter id. */
  type Catalog = map<int, Chapter>

  /** One progress row; `progress` is a percentage, `updatedAt` an instant. */
  datatype Progress = Progress(userId: int, storyId: int, chapterId: int, progress: real, updatedAt: int)

  predicate HasKey(p: Progress, userId: int, storyId: int) {
    p.userId == userId && p.storyId == storyId
  }

  /** The `userId_storyId` unique constraint: no two rows share a key. */
  predicate UniqueKeys(rows: seq<Progress>) {
    forall i, j :: 0 <= i < j < |rows| ==>
      !HasKey(rows[j], rows[i].userId, rows[i].storyId)
  }

  /** The foreign key to the chapter table: each row's chapter exists. */
  predicate ChaptersExist(rows: seq<Progress>, catalog: Catalog) {
    forall i :: 0 <= i < |rows| ==> rows[i].chapterId in catalog
  }

  /** The number of rows holding the key. */
  function CountKey(rows: seq<Progress>, userId: int, storyId: int): nat {
    |Filter(rows, p => HasKey(p, userId, storyId))|
  }

  /** `findUnique({ where: { userId_storyId } })`. */
  function FindProgress(rows: seq<Progress>, userId: int, storyId: int): Option<Progress> {
    Find(rows, (p: Progress) => HasKey(p, userId, storyId))
  }

  /** "The chapter belongs to the story": the `findFirst` guard of
      `updateReadProgress`. */
  predicate ChapterInStory(catalog: Catalog, chapterId: int, storyId: int) {
    chapterId in catalog && catalog[chapterId].storyId == storyId
  }

  /** The table after `upsert`: the row with the record's key is replaced
      where it stands, or the record is added when there is none. */
  function Upsert(rows: seq<Progress>, rec: Progress): (r: seq<Progress>)
  {
    if rows == [] then [rec]
    else if HasKey(rows[0], rec.userId, rec.storyId) then [rec] + rows[1..]
    else [rows[0]] + Upsert(rows[1..], rec)
  }

  /** The table after `delete({ where: { userId_storyId } })`. */
  function Remove(rows: seq<Progress>, userId: int, storyId: int): (r: seq<Progress>)
  {
    Filter(rows, p => !HasKey(p, userId, storyId))
  }

  lemma {:induction false} UpsertElements(rows: seq<Progress>, rec: Progress)
    ensures forall p :: p in Upsert(rows, rec) ==> p == rec || p in rows
    ensures rec in Upsert(rows, rec)
  {
    if rows != [] && !HasKey(rows[0], rec.userId, rec.storyId) {
      UpsertElements(rows[1..], rec);
    }
  }

  /** An upsert keeps the table free of duplicate keys. */
  lemma {:induction false} UpsertKeepsKeysUnique(rows: seq<Progress>, rec: Progress)
    requires UniqueKeys(rows)
    ensures UniqueKeys(Upsert(rows, rec))
  {
    if rows != [] && !HasKey(rows[0], rec.userId, rec.storyId) {
      UpsertKeepsKeysUnique(rows[1..], rec);
      UpsertElements(rows[1..], rec);
      var r := Upsert(rows, rec);
      forall j | 1 <= j < |r| ensures !HasKey(r[j], rows[0].userId, rows[0].storyId) {
        assert r[j] in Upsert(rows[1..], rec);
        if r[j] != rec {
          var k :| 0 <= k < |rows[1..]| && rows[1..][k] == r[j];
          assert rows[k + 1] == r[j];
        }
      }
    } else if rows != [] {
      var r := Upsert(rows, rec);
      forall i, j | 0 <= i < j < |r| ensures !HasKey(r[j], r[i].userId, r[i].storyId) {
        assert r[j] == rows[j];
        if i > 0 { assert r[i] == rows[i]; }
      }
    }
  }

  /** After an upsert the key has exactly one row, and it is the record. */
  lemma {:induction false} UpsertExactlyOne(rows: seq<Progress>, rec: Progress)
    requires UniqueKeys(rows)
    ensures CountKey(Upsert(rows, rec), rec.userId, rec.storyId) == 1
    ensures FindProgress(Upsert(rows, rec), rec.userId, rec.storyId) == Some(rec)
  {
    var key := (p: Progress) => HasKey(p, rec.userId, rec.storyId);
    if rows == [] {
    } else if HasKey(rows[0], rec.userId, rec.storyId) {
      assert Upsert(rows, rec) == [rec] + rows[1..];
      assert Filter(rows[1..], key) == [] by {
        forall p | p in rows[1..] ensures !key(p) {
          var k :| 0 <= k < |rows[1..]| && rows[1..][k] == p;
          assert rows[k + 1] == p;
        }
        if Filter(rows[1..], key) != [] {
          assert Filter(rows[1..], key)[0] in Filter(rows[1..], key);
        }
      }
      assert Upsert(rows, rec)[1..] == rows[1..];
    } else {
      UpsertExactlyOne(rows[1..], rec);
      assert Upsert(rows, rec)[1..] == Upsert(rows[1..], rec);
    }
  }

  /** An upsert leaves every other key's row as it was. */
  lemma {:induction false} UpsertLeavesOthers(rows: seq<Progress>, rec: Progress, userId: int, storyId: int)
    requires !(userId == rec.userId && storyId == rec.storyId)
    ensures FindProgress(Upsert(rows, rec), userId, storyId) == FindProgress(rows, userId, storyId)
  {
    if rows != [] && !HasKey(rows[0], rec.userId, rec.storyId) {
      UpsertLeavesOthers(rows[1..], rec, userId, storyId);
      assert Upsert(rows, rec)[1..] == Upsert(rows[1..], rec);
    } else if rows != [] {
      assert Upsert(rows, rec)[1..] == rows[1..];
    }
  }

  /** The pointer is overwritten whatever it was: a reader can move back to
      an earlier chapter, and the record then points at that chapter. */
  lemma RewindAllowed(rows: seq<Progress>, later: Progress, earlier: Progress)
    requires UniqueKeys(rows)
    requires HasKey(earlier, later.userId, later.storyId)
    ensures FindProgress(Upsert(Upsert(rows, later), earlier), later.userId, later.storyId) == Some(earlier)
  {
    UpsertKeepsKeysUnique(rows, later);
    UpsertExactlyOne(Upsert(rows, later), earlier);
  }

  /** After a delete the key has no row; other keys keep theirs. */
  lemma {:induction false} RemoveEffect(rows: seq<Progress>, userId: int, storyId: int, u: int, s: int)
    ensures FindProgress(Remove(rows, userId, storyId), userId, storyId).None?
    ensures !(u == userId && s == storyId) ==> FindProgress(Remove(rows, userId, storyId), u, s) == FindProgress(rows, u, s)
  {
    var keep := (p: Progress) => !HasKey(p, userId, storyId);
    if rows != [] {
      RemoveEffect(rows[1..], userId, storyId, u, s);
      assert Remove(rows, userId, storyId) ==
        (if keep(rows[0]) then [rows[0]] + Remove(rows[1..], userId, storyId) else Remove(rows[1..], userId, storyId));
    }
  }

  lemma {:induction false} SubsequenceKeysUnique(rows: seq<Progress>, p: Progress -> bool)
    requires UniqueKeys(rows)
    ensures UniqueKeys(Filter(rows, p))
  {
    if rows != [] {
      SubsequenceKeysUnique(rows[1..], p);
      var rest := Filter(rows[1..], p);
      if p(rows[0]) {
        var r := [rows[0]] + rest;
        forall j | 1 <= j < |r| ensures !HasKey(r[j], rows[0].userId, rows[0].storyId) {
          assert r[j] in rest;
          var k :| 0 <= k < |rows[1..]| && rows[1..][k] == r[j];
          assert rows[k + 1] == r[j];
        }
      }
    }
  }

  /** `getChaptersReadCount`: the number of the chapter recorded for the
      reader in that story, or 0 when there is no record. */
  function ChaptersReadCount(rows: seq<Progress>, catalog: Catalog, userId: int, storyId: int): (n: int)
    requires ChaptersExist(rows, catalog)
    ensures FindProgress(rows, userId, storyId).None? ==> n == 0
    ensures FindProgress(rows, userId, storyId).Some? ==> n == catalog[FindProgress(rows, userId, storyId).value.chapterId].number
  {
    match FindProgress(rows, userId, storyId)
    case None => 0
    case Some(p) =>
      assert p in rows;
      catalog[p.chapterId].number
  }

  /** The `where` of `getUserReadProgress`: the user's rows, narrowed to one
      story only when the story id is truthy (so 0 means "all stories"). */
  predicate InUserView(p: Progress, userId: int, storyId: Option<int>) {
    p.userId == userId && (storyId.None? || storyId.value == 0 || p.storyId == storyId.value)
  }

  /** `orderBy: { updatedAt: 'desc' }`. */
  predicate NewerFirst(a: Progress, b: Progress) { a.updatedAt < b.updatedAt }

  function UpdatedAt(p: Progress): int { p.updatedAt }

  function UserProgress(rows: seq<Progress>, userId: int, storyId: Option<int>): seq<Progress> {
    SortWith(Filter(rows, p => InUserView(p, userId, storyId)), NewerFirst)
  }

  /** `getUserReadProgress` returns exactly the user's rows (of the story,
      when one is given), each once, newest first. */
  lemma UserProgressSpec(rows: seq<Progress>, userId: int, storyId: Option<int>)
    ensures forall p :: p in UserProgress(rows, userId, storyId) <==> p in rows && InUserView(p, userId, storyId)
    ensures multiset(UserProgress(rows, userId, storyId)) <= multiset(rows)
    ensures NonIncreasing(UserProgress(rows, userId, storyId), UpdatedAt)
    ensures UserProgress(rows, userId, Some(0)) == UserProgress(rows, userId, None)
  {
    var kept := Filter(rows, p => InUserView(p, userId, storyId));
    assert multiset(UserProgress(rows, userId, storyId)) == multiset(kept);
    forall p ensures p in UserProgress(rows, userId, storyId) <==> p in kept {
      assert p in UserProgress(rows, userId, storyId) <==> p in multiset(UserProgress(rows, userId, storyId));
    }
    SortDescNonIncreasing(kept, NewerFirst, UpdatedAt);
    FilterExt(rows, p => InUserView(p, userId, Some(0)), p => InUserView(p, userId, None));
  }

  /** One page of `getReadingHistory`. */
  datatype History = History(items: seq<Progress>, page: int, limit: int, total: nat, totalPages: nat)

  /** The `count({ where: { userId } })` of `getReadingHistory`. */
  function UserRowCount(rows: seq<Progress>, userId: int): nat {
    |Filter(rows, (p: Progress) => p.userId == userId)|
  }

  /** `getReadingHistory`: the user's rows, newest first, page `page` of
      `limit` rows, with the count of all the user's rows. */
  function ReadingHistory(rows: seq<Progress>, userId: int, page: int, limit: int): (r: Result<History>)
    requires limit >= 1
    ensures r.Err? <==> page < 1
    ensures r.Ok? ==> |r.value.items| <= limit && r.value.page == page && r.value.limit == limit
    ensures r.Ok? ==> r.value.total == UserRowCount(rows, userId)
    ensures r.Ok? ==> r.value.totalPages == CeilDiv(r.value.total, limit)
    ensures r.Ok? ==> PageOf(UserProgress(rows, userId, None), page, limit) == Ok(r.value.items)
  {
    var items := PageOf(UserProgress(rows, userId, None), page, limit);
    var total := UserRowCount(rows, userId);
    if items.Err? then Err(items.error)
    else Ok(History(items.value, page, limit, total, CeilDiv(total, limit)))
  }

  /** Every row of a history page belongs to the user. */
  lemma ReadingHistoryOwnRows(rows: seq<Progress>, userId: int, page: int, limit: int)
    requires limit >= 1
    ensures ReadingHistory(rows, userId, page, limit).Ok? ==>
      forall p :: p in ReadingHistory(rows, userId, page, limit).value.items ==> p in rows && p.userId == userId
  {
    UserProgressSpec(rows, userId, None);
  }

  /** Two reports for the same reader and story, chapter 10 then chapter 12,
      leave exactly one record, pointing at chapter 12. */
  lemma TwoReportsOneRecord(rows: seq<Progress>, first: Progress, second: Progress)
    requires UniqueKeys(rows)
    requires first.userId == 7 && first.storyId == 3 && first.chapterId == 10
    requires second.userId == 7 && second.storyId == 3 && second.chapterId == 12
    ensures CountKey(Upsert(Upsert(rows, first), second), 7, 3) == 1
    ensures FindProgress(Upsert(Upsert(rows, first), second), 7, 3).Some?
    ensures FindProgress(Upsert(Upsert(rows, first), second), 7, 3).value.chapterId == 12
  {
    UpsertKeepsKeysUnique(rows, first);
    UpsertExactlyOne(Upsert(rows, first), second);
  }

  /** `ReadProgressService` over its table. */
  class ReadProgressService {
    var rows: seq<Progress>

    predicate Valid()
      reads this
    {
      UniqueKeys(rows)
    }

    constructor(initial: seq<Progress>)
      requires UniqueKeys(initial)
      ensures Valid() && rows == initial
    {
      rows := initial;
    }

    /** `updateReadProgress`; `now` is the request's clock. */
    method UpdateReadProgress(userId: int, storyId: int, chapterId: int, progress: real, catalog: Catalog, now: int)
      returns (r: Result<Progress>)
      requires Valid()
      modifies this
      ensures Valid()
      ensures !ChapterInStory(catalog, chapterId, storyId) ==>
                r == Err(NotFound("Chapter not found in this story")) && rows == old(rows)
      ensures ChapterInStory(catalog, chapterId, storyId) ==>
                r == Ok(Progress(userId, storyId, chapterId, progress, now))
                && rows == Upsert(old(rows), r.value)
      ensures ChaptersExist(old(rows), catalog) ==> ChaptersExist(rows, catalog)
    {
      if !ChapterInStory(catalog, chapterId, storyId) {
        return Err(NotFound("Chapter not found in this story"));
      }
      var rec := Progress(userId, storyId, chapterId, progress, now);
      UpsertKeepsKeysUnique(rows, rec);
      UpsertElements(rows, rec);
      ghost var before := rows;
      rows := Upsert(rows, rec);
      if ChaptersExist(before, catalog) {
        forall i | 0 <= i < |rows| ensures rows[i].chapterId in catalog {
          assert rows[i] in Upsert(before, rec);
          if rows[i] != rec {
            var k :| 0 <= k < |before| && before[k] == rows[i];
          }
        }
      }
      r := Ok(rec);
    }

    /** `getStoryReadProgress`. */
    method GetStoryReadProgress(userId: int, storyId: int) returns (r: Option<Progress>)
      ensures r == FindProgress(rows, userId, storyId)
      ensures r.Some? ==> r.value.userId == userId && r.value.storyId == storyId
    {
      r := FindProgress(rows, userId, storyId);
    }

    method DeleteReadProgress(userId: int, storyId: int) returns (r: Result<Progress>)
      requires Valid()
      modifies this
      ensures Valid()
      ensures FindProgress(old(rows), userId, storyId).None? ==>
                r == Err(NotFound("Read progress not found")) && rows == old(rows)
      ensures FindProgress(old(rows), userId, storyId).Some? ==>
                r == Ok(FindProgress(old(rows), userId, storyId).value) && rows == Remove(old(rows), userId, storyId)
    {
      var found := FindProgress(rows, userId, storyId);
      if found.None? {
        return Err(NotFound("Read progress not found"));
      }
      SubsequenceKeysUnique(rows, p => !HasKey(p, userId, storyId));
      rows := Remove(rows, userId, storyId);
      r := Ok(found.value);
    }

    method GetUserReadProgress(userId: int, storyId: Option<int>) returns (r: seq<Progress>)
      ensures r == UserProgress(rows, userId, storyId)
      ensures forall p :: p in r ==> p.userId == userId
    {
      UserProgressSpec(rows, userId, storyId);
      r := SortWith(Filter(rows, p => InUserView(p, userId, storyId)), NewerFirst);
    }

    method GetReadingHistory(userId: int, page: int, limit: int) returns (r: Result<History>)
      requires limit >= 1
      ensures r == ReadingHistory(rows, userId, page, limit)
      ensures r.Ok? ==> |r.value.items| <= limit
    {
      r := ReadingHistory(rows, userId, page, limit);
    }

    method GetChaptersReadCount(userId: int, storyId: int, catalog: Catalog) returns (n: int)
      requires ChaptersExist(rows, catalog)
      ensures n == ChaptersReadCount(rows, catalog, userId, storyId)
      ensures FindProgress(rows, userId, storyId).None? ==> n == 0
    {
      var found := FindProgress(rows, userId, storyId);
      if found.None? {
        return 0;
      }
      n := catalog[found.value.chapterId].number;
    }
  }
}
