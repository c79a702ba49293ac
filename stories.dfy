/**
 * The story table of `StoriesService`: lookups by id and by slug, listings
 * with page metadata, text search, and the author-only update and removal.
 */
module Stories {
  import opened Common
  import opened Seqs
  import opened Text

  /** A story row; `status` None is the value the database fills in. */
  datatype Story = Story(
    id: int,
    title: string,
    description: string,
    coverImage: Option<string>,
    status: Option<string>,
    genreId: int,
    authorId: int,
    updatedAt: int)

  /** The fields of a create request. */
  datatype StoryInput = StoryInput(
    title: string,
    description: string,
    coverImage: Option<string>,
    status: Option<string>,
    genreId: int)

  /** The fields of an update request; None leaves the field as it is. */
  datatype StoryChanges = StoryChanges(
    title: Option<string>,
    description: Option<string>,
    coverImage: Option<string>,
    status: Option<string>,
    genreId: Option<int>)

  /** Ids are unique and below the next id the database will hand out. */
  predicate IdsBelow(rows: seq<Story>, nextId: int) {
    (forall i :: 0 <= i < |rows| ==> rows[i].id < nextId) &&
    (forall i, j :: 0 <= i < j < |rows| ==> rows[i].id != rows[j].id)
  }

  function FindStory(rows: seq<Story>, id: int): Option<Story> {
    Find(rows, (s: Story) => s.id == id)
  }

  function NoStoryWithId(id: int): string { "Không tìm thấy truyện với ID " + IntToString(id) }
  function NoStoryWithSlug(slug: string): string { "Không tìm thấy truyện với slug: " + slug }
  const NotYoursToEdit := "Bạn không có quyền sửa truyện này"
  const NotYoursToRemove := "Bạn không có quyền xóa truyện này"

  /** `contains` with `mode: 'insensitive'`: `sub` occurs in `s` once both
      are lower-cased. */
  predicate ILike(s: string, sub: string) {
    Contains(Lower(s), Lower(sub))
  }

  /** The title `findBySlug` searches for: every '-' of the slug a space. */
  function SlugTitle(slug: string): (t: string)
    ensures |t| == |slug| && '-' !in t
    ensures forall i :: 0 <= i < |slug| ==> t[i] == (if slug[i] == '-' then ' ' else slug[i])
  {
    ReplaceChar(slug, '-', ' ')
  }

  /** The first row, in table order, whose title contains `t`. */
  function FirstTitleMatch(rows: seq<Story>, t: string): (r: Option<Story>)
    ensures r.Some? ==> r.value in rows && ILike(r.value.title, t)
    ensures r.None? ==> forall i :: 0 <= i < |rows| ==> !ILike(rows[i].title, t)
  {
    if rows == [] then None
    else if ILike(rows[0].title, t) then Some(rows[0])
    else FirstTitleMatch(rows[1..], t)
  }

  /** `findBySlug`: the first story whose title contains the slug with
      dashes read as spaces, ignoring case. */
  function FindBySlug(rows: seq<Story>, slug: string): (r: Result<Story>)
    ensures r.Ok? ==> r.value in rows && ILike(r.value.title, SlugTitle(slug))
    ensures r.Err? <==> forall i :: 0 <= i < |rows| ==> !ILike(rows[i].title, SlugTitle(slug))
    ensures r.Err? ==> r.error == NotFound(NoStoryWithSlug(slug))
  {
    var found := FirstTitleMatch(rows, SlugTitle(slug));
    if found.None? then Err(NotFound(NoStoryWithSlug(slug))) else Ok(found.value)
  }

  /** An empty slug matches every title, so it finds the first story. */
  lemma EmptySlugFindsFirst(rows: seq<Story>)
    requires rows != []
    ensures FindBySlug(rows, "") == Ok(rows[0])
  {
    assert OccursAt(Lower(rows[0].title), Lower(SlugTitle("")), 0);
  }

  /** `orderBy: { updatedAt: 'desc' }`: a story goes after a staler one. */
  predicate Staler(a: Story, b: Story) { a.updatedAt < b.updatedAt }

  function UpdatedAt(s: Story): int { s.updatedAt }

  /** The reply's `meta`; `query` is echoed by `search` only, and absent
      (None) from the other listings. */
  datatype Meta = Meta(currentPage: int, perPage: int, total: nat, totalPages: nat, query: Option<string>)

  datatype Listing = Listing(data: seq<Story>, meta: Meta)

  /** One page of `listed`, most recently updated first, with metadata
      reporting `total` items. */
  function ListPage(listed: seq<Story>, total: nat, page: int, limit: int): (r: Result<Listing>)
    requires limit >= 1
    ensures r.Err? <==> page < 1
    ensures r.Err? ==> r.error == InvalidQuery
    ensures r.Ok? ==> |r.value.data| <= limit
    ensures r.Ok? ==> PageOf(SortWith(listed, Staler), page, limit) == Ok(r.value.data)
    ensures r.Ok? ==> r.value.meta == Meta(page, limit, total, CeilDiv(total, limit), None)
  {
    var data := PageOf(SortWith(listed, Staler), page, limit);
    if data.Err? then Err(data.error) else Ok(Listing(data.value, Meta(page, limit, total, CeilDiv(total, limit), None)))
  }

  /** Every story on a page is one of the listed stories, and the page is
      most recently updated first. */
  lemma ListPageSound(listed: seq<Story>, total: nat, page: int, limit: int)
    requires limit >= 1
    ensures ListPage(listed, total, page, limit).Ok? ==>
      var data := ListPage(listed, total, page, limit).value.data;
      (forall s :: s in data ==> s in listed) && NonIncreasing(data, UpdatedAt)
  {
    var r := ListPage(listed, total, page, limit);
    if r.Ok? {
      var sorted, data := SortWith(listed, Staler), r.value.data;
      SortDescNonIncreasing(listed, Staler, UpdatedAt);
      forall s | s in data ensures s in listed {
        var i :| 0 <= i < |data| && data[i] == s;
        assert sorted[(page - 1) * limit + i] == s;
        assert s in multiset(sorted);
      }
      forall i, j | 0 <= i < j < |data| ensures data[i].updatedAt >= data[j].updatedAt {
        assert data[i] == sorted[(page - 1) * limit + i] && data[j] == sorted[(page - 1) * limit + j];
      }
    }
  }

  /** `findAll`: every story, with the count of all stories. */
  function FindAll(rows: seq<Story>, page: int, limit: int): Result<Listing>
    requires limit >= 1
  {
    ListPage(rows, |rows|, page, limit)
  }

  function InGenre(rows: seq<Story>, genreId: int): seq<Story> {
    Filter(rows, (s: Story) => s.genreId == genreId)
  }

  /** `findByGenre`: the genre's stories, with their count. */
  function FindByGenre(rows: seq<Story>, genreId: int, page: int, limit: int): Result<Listing>
    requires limit >= 1
  {
    ListPage(InGenre(rows, genreId), |InGenre(rows, genreId)|, page, limit)
  }

  /** The listing metadata: the page is echoed, `per_page` is the limit, and
      `total_pages` is the fewest pages of `limit` holding `total`. */
  lemma ListingMeta(listed: seq<Story>, total: nat, page: int, limit: int)
    requires limit >= 1 && page >= 1
    ensures ListPage(listed, total, page, limit).Ok?
    ensures var m := ListPage(listed, total, page, limit).value.meta;
      m.currentPage == page && m.perPage == limit && m.total == total &&
      m.totalPages * limit >= total && (m.totalPages == 0 || (m.totalPages - 1) * limit < total)
  {
  }

  /** `findAll` counts every story; `findByGenre` lists only the genre's
      stories and counts exactly those. */
  lemma ListingsSound(rows: seq<Story>, genreId: int, page: int, limit: int)
    requires limit >= 1
    ensures FindAll(rows, page, limit).Ok? ==> FindAll(rows, page, limit).value.meta.total == |rows|
    ensures FindAll(rows, page, limit).Ok? ==> FindAll(rows, page, limit).value.meta.query.None?
    ensures FindByGenre(rows, genreId, page, limit).Ok? ==> FindByGenre(rows, genreId, page, limit).value.meta.query.None?
    ensures FindByGenre(rows, genreId, page, limit).Ok? ==>
      var r := FindByGenre(rows, genreId, page, limit).value;
      r.meta.total == |Filter(rows, (s: Story) => s.genreId == genreId)| &&
      forall s :: s in r.data ==> s in rows && s.genreId == genreId
  {
    ListPageSound(InGenre(rows, genreId), |InGenre(rows, genreId)|, page, limit);
  }

  /** What the search listing looks at: title, description or the author's
      user name. */
  predicate MatchesText(s: Story, query: string) {
    ILike(s.title, query) || ILike(s.description, query)
  }

  predicate MatchesAuthor(s: Story, usernames: map<int, string>, query: string) {
    s.authorId in usernames && ILike(usernames[s.authorId], query)
  }

  /** `search`: stories matching the query in title, description or author
      name; `total` counts title and description matches only. */
  function Search(rows: seq<Story>, usernames: map<int, string>, query: string, page: int, limit: int): Result<Listing>
    requires limit >= 1
  {
    var listed := Filter(rows, (s: Story) => MatchesText(s, query) || MatchesAuthor(s, usernames, query));
    var counted := Filter(rows, (s: Story) => MatchesText(s, query));
    var r := ListPage(listed, |counted|, page, limit);
    if r.Err? then r else Ok(r.value.(meta := r.value.meta.(query := Some(query))))
  }

  /** Every story a search lists matches the query somewhere, the count
      never exceeds what could be listed, and the reply echoes the query. */
  lemma SearchSound(rows: seq<Story>, usernames: map<int, string>, query: string, page: int, limit: int)
    requires limit >= 1
    ensures Search(rows, usernames, query, page, limit).Ok? ==>
      var r := Search(rows, usernames, query, page, limit).value;
      (forall s :: s in r.data ==> s in rows && (MatchesText(s, query) || MatchesAuthor(s, usernames, query))) &&
      r.meta.total <= |Filter(rows, (s: Story) => MatchesText(s, query) || MatchesAuthor(s, usernames, query))| &&
      r.meta.query == Some(query)
  {
    var p := (s: Story) => MatchesText(s, query) || MatchesAuthor(s, usernames, query);
    var q := (s: Story) => MatchesText(s, query);
    ListPageSound(Filter(rows, p), |Filter(rows, q)|, page, limit);
    FilterSubCount(rows, q, p);
  }

  /** Filtering with a weaker predicate keeps at least as many rows. */
  lemma {:induction false} FilterSubCount(rows: seq<Story>, q: Story -> bool, p: Story -> bool)
    requires forall s :: q(s) ==> p(s)
    ensures |Filter(rows, q)| <= |Filter(rows, p)|
  {
    if rows != [] {
      FilterSubCount(rows[1..], q, p);
    }
  }

  /** A story found only through its author's name is listed but not
      counted: the page shows it while `total` and `total_pages` are 0. */
  lemma SearchCountsTextOnly(s: Story, usernames: map<int, string>, query: string, limit: int)
    requires limit >= 1
    requires !MatchesText(s, query) && MatchesAuthor(s, usernames, query)
    ensures Search([s], usernames, query, 1, limit) == Ok(Listing([s], Meta(1, limit, 0, 0, Some(query))))
  {
    var p := (t: Story) => MatchesText(t, query) || MatchesAuthor(t, usernames, query);
    var q := (t: Story) => MatchesText(t, query);
    assert Filter([s], p) == [s];
    assert Filter([s], q) == [];
  }

  /** Such a story exists: title "A", description "B", author "kim", query "kim". */
  lemma SearchCountsTextOnlyExample()
    ensures !MatchesText(Story(1, "A", "B", None, None, 1, 5, 0), "kim")
    ensures MatchesAuthor(Story(1, "A", "B", None, None, 1, 5, 0), map[5 := "kim"], "kim")
  {
    var kim := Lower("kim");
    assert kim == "kim";
    assert OccursAt(Lower("kim"), kim, 0);
  }

  /** The row after `update`: the supplied fields replaced, the others kept,
      and the update instant stamped. */
  function Apply(s: Story, changes: StoryChanges, now: int): (t: Story)
    ensures t.id == s.id && t.authorId == s.authorId && t.updatedAt == now
    ensures t.title == (if changes.title.Some? then changes.title.value else s.title)
    ensures t.description == (if changes.description.Some? then changes.description.value else s.description)
    ensures t.coverImage == (if changes.coverImage.Some? then changes.coverImage else s.coverImage)
    ensures t.status == (if changes.status.Some? then changes.status else s.status)
    ensures t.genreId == (if changes.genreId.Some? then changes.genreId.value else s.genreId)
  {
    Story(
      s.id,
      if changes.title.Some? then changes.title.value else s.title,
      if changes.description.Some? then changes.description.value else s.description,
      if changes.coverImage.Some? then changes.coverImage else s.coverImage,
      if changes.status.Some? then changes.status else s.status,
      if changes.genreId.Some? then changes.genreId.value else s.genreId,
      s.authorId,
      now)
  }

  /** An update that supplies nothing only stamps the update instant. */
  lemma ApplyNothing(s: Story, now: int)
    ensures Apply(s, StoryChanges(None, None, None, None, None), now) == s.(updatedAt := now)
  {
  }

  /** The table with the row of `t`'s id replaced by `t`. */
  function ReplaceRow(rows: seq<Story>, t: Story): (r: seq<Story>)
    ensures |r| == |rows|
    ensures forall i :: 0 <= i < |rows| ==> r[i] == if rows[i].id == t.id then t else rows[i]
  {
    if rows == [] then []
    else [if rows[0].id == t.id then t else rows[0]] + ReplaceRow(rows[1..], t)
  }

  /** The table after `delete({ where: { id } })`. */
  function DeleteRow(rows: seq<Story>, id: int): seq<Story> {
    Filter(rows, (s: Story) => s.id != id)
  }

  /** Replacing a row changes what a lookup of that id finds and nothing else. */
  lemma {:induction false} ReplaceRowEffect(rows: seq<Story>, t: Story, id: int)
    requires FindStory(rows, t.id).Some?
    ensures FindStory(ReplaceRow(rows, t), id) == if id == t.id then Some(t) else FindStory(rows, id)
  {
    if rows[0].id != id && rows[0].id != t.id {
      ReplaceRowEffect(rows[1..], t, id);
      assert ReplaceRow(rows, t)[1..] == ReplaceRow(rows[1..], t);
    } else if rows[0].id != id {
      ReplaceRowFrom(rows[1..], t, id);
      assert ReplaceRow(rows, t)[1..] == ReplaceRow(rows[1..], t);
    } else if rows[0].id != t.id {
      ReplaceRowFrom(rows[1..], t, id);
      assert ReplaceRow(rows, t)[1..] == ReplaceRow(rows[1..], t);
    }
  }

  lemma {:induction false} ReplaceRowFrom(rows: seq<Story>, t: Story, id: int)
    requires id != t.id
    ensures FindStory(ReplaceRow(rows, t), id) == FindStory(rows, id)
  {
    if rows != [] && rows[0].id != id {
      ReplaceRowFrom(rows[1..], t, id);
      assert ReplaceRow(rows, t)[1..] == ReplaceRow(rows[1..], t);
    }
  }

  /** Deleting removes exactly the story with that id. */
  lemma DeleteRowEffect(rows: seq<Story>, id: int)
    ensures forall s :: s in DeleteRow(rows, id) <==> s in rows && s.id != id
    ensures FindStory(DeleteRow(rows, id), id).None?
  {
  }

  lemma {:induction false} KeepIdsBelow(rows: seq<Story>, nextId: int, p: Story -> bool)
    requires IdsBelow(rows, nextId)
    ensures IdsBelow(Filter(rows, p), nextId)
  {
    if rows != [] {
      KeepIdsBelow(rows[1..], nextId, p);
      var rest := Filter(rows[1..], p);
      forall j | 0 <= j < |rest| ensures rest[j].id != rows[0].id {
        assert rest[j] in rows[1..];
      }
    }
  }

  class StoryService {
    var rows: seq<Story>
    var nextId: int

    predicate Valid()
      reads this
    {
      IdsBelow(rows, nextId)
    }

    constructor(initial: seq<Story>, next: int)
      requires IdsBelow(initial, next)
      ensures Valid() && rows == initial && nextId == next
    {
      rows := initial;
      nextId := next;
    }

    method FindOne(id: int) returns (r: Result<Story>)
      ensures FindStory(rows, id).None? ==> r == Err(NotFound(NoStoryWithId(id)))
      ensures FindStory(rows, id).Some? ==> r == Ok(FindStory(rows, id).value) && r.value.id == id
    {
      var found := FindStory(rows, id);
      if found.None? {
        return Err(NotFound(NoStoryWithId(id)));
      }
      r := Ok(found.value);
    }

    method FindBySlugQuery(slug: string) returns (r: Result<Story>)
      ensures r == FindBySlug(rows, slug)
    {
      r := FindBySlug(rows, slug);
    }

    /** `create`: the request's fields and the given author, under a fresh id. */
    method Create(input: StoryInput, authorId: int, now: int) returns (s: Story)
      requires Valid()
      modifies this
      ensures Valid()
      ensures s == Story(old(nextId), input.title, input.description, input.coverImage, input.status, input.genreId, authorId, now)
      ensures rows == old(rows) + [s] && nextId == old(nextId) + 1
    {
      s := Story(nextId, input.title, input.description, input.coverImage, input.status, input.genreId, authorId, now);
      rows := rows + [s];
      nextId := nextId + 1;
    }

    /** `update`: a missing story and a story of another author both end in
        NotFound with nothing changed; otherwise only that story changes. */
    method Update(id: int, changes: StoryChanges, authorId: int, now: int) returns (r: Result<Story>)
      requires Valid()
      modifies this
      ensures Valid() && nextId == old(nextId)
      ensures FindStory(old(rows), id).None? ==> r == Err(NotFound(NoStoryWithId(id))) && rows == old(rows)
      ensures FindStory(old(rows), id).Some? && FindStory(old(rows), id).value.authorId != authorId ==>
        r == Err(NotFound(NotYoursToEdit)) && rows == old(rows)
      ensures FindStory(old(rows), id).Some? && FindStory(old(rows), id).value.authorId == authorId ==>
        r == Ok(Apply(FindStory(old(rows), id).value, changes, now)) && rows == ReplaceRow(old(rows), r.value)
    {
      var found := FindStory(rows, id);
      if found.None? {
        return Err(NotFound(NoStoryWithId(id)));
      }
      if found.value.authorId != authorId {
        return Err(NotFound(NotYoursToEdit));
      }
      var t := Apply(found.value, changes, now);
      rows := ReplaceRow(rows, t);
      r := Ok(t);
    }

    /** `remove`: the same two checks, then the story is deleted. */
    method Remove(id: int, authorId: int) returns (r: Result<Story>)
      requires Valid()
      modifies this
      ensures Valid() && nextId == old(nextId)
      ensures FindStory(old(rows), id).None? ==> r == Err(NotFound(NoStoryWithId(id))) && rows == old(rows)
      ensures FindStory(old(rows), id).Some? && FindStory(old(rows), id).value.authorId != authorId ==>
        r == Err(NotFound(NotYoursToRemove)) && rows == old(rows)
      ensures FindStory(old(rows), id).Some? && FindStory(old(rows), id).value.authorId == authorId ==>
        r == Ok(FindStory(old(rows), id).value) && rows == DeleteRow(old(rows), id)
    {
      var found := FindStory(rows, id);
      if found.None? {
        return Err(NotFound(NoStoryWithId(id)));
      }
      if found.value.authorId != authorId {
        return Err(NotFound(NotYoursToRemove));
      }
      KeepIdsBelow(rows, nextId, (s: Story) => s.id != id);
      rows := DeleteRow(rows, id);
      r := Ok(found.value);
    }

    method FindAllStories(page: int, limit: int) returns (r: Result<Listing>)
      requires limit >= 1
      ensures r == FindAll(rows, page, limit)
    {
      r := FindAll(rows, page, limit);
    }

    method SearchStories(usernames: map<int, string>, query: string, page: int, limit: int) returns (r: Result<Listing>)
      requires limit >= 1
      ensures r == Search(rows, usernames, query, page, limit)
    {
      r := Search(rows, usernames, query, page, limit);
    }

    method FindStoriesByGenre(genreId: int, page: int, limit: int) returns (r: Result<Listing>)
      requires limit >= 1
      ensures r == FindByGenre(rows, genreId, page, limit)
    {
      r := FindByGenre(rows, genreId, page, limit);
    }
  }
}
