/**
 * The comment table of `CommentsService`: comments on stories or chapters,
 * replies pointing at their parent, and the rule that only a comment's
 * author may edit or delete it.
 */
module Comments {
  import opened Common
  import opened Seqs

  datatype Comment = Comment(
    id: int,
    content: string,
    userId: int,
    storyId: Option<int>,
    chapterId: Option<int>,
    parentId: Option<int>,
    createdAt: int)

  /** Ids are unique and below the next id the database will hand out. */
  predicate IdsBelow(rows: seq<Comment>, nextId: int) {
    (forall i :: 0 <= i < |rows| ==> rows[i].id < nextId) &&
    (forall i, j :: 0 <= i < j < |rows| ==> rows[i].id != rows[j].id)
  }

  /** `findUnique({ where: { id } })`. */
  function FindComment(rows: seq<Comment>, id: int): Option<Comment> {
    Find(rows, (c: Comment) => c.id == id)
  }

  /** The guard `comment?.userId !== userId` lets the request through: the
      comment exists and belongs to the user. */
  predicate OwnedBy(rows: seq<Comment>, id: int, userId: int) {
    FindComment(rows, id).Some? && FindComment(rows, id).value.userId == userId
  }

  const EditForbidden := "You can only edit your own comments."
  const DeleteForbidden := "You can only delete your own comments."

  /** The table after `update({ where: { id }, data: { content } })`. */
  function SetContent(rows: seq<Comment>, id: int, content: string): (r: seq<Comment>)
    ensures |r| == |rows|
    ensures forall i :: 0 <= i < |rows| ==> r[i] == if rows[i].id == id then rows[i].(content := content) else rows[i]
  {
    if rows == [] then []
    else [if rows[0].id == id then rows[0].(content := content) else rows[0]] + SetContent(rows[1..], id, content)
  }

  /** The table after `delete({ where: { id } })`. */
  function DeleteId(rows: seq<Comment>, id: int): seq<Comment> {
    Filter(rows, (c: Comment) => c.id != id)
  }

  /** Editing gives that comment the new text and nothing else: every other
      comment, and every other field, is as it was. */
  lemma SetContentEffect(rows: seq<Comment>, id: int, content: string)
    requires FindComment(rows, id).Some?
    ensures FindComment(SetContent(rows, id, content), id) == Some(FindComment(rows, id).value.(content := content))
    ensures forall other :: other != id ==> FindComment(SetContent(rows, id, content), other) == FindComment(rows, other)
  {
    FindAfterSet(rows, id, content);
    forall other | other != id
      ensures FindComment(SetContent(rows, id, content), other) == FindComment(rows, other)
    {
      FindAfterSetOther(rows, id, content, other);
    }
  }

  lemma {:induction false} FindAfterSet(rows: seq<Comment>, id: int, content: string)
    requires FindComment(rows, id).Some?
    ensures FindComment(SetContent(rows, id, content), id) == Some(FindComment(rows, id).value.(content := content))
  {
    if rows[0].id != id {
      FindAfterSet(rows[1..], id, content);
      assert SetContent(rows, id, content)[1..] == SetContent(rows[1..], id, content);
    }
  }

  lemma {:induction false} FindAfterSetOther(rows: seq<Comment>, id: int, content: string, other: int)
    requires other != id
    ensures FindComment(SetContent(rows, id, content), other) == FindComment(rows, other)
  {
    if rows != [] && rows[0].id != other {
      FindAfterSetOther(rows[1..], id, content, other);
      assert SetContent(rows, id, content)[1..] == SetContent(rows[1..], id, content);
    }
  }

  /** Deleting removes exactly the comments with that id. */
  lemma DeleteIdEffect(rows: seq<Comment>, id: int)
    ensures forall c :: c in DeleteId(rows, id) <==> c in rows && c.id != id
    ensures FindComment(DeleteId(rows, id), id).None?
  {
  }

  /** A story's top-level comments: on that story, and not a reply. */
  predicate TopLevelOf(c: Comment, storyId: int) {
    c.storyId == Some(storyId) && c.parentId.None?
  }

  /** `orderBy: { createdAt: 'desc' }`: a comment goes after an older one. */
  predicate Older(a: Comment, b: Comment) { a.createdAt < b.createdAt }

  function CreatedAt(c: Comment): int { c.createdAt }

  /** A story's top-level comments, newest first. */
  function TopLevel(rows: seq<Comment>, storyId: int): seq<Comment> {
    SortWith(Filter(rows, (c: Comment) => TopLevelOf(c, storyId)), Older)
  }

  lemma TopLevelSpec(rows: seq<Comment>, storyId: int)
    ensures forall c :: c in TopLevel(rows, storyId) <==> c in rows && TopLevelOf(c, storyId)
    ensures NonIncreasing(TopLevel(rows, storyId), CreatedAt)
  {
    var kept := Filter(rows, (c: Comment) => TopLevelOf(c, storyId));
    forall c ensures c in TopLevel(rows, storyId) <==> c in kept {
      assert c in TopLevel(rows, storyId) <==> c in multiset(TopLevel(rows, storyId));
    }
    SortDescNonIncreasing(kept, Older, CreatedAt);
  }

  datatype CommentPage = CommentPage(data: seq<Comment>, totalPages: nat, currentPage: int)

  /** `getCommentsForStory`: page `page` of the story's top-level comments,
      newest first, with the page count over top-level comments only. */
  function CommentsPage(rows: seq<Comment>, storyId: int, page: int, limit: int): (r: Result<CommentPage>)
    requires limit >= 1
    ensures r.Err? <==> page < 1
    ensures r.Err? ==> r.error == InvalidQuery
    ensures r.Ok? ==> |r.value.data| <= limit && r.value.currentPage == page
    ensures r.Ok? ==> PageOf(TopLevel(rows, storyId), page, limit) == Ok(r.value.data)
    ensures r.Ok? ==> r.value.totalPages == CeilDiv(|Filter(rows, (c: Comment) => TopLevelOf(c, storyId))|, limit)
  {
    var top := TopLevel(rows, storyId);
    var data := PageOf(top, page, limit);
    if data.Err? then Err(data.error)
    else Ok(CommentPage(data.value, CeilDiv(|top|, limit), page))
  }

  /** Every comment on a page is a top-level comment of the story, and the
      page is newest first. */
  lemma CommentsPageSound(rows: seq<Comment>, storyId: int, page: int, limit: int)
    requires limit >= 1
    ensures CommentsPage(rows, storyId, page, limit).Ok? ==>
      var data := CommentsPage(rows, storyId, page, limit).value.data;
      (forall c :: c in data ==> c in rows && TopLevelOf(c, storyId)) && NonIncreasing(data, CreatedAt)
  {
    var r := CommentsPage(rows, storyId, page, limit);
    if r.Ok? {
      var top, data := TopLevel(rows, storyId), r.value.data;
      TopLevelSpec(rows, storyId);
      forall c | c in data ensures c in rows && TopLevelOf(c, storyId) {
        var i :| 0 <= i < |data| && data[i] == c;
        assert top[(page - 1) * limit + i] == c;
      }
      forall i, j | 0 <= i < j < |data| ensures data[i].createdAt >= data[j].createdAt {
        assert data[i] == top[(page - 1) * limit + i] && data[j] == top[(page - 1) * limit + j];
      }
    }
  }

  /** A reply is never listed, and replies do not add to the page count. */
  lemma RepliesNotCounted(rows: seq<Comment>, reply: Comment, storyId: int, page: int, limit: int)
    requires limit >= 1 && reply.parentId.Some?
    ensures CommentsPage(rows + [reply], storyId, page, limit) == CommentsPage(rows, storyId, page, limit)
  {
    var p := (c: Comment) => TopLevelOf(c, storyId);
    FilterAppend(rows, [reply], p);
    assert Filter(rows + [reply], p) == Filter(rows, p);
  }

  class CommentService {
    var rows: seq<Comment>
    var nextId: int

    predicate Valid()
      reads this
    {
      IdsBelow(rows, nextId)
    }

    constructor(initial: seq<Comment>, next: int)
      requires IdsBelow(initial, next)
      ensures Valid() && rows == initial && nextId == next
    {
      rows := initial;
      nextId := next;
    }

    /** `createComment`: the new comment carries exactly the given author,
        text and targets, the next id and the creation instant `now`. */
    method CreateComment(userId: int, content: string, storyId: Option<int>, chapterId: Option<int>,
                         parentId: Option<int>, now: int) returns (c: Comment)
      requires Valid()
      modifies this
      ensures Valid()
      ensures c == Comment(old(nextId), content, userId, storyId, chapterId, parentId, now)
      ensures rows == old(rows) + [c] && nextId == old(nextId) + 1
    {
      c := Comment(nextId, content, userId, storyId, chapterId, parentId, now);
      rows := rows + [c];
      nextId := nextId + 1;
    }

    method GetCommentsForStory(storyId: int, page: int, limit: int) returns (r: Result<CommentPage>)
      requires limit >= 1
      ensures r == CommentsPage(rows, storyId, page, limit)
    {
      r := CommentsPage(rows, storyId, page, limit);
    }

    /** `updateComment`: anyone but the author, and any id without a comment,
        gets Forbidden and the table is unchanged. */
    method UpdateComment(userId: int, commentId: int, content: string) returns (r: Result<Comment>)
      requires Valid()
      modifies this
      ensures Valid() && nextId == old(nextId)
      ensures !OwnedBy(old(rows), commentId, userId) ==> r == Err(Forbidden(EditForbidden)) && rows == old(rows)
      ensures OwnedBy(old(rows), commentId, userId) ==>
        r == Ok(FindComment(old(rows), commentId).value.(content := content)) &&
        rows == SetContent(old(rows), commentId, content)
    {
      var found := FindComment(rows, commentId);
      if found.None? || found.value.userId != userId {
        return Err(Forbidden(EditForbidden));
      }
      rows := SetContent(rows, commentId, content);
      r := Ok(found.value.(content := content));
    }

    /** `deleteComment`: the same owner rule, then the comment is removed. */
    method DeleteComment(userId: int, commentId: int) returns (r: Result<Comment>)
      requires Valid()
      modifies this
      ensures Valid() && nextId == old(nextId)
      ensures !OwnedBy(old(rows), commentId, userId) ==> r == Err(Forbidden(DeleteForbidden)) && rows == old(rows)
      ensures OwnedBy(old(rows), commentId, userId) ==>
        r == Ok(FindComment(old(rows), commentId).value) && rows == DeleteId(old(rows), commentId)
    {
      var found := FindComment(rows, commentId);
      if found.None? || found.value.userId != userId {
        return Err(Forbidden(DeleteForbidden));
      }
      KeepIdsBelow(rows, nextId, (c: Comment) => c.id != commentId);
      rows := DeleteId(rows, commentId);
      r := Ok(found.value);
    }
  }

  /** Removing comments keeps ids unique and below the next id. */
  lemma {:induction false} KeepIdsBelow(rows: seq<Comment>, nextId: int, p: Comment -> bool)
    requires IdsBelow(rows, nextId)
    ensures IdsBelow(Filter(rows, p), nextId)
  {
    if rows != [] {
      KeepIdsBelow(rows[1..], nextId, p);
      var rest := Filter(rows[1..], p);
      forall j | 0 <= j < |rest| ensures rest[j].id != rows[0].id {
        assert rest[j] in rows[1..];
      }
    }
  }
}
