/** The engagement routes: comment creation on a post or as a reply, the
    assembled comment listing, the replies listing with its defaults, and the
    comment delete that dispatches on the caller's admin flag. Likes and
    unlikes are passed through unchanged to `Store.Db.LikePost` and
    `Store.Db.UnlikePost`. */
module Engagement {
  import opened Results
  import opened Records
  import opened Listing
  import opened Comments
  import opened Integrity
  import opened Store

  /** The longest comment text the request schema accepts. */
  const MaxCommentLength: nat := 1000

  /** One entry of the comment listing: a top-level comment and its replies. */
  datatype CommentOut = CommentOut(comment: Comment, replies: seq<Comment>)

  /** `replies_by_parent.get(id, [])`. */
  function RepliesOrEmpty(groups: map<Option<int>, seq<Comment>>, id: int): seq<Comment>
  {
    if Some(id) in groups then groups[Some(id)] else []
  }

  /** The listing entry of a top-level comment. */
  function Entry(groups: map<Option<int>, seq<Comment>>, c: Comment): CommentOut
  {
    CommentOut(c, RepliesOrEmpty(groups, c.id))
  }

  /** `create_new_comment`: always a top-level comment on the route's post. */
  method CreateNewComment(db: Db, postId: int, userId: int, content: string, now: int) returns (r: Result<Comment>)
    requires db.Valid() && |content| <= MaxCommentLength
    modifies db`comments, db`nextCommentId, db`posts, db`notifications, db`nextNotificationId
    ensures db.Valid()
    ensures PostIndex(old(db.posts), postId).None? ==> r == Err(NotFound("Post not found")) && unchanged(db)
    ensures r.Ok? <==> PostIndex(old(db.posts), postId).Some?
    ensures r.Ok? ==>
              var i := PostIndex(old(db.posts), postId).value;
              && r.value == Comment(old(db.nextCommentId), userId, postId, None, content, now)
              && db.comments == old(db.comments) + [r.value]
              && db.posts == WithCommentDelta(old(db.posts), i, 1)
              && db.notifications == old(db.notifications) + CommentNotices(old(db.nextNotificationId), old(db.posts)[i].ownerId, None, r.value)
  {
    r := db.CreateComment(postId, userId, content, None, now);
  }

  /** `reply_to_comment`: the parent is looked up first, and the reply goes
      to the parent's post, whatever post the parent itself replies under. */
  method ReplyToComment(db: Db, commentId: int, userId: int, content: string, now: int) returns (r: Result<Comment>)
    requires db.Valid() && |content| <= MaxCommentLength
    modifies db`comments, db`nextCommentId, db`posts, db`notifications, db`nextNotificationId
    ensures db.Valid()
    ensures FirstIndex(old(db.comments), CommentWithId(commentId)).None? ==>
              r == Err(NotFound("Parent comment not found")) && unchanged(db)
    ensures FirstIndex(old(db.comments), CommentWithId(commentId)).Some? ==>
              var parent := old(db.comments)[FirstIndex(old(db.comments), CommentWithId(commentId)).value];
              && (r.Ok? <==> PostIndex(old(db.posts), parent.postId).Some?)
              && (r.Err? ==> r == Err(NotFound("Post not found")) && unchanged(db))
              && (r.Ok? ==>
                    && r.value == Comment(old(db.nextCommentId), userId, parent.postId, Some(commentId), content, now)
                    && db.comments == old(db.comments) + [r.value]
                    && db.posts == old(db.posts)
                    && db.notifications == old(db.notifications)
                         + CommentNotices(old(db.nextNotificationId), old(db.posts)[PostIndex(old(db.posts), parent.postId).value].ownerId,
                                          Some(parent.userId), r.value))
  {
    var found := FirstIndex(db.comments, CommentWithId(commentId));
    if found.None? {
      return Err(NotFound("Parent comment not found"));
    }
    var parent := db.comments[found.value];
    // ids are positive, so the service's own parent check sees this id as set and finds it again
    assert db.CommentKeysValid();
    assert Truthy(Some(commentId));
    r := db.CreateComment(parent.postId, userId, content, Some(commentId), now);
  }

  /** `get_post_comments`: one entry per top-level comment of the page, in the
      service's order, each with its replies from the grouping or none. */
  method GetPostComments(db: Db, postId: int, skip: nat := 0, limit: nat := 10) returns (response: seq<CommentOut>)
    ensures |response| == |TopLevelPage(db.comments, postId, skip, limit)| && |response| <= limit
    ensures forall i :: 0 <= i < |response| ==>
              && response[i].comment == TopLevelPage(db.comments, postId, skip, limit)[i]
              && multiset(response[i].replies) == multiset(Filter(db.comments, HasParent(Some(response[i].comment.id))))
              && Ordered(response[i].replies, CreatedAt, false)
  {
    var page := CommentsForPost(db.comments, postId, skip, limit);
    var top, groups := page.comments, page.repliesByParent;
    response := ResponseEntries(groups, top);
    forall i | 0 <= i < |response|
      ensures multiset(response[i].replies) == multiset(Filter(db.comments, HasParent(Some(response[i].comment.id))))
      ensures Ordered(response[i].replies, CreatedAt, false)
    {
      RepliesOrEmptyExact(db.comments, groups, top[i].id);
    }
  }

  /** The response loop of `get_post_comments`: one entry per comment, in order. */
  method ResponseEntries(groups: map<Option<int>, seq<Comment>>, top: seq<Comment>) returns (response: seq<CommentOut>)
    ensures |response| == |top|
    ensures forall j :: 0 <= j < |top| ==> response[j] == Entry(groups, top[j])
  {
    response := [];
    for i := 0 to |top|
      invariant |response| == i
      invariant forall j :: 0 <= j < i ==> response[j] == Entry(groups, top[j])
    {
      response := response + [Entry(groups, top[i])];
    }
  }

  /** The replies an entry gets are exactly the comment's replies, oldest first. */
  lemma RepliesOrEmptyExact(comments: seq<Comment>, groups: map<Option<int>, seq<Comment>>, id: int)
    requires GroupOf(comments, groups, id)
    ensures multiset(RepliesOrEmpty(groups, id)) == multiset(Filter(comments, HasParent(Some(id))))
    ensures Ordered(RepliesOrEmpty(groups, id), CreatedAt, false)
  {
    if Some(id) !in groups {
      CountZero(comments, HasParent(Some(id)));
    }
  }

  /** `get_comment_replies_list`: the service's window, total, skip and limit
      echoed back, five replies per page unless asked otherwise. */
  function GetCommentRepliesList(comments: seq<Comment>, commentId: int, skip: nat := 0, limit: nat := 5): (r: RepliesPage)
    ensures r.total == Count(comments, HasParent(Some(commentId)))
    ensures r.skip == skip && r.limit == limit
    ensures |r.replies| == WindowSize(r.total, skip, limit) && |r.replies| <= limit
    ensures forall i :: 0 <= i < |r.replies| ==> r.replies[i] in comments && r.replies[i].parentId == Some(commentId)
    ensures Ordered(r.replies, CreatedAt, false)
    ensures SortedPage(r.replies, comments, HasParent(Some(commentId)), CreatedAt, false, skip, limit)
    ensures multiset(r.replies) <= multiset(Filter(comments, HasParent(Some(commentId))))
  {
    CommentReplies(comments, commentId, skip, limit)
  }

  /** Without paging arguments the replies listing is the first five replies. */
  lemma DefaultRepliesPage(comments: seq<Comment>, commentId: int)
    ensures GetCommentRepliesList(comments, commentId).skip == 0
    ensures GetCommentRepliesList(comments, commentId).limit == 5
    ensures |GetCommentRepliesList(comments, commentId).replies|
            == if Count(comments, HasParent(Some(commentId))) < 5 then Count(comments, HasParent(Some(commentId))) else 5
  {
  }

  /** `delete_a_comment`: an admin's request goes to the service with no user,
      whose filter then matches no comment, since every comment has an author. */
  method DeleteAComment(db: Db, commentId: int, userId: int, isAdmin: bool) returns (r: Result<string>)
    requires db.Valid()
    modifies db`comments, db`posts
    ensures db.Valid()
    ensures isAdmin ==>
              r == Err(NotFound("Comment not found or you don't have permission to delete it")) && unchanged(db)
    ensures !isAdmin ==>
              var found := FirstIndex(old(db.comments), OwnComment(commentId, Some(userId)));
              && (found.None? ==>
                    r == Err(NotFound("Comment not found or you don't have permission to delete it")) && unchanged(db))
              && (found.Some? ==>
                    && r == Ok("Comment deleted successfully")
                    && db.comments == RemoveAt(old(db.comments), found.value)
                    && db.posts == WithCommentRemoved(old(db.posts), old(db.comments)[found.value]))
  {
    if isAdmin {
      assert forall j :: 0 <= j < |db.comments| ==> !OwnComment(commentId, None)(db.comments[j]);
      r := db.DeleteComment(commentId, None);
    } else {
      r := db.DeleteComment(commentId, Some(userId));
    }
  }
}
