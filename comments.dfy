/** The read side of the comment service: the page of a post's top-level
    comments together with their replies grouped by parent, and the paginated
    replies of one comment. */
module Comments {
  import opened Results
  import opened Records
  import opened Listing

  function CreatedAt(c: Comment): int
  {
    c.createdAt
  }

  /** WHERE post_id = postId AND parent_id IS NULL. */
  function TopLevelOf(postId: int): Comment -> bool
  {
    (c: Comment) => c.postId == postId && c.parentId.None?
  }

  /** WHERE parent_id = parent (for None, IS NULL). */
  function HasParent(parent: Option<int>): Comment -> bool
  {
    (c: Comment) => c.parentId == parent
  }

  /** WHERE parent_id IN ids. */
  function ReplyToAny(ids: set<int>): Comment -> bool
  {
    (c: Comment) => c.parentId.Some? && c.parentId.value in ids
  }

  function Ids(cs: seq<Comment>): set<int>
  {
    set i | 0 <= i < |cs| :: cs[i].id
  }

  /** The top-level comments of a post, newest first, after skipping `skip`, at most `limit`. */
  function TopLevelPage(comments: seq<Comment>, postId: int, skip: nat, limit: nat): (r: seq<Comment>)
    ensures |r| == WindowSize(Count(comments, TopLevelOf(postId)), skip, limit) && |r| <= limit
    ensures forall i :: 0 <= i < |r| ==> r[i] in comments && r[i].postId == postId && r[i].parentId.None?
    ensures Ordered(r, CreatedAt, true)
    ensures SortedPage(r, comments, TopLevelOf(postId), CreatedAt, true, skip, limit)
    ensures multiset(r) <= multiset(Filter(comments, TopLevelOf(postId)))
  {
    SortByPage(comments, TopLevelOf(postId), CreatedAt, true, skip, limit);
    Window(SortBy(Filter(comments, TopLevelOf(postId)), CreatedAt, true), skip, limit)
  }

  /** The next page starts where the previous one ended: two consecutive pages
      make up the page covering both. */
  lemma TopLevelPagesTile(comments: seq<Comment>, postId: int, skip: nat, a: nat, b: nat)
    ensures TopLevelPage(comments, postId, skip, a) + TopLevelPage(comments, postId, skip + a, b)
            == TopLevelPage(comments, postId, skip, a + b)
  {
    WindowsTile(SortBy(Filter(comments, TopLevelOf(postId)), CreatedAt, true), skip, a, b);
  }

  /** All replies to any of `ids`, oldest first. */
  function RepliesToAny(comments: seq<Comment>, ids: set<int>): (r: seq<Comment>)
    ensures multiset(r) == multiset(Filter(comments, ReplyToAny(ids)))
    ensures Ordered(r, CreatedAt, false)
  {
    SortBy(Filter(comments, ReplyToAny(ids)), CreatedAt, false)
  }

  /** Groups `replies` by their parent id, keeping their order within each group. */
  method GroupReplies(replies: seq<Comment>) returns (groups: map<Option<int>, seq<Comment>>)
    ensures forall k :: k in groups <==> Filter(replies, HasParent(k)) != []
    ensures forall k :: k in groups ==> groups[k] == Filter(replies, HasParent(k))
  {
    groups := map[];
    var i := 0;
    while i < |replies|
      invariant i <= |replies|
      invariant forall k :: k in groups <==> Filter(replies[..i], HasParent(k)) != []
      invariant forall k :: k in groups ==> groups[k] == Filter(replies[..i], HasParent(k))
    {
      var reply := replies[i];
      assert replies[..i + 1] == replies[..i] + [reply];
      forall k
        ensures Filter(replies[..i + 1], HasParent(k))
                == Filter(replies[..i], HasParent(k)) + (if reply.parentId == k then [reply] else [])
      {
        FilterAppendOne(replies[..i], reply, HasParent(k));
      }
      if reply.parentId !in groups {
        groups := groups[reply.parentId := []];
      }
      groups := groups[reply.parentId := groups[reply.parentId] + [reply]];
      i := i + 1;
    }
    assert replies[..i] == replies;
  }

  /** What the comment listing returns: one page of top-level comments and the
      replies to them, keyed by parent id. */
  datatype CommentPage = CommentPage(comments: seq<Comment>, repliesByParent: map<Option<int>, seq<Comment>>)

  /** The replies of comment `id` as a group of the listing must hold them:
      exactly the replies to `id` in the table, oldest first. */
  ghost predicate GroupOf(comments: seq<Comment>, groups: map<Option<int>, seq<Comment>>, id: int)
  {
    && (Some(id) in groups <==> Count(comments, HasParent(Some(id))) > 0)
    && (Some(id) in groups ==>
          && multiset(groups[Some(id)]) == multiset(Filter(comments, HasParent(Some(id))))
          && Ordered(groups[Some(id)], CreatedAt, false))
  }

  /** The group of `id` taken from the replies to a set of comments holding `id`. */
  lemma GroupOfReplies(comments: seq<Comment>, ids: set<int>, id: int, groups: map<Option<int>, seq<Comment>>)
    requires id in ids
    requires forall k :: k in groups <==> Filter(RepliesToAny(comments, ids), HasParent(k)) != []
    requires forall k :: k in groups ==> groups[k] == Filter(RepliesToAny(comments, ids), HasParent(k))
    ensures GroupOf(comments, groups, id)
  {
    var any := Filter(comments, ReplyToAny(ids));
    var sorted := RepliesToAny(comments, ids);
    var q := HasParent(Some(id));
    FilterOrdered(sorted, q, CreatedAt, false);
    FilterPermutation(sorted, any, q);
    FilterFilter(comments, ReplyToAny(ids), q, q);
    assert multiset(Filter(sorted, q)) == multiset(Filter(comments, q));
    assert |Filter(sorted, q)| == |multiset(Filter(sorted, q))| == |multiset(Filter(comments, q))| == |Filter(comments, q)|;
  }

  /** `get_comments_for_post`: the page of top-level comments, then one query
      for all their replies, grouped by parent in a loop. */
  method CommentsForPost(comments: seq<Comment>, postId: int, skip: nat, limit: nat) returns (page: CommentPage)
    ensures page.comments == TopLevelPage(comments, postId, skip, limit)
    ensures forall k :: k in page.repliesByParent ==> k.Some? && k.value in Ids(page.comments)
    ensures forall i :: 0 <= i < |page.comments| ==> GroupOf(comments, page.repliesByParent, page.comments[i].id)
  {
    var top := TopLevelPage(comments, postId, skip, limit);
    var groups := RepliesOfPage(comments, top);
    page := CommentPage(top, groups);
  }

  /** The replies to the comments of one page, grouped by the comment they answer. */
  method RepliesOfPage(comments: seq<Comment>, top: seq<Comment>) returns (groups: map<Option<int>, seq<Comment>>)
    ensures forall k :: k in groups ==> k.Some? && k.value in Ids(top)
    ensures forall i :: 0 <= i < |top| ==> GroupOf(comments, groups, top[i].id)
  {
    var ids := Ids(top);
    var replies: seq<Comment> := [];
    if ids != {} {
      replies := RepliesToAny(comments, ids);
    } else {
      CountNone(Filter(comments, ReplyToAny(ids)), HasParent(None));
      assert Filter(comments, ReplyToAny(ids)) == [];
    }
    assert replies == RepliesToAny(comments, ids);
    groups := GroupReplies(replies);
    forall k | k in groups ensures k.Some? && k.value in ids {
      var f := Filter(replies, HasParent(k));
      assert f[0] in replies && f[0].parentId == k;
      assert f[0] in multiset(Filter(comments, ReplyToAny(ids)));
    }
    forall i | 0 <= i < |top| ensures GroupOf(comments, groups, top[i].id) {
      GroupOfReplies(comments, ids, top[i].id, groups);
    }
  }

  /** What the replies listing returns: a window of replies and the total number of replies. */
  datatype RepliesPage = RepliesPage(replies: seq<Comment>, total: nat, skip: nat, limit: nat)

  /** `get_comment_replies`: the replies of one comment, oldest first, windowed,
      with a total that ignores the window. */
  function CommentReplies(comments: seq<Comment>, commentId: int, skip: nat, limit: nat): (r: RepliesPage)
    ensures r.total == Count(comments, HasParent(Some(commentId)))
    ensures r.skip == skip && r.limit == limit
    ensures |r.replies| == WindowSize(r.total, skip, limit) && |r.replies| <= limit
    ensures forall i :: 0 <= i < |r.replies| ==> r.replies[i] in comments && r.replies[i].parentId == Some(commentId)
    ensures Ordered(r.replies, CreatedAt, false)
    ensures SortedPage(r.replies, comments, HasParent(Some(commentId)), CreatedAt, false, skip, limit)
    ensures multiset(r.replies) <= multiset(Filter(comments, HasParent(Some(commentId))))
  {
    SortByPage(comments, HasParent(Some(commentId)), CreatedAt, false, skip, limit);
    RepliesPage(Window(SortBy(Filter(comments, HasParent(Some(commentId))), CreatedAt, false), skip, limit), Count(comments, HasParent(Some(commentId))), skip, limit)
  }

  /** Consecutive pages of replies make up the page covering both. */
  lemma RepliesPagesTile(comments: seq<Comment>, commentId: int, skip: nat, a: nat, b: nat)
    ensures CommentReplies(comments, commentId, skip, a).replies + CommentReplies(comments, commentId, skip + a, b).replies
            == CommentReplies(comments, commentId, skip, a + b).replies
  {
    WindowsTile(SortBy(Filter(comments, HasParent(Some(commentId))), CreatedAt, false), skip, a, b);
  }
}
