/** The consistency conditions the store keeps between its tables, the row
    selections the services look rows up by, and one lemma per kind of change
    showing which changes keep which condition. */
module Integrity {
  import opened Results
  import opened Records
  import opened Listing
  import opened Comments
  import opened Notifications

  function PostKey(p: Post): int { p.id }
  function CommentKey(c: Comment): int { c.id }
  function NotificationKey(n: Notification): int { n.id }
  function ReelKey(r: Reel): int { r.id }
  function StoryKey(s: Story): int { s.id }

  /** Autoincrement keys: all positive, all below the next key to hand out, no two equal. */
  ghost predicate KeysFresh<T>(s: seq<T>, key: T -> int, next: int)
  {
    && next > 0
    && (forall i :: 0 <= i < |s| ==> 0 < key(s[i]) < next)
    && (forall i, j :: 0 <= i < j < |s| ==> key(s[i]) != key(s[j]))
  }

  /** A row inserted with the next key keeps the keys fresh once the counter advances. */
  lemma KeysFreshAppend<T>(s: seq<T>, key: T -> int, next: int, x: T)
    requires KeysFresh(s, key, next) && key(x) == next
    ensures KeysFresh(s + [x], key, next + 1)
  {
  }

  /** Deleting a row keeps the keys fresh, and its key then occurs nowhere. */
  lemma KeysFreshRemove<T>(s: seq<T>, key: T -> int, next: int, i: nat)
    requires KeysFresh(s, key, next) && i < |s|
    ensures KeysFresh(RemoveAt(s, i), key, next)
    ensures forall j :: 0 <= j < |RemoveAt(s, i)| ==> key(RemoveAt(s, i)[j]) != key(s[i])
  {
    var r := RemoveAt(s, i);
    assert forall j :: 0 <= j < |r| ==> r[j] == s[if j < i then j else j + 1];
  }

  /** Replacing a row by one with the same key keeps the keys fresh. */
  lemma KeysFreshUpdate<T>(s: seq<T>, key: T -> int, next: int, i: nat, x: T)
    requires KeysFresh(s, key, next) && i < |s| && key(x) == key(s[i])
    ensures KeysFresh(s[i := x], key, next)
  {
    assert forall j :: 0 <= j < |s| ==> key(s[i := x][j]) == key(s[j]);
  }

  /** Rows changed in place without touching their keys keep the keys fresh. */
  lemma KeysFreshSameKeys<T>(s: seq<T>, t: seq<T>, key: T -> int, next: int)
    requires KeysFresh(s, key, next) && |t| == |s|
    requires forall j :: 0 <= j < |s| ==> key(t[j]) == key(s[j])
    ensures KeysFresh(t, key, next)
  {
  }

  /** The bulk mark-as-read keeps the notification keys fresh. */
  lemma MarkAllKeysFresh(ns: seq<Notification>, userId: int, next: int)
    requires KeysFresh(ns, NotificationKey, next)
    ensures KeysFresh(MarkAllRead(ns, userId), NotificationKey, next)
  {
    var r := MarkAllRead(ns, userId);
    assert forall j :: 0 <= j < |ns| ==> NotificationKey(r[j]) == NotificationKey(ns[j]);
    KeysFreshSameKeys(ns, r, NotificationKey, next);
  }

  /** WHERE Post.id = id. */
  function PostWithId(id: int): Post -> bool
  {
    (p: Post) => p.id == id
  }

  /** SELECT Post WHERE id = id .first(). */
  function PostIndex(posts: seq<Post>, id: int): Option<nat>
  {
    FirstIndex(posts, PostWithId(id))
  }

  /** WHERE Like.post_id = postId. */
  function OnPost(postId: int): Like -> bool
  {
    (l: Like) => l.postId == postId
  }

  /** Every post's like_count is the number of its likes. */
  ghost predicate LikeCountsAgree(posts: seq<Post>, likes: seq<Like>)
  {
    forall i :: 0 <= i < |posts| ==> posts[i].likeCount == Count(likes, OnPost(posts[i].id))
  }

  /** Every post's comment_count is the number of its top-level comments. */
  ghost predicate CommentCountsAgree(posts: seq<Post>, comments: seq<Comment>)
  {
    forall i :: 0 <= i < |posts| ==> posts[i].commentCount == Count(comments, TopLevelOf(posts[i].id))
  }

  /** The engagement tables agree with the posts: at most one like per (user,
      post), likes and comments only on posts that were created, and both
      counters of every post equal to a count over its table. */
  ghost predicate EngagementAgrees(posts: seq<Post>, nextPostId: int, likes: seq<Like>, comments: seq<Comment>)
  {
    && KeysFresh(posts, PostKey, nextPostId)
    && Distinct(likes)
    && (forall i :: 0 <= i < |likes| ==> likes[i].postId < nextPostId)
    && (forall i :: 0 <= i < |comments| ==> comments[i].postId < nextPostId)
    && LikeCountsAgree(posts, likes)
    && CommentCountsAgree(posts, comments)
  }

  /** The post at `i`, with its like counter raised by one. */
  function WithLikeAdded(posts: seq<Post>, i: nat): (r: seq<Post>)
    requires i < |posts|
  {
    posts[i := posts[i].(likeCount := posts[i].likeCount + 1)]
  }

  /** The post with id `postId`, if there is one, with its like counter lowered by one. */
  function WithLikeRemoved(posts: seq<Post>, postId: int): seq<Post>
  {
    match PostIndex(posts, postId)
    case None => posts
    case Some(i) => posts[i := posts[i].(likeCount := posts[i].likeCount - 1)]
  }

  /** The post at `i`, with its comment counter changed by `delta`. */
  function WithCommentDelta(posts: seq<Post>, i: nat, delta: int): seq<Post>
    requires i < |posts|
  {
    posts[i := posts[i].(commentCount := posts[i].commentCount + delta)]
  }

  /** The post of comment `c`, if it is top-level and the post exists, with its comment counter lowered by one. */
  function WithCommentRemoved(posts: seq<Post>, c: Comment): seq<Post>
  {
    if c.parentId.Some? || PostIndex(posts, c.postId).None? then posts
    else WithCommentDelta(posts, PostIndex(posts, c.postId).value, -1)
  }

  /** A new like of a post nobody liked that way before, counted on the post. */
  lemma LikeAddedAgrees(posts: seq<Post>, nextPostId: int, likes: seq<Like>, comments: seq<Comment>, i: nat, like: Like)
    requires EngagementAgrees(posts, nextPostId, likes, comments)
    requires i < |posts| && like.postId == posts[i].id && like !in likes
    ensures EngagementAgrees(WithLikeAdded(posts, i), nextPostId, likes + [like], comments)
    ensures Count(likes + [like], OnPost(posts[i].id)) == posts[i].likeCount + 1
  {
    var posts' := WithLikeAdded(posts, i);
    forall j | 0 <= j < |posts| ensures posts'[j].likeCount == Count(likes + [like], OnPost(posts'[j].id)) {
      CountAppend(likes, like, OnPost(posts[j].id));
    }
    assert Distinct(likes + [like]);
    KeysFreshUpdate(posts, PostKey, nextPostId, i, posts'[i]);
  }

  /** A like removed, and uncounted on its post if the post still exists. */
  lemma LikeRemovedAgrees(posts: seq<Post>, nextPostId: int, likes: seq<Like>, comments: seq<Comment>, k: nat)
    requires EngagementAgrees(posts, nextPostId, likes, comments)
    requires k < |likes|
    ensures EngagementAgrees(WithLikeRemoved(posts, likes[k].postId), nextPostId, RemoveAt(likes, k), comments)
  {
    var likes' := RemoveAt(likes, k);
    var postId := likes[k].postId;
    forall j | 0 <= j < |posts|
      ensures Count(likes', OnPost(posts[j].id)) == Count(likes, OnPost(posts[j].id)) - (if posts[j].id == postId then 1 else 0)
    {
      CountRemoveAt(likes, k, OnPost(posts[j].id));
    }
    assert forall j :: 0 <= j < |likes'| ==> likes'[j] == likes[if j < k then j else j + 1];
    match PostIndex(posts, postId)
    case None =>
    case Some(i) =>
      KeysFreshUpdate(posts, PostKey, nextPostId, i, posts[i].(likeCount := posts[i].likeCount - 1));
  }

  /** A new comment on the post at `i`, counted there when it is top-level. */
  lemma CommentAddedAgrees(posts: seq<Post>, nextPostId: int, likes: seq<Like>, comments: seq<Comment>, i: nat, c: Comment)
    requires EngagementAgrees(posts, nextPostId, likes, comments)
    requires i < |posts| && c.postId == posts[i].id
    ensures EngagementAgrees(WithCommentDelta(posts, i, if c.parentId.None? then 1 else 0), nextPostId, likes, comments + [c])
  {
    var posts' := WithCommentDelta(posts, i, if c.parentId.None? then 1 else 0);
    forall j | 0 <= j < |posts| ensures posts'[j].commentCount == Count(comments + [c], TopLevelOf(posts'[j].id)) {
      CountAppend(comments, c, TopLevelOf(posts[j].id));
    }
    KeysFreshUpdate(posts, PostKey, nextPostId, i, posts'[i]);
  }

  /** A comment removed, and uncounted on its post if it was top-level and the post still exists. */
  lemma CommentRemovedAgrees(posts: seq<Post>, nextPostId: int, likes: seq<Like>, comments: seq<Comment>, k: nat)
    requires EngagementAgrees(posts, nextPostId, likes, comments)
    requires k < |comments|
    ensures EngagementAgrees(WithCommentRemoved(posts, comments[k]), nextPostId, likes, RemoveAt(comments, k))
  {
    var c := comments[k];
    var comments' := RemoveAt(comments, k);
    forall j | 0 <= j < |posts|
      ensures Count(comments', TopLevelOf(posts[j].id))
              == Count(comments, TopLevelOf(posts[j].id)) - (if posts[j].id == c.postId && c.parentId.None? then 1 else 0)
    {
      CountRemoveAt(comments, k, TopLevelOf(posts[j].id));
    }
    assert forall j :: 0 <= j < |comments'| ==> comments'[j] == comments[if j < k then j else j + 1];
    if c.parentId.None? && PostIndex(posts, c.postId).Some? {
      var i := PostIndex(posts, c.postId).value;
      KeysFreshUpdate(posts, PostKey, nextPostId, i, WithCommentDelta(posts, i, -1)[i]);
    }
  }

  /** A new post with the next id starts with no likes and no comments. */
  lemma PostAddedAgrees(posts: seq<Post>, nextPostId: int, likes: seq<Like>, comments: seq<Comment>, p: Post)
    requires EngagementAgrees(posts, nextPostId, likes, comments)
    requires p.id == nextPostId && p.likeCount == 0 && p.commentCount == 0
    ensures EngagementAgrees(posts + [p], nextPostId + 1, likes, comments)
  {
    CountNone(likes, OnPost(p.id));
    CountNone(comments, TopLevelOf(p.id));
    KeysFreshAppend(posts, PostKey, nextPostId, p);
  }

  /** A post replaced by one with the same id and counters. */
  lemma PostUpdatedAgrees(posts: seq<Post>, nextPostId: int, likes: seq<Like>, comments: seq<Comment>, k: nat, p: Post)
    requires EngagementAgrees(posts, nextPostId, likes, comments)
    requires k < |posts| && p.id == posts[k].id && p.likeCount == posts[k].likeCount
             && p.commentCount == posts[k].commentCount
    ensures EngagementAgrees(posts[k := p], nextPostId, likes, comments)
  {
    KeysFreshUpdate(posts, PostKey, nextPostId, k, p);
  }

  /** A post removed; its likes and comments stay behind, as no cascade is modelled. */
  lemma PostRemovedAgrees(posts: seq<Post>, nextPostId: int, likes: seq<Like>, comments: seq<Comment>, k: nat)
    requires EngagementAgrees(posts, nextPostId, likes, comments)
    requires k < |posts|
    ensures EngagementAgrees(RemoveAt(posts, k), nextPostId, likes, comments)
    ensures forall j :: 0 <= j < |RemoveAt(posts, k)| ==> RemoveAt(posts, k)[j].id != posts[k].id
  {
    KeysFreshRemove(posts, PostKey, nextPostId, k);
    var r := RemoveAt(posts, k);
    assert forall j :: 0 <= j < |r| ==> r[j] == posts[if j < k then j else j + 1];
  }

  /** At most one follow per pair, never of oneself, only between existing users. */
  ghost predicate FollowsSound(follows: seq<Follow>, users: set<int>)
  {
    && Distinct(follows)
    && (forall i :: 0 <= i < |follows| ==>
          follows[i].followerId != follows[i].followingId
          && follows[i].followerId in users && follows[i].followingId in users)
  }
}
