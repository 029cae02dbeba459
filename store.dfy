/** The database the services share, as one object with a table per entity,
    and every service function that changes it as a method. Each method
    either fails with the service's HTTP error and leaves the store as it was,
    or performs exactly the inserts, deletes and field updates of the source.
    Time, generated UUIDs and the storage configuration are parameters. */
module Store {
  import opened Results
  import opened Records
  import opened Listing
  import opened Text
  import opened Uploads
  import opened UploadFacts
  import opened Comments
  import opened Notifications
  import opened Posts
  import opened Stories
  import opened Integrity

  /** WHERE Comment.id = id. */
  function CommentWithId(id: int): Comment -> bool
  {
    (c: Comment) => c.id == id
  }

  /** WHERE Like.post_id = postId AND Like.user_id = userId. */
  function LikeBy(userId: int, postId: int): Like -> bool
  {
    (l: Like) => l.postId == postId && l.userId == userId
  }

  /** WHERE follower_id = followerId AND following_id = followingId. */
  function FollowOf(followerId: int, followingId: int): Follow -> bool
  {
    (f: Follow) => f.followerId == followerId && f.followingId == followingId
  }

  /** WHERE Comment.id = id AND Comment.user_id = user; for a user of None the
      condition is IS NULL, which no comment meets because every comment has an author. */
  function OwnComment(id: int, user: Option<int>): Comment -> bool
  {
    (c: Comment) => c.id == id && Some(c.userId) == user
  }

  /** WHERE Notification.id = id AND Notification.user_id = userId. */
  function OwnNotification(id: int, userId: int): Notification -> bool
  {
    (n: Notification) => n.id == id && n.userId == userId
  }

  /** WHERE Post.id = id AND Post.owner_id = userId. */
  function OwnPost(id: int, userId: int): Post -> bool
  {
    (p: Post) => p.id == id && p.ownerId == userId
  }

  /** The reel `delete_reel` may remove: the user's own, or for None (an admin) any. */
  function DeletableReel(id: int, user: Option<int>): Reel -> bool
  {
    (r: Reel) => r.id == id && (user.None? || r.ownerId == user.value)
  }

  /** WHERE Story.id = id AND Story.owner_id = user; None matches no story. */
  function OwnStory(id: int, user: Option<int>): Story -> bool
  {
    (s: Story) => s.id == id && Some(s.ownerId) == user
  }

  /** Python truthiness of an optional id: None and 0 are false. */
  predicate Truthy(id: Option<int>)
  {
    id.Some? && id.value != 0
  }

  /** Python truthiness of an optional URL: None and "" are false. */
  predicate TruthyUrl(url: Option<string>)
  {
    url.Some? && url.value != ""
  }

  /** The notifications a new comment triggers: one to the post's owner unless
      the owner wrote the comment, then one to the parent's author unless the
      author wrote it. Both may go to the same user. */
  function CommentNotices(firstId: nat, ownerId: int, parentAuthor: Option<int>, c: Comment): (ns: seq<Notification>)
    ensures |ns| <= 2
    ensures forall i :: 0 <= i < |ns| ==>
              && ns[i].id == firstId + i && ns[i].senderId == c.userId && ns[i].userId != c.userId
              && ns[i].kind == "comment" && ns[i].postId == Some(c.postId) && ns[i].commentId == Some(c.id)
              && !ns[i].isRead && ns[i].createdAt == c.createdAt
    ensures |ns| == (if ownerId != c.userId then 1 else 0)
                    + (if parentAuthor.Some? && parentAuthor.value != c.userId then 1 else 0)
    ensures ownerId != c.userId ==> ns[0].userId == ownerId
    ensures parentAuthor.Some? && parentAuthor.value != c.userId ==> ns[|ns| - 1].userId == parentAuthor.value
  {
    var owner := if ownerId != c.userId
      then [Notification(firstId, ownerId, c.userId, "comment", Some(c.postId), Some(c.id), false, c.createdAt)]
      else [];
    var parent := if parentAuthor.Some? && parentAuthor.value != c.userId
      then [Notification(firstId + |owner|, parentAuthor.value, c.userId, "comment", Some(c.postId), Some(c.id), false, c.createdAt)]
      else [];
    owner + parent
  }

  /** The error `delete_file_from_s3` raises for one stored media URL, if any;
      an empty or missing URL is not deleted at all. */
  function MediaDeleteError(cfg: StorageConfig, url: Option<string>): (e: Option<Error>)
    ensures !TruthyUrl(url) ==> e.None?
    ensures TruthyUrl(url) ==> (e.None? <==> DeleteKey(cfg, url.value).Ok?)
  {
    if TruthyUrl(url) && DeleteKey(cfg, url.value).Err? then Some(DeleteKey(cfg, url.value).error) else None
  }

  /** For the owner deleting a post: the first error the deletes of its image
      and then its video raise, if any. */
  function OwnerMediaError(cfg: StorageConfig, posts: seq<Post>, postId: int, userId: int): (e: Option<Error>)
    ensures e.Some? ==> PostIndex(posts, postId).Some? && posts[PostIndex(posts, postId).value].ownerId == userId
  {
    match PostIndex(posts, postId)
    case None => None
    case Some(i) =>
      if posts[i].ownerId != userId then None
      else if MediaDeleteError(cfg, posts[i].imageUrl).Some? then MediaDeleteError(cfg, posts[i].imageUrl)
      else MediaDeleteError(cfg, posts[i].videoUrl)
  }

  /** A post whose media are the ones `create_post` stored is deleted by its
      owner without a media error. */
  lemma CreatedPostDeletable(cfg: StorageConfig, posts: seq<Post>, i: nat, image: Option<UploadFile>,
                             video: Option<UploadFile>, imageUuid: string, videoUuid: string)
    requires i < |posts| && PostIndex(posts, posts[i].id) == Some(i)
    requires UuidText(imageUuid) && UuidText(videoUuid)
    requires PostMediaUrls(cfg, image, video, imageUuid, videoUuid).Ok?
    requires posts[i].imageUrl == PostMediaUrls(cfg, image, video, imageUuid, videoUuid).value.imageUrl
    requires posts[i].videoUrl == PostMediaUrls(cfg, image, video, imageUuid, videoUuid).value.videoUrl
    ensures OwnerMediaError(cfg, posts, posts[i].id, posts[i].ownerId).None?
  {
    StoredMediaDeletable(cfg, image, video, imageUuid, videoUuid);
  }

  /** The duplicate-like query finds a row exactly when the pair is in the table. */
  lemma LikeLookup(likes: seq<Like>, userId: int, postId: int)
    ensures FirstIndex(likes, LikeBy(userId, postId)).Some? <==> Like(userId, postId) in likes
    ensures FirstIndex(likes, LikeBy(userId, postId)).Some? ==>
              likes[FirstIndex(likes, LikeBy(userId, postId)).value] == Like(userId, postId)
  {
    if Like(userId, postId) in likes {
      var k :| 0 <= k < |likes| && likes[k] == Like(userId, postId);
      assert LikeBy(userId, postId)(likes[k]);
    }
  }

  /** The existing-follow query finds a row exactly when the pair is in the table. */
  lemma FollowLookup(follows: seq<Follow>, followerId: int, followingId: int)
    ensures FirstIndex(follows, FollowOf(followerId, followingId)).Some? <==> Follow(followerId, followingId) in follows
    ensures FirstIndex(follows, FollowOf(followerId, followingId)).Some? ==>
              follows[FirstIndex(follows, FollowOf(followerId, followingId)).value] == Follow(followerId, followingId)
  {
    if Follow(followerId, followingId) in follows {
      var k :| 0 <= k < |follows| && follows[k] == Follow(followerId, followingId);
      assert FollowOf(followerId, followingId)(follows[k]);
    }
  }

  /** Unliking right after a like finds the new row and gives the likes table back. */
  lemma LikeThenUnlike(likes: seq<Like>, userId: int, postId: int)
    requires Like(userId, postId) !in likes
    ensures FirstIndex(likes + [Like(userId, postId)], LikeBy(userId, postId)) == Some(|likes|)
    ensures RemoveAt(likes + [Like(userId, postId)], |likes|) == likes
  {
    LikeLookup(likes, userId, postId);
    RemoveAppended(likes, Like(userId, postId), LikeBy(userId, postId));
  }

  /** In a likes table without repeated rows, the unlike's delete takes away
      exactly the caller's like and no other row. */
  lemma UnlikeRemovesOnlyThatLike(likes: seq<Like>, userId: int, postId: int)
    requires Distinct(likes) && Like(userId, postId) in likes
    ensures var rest := RemoveAt(likes, FirstIndex(likes, LikeBy(userId, postId)).value);
            && multiset(rest) == multiset(likes) - multiset{Like(userId, postId)}
            && Like(userId, postId) !in rest
  {
    LikeLookup(likes, userId, postId);
    var k := FirstIndex(likes, LikeBy(userId, postId)).value;
    RemoveAtMultiset(likes, k);
    RemoveAtDistinct(likes, k);
  }

  /** Unfollowing right after a follow finds the new row and gives the follows table back. */
  lemma FollowThenUnfollow(follows: seq<Follow>, followerId: int, followingId: int)
    requires Follow(followerId, followingId) !in follows
    ensures FirstIndex(follows + [Follow(followerId, followingId)], FollowOf(followerId, followingId)) == Some(|follows|)
    ensures RemoveAt(follows + [Follow(followerId, followingId)], |follows|) == follows
  {
    FollowLookup(follows, followerId, followingId);
    RemoveAppended(follows, Follow(followerId, followingId), FollowOf(followerId, followingId));
  }

  /** The author a reply notifies: the parent's, when `parentId` is truthy and names a comment. */
  function ParentAuthor(comments: seq<Comment>, parentId: Option<int>): (r: Option<int>)
    ensures r.Some? <==> Truthy(parentId) && exists i :: 0 <= i < |comments| && comments[i].id == parentId.value
    ensures r.Some? ==> exists i :: 0 <= i < |comments| && comments[i].id == parentId.value && comments[i].userId == r.value
  {
    if Truthy(parentId) && FirstIndex(comments, CommentWithId(parentId.value)).Some?
    then Some(comments[FirstIndex(comments, CommentWithId(parentId.value)).value].userId)
    else None
  }

  /** What `delete_story` answers: it reports a missing story in its reply instead of raising. */
  datatype StoryReply = StoryError(error: string) | StoryMessage(message: string)

  class Db {
    var users: set<int>
    var posts: seq<Post>
    var likes: seq<Like>
    var comments: seq<Comment>
    var notifications: seq<Notification>
    var follows: seq<Follow>
    var reels: seq<Reel>
    var stories: seq<Story>
    var nextPostId: nat
    var nextCommentId: nat
    var nextNotificationId: nat
    var nextReelId: nat
    var nextStoryId: nat

    /** The posts agree with the likes and comments tables. */
    ghost predicate EngagementValid()
      reads this`posts, this`nextPostId, this`likes, this`comments
    {
      EngagementAgrees(posts, nextPostId, likes, comments)
    }

    ghost predicate CommentKeysValid()
      reads this`comments, this`nextCommentId
    {
      KeysFresh(comments, CommentKey, nextCommentId)
    }

    ghost predicate NotificationKeysValid()
      reads this`notifications, this`nextNotificationId
    {
      KeysFresh(notifications, NotificationKey, nextNotificationId)
    }

    ghost predicate ReelKeysValid()
      reads this`reels, this`nextReelId
    {
      KeysFresh(reels, ReelKey, nextReelId)
    }

    ghost predicate StoryKeysValid()
      reads this`stories, this`nextStoryId
    {
      KeysFresh(stories, StoryKey, nextStoryId)
    }

    ghost predicate FollowsValid()
      reads this`follows, this`users
    {
      FollowsSound(follows, users)
    }

    /** The invariant every service method keeps. */
    ghost predicate Valid()
      reads this
    {
      && EngagementValid() && CommentKeysValid() && NotificationKeysValid()
      && ReelKeysValid() && StoryKeysValid() && FollowsValid()
    }

    constructor (users: set<int>)
      ensures Valid()
      ensures this.users == users
      ensures posts == [] && likes == [] && comments == [] && notifications == []
      ensures follows == [] && reels == [] && stories == []
    {
      this.users := users;
      posts, likes, comments, notifications := [], [], [], [];
      follows, reels, stories := [], [], [];
      nextPostId, nextCommentId, nextNotificationId, nextReelId, nextStoryId := 1, 1, 1, 1, 1;
    }

    /** `create_notification`: stores a notification of one of the three kinds. */
    method CreateNotification(userId: int, senderId: int, kind: string, postId: Option<int>,
                              commentId: Option<int>, now: int) returns (r: Result<Notification>)
      requires Valid()
      modifies this`notifications, this`nextNotificationId
      ensures Valid()
      ensures kind !in ValidKinds ==> r == Err(BadRequest("Invalid notification type")) && unchanged(this)
      ensures kind in ValidKinds ==>
                && r == Ok(Notification(old(nextNotificationId), userId, senderId, kind, postId, commentId, false, now))
                && notifications == old(notifications) + [r.value]
                && nextNotificationId == old(nextNotificationId) + 1
    {
      if kind !in ValidKinds {
        return Err(BadRequest("Invalid notification type"));
      }
      var n := Notification(nextNotificationId, userId, senderId, kind, postId, commentId, false, now);
      KeysFreshAppend(notifications, NotificationKey, nextNotificationId, n);
      notifications := notifications + [n];
      nextNotificationId := nextNotificationId + 1;
      r := Ok(n);
    }

    /** The insert of `like_post`: the new like row, and the post's like_count
        recounted from the likes table. */
    method InsertLike(i: nat, like: Like)
      requires Valid() && i < |posts| && posts[i].id == like.postId && like !in likes
      modifies this`likes, this`posts
      ensures Valid()
      ensures likes == old(likes) + [like]
      ensures posts == WithLikeAdded(old(posts), i)
      ensures posts[i].likeCount == Count(likes, OnPost(like.postId))
    {
      LikeAddedAgrees(posts, nextPostId, likes, comments, i, like);
      likes := likes + [like];
      posts := posts[i := posts[i].(likeCount := Count(likes, OnPost(like.postId)))];
    }

    /** `like_post`. */
    method LikePost(postId: int, userId: int, now: int) returns (r: Result<string>)
      requires Valid()
      modifies this`likes, this`posts, this`notifications, this`nextNotificationId
      ensures Valid()
      ensures PostIndex(old(posts), postId).None? ==> r == Err(NotFound("Post not found")) && unchanged(this)
      ensures PostIndex(old(posts), postId).Some? && Like(userId, postId) in old(likes) ==>
                r == Err(BadRequest("Post already liked")) && unchanged(this)
      ensures r.Ok? <==> PostIndex(old(posts), postId).Some? && Like(userId, postId) !in old(likes)
      ensures r.Ok? ==>
                var i := PostIndex(old(posts), postId).value;
                var owner := old(posts)[i].ownerId;
                && r.value == "Post liked successfully"
                && likes == old(likes) + [Like(userId, postId)]
                && posts == WithLikeAdded(old(posts), i)
                && posts[i].likeCount == Count(likes, OnPost(postId))
                && notifications == old(notifications)
                     + (if owner != userId
                        then [Notification(old(nextNotificationId), owner, userId, "like", Some(postId), None, false, now)]
                        else [])
    {
      var found := PostIndex(posts, postId);
      if found.None? {
        return Err(NotFound("Post not found"));
      }
      var i := found.value;
      LikeLookup(likes, userId, postId);
      var existing := FirstIndex(likes, LikeBy(userId, postId));
      if existing.Some? {
        return Err(BadRequest("Post already liked"));
      }
      var post := posts[i];
      InsertLike(i, Like(userId, postId));
      if post.ownerId != userId {
        var _ := CreateNotification(post.ownerId, userId, "like", Some(postId), None, now);
      }
      r := Ok("Post liked successfully");
    }

    /** The delete of `unlike_post`: the like row goes, and its post, if it
        still exists, gets its like_count recounted from the remaining likes. */
    method DeleteLike(k: nat)
      requires Valid() && k < |likes|
      modifies this`likes, this`posts
      ensures Valid()
      ensures likes == RemoveAt(old(likes), k)
      ensures posts == WithLikeRemoved(old(posts), old(likes)[k].postId)
    {
      var postId := likes[k].postId;
      LikeRemovedAgrees(posts, nextPostId, likes, comments, k);
      CountRemoveAt(likes, k, OnPost(postId));
      likes := RemoveAt(likes, k);
      var found := PostIndex(posts, postId);
      if found.Some? {
        var i := found.value;
        assert posts[i].likeCount == Count(old(likes), OnPost(postId));
        posts := posts[i := posts[i].(likeCount := Count(likes, OnPost(postId)))];
      }
    }

    /** `unlike_post`. */
    method UnlikePost(postId: int, userId: int) returns (r: Result<string>)
      requires Valid()
      modifies this`likes, this`posts
      ensures Valid()
      ensures Like(userId, postId) !in old(likes) ==> r == Err(NotFound("Like not found")) && unchanged(this)
      ensures Like(userId, postId) in old(likes) ==>
                && r == Ok("Post unliked successfully")
                && likes == RemoveAt(old(likes), FirstIndex(old(likes), LikeBy(userId, postId)).value)
                && posts == WithLikeRemoved(old(posts), postId)
    {
      LikeLookup(likes, userId, postId);
      var existing := FirstIndex(likes, LikeBy(userId, postId));
      if existing.None? {
        return Err(NotFound("Like not found"));
      }
      DeleteLike(existing.value);
      r := Ok("Post unliked successfully");
    }

    /** The notifications at the end of `create_comment`: to the post's owner,
        then to the parent's author, each unless it is the commenter. */
    method NotifyComment(ownerId: int, parentAuthor: Option<int>, c: Comment)
      requires Valid()
      modifies this`notifications, this`nextNotificationId
      ensures Valid()
      ensures notifications == old(notifications) + CommentNotices(old(nextNotificationId), ownerId, parentAuthor, c)
      ensures nextNotificationId == old(nextNotificationId) + |CommentNotices(old(nextNotificationId), ownerId, parentAuthor, c)|
    {
      if ownerId != c.userId {
        var _ := CreateNotification(ownerId, c.userId, "comment", Some(c.postId), Some(c.id), c.createdAt);
      }
      if parentAuthor.Some? && parentAuthor.value != c.userId {
        var _ := CreateNotification(parentAuthor.value, c.userId, "comment", Some(c.postId), Some(c.id), c.createdAt);
      }
    }

    /** The insert of `create_comment`: the row with the next id, and the
        post's comment counter raised when the comment is top-level. */
    method InsertComment(i: nat, c: Comment)
      requires Valid()
      requires PostIndex(posts, c.postId) == Some(i) && c.id == nextCommentId
      modifies this`comments, this`nextCommentId, this`posts
      ensures Valid()
      ensures comments == old(comments) + [c] && nextCommentId == old(nextCommentId) + 1
      ensures posts == WithCommentDelta(old(posts), i, if c.parentId.None? then 1 else 0)
    {
      CommentAddedAgrees(posts, nextPostId, likes, comments, i, c);
      KeysFreshAppend(comments, CommentKey, nextCommentId, c);
      comments := comments + [c];
      nextCommentId := nextCommentId + 1;
      posts := WithCommentDelta(posts, i, if c.parentId.None? then 1 else 0);
    }

    /** `create_comment`. */
    method CreateComment(postId: int, userId: int, content: string, parentId: Option<int>, now: int)
      returns (r: Result<Comment>)
      requires Valid()
      modifies this`comments, this`nextCommentId, this`posts, this`notifications, this`nextNotificationId
      ensures Valid()
      ensures PostIndex(old(posts), postId).None? ==> r == Err(NotFound("Post not found")) && unchanged(this)
      ensures PostIndex(old(posts), postId).Some? && Truthy(parentId)
              && FirstIndex(old(comments), CommentWithId(parentId.value)).None? ==>
                r == Err(NotFound("Parent comment not found")) && unchanged(this)
      ensures r.Ok? <==> PostIndex(old(posts), postId).Some?
                         && (Truthy(parentId) ==> FirstIndex(old(comments), CommentWithId(parentId.value)).Some?)
      ensures r.Ok? ==>
                var i := PostIndex(old(posts), postId).value;
                var c := Comment(old(nextCommentId), userId, postId, parentId, content, now);
                && r.value == c
                && comments == old(comments) + [c]
                && posts == WithCommentDelta(old(posts), i, if parentId.None? then 1 else 0)
                && notifications == old(notifications)
                     + CommentNotices(old(nextNotificationId), old(posts)[i].ownerId, ParentAuthor(old(comments), parentId), c)
    {
      var found := PostIndex(posts, postId);
      if found.None? {
        return Err(NotFound("Post not found"));
      }
      var i := found.value;
      var post := posts[i];
      var parentAuthor: Option<int> := None;
      if Truthy(parentId) {
        var parent := FirstIndex(comments, CommentWithId(parentId.value));
        if parent.None? {
          return Err(NotFound("Parent comment not found"));
        }
        parentAuthor := Some(comments[parent.value].userId);
      }
      var c := Comment(nextCommentId, userId, postId, parentId, content, now);
      InsertComment(i, c);
      NotifyComment(post.ownerId, parentAuthor, c);
      r := Ok(c);
    }

    /** `delete_comment`, for the user `user`; None is what the admin route passes. */
    method DeleteComment(commentId: int, user: Option<int>) returns (r: Result<string>)
      requires Valid()
      modifies this`comments, this`posts
      ensures Valid()
      ensures FirstIndex(old(comments), OwnComment(commentId, user)).None? ==>
                r == Err(NotFound("Comment not found or you don't have permission to delete it")) && unchanged(this)
      ensures FirstIndex(old(comments), OwnComment(commentId, user)).Some? ==>
                var k := FirstIndex(old(comments), OwnComment(commentId, user)).value;
                && r == Ok("Comment deleted successfully")
                && comments == RemoveAt(old(comments), k)
                && posts == WithCommentRemoved(old(posts), old(comments)[k])
    {
      var found := FirstIndex(comments, OwnComment(commentId, user));
      if found.None? {
        return Err(NotFound("Comment not found or you don't have permission to delete it"));
      }
      var k := found.value;
      var c := comments[k];
      CommentRemovedAgrees(posts, nextPostId, likes, comments, k);
      KeysFreshRemove(comments, CommentKey, nextCommentId, k);
      comments := RemoveAt(comments, k);
      if c.parentId.None? {
        posts := WithCommentRemoved(posts, c);
      }
      r := Ok("Comment deleted successfully");
    }

    /** `mark_notification_as_read`. */
    method MarkNotificationAsRead(notificationId: int, userId: int) returns (r: Result<Notification>)
      requires Valid()
      modifies this`notifications
      ensures Valid()
      ensures FirstIndex(old(notifications), OwnNotification(notificationId, userId)).None? ==>
                r == Err(NotFound("Notification not found")) && unchanged(this)
      ensures r.Ok? <==> exists k :: 0 <= k < |old(notifications)|
                                     && old(notifications)[k].id == notificationId && old(notifications)[k].userId == userId
      ensures r.Ok? ==>
                var k := FirstIndex(old(notifications), OwnNotification(notificationId, userId)).value;
                && notifications == MarkOneRead(old(notifications), k)
                && r.value == notifications[k] && r.value.isRead
                && r.value.id == notificationId && r.value.userId == userId
    {
      var found := FirstIndex(notifications, OwnNotification(notificationId, userId));
      if found.None? {
        return Err(NotFound("Notification not found"));
      }
      var k := found.value;
      KeysFreshUpdate(notifications, NotificationKey, nextNotificationId, k, notifications[k].(isRead := true));
      notifications := MarkOneRead(notifications, k);
      r := Ok(notifications[k]);
    }

    /** `mark_all_notifications_as_read`: one bulk UPDATE of the user's unread
        rows, reporting how many rows it changed. */
    method MarkAllNotificationsAsRead(userId: int) returns (count: nat, message: string)
      requires Valid()
      modifies this`notifications
      ensures Valid()
      ensures notifications == MarkAllRead(old(notifications), userId)
      ensures count == UnreadCount(old(notifications), userId)
      ensures count == ChangedRows(old(notifications), notifications)
      ensures message == "Marked " + NatText(count) + " notifications as read"
    {
      // the UPDATE's rowcount is the number of rows it flips
      count := UnreadCount(notifications, userId);
      MarkAllKeysFresh(notifications, userId, nextNotificationId);
      MarkAllRowcount(notifications, userId);
      notifications := MarkAllRead(notifications, userId);
      message := "Marked " + NatText(count) + " notifications as read";
    }

    /** `follow_user`. */
    method FollowUser(followerId: int, followingId: int, now: int) returns (r: Result<string>)
      requires Valid()
      modifies this`follows, this`notifications, this`nextNotificationId
      ensures Valid()
      ensures (followerId !in users || followingId !in users) ==> r == Err(NotFound("User not found")) && unchanged(this)
      ensures followerId in users && followingId in users && followerId == followingId ==>
                r == Err(BadRequest("Cannot follow yourself")) && unchanged(this)
      ensures followerId in users && followingId in users && followerId != followingId
              && Follow(followerId, followingId) in old(follows) ==>
                r == Err(BadRequest("Already following this user")) && unchanged(this)
      ensures r.Ok? <==> followerId in users && followingId in users && followerId != followingId
                         && Follow(followerId, followingId) !in old(follows)
      ensures r.Ok? ==>
                && r.value == "Now following user " + IntText(followingId)
                && follows == old(follows) + [Follow(followerId, followingId)]
                && notifications == old(notifications)
                     + [Notification(old(nextNotificationId), followingId, followerId, "follow", None, None, false, now)]
    {
      if followerId !in users || followingId !in users {
        return Err(NotFound("User not found"));
      }
      if followerId == followingId {
        return Err(BadRequest("Cannot follow yourself"));
      }
      FollowLookup(follows, followerId, followingId);
      var existing := FirstIndex(follows, FollowOf(followerId, followingId));
      if existing.Some? {
        return Err(BadRequest("Already following this user"));
      }
      follows := follows + [Follow(followerId, followingId)];
      var _ := CreateNotification(followingId, followerId, "follow", None, None, now);
      r := Ok("Now following user " + IntText(followingId));
    }

    /** `unfollow_user`. */
    method UnfollowUser(followerId: int, followingId: int) returns (r: Result<string>)
      requires Valid()
      modifies this`follows
      ensures Valid()
      ensures Follow(followerId, followingId) !in old(follows) ==>
                r == Err(NotFound("Follow relationship not found")) && unchanged(this)
      ensures Follow(followerId, followingId) in old(follows) ==>
                && r == Ok("Unfollowed user " + IntText(followingId))
                && follows == RemoveAt(old(follows), FirstIndex(old(follows), FollowOf(followerId, followingId)).value)
                && multiset(follows) == multiset(old(follows)) - multiset{Follow(followerId, followingId)}
                && Follow(followerId, followingId) !in follows
    {
      FollowLookup(follows, followerId, followingId);
      var existing := FirstIndex(follows, FollowOf(followerId, followingId));
      if existing.None? {
        return Err(NotFound("Follow relationship not found"));
      }
      var k := existing.value;
      RemoveAtMultiset(follows, k);
      RemoveAtDistinct(follows, k);
      assert forall j :: 0 <= j < |RemoveAt(follows, k)| ==> RemoveAt(follows, k)[j] in follows;
      follows := RemoveAt(follows, k);
      r := Ok("Unfollowed user " + IntText(followingId));
    }

    /** `create_post`: the attachment checks and uploads, then the new row. */
    method CreatePost(cfg: StorageConfig, caption: Option<string>, isPrivate: bool,
                      image: Option<UploadFile>, video: Option<UploadFile>,
                      imageUuid: string, videoUuid: string, userId: int, now: int) returns (r: Result<Post>)
      requires Valid()
      modifies this`posts, this`nextPostId
      ensures Valid()
      ensures PostMediaUrls(cfg, image, video, imageUuid, videoUuid).Err? ==>
                r == Err(PostMediaUrls(cfg, image, video, imageUuid, videoUuid).error) && unchanged(this)
      ensures PostMediaUrls(cfg, image, video, imageUuid, videoUuid).Ok? ==>
                var m := PostMediaUrls(cfg, image, video, imageUuid, videoUuid).value;
                && r == Ok(Post(old(nextPostId), userId, caption, m.imageUrl, m.videoUrl, isPrivate, 0, 0, now))
                && posts == old(posts) + [r.value]
                && nextPostId == old(nextPostId) + 1
    {
      var media := PostMediaUrls(cfg, image, video, imageUuid, videoUuid);
      if media.Err? {
        return Err(media.error);
      }
      var p := Post(nextPostId, userId, caption, media.value.imageUrl, media.value.videoUrl, isPrivate, 0, 0, now);
      PostAddedAgrees(posts, nextPostId, likes, comments, p);
      posts := posts + [p];
      nextPostId := nextPostId + 1;
      r := Ok(p);
    }

    /** `update_post`. */
    method UpdatePost(postId: int, update: PostUpdate, userId: int) returns (r: Result<Post>)
      requires Valid()
      modifies this`posts
      ensures Valid()
      ensures FirstIndex(old(posts), OwnPost(postId, userId)).None? ==> r == Err(NotFound("Post not found")) && unchanged(this)
      ensures r.Ok? <==> exists k :: 0 <= k < |old(posts)| && old(posts)[k].id == postId && old(posts)[k].ownerId == userId
      ensures r.Ok? ==>
                var k := FirstIndex(old(posts), OwnPost(postId, userId)).value;
                && posts == old(posts)[k := ApplyUpdate(old(posts)[k], update)]
                && r.value == posts[k]
    {
      var found := FirstIndex(posts, OwnPost(postId, userId));
      if found.None? {
        return Err(NotFound("Post not found"));
      }
      var k := found.value;
      PostUpdatedAgrees(posts, nextPostId, likes, comments, k, ApplyUpdate(posts[k], update));
      posts := posts[k := ApplyUpdate(posts[k], update)];
      r := Ok(posts[k]);
    }

    /** `delete_post`: missing, then not the owner, then the media deletes,
        whose failures abort before the row is removed. */
    method DeletePost(cfg: StorageConfig, postId: int, userId: int) returns (r: Result<string>)
      requires Valid()
      modifies this`posts
      ensures Valid()
      ensures PostIndex(old(posts), postId).None? ==> r == Err(NotFound("Post not found")) && unchanged(this)
      ensures PostIndex(old(posts), postId).Some? && old(posts)[PostIndex(old(posts), postId).value].ownerId != userId ==>
                r == Err(Forbidden("Not authorized to delete this post")) && unchanged(this)
      ensures OwnerMediaError(cfg, old(posts), postId, userId).Some? ==>
                r == Err(OwnerMediaError(cfg, old(posts), postId, userId).value) && unchanged(this)
      ensures r.Ok? <==> PostIndex(old(posts), postId).Some?
                         && old(posts)[PostIndex(old(posts), postId).value].ownerId == userId
                         && OwnerMediaError(cfg, old(posts), postId, userId).None?
      ensures r.Ok? ==>
                && r.value == "Post deleted successfully"
                && posts == RemoveAt(old(posts), PostIndex(old(posts), postId).value)
                && (forall j :: 0 <= j < |posts| ==> posts[j].id != postId)
    {
      var found := PostIndex(posts, postId);
      if found.None? {
        return Err(NotFound("Post not found"));
      }
      var i := found.value;
      var post := posts[i];
      if post.ownerId != userId {
        return Err(Forbidden("Not authorized to delete this post"));
      }
      if TruthyUrl(post.imageUrl) {
        var deleted := DeleteKey(cfg, post.imageUrl.value);
        if deleted.Err? {
          return Err(deleted.error);
        }
      }
      if TruthyUrl(post.videoUrl) {
        var deleted := DeleteKey(cfg, post.videoUrl.value);
        if deleted.Err? {
          return Err(deleted.error);
        }
      }
      PostRemovedAgrees(posts, nextPostId, likes, comments, i);
      posts := RemoveAt(posts, i);
      r := Ok("Post deleted successfully");
    }

    /** `create_reel`: the upload to reels/, then the new row. */
    method CreateReel(cfg: StorageConfig, video: UploadFile, caption: Option<string>, uuid: string,
                      userId: int, now: int) returns (r: Result<Reel>)
      requires Valid()
      modifies this`reels, this`nextReelId
      ensures Valid()
      ensures UploadUrl(cfg, video, "reels", uuid).Err? ==>
                r == Err(UploadUrl(cfg, video, "reels", uuid).error) && unchanged(this)
      ensures UploadUrl(cfg, video, "reels", uuid).Ok? ==>
                && r == Ok(Reel(old(nextReelId), UploadUrl(cfg, video, "reels", uuid).value, caption, userId, now))
                && reels == old(reels) + [r.value]
                && nextReelId == old(nextReelId) + 1
    {
      var url := UploadUrl(cfg, video, "reels", uuid);
      if url.Err? {
        return Err(url.error);
      }
      var reel := InsertReel(url.value, caption, userId, now);
      r := Ok(reel);
    }

    /** The insert of `create_reel`: a new reel row with the next id. */
    method InsertReel(videoUrl: string, caption: Option<string>, userId: int, now: int) returns (reel: Reel)
      requires Valid()
      modifies this`reels, this`nextReelId
      ensures Valid()
      ensures reel == Reel(old(nextReelId), videoUrl, caption, userId, now)
      ensures reels == old(reels) + [reel] && nextReelId == old(nextReelId) + 1
    {
      reel := Reel(nextReelId, videoUrl, caption, userId, now);
      KeysFreshAppend(reels, ReelKey, nextReelId, reel);
      reels := reels + [reel];
      nextReelId := nextReelId + 1;
    }

    /** `delete_reel`: an owner deletes their own reel, None (an admin) any reel. */
    method DeleteReel(reelId: int, user: Option<int>) returns (r: Result<string>)
      requires Valid()
      modifies this`reels
      ensures Valid()
      ensures FirstIndex(old(reels), DeletableReel(reelId, user)).None? ==>
                r == Err(NotFound("Reel not found or not permitted to delete")) && unchanged(this)
      ensures r.Ok? <==> exists k :: 0 <= k < |old(reels)| && old(reels)[k].id == reelId
                                     && (user.None? || old(reels)[k].ownerId == user.value)
      ensures r.Ok? ==>
                && r.value == "Reel deleted successfully"
                && reels == RemoveAt(old(reels), FirstIndex(old(reels), DeletableReel(reelId, user)).value)
                && |reels| == |old(reels)| - 1
                && (forall j :: 0 <= j < |reels| ==> reels[j].id != reelId)
    {
      var found := FirstIndex(reels, DeletableReel(reelId, user));
      if found.None? {
        return Err(NotFound("Reel not found or not permitted to delete"));
      }
      KeysFreshRemove(reels, ReelKey, nextReelId, found.value);
      reels := RemoveAt(reels, found.value);
      r := Ok("Reel deleted successfully");
    }

    /** `create_story`: the upload to stories/, then a row that expires a day later. */
    method CreateStory(cfg: StorageConfig, media: UploadFile, uuid: string, userId: int, now: int)
      returns (r: Result<Story>)
      requires Valid()
      modifies this`stories, this`nextStoryId
      ensures Valid()
      ensures UploadUrl(cfg, media, "stories", uuid).Err? ==>
                r == Err(UploadUrl(cfg, media, "stories", uuid).error) && unchanged(this)
      ensures UploadUrl(cfg, media, "stories", uuid).Ok? ==>
                && r == Ok(Story(old(nextStoryId), UploadUrl(cfg, media, "stories", uuid).value, userId, ExpiryFor(now)))
                && r.value.expiresAt == now + 24 * 60 * 60
                && stories == old(stories) + [r.value]
                && nextStoryId == old(nextStoryId) + 1
    {
      var url := UploadUrl(cfg, media, "stories", uuid);
      if url.Err? {
        return Err(url.error);
      }
      var story := InsertStory(url.value, userId, ExpiryFor(now));
      r := Ok(story);
    }

    /** The insert of `create_story`: a new story row with the next id. */
    method InsertStory(mediaUrl: string, userId: int, expiresAt: int) returns (story: Story)
      requires Valid()
      modifies this`stories, this`nextStoryId
      ensures Valid()
      ensures story == Story(old(nextStoryId), mediaUrl, userId, expiresAt)
      ensures stories == old(stories) + [story] && nextStoryId == old(nextStoryId) + 1
    {
      story := Story(nextStoryId, mediaUrl, userId, expiresAt);
      KeysFreshAppend(stories, StoryKey, nextStoryId, story);
      stories := stories + [story];
      nextStoryId := nextStoryId + 1;
    }

    /** `delete_story`: only the owner's own story; None (what the admin route
        passes) matches none. A miss is reported in the reply, not raised. */
    method DeleteStory(storyId: int, user: Option<int>) returns (r: StoryReply)
      requires Valid()
      modifies this`stories
      ensures Valid()
      ensures FirstIndex(old(stories), OwnStory(storyId, user)).None? ==>
                r == StoryError("Story not found or not owned by user") && unchanged(this)
      ensures r.StoryMessage? <==> exists k :: 0 <= k < |old(stories)| && old(stories)[k].id == storyId
                                              && user == Some(old(stories)[k].ownerId)
      ensures r.StoryMessage? ==>
                && r.message == "Deleted story " + IntText(storyId)
                && stories == RemoveAt(old(stories), FirstIndex(old(stories), OwnStory(storyId, user)).value)
                && (forall j :: 0 <= j < |stories| ==> stories[j].id != storyId)
    {
      var found := FirstIndex(stories, OwnStory(storyId, user));
      if found.None? {
        return StoryError("Story not found or not owned by user");
      }
      KeysFreshRemove(stories, StoryKey, nextStoryId, found.value);
      stories := RemoveAt(stories, found.value);
      r := StoryMessage("Deleted story " + IntText(storyId));
    }
  }
}
