# Engagement, notification and social-graph store of a photo-sharing backend

This project models the engagement and social-graph core of a photo-sharing web
service. Users publish posts, reels and stories, like and comment on posts,
reply to comments, follow one another and receive notifications. It also models
the pure string logic the service uses to check uploaded media and to turn a
stored media URL back into a storage key before deleting it.

The database is one object, `Store.Db`. Each table is a sequence field in
insertion order: posts, likes, comments, notifications, follows, reels and
stories. The users are a set, and every autoincrement key has its own counter.
Each service function that writes to the database is a method of `Db`. It
either returns the error the service raises (`NotFound`, `BadRequest`,
`Forbidden`, `TooLarge`, `ServerError`), leaving the store unchanged, or it
returns the service's answer and the new tables. The read-only queries are
functions on the tables:
- filters are named predicates;
- `ORDER BY created_at` is a stable sort;
- `OFFSET skip LIMIT limit` is `Listing.Window`.

Every method keeps the invariant `Db.Valid()`, which is several field-framed
conditions:
- keys are positive, below their counter and never repeated;
- no two like rows are equal and no two follow rows are equal;
- likes and comments refer only to post ids that were handed out;
- follows connect existing users;
- every post's `like_count` is the number of its likes, and its
  `comment_count` is the number of its top-level comments.

Module layout:
- `results.dfy`: the `Option`, `Error` and `Result` types.
- `records.dfy`: the table rows.
- `listing.dfy`: generic filter, count, first-match, delete-at, sort and window, with their lemmas.
- `text.dfy`: the decimal rendering of ids and counts in messages.
- `uploads.dfy`: the upload checks and storage URLs, and the facts that connect them.
- `comments.dfy`: the reads of the comment service.
- `notifications.dfy`: the reads of the notification service, and the bulk mark-as-read.
- `follows.dfy`: the follower and following listings.
- `posts.dfy`: post visibility, attachment handling and the partial update.
- `reels.dfy`: the reel listings.
- `stories.dfy`: the story listings and the story expiry.
- `integrity.dfy`: the store invariant and the lemmas that say which changes keep it.
- `store.dfy`: the `Db` class and the services that write to it.
- `engagement.dfy`: the engagement routes.

The clock and the generated uuids are parameters: `now` is an integer number of
seconds, and each uuid is a string. The storage bucket and region are a
`StorageConfig` value.

## Model

| member | source | states |
|---|---|---|
| Store.Db.CreateNotification | app/services/notification.py:17-32 | A type outside like/comment/follow fails with BadRequest "Invalid notification type" and stores nothing. Otherwise exactly one unread row is appended, with the next id and the given recipient, sender, type, post and comment. Sender may equal recipient. |
| Store.Db.LikePost | app/services/like.py:9-44 | A missing post fails NotFound, then an existing (user, post) like fails BadRequest "Post already liked", both with no change. Success holds exactly when neither applies. The like is appended and the post's like_count becomes the recount, one more than before. A "like" notification to the owner with this post and no comment is appended exactly when the owner is not the liker. |
| Store.Db.InsertLike | app/services/like.py:26-31 | The appended like and the post's like_count set to the recount of its likes (pending insert included), keeping the store invariant. |
| Store.LikeLookup | app/services/like.py:17-23 | The duplicate-like query finds a row exactly when the (user, post) pair is in the table, and the row it finds is that pair. |
| Store.Db.UnlikePost | app/services/like.py:46-67 | A missing (user, post) like fails NotFound with no change. Otherwise the first matching row is deleted and the post, if it still exists, gets its like_count recounted. No notification is created. |
| Store.Db.DeleteLike | app/services/like.py:56-63 | The delete and the recount: the likes table without that row, and the post's like_count lowered by one only when the post exists, keeping the invariant. |
| Store.UnlikeRemovesOnlyThatLike | app/services/like.py:48-56 | With no repeated like rows, the unlike's delete removes exactly the caller's like (multiset difference) and leaves no copy of it. |
| Store.LikeThenUnlike | app/services/like.py:26-56 | Unliking right after a like finds the appended row and gives back the likes table as it was before the like. |
| Integrity.LikeAddedAgrees | app/services/like.py:26-31 | A new like on a post not liked that way before keeps every counter equal to its recount and raises only that post's like count by one. |
| Integrity.LikeRemovedAgrees | app/services/like.py:56-63 | Deleting a like and lowering its post's counter, when the post exists, keeps every counter equal to its recount. |
| Store.Db.CreateComment | app/services/comment.py:10-70 | A missing post fails NotFound. A truthy parent id naming no comment fails NotFound "Parent comment not found". Both leave no change, and success holds exactly when neither applies. There is no depth check. The new row stores the caller's post id, user, content and parent id. comment_count rises by one only when parent_id is None. The notices of CommentNotices are appended. |
| Store.Db.InsertComment | app/services/comment.py:29-45 | The appended comment with the next id, and the post's comment counter raised by one for a top-level comment and unchanged for a reply, keeping the invariant. |
| Store.CommentNotices | app/services/comment.py:50-68 | The comment notifications: at most two, each from the commenter to someone else, of type "comment", naming the post and the comment. The first goes to the owner exactly when the owner is not the commenter. The last goes to the parent's author exactly when that author is not the commenter. Both may go to the same user. |
| Store.ParentAuthor | app/services/comment.py:22-26 | A reply's parent author is found exactly when the parent id is truthy and names a comment, and it is the author of a comment with that id. |
| Store.Db.NotifyComment | app/services/comment.py:50-68 | Appends exactly the CommentNotices rows with consecutive ids. |
| Integrity.CommentAddedAgrees | app/services/comment.py:40-45 | A new comment keeps every comment_count equal to its post's number of top-level comments when its own post's counter moves by one for a top-level comment and by zero for a reply. |
| Store.Db.DeleteComment | app/services/comment.py:145-168 | Unless a comment matches both the id and the user it fails NotFound with no change. Otherwise it removes just that row and lowers the post's comment_count by one only for a top-level comment whose post exists. A user of None (IS NULL) matches no comment. |
| Integrity.CommentRemovedAgrees | app/services/comment.py:158-166 | Removing a comment and uncounting it only when it is top-level keeps every comment_count equal to its recount. |
| Comments.TopLevelPage | app/services/comment.py:78-86 | The page holds exactly the window size of the post's top-level comments, at most limit. All rows are from the table, on that post and without a parent, newest first. Equivalently, it is the window of some ordering of exactly those rows, so no row is repeated or skipped between pages. |
| Comments.TopLevelPagesTile | app/services/comment.py:78-86 | The page at skip with limit a followed by the page at skip + a with limit b is the page at skip with limit a + b. |
| Comments.RepliesToAny | app/services/comment.py:92-98 | The replies to any of the ids are the same multiset as the matching rows of the table, oldest first. |
| Comments.GroupReplies | app/services/comment.py:102-106 | The grouping loop gives a key exactly for the parents that have replies. Each group is the replies with that parent in their original order. |
| Comments.GroupOfReplies | app/services/comment.py:89-106 | A returned comment's group exists exactly when it has replies, and it then holds all its replies in the table, oldest first. |
| Comments.RepliesOfPage | app/services/comment.py:89-106 | Groups the replies of the page's comments. Keys are ids of page comments only, and each page comment's group is exactly its replies, oldest first. |
| Comments.CommentsForPost | app/services/comment.py:73-112 | The page is TopLevelPage. Keys of the grouping are ids of returned comments only. Every returned comment's group is exactly its replies, oldest first. |
| Comments.CommentReplies | app/services/comment.py:115-142 | total is the number of replies to the comment whatever the window. The window has the window size (at most limit), holds only replies to it, oldest first, and echoes skip and limit. Equivalently, it is the window of some ordering of exactly those rows, so no row is repeated or skipped between pages. |
| Comments.RepliesPagesTile | app/services/comment.py:115-142 | Consecutive windows of replies make up the window covering both. |
| Engagement.CreateNewComment | app/api/engagement.py:40-53 | The post-comment route always creates a top-level comment on the route's post with the given content. It fails NotFound exactly when the post is missing. On success the post's comment_count rises by one, and the CommentNotices for the owner (none for a parent) are appended. |
| Engagement.ReplyToComment | app/api/engagement.py:56-76 | A missing parent fails NotFound "Parent comment not found" before anything changes. Otherwise the reply is created on the parent's post with parent_id the route's comment id. It fails, unchanged, exactly when that post no longer exists. On success the posts table is unchanged, because a reply is not counted, and the CommentNotices for the post owner and the parent's author are appended. |
| Engagement.GetPostComments | app/api/engagement.py:80-115 | One entry per comment of the service's page, in its order. Each entry's replies are exactly that comment's replies, oldest first, or none. |
| Engagement.ResponseEntries | app/api/engagement.py:92-113 | The response loop yields one entry per comment of the page, in the page's order, each pairing the comment with its group or none. |
| Engagement.RepliesOrEmptyExact | app/api/engagement.py:110 | A comment's reply list, looked up with an empty default, is exactly its replies in the table, oldest first. |
| Engagement.GetCommentRepliesList | app/api/engagement.py:119-133 | The replies listing echoes the service's skip, limit and total, with at most limit replies of that comment, oldest first. Equivalently, it is the window of some ordering of exactly those rows, so no row is repeated or skipped between pages. |
| Engagement.DefaultRepliesPage | app/api/engagement.py:122-123 | Without paging arguments the replies listing starts at 0 with limit 5 and holds the first min(total, 5) replies. |
| Engagement.DeleteAComment | app/api/engagement.py:136-144 | For an admin the delete always fails NotFound with no change, because the service then filters on a null author. For anyone else it is the owner-only delete. |
| Notifications.UserNotifications | app/services/notification.py:34-48 | Only the user's notifications, the window size of them (at most limit), newest first. Equivalently, it is the window of some ordering of exactly those rows, so no row is repeated or skipped between pages. |
| Notifications.NotificationPagesTile | app/services/notification.py:34-48 | Consecutive pages of a user's notifications make up the page covering both. |
| Notifications.UnreadCount | app/services/notification.py:73-81 | The number of the user's unread notifications. It is zero exactly when all of them are read. |
| Store.Db.MarkNotificationAsRead | app/services/notification.py:50-61 | Fails NotFound with no change unless a notification has both the id and the user. Otherwise only that row's is_read becomes true, and that row is returned. |
| Notifications.MarkOneRead | app/services/notification.py:58 | Marking one row read changes only that row, and in it only is_read, which becomes true. |
| Notifications.MarkOneUnreadCount | app/services/notification.py:58-61 | Marking an unread notification read lowers its recipient's unread count by one. Marking a read one again leaves the table as it was. |
| Store.Db.MarkAllNotificationsAsRead | app/services/notification.py:63-71 | The table becomes MarkAllRead of the old one. The reported count is the number of rows the update changed, which equals the user's unread count before it. |
| Notifications.MarkAllRead | app/services/notification.py:64-69 | Row by row, is_read becomes true exactly on the user's rows and nothing else changes. |
| Notifications.MarkAllClearsUnread | app/services/notification.py:63-81 | After mark-all the user's unread count is 0. |
| Notifications.MarkAllIdempotent | app/services/notification.py:63-71 | Mark-all twice is mark-all once, so the second run changes no row. |
| Notifications.MarkAllOthersUntouched | app/services/notification.py:64-69 | Every other user's notifications are the same rows in the same order after mark-all. |
| Notifications.MarkAllRowcount | app/services/notification.py:64-71 | The rows mark-all changes are exactly the user's unread rows, so the rowcount equals the unread count before it. |
| Store.Db.FollowUser | app/services/follow.py:9-39 | A missing follower or followed user fails NotFound, checked first. Then following yourself fails BadRequest, then an existing pair fails BadRequest "Already following this user", all with no change. Success holds exactly when none applies. It appends exactly the pair and one unread "follow" notification to the followed user from the follower, with no post and no comment. |
| Store.FollowLookup | app/services/follow.py:19-26 | The existing-follow query finds a row exactly when the pair is in the table. |
| Store.Db.UnfollowUser | app/services/follow.py:41-54 | A missing pair fails NotFound with no change. Otherwise exactly that pair is removed (multiset difference), no copy remains, and no notification is created. |
| Store.FollowThenUnfollow | app/services/follow.py:28-52 | Unfollowing right after a follow gives back the follows table as it was. |
| Follows.Followers | app/services/follow.py:56-62 | Only existing users f with (f, u) followed, the window size of them, at most limit. |
| Follows.Following | app/services/follow.py:64-70 | Only existing users g with (u, g) followed, the window size of them, at most limit. |
| Follows.FollowersComplete | app/services/follow.py:56-62 | A first page at least as large as the table lists every follower. |
| Follows.FollowingComplete | app/services/follow.py:64-70 | A first page at least as large as the table lists every followed user. |
| Follows.FollowersDistinct | app/services/follow.py:56-62 | With no repeated pairs, no follower is listed twice. |
| Follows.FollowingDistinct | app/services/follow.py:64-70 | With no repeated pairs, no followed user is listed twice. |
| Follows.FollowedBy | app/services/reel.py:35 | The follow subquery holds u exactly when (current user, u) is a follow pair. |
| Posts.Attachment | app/services/post.py:26-29 | An attachment with an empty filename is treated as absent. Any other attachment is kept. |
| Posts.MediaUrl | app/services/post.py:34-48 | An absent attachment gives no URL. A named attachment without a content type fails with a server error, as calling startswith on None does. A content type not starting with the kind's prefix fails BadRequest with the kind's message. Otherwise the result is the upload's URL or its error. |
| Posts.PostMediaUrls | app/services/post.py:31-48 | The image is handled before the video, so an image error wins. Success holds exactly when both attachments pass. |
| Posts.ImageUrlPresent | app/services/post.py:34-48 | A created post has an image URL exactly when a named image was attached, and then its type is an image type and the upload checks passed. The same holds for video. |
| Store.Db.CreatePost | app/services/post.py:19-62 | A media error is returned with no change. Otherwise exactly one post is appended with the next id, the owner, caption, privacy, media URLs and zero counters. |
| Posts.AllPosts | app/services/post.py:65-89 | Only public posts, plus the caller's own private ones when include_private is set. The window size of them (at most limit), newest first. Equivalently, it is the window of some ordering of exactly those rows, so no row is repeated or skipped between pages. |
| Posts.FeedPagesTile | app/services/post.py:65-89 | Consecutive pages of the feed make up the page covering both. |
| Posts.VisibleInFeed | app/services/post.py:75-78 | Public posts always pass. A private post passes only if the caller owns it. Without include_private only public posts pass. |
| Posts.VisibleOnProfile | app/services/post.py:102-108 | A post passes the profile filter exactly when it is owned by the user and passes the feed filter with include_private set. On one's own profile every own post passes. |
| Posts.PostsForUser | app/services/post.py:92-123 | Only posts owned by the user. A private one appears only when the user is the caller. The window size of them, at most limit. A page takes no row more often than the selection holds it, so no row is repeated. |
| Posts.OwnProfileShowsAll | app/services/post.py:100-118 | On their own profile, with a large enough limit, a user sees every post they own, private ones included. |
| Store.Db.UpdatePost | app/services/post.py:132-159 | Fails NotFound with no change unless a post has both the id and the owner. Otherwise only that row changes, to ApplyUpdate of it, and it is returned. |
| Posts.ApplyUpdate | app/services/post.py:150-153 | The caption changes only when one is given. is_private is always taken from the update, and every other field is kept. |
| Posts.UpdateBody | app/schemas/post.py:6-14 | The update schema's is_private is a boolean that defaults to false, so an omitted flag reads as false. |
| Posts.OmittedPrivacyPublishes | app/services/post.py:152-153 | An update that leaves out is_private makes a private post public. |
| Posts.ApplyUpdateIdempotent | app/services/post.py:150-153 | Applying the same update twice is applying it once. |
| Store.Db.DeletePost | app/services/post.py:162-192 | A missing post fails NotFound, then a non-owner fails Forbidden, then a failing delete of the image and then of the video returns its error, all with no change. Success holds exactly when none applies, and then exactly that post is removed. |
| Store.MediaDeleteError | app/services/post.py:183-186 | An empty or missing URL triggers no delete. Any other URL is an error exactly when its delete check fails. |
| Store.OwnerMediaError | app/services/post.py:168-186 | A media error is only possible for an existing post deleted by its owner. |
| Store.CreatedPostDeletable | app/services/post.py:183-186 | A post stored with the media URLs that create_post produced is deleted by its owner without a media error. |
| Posts.StoredMediaDeletable | app/services/post.py:40-48 | Every URL create_post stores passes the delete check, since its key lies under posts/. |
| Integrity.PostAddedAgrees | app/services/post.py:50-58 | A new post with the next id and zero counters keeps the invariant. |
| Integrity.PostUpdatedAgrees | app/services/post.py:149-153 | Changing a post's caption or privacy keeps the invariant. |
| Integrity.PostRemovedAgrees | app/services/post.py:188-190 | Deleting a post row keeps the invariant. Likes and comments of a deleted post stay behind. |
| Store.Db.CreateReel | app/services/reel.py:9-24 | An upload error is returned with no change. Otherwise one reel is appended with the next id, the upload URL under reels/, the caption and owner = user. |
| Store.Db.InsertReel | app/services/reel.py:14-22 | The insert of a reel: one row appended with the next id, the URL, caption, owner and time, keeping the invariant. |
| Reels.UserReels | app/services/reel.py:27-32 | Only reels owned by the user, the window size of them, at most limit. A page takes no row more often than the selection holds it, so no row is repeated. |
| Reels.FollowingReels | app/services/reel.py:34-40 | Only reels whose owner the current user follows, the window size of them, at most limit. A page takes no row more often than the selection holds it, so no row is repeated. |
| Reels.FollowingReelsComplete | app/services/reel.py:34-40 | A first page as large as the table holds every reel of every followed user. |
| Reels.FeedHasNoOwnReels | app/services/reel.py:34-40 | A user who does not follow themselves never sees their own reels in the feed. |
| Store.Db.DeleteReel | app/services/reel.py:43-63 | With a user, only a reel with that id and owner can be deleted. With None (admin), any reel with that id can be. Anything else fails NotFound with no change. Success removes exactly one row, and no reel with that id remains. |
| Store.Db.CreateStory | app/services/story.py:13-27 | An upload error is returned with no change. Otherwise one story is appended with the upload URL under stories/, owner = user and expires_at = now + 24 hours. |
| Store.Db.InsertStory | app/services/story.py:18-25 | The insert of a story: one row appended with the next id, the URL, owner and expiry, keeping the invariant. |
| Stories.ExpiryFor | app/services/story.py:21 | A new story's expiry lies after its creation time. |
| Stories.UserStories | app/services/story.py:29-36 | Exactly the user's stories whose expires_at is strictly after now, in both directions. Each such story is listed exactly as often as the table holds it, and no other story is listed. |
| Stories.FollowingStories | app/services/story.py:38-46 | Exactly the unexpired stories whose owner the current user follows, in both directions. Each such story is listed exactly as often as the table holds it, and no other story is listed. |
| Stories.StoryListedForADay | app/services/story.py:21-33 | A story is listed at time t exactly while t is less than 24 hours after posting. |
| Stories.FeedShrinksOverTime | app/services/story.py:38-46 | A story the feed shows at a later time is also shown at every earlier time. |
| Store.Db.DeleteStory | app/services/story.py:49-58 | Without a story matching both id and owner, it returns the error reply without raising and changes nothing. An owner of None (the admin route) matches no story. Otherwise it removes exactly that story and answers "Deleted story {id}". |
| Text.NatTextRoundTrip | app/services/notification.py:71 | The decimal text of a count reads back as that count. |
| Text.IntTextInjective | app/services/story.py:58 | Different ids give different reply messages. |
| Uploads.ValidateUpload | app/utils/file_upload.py:49-70 | Missing metadata fails 400 first. A missing size then fails with "File upload failed", the catch-all for the comparison's TypeError. Then a size over 10 MiB fails 413. Success holds exactly when the content type is in the MIME table and the lower-cased extension is in its list, and then yields that extension. |
| UploadFacts.SizeLimitInclusive | app/utils/file_upload.py:56-57 | For a file with metadata and a size, the size check fails exactly when the size exceeds 10 MiB, so a file exactly at the limit passes. |
| Uploads.LastSegment | app/utils/file_upload.py:64 | The text after the last dot: a dot-free suffix preceded by a dot, or the whole name. |
| UploadFacts.ExtensionIsLoweredTail | app/utils/file_upload.py:64 | The extension is the lower-cased dot-free tail of the name: either the whole name or the part after its last dot. |
| UploadFacts.LastSegmentAfterDot | app/utils/file_upload.py:64 | The extension of stem + "." + ext is ext, whatever dots the stem holds. |
| UploadFacts.ExtensionWithoutDot | app/utils/file_upload.py:64 | A name with no dot is its own extension, lower-cased. |
| UploadFacts.AllowedExtensionsPlain | app/config.py:30-39 | Every accepted extension is lower-case letters and digits. |
| UploadFacts.StoredKeyKeepsExtension | app/utils/file_upload.py:64-73 | The storage key keeps the accepted extension as its own extension. |
| Uploads.StorageKey | app/utils/file_upload.py:73 | The key is the folder, a slash, the uuid, a dot and the extension: it starts with folder + "/" and ends with "." + ext. |
| Uploads.BaseUrl | app/utils/file_upload.py:96 | The bucket's URL prefix starts with the prefix the delete check looks for and ends with a slash. |
| Uploads.ObjectUrl | app/utils/file_upload.py:96 | An object's URL is the base URL followed by the key. |
| Uploads.UploadUrl | app/utils/file_upload.py:49-96 | An upload either fails with the validation error or yields base URL + folder/uuid.ext. |
| Uploads.KeyOfUrl | app/utils/file_upload.py:143-144 | A key is found exactly when the base URL occurs in the URL. It is then the text after the first occurrence up to the next '?' or the next occurrence of the base, whichever comes first (KeyText), and it holds no '?'. |
| Uploads.KeyTextPrefix | app/utils/file_upload.py:143-144 | The scan (KeyText) gives a prefix of the text with no '?' and no occurrence of the base inside it, followed by the end, a '?' or an occurrence of the base. |
| Uploads.KeyTextIsCut | app/utils/file_upload.py:143-144 | Splitting on the base and then on '?' gives the same text as the scan, and that text holds no '?'. |
| Uploads.DeleteKey | app/utils/file_upload.py:137-188 | A URL outside the bucket fails 400. A URL with the bucket prefix but without the configured base URL (another region, say) fails 500 "File deletion failed", the catch-all for the IndexError of the split. Success holds exactly when the bucket prefix is present and the key lies under uploads/, posts/ or temp-uploads/. Otherwise a found key fails 403. |
| UploadFacts.KeyOfObjectUrl | app/utils/file_upload.py:143-144 | A key without ':' or '?' is read back unchanged from its URL. |
| UploadFacts.KeyTextOfQuery | app/utils/file_upload.py:143-144 | For a key without ':' or '?', the scan over key + "?" + query stops exactly at the '?'. |
| UploadFacts.KeyOfPresignedUrl | app/utils/file_upload.py:143-144 | A URL with a query string, as a presigned URL has, gives back the key without the query. |
| UploadFacts.UploadedKeyRoundTrip | app/utils/file_upload.py:96-144 | Deleting by the URL an upload returned names exactly the key it stored. |
| UploadFacts.DeleteUploaded | app/utils/file_upload.py:137-151 | Deleting an uploaded URL succeeds with its key exactly when that key is under a deletable prefix, and fails 403 otherwise. |
| UploadFacts.PostMediaDeletable | app/utils/file_upload.py:147-151 | Media uploaded to posts/images or posts/videos can be deleted again. |
| UploadFacts.OtherMediaNotDeletable | app/utils/file_upload.py:147-151 | Media uploaded to reels, stories or profile_pictures always fails the delete with 403. |

## Left out

- Object storage: the upload and delete calls and their error mapping are not modelled. The delete check of a URL is modelled, and a passing check counts as a successful delete.
- Percent-encoding of the key in the upload URL is not modelled. The model treats every key as needing none.
- Password reset, profile edits and admin user management are not modelled.
- The media router is not modelled. Only its admin-to-None dispatch for stories is part of `Store.Db.DeleteStory`'s contract. The reel delete route (app/api/media.py:84-93) imports `service_delete_reel` at module level and again inside the function, after the admin branch. The local import makes the name local to the whole function, so the admin branch raises UnboundLocalError before any delete. Routing is out of this model, so the defect is only recorded here.
- Session mechanics are one sequential state change per call. These include commit and refresh, autoflush (the like recount is taken to see the pending row), eager loading of senders and posts, and the commit inside `create_notification`. The `ValueError` for a missing session is not modelled either.
- Concurrency is not modelled, including the race between the duplicate-like check and the insert.
- The clock and `uuid4()` are parameters of the methods that need them.
- skip and limit are natural numbers. A negative offset or limit is a database error, which is not modelled.
- `lower()` is modelled on ASCII letters only.
- A missing filename is the empty string, which the source treats like an absent one. A missing content type or size is `None`, with the error paths modelled above. A missing or empty URL is `None` or `""`, treated alike as Python falsiness.
- Deleting a post deletes no likes or comments, because no cascade is visible in the source. Deleting a comment likewise removes only that row.
- The model's sort keeps rows with equal `created_at` in table order. The source leaves their order unspecified, and the listing contracts (`Listing.SortedPage`) allow any order of such rows.
- Queries without ORDER BY (follower lists, reels, stories, a user's posts) return rows in table order.
- The users table is not changed by any modelled operation.
- `get_post_by_id_service` is a plain lookup and is not modelled.
- Store.Db.CreatePost: a new post starts with both counters at 0, the column defaults, because the defaults are not shown in the source.
- Engagement.CreateNewComment, Engagement.ReplyToComment: the 1000-character content limit of the request schema is a precondition. The framework rejects longer bodies before the route runs.
- Store.Db.UnlikePost: the facts that the delete removes only the caller's like and leaves no copy are stated by `Store.UnlikeRemovesOnlyThatLike` rather than in the method's own contract.
- Store.Db.DeleteComment: that the removal takes out one row and no comment with the id remains follows from `Listing.RemoveAtMultiset` and `Integrity.KeysFreshRemove`. These are not repeated in the method's contract.
