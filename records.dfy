/** The rows of the store's tables. Ids are the database's autoincrement keys;
    times are integer seconds supplied by the caller in place of the clock. */
module Records {
  import opened Results

  datatype Post = Post(
    id: nat,
    ownerId: int,
    caption: Option<string>,
    imageUrl: Option<string>,
    videoUrl: Option<string>,
    isPrivate: bool,
    likeCount: int,
    commentCount: int,
    createdAt: int)

  /** A like of `postId` by `userId`; nothing in the table itself forbids two equal rows. */
  datatype Like = Like(userId: int, postId: int)

  /** A comment; `parentId` is set for a reply. */
  datatype Comment = Comment(
    id: nat,
    userId: int,
    postId: int,
    parentId: Option<int>,
    content: string,
    createdAt: int)

  /** A notification to `userId` about an action of `senderId`. */
  datatype Notification = Notification(
    id: nat,
    userId: int,
    senderId: int,
    kind: string,
    postId: Option<int>,
    commentId: Option<int>,
    isRead: bool,
    createdAt: int)

  /** `followerId` follows `followingId`. */
  datatype Follow = Follow(followerId: int, followingId: int)

  datatype Reel = Reel(id: nat, videoUrl: string, caption: Option<string>, ownerId: int, createdAt: int)

  datatype Story = Story(id: nat, mediaUrl: string, ownerId: int, expiresAt: int)
}
