/** The post service's pure parts: the two visibility filters, the handling
    of attached media before a post is stored, and the field update. */
module Posts {
  import opened Results
  import opened Records
  import opened Listing
  import opened Uploads
  import opened UploadFacts

  function PostTime(p: Post): int
  {
    p.createdAt
  }

  /** `is_private == False OR (owner_id == current user if include_private else False)`. */
  function VisibleInFeed(currentUserId: int, includePrivate: bool): (r: Post -> bool)
    ensures forall p: Post :: !p.isPrivate ==> r(p)
    ensures forall p: Post :: r(p) && p.isPrivate ==> p.ownerId == currentUserId
    ensures !includePrivate ==> forall p: Post :: r(p) <==> !p.isPrivate
  {
    (p: Post) => !p.isPrivate || (includePrivate && p.ownerId == currentUserId)
  }

  /** `owner_id == userId AND (is_private == False OR owner_id == current user)`. */
  function VisibleOnProfile(userId: int, currentUserId: int): (r: Post -> bool)
    ensures forall p: Post :: r(p) <==> p.ownerId == userId && VisibleInFeed(currentUserId, true)(p)
    ensures userId == currentUserId ==> forall p: Post :: r(p) <==> p.ownerId == userId
  {
    (p: Post) => p.ownerId == userId && (!p.isPrivate || p.ownerId == currentUserId)
  }

  /** `get_all_posts`: the visible posts, newest first, windowed. Private
      posts appear only when asked for, and then only the caller's own. */
  function AllPosts(posts: seq<Post>, currentUserId: int, skip: nat, limit: nat, includePrivate: bool): (r: seq<Post>)
    ensures |r| == WindowSize(Count(posts, VisibleInFeed(currentUserId, includePrivate)), skip, limit) && |r| <= limit
    ensures forall i :: 0 <= i < |r| ==> r[i] in posts
    ensures forall i :: 0 <= i < |r| && r[i].isPrivate ==> includePrivate && r[i].ownerId == currentUserId
    ensures Ordered(r, PostTime, true)
    ensures SortedPage(r, posts, VisibleInFeed(currentUserId, includePrivate), PostTime, true, skip, limit)
    ensures multiset(r) <= multiset(Filter(posts, VisibleInFeed(currentUserId, includePrivate)))
  {
    SortByPage(posts, VisibleInFeed(currentUserId, includePrivate), PostTime, true, skip, limit);
    Window(SortBy(Filter(posts, VisibleInFeed(currentUserId, includePrivate)), PostTime, true), skip, limit)
  }

  /** Consecutive pages of the feed make up the page covering both. */
  lemma FeedPagesTile(posts: seq<Post>, currentUserId: int, includePrivate: bool, skip: nat, a: nat, b: nat)
    ensures AllPosts(posts, currentUserId, skip, a, includePrivate) + AllPosts(posts, currentUserId, skip + a, b, includePrivate)
            == AllPosts(posts, currentUserId, skip, a + b, includePrivate)
  {
    WindowsTile(SortBy(Filter(posts, VisibleInFeed(currentUserId, includePrivate)), PostTime, true), skip, a, b);
  }

  /** `get_posts_for_user`: the user's posts in table order, windowed; private
      ones only when the user is looking at their own profile. */
  function PostsForUser(posts: seq<Post>, userId: int, currentUserId: int, skip: nat, limit: nat): (r: seq<Post>)
    ensures |r| == WindowSize(Count(posts, VisibleOnProfile(userId, currentUserId)), skip, limit) && |r| <= limit
    ensures forall i :: 0 <= i < |r| ==> r[i] in posts && r[i].ownerId == userId
    ensures forall i :: 0 <= i < |r| && r[i].isPrivate ==> userId == currentUserId
    ensures multiset(r) <= multiset(Filter(posts, VisibleOnProfile(userId, currentUserId)))
  {
    WindowSubBag(Filter(posts, VisibleOnProfile(userId, currentUserId)), skip, limit);
    Window(Filter(posts, VisibleOnProfile(userId, currentUserId)), skip, limit)
  }

  /** Looking at one's own profile with a large enough page shows every own post, private or not. */
  lemma OwnProfileShowsAll(posts: seq<Post>, userId: int, limit: nat)
    requires |posts| <= limit
    ensures forall i :: 0 <= i < |posts| && posts[i].ownerId == userId ==>
              posts[i] in PostsForUser(posts, userId, userId, 0, limit)
  {
    WindowAll(Filter(posts, VisibleOnProfile(userId, userId)), limit);
  }

  /** An attachment whose filename is empty counts as no attachment. */
  function Attachment(f: Option<UploadFile>): (r: Option<UploadFile>)
    ensures r.Some? <==> f.Some? && f.value.filename != ""
    ensures r.Some? ==> r == f
  {
    if f.Some? && f.value.filename != "" then f else None
  }

  /** The media URLs a new post is stored with. */
  datatype PostMedia = PostMedia(imageUrl: Option<string>, videoUrl: Option<string>)

  const ImageFolder: string := "posts/images"
  const VideoFolder: string := "posts/videos"
  const NotAnImage: string := "Uploaded file for image is not an image type"
  const NotAVideo: string := "Uploaded file for video is not a video type"
  /** What the framework answers for an exception the service does not catch. */
  const InternalError: string := "Internal Server Error"

  /** One attachment of `create_post`: absent, rejected for its content type,
      or uploaded to `folder` under `uuid`. Without a content type the prefix
      test raises an AttributeError, which nothing catches: a 500. */
  function MediaUrl(cfg: StorageConfig, f: Option<UploadFile>, kind: string, folder: string,
                    uuid: string, mismatch: string): (r: Result<Option<string>>)
    ensures Attachment(f).None? ==> r == Ok(None)
    ensures Attachment(f).Some? && f.value.contentType.None? ==> r == Err(ServerError(InternalError))
    ensures Attachment(f).Some? && f.value.contentType.Some? && !StartsWith(f.value.contentType.value, kind) ==>
              r == Err(BadRequest(mismatch))
    ensures Attachment(f).Some? && f.value.contentType.Some? && StartsWith(f.value.contentType.value, kind) ==>
              match UploadUrl(cfg, f.value, folder, uuid)
              case Ok(url) => r == Ok(Some(url))
              case Err(e) => r == Err(e)
  {
    match Attachment(f)
    case None => Ok(None)
    case Some(file) =>
      if file.contentType.None? then Err(ServerError(InternalError))
      else if !StartsWith(file.contentType.value, kind) then Err(BadRequest(mismatch))
      else match UploadUrl(cfg, file, folder, uuid)
        case Ok(url) => Ok(Some(url))
        case Err(e) => Err(e)
  }

  /** The media part of `create_post`: the image is handled before the video,
      so an image error wins over a video error. */
  function PostMediaUrls(cfg: StorageConfig, image: Option<UploadFile>, video: Option<UploadFile>,
                         imageUuid: string, videoUuid: string): (r: Result<PostMedia>)
    ensures MediaUrl(cfg, image, "image/", ImageFolder, imageUuid, NotAnImage).Err? ==>
              r == Err(MediaUrl(cfg, image, "image/", ImageFolder, imageUuid, NotAnImage).error)
    ensures r.Ok? <==>
              MediaUrl(cfg, image, "image/", ImageFolder, imageUuid, NotAnImage).Ok?
              && MediaUrl(cfg, video, "video/", VideoFolder, videoUuid, NotAVideo).Ok?
    ensures r.Ok? ==>
              r.value.imageUrl == MediaUrl(cfg, image, "image/", ImageFolder, imageUuid, NotAnImage).value
              && r.value.videoUrl == MediaUrl(cfg, video, "video/", VideoFolder, videoUuid, NotAVideo).value
  {
    match MediaUrl(cfg, image, "image/", ImageFolder, imageUuid, NotAnImage)
    case Err(e) => Err(e)
    case Ok(imageUrl) =>
      match MediaUrl(cfg, video, "video/", VideoFolder, videoUuid, NotAVideo)
      case Err(e) => Err(e)
      case Ok(videoUrl) => Ok(PostMedia(imageUrl, videoUrl))
  }

  /** A post gets an image URL exactly when a named image was attached, its
      content type is an image type and the upload checks pass. */
  lemma ImageUrlPresent(cfg: StorageConfig, image: Option<UploadFile>, video: Option<UploadFile>,
                        imageUuid: string, videoUuid: string)
    requires PostMediaUrls(cfg, image, video, imageUuid, videoUuid).Ok?
    ensures var m := PostMediaUrls(cfg, image, video, imageUuid, videoUuid).value;
            (m.imageUrl.Some? <==> Attachment(image).Some?)
            && (m.imageUrl.Some? ==> image.value.contentType.Some? && StartsWith(image.value.contentType.value, "image/")
                                     && ValidateUpload(image.value).Ok?)
            && (m.videoUrl.Some? <==> Attachment(video).Some?)
            && (m.videoUrl.Some? ==> video.value.contentType.Some? && StartsWith(video.value.contentType.value, "video/")
                                     && ValidateUpload(video.value).Ok?)
  {
  }

  /** The media a post is created with can be deleted again by `delete_post`:
      each stored URL names its own key, which lies under posts/. */
  lemma StoredMediaDeletable(cfg: StorageConfig, image: Option<UploadFile>, video: Option<UploadFile>,
                             imageUuid: string, videoUuid: string)
    requires UuidText(imageUuid) && UuidText(videoUuid)
    requires PostMediaUrls(cfg, image, video, imageUuid, videoUuid).Ok?
    ensures var m := PostMediaUrls(cfg, image, video, imageUuid, videoUuid).value;
            (m.imageUrl.Some? ==> DeleteKey(cfg, m.imageUrl.value).Ok?)
            && (m.videoUrl.Some? ==> DeleteKey(cfg, m.videoUrl.value).Ok?)
  {
    var m := PostMediaUrls(cfg, image, video, imageUuid, videoUuid).value;
    if m.imageUrl.Some? {
      PostMediaDeletable(cfg, image.value, ImageFolder, imageUuid);
    }
    if m.videoUrl.Some? {
      PostMediaDeletable(cfg, video.value, VideoFolder, videoUuid);
    }
  }

  /** The body of a post update. `is_private` is a plain boolean defaulting to
      false, so it is always present. */
  datatype PostUpdate = PostUpdate(caption: Option<string>, isPrivate: bool)

  /** The update a request body produces: an omitted `is_private` takes the default false. */
  function UpdateBody(caption: Option<string>, isPrivate: Option<bool>): (u: PostUpdate)
    ensures u.caption == caption
    ensures u.isPrivate <==> isPrivate == Some(true)
  {
    PostUpdate(caption, if isPrivate.Some? then isPrivate.value else false)
  }

  /** `update_post`'s field assignments: the caption only when given, the
      privacy flag always, every other field kept. */
  function ApplyUpdate(p: Post, u: PostUpdate): (r: Post)
    ensures r.caption == (if u.caption.Some? then u.caption else p.caption)
    ensures r.isPrivate == u.isPrivate
    ensures r.(caption := p.caption, isPrivate := p.isPrivate) == p
  {
    var p1 := if u.caption.Some? then p.(caption := u.caption) else p;
    p1.(isPrivate := u.isPrivate)
  }

  /** Because the flag is always present, an update that leaves out
      `is_private` makes a private post public. */
  lemma OmittedPrivacyPublishes(p: Post, caption: Option<string>)
    ensures !ApplyUpdate(p, UpdateBody(caption, None)).isPrivate
  {
  }

  /** Applying the same update twice is applying it once. */
  lemma ApplyUpdateIdempotent(p: Post, u: PostUpdate)
    ensures ApplyUpdate(ApplyUpdate(p, u), u) == ApplyUpdate(p, u)
  {
  }
}
