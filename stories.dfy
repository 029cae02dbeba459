/** The read side of the story service. Times are whole seconds. */
module Stories {
  import opened Records
  import opened Listing
  import opened Follows

  /** A story lives for 24 hours after it is posted. */
  const StoryLifetime: int := 24 * 60 * 60

  /** The expiry `create_story` stamps on a story posted at `now`. */
  function ExpiryFor(now: int): (e: int)
    ensures e > now
  {
    now + StoryLifetime
  }

  /** expires_at > now. */
  predicate Live(s: Story, now: int)
  {
    s.expiresAt > now
  }

  /** WHERE owner_id = userId AND expires_at > now. */
  function LiveOwnedBy(userId: int, now: int): Story -> bool
  {
    (s: Story) => s.ownerId == userId && Live(s, now)
  }

  /** WHERE expires_at > now AND owner_id IN owners. */
  function LiveOwnedByAny(owners: set<int>, now: int): Story -> bool
  {
    (s: Story) => Live(s, now) && s.ownerId in owners
  }

  /** `get_user_stories`: exactly the user's unexpired stories, in table order. */
  function UserStories(stories: seq<Story>, userId: int, now: int): (r: seq<Story>)
    ensures forall i :: 0 <= i < |r| ==> r[i] in stories && r[i].ownerId == userId && Live(r[i], now)
    ensures forall i :: 0 <= i < |stories| && stories[i].ownerId == userId && Live(stories[i], now) ==>
              stories[i] in r
    ensures forall s :: multiset(r)[s] == if s.ownerId == userId && Live(s, now) then multiset(stories)[s] else 0
  {
    FilterCounts(stories, LiveOwnedBy(userId, now));
    Filter(stories, LiveOwnedBy(userId, now))
  }

  /** `get_following_stories`: exactly the unexpired stories of followed users, in table order. */
  function FollowingStories(stories: seq<Story>, follows: seq<Follow>, currentUserId: int, now: int): (r: seq<Story>)
    ensures forall i :: 0 <= i < |r| ==>
              r[i] in stories && Live(r[i], now) && Follow(currentUserId, r[i].ownerId) in follows
    ensures forall i :: 0 <= i < |stories| && Live(stories[i], now)
                        && Follow(currentUserId, stories[i].ownerId) in follows ==>
              stories[i] in r
    ensures forall s :: multiset(r)[s] ==
              if Live(s, now) && Follow(currentUserId, s.ownerId) in follows then multiset(stories)[s] else 0
  {
    FilterCounts(stories, LiveOwnedByAny(FollowedBy(follows, currentUserId), now));
    Filter(stories, LiveOwnedByAny(FollowedBy(follows, currentUserId), now))
  }

  /** A story posted at `posted` is listed at time `t` exactly while less than
      24 hours have passed. */
  lemma StoryListedForADay(stories: seq<Story>, i: nat, posted: int, t: int)
    requires i < |stories| && stories[i].expiresAt == ExpiryFor(posted)
    ensures stories[i] in UserStories(stories, stories[i].ownerId, t) <==> t < posted + 24 * 60 * 60
  {
    if stories[i] in UserStories(stories, stories[i].ownerId, t) {
      var r := UserStories(stories, stories[i].ownerId, t);
      var k :| 0 <= k < |r| && r[k] == stories[i];
    }
  }

  /** Every story a feed shows at `t` is also shown at any earlier time: stories only drop out. */
  lemma FeedShrinksOverTime(stories: seq<Story>, follows: seq<Follow>, currentUserId: int, t0: int, t1: int)
    requires t0 <= t1
    ensures forall i :: 0 <= i < |FollowingStories(stories, follows, currentUserId, t1)| ==>
              FollowingStories(stories, follows, currentUserId, t1)[i] in FollowingStories(stories, follows, currentUserId, t0)
  {
    var r1 := FollowingStories(stories, follows, currentUserId, t1);
    forall i | 0 <= i < |r1| ensures r1[i] in FollowingStories(stories, follows, currentUserId, t0) {
      var k :| 0 <= k < |stories| && stories[k] == r1[i];
    }
  }
}
