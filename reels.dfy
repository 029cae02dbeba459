/** The read side of the reel service. */
module Reels {
  import opened Records
  import opened Listing
  import opened Follows

  /** WHERE owner_id = userId. */
  function OwnedBy(userId: int): Reel -> bool
  {
    (r: Reel) => r.ownerId == userId
  }

  /** WHERE owner_id IN owners. */
  function OwnedByAny(owners: set<int>): Reel -> bool
  {
    (r: Reel) => r.ownerId in owners
  }

  /** `get_user_reels`: the user's reels in table order, windowed. */
  function UserReels(reels: seq<Reel>, userId: int, skip: nat, limit: nat): (r: seq<Reel>)
    ensures |r| == WindowSize(Count(reels, OwnedBy(userId)), skip, limit) && |r| <= limit
    ensures forall i :: 0 <= i < |r| ==> r[i] in reels && r[i].ownerId == userId
    ensures multiset(r) <= multiset(Filter(reels, OwnedBy(userId)))
  {
    WindowSubBag(Filter(reels, OwnedBy(userId)), skip, limit);
    Window(Filter(reels, OwnedBy(userId)), skip, limit)
  }

  /** `get_following_reels`: the reels of users the current user follows, windowed. */
  function FollowingReels(reels: seq<Reel>, follows: seq<Follow>, currentUserId: int, skip: nat, limit: nat): (r: seq<Reel>)
    ensures |r| == WindowSize(Count(reels, OwnedByAny(FollowedBy(follows, currentUserId))), skip, limit)
    ensures |r| <= limit
    ensures forall i :: 0 <= i < |r| ==> r[i] in reels && Follow(currentUserId, r[i].ownerId) in follows
    ensures multiset(r) <= multiset(Filter(reels, OwnedByAny(FollowedBy(follows, currentUserId))))
  {
    WindowSubBag(Filter(reels, OwnedByAny(FollowedBy(follows, currentUserId))), skip, limit);
    Window(Filter(reels, OwnedByAny(FollowedBy(follows, currentUserId))), skip, limit)
  }

  /** A first page large enough holds every reel of every followed user. */
  lemma FollowingReelsComplete(reels: seq<Reel>, follows: seq<Follow>, currentUserId: int, limit: nat)
    requires |reels| <= limit
    ensures forall i :: 0 <= i < |reels| && Follow(currentUserId, reels[i].ownerId) in follows ==>
              reels[i] in FollowingReels(reels, follows, currentUserId, 0, limit)
  {
    WindowAll(Filter(reels, OwnedByAny(FollowedBy(follows, currentUserId))), limit);
  }

  /** Nobody who never followed themselves sees their own reels in the feed. */
  lemma FeedHasNoOwnReels(reels: seq<Reel>, follows: seq<Follow>, currentUserId: int, skip: nat, limit: nat)
    requires Follow(currentUserId, currentUserId) !in follows
    ensures forall i :: 0 <= i < |FollowingReels(reels, follows, currentUserId, skip, limit)| ==>
              FollowingReels(reels, follows, currentUserId, skip, limit)[i].ownerId != currentUserId
  {
  }
}
