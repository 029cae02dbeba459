/** The read side of the follow service: who follows a user, whom a user
    follows, and the set of followed users the feeds are built from. */
module Follows {
  import opened Records
  import opened Listing

  /** The follower column of a list of follow rows, in order. */
  function FollowerIds(fs: seq<Follow>): (r: seq<int>)
    ensures |r| == |fs|
    ensures forall i :: 0 <= i < |fs| ==> r[i] == fs[i].followerId
  {
    if fs == [] then [] else [fs[0].followerId] + FollowerIds(fs[1..])
  }

  /** The followed column of a list of follow rows, in order. */
  function FollowingIds(fs: seq<Follow>): (r: seq<int>)
    ensures |r| == |fs|
    ensures forall i :: 0 <= i < |fs| ==> r[i] == fs[i].followingId
  {
    if fs == [] then [] else [fs[0].followingId] + FollowingIds(fs[1..])
  }

  /** The rows of the join `User JOIN Follow ON follower_id = User.id WHERE following_id = userId`. */
  function FollowerRow(userId: int, users: set<int>): Follow -> bool
  {
    (f: Follow) => f.followingId == userId && f.followerId in users
  }

  /** The rows of the join `User JOIN Follow ON following_id = User.id WHERE follower_id = userId`. */
  function FollowingRow(userId: int, users: set<int>): Follow -> bool
  {
    (f: Follow) => f.followerId == userId && f.followingId in users
  }

  /** `get_followers`: the users following `userId`, windowed, in table order. */
  function Followers(follows: seq<Follow>, users: set<int>, userId: int, skip: nat, limit: nat): (r: seq<int>)
    ensures |r| == WindowSize(Count(follows, FollowerRow(userId, users)), skip, limit) && |r| <= limit
    ensures forall i :: 0 <= i < |r| ==> r[i] in users && Follow(r[i], userId) in follows
  {
    var rows := Filter(follows, FollowerRow(userId, users));
    var r := Window(FollowerIds(rows), skip, limit);
    assert forall i :: 0 <= i < |r| ==> rows[skip + i] == Follow(r[i], userId);
    r
  }

  /** `get_following`: the users `userId` follows, windowed, in table order. */
  function Following(follows: seq<Follow>, users: set<int>, userId: int, skip: nat, limit: nat): (r: seq<int>)
    ensures |r| == WindowSize(Count(follows, FollowingRow(userId, users)), skip, limit) && |r| <= limit
    ensures forall i :: 0 <= i < |r| ==> r[i] in users && Follow(userId, r[i]) in follows
  {
    var rows := Filter(follows, FollowingRow(userId, users));
    var r := Window(FollowingIds(rows), skip, limit);
    assert forall i :: 0 <= i < |r| ==> rows[skip + i] == Follow(userId, r[i]);
    r
  }

  /** A first page large enough lists every existing follower. */
  lemma FollowersComplete(follows: seq<Follow>, users: set<int>, userId: int, limit: nat)
    requires |follows| <= limit
    ensures forall f :: f in users && Follow(f, userId) in follows ==> f in Followers(follows, users, userId, 0, limit)
  {
    var rows := Filter(follows, FollowerRow(userId, users));
    WindowAll(FollowerIds(rows), limit);
    forall f | f in users && Follow(f, userId) in follows
      ensures f in Followers(follows, users, userId, 0, limit)
    {
      var k :| 0 <= k < |follows| && follows[k] == Follow(f, userId);
      var j :| 0 <= j < |rows| && rows[j] == follows[k];
      assert FollowerIds(rows)[j] == f;
    }
  }

  /** A first page large enough lists every existing followed user. */
  lemma FollowingComplete(follows: seq<Follow>, users: set<int>, userId: int, limit: nat)
    requires |follows| <= limit
    ensures forall g :: g in users && Follow(userId, g) in follows ==> g in Following(follows, users, userId, 0, limit)
  {
    var rows := Filter(follows, FollowingRow(userId, users));
    WindowAll(FollowingIds(rows), limit);
    forall g | g in users && Follow(userId, g) in follows
      ensures g in Following(follows, users, userId, 0, limit)
    {
      var k :| 0 <= k < |follows| && follows[k] == Follow(userId, g);
      var j :| 0 <= j < |rows| && rows[j] == follows[k];
      assert FollowingIds(rows)[j] == g;
    }
  }

  /** With no repeated follow pair, nobody is listed twice as a follower. */
  lemma FollowersDistinct(follows: seq<Follow>, users: set<int>, userId: int, skip: nat, limit: nat)
    requires Distinct(follows)
    ensures Distinct(Followers(follows, users, userId, skip, limit))
  {
    var rows := Filter(follows, FollowerRow(userId, users));
    FilterDistinct(follows, FollowerRow(userId, users));
    assert forall i :: 0 <= i < |rows| ==> rows[i] == Follow(FollowerIds(rows)[i], userId);
    WindowDistinct(FollowerIds(rows), skip, limit);
  }

  /** With no repeated follow pair, nobody is listed twice as followed. */
  lemma FollowingDistinct(follows: seq<Follow>, users: set<int>, userId: int, skip: nat, limit: nat)
    requires Distinct(follows)
    ensures Distinct(Following(follows, users, userId, skip, limit))
  {
    var rows := Filter(follows, FollowingRow(userId, users));
    FilterDistinct(follows, FollowingRow(userId, users));
    assert forall i :: 0 <= i < |rows| ==> rows[i] == Follow(userId, FollowingIds(rows)[i]);
    WindowDistinct(FollowingIds(rows), skip, limit);
  }

  /** The subquery `SELECT following_id FROM follows WHERE follower_id = userId`. */
  function FollowedBy(follows: seq<Follow>, userId: int): (r: set<int>)
    ensures forall u :: u in r <==> Follow(userId, u) in follows
  {
    var r := set i | 0 <= i < |follows| && follows[i].followerId == userId :: follows[i].followingId;
    assert forall u :: Follow(userId, u) in follows ==> u in r by {
      forall u | Follow(userId, u) in follows ensures u in r {
        var k :| 0 <= k < |follows| && follows[k] == Follow(userId, u);
      }
    }
    r
  }
}
