/** The read side of the notification service and the value-level effect of
    marking notifications read. */
module Notifications {
  import opened Results
  import opened Records
  import opened Listing

  /** The notification types `create_notification` accepts. */
  const ValidKinds: set<string> := {"like", "comment", "follow"}

  function NotificationTime(n: Notification): int
  {
    n.createdAt
  }

  /** WHERE user_id = userId. */
  function ForRecipient(userId: int): Notification -> bool
  {
    (n: Notification) => n.userId == userId
  }

  /** WHERE user_id = userId AND is_read = false. */
  function UnreadFor(userId: int): Notification -> bool
  {
    (n: Notification) => n.userId == userId && !n.isRead
  }

  /** `get_user_notifications`: the user's notifications, newest first, windowed. */
  function UserNotifications(ns: seq<Notification>, userId: int, skip: nat, limit: nat): (r: seq<Notification>)
    ensures |r| == WindowSize(Count(ns, ForRecipient(userId)), skip, limit) && |r| <= limit
    ensures forall i :: 0 <= i < |r| ==> r[i] in ns && r[i].userId == userId
    ensures Ordered(r, NotificationTime, true)
    ensures SortedPage(r, ns, ForRecipient(userId), NotificationTime, true, skip, limit)
    ensures multiset(r) <= multiset(Filter(ns, ForRecipient(userId)))
  {
    SortByPage(ns, ForRecipient(userId), NotificationTime, true, skip, limit);
    Window(SortBy(Filter(ns, ForRecipient(userId)), NotificationTime, true), skip, limit)
  }

  /** Consecutive pages of a user's notifications make up the page covering both. */
  lemma NotificationPagesTile(ns: seq<Notification>, userId: int, skip: nat, a: nat, b: nat)
    ensures UserNotifications(ns, userId, skip, a) + UserNotifications(ns, userId, skip + a, b)
            == UserNotifications(ns, userId, skip, a + b)
  {
    WindowsTile(SortBy(Filter(ns, ForRecipient(userId)), NotificationTime, true), skip, a, b);
  }

  /** `get_unread_notification_count`. */
  function UnreadCount(ns: seq<Notification>, userId: int): (n: nat)
    ensures n <= |ns|
    ensures n == 0 <==> forall i :: 0 <= i < |ns| && ns[i].userId == userId ==> ns[i].isRead
  {
    CountZero(ns, UnreadFor(userId));
    Count(ns, UnreadFor(userId))
  }

  /** The table after the bulk UPDATE of `mark_all_notifications_as_read`. */
  function MarkAllRead(ns: seq<Notification>, userId: int): (r: seq<Notification>)
    ensures |r| == |ns|
    ensures forall i :: 0 <= i < |ns| ==> r[i] == ns[i].(isRead := ns[i].isRead || ns[i].userId == userId)
  {
    if ns == [] then []
    else
      var n := ns[0];
      [if UnreadFor(userId)(n) then n.(isRead := true) else n] + MarkAllRead(ns[1..], userId)
  }

  /** A table that agrees with mark-all row by row is the result of mark-all. */
  lemma MarkAllReadPointwise(ns: seq<Notification>, r: seq<Notification>, userId: int)
    requires |r| == |ns|
    requires forall j :: 0 <= j < |ns| ==> r[j] == ns[j].(isRead := ns[j].isRead || ns[j].userId == userId)
    ensures r == MarkAllRead(ns, userId)
  {
  }

  /** After mark-all the user has no unread notification. */
  lemma MarkAllClearsUnread(ns: seq<Notification>, userId: int)
    ensures UnreadCount(MarkAllRead(ns, userId), userId) == 0
  {
    var r := MarkAllRead(ns, userId);
    assert forall i :: 0 <= i < |r| ==> !UnreadFor(userId)(r[i]);
    CountNone(r, UnreadFor(userId));
  }

  /** Mark-all a second time changes nothing. */
  lemma MarkAllIdempotent(ns: seq<Notification>, userId: int)
    ensures MarkAllRead(MarkAllRead(ns, userId), userId) == MarkAllRead(ns, userId)
  {
    var r := MarkAllRead(ns, userId);
    assert forall i :: 0 <= i < |r| ==> MarkAllRead(r, userId)[i] == r[i];
  }

  /** Mark-all leaves every other user's notifications as they were. */
  lemma {:induction false} MarkAllOthersUntouched(ns: seq<Notification>, userId: int, other: int)
    requires other != userId
    ensures Filter(MarkAllRead(ns, userId), ForRecipient(other)) == Filter(ns, ForRecipient(other))
  {
    if ns != [] {
      MarkAllOthersUntouched(ns[1..], userId, other);
      assert MarkAllRead(ns, userId)[1..] == MarkAllRead(ns[1..], userId);
    }
  }

  /** The number of positions at which two equally long tables differ: the
      rowcount of an UPDATE that turned `a` into `b`. */
  function ChangedRows(a: seq<Notification>, b: seq<Notification>): nat
    requires |a| == |b|
  {
    if a == [] then 0 else (if a[0] != b[0] then 1 else 0) + ChangedRows(a[1..], b[1..])
  }

  /** Mark-all changes exactly the user's unread rows, so the rowcount it
      reports is the unread count before the update. */
  lemma {:induction false} MarkAllRowcount(ns: seq<Notification>, userId: int)
    ensures ChangedRows(ns, MarkAllRead(ns, userId)) == UnreadCount(ns, userId)
  {
    if ns != [] {
      MarkAllRowcount(ns[1..], userId);
      assert MarkAllRead(ns, userId)[1..] == MarkAllRead(ns[1..], userId);
    }
  }

  /** Marking one row read: the only change is that row's flag. */
  function MarkOneRead(ns: seq<Notification>, i: nat): (r: seq<Notification>)
    requires i < |ns|
    ensures |r| == |ns| && r[i].isRead
    ensures r[i] == ns[i].(isRead := true)
    ensures forall j :: 0 <= j < |ns| && j != i ==> r[j] == ns[j]
  {
    ns[i := ns[i].(isRead := true)]
  }

  /** Marking an unread notification read lowers its recipient's unread count
      by one; marking a read one again changes nothing. */
  lemma MarkOneUnreadCount(ns: seq<Notification>, i: nat)
    requires i < |ns|
    ensures UnreadCount(MarkOneRead(ns, i), ns[i].userId)
            == UnreadCount(ns, ns[i].userId) - (if ns[i].isRead then 0 else 1)
    ensures ns[i].isRead ==> MarkOneRead(ns, i) == ns
  {
    CountUpdate(ns, i, ns[i].(isRead := true), UnreadFor(ns[i].userId));
  }
}
