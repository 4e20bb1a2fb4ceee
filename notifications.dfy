/** routes/notifications.js (mounted at /api/notifications): a user's recent
    notifications and marking one of them read. */
module NotificationRoutes {
  import opened Common
  import opened Sorting
  import opened Store
  import opened Sessions
  import opened AuthGuards

  const PageSize: nat := 10

  /** `ORDER BY created_at DESC` */
  predicate NewerFirst(x: Notification, y: Notification) {
    x.createdAt >= y.createdAt
  }

  lemma NewerFirstIsTotalOrder()
    ensures Total(NewerFirst) && Transitive(NewerFirst)
  {
  }

  /** `WHERE user_id = $1`: every row of the user exactly as often as it is
      stored, and no other row. */
  function OwnedBy(notifications: seq<Notification>, userId: int): (r: seq<Notification>)
    ensures forall n :: n in r <==> n in notifications && n.userId == userId
    ensures forall n :: multiset(r)[n] == if n.userId == userId then multiset(notifications)[n] else 0
  {
    Filter(notifications, (n: Notification) => n.userId == userId)
  }

  /** The user's notifications in `ORDER BY created_at DESC` order: sorted, and
      a rearrangement of exactly the user's rows. */
  lemma NewestOwnFirst(notifications: seq<Notification>, userId: int)
    ensures var sorted := SortBy(OwnedBy(notifications, userId), NewerFirst);
      && SortedBy(sorted, NewerFirst)
      && |sorted| == |OwnedBy(notifications, userId)|
      && forall n :: n in sorted <==> n in notifications && n.userId == userId
  {
    var own := OwnedBy(notifications, userId);
    var sorted := SortBy(own, NewerFirst);
    NewerFirstIsTotalOrder();
    SortBySorted(own, NewerFirst);
    assert |multiset(sorted)| == |multiset(own)|;
    assert forall n :: n in sorted <==> n in multiset(own);
  }

  /** `LIMIT 10` of a newest-first list leaves out nothing newer than the tenth row. */
  lemma OmittedAreOlder(sorted: seq<Notification>)
    requires SortedBy(sorted, NewerFirst) && |sorted| >= PageSize
    ensures forall n :: n in sorted && n !in sorted[..PageSize] ==>
      n.createdAt <= sorted[PageSize - 1].createdAt
  {
    forall n | n in sorted && n !in sorted[..PageSize]
      ensures n.createdAt <= sorted[PageSize - 1].createdAt
    {
      var k :| 0 <= k < |sorted| && sorted[k] == n;
      if k >= PageSize {
        assert NewerFirst(sorted[PageSize - 1], sorted[k]);
      }
    }
  }

  /** `WHERE user_id = $1 ORDER BY created_at DESC LIMIT 10`: only the user's own
      notifications, newest first, at most ten, and none left out that is newer
      than the oldest one shown. */
  function Recent(notifications: seq<Notification>, userId: int): (r: seq<Notification>)
    ensures forall n :: n in r ==> n in notifications && n.userId == userId
    ensures SortedBy(r, NewerFirst)
    ensures |r| == if |OwnedBy(notifications, userId)| < PageSize
                   then |OwnedBy(notifications, userId)| else PageSize
    ensures forall n :: n in notifications && n.userId == userId && n !in r ==>
      |r| == PageSize && n.createdAt <= r[PageSize - 1].createdAt
  {
    var sorted := SortBy(OwnedBy(notifications, userId), NewerFirst);
    NewestOwnFirst(notifications, userId);
    if |sorted| < PageSize then sorted
    else
      OmittedAreOlder(sorted);
      assert forall n :: n in sorted[..PageSize] ==> n in sorted;
      sorted[..PageSize]
  }

  /** `LIMIT 10` keeps a prefix of the sorted rows, so no notification of the
      user is shown more often than it is stored, and no other row is shown. */
  lemma RecentRowsOnce(notifications: seq<Notification>, userId: int)
    ensures multiset(Recent(notifications, userId)) <= multiset(OwnedBy(notifications, userId))
  {
    var sorted := SortBy(OwnedBy(notifications, userId), NewerFirst);
    if |sorted| >= PageSize {
      assert sorted == sorted[..PageSize] + sorted[PageSize..];
    }
  }

  datatype ListResult =
    | Unauthenticated                        // 401 "Not authenticated"
    | Listed(notifications: seq<Notification>)

  /** GET /api/notifications. `!userId` also rejects the id 0. */
  function ListNotifications(db: Db, user: Option<SessionUser>): (r: ListResult)
    reads db
    ensures r.Unauthenticated? <==> user.None? || user.value.id == 0
    ensures r.Listed? ==> r.notifications == Recent(db.notifications, user.value.id)
  {
    if user.None? || user.value.id == 0 then Unauthenticated
    else Listed(Recent(db.notifications, user.value.id))
  }

  /** The route lists requireLogin first, which redirects a missing session
      user to "/"; the handler's 401 is reached only by a session user whose
      id is 0. */
  lemma ListBehindLogin(db: Db, user: Option<SessionUser>)
    ensures user.None? ==> RequireLogin(user) == RedirectTo("/")
    ensures RequireLogin(user) == Proceed && ListNotifications(db, user).Unauthenticated?
        <==> user.Some? && user.value.id == 0
  {
  }

  /** `SELECT id FROM notifications WHERE id = $1 AND user_id = $2` is non-empty. */
  predicate Owns(notifications: seq<Notification>, notificationId: int, userId: int) {
    exists n :: n in notifications && n.id == notificationId && n.userId == userId
  }

  /** `UPDATE notifications SET is_read = true WHERE id = $1` */
  function SetRead(notifications: seq<Notification>, notificationId: int): (r: seq<Notification>)
    ensures |r| == |notifications|
    ensures forall i :: 0 <= i < |r| ==>
      r[i] == if notifications[i].id == notificationId
              then notifications[i].(isRead := true) else notifications[i]
  {
    seq(|notifications|, i requires 0 <= i < |notifications| =>
      if notifications[i].id == notificationId
      then notifications[i].(isRead := true) else notifications[i])
  }

  /** With unique ids, marking a notification read changes that one row only,
      and only its read flag. */
  lemma SetReadChangesOneRow(notifications: seq<Notification>, notificationId: int, k: int)
    requires DistinctBy(notifications, (n: Notification) => n.id)
    requires 0 <= k < |notifications| && notifications[k].id == notificationId
    ensures SetRead(notifications, notificationId)[k] == notifications[k].(isRead := true)
    ensures forall i :: 0 <= i < |notifications| && i != k ==>
      SetRead(notifications, notificationId)[i] == notifications[i]
  {
    forall i | 0 <= i < |notifications| && i != k
      ensures SetRead(notifications, notificationId)[i] == notifications[i]
    {
      if i < k {
        assert notifications[i].id != notifications[k].id;
      } else {
        assert notifications[k].id != notifications[i].id;
      }
    }
  }

  /** Marking the same notification read twice leaves the same rows as once. */
  lemma SetReadIdempotent(notifications: seq<Notification>, notificationId: int)
    ensures SetRead(SetRead(notifications, notificationId), notificationId)
         == SetRead(notifications, notificationId)
  {
  }

  datatype MarkOutcome =
    | Marked                              // 200
    | NotificationNotFound(error: string) // 404
    | MarkFailed(error: string)           // 500

  /** POST /api/notifications/read/:id by the logged-in user `userId`: the
      ownership check comes before the write. `updateFails` stands for the
      UPDATE being refused, which the catch block answers with a 500. */
  method MarkRead(db: Db, notificationId: int, userId: int, updateFails: bool)
    returns (outcome: MarkOutcome)
    requires db.Valid()
    modifies db`notifications
    ensures db.Valid()
    ensures outcome == Marked <==> Owns(old(db.notifications), notificationId, userId) && !updateFails
    ensures outcome.NotificationNotFound? <==> !Owns(old(db.notifications), notificationId, userId)
    ensures outcome.NotificationNotFound? ==> outcome.error == "Notification not found"
    ensures outcome.MarkFailed? ==> outcome.error == "Failed to update notification"
    ensures outcome == Marked ==>
      db.notifications == SetRead(old(db.notifications), notificationId)
    ensures outcome != Marked ==> db.notifications == old(db.notifications)
  {
    if !Exists(db.notifications, (n: Notification) => n.id == notificationId && n.userId == userId) {
      return NotificationNotFound("Notification not found");
    }
    if updateFails {
      return MarkFailed("Failed to update notification");
    }
    db.notifications := SetRead(db.notifications, notificationId);
    outcome := Marked;
  }
}
