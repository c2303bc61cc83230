/** The notification handlers: a user's latest notifications, marking one or
    all of them read, and the unread count. Every handler acts on the
    caller's own notifications only. */
module NotificationsController {
  import opened Base
  import opened Seqs
  import opened NotificationSchema

  /** The most notifications `getUserNotifications` returns. */
  const PAGE_LIMIT: nat := 50

  ghost predicate UniqueNotificationIds(ns: seq<Notification>) {
    forall i, j :: 0 <= i < j < |ns| ==> ns[i].id != ns[j].id
  }

  predicate Unread(n: Notification, user: Id) {
    n.userId == user && !n.read
  }

  /** `countDocuments({ userId, read: false })`. */
  function UnreadCount(ns: seq<Notification>, user: Id): (c: nat)
    ensures c <= |ns|
    ensures c == 0 <==> forall i :: 0 <= i < |ns| ==> !Unread(ns[i], user)
  {
    var unread := Filter(ns, (n: Notification) => Unread(n, user));
    assert unread == [] <==> forall i :: 0 <= i < |ns| ==> !Unread(ns[i], user) by {
      if unread != [] {
        assert unread[0] in ns;
      }
      if exists i :: 0 <= i < |ns| && Unread(ns[i], user) {
        var i :| 0 <= i < |ns| && Unread(ns[i], user);
        assert ns[i] in unread;
      }
    }
    |unread|
  }

  // ---------------------------------------------------------------- listing

  /** `find({ userId })`: the user's notifications in stored order. */
  function OwnedBy(ns: seq<Notification>, user: Id): (r: seq<Notification>)
    ensures forall n :: n in r <==> n in ns && n.userId == user
  {
    Filter(ns, (n: Notification) => n.userId == user)
  }

  /** `find({ userId }).sort({ createdAt: -1 }).limit(50)`: the user's own
      notifications, all of them or 50 when there are more. */
  function UserNotifications(ns: seq<Notification>, user: Id): (r: seq<Notification>)
    ensures |r| <= PAGE_LIMIT
    ensures |r| == if |OwnedBy(ns, user)| < PAGE_LIMIT then |OwnedBy(ns, user)| else PAGE_LIMIT
    ensures forall i :: 0 <= i < |r| ==> r[i] in ns && r[i].userId == user
    ensures multiset(r) <= multiset(OwnedBy(ns, user))
  {
    TopBy(OwnedBy(ns, user), CreatedAt, PAGE_LIMIT)
  }

  /** The sort key of the listing. */
  function CreatedAt(n: Notification): int {
    n.createdAt
  }

  /** The listing is newest first, and no notification left out is newer
      than one kept. */
  lemma UserNotificationsAreNewest(ns: seq<Notification>, user: Id)
    ensures var r := UserNotifications(ns, user);
            && (forall a, b :: 0 <= a < b < |r| ==> r[a].createdAt >= r[b].createdAt)
            && (forall n :: n in ns && n.userId == user && n !in r ==>
                  forall i :: 0 <= i < |r| ==> r[i].createdAt >= n.createdAt)
  {
  }

  // ---------------------------------------------------------------- updates

  /** The notification `findOneAndUpdate({ _id: id, userId: user })`
      matches: the caller's own, with that id. */
  function FindOwned(ns: seq<Notification>, id: Id, user: Id): (r: Option<nat>)
    ensures r.Some? ==> r.value < |ns| && ns[r.value].id == id && ns[r.value].userId == user
    ensures r.Some? ==> forall j :: 0 <= j < r.value ==> !(ns[j].id == id && ns[j].userId == user)
    ensures r.None? <==> forall j :: 0 <= j < |ns| ==> !(ns[j].id == id && ns[j].userId == user)
  {
    FirstIndex(ns, (n: Notification) => n.id == id && n.userId == user)
  }

  /** `{ read: true }` on the caller's notification with that id, when there
      is one. */
  function MarkRead(ns: seq<Notification>, id: Id, user: Id): (r: seq<Notification>)
    ensures |r| == |ns|
    ensures forall i :: 0 <= i < |ns| ==> r[i].(read := ns[i].read) == ns[i]
    ensures FindOwned(ns, id, user).None? ==> r == ns
    ensures FindOwned(ns, id, user).Some? ==>
              && r[FindOwned(ns, id, user).value].read
              && forall i :: 0 <= i < |ns| && i != FindOwned(ns, id, user).value ==> r[i] == ns[i]
  {
    match FindOwned(ns, id, user)
    case None => ns
    case Some(k) => ns[k := ns[k].(read := true)]
  }

  /** `updateMany({ userId, read: false }, { read: true })`. */
  function MarkAllRead(ns: seq<Notification>, user: Id): (r: seq<Notification>)
    ensures |r| == |ns|
    ensures forall i :: 0 <= i < |ns| ==> r[i].(read := ns[i].read) == ns[i]
    ensures forall i :: 0 <= i < |ns| && ns[i].userId == user ==> r[i].read
    ensures forall i :: 0 <= i < |ns| && ns[i].userId != user ==> r[i] == ns[i]
  {
    seq(|ns|, i requires 0 <= i < |ns| => if Unread(ns[i], user) then ns[i].(read := true) else ns[i])
  }

  /** Marking one notification read twice is marking it once. */
  lemma MarkReadIdempotent(ns: seq<Notification>, id: Id, user: Id)
    ensures MarkRead(MarkRead(ns, id, user), id, user) == MarkRead(ns, id, user)
  {
    var once := MarkRead(ns, id, user);
    match FindOwned(ns, id, user)
    case None =>
    case Some(k) =>
      assert once[k].id == id && once[k].userId == user;
      assert FindOwned(once, id, user) == Some(k);
  }

  /** A user's notifications are untouched by another user's mark-read:
      the `userId` in the filter keeps callers apart. */
  lemma MarkReadSparesOthers(ns: seq<Notification>, id: Id, caller: Id, other: Id)
    requires other != caller
    ensures Filter(MarkRead(ns, id, caller), (n: Notification) => n.userId == other)
         == Filter(ns, (n: Notification) => n.userId == other)
  {
    match FindOwned(ns, id, caller)
    case None =>
    case Some(k) =>
      var p := (n: Notification) => n.userId == other;
      FilterUpdate(ns, k, ns[k].(read := true), p);
      FilterSingleton(ns[k], p);
      FilterSingleton(ns[k].(read := true), p);
  }

  /** Marking one read lowers the unread count by one when it was unread,
      and leaves it as it was otherwise. */
  lemma {:induction false} MarkReadCount(ns: seq<Notification>, id: Id, user: Id)
    ensures var k := FindOwned(ns, id, user);
            UnreadCount(MarkRead(ns, id, user), user)
              == if k.Some? && !ns[k.value].read then UnreadCount(ns, user) - 1 else UnreadCount(ns, user)
  {
    match FindOwned(ns, id, user)
    case None =>
    case Some(k) =>
      var p := (n: Notification) => Unread(n, user);
      FilterUpdate(ns, k, ns[k].(read := true), p);
      FilterSingleton(ns[k], p);
      FilterSingleton(ns[k].(read := true), p);
  }

  /** Right after mark-all, the unread count is zero. */
  lemma MarkAllLeavesNoneUnread(ns: seq<Notification>, user: Id)
    ensures UnreadCount(MarkAllRead(ns, user), user) == 0
  {
    var r := MarkAllRead(ns, user);
    assert forall i :: 0 <= i < |r| ==> !Unread(r[i], user);
  }

  /** Mark-all is idempotent. */
  lemma MarkAllIdempotent(ns: seq<Notification>, user: Id)
    ensures MarkAllRead(MarkAllRead(ns, user), user) == MarkAllRead(ns, user)
  {
  }

  // ------------------------------------------------------------------ store

  /** The Notification collection and the handlers that read and change it. */
  class NotificationsStore {
    var notifications: seq<Notification>

    ghost predicate Valid()
      reads this
    {
      UniqueNotificationIds(notifications)
    }

    constructor ()
      ensures Valid() && notifications == []
    {
      notifications := [];
    }

    /** `Notification.create(draft)`; `newId` is the ObjectId Mongoose
        generates. */
    method CreateNotification(d: NotificationDraft, newId: Id, now: Time) returns (r: Result<Notification>)
      requires Valid()
      requires forall i :: 0 <= i < |notifications| ==> notifications[i].id != newId
      modifies this
      ensures Valid()
      ensures r == ValidateNotification(d, newId, now)
      ensures r.Ok? ==> notifications == old(notifications) + [r.value]
      ensures r.Err? ==> notifications == old(notifications)
    {
      r := ValidateNotification(d, newId, now);
      if r.Ok? {
        notifications := notifications + [r.value];
      }
    }

    /** `getUserNotifications`. */
    method GetUserNotifications(caller: Id) returns (reply: Reply<seq<Notification>>)
      ensures reply == Reply(OK, Payload(UserNotifications(notifications, caller)))
    {
      reply := Reply(OK, Payload(UserNotifications(notifications, caller)));
    }

    /** `markNotificationAsRead`: 404 for a missing id and for someone
        else's notification. */
    method MarkNotificationAsRead(id: Id, caller: Id) returns (reply: Reply<Notification>)
      requires Valid()
      modifies this
      ensures Valid()
      ensures notifications == MarkRead(old(notifications), id, caller)
      ensures FindOwned(old(notifications), id, caller).None? ==>
                reply == Reply(NOT_FOUND, Message("Notification not found"))
      ensures FindOwned(old(notifications), id, caller).Some? ==>
                reply == Reply(OK, Payload(notifications[FindOwned(old(notifications), id, caller).value]))
    {
      var found := FindOwned(notifications, id, caller);
      if found.None? {
        reply := Reply(NOT_FOUND, Message("Notification not found"));
      } else {
        notifications := MarkRead(notifications, id, caller);
        reply := Reply(OK, Payload(notifications[found.value]));
      }
    }

    /** `markAllNotificationsAsRead`. */
    method MarkAllNotificationsAsRead(caller: Id) returns (reply: Reply<()>)
      requires Valid()
      modifies this
      ensures Valid()
      ensures notifications == MarkAllRead(old(notifications), caller)
      ensures reply == Reply(OK, Message("All notifications marked as read"))
    {
      notifications := MarkAllRead(notifications, caller);
      reply := Reply(OK, Message("All notifications marked as read"));
    }

    /** `getUnreadCount`. */
    method GetUnreadCount(caller: Id) returns (reply: Reply<nat>)
      ensures reply == Reply(OK, Payload(UnreadCount(notifications, caller)))
    {
      reply := Reply(OK, Payload(UnreadCount(notifications, caller)));
    }
  }
}
