/**
 * useChatNotifications (src/hooks/useRealTimeFeatures.js:36-74): the newest
 * ten chat notifications, newest first, with a read flag each.
 * `Date.now()` and `new Date()` are the parameter `now`.
 */
module ChatNotifications {

  const MaxNotifications: nat := 10

  datatype Notification = Notification(id: int, chatId: string, customerName: string, message: string, timestamp: int, read: bool)

  /** `[notification, ...prev.slice(0, 9)]` */
  function Added(notifications: seq<Notification>, n: Notification): seq<Notification> {
    [n] + notifications[..if |notifications| < MaxNotifications - 1 then |notifications| else MaxNotifications - 1]
  }

  /** `prev.map(n => n.id === notificationId ? { ...n, read: true } : n)` */
  function MarkedRead(notifications: seq<Notification>, notificationId: int): seq<Notification> {
    seq(|notifications|, i requires 0 <= i < |notifications| =>
      if notifications[i].id == notificationId then notifications[i].(read := true) else notifications[i])
  }

  /** `notifications.filter(n => !n.read)` */
  function Unread(notifications: seq<Notification>): seq<Notification> {
    if notifications == [] then []
    else (if !notifications[0].read then [notifications[0]] else []) + Unread(notifications[1..])
  }

  class NotificationCenter {
    var notifications: seq<Notification>

    constructor ()
      ensures notifications == []
    {
      notifications := [];
    }

    /** `addNotification(chatId, customerName, message)` at time `now`. */
    method AddNotification(chatId: string, customerName: string, message: string, now: int)
      modifies this
      ensures notifications == Added(old(notifications), Notification(now, chatId, customerName, message, now, false))
    {
      var notification := Notification(now, chatId, customerName, message, now, false);
      var kept := if |notifications| < MaxNotifications - 1 then |notifications| else MaxNotifications - 1;
      notifications := [notification] + notifications[..kept];
    }

    method MarkAsRead(notificationId: int)
      modifies this
      ensures notifications == MarkedRead(old(notifications), notificationId)
    {
      notifications := MarkedRead(notifications, notificationId);
    }

    method ClearAll()
      modifies this
      ensures notifications == []
    {
      notifications := [];
    }

    function UnreadCount(): nat
      reads this
    {
      |Unread(notifications)|
    }
  }

  /** The new notification comes first, the list never exceeds ten, and the rest are the newest of the old ones in their order. */
  lemma AddKeepsNewestTen(notifications: seq<Notification>, n: Notification)
    ensures var r := Added(notifications, n);
            && |r| <= MaxNotifications
            && |r| == (if |notifications| < MaxNotifications then |notifications| + 1 else MaxNotifications)
            && r[0] == n
            && forall i | 1 <= i < |r| :: r[i] == notifications[i - 1]
  {
  }

  /** A fresh notification is unread, so the count grows by one, less any unread one pushed out at the tail. */
  lemma {:induction false} UnreadAfterAdd(notifications: seq<Notification>, n: Notification)
    requires !n.read
    ensures |Unread(Added(notifications, n))| == 1 + |Unread(notifications[..if |notifications| < 9 then |notifications| else 9])|
  {
    var r := Added(notifications, n);
    assert r[0] == n && r[1..] == notifications[..if |notifications| < 9 then |notifications| else 9];
  }

  /** Marking touches only notifications carrying that id, sets them read, and changes nothing else about them. */
  lemma MarkTouchesOnlyThatId(notifications: seq<Notification>, notificationId: int)
    ensures var r := MarkedRead(notifications, notificationId);
            && |r| == |notifications|
            && (forall i | 0 <= i < |r| && notifications[i].id != notificationId :: r[i] == notifications[i])
            && (forall i | 0 <= i < |r| && notifications[i].id == notificationId :: r[i].read && r[i].(read := false) == notifications[i].(read := false))
  {
  }

  /** Marking twice is marking once. */
  lemma MarkIdempotent(notifications: seq<Notification>, notificationId: int)
    ensures MarkedRead(MarkedRead(notifications, notificationId), notificationId) == MarkedRead(notifications, notificationId)
  {
  }

  /** The number of unread notifications with a given id. */
  function UnreadWithId(notifications: seq<Notification>, notificationId: int): nat {
    if notifications == [] then 0
    else (if !notifications[0].read && notifications[0].id == notificationId then 1 else 0)
         + UnreadWithId(notifications[1..], notificationId)
  }

  /** Marking an id lowers the unread count by exactly the number of unread notifications with that id. */
  lemma {:induction false} MarkLowersUnreadCount(notifications: seq<Notification>, notificationId: int)
    ensures |Unread(MarkedRead(notifications, notificationId))| == |Unread(notifications)| - UnreadWithId(notifications, notificationId)
  {
    if notifications != [] {
      MarkLowersUnreadCount(notifications[1..], notificationId);
      assert MarkedRead(notifications, notificationId)[1..] == MarkedRead(notifications[1..], notificationId);
    }
  }

  /** Notifications are identified by the millisecond they were added in: two added in the same millisecond are marked read together. */
  lemma SameMillisecondMarkedTogether(chatId1: string, name1: string, text1: string, chatId2: string, name2: string, text2: string, now: int)
    ensures var l := Added(Added([], Notification(now, chatId1, name1, text1, now, false)), Notification(now, chatId2, name2, text2, now, false));
            var r := MarkedRead(l, now);
            |r| == 2 && r[0].read && r[1].read
  {
  }
}
