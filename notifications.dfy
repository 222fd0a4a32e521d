/**
 * The notification list behind the toasts: add (with a scheduled automatic
 * removal), remove by id and clear. The random id is a parameter and each
 * `setTimeout` is an entry in `scheduled` that fires when `FireTimer` is
 * called for it.
 */
module Notifications {
  import opened Wrappers
  import opened IdLists

  datatype Status = Success | Error | Warning | Info

  /** What a caller passes to `addNotification`: a notification without its id. */
  datatype NotificationInput = NotificationInput(title: string, description: string, status: Status, duration: Option<int>)

  datatype Notification = Notification(id: string, title: string, description: string, status: Status, duration: Option<int>)

  /** A pending `setTimeout` that will remove the notification `id`. */
  datatype Timer = Timer(id: string, delay: int)

  function NotificationId(n: Notification): string { n.id }

  /** `{ ...notification, id }`. */
  function WithId(n: NotificationInput, id: string): (r: Notification)
    ensures r.id == id
    ensures r.title == n.title && r.description == n.description && r.status == n.status && r.duration == n.duration
  {
    Notification(id, n.title, n.description, n.status, n.duration)
  }

  const DefaultDuration := 4000

  /** `notification.duration || 4000`: an absent or zero duration falls back to four seconds. */
  function DismissDelay(duration: Option<int>): (d: int)
    ensures d != 0
    ensures duration.Some? && duration.value != 0 ==> d == duration.value
    ensures duration.None? || duration.value == 0 ==> d == DefaultDuration
  {
    if duration.Some? && duration.value != 0 then duration.value else DefaultDuration
  }

  class NotificationList {
    var notifications: seq<Notification>
    var scheduled: seq<Timer>

    /** Ids are unique among the shown notifications. */
    predicate Valid()
      reads this
    {
      UniqueIds(notifications, NotificationId)
    }

    constructor()
      ensures notifications == [] && scheduled == []
      ensures Valid()
    {
      notifications := [];
      scheduled := [];
    }

    /**
     * `addNotification`: the notification is appended with the new id, its
     * removal is scheduled after its delay, and the id is returned.
     */
    method AddNotification(n: NotificationInput, newId: string) returns (id: string)
      modifies this
      ensures id == newId
      ensures notifications == old(notifications) + [WithId(n, newId)]
      ensures scheduled == old(scheduled) + [Timer(newId, DismissDelay(n.duration))]
      ensures old(Valid()) && newId !in Ids(old(notifications), NotificationId) ==> Valid()
    {
      id := newId;
      var added := WithId(n, id);
      if Valid() && id !in Ids(notifications, NotificationId) {
        AppendKeepsUnique(notifications, NotificationId, added);
      }
      notifications := notifications + [added];
      scheduled := scheduled + [Timer(id, DismissDelay(n.duration))];
    }

    /** `removeNotification`: every notification with that id goes, the rest keep their order. */
    method RemoveNotification(id: string)
      modifies this
      ensures notifications == RemoveId(old(notifications), NotificationId, id)
      ensures scheduled == old(scheduled)
      ensures old(Valid()) ==> Valid()
    {
      if Valid() {
        RemoveIdKeepsUnique(notifications, NotificationId, id);
      }
      notifications := RemoveId(notifications, NotificationId, id);
    }

    /** `clearAll`: the list empties; timers already scheduled stay pending. */
    method ClearAll()
      modifies this
      ensures notifications == []
      ensures scheduled == old(scheduled)
      ensures Valid()
    {
      notifications := [];
    }

    /**
     * The `setTimeout` callback of timer `k` runs: it leaves the pending set
     * and has exactly the effect of `removeNotification` with its id.
     */
    method FireTimer(k: nat)
      requires k < |scheduled|
      modifies this
      ensures notifications == RemoveId(old(notifications), NotificationId, old(scheduled)[k].id)
      ensures scheduled == old(scheduled)[..k] + old(scheduled)[k + 1..]
      ensures old(Valid()) ==> Valid()
    {
      var id := scheduled[k].id;
      scheduled := scheduled[..k] + scheduled[k + 1..];
      RemoveNotification(id);
    }
  }
}
