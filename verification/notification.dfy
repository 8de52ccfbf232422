/** The notification centre (`app/components/Notification.tsx`): the
    provider's list of notifications, newest first, the four operations
    that replace it, the duration a new notification is stored with, and
    the two timers that may remove it. The id and the time stamp come from
    the clock and are parameters here; two notifications may share an id. */
module Notifications {
  import opened Common
  import Lists
  import opened Messages

  /** What a caller passes to `addNotification` (the action's click
      handler is not modelled, only its label). */
  datatype NotificationInput = NotificationInput(
    kind: Kind, title: Option<string>, message: string,
    duration: Option<int>, persistent: bool, action: Option<string>)

  /** A stored notification; `read` is absent (false) until `markAsRead`. */
  datatype Notification = Notification(
    id: string, kind: Kind, title: Option<string>, message: string,
    duration: int, persistent: bool, action: Option<string>,
    timestamp: int, read: bool)

  const DefaultDuration := 5000

  /** `duration || (persistent ? 0 : 5000)`: a given non-zero duration is
      kept; otherwise a persistent notification stays (0) and any other
      waits 5000 ms. A non-persistent notification never ends up with 0. */
  function StoredDuration(duration: Option<int>, persistent: bool): (r: int)
    ensures Truthy(duration) ==> r == duration.value
    ensures !Truthy(duration) ==> r == if persistent then 0 else DefaultDuration
    ensures !persistent ==> r != 0
  {
    OrElse(duration, if persistent then 0 else DefaultDuration)
  }

  /** The provider's removal timer: started for a notification that is not
      persistent and whose stored duration is positive, with that delay. */
  function AutoRemoveDelay(input: NotificationInput): (r: Option<int>)
    ensures r.Some? <==> !input.persistent && StoredDuration(input.duration, input.persistent) > 0
    ensures r.Some? ==> r.value == StoredDuration(input.duration, input.persistent)
  {
    var d := StoredDuration(input.duration, input.persistent);
    if !input.persistent && d > 0 then Some(d) else None
  }

  /** A persistent notification is never removed by the provider's timer;
      any other is removed after 5000 ms unless it gives its own duration.
      A negative duration disables only the provider's timer: the item's
      own timer still hides and removes it (see `ItemAndProviderAgree`). */
  lemma AutoRemoveCases(input: NotificationInput)
    ensures input.persistent ==> AutoRemoveDelay(input).None?
    ensures !input.persistent && !Truthy(input.duration) ==> AutoRemoveDelay(input) == Some(DefaultDuration)
    ensures !input.persistent && input.duration.Some? && input.duration.value > 0 ==>
              AutoRemoveDelay(input) == Some(input.duration.value)
    ensures input.duration.Some? && input.duration.value < 0 ==> AutoRemoveDelay(input).None?
  {
  }

  /** The notification `addNotification` builds: the caller's fields, the
      clock's id and time stamp, and the stored duration. */
  function Stamp(input: NotificationInput, id: string, now: int): (r: Notification)
    ensures r.id == id && r.timestamp == now && !r.read
    ensures r.duration == StoredDuration(input.duration, input.persistent)
    ensures r.kind == input.kind && r.title == input.title && r.message == input.message &&
            r.persistent == input.persistent && r.action == input.action
  {
    Notification(id, input.kind, input.title, input.message,
                 StoredDuration(input.duration, input.persistent), input.persistent, input.action,
                 now, false)
  }

  /** The hide timer of `NotificationItem`: every notification that is not
      persistent, after `duration || 5000`. */
  function ItemHideDelay(n: Notification): (r: Option<int>)
    ensures r.None? <==> n.persistent
    ensures r.Some? ==> r.value == OrElse(Some(n.duration), DefaultDuration)
  {
    if n.persistent then None else Some(OrElse(Some(n.duration), DefaultDuration))
  }

  /** For a stored notification the item's timer waits exactly the stored
      duration, so whenever the provider schedules a removal both timers
      have the same delay. With a negative duration only the item's timer
      runs (`setTimeout` fires a negative delay at once), and it still
      hides and then removes the notification. */
  lemma ItemAndProviderAgree(input: NotificationInput, id: string, now: int)
    ensures !input.persistent ==>
              ItemHideDelay(Stamp(input, id, now)) == Some(StoredDuration(input.duration, input.persistent))
    ensures AutoRemoveDelay(input).Some? ==> ItemHideDelay(Stamp(input, id, now)) == AutoRemoveDelay(input)
    ensures !input.persistent && input.duration.Some? && input.duration.value < 0 ==>
              AutoRemoveDelay(input).None? && ItemHideDelay(Stamp(input, id, now)) == Some(input.duration.value)
  {
    var n := Stamp(input, id, now);
    if !input.persistent {
      assert n.duration != 0;
    }
  }

  function NotificationId(n: Notification): string
  {
    n.id
  }

  predicate HasId(id: string, n: Notification)
  {
    n.id == id
  }

  function SetRead(n: Notification): Notification
  {
    n.(read := true)
  }

  /** `prev.map(n => n.id === id ? { ...n, read: true } : n)`: the entries
      with that id become read, nothing else changes. */
  function MarkRead(ns: seq<Notification>, id: string): (r: seq<Notification>)
    ensures |r| == |ns|
    ensures forall i :: 0 <= i < |ns| ==> r[i].(read := ns[i].read) == ns[i]
    ensures forall i :: 0 <= i < |ns| ==> r[i].read == (ns[i].read || ns[i].id == id)
  {
    Lists.MapWhere(ns, n => HasId(id, n), SetRead)
  }

  /** Marking twice is marking once. */
  lemma MarkReadIdempotent(ns: seq<Notification>, id: string)
    ensures MarkRead(MarkRead(ns, id), id) == MarkRead(ns, id)
  {
    var once := MarkRead(ns, id);
    var twice := MarkRead(once, id);
    forall i | 0 <= i < |ns| ensures twice[i] == once[i] {
      assert twice[i].(read := once[i].read) == once[i];
    }
  }

  /** Removing a notification after marking it read leaves the same list
      as removing it straight away. */
  lemma {:induction false} MarkThenRemove(ns: seq<Notification>, id: string)
    ensures Lists.RemoveKey(MarkRead(ns, id), NotificationId, id) == Lists.RemoveKey(ns, NotificationId, id)
  {
    if ns != [] {
      var m := MarkRead(ns, id);
      assert m == [m[0]] + m[1..];
      assert ns == [ns[0]] + ns[1..];
      assert m[1..] == MarkRead(ns[1..], id);
      MarkThenRemove(ns[1..], id);
      Lists.RemoveKeyAppend([m[0]], m[1..], NotificationId, id);
      Lists.RemoveKeyAppend([ns[0]], ns[1..], NotificationId, id);
      if ns[0].id != id {
        assert m[0] == ns[0];
      } else {
        assert m[0].id == id;
        assert Lists.RemoveKey([m[0]], NotificationId, id) == [];
        assert Lists.RemoveKey([ns[0]], NotificationId, id) == [];
      }
    }
  }

  /** A notification just added under a fresh id, then removed by that id,
      leaves the list as it was before. */
  lemma AddThenRemove(ns: seq<Notification>, n: Notification)
    requires forall i :: 0 <= i < |ns| ==> ns[i].id != n.id
    ensures Lists.RemoveKey([n] + ns, NotificationId, n.id) == ns
  {
    Lists.RemoveKeyFresh(ns, n, NotificationId);
  }

  /** The state held by `NotificationProvider`. */
  class NotificationCenter {
    var notifications: seq<Notification>

    constructor()
      ensures notifications == []
    {
      notifications := [];
    }

    /** `addNotification`: the new notification goes in front of the others,
        which keep their order; the returned delay is the removal timer it
        starts, if any. */
    method AddNotification(input: NotificationInput, id: string, now: int) returns (removeAfter: Option<int>)
      modifies this
      ensures notifications == [Stamp(input, id, now)] + old(notifications)
      ensures removeAfter == AutoRemoveDelay(input)
    {
      var n := Stamp(input, id, now);
      notifications := [n] + notifications;
      removeAfter := AutoRemoveDelay(input);
    }

    /** `removeNotification(id)`: every notification with that id goes. */
    method RemoveNotification(id: string)
      modifies this
      ensures notifications == Lists.RemoveKey(old(notifications), NotificationId, id)
    {
      notifications := Lists.RemoveKey(notifications, NotificationId, id);
    }

    /** `clearNotifications()`. */
    method ClearNotifications()
      modifies this
      ensures notifications == []
    {
      notifications := [];
    }

    /** `markAsRead(id)`. */
    method MarkAsRead(id: string)
      modifies this
      ensures notifications == MarkRead(old(notifications), id)
    {
      notifications := MarkRead(notifications, id);
    }
  }
}
