/** The toast messages (`app/components/Toast.tsx`): the list kept by the
    `useToast` hook, where new toasts go at the end, and the hide timer of
    the `Toast` component. The id comes from the clock and is a parameter
    here; two toasts may share an id. */
module Toasts {
  import opened Common
  import Lists
  import opened Messages

  datatype Position = TopRight | TopCenter | BottomRight | BottomCenter

  datatype ToastEntry = ToastEntry(id: string, kind: Kind, message: string, position: Option<Position>)

  const DefaultDuration := 3000

  function ToastId(t: ToastEntry): string
  {
    t.id
  }

  /** The `Toast` component hides itself after its duration (3000 ms when
      the prop is absent) while it is visible (by default it is), and only
      for a positive duration. */
  function ToastHideDelay(show: Option<bool>, duration: Option<int>): (r: Option<int>)
    ensures r.Some? <==> show != Some(false) && PropOr(duration, DefaultDuration) > 0
    ensures duration.None? && show != Some(false) ==> r == Some(DefaultDuration)
    ensures r.Some? && duration.Some? ==> r.value == duration.value
  {
    AutoHideDelay(show, duration, DefaultDuration)
  }

  /** A toast shown under a fresh id and then removed by that id leaves
      the list as it was. */
  lemma ShowThenRemove(ts: seq<ToastEntry>, t: ToastEntry)
    requires forall i :: 0 <= i < |ts| ==> ts[i].id != t.id
    ensures Lists.RemoveKey(ts + [t], ToastId, t.id) == ts
  {
    Lists.RemoveKeyFresh(ts, t, ToastId);
  }

  /** The state held by `useToast`. */
  class ToastQueue {
    var toasts: seq<ToastEntry>

    constructor()
      ensures toasts == []
    {
      toasts := [];
    }

    /** `showToast`: the new toast goes after the others, its id is
        returned, and a removal timer starts unless the duration is 0. */
    method ShowToast(kind: Kind, message: string, duration: Option<int>, position: Option<Position>, clockId: string)
      returns (id: string, removeAfter: Option<int>)
      modifies this
      ensures id == clockId
      ensures toasts == old(toasts) + [ToastEntry(id, kind, message, position)]
      ensures removeAfter == RemovalDelay(duration, DefaultDuration)
    {
      id := clockId;
      toasts := toasts + [ToastEntry(id, kind, message, position)];
      removeAfter := RemovalDelay(duration, DefaultDuration);
    }

    /** `removeToast(id)`, also what the removal timer runs. */
    method RemoveToast(id: string)
      modifies this
      ensures toasts == Lists.RemoveKey(old(toasts), ToastId, id)
    {
      toasts := Lists.RemoveKey(toasts, ToastId, id);
    }

    /** `clearToasts()`. */
    method ClearToasts()
      modifies this
      ensures toasts == []
    {
      toasts := [];
    }
  }
}
