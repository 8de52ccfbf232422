/** The alert messages (`app/components/Alert.tsx`): the list kept by the
    `useAlert` hook, where new alerts go at the end, and the hide timer of
    the `Alert` component. The id comes from the clock and is a parameter
    here; two alerts may share an id. */
module Alerts {
  import opened Common
  import Lists
  import opened Messages

  datatype AlertEntry = AlertEntry(id: string, kind: Kind, message: string)

  const DefaultDuration := 5000

  function AlertId(a: AlertEntry): string
  {
    a.id
  }

  /** The `Alert` component hides itself after its duration (5000 ms when
      the prop is absent) while it is visible (by default it is), and only
      for a positive duration. */
  function AlertHideDelay(show: Option<bool>, duration: Option<int>): (r: Option<int>)
    ensures r.Some? <==> show != Some(false) && PropOr(duration, DefaultDuration) > 0
    ensures duration.None? && show != Some(false) ==> r == Some(DefaultDuration)
    ensures r.Some? && duration.Some? ==> r.value == duration.value
  {
    AutoHideDelay(show, duration, DefaultDuration)
  }

  /** An alert shown under a fresh id and then removed by that id leaves
      the list as it was. */
  lemma ShowThenRemove(alerts: seq<AlertEntry>, a: AlertEntry)
    requires forall i :: 0 <= i < |alerts| ==> alerts[i].id != a.id
    ensures Lists.RemoveKey(alerts + [a], AlertId, a.id) == alerts
  {
    Lists.RemoveKeyFresh(alerts, a, AlertId);
  }

  /** The state held by `useAlert`. */
  class AlertQueue {
    var alerts: seq<AlertEntry>

    constructor()
      ensures alerts == []
    {
      alerts := [];
    }

    /** `showAlert`: the new alert goes after the others, its id is
        returned, and a removal timer starts unless the duration is 0. */
    method ShowAlert(kind: Kind, message: string, duration: Option<int>, clockId: string)
      returns (id: string, removeAfter: Option<int>)
      modifies this
      ensures id == clockId
      ensures alerts == old(alerts) + [AlertEntry(id, kind, message)]
      ensures removeAfter == RemovalDelay(duration, DefaultDuration)
    {
      id := clockId;
      alerts := alerts + [AlertEntry(id, kind, message)];
      removeAfter := RemovalDelay(duration, DefaultDuration);
    }

    /** `removeAlert(id)`, also what the removal timer runs. */
    method RemoveAlert(id: string)
      modifies this
      ensures alerts == Lists.RemoveKey(old(alerts), AlertId, id)
    {
      alerts := Lists.RemoveKey(alerts, AlertId, id);
    }

    /** `clearAlerts()`. */
    method ClearAlerts()
      modifies this
      ensures alerts == []
    {
      alerts := [];
    }
  }
}
