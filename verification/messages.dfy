/** What the notification, toast and alert components share: the four
    message kinds and the rules that turn an optional `duration` into a
    timer (`app/components/Toast.tsx`, `app/components/Alert.tsx`). Timers
    themselves are not modelled: a rule yields the delay of the timer that
    is started, or `None` when none is. */
module Messages {
  import opened Common

  datatype Kind = Success | Error | Warning | Info

  /** The removal timer of the `useToast` / `useAlert` hooks:
      `if (duration !== 0) setTimeout(remove, duration || fallback)`.
      Only an explicit 0 starts no timer; an absent duration waits for the
      fallback and any other value is used as given. */
  function RemovalDelay(duration: Option<int>, fallback: int): (r: Option<int>)
    ensures r.None? <==> duration == Some(0)
    ensures r.Some? && duration.Some? ==> r.value == duration.value
    ensures duration.None? ==> r == Some(fallback)
  {
    if duration == Some(0) then None else Some(OrElse(duration, fallback))
  }

  /** A destructured prop with a default value (`duration = fallback`):
      the default replaces an absent prop only. */
  function PropOr<T>(prop: Option<T>, fallback: T): T
  {
    if prop.Some? then prop.value else fallback
  }

  /** The component's own hide timer, started while it is visible:
      `if (isVisible && duration > 0) setTimeout(hide, duration)`, with
      `show = true` and `duration = fallback` as prop defaults. */
  function AutoHideDelay(show: Option<bool>, duration: Option<int>, fallback: int): (r: Option<int>)
    ensures r.Some? <==> show != Some(false) && PropOr(duration, fallback) > 0
    ensures r.Some? ==> r.value == PropOr(duration, fallback) && r.value > 0
  {
    var d := PropOr(duration, fallback);
    if PropOr(show, true) && d > 0 then Some(d) else None
  }

  /** The two timers agree on every duration that is absent or positive,
      and both stay off for an explicit 0; a negative duration starts the
      hook's timer (which then fires at once) but not the component's. */
  lemma TimersAgree(duration: Option<int>, fallback: int)
    requires fallback > 0
    ensures duration.None? || duration.value > 0 ==>
              RemovalDelay(duration, fallback) == AutoHideDelay(None, duration, fallback)
    ensures duration == Some(0) ==>
              RemovalDelay(duration, fallback).None? && AutoHideDelay(None, duration, fallback).None?
    ensures duration.Some? && duration.value < 0 ==>
              RemovalDelay(duration, fallback).Some? && AutoHideDelay(None, duration, fallback).None?
  {
  }
}
