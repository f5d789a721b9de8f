/**
 * The toast queue of the web client: `add` appends a toast, drops the oldest
 * one when the queue grows past that call's limit, and registers an
 * auto-dismiss timer; `dismiss` removes one toast or all of them. A timer is
 * represented by the id it is registered under; the timeout itself and the
 * clock are not modelled, and the id a call would generate is a parameter.
 */
module Toast {
  import opened Wrappers
  import Seqs

  const DefaultDuration := 3000
  const DefaultMaxToasts := 3

  datatype Variant = Success | Error | Info | Warning

  /** A toast's action button (its `label`); the click handler is not modelled. */
  datatype ToastAction = ToastAction(buttonLabel: string)

  datatype ToastOptions = ToastOptions(
    title: Option<string>, duration: Option<int>, closable: Option<bool>,
    action: Option<ToastAction>, maxToasts: Option<int>)

  /** What a caller hands to `add`: a toast without its id. */
  datatype ToastInput = ToastInput(
    message: string, variant: Variant, title: Option<string>, duration: Option<int>,
    closable: Option<bool>, action: Option<ToastAction>)

  datatype Toast = Toast(
    id: string, message: string, variant: Variant, title: Option<string>, duration: Option<int>,
    closable: Option<bool>, action: Option<ToastAction>)

  function WithId(t: ToastInput, id: string): (r: Toast)
    ensures r.id == id && r.message == t.message && r.variant == t.variant
  {
    Toast(id, t.message, t.variant, t.title, t.duration, t.closable, t.action)
  }

  /** `options?.maxToasts ?? 3`. */
  function MaxToastsOf(options: ToastOptions): int
  {
    options.maxToasts.OrElse(DefaultMaxToasts)
  }

  /** `options?.duration ?? 3000`. */
  function DurationOf(options: ToastOptions): int
  {
    options.duration.OrElse(DefaultDuration)
  }

  function Ids(toasts: seq<Toast>): set<string>
  {
    set t | t in toasts :: t.id
  }

  /** The queue after `add`: the new toast at the end, and the oldest one shifted off when over the limit. */
  function Added(toasts: seq<Toast>, t: Toast, maxToasts: int): seq<Toast>
  {
    var grown := toasts + [t];
    if |grown| > maxToasts then grown[1..] else grown
  }

  /** The timers after `add`: the shifted toast's timer cleared, then one for the new id when the duration is positive. */
  function AddedTimers(timers: set<string>, toasts: seq<Toast>, id: string, maxToasts: int, duration: int): set<string>
  {
    var oldest := if toasts == [] then id else toasts[0].id;
    var cleared := if |toasts| + 1 > maxToasts then timers - {oldest} else timers;
    if duration > 0 then cleared + {id} else cleared
  }

  function NamedOther(id: string): Toast -> bool
  {
    (t: Toast) => t.id != id
  }

  /** The queue after `dismiss(id)` for a non-empty id. */
  function Dismissed(toasts: seq<Toast>, id: string): seq<Toast>
  {
    Seqs.Filter(toasts, NamedOther(id))
  }

  /** Every registered timer belongs to a toast in the queue. */
  predicate TimersTracked(toasts: seq<Toast>, timers: set<string>)
  {
    timers <= Ids(toasts)
  }

  /** The toast store: the queue on screen and the ids that have a pending auto-dismiss timer. */
  class ToastStore {
    var toasts: seq<Toast>
    var timers: set<string>

    constructor ()
      ensures toasts == [] && timers == {}
    {
      toasts := [];
      timers := {};
    }

    /** `add(toast, options)`, where `id` is the id the call generates. */
    method Add(toast: ToastInput, options: ToastOptions, id: string) returns (r: string)
      modifies this
      ensures r == id
      ensures toasts == Added(old(toasts), WithId(toast, id), MaxToastsOf(options))
      ensures timers == AddedTimers(old(timers), old(toasts), id, MaxToastsOf(options), DurationOf(options))
    {
      var maxToasts := MaxToastsOf(options);
      var duration := DurationOf(options);
      var newToasts := toasts + [WithId(toast, id)];
      if |newToasts| > maxToasts {
        var removed := newToasts[0];
        newToasts := newToasts[1..];
        timers := timers - {removed.id};
      }
      toasts := newToasts;
      if duration > 0 {
        timers := timers + {id};
      }
      r := id;
    }

    /** `dismiss(id)`: no id (or an empty one) clears the queue and every timer. */
    method Dismiss(id: Option<string>)
      modifies this
      ensures id.None? || id.value == "" ==> toasts == [] && timers == {}
      ensures id.Some? && id.value != "" ==> toasts == Dismissed(old(toasts), id.value) && timers == old(timers) - {id.value}
    {
      if id.None? || id.value == "" {
        timers := {};
        toasts := [];
        return;
      }
      timers := timers - {id.value};
      toasts := Dismissed(toasts, id.value);
    }

    /** A pending timer runs out: it dismisses its own toast. */
    method Expire(id: string)
      requires id in timers && id != ""
      modifies this
      ensures toasts == Dismissed(old(toasts), id) && timers == old(timers) - {id}
    {
      Dismiss(Some(id));
    }

    /** `success`, `error`, `info` and `warning`: the message, the variant, and the options spread over the toast. */
    method Notify(message: string, variant: Variant, options: ToastOptions, id: string) returns (r: string)
      modifies this
      ensures r == id
      ensures toasts == Added(old(toasts), Toast(id, message, variant, options.title, options.duration, options.closable, options.action), MaxToastsOf(options))
      ensures timers == AddedTimers(old(timers), old(toasts), id, MaxToastsOf(options), DurationOf(options))
    {
      r := Add(ToastInput(message, variant, options.title, options.duration, options.closable, options.action), options, id);
    }
  }

  /**
   * `add` keeps every toast that was there, in order, and puts the new one
   * last; only when the queue grows past the limit is exactly one toast, the
   * oldest, dropped.
   */
  lemma AddedShape(toasts: seq<Toast>, t: Toast, maxToasts: int)
    ensures |toasts| + 1 <= maxToasts ==> Added(toasts, t, maxToasts) == toasts + [t]
    ensures |toasts| + 1 > maxToasts && toasts != [] ==> Added(toasts, t, maxToasts) == toasts[1..] + [t]
    ensures |toasts| + 1 > maxToasts && toasts == [] ==> Added(toasts, t, maxToasts) == []
    ensures |Added(toasts, t, maxToasts)| == if |toasts| + 1 > maxToasts then |toasts| else |toasts| + 1
  {
    if |toasts| + 1 > maxToasts && toasts != [] {
      assert (toasts + [t])[1..] == toasts[1..] + [t];
    }
  }

  /** With a limit of at least one, the new toast is always the last one shown and the queue stays within the limit. */
  lemma AddedWithinLimit(toasts: seq<Toast>, t: Toast, maxToasts: int)
    requires maxToasts >= 1 && |toasts| <= maxToasts
    ensures var r := Added(toasts, t, maxToasts); |r| <= maxToasts && r != [] && r[|r| - 1] == t
  {
  }

  /**
   * The limit is that call's alone: a queue already longer than it (built up
   * under a larger limit) keeps its length rather than shrinking to the limit.
   */
  lemma LimitNotSticky(toasts: seq<Toast>, t: Toast, maxToasts: int)
    requires |toasts| > maxToasts
    ensures |Added(toasts, t, maxToasts)| == |toasts| > maxToasts
  {
  }

  /** A timer for the new toast is registered exactly when the duration is positive; the default duration registers one. */
  lemma TimerIffPositiveDuration(timers: set<string>, toasts: seq<Toast>, id: string, options: ToastOptions)
    requires id !in timers
    ensures id in AddedTimers(timers, toasts, id, MaxToastsOf(options), DurationOf(options)) <==> DurationOf(options) > 0
    ensures options.duration.None? ==> id in AddedTimers(timers, toasts, id, MaxToastsOf(options), DurationOf(options))
  {
  }

  /** When the oldest toast is dropped, so is its timer. */
  lemma ShiftedTimerCleared(timers: set<string>, toasts: seq<Toast>, id: string, maxToasts: int, duration: int)
    requires toasts != [] && |toasts| + 1 > maxToasts && toasts[0].id != id
    ensures toasts[0].id !in AddedTimers(timers, toasts, id, maxToasts, duration)
  {
  }

  /** With a limit of at least one, `add` keeps every timer attached to a toast on screen. */
  lemma AddKeepsTimersTracked(toasts: seq<Toast>, timers: set<string>, t: ToastInput, id: string, maxToasts: int, duration: int)
    requires TimersTracked(toasts, timers) && maxToasts >= 1
    ensures TimersTracked(Added(toasts, WithId(t, id), maxToasts), AddedTimers(timers, toasts, id, maxToasts, duration))
  {
    var r := Added(toasts, WithId(t, id), maxToasts);
    AddedShape(toasts, WithId(t, id), maxToasts);
    forall x | x in AddedTimers(timers, toasts, id, maxToasts, duration)
      ensures x in Ids(r)
    {
      if x == id {
        assert r[|r| - 1] in r;
      } else {
        assert x in timers;
        var u :| u in toasts && u.id == x;
        if |toasts| + 1 > maxToasts {
          assert u != toasts[0];
          var k :| 0 <= k < |toasts| && toasts[k] == u;
          assert k > 0;
          assert r[k - 1] == u;
        } else {
          assert u in r;
        }
      }
    }
  }

  /** `dismiss(id)` takes out exactly the toasts with that id; an unknown id changes nothing. */
  lemma DismissedExactly(toasts: seq<Toast>, id: string, u: Toast)
    ensures u in Dismissed(toasts, id) <==> u in toasts && u.id != id
    ensures id !in Ids(toasts) ==> Dismissed(toasts, id) == toasts
  {
    if id !in Ids(toasts) {
      Seqs.FilterIsSubsequence(toasts, NamedOther(id));
    }
  }

  /** `dismiss(id)` keeps every remaining timer attached to a toast on screen. */
  lemma DismissKeepsTimersTracked(toasts: seq<Toast>, timers: set<string>, id: string)
    requires TimersTracked(toasts, timers)
    ensures TimersTracked(Dismissed(toasts, id), timers - {id})
  {
    forall x | x in timers - {id}
      ensures x in Ids(Dismissed(toasts, id))
    {
      var u :| u in toasts && u.id == x;
      DismissedExactly(toasts, id, u);
    }
  }

  /**
   * A limit given on one call does not carry over: four toasts with the
   * defaults after one that asked for five leave three on screen.
   */
  lemma CustomLimitLastsOneCall(t1: Toast, t2: Toast, t3: Toast, t4: Toast, t5: Toast)
    ensures var q := Added(Added(Added(Added(Added([], t1, 5), t2, DefaultMaxToasts), t3, DefaultMaxToasts), t4, DefaultMaxToasts), t5, DefaultMaxToasts);
            q == [t3, t4, t5]
  {
  }
}
