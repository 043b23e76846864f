/**
  The toast hook: `toast` appends a toast and schedules one removal; each
  removal, when its timer fires, drops the oldest toast still shown.
 */
module Toasts {

  datatype Variant = Default | Destructive

  datatype Toast = Toast(title: string, description: string, variant: Variant)

  /** The toasts on screen, oldest first, and how many removal timers are still pending. */
  datatype Queue = Queue(shown: seq<Toast>, pending: nat)

  const Empty: Queue := Queue([], 0)

  /** `toast`: the new toast goes last, the earlier ones stay, and exactly one removal is scheduled. */
  function Push(q: Queue, t: Toast): (r: Queue)
    ensures |r.shown| == |q.shown| + 1 && r.shown[..|q.shown|] == q.shown && r.shown[|q.shown|] == t
    ensures r.pending == q.pending + 1
  {
    Queue(q.shown + [t], q.pending + 1)
  }

  /** `toasts.slice(1)`: drops the oldest toast; an empty list stays empty. */
  function DropHead(s: seq<Toast>): (r: seq<Toast>)
    ensures |s| == 0 ==> r == []
    ensures |s| > 0 ==> [s[0]] + r == s
  {
    if |s| == 0 then [] else s[1..]
  }

  /** One scheduled removal fires. */
  function Expire(q: Queue): (r: Queue)
    requires q.pending > 0
    ensures r.pending == q.pending - 1
    ensures r.shown == DropHead(q.shown)
  {
    Queue(DropHead(q.shown), q.pending - 1)
  }

  /** What happens to the queue: a `toast` call, or a timer firing. */
  datatype Event = Shown(toast: Toast) | TimerFired

  /** A timer fires only if one is pending; without one the event cannot occur and changes nothing. */
  function Step(q: Queue, e: Event): (r: Queue)
    ensures e.Shown? ==> r.shown == q.shown + [e.toast] && r.pending == q.pending + 1
    ensures e.TimerFired? && q.pending > 0 ==> r.pending == q.pending - 1 && r.shown == DropHead(q.shown)
    ensures e.TimerFired? && q.pending == 0 ==> r == q
  {
    match e
    case Shown(t) => Push(q, t)
    case TimerFired => if q.pending > 0 then Expire(q) else q
  }

  /** The queue after a history of events, starting empty. */
  function Run(es: seq<Event>): Queue
    decreases |es|
  {
    if |es| == 0 then Empty else Step(Run(es[..|es| - 1]), es[|es| - 1])
  }

  /** Every toast shown in a history, in order. */
  function Pushed(es: seq<Event>): seq<Toast>
    decreases |es|
  {
    if |es| == 0 then []
    else Pushed(es[..|es| - 1]) + match es[|es| - 1] case Shown(t) => [t] case TimerFired => []
  }

  /** The queue holds the newest `pending` toasts of the history `p`, in order. */
  predicate HoldsNewest(q: Queue, p: seq<Toast>) {
    q.pending <= |p| && q.shown == p[|p| - q.pending..]
  }

  /** Showing a toast keeps the queue the newest part of the history. */
  lemma ShowKeepsNewest(q: Queue, p: seq<Toast>, t: Toast)
    requires HoldsNewest(q, p)
    ensures HoldsNewest(Step(q, Shown(t)), p + [t])
  {
    assert (p + [t])[|p| + 1 - (q.pending + 1)..] == p[|p| - q.pending..] + [t];
  }

  /** A timer firing keeps the queue the newest part of the history. */
  lemma FiringKeepsNewest(q: Queue, p: seq<Toast>)
    requires HoldsNewest(q, p)
    ensures HoldsNewest(Step(q, TimerFired), p)
  {
    if q.pending > 0 {
      assert p[|p| - q.pending..][1..] == p[|p| - (q.pending - 1)..];
    }
  }

  /**
    FIFO: at every point the toasts on screen are the most recent ones shown,
    in the order they were shown, one per pending timer; so the oldest always
    leaves first.
   */
  lemma {:induction false} ShownAreNewestPushed(es: seq<Event>)
    ensures Run(es).pending <= |Pushed(es)|
    ensures Run(es).shown == Pushed(es)[|Pushed(es)| - Run(es).pending..]
    decreases |es|
  {
    if |es| > 0 {
      var before := es[..|es| - 1];
      ShownAreNewestPushed(before);
      var q, p, e := Run(before), Pushed(before), es[|es| - 1];
      assert HoldsNewest(q, p);
      if e.Shown? {
        ShowKeepsNewest(q, p, e.toast);
        assert Pushed(es) == p + [e.toast];
      } else {
        FiringKeepsNewest(q, p);
        assert Pushed(es) == p;
      }
      assert HoldsNewest(Run(es), Pushed(es));
    }
  }

  /** `toast(t)` for each t in order. */
  function Pushes(ts: seq<Toast>): (r: seq<Event>)
    ensures |r| == |ts|
    ensures forall i :: 0 <= i < |ts| ==> r[i] == Shown(ts[i])
  {
    seq(|ts|, i requires 0 <= i < |ts| => Shown(ts[i]))
  }

  /** `k` timers firing. */
  function Firings(k: nat): (r: seq<Event>)
    ensures |r| == k
    ensures forall i :: 0 <= i < k ==> r[i] == TimerFired
  {
    seq(k, i => TimerFired)
  }

  lemma {:induction false} PushesShowAll(ts: seq<Toast>)
    ensures Run(Pushes(ts)) == Queue(ts, |ts|)
    decreases |ts|
  {
    if |ts| > 0 {
      var n := |ts|;
      assert Pushes(ts)[..n - 1] == Pushes(ts[..n - 1]);
      PushesShowAll(ts[..n - 1]);
      assert ts[..n - 1] + [ts[n - 1]] == ts;
    }
  }

  /** With equal delays: after showing `ts` and `k` firings, the first `k` toasts are gone, oldest first. */
  lemma {:induction false} FirstInFirstOut(ts: seq<Toast>, k: nat)
    requires k <= |ts|
    ensures Run(Pushes(ts) + Firings(k)) == Queue(ts[k..], |ts| - k)
    decreases k
  {
    if k == 0 {
      assert Pushes(ts) + Firings(0) == Pushes(ts);
      PushesShowAll(ts);
    } else {
      var es := Pushes(ts) + Firings(k);
      assert es[..|es| - 1] == Pushes(ts) + Firings(k - 1);
      FirstInFirstOut(ts, k - 1);
      assert ts[k - 1..][1..] == ts[k..];
    }
  }

  /** n toasts followed by their n removals leave nothing on screen and nothing pending. */
  lemma AllToastsExpire(ts: seq<Toast>)
    ensures Run(Pushes(ts) + Firings(|ts|)) == Empty
  {
    FirstInFirstOut(ts, |ts|);
  }
}
