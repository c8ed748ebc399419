/** `Polling`: subscribes to the cycle and fires once the elapsed time since
    the last fire reaches the interval. Times are `Date.now()` readings in
    milliseconds, passed in. */
module Polling {
  import opened Wrappers
  import D = Dispatcher
  import Cycle

  const Update: string := "pollingUpdate"

  datatype PollingEvents = PollingEvents(
    kind: string, begin: int, present: int, interval: real, cycleEvents: Cycle.CycleEvents)

  /** A polling timer; `handler` is the id of its bound `onUpdate` and `kind`
      the type of the events it fires. */
  datatype Polling = Polling(kind: string, handler: D.Id, reg: D.Registry, interval: real, begin: int)

  /** `new Polling(interval = 1000)`. */
  function New(handler: D.Id, interval: real): (p: Polling)
    ensures p.begin == 0 && p.reg == D.Fresh && p.interval == interval && p.kind == Update
  {
    Polling(Update, handler, D.Fresh, interval, 0)
  }

  const DefaultInterval: real := 1000.0

  /** `updateEvents(begin, present, cycleEvents)`: also stores `begin`. */
  function UpdateEvents(p: Polling, begin: int, present: int, ce: Cycle.CycleEvents): (r: (Polling, PollingEvents))
    ensures r.0.begin == begin && r.0.interval == p.interval && r.0.reg == p.reg && r.0.handler == p.handler
    ensures r.1.begin == begin && r.1.present == present && r.1.interval == p.interval
    ensures r.1.cycleEvents == ce && r.1.kind == p.kind
  {
    (p.(begin := begin), PollingEvents(p.kind, begin, present, p.interval, ce))
  }

  predicate Due(p: Polling, present: int)
  {
    (present - p.begin) as real >= p.interval
  }

  /** `onUpdate(events)` at time `present`: returns the new timer, whether it
      fired and the events it dispatched. */
  function OnUpdate(p: Polling, present: int, ce: Cycle.CycleEvents): (r: (Polling, bool, seq<PollingEvents>))
    ensures r.1 <==> Due(p, present)
    ensures r.1 ==> r.0 == p.(begin := present)
    ensures r.1 ==> r.2 == [PollingEvents(p.kind, p.begin, present, p.interval, ce)]
    ensures !r.1 ==> r.0 == p && r.2 == []
  {
    if Due(p, present) then
      var (q, ev) := UpdateEvents(p, p.begin, present, ce);
      (q.(begin := present), true, [ev])
    else (p, false, [])
  }

  /** `start()`: unsubscribe, reset `begin` to now, subscribe again. */
  function Start(p: Polling, cycle: D.Registry, now: int): (r: (Polling, D.Registry))
    ensures r.0 == p.(begin := now)
    ensures D.Has(r.1, Cycle.Update, Some(p.handler))
  {
    var off := D.Off(cycle, Cycle.Update, Some(p.handler)).0;
    (p.(begin := now), D.On(off, Cycle.Update, Some(p.handler)).0)
  }

  /** `stop()`. */
  function Stop(p: Polling, cycle: D.Registry): (r: D.Registry)
    ensures D.Count(cycle, Cycle.Update, p.handler) <= 1 ==> !D.Has(r, Cycle.Update, Some(p.handler))
  {
    D.OffCount(cycle, Cycle.Update, p.handler);
    D.Off(cycle, Cycle.Update, Some(p.handler)).0
  }

  /** `change(interval)`: store the interval, then restart. */
  function Change(p: Polling, interval: real, cycle: D.Registry, now: int): (r: (Polling, D.Registry))
    ensures r.0.interval == interval && r.0.begin == now
    ensures D.Has(r.1, Cycle.Update, Some(p.handler))
  {
    Start(p.(interval := interval), cycle, now)
  }

  /** `start` keeps at most one subscription on the cycle. */
  lemma StartSubscribesOnce(p: Polling, cycle: D.Registry, now: int)
    requires D.Count(cycle, Cycle.Update, p.handler) <= 1
    ensures D.Count(Start(p, cycle, now).1, Cycle.Update, p.handler) == 1
  {
    var off := D.Off(cycle, Cycle.Update, Some(p.handler)).0;
    D.OffCount(cycle, Cycle.Update, p.handler);
    D.OnCount(off, Cycle.Update, p.handler);
  }

  /** After `stop` the cycle's ticks no longer reach the timer. */
  lemma StopSilences(p: Polling, cycle: D.Registry)
    requires D.Count(cycle, Cycle.Update, p.handler) <= 1
    ensures p.handler !in D.Dispatch(Stop(p, cycle), Cycle.Update, D.NoEffects).calls
  {
    D.NotRegisteredNotCalled(Stop(p, cycle), Cycle.Update, p.handler);
  }

  /** Feeding the timer a run of tick times. */
  function Feed(p: Polling, times: seq<int>, ce: Cycle.CycleEvents): (r: (Polling, seq<PollingEvents>))
    ensures r.0.interval == p.interval && r.0.kind == p.kind
    ensures forall e :: e in r.1 ==> e.interval == p.interval
    decreases |times|
  {
    if |times| == 0 then (p, [])
    else
      var (q, _, out) := OnUpdate(p, times[0], ce);
      var (s, rest) := Feed(q, times[1..], ce);
      (s, out + rest)
  }

  /** Every event spans at least one interval. */
  predicate Spaced(evs: seq<PollingEvents>, interval: real)
  {
    forall k :: 0 <= k < |evs| ==> (evs[k].present - evs[k].begin) as real >= interval
  }

  /** Each event starts where the previous one ended. */
  predicate Linked(evs: seq<PollingEvents>)
  {
    forall k :: 0 < k < |evs| ==> evs[k].begin == evs[k - 1].present
  }

  /** Consecutive fires are chained and at least one interval apart; the
      first event's `begin` is the timer's `begin`, and the timer ends at the
      last event's `present`. */
  lemma {:induction false} FeedChained(p: Polling, times: seq<int>, ce: Cycle.CycleEvents)
    ensures var (s, evs) := Feed(p, times, ce);
      Spaced(evs, p.interval) && Linked(evs)
      && (|evs| > 0 ==> evs[0].begin == p.begin && s.begin == evs[|evs| - 1].present)
      && (|evs| == 0 ==> s.begin == p.begin)
    decreases |times|
  {
    if |times| > 0 {
      var (q, fired, out) := OnUpdate(p, times[0], ce);
      FeedChained(q, times[1..], ce);
      var (s, rest) := Feed(q, times[1..], ce);
      var evs := out + rest;
      assert Feed(p, times, ce) == (s, evs);
      if fired {
        FeedChainedCons(out[0], rest, p.interval);
      } else {
        assert evs == rest;
      }
    }
  }

  lemma FeedChainedCons(e: PollingEvents, rest: seq<PollingEvents>, interval: real)
    requires (e.present - e.begin) as real >= interval
    requires Spaced(rest, interval) && Linked(rest)
    requires |rest| > 0 ==> rest[0].begin == e.present
    ensures Spaced([e] + rest, interval) && Linked([e] + rest)
  {
    var evs := [e] + rest;
    assert forall k :: 0 < k < |evs| ==> evs[k] == rest[k - 1];
  }
}
