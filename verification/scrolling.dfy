/** `Scrolling`: a native scroll or resize event starts watching a Rate;
    every Rate tick samples the scroll position, and the first unchanged
    sample stops the watching again. */
module Scrolling {
  import opened Wrappers
  import D = Dispatcher
  import Cycle
  import Polling
  import Rate
  import opened ScrollEvents

  const Update: string := "scrollingUpdate"

  /** `handler` is the bound `onUpdate`; `attached` records the native
      `scroll`/`resize` listeners of `start`. */
  datatype Scrolling = Scrolling(
    reg: D.Registry, handler: D.Id, previous: int, rate: Rate.Rate, watching: bool, attached: bool)

  /** How many times `onUpdate` is subscribed to the Rate. */
  function Subscriptions(s: Scrolling): nat
  {
    D.Count(s.rate.timer.reg, Rate.Update, s.handler)
  }

  /** `watching` says exactly whether the Rate reaches `onUpdate`. */
  predicate Inv(s: Scrolling)
  {
    Rate.Valid(s.rate) && Subscriptions(s) <= 1 && (s.watching <==> Subscriptions(s) == 1)
  }

  /** `new Scrolling(rate = new Rate(Rate.RATE_30))`. */
  function New(handler: D.Id, rate: Rate.Rate): (s: Scrolling)
    requires Rate.Valid(rate) && D.Count(rate.timer.reg, Rate.Update, handler) == 0
    ensures Inv(s) && s.previous == -1 && !s.watching && !s.attached
  {
    Scrolling(D.Fresh, handler, -1, rate, false, false)
  }

  /** `unwatch()`: drop the Rate subscription; the Rate keeps running. */
  function Unwatch(s: Scrolling): (r: Scrolling)
    ensures !r.watching && r.rate.timer.begin == s.rate.timer.begin
    ensures Subscriptions(r) == if Subscriptions(s) == 0 then 0 else Subscriptions(s) - 1
    ensures Inv(s) ==> Inv(r)
  {
    D.OffCount(s.rate.timer.reg, Rate.Update, s.handler);
    var reg := D.Off(s.rate.timer.reg, Rate.Update, Some(s.handler)).0;
    s.(rate := s.rate.(timer := s.rate.timer.(reg := reg)), watching := false)
  }

  /** `watch()`: unwatch, subscribe, and start the Rate on the cycle. */
  function Watch(s: Scrolling, cycle: D.Registry, now: int): (r: (Scrolling, D.Registry))
    ensures r.0.watching && r.0.previous == s.previous
    ensures Inv(s) ==> Inv(r.0) && Subscriptions(r.0) == 1
    ensures D.Has(r.1, Cycle.Update, Some(s.rate.timer.handler))
  {
    var u := Unwatch(s);
    D.OnCount(u.rate.timer.reg, Rate.Update, s.handler);
    var reg := D.On(u.rate.timer.reg, Rate.Update, Some(s.handler)).0;
    var (timer, cycle') := Polling.Start(u.rate.timer.(reg := reg), cycle, now);
    assert D.Count(timer.reg, Rate.Update, s.handler) == D.Count(reg, Rate.Update, s.handler);
    (u.(rate := u.rate.(timer := timer), watching := true), cycle')
  }

  /** `onNativeEvent()`: watch unless already watching. */
  function OnNativeEvent(s: Scrolling, cycle: D.Registry, now: int): (r: (Scrolling, D.Registry))
    ensures s.watching ==> r == (s, cycle)
    ensures !s.watching ==> r == Watch(s, cycle, now)
    ensures Inv(s) ==> Inv(r.0) && r.0.watching
  {
    if s.watching then (s, cycle) else Watch(s, cycle, now)
  }

  /** `onUpdate(event)` with the sampled scroll top and window size;
      `event` is `None` for a forced update. */
  function OnUpdate(s: Scrolling, event: Option<Polling.PollingEvents>, y: int, height: int, width: int)
    : (r: (Scrolling, ScrollEvents))
    ensures r.1.changed <==> event.None? || s.previous != y
    ensures !r.1.changed ==> !r.0.watching && Subscriptions(r.0) == if Subscriptions(s) == 0 then 0 else Subscriptions(s) - 1
    ensures r.1.changed ==> r.0 == s.(previous := y)
    ensures r.0.previous == y && r.1.previous == s.previous && r.1.y == y
    ensures r.1.bottom == y + height && r.1.moving == y - s.previous
    ensures r.1.height == height && r.1.width == width && r.1.kind == Update
    ensures Inv(s) ==> Inv(r.0)
  {
    var changed := event.None? || s.previous != y;
    var s1 := if changed then s else Unwatch(s);
    var original := match event case None => Forced case Some(e) => Tick(e);
    var ev := Blank(Update).(original := original, y := y, height := height, width := width,
      bottom := y + height, changed := changed, previous := s.previous, moving := y - s.previous);
    (s1.(previous := y), ev)
  }

  /** `fire()`: a forced update, always reported as changed. */
  function Fire(s: Scrolling, y: int, height: int, width: int): (r: (Scrolling, ScrollEvents))
    ensures r.1.changed && r.0.watching == s.watching
    ensures r == OnUpdate(s, None, y, height, width)
  {
    OnUpdate(s, None, y, height, width)
  }

  /** `start()` / `stop()`: the native listeners. */
  function Start(s: Scrolling): (r: Scrolling)
    ensures r.attached && r == s.(attached := true)
  {
    s.(attached := true)
  }

  function Stop(s: Scrolling): (r: Scrolling)
    ensures !r.attached && r == s.(attached := false)
  {
    s.(attached := false)
  }

  /** A native event while idle starts watching; a sample equal to the last
      one stops it, so the Rate no longer reaches `onUpdate`. */
  lemma WatchUntilStill(s: Scrolling, cycle: D.Registry, now: int, tick: Polling.PollingEvents, y: int, h: int, w: int)
    requires Inv(s) && !s.watching
    ensures var (s1, _) := OnNativeEvent(s, cycle, now);
      var (s2, e2) := OnUpdate(s1, Some(tick), y, h, w);
      var (s3, e3) := OnUpdate(s2, Some(tick), y, h, w);
      Subscriptions(s1) == 1 && s2.watching == (s.previous != y)
      && !e3.changed && !s3.watching && Subscriptions(s3) == 0
  {
  }
}
