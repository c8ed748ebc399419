/** `Swipe`: follows a `Touching` gesture, adds up the horizontal deltas it
    reports, and declares a swipe once the running total passes the
    margin. */
module Swipe {
  import opened Wrappers
  import D = Dispatcher
  import T = Touching

  const Left: string := "left"
  const Right: string := "right"
  const End: string := "end"
  const Drag: string := "drag"

  datatype SwipeEvents = Plain(kind: string) | DragEvents(x: int)

  /** The ids of the bound handlers registered on the Touching instance. */
  datatype Handlers = Handlers(onStart: D.Id, onMove: D.Id, onEnd: D.Id, onCancel: D.Id)

  /** `touching` is the shared Touching instance, whose registry receives
      the subscriptions. */
  datatype Swipe = Swipe(reg: D.Registry, marginal: int, dragging: int, touching: T.Touching, ids: Handlers)

  /** `new Swipe(element, touching, marginal = 10)`. */
  function New(touching: T.Touching, marginal: Option<int>, ids: Handlers): (s: Swipe)
    ensures s.marginal == marginal.GetOr(10) && s.dragging == 0 && s.touching == touching
  {
    Swipe(D.Fresh, marginal.GetOr(10), 0, touching, ids)
  }

  function Abs(x: int): nat { if x < 0 then -x else x }

  /** `swipeCheck()`: whether the total passes the margin, and the single
      direction event it dispatches then. */
  function SwipeCheck(s: Swipe): (r: (bool, seq<SwipeEvents>))
    ensures r.0 <==> Abs(s.dragging) > s.marginal
    ensures r.0 ==> r.1 == [Plain(if s.dragging < 0 then Left else Right)]
    ensures !r.0 ==> r.1 == []
  {
    if Abs(s.dragging) > s.marginal then
      (true, [Plain(if s.dragging < 0 then Left else Right)])
    else (false, [])
  }

  function Subscribe(reg: D.Registry, ids: Handlers): D.Registry
  {
    var r1 := D.On(reg, T.Move, Some(ids.onMove)).0;
    var r2 := D.On(r1, T.End, Some(ids.onEnd)).0;
    D.On(r2, T.Cancel, Some(ids.onCancel)).0
  }

  function Unsubscribe(reg: D.Registry, ids: Handlers): D.Registry
  {
    var r1 := D.Off(reg, T.Move, Some(ids.onMove)).0;
    var r2 := D.Off(r1, T.End, Some(ids.onEnd)).0;
    D.Off(r2, T.Cancel, Some(ids.onCancel)).0
  }

  /** `dispose()`. */
  function Dispose(s: Swipe): (r: Swipe)
    ensures r.dragging == s.dragging && r.marginal == s.marginal && r.ids == s.ids
    ensures r.touching == s.touching.(reg := Unsubscribe(s.touching.reg, s.ids))
  {
    s.(touching := s.touching.(reg := Unsubscribe(s.touching.reg, s.ids)))
  }

  /** Each gesture handler is subscribed at most once. */
  predicate AtMostOnce(s: Swipe)
  {
    var c := s.touching.reg;
    D.Count(c, T.Move, s.ids.onMove) <= 1 && D.Count(c, T.End, s.ids.onEnd) <= 1
    && D.Count(c, T.Cancel, s.ids.onCancel) <= 1
  }

  /** `dispose` detaches all three gesture handlers. */
  lemma DisposeDetaches(s: Swipe)
    requires AtMostOnce(s)
    ensures !Listening(Dispose(s))
  {
    MoveGone(s.touching.reg, s.ids);
    EndGone(s.touching.reg, s.ids);
    CancelGone(s.touching.reg, s.ids);
  }

  lemma MoveGone(c: D.Registry, ids: Handlers)
    requires D.Count(c, T.Move, ids.onMove) <= 1
    ensures !D.Has(Unsubscribe(c, ids), T.Move, Some(ids.onMove))
  {
    var r1 := D.Off(c, T.Move, Some(ids.onMove)).0;
    var r2 := D.Off(r1, T.End, Some(ids.onEnd)).0;
    var r3 := D.Off(r2, T.Cancel, Some(ids.onCancel)).0;
    D.OffCount(c, T.Move, ids.onMove);
    D.OffOtherType(r1, T.End, T.Move, ids.onEnd, ids.onMove);
    D.OffOtherType(r2, T.Cancel, T.Move, ids.onCancel, ids.onMove);
    D.CountZeroNotHas(r3, T.Move, ids.onMove);
  }

  lemma EndGone(c: D.Registry, ids: Handlers)
    requires D.Count(c, T.End, ids.onEnd) <= 1
    ensures !D.Has(Unsubscribe(c, ids), T.End, Some(ids.onEnd))
  {
    var r1 := D.Off(c, T.Move, Some(ids.onMove)).0;
    var r2 := D.Off(r1, T.End, Some(ids.onEnd)).0;
    var r3 := D.Off(r2, T.Cancel, Some(ids.onCancel)).0;
    D.OffOtherType(c, T.Move, T.End, ids.onMove, ids.onEnd);
    D.OffCount(r1, T.End, ids.onEnd);
    D.OffOtherType(r2, T.Cancel, T.End, ids.onCancel, ids.onEnd);
    D.CountZeroNotHas(r3, T.End, ids.onEnd);
  }

  lemma CancelGone(c: D.Registry, ids: Handlers)
    requires D.Count(c, T.Cancel, ids.onCancel) <= 1
    ensures !D.Has(Unsubscribe(c, ids), T.Cancel, Some(ids.onCancel))
  {
    var r1 := D.Off(c, T.Move, Some(ids.onMove)).0;
    var r2 := D.Off(r1, T.End, Some(ids.onEnd)).0;
    var r3 := D.Off(r2, T.Cancel, Some(ids.onCancel)).0;
    D.OffOtherType(c, T.Move, T.Cancel, ids.onMove, ids.onCancel);
    D.OffOtherType(r1, T.End, T.Cancel, ids.onEnd, ids.onCancel);
    D.OffCount(r2, T.Cancel, ids.onCancel);
    D.CountZeroNotHas(r3, T.Cancel, ids.onCancel);
  }

  /** Whether any of the gesture handlers is subscribed. */
  predicate Listening(s: Swipe)
  {
    D.Has(s.touching.reg, T.Move, Some(s.ids.onMove)) || D.Has(s.touching.reg, T.End, Some(s.ids.onEnd))
    || D.Has(s.touching.reg, T.Cancel, Some(s.ids.onCancel))
  }

  /** `reset()`. */
  function Reset(s: Swipe): (r: Swipe)
    ensures r.dragging == 0 && r.touching == s.touching
  {
    s.(dragging := 0)
  }

  /** `onStart()`: dispose, reset, subscribe to MOVE, END and CANCEL. */
  function OnStart(s: Swipe): (r: Swipe)
    ensures r.dragging == 0
    ensures D.Has(r.touching.reg, T.Move, Some(s.ids.onMove))
    ensures D.Has(r.touching.reg, T.End, Some(s.ids.onEnd))
    ensures D.Has(r.touching.reg, T.Cancel, Some(s.ids.onCancel))
  {
    var d := Reset(Dispose(s));
    d.(touching := d.touching.(reg := Subscribe(d.touching.reg, s.ids)))
  }

  /** `onMove(events)` with the event's `between.x`. */
  function OnMove(s: Swipe, dx: int): (r: (Swipe, seq<SwipeEvents>))
    ensures var total := s.dragging + dx;
      var swiped := Abs(total) > s.marginal;
      r.1 == [DragEvents(total)] + (if swiped then [Plain(if total < 0 then Left else Right)] else [])
      && r.0.dragging == (if swiped then 0 else total)
  {
    var s1 := s.(dragging := s.dragging + dx);
    var (swiped, evs) := SwipeCheck(s1);
    if swiped then (Reset(Dispose(s1)), [DragEvents(s1.dragging)] + evs)
    else (s1, [DragEvents(s1.dragging)])
  }

  /** `onEnd(events)` with the event's `between.x`. */
  function OnEnd(s: Swipe, dx: int): (r: (Swipe, seq<SwipeEvents>))
    ensures var total := s.dragging + dx;
      var swiped := Abs(total) > s.marginal;
      r.1 == [DragEvents(total)] + (if swiped then [Plain(if total < 0 then Left else Right)] else [Plain(End)])
      && r.0.dragging == 0
  {
    var s1 := s.(dragging := s.dragging + dx);
    var (swiped, evs) := SwipeCheck(s1);
    (Reset(Dispose(s1)), [DragEvents(s1.dragging)] + evs + (if swiped then [] else [Plain(End)]))
  }

  /** `onCancel()`. */
  function OnCancel(s: Swipe): (r: (Swipe, seq<SwipeEvents>))
    ensures r.0.dragging == 0 && r.1 == [Plain(End)]
  {
    (Reset(Dispose(s)), [Plain(End)])
  }

  /** `start()`: stop, subscribe to START, start the Touching instance. */
  function Start(s: Swipe): (r: Swipe)
    ensures D.Has(r.touching.reg, T.Start, Some(s.ids.onStart)) && r.touching.elementAttached
  {
    var st := Stop(s);
    var reg := D.On(st.touching.reg, T.Start, Some(s.ids.onStart)).0;
    st.(touching := T.StartListening(st.touching.(reg := reg)))
  }

  /** `stop()`. */
  function Stop(s: Swipe): (r: Swipe)
    ensures !r.touching.elementAttached && r.dragging == s.dragging
  {
    var reg := D.Off(s.touching.reg, T.Start, Some(s.ids.onStart)).0;
    Dispose(s.(touching := T.StopListening(s.touching.(reg := reg))))
  }

  /** Feeding MOVE deltas while no swipe fires. */
  function Drags(s: Swipe, dxs: seq<int>): (r: (Swipe, seq<SwipeEvents>))
    ensures r.0.marginal == s.marginal
    decreases |dxs|
  {
    if |dxs| == 0 then (s, [])
    else
      var (s1, evs) := OnMove(s, dxs[0]);
      var (s2, rest) := Drags(s1, dxs[1..]);
      (s2, evs + rest)
  }

  function Sum(xs: seq<int>): int
  {
    if |xs| == 0 then 0 else xs[0] + Sum(xs[1..])
  }

  /** Every running total from `start` stays within the margin. */
  predicate Quiet(start: int, dxs: seq<int>, marginal: int)
    decreases |dxs|
  {
    |dxs| == 0 || (Abs(start + dxs[0]) <= marginal && Quiet(start + dxs[0], dxs[1..], marginal))
  }

  /** While no swipe fires, `dragging` is the sum of the deltas. */
  lemma {:induction false} DragsSum(s: Swipe, dxs: seq<int>)
    requires Quiet(s.dragging, dxs, s.marginal)
    ensures Drags(s, dxs).0.dragging == s.dragging + Sum(dxs)
    decreases |dxs|
  {
    if |dxs| > 0 {
      var (s1, _) := OnMove(s, dxs[0]);
      DragsSum(s1, dxs[1..]);
    }
  }

  /** The x-deltas of a run of Touching events. */
  function DeltasOf(evs: seq<T.TouchingEvents>): (r: seq<int>)
    ensures |r| == |evs|
    ensures Sum(r) == T.SumX(evs)
  {
    if |evs| == 0 then [] else [evs[0].between.x] + DeltasOf(evs[1..])
  }

  /** The drag total Swipe reports at END counts the movement twice: the
      MOVE deltas already add up to the distance from the start to the last
      move, and Touching measures END from the start again. When the finger
      lifts where it last moved, the total is twice the displacement. */
  lemma DoubleCount(s: Swipe, t: T.Touching, e0: T.TouchEvent, es: seq<T.TouchEvent>, times: seq<int>,
                    eEnd: T.TouchEvent, t0: int, tEnd: int)
    requires |es| == |times| && |es| > 0
    requires s.dragging == 0
    requires var started := T.OnStart(t, e0, t0).t;
      T.Moves(started, es, times).Ok? && Quiet(0, DeltasOf(T.Moves(started, es, times).value.1), s.marginal)
    requires T.Point(eEnd) == T.Point(es[|es| - 1])
    ensures var started := T.OnStart(t, e0, t0).t;
      var (moved, mevs) := T.Moves(started, es, times).value;
      var endEv := T.OnEnd(moved, eEnd, tEnd).events[0];
      var (dragged, _) := Drags(s, DeltasOf(mevs));
      OnEnd(dragged, endEv.between.x).1[0] == DragEvents(2 * (T.Point(eEnd).0 - T.Point(e0).0))
  {
    var started := T.OnStart(t, e0, t0).t;
    T.MovesTelescope(started, es, times);
    var (moved, mevs) := T.Moves(started, es, times).value;
    DragsSum(s, DeltasOf(mevs));
    LastMoveAt(started, es, times);
  }

  /** The last recorded position is the point of the last move event. */
  lemma {:induction false} LastMoveAt(t: T.Touching, es: seq<T.TouchEvent>, times: seq<int>)
    requires |es| == |times| && |es| > 0 && t.moving != []
    ensures T.Moves(t, es, times).Ok?
    ensures var u := T.Moves(t, es, times).value.0;
      |u.moving| > 0 && u.moving[|u.moving| - 1].x == T.Point(es[|es| - 1]).0
    decreases |es|
  {
    T.MovesTelescope(t, es, times);
    var s := T.OnMove(t, es[0], times[0]).value;
    if |es| > 1 {
      LastMoveAt(s.t, es[1..], times[1..]);
      T.MovesTelescope(s.t, es[1..], times[1..]);
      var (u, rest) := T.Moves(s.t, es[1..], times[1..]).value;
      assert T.Moves(t, es, times) == Ok((u, s.events + rest));
      assert es[1..][|es[1..]| - 1] == es[|es| - 1];
    } else {
      assert T.Moves(s.t, es[1..], times[1..]) == Ok((s.t, []));
    }
  }
}
