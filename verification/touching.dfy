/** `Touching`: the touch-gesture state machine. A gesture starts on
    `touchstart`, records every `touchmove`, and ends on `touchend`; cancel
    and blur abort it. Native listeners are recorded as flags and
    `preventDefault` as a returned boolean. */
module Touching {
  import opened Wrappers
  import D = Dispatcher
  import V = Vectors

  const Start: string := "touchingStart"
  const End: string := "touchingEnd"
  const Cancel: string := "touchingCancel"
  const Move: string := "touchingMove"
  const Touch: string := "touchingTouch"

  datatype TouchPoint = TouchPoint(pageX: int, pageY: int)

  /** The parts of a native touch event the handlers read. `pageX`/`pageY`
      are `None` when they are not numbers. */
  datatype TouchEvent = TouchEvent(
    id: nat, pageX: Option<int>, pageY: Option<int>,
    changedTouches: Option<seq<TouchPoint>>, touches: Option<seq<TouchPoint>>)

  datatype TouchingEvents = TouchingEvents(
    kind: string, origin: nat, current: V.Vectors, between: V.Vectors, scrolling: bool)

  datatype Touching = Touching(
    reg: D.Registry, canceling: bool, threshold: int,
    start: V.Vectors, end: V.Vectors, moving: seq<V.Vectors>,
    elementAttached: bool, bodyAttached: bool)

  /** What a handler produces: the new state, the dispatched events and
      whether it called `preventDefault`. */
  datatype Step = Step(t: Touching, events: seq<TouchingEvents>, prevented: bool)

  /** `new Touching(element, canceling = false, threshold = 10)`; `now` is
      the `Date.now()` the vectors are created with. */
  function New(canceling: Option<bool>, threshold: Option<int>, now: int): (t: Touching)
    ensures t.canceling == canceling.GetOr(false) && t.threshold == threshold.GetOr(10)
    ensures t.moving == [] && !t.elementAttached && !t.bodyAttached
  {
    Touching(D.Fresh, canceling.GetOr(false), threshold.GetOr(10),
      V.New(0, 0, now), V.New(0, 0, now), [], false, false)
  }

  /** `Touching.scrolling(a, b, threshold)`. */
  predicate Scrolling(a: V.Vectors, b: V.Vectors, threshold: int)
  {
    var dy := V.BetweenY(a, b);
    (if dy < 0 then -dy else dy) >= threshold
  }

  /** `Touching.point(event)`. */
  function Point(e: TouchEvent): (p: (int, int))
    ensures e.pageX.Some? && e.pageY.Some? && e.pageX.value != 0 && e.pageY.value != 0 ==>
      p == (e.pageX.value, e.pageY.value)
    ensures !(e.pageX.Some? && e.pageY.Some? && e.pageX.value != 0 && e.pageY.value != 0) ==>
      var list := if e.changedTouches.Some? then e.changedTouches else e.touches;
      p == if list.None? || |list.value| == 0 then (0, 0) else (list.value[0].pageX, list.value[0].pageY)
  {
    if e.pageX.Some? && e.pageY.Some? && e.pageX.value != 0 && e.pageY.value != 0 then
      (e.pageX.value, e.pageY.value)
    else
      var touches := if e.changedTouches.Some? then e.changedTouches else e.touches;
      if touches.None? || |touches.value| == 0 then (0, 0)
      else (touches.value[0].pageX, touches.value[0].pageY)
  }

  /** `dispose()`: detach the body listeners. */
  function Dispose(t: Touching): (r: Touching)
    ensures !r.bodyAttached && r == t.(bodyAttached := false)
  {
    t.(bodyAttached := false)
  }

  /** `reset()`. */
  function Reset(t: Touching): (r: Touching)
    ensures r.start == V.Reset(t.start) && r.end == V.Reset(t.end) && r.moving == []
    ensures r.bodyAttached == t.bodyAttached && r.canceling == t.canceling && r.threshold == t.threshold
  {
    t.(start := V.Reset(t.start), end := V.Reset(t.end), moving := [])
  }

  /** `onStart(event)` at time `now`. */
  function OnStart(t: Touching, e: TouchEvent, now: int): (r: Step)
    ensures r.t.start == V.Update(V.Reset(t.start), Point(e).0, Point(e).1, now)
    ensures r.t.moving == [r.t.start] && r.t.bodyAttached
    ensures r.events == [TouchingEvents(Start, e.id, r.t.start, V.New(0, 0, now), false)]
    ensures !r.prevented
  {
    var t1 := Reset(Dispose(t));
    var (x, y) := Point(e);
    var start := V.Update(t1.start, x, y, now);
    var t2 := t1.(start := start, moving := [start], bodyAttached := true);
    Step(t2, [TouchingEvents(Start, e.id, start, V.New(0, 0, now), false)], false)
  }

  /** `onMove(event)` at time `now`. An empty `moving` list makes the
      original read a field of `undefined`, which throws. */
  function OnMove(t: Touching, e: TouchEvent, now: int): (r: Result<Step>)
    ensures r.Throw? <==> t.moving == []
    ensures r.Ok? ==>
      var previous := t.moving[|t.moving| - 1];
      var (x, y) := Point(e);
      var scrolling := Scrolling(V.New(x, y, now), previous, t.threshold);
      var position := V.New(x, y, now).(scrolling := scrolling);
      r.value.t == t.(moving := t.moving + [position])
      && r.value.events == [TouchingEvents(Move, e.id, position, V.Between(position, previous), scrolling)]
      && (r.value.prevented <==> t.canceling && !scrolling)
  {
    if t.moving == [] then Throw(TypeError)
    else
      var (x, y) := Point(e);
      var position := V.New(x, y, now);
      var previous := t.moving[|t.moving| - 1];
      var scrolling := Scrolling(position, previous, t.threshold);
      var position' := position.(scrolling := scrolling);
      var between := V.Between(position', previous);
      Ok(Step(t.(moving := t.moving + [position']),
        [TouchingEvents(Move, e.id, position', between, scrolling)], t.canceling && !scrolling))
  }

  /** `onEnd(event)` at time `now`: measured against the start point. */
  function OnEnd(t: Touching, e: TouchEvent, now: int): (r: Step)
    ensures var (x, y) := Point(e);
      var scrolling := Scrolling(V.New(x, y, now), t.start, t.threshold);
      var position := V.New(x, y, now).(scrolling := scrolling);
      var between := V.Between(position, t.start);
      r.events == [TouchingEvents(End, e.id, position, between, scrolling),
                   TouchingEvents(Touch, e.id, position, between, scrolling)]
      && (r.prevented <==> t.canceling && !scrolling)
    ensures r.t == Dispose(t)
  {
    var (x, y) := Point(e);
    var position := V.New(x, y, now);
    var scrolling := Scrolling(position, t.start, t.threshold);
    var position' := position.(scrolling := scrolling);
    var between := V.Between(position', t.start);
    Step(Dispose(t), [TouchingEvents(End, e.id, position', between, scrolling),
      TouchingEvents(Touch, e.id, position', between, scrolling)], t.canceling && !scrolling)
  }

  /** `abort(event)`: detach, reset and dispatch CANCEL with fresh vectors;
      always returns true. */
  function Abort(t: Touching, e: TouchEvent, now: int): (r: (Step, bool))
    ensures r.1 && !r.0.prevented && !r.0.t.bodyAttached && r.0.t.moving == []
    ensures r.0.t.start == V.Reset(t.start) && r.0.t.end == V.Reset(t.end)
    ensures r.0.events == [TouchingEvents(Cancel, e.id, V.New(0, 0, now), V.New(0, 0, now), false)]
  {
    (Step(Reset(Dispose(t)), [TouchingEvents(Cancel, e.id, V.New(0, 0, now), V.New(0, 0, now), false)], false), true)
  }

  /** `onCancel(event)` and `onBlur(event)` both abort. */
  function OnCancel(t: Touching, e: TouchEvent, now: int): (r: (Step, bool))
    ensures r == Abort(t, e, now)
  {
    Abort(t, e, now)
  }

  function OnBlur(t: Touching, e: TouchEvent, now: int): (r: (Step, bool))
    ensures r == Abort(t, e, now)
  {
    Abort(t, e, now)
  }

  /** `start()` / `stop()`. */
  function StartListening(t: Touching): (r: Touching)
    ensures r.elementAttached && !r.bodyAttached
  {
    StopListening(t).(elementAttached := true)
  }

  function StopListening(t: Touching): (r: Touching)
    ensures !r.elementAttached && !r.bodyAttached
  {
    Dispose(t).(elementAttached := false)
  }

  /** A run of `touchmove` events, stamped with the given times. */
  function Moves(t: Touching, es: seq<TouchEvent>, times: seq<int>): (r: Result<(Touching, seq<TouchingEvents>)>)
    requires |es| == |times|
    decreases |es|
  {
    if |es| == 0 then Ok((t, []))
    else
      match OnMove(t, es[0], times[0])
      case Throw(err) => Throw(err)
      case Ok(s) =>
        match Moves(s.t, es[1..], times[1..])
        case Throw(err) => Throw(err)
        case Ok((u, rest)) => Ok((u, s.events + rest))
  }

  function SumX(evs: seq<TouchingEvents>): int
  {
    if |evs| == 0 then 0 else evs[0].between.x + SumX(evs[1..])
  }

  /** Once a gesture has started, moves never throw; each adds one entry to
      `moving`, and their x-deltas add up to the distance from the entry
      the run began at to the last position. */
  lemma {:induction false} MovesTelescope(t: Touching, es: seq<TouchEvent>, times: seq<int>)
    requires |es| == |times| && t.moving != []
    ensures Moves(t, es, times).Ok?
    ensures var (u, evs) := Moves(t, es, times).value;
      |u.moving| == |t.moving| + |es| && |evs| == |es|
      && u.moving[..|t.moving|] == t.moving
      && SumX(evs) == u.moving[|u.moving| - 1].x - t.moving[|t.moving| - 1].x
      && u.start == t.start && u.canceling == t.canceling && u.threshold == t.threshold
    decreases |es|
  {
    if |es| > 0 {
      var s := OnMove(t, es[0], times[0]).value;
      MovesTelescope(s.t, es[1..], times[1..]);
      var (u, rest) := Moves(s.t, es[1..], times[1..]).value;
      assert Moves(t, es, times) == Ok((u, s.events + rest));
      assert (s.events + rest)[1..] == rest;
      assert u.moving[..|t.moving|] == u.moving[..|s.t.moving|][..|t.moving|];
    }
  }

  /** After `onStart` the first move cannot throw and measures from the start. */
  lemma StartThenMove(t: Touching, e0: TouchEvent, e1: TouchEvent, t0: int, t1: int)
    ensures OnMove(OnStart(t, e0, t0).t, e1, t1).Ok?
    ensures OnMove(OnStart(t, e0, t0).t, e1, t1).value.events[0].between.x == Point(e1).0 - Point(e0).0
  {
  }

  /** After `abort` a stray `touchmove` would throw, but `abort` has already
      detached the body listener that delivers it. */
  lemma AbortThenMove(t: Touching, e: TouchEvent, e1: TouchEvent, now: int)
    ensures !Abort(t, e, now).0.t.bodyAttached
    ensures OnMove(Abort(t, e, now).0.t, e1, now).Throw?
  {
  }
}
