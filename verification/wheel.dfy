/** `Wheel`: accumulates wheel deltas and reports a direction once the
    running total reaches the threshold. */
module Wheel {
  import opened Wrappers
  import D = Dispatcher

  const Up: string := "wheelUp"
  const Down: string := "wheelDown"
  const Update: string := "wheelUpdate"

  datatype WheelEvents = WheelEvents(kind: string, moved: int)

  datatype Wheel = Wheel(reg: D.Registry, threshold: int, moved: int, attached: bool)

  /** `new Wheel(threshold = 200)`. */
  function New(threshold: Option<int>): (w: Wheel)
    ensures w.threshold == threshold.GetOr(DefaultThreshold) && w.moved == 0 && !w.attached
  {
    Wheel(D.Fresh, threshold.GetOr(DefaultThreshold), 0, false)
  }

  const DefaultThreshold: int := 200

  function Abs(x: int): nat { if x < 0 then -x else x }

  /** `moving(delta)`: the new wheel, the value returned and the events
      dispatched. */
  function Moving(w: Wheel, delta: int): (r: (Wheel, int, seq<WheelEvents>))
    ensures r.1 == w.moved + delta
    ensures r.1 == 0 ==> r.0 == w.(moved := 0) && r.2 == []
    ensures r.1 != 0 && Abs(r.1) >= w.threshold ==>
      r.0 == w.(moved := 0)
      && r.2 == [WheelEvents(Update, r.1), WheelEvents(if r.1 > 0 then Up else Down, r.1)]
    ensures r.1 != 0 && Abs(r.1) < w.threshold ==> r.0 == w.(moved := r.1) && r.2 == []
  {
    var moved := w.moved + delta;
    if moved == 0 then (w.(moved := moved), moved, [])
    else if Abs(moved) >= w.threshold then
      var evs := [WheelEvents(Update, moved)] + (if moved > 0 then [WheelEvents(Up, moved)] else [WheelEvents(Down, moved)]);
      (w.(moved := 0), moved, evs)
    else (w.(moved := moved), moved, [])
  }

  /** `onMouseWheel(event)`: `moving(event.deltaY)`. */
  function OnMouseWheel(w: Wheel, deltaY: int): (r: (Wheel, int, seq<WheelEvents>))
    ensures r == Moving(w, deltaY)
  {
    Moving(w, deltaY)
  }

  /** `start()`: reset the total and attach. */
  function Start(w: Wheel): (r: Wheel)
    ensures r.moved == 0 && r.attached && r.threshold == w.threshold
  {
    Stop(w).(moved := 0, attached := true)
  }

  function Stop(w: Wheel): (r: Wheel)
    ensures !r.attached && r.moved == w.moved
  {
    w.(attached := false)
  }

  /** With a positive threshold, the kept total is always below it. */
  lemma MovingBounded(w: Wheel, delta: int)
    requires w.threshold > 0
    ensures Abs(Moving(w, delta).0.moved) < w.threshold
  {
  }

  /** A run of deltas. */
  function Feed(w: Wheel, deltas: seq<int>): (r: (Wheel, seq<WheelEvents>))
    ensures r.0.threshold == w.threshold
    decreases |deltas|
  {
    if |deltas| == 0 then (w, [])
    else
      var (w1, _, evs) := Moving(w, deltas[0]);
      var (w2, rest) := Feed(w1, deltas[1..]);
      (w2, evs + rest)
  }

  function Sum(xs: seq<int>): int
  {
    if |xs| == 0 then 0 else xs[0] + Sum(xs[1..])
  }

  /** The `moved` carried by the UPDATE events. */
  function Reported(evs: seq<WheelEvents>): int
  {
    if |evs| == 0 then 0
    else (if evs[0].kind == Update then evs[0].moved else 0) + Reported(evs[1..])
  }

  lemma {:induction false} ReportedAppend(a: seq<WheelEvents>, b: seq<WheelEvents>)
    ensures Reported(a + b) == Reported(a) + Reported(b)
  {
    if |a| == 0 {
      assert a + b == b;
    } else {
      assert (a + b)[0] == a[0];
      assert (a + b)[1..] == a[1..] + b;
      ReportedAppend(a[1..], b);
    }
  }

  /** No delta is lost: what the UPDATE events report plus the kept total is
      the starting total plus every delta. */
  lemma {:induction false} FeedConserves(w: Wheel, deltas: seq<int>)
    ensures Reported(Feed(w, deltas).1) + Feed(w, deltas).0.moved == w.moved + Sum(deltas)
    decreases |deltas|
  {
    if |deltas| > 0 {
      var (w1, _, evs) := Moving(w, deltas[0]);
      FeedConserves(w1, deltas[1..]);
      var (w2, rest) := Feed(w1, deltas[1..]);
      ReportedAppend(evs, rest);
      assert Reported(evs) + w1.moved == w.moved + deltas[0];
    }
  }
}
