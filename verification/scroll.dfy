/** `Scroll`: the singleton native scroll sampler. */
module Scroll {
  import opened Wrappers
  import D = Dispatcher
  import opened ScrollEvents

  const ScrollType: string := "scrollScroll"

  /** `handler` is the bound `onScroll`; `attached` records whether it is
      registered for the window's `scroll` event. */
  datatype Scroll = Scroll(reg: D.Registry, handler: D.Id, previous: int, attached: bool)

  /** `Scroll.y()`: `pageYOffset` when the window defines it, otherwise the
      document's `scrollTop`. */
  function Y(pageYOffset: Option<int>, scrollTop: int): (y: int)
    ensures pageYOffset.Some? ==> y == pageYOffset.value
    ensures pageYOffset.None? ==> y == scrollTop
  {
    pageYOffset.GetOr(scrollTop)
  }

  /** `new Scroll(checkSymbol)`. */
  function Construct(instance: Option<Scroll>, key: Key, handler: D.Id): (r: Result<Scroll>)
    ensures r.Throw? <==> key == Other
    ensures r.Ok? && instance.Some? ==> r.value == instance.value
    ensures r.Ok? && instance.None? ==> r.value == Scroll(D.Fresh, handler, -1, false)
  {
    if key == Other then Throw(Error("don't use new, instead use static factory method."))
    else if instance.Some? then Ok(instance.value)
    else Ok(Scroll(D.Fresh, handler, -1, false))
  }

  /** `Scroll.factory()`: the module variable afterwards holds `Some(r)`. */
  function Factory(instance: Option<Scroll>, handler: D.Id): (r: Scroll)
    ensures instance.Some? ==> r == instance.value
    ensures instance.None? ==> r.previous == -1 && !r.attached
    ensures Construct(instance, Private, handler) == Ok(r)
  {
    if instance.Some? then instance.value else Scroll(D.Fresh, handler, -1, false)
  }

  lemma FactorySame(handler: D.Id, other: D.Id)
    ensures Factory(Some(Factory(None, handler)), other) == Factory(None, handler)
  {
  }

  /** `onScroll(event)` with scroll top `y` and window height `innerHeight`:
      the emitted event and the sampler afterwards. */
  function OnScroll(s: Scroll, native: nat, y: int, innerHeight: int): (r: (Scroll, ScrollEvents))
    ensures r.0 == s.(previous := y)
    ensures r.1.changed <==> s.previous != y
    ensures r.1.previous == s.previous && r.1.y == y
    ensures r.1.moving == y - s.previous && r.1.bottom == y + innerHeight
    ensures r.1.height == innerHeight && r.1.original == Native(native) && r.1.kind == ScrollType
  {
    var ev := Blank(ScrollType).(original := Native(native), y := y, height := innerHeight,
      bottom := y + innerHeight, previous := s.previous, changed := s.previous != y, moving := y - s.previous);
    (s.(previous := y), ev)
  }

  /** `start()`: remove, then add, the native listener. */
  function Start(s: Scroll): (r: Scroll)
    ensures r.attached && r.reg == s.reg && r.previous == s.previous
  {
    Stop(s).(attached := true)
  }

  /** `stop()`. */
  function Stop(s: Scroll): (r: Scroll)
    ensures !r.attached && r.reg == s.reg && r.previous == s.previous
  {
    s.(attached := false)
  }

  /** A run of scroll samples (scroll top and window height per event). */
  function Samples(s: Scroll, ys: seq<int>, height: int): (r: (Scroll, seq<ScrollEvents>))
    ensures |r.1| == |ys|
    decreases |ys|
  {
    if |ys| == 0 then (s, [])
    else
      var (t, ev) := OnScroll(s, 0, ys[0], height);
      var (u, rest) := Samples(t, ys[1..], height);
      (u, [ev] + rest)
  }

  /** Every event's `previous` is the prior sample, `changed` says the
      movement is non-zero, and the movements add up to the distance from
      the starting `previous` to the last sample. */
  lemma {:induction false} SamplesChain(s: Scroll, ys: seq<int>, height: int)
    requires |ys| > 0
    ensures var (u, evs) := Samples(s, ys, height);
      evs[0].previous == s.previous && u.previous == ys[|ys| - 1]
      && (forall k :: 0 < k < |evs| ==> evs[k].previous == evs[k - 1].y)
      && (forall k :: 0 <= k < |evs| ==> (evs[k].changed <==> evs[k].moving != 0))
      && SumMoving(evs) == ys[|ys| - 1] - s.previous
    decreases |ys|
  {
    var (t, ev) := OnScroll(s, 0, ys[0], height);
    if |ys| > 1 {
      SamplesChain(t, ys[1..], height);
      var (u, rest) := Samples(t, ys[1..], height);
      var evs := [ev] + rest;
      assert Samples(s, ys, height) == (u, evs);
      assert forall k :: 0 < k < |evs| ==> evs[k] == rest[k - 1];
      assert evs[1..] == rest;
    } else {
      var evs := [ev];
      assert Samples(t, ys[1..], height) == (t, []);
      assert evs[1..] == [];
    }
  }

  function SumMoving(evs: seq<ScrollEvents>): int
  {
    if |evs| == 0 then 0 else evs[0].moving + SumMoving(evs[1..])
  }
}
