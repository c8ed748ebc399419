/** `Rising`: listens to `Scrolling` and classifies every changed sample by
    the hit test of an element against the viewport. */
module Rising {
  import opened Wrappers
  import D = Dispatcher
  import Hit
  import Scrolling
  import opened ScrollEvents

  const Collision: string := "risingCollision"
  const Alien: string := "risingAlien"

  datatype RisingEvents = RisingEvents(kind: string, hit: Hit.HitRecord, original: ScrollEvents, offset: Hit.Offset)

  /** `handler` is the bound `onUpdate`. */
  datatype Rising = Rising(reg: D.Registry, handler: D.Id)

  /** `onUpdate(scrollEvents)`; `offset` is the element's current box. */
  function OnUpdate(r: Rising, se: ScrollEvents, offset: Hit.Offset): (res: (bool, seq<RisingEvents>))
    ensures !se.changed ==> res == (false, [])
    ensures se.changed ==> |res.1| == 1 && res.0 == res.1[0].hit.result
    ensures se.changed ==> res.1[0].hit == Hit.Test(se.height, offset) && res.1[0].original == se
    ensures se.changed ==> res.1[0].offset == offset
    ensures se.changed ==> (res.1[0].kind == Collision <==> res.1[0].hit.result)
    ensures se.changed ==> (res.1[0].kind == Alien <==> !res.1[0].hit.result)
  {
    if !se.changed then (false, [])
    else
      var hit := Hit.Test(se.height, offset);
      (hit.result, [RisingEvents(if hit.result then Collision else Alien, hit, se, offset)])
  }

  /** `start()`: unsubscribe, then subscribe to `Scrolling.UPDATE`. */
  function Start(r: Rising, scrolling: D.Registry): (res: D.Registry)
    ensures D.Has(res, Scrolling.Update, Some(r.handler))
    ensures D.Count(scrolling, Scrolling.Update, r.handler) <= 1 ==>
      D.Count(res, Scrolling.Update, r.handler) == 1
  {
    var off := D.Off(scrolling, Scrolling.Update, Some(r.handler)).0;
    D.OffCount(scrolling, Scrolling.Update, r.handler);
    D.OnCount(off, Scrolling.Update, r.handler);
    D.On(off, Scrolling.Update, Some(r.handler)).0
  }

  /** `stop()`. */
  function Stop(r: Rising, scrolling: D.Registry): (res: D.Registry)
    ensures D.Count(scrolling, Scrolling.Update, r.handler) <= 1 ==>
      !D.Has(res, Scrolling.Update, Some(r.handler))
  {
    D.OffCount(scrolling, Scrolling.Update, r.handler);
    D.Off(scrolling, Scrolling.Update, Some(r.handler)).0
  }

  /** A changed sample collides exactly when the element's box overlaps the
      viewport. */
  lemma CollisionIffOverlap(r: Rising, se: ScrollEvents, offset: Hit.Offset)
    requires se.changed && 0 <= se.height && offset.top <= offset.bottom
    ensures OnUpdate(r, se, offset).1[0].kind == Collision
      <==> offset.top <= se.height && offset.bottom >= 0
  {
    Hit.HitIffOverlap(se.height, offset);
  }
}
