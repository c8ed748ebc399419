/** `Hit.test`: where an element's box sits relative to the viewport strip
    from 0 to `height`. */
module Hit {

  /** The `top` and `bottom` of a `ClientRect`. */
  datatype Offset = Offset(top: int, bottom: int)

  datatype HitRecord = HitRecord(result: bool, top: bool, bottom: bool, contain: bool, included: bool)

  function Test(height: int, offset: Offset): (h: HitRecord)
    ensures h.top <==> 0 <= offset.top <= height
    ensures h.bottom <==> 0 <= offset.bottom <= height
    ensures h.contain <==> offset.top <= 0 && offset.bottom >= height
    ensures h.included <==> h.top && h.bottom
    ensures h.result <==> h.top || h.bottom || h.contain
  {
    var top := offset.top <= height && offset.top >= 0;
    var bottom := offset.bottom <= height && offset.bottom >= 0;
    var contain := offset.top <= 0 && offset.bottom >= height;
    var included := offset.top >= 0 && offset.top <= height && offset.bottom >= 0 && offset.bottom <= height;
    HitRecord(top || bottom || contain || included, top, bottom, contain, included)
  }

  /** For a real box (top above bottom) in a non-negative viewport, a hit
      is exactly an overlap of the box's span with the viewport's. */
  lemma HitIffOverlap(height: int, offset: Offset)
    requires 0 <= height && offset.top <= offset.bottom
    ensures Test(height, offset).result <==> offset.top <= height && offset.bottom >= 0
  {
  }

  /** Without the box assumption the test and the overlap disagree: an
      inverted box straddling the viewport overlaps nothing yet hits. */
  lemma InvertedBoxHits()
    ensures Test(10, Offset(5, -5)).result
  {
  }
}
