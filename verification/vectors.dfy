/** `Vectors`: a 2-D point stamped with a time and a `scrolling` flag.
    Coordinates and times are integers here. */
module Vectors {

  datatype Vectors = Vectors(x: int, y: int, time: int, scrolling: bool)

  /** `new Vectors(x, y, time)`; `time` defaults to `Date.now()`, passed in. */
  function New(x: int, y: int, time: int): (v: Vectors)
    ensures v.x == x && v.y == y && v.time == time && !v.scrolling
  {
    Vectors(x, y, time, false)
  }

  /** `reset()`. */
  function Reset(v: Vectors): (r: Vectors)
    ensures r.x == 0 && r.y == 0 && r.time == 0 && r.scrolling == v.scrolling
  {
    v.(x := 0, y := 0, time := 0)
  }

  /** `update(x, y, time)`. */
  function Update(v: Vectors, x: int, y: int, time: int): (r: Vectors)
    ensures r.x == x && r.y == y && r.time == time && r.scrolling == v.scrolling
  {
    v.(x := x, y := y, time := time)
  }

  /** `clone()`: a copy of all four fields. */
  function Clone(v: Vectors): (r: Vectors)
    ensures r.x == v.x && r.y == v.y && r.time == v.time && r.scrolling == v.scrolling
  {
    New(v.x, v.y, v.time).(scrolling := v.scrolling)
  }

  /** `betweenX`, `betweenY`, `betweenTime`: the displacement that carries
      the argument's coordinate onto the receiver's. */
  function BetweenX(v: Vectors, w: Vectors): (d: int)
    ensures w.x + d == v.x
  {
    v.x - w.x
  }

  function BetweenY(v: Vectors, w: Vectors): (d: int)
    ensures w.y + d == v.y
  {
    v.y - w.y
  }

  function BetweenTime(v: Vectors, w: Vectors): (d: int)
    ensures w.time + d == v.time
  {
    v.time - w.time
  }

  /** `duration(vectors)`: the same difference as `betweenTime`. */
  function Duration(v: Vectors, w: Vectors): (d: int)
    ensures d == BetweenTime(v, w)
  {
    v.time - w.time
  }

  /** `between(vectors)`: the receiver minus the argument, keeping the
      receiver's `scrolling` flag. */
  function Between(v: Vectors, w: Vectors): (r: Vectors)
    ensures r.x == BetweenX(v, w) && r.y == BetweenY(v, w) && r.time == BetweenTime(v, w)
    ensures r.scrolling == v.scrolling
  {
    var c := Clone(v);
    c.(x := BetweenX(c, w), y := BetweenY(c, w), time := BetweenTime(c, w))
  }

  /** `divideByScalar(0)`: the only case without floating point. */
  function DivideByZero(v: Vectors): (r: Vectors)
    ensures r.x == 0 && r.y == 0 && r.time == v.time && r.scrolling == v.scrolling
  {
    Clone(v).(x := 0, y := 0)
  }

  /** `multiplyByScalar(k)`. */
  function MultiplyByScalar(v: Vectors, k: int): (r: Vectors)
    ensures r.x == v.x * k && r.y == v.y * k && r.time == v.time && r.scrolling == v.scrolling
  {
    var c := Clone(v);
    c.(x := c.x * k, y := c.y * k)
  }

  /** `dot(vectors)`. A vector's product with itself (its squared length)
      is never negative, and is zero only for the zero vector. */
  function Dot(v: Vectors, w: Vectors): (r: int)
    ensures Equals(v, w) ==> r >= 0 && (r == 0 <==> v.x == 0 && v.y == 0)
  {
    if Equals(v, w) then
      SquareSign(v.x);
      SquareSign(v.y);
      v.x * w.x + v.y * w.y
    else v.x * w.x + v.y * w.y
  }

  lemma SquareSign(a: int)
    ensures a * a >= 0 && (a * a == 0 <==> a == 0)
  {
    if a > 0 {
      assert a * a >= a;
    } else if a < 0 {
      assert a * a >= -a;
    }
  }

  /** `equals(vectors)`: x and y only; it holds exactly when there is no
      displacement between the two. */
  predicate Equals(v: Vectors, w: Vectors)
    ensures Equals(v, w) <==> BetweenX(v, w) == 0 && BetweenY(v, w) == 0
  {
    w.x == v.x && w.y == v.y
  }

  /** Swapping the operands of `between` negates each component. */
  lemma BetweenAntisymmetric(v: Vectors, w: Vectors)
    ensures Between(w, v).x == -Between(v, w).x
    ensures Between(w, v).y == -Between(v, w).y
    ensures Between(w, v).time == -Between(v, w).time
  {
  }

  /** Adding the difference back to the argument recovers the receiver's
      position and time. */
  lemma BetweenInverse(v: Vectors, w: Vectors)
    ensures Update(w, w.x + Between(v, w).x, w.y + Between(v, w).y, w.time + Between(v, w).time)
      == w.(x := v.x, y := v.y, time := v.time)
  {
  }

  /** Two vectors are `equals` exactly when their difference has zero
      squared length. */
  lemma EqualsIffZeroDistance(v: Vectors, w: Vectors)
    ensures var d := Between(v, w); Equals(v, w) <==> Dot(d, d) == 0
  {
    var d := Between(v, w);
    assert Equals(d, d);
  }

  /** `equals` ignores time and the flag, and holds iff `between` is zero in
      x and y. */
  lemma EqualsIffNoDisplacement(v: Vectors, w: Vectors)
    ensures Equals(v, w) <==> Between(v, w).x == 0 && Between(v, w).y == 0
    ensures Equals(v, w) <==> Equals(v, Update(w, w.x, w.y, v.time + 1))
  {
  }

  /** `reset` then `update` is the same as `update`. */
  lemma ResetThenUpdate(v: Vectors, x: int, y: int, t: int)
    ensures Update(Reset(v), x, y, t) == Update(v, x, y, t)
  {
  }
}
