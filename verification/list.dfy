/** `List`: array construction and concatenation helpers. */
module List {
  import opened Wrappers

  /** `n` copies of `v`. */
  function Copies<T>(n: nat, v: T): (r: seq<T>)
    ensures |r| == n && forall i :: 0 <= i < n ==> r[i] == v
  {
    seq(n, _ => v)
  }

  /** `filling(n, v)`: pushes `v` while the counter stays positive. */
  method Filling<T>(n: int, v: T) returns (r: seq<T>)
    ensures n <= 0 ==> r == []
    ensures n > 0 ==> |r| == n
    ensures forall i :: 0 <= i < |r| ==> r[i] == v
  {
    var length := n;
    r := [];
    while length > 0
      invariant length <= 0 ==> |r| == (if n > 0 then n else 0)
      invariant length > 0 ==> |r| == n - length
      invariant forall i :: 0 <= i < |r| ==> r[i] == v
    {
      r := r + [v];
      length := length - 1;
    }
  }

  /** The largest array length plus one: `new Array(n)` needs `0 <= n < 2^32`. */
  const ArrayLengthBound := 0x1_0000_0000

  /** `fill(n, v)`: `new Array(n).fill(v)` where `Array.prototype.fill`
      exists, which throws a RangeError for an invalid length; `filling`
      otherwise. */
  method Fill<T>(n: int, v: T, nativeFill: bool) returns (r: Result<seq<T>>)
    ensures nativeFill && !(0 <= n < ArrayLengthBound) ==> r == Throw(RangeError)
    ensures r.Ok? ==> |r.value| == (if n > 0 then n else 0) && forall i :: 0 <= i < |r.value| ==> r.value[i] == v
    ensures !nativeFill || 0 <= n < ArrayLengthBound ==> r.Ok?
  {
    if !nativeFill {
      var arr := Filling(n, v);
      r := Ok(arr);
    } else if 0 <= n < ArrayLengthBound {
      r := Ok(Copies(n, v));
    } else {
      r := Throw(RangeError);
    }
  }

  /** The arrays one after another (a right fold, the reference). */
  function Concat<T>(xs: seq<seq<T>>): seq<T>
  {
    if |xs| == 0 then [] else xs[0] + Concat(xs[1..])
  }

  /** `args.reduce((acc, val) => [...acc, ...val])`: a left fold seeded with
      the first array. */
  function Reduce<T>(acc: seq<T>, xs: seq<seq<T>>): seq<T>
    decreases |xs|
  {
    if |xs| == 0 then acc else Reduce(acc + xs[0], xs[1..])
  }

  /** `marge(...args)`: with no argument, `reduce` without a seed throws. */
  function Marge<T>(args: seq<seq<T>>): (r: Result<seq<T>>)
    ensures r.Throw? <==> |args| == 0
  {
    if |args| == 0 then Throw(TypeError) else Ok(Reduce(args[0], args[1..]))
  }

  lemma {:induction false} ReduceConcat<T>(acc: seq<T>, xs: seq<seq<T>>)
    ensures Reduce(acc, xs) == acc + Concat(xs)
    decreases |xs|
  {
    if |xs| > 0 {
      ReduceConcat(acc + xs[0], xs[1..]);
    }
  }

  /** `marge` concatenates its arrays in argument order. */
  lemma MargeConcatenates<T>(args: seq<seq<T>>)
    requires |args| > 0
    ensures Marge(args) == Ok(Concat(args))
  {
    ReduceConcat(args[0], args[1..]);
  }

  lemma {:induction false} ConcatAppend<T>(a: seq<seq<T>>, b: seq<seq<T>>)
    ensures Concat(a + b) == Concat(a) + Concat(b)
    decreases |a|
  {
    if |a| == 0 {
      assert a + b == b;
    } else {
      ConcatAppend(a[1..], b);
      assert (a + b)[1..] == a[1..] + b;
    }
  }

  /** Merging in two steps is merging all at once. */
  lemma MargeAssociative<T>(a: seq<seq<T>>, b: seq<seq<T>>)
    requires |a| > 0 && |b| > 0
    ensures Marge(a + b) == Ok(Marge(a).value + Marge(b).value)
  {
    MargeConcatenates(a + b);
    MargeConcatenates(a);
    MargeConcatenates(b);
    ConcatAppend(a, b);
  }

  /** An array entry: a value or a nested array. */
  datatype Item<T> = Leaf(value: T) | Arr(items: seq<Item<T>>)

  /** The number of entries and nested arrays, all levels counted. */
  function Size<T>(xs: seq<Item<T>>): nat
    decreases xs
  {
    if |xs| == 0 then 0
    else
      (match xs[0] case Leaf(_) => 1 case Arr(ys) => 1 + Size(ys)) + Size(xs[1..])
  }

  /** The values at every depth, left to right: the reference. */
  function Leaves<T>(xs: seq<Item<T>>): seq<T>
    decreases xs
  {
    if |xs| == 0 then []
    else
      (match xs[0] case Leaf(v) => [v] case Arr(ys) => Leaves(ys)) + Leaves(xs[1..])
  }

  predicate Flat<T>(xs: seq<Item<T>>)
  {
    forall i :: 0 <= i < |xs| ==> xs[i].Leaf?
  }

  /** `[].concat(...arr)`: one level of nesting removed. */
  function Spread<T>(xs: seq<Item<T>>): (r: seq<Item<T>>)
    ensures Flat(xs) ==> r == xs
    ensures Leaves(r) == Leaves(xs)
    ensures Size(r) <= Size(xs)
    ensures !Flat(xs) ==> Size(r) < Size(xs)
  {
    if |xs| == 0 then []
    else
      var rest := Spread(xs[1..]);
      var head := match xs[0] case Leaf(_) => [xs[0]] case Arr(ys) => ys;
      LeavesAppend(head, rest);
      SizeAppend(head, rest);
      assert [xs[0]][1..] == [];
      assert Flat(xs) ==> Flat(xs[1..]) && [xs[0]] + xs[1..] == xs;
      assert !Flat(xs) ==> xs[0].Arr? || !Flat(xs[1..]);
      head + rest
  }

  lemma {:induction false} LeavesAppend<T>(a: seq<Item<T>>, b: seq<Item<T>>)
    ensures Leaves(a + b) == Leaves(a) + Leaves(b)
    decreases |a|
  {
    if |a| == 0 {
      assert a + b == b;
    } else {
      var head := match a[0] case Leaf(v) => [v] case Arr(ys) => Leaves(ys);
      assert (a + b)[0] == a[0];
      assert (a + b)[1..] == a[1..] + b;
      assert Leaves(a + b) == head + Leaves(a[1..] + b);
      assert Leaves(a) == head + Leaves(a[1..]);
      LeavesAppend(a[1..], b);
    }
  }

  lemma {:induction false} SizeAppend<T>(a: seq<Item<T>>, b: seq<Item<T>>)
    ensures Size(a + b) == Size(a) + Size(b)
    decreases |a|
  {
    if |a| == 0 {
      assert a + b == b;
    } else {
      SizeAppend(a[1..], b);
      assert (a + b)[1..] == a[1..] + b;
    }
  }

  /** `flatten(arr)`: spreads until no entry is an array. */
  function Flatten<T>(xs: seq<Item<T>>): (r: seq<Item<T>>)
    ensures Flat(r)
    ensures Leaves(r) == Leaves(xs)
    decreases Size(xs)
  {
    var flat := Spread(xs);
    if !Flat(flat) then Flatten(flat) else flat
  }

  /** The leaves of a flat array are its entries. */
  lemma {:induction false} FlatLeaves<T>(xs: seq<Item<T>>)
    requires Flat(xs)
    ensures |Leaves(xs)| == |xs|
    ensures forall i :: 0 <= i < |xs| ==> xs[i] == Leaf(Leaves(xs)[i])
    decreases |xs|
  {
    if |xs| > 0 {
      FlatLeaves(xs[1..]);
    }
  }

  /** `flatten` keeps every value at every depth, in order, and nothing else;
      a flat array comes back unchanged. */
  lemma FlattenLeaves<T>(xs: seq<Item<T>>)
    ensures |Flatten(xs)| == |Leaves(xs)|
    ensures forall i :: 0 <= i < |Flatten(xs)| ==> Flatten(xs)[i] == Leaf(Leaves(xs)[i])
    ensures Flat(xs) ==> Flatten(xs) == xs
  {
    FlatLeaves(Flatten(xs));
  }
}
