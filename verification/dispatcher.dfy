/** `EventDispatcher`: a registry from event type to a list of listeners in
    which removal leaves a `null` tombstone, and a list is only emptied once
    every entry in it is dead. Listeners are opaque ids; a JavaScript value
    that is not a function is `None`. */
module Dispatcher {
  import opened Wrappers

  type Id = nat
  type Listeners = seq<Option<Id>>
  type Registry = map<string, Listeners>

  /** The registry of a new dispatcher, and of one after `destroy`. */
  const Fresh: Registry := map[]

  /** The list registered for `t`, or the empty list `on` would create. */
  function ListOf(reg: Registry, t: string): Listeners
  {
    if t in reg then reg[t] else []
  }

  predicate HasFunction(l: Listeners)
  {
    exists i :: 0 <= i < |l| && l[i].Some?
  }

  /** `destroy()` drops every key. */
  function Destroy(reg: Registry): (r: Registry)
    ensures forall t :: t !in r
  {
    Fresh
  }

  /** `on(type, listener)`; an empty `t` is the falsy type. */
  function On(reg: Registry, t: string, listener: Option<Id>): (r: (Registry, bool))
    ensures r.1 <==> t != "" && listener.Some?
    ensures !r.1 ==> r.0 == reg
    ensures r.1 ==> r.0.Keys == reg.Keys + {t}
    ensures r.1 ==> r.0[t] == ListOf(reg, t) + [listener]
    ensures forall u :: u in reg && u != t ==> u in r.0 && r.0[u] == reg[u]
  {
    if t == "" then (reg, false)
    else if listener.None? then (reg, false)
    else (reg[t := ListOf(reg, t) + [listener]], true)
  }

  /** `Array.prototype.indexOf` on a listener list. */
  function IndexOf(l: Listeners, x: Id): (i: int)
    ensures -1 <= i < |l|
    ensures i == -1 <==> Some(x) !in l
    ensures i >= 0 ==> l[i] == Some(x) && forall j :: 0 <= j < i ==> l[j] != Some(x)
  {
    if |l| == 0 then -1
    else if l[0] == Some(x) then 0
    else
      var k := IndexOf(l[1..], x);
      if k == -1 then -1 else k + 1
  }

  /** `clean(type, types)`: empties `t`'s list when `types` holds no function,
      and reports whether it did. */
  function Clean(reg: Registry, t: string, types: Listeners): (r: (Registry, bool))
    ensures r.1 <==> forall i :: 0 <= i < |types| ==> types[i].None?
    ensures r.1 ==> r.0 == reg[t := []]
    ensures !r.1 ==> r.0 == reg
  {
    if HasFunction(types) then (reg, false) else (reg[t := []], true)
  }

  /** `off(type, listener)`: tombstones the first matching entry and cleans. */
  function Off(reg: Registry, t: string, listener: Option<Id>): (r: (Registry, bool))
    ensures r.1 <==> listener.Some? && t in reg && listener in reg[t]
    ensures !r.1 ==> r.0 == reg
    ensures r.1 ==> r.0.Keys == reg.Keys
    ensures r.1 ==>
      var i := IndexOf(reg[t], listener.value);
      var tomb := reg[t][i := None];
      r.0[t] == (if HasFunction(tomb) then tomb else [])
    ensures forall u :: u in reg && u != t ==> u in r.0 && r.0[u] == reg[u]
  {
    if listener.None? then (reg, false)
    else if t !in reg then (reg, false)
    else
      var i := IndexOf(reg[t], listener.value);
      if i == -1 then (reg, false)
      else
        var types := reg[t][i := None];
        var cleaned := Clean(reg[t := types], t, types);
        (cleaned.0, true)
  }

  /** `has(type, listener)`. */
  function Has(reg: Registry, t: string, listener: Option<Id>): (r: bool)
    ensures r <==> listener.Some? && t in reg && exists i :: 0 <= i < |reg[t]| && reg[t][i] == listener
  {
    listener.Some? && t in reg && listener in reg[t]
  }

  /** The ids of the live entries, in list order. */
  function Live(l: Listeners): (r: seq<Id>)
    ensures |r| <= |l|
    ensures forall x :: x in r <==> Some(x) in l
  {
    if |l| == 0 then []
    else (if l[0].Some? then [l[0].value] else []) + Live(l[1..])
  }

  lemma {:induction false} LiveOccurrences(l: Listeners, x: Id)
    ensures multiset(Live(l))[x] == multiset(l)[Some(x)]
  {
    if |l| > 0 {
      LiveOccurrences(l[1..], x);
      assert l == [l[0]] + l[1..];
    }
  }

  lemma {:induction false} LiveEmptyIffDead(l: Listeners)
    ensures Live(l) == [] <==> !HasFunction(l)
  {
    if |l| > 0 {
      LiveEmptyIffDead(l[1..]);
      if HasFunction(l[1..]) {
        var i :| 0 <= i < |l[1..]| && l[1..][i].Some?;
        assert l[i + 1].Some?;
      }
      if HasFunction(l) && l[0].None? {
        var i :| 0 <= i < |l| && l[i].Some?;
        assert l[1..][i - 1].Some?;
      }
    }
  }

  /** How many entries of `t`'s list are the listener `x`. */
  function Count(reg: Registry, t: string, x: Id): nat
  {
    multiset(ListOf(reg, t))[Some(x)]
  }

  lemma OnCount(reg: Registry, t: string, x: Id)
    requires t != ""
    ensures Count(On(reg, t, Some(x)).0, t, x) == Count(reg, t, x) + 1
  {
  }

  /** `off` removes exactly one registration of a present listener. */
  lemma OffCount(reg: Registry, t: string, x: Id)
    ensures Count(reg, t, x) == 0 ==> Count(Off(reg, t, Some(x)).0, t, x) == 0
    ensures Count(reg, t, x) > 0 ==> Count(Off(reg, t, Some(x)).0, t, x) == Count(reg, t, x) - 1
  {
    if t in reg && Some(x) in reg[t] {
      var l := reg[t];
      var i := IndexOf(l, x);
      var tomb := l[i := None];
      assert multiset(tomb) == multiset(l) - multiset{Some(x)} + multiset{None};
      assert Count(reg, t, x) == multiset(tomb)[Some(x)] + 1;
      if !HasFunction(tomb) {
        assert Some(x) !in tomb;
        assert multiset(tomb)[Some(x)] == 0;
        assert ListOf(Off(reg, t, Some(x)).0, t) == [];
      }
    } else if t in reg {
      assert Some(x) !in reg[t];
    }
  }

  /** `off` on one type leaves every other type's list alone. */
  lemma OffOtherType(reg: Registry, t: string, u: string, x: Id, y: Id)
    requires t != u
    ensures Count(Off(reg, t, Some(x)).0, u, y) == Count(reg, u, y)
  {
    assert ListOf(Off(reg, t, Some(x)).0, u) == ListOf(reg, u);
  }

  lemma CountZeroNotHas(reg: Registry, t: string, x: Id)
    requires Count(reg, t, x) == 0
    ensures !Has(reg, t, Some(x))
  {
  }

  /** A listener that is not registered is never called. */
  lemma NotRegisteredNotCalled(reg: Registry, t: string, x: Id)
    requires !Has(reg, t, Some(x))
    ensures x !in Dispatch(reg, t, NoEffects).calls
  {
    if t in reg { DispatchQuiet(reg, t); }
  }

  // ---------------------------------------------------------------------
  // Subsequences
  // ---------------------------------------------------------------------

  /** `a` is obtained from `b` by deleting entries (greedy matching). */
  predicate IsSubseq(a: seq<Id>, b: seq<Id>)
    decreases |b|
  {
    if |a| == 0 then true
    else if |b| == 0 then false
    else if a[0] == b[0] then IsSubseq(a[1..], b[1..])
    else IsSubseq(a, b[1..])
  }

  lemma {:induction false} SubseqRefl(a: seq<Id>)
    ensures IsSubseq(a, a)
  {
    if |a| > 0 { SubseqRefl(a[1..]); }
  }

  lemma {:induction false} SubseqSkip(a: seq<Id>, b: seq<Id>, x: Id)
    requires IsSubseq(a, b)
    ensures IsSubseq(a, [x] + b)
    decreases |b|, 1
  {
    var xb := [x] + b;
    assert xb[1..] == b;
    if |a| > 0 && a[0] == x {
      SubseqTail(a, b);
    }
  }

  lemma {:induction false} SubseqTail(a: seq<Id>, b: seq<Id>)
    requires |a| > 0 && IsSubseq(a, b)
    ensures IsSubseq(a[1..], b)
    decreases |b|, 0
  {
    if a[0] == b[0] {
      SubseqSkip(a[1..], b[1..], b[0]);
      assert [b[0]] + b[1..] == b;
    } else {
      SubseqTail(a, b[1..]);
      SubseqSkip(a[1..], b[1..], b[0]);
      assert [b[0]] + b[1..] == b;
    }
  }

  lemma {:induction false} SubseqTrans(a: seq<Id>, b: seq<Id>, c: seq<Id>)
    requires IsSubseq(a, b) && IsSubseq(b, c)
    ensures IsSubseq(a, c)
    decreases |c|
  {
    if |a| == 0 {
    } else if b[0] == c[0] {
      if a[0] == b[0] {
        SubseqTrans(a[1..], b[1..], c[1..]);
      } else {
        SubseqTrans(a, b[1..], c[1..]);
      }
    } else {
      SubseqTrans(a, b, c[1..]);
      if a[0] == c[0] {
        SubseqTail(a, c[1..]);
      }
    }
  }

  /** `b` agrees with `a` except that some entries have died. */
  predicate Dominated(b: Listeners, a: Listeners)
  {
    |b| == |a| && forall i :: 0 <= i < |a| ==> b[i] == a[i] || b[i].None?
  }

  lemma {:induction false} DominatedLive(b: Listeners, a: Listeners)
    requires Dominated(b, a)
    ensures IsSubseq(Live(b), Live(a))
  {
    if |a| == 0 {
    } else {
      assert Dominated(b[1..], a[1..]);
      DominatedLive(b[1..], a[1..]);
      var rb, ra := Live(b[1..]), Live(a[1..]);
      if b[0].Some? {
        assert Live(b) == [b[0].value] + rb && Live(a) == [b[0].value] + ra;
        assert ([b[0].value] + rb)[1..] == rb;
        assert ([b[0].value] + ra)[1..] == ra;
      } else if a[0].Some? {
        assert Live(b) == rb && Live(a) == [a[0].value] + ra;
        SubseqSkip(rb, ra, a[0].value);
      } else {
        assert Live(b) == rb && Live(a) == ra;
      }
    }
  }

  // ---------------------------------------------------------------------
  // Re-entrant dispatch
  // ---------------------------------------------------------------------

  /** What a listener may do to the dispatcher while it runs. */
  datatype Op = Add(t: string, l: Option<Id>) | Remove(t: string, l: Option<Id>) | Clear

  function Apply(reg: Registry, op: Op): Registry
  {
    match op
    case Add(u, l) => On(reg, u, l).0
    case Remove(u, l) => Off(reg, u, l).0
    case Clear => Destroy(reg)
  }

  /** The state of one pass of `Array.prototype.map` over `listeners[t]`:
      `arr` is the array object being walked; while `attached` it is still
      the one stored under `t`. `clean` and `destroy` store a new array,
      after which the walked one is never written again. */
  datatype Pass = Pass(reg: Registry, arr: Listeners, attached: bool)

  predicate Valid(p: Pass, t: string)
  {
    p.attached ==> t in p.reg && p.reg[t] == p.arr
  }

  predicate Grown(q: Listeners, p: Listeners)
  {
    |q| >= |p| && Dominated(q[..|p|], p)
  }

  /** One operation performed by a listener during the pass. */
  function Step(p: Pass, t: string, op: Op): (q: Pass)
    requires Valid(p, t)
    ensures Valid(q, t)
    ensures q.reg == Apply(p.reg, op)
    ensures Grown(q.arr, p.arr)
  {
    var reg' := Apply(p.reg, op);
    if !p.attached then Pass(reg', p.arr, false)
    else
      match op
      case Clear => Pass(reg', p.arr, false)
      case Add(u, l) =>
        assert p.arr == reg'[t][..|p.arr|];
        Pass(reg', reg'[t], true)
      case Remove(u, l) =>
        if u == t && l.Some? && l in p.arr then
          var tomb := p.arr[IndexOf(p.arr, l.value) := None];
          if HasFunction(tomb) then
            assert tomb[..|p.arr|] == tomb;
            Pass(reg', tomb, true)
          else Pass(reg', tomb, false)
        else
          assert reg'[t][..|p.arr|] == p.arr;
          Pass(reg', reg'[t], true)
  }

  function Run(p: Pass, t: string, ops: seq<Op>): (q: Pass)
    requires Valid(p, t)
    ensures Valid(q, t)
    ensures Grown(q.arr, p.arr)
    decreases |ops|
  {
    if |ops| == 0 then
      assert p.arr[..|p.arr|] == p.arr;
      p
    else
      var m := Step(p, t, ops[0]);
      var q := Run(m, t, ops[1..]);
      assert q.arr[..|p.arr|] == q.arr[..|m.arr|][..|p.arr|];
      q
  }

  datatype Outcome = Outcome(ok: bool, calls: seq<Id>, reg: Registry)

  /** Visits indexes `i .. n-1` of the walked array, reading each entry when
      it is reached and running the listener's operations before moving on. */
  function Walk(p: Pass, t: string, effects: Id -> seq<Op>, i: nat, n: nat): (r: (seq<Id>, Pass))
    requires Valid(p, t) && i <= n <= |p.arr|
    ensures Valid(r.1, t) && Grown(r.1.arr, p.arr)
    ensures |r.0| <= n - i
    decreases n - i
  {
    if i == n then
      assert p.arr[..|p.arr|] == p.arr;
      ([], p)
    else
      match p.arr[i]
      case None =>
        var r := Walk(p, t, effects, i + 1, n);
        r
      case Some(id) =>
        var q := Run(p, t, effects(id));
        var r := Walk(q, t, effects, i + 1, n);
        assert r.1.arr[..|p.arr|] == r.1.arr[..|q.arr|][..|p.arr|];
        ([id] + r.0, r.1)
  }

  /** `dispatch(events)` for an event whose type is `t`. Returns false and
      calls nothing when `t` is not a key. */
  function Dispatch(reg: Registry, t: string, effects: Id -> seq<Op>): (r: Outcome)
    ensures r.ok <==> t in reg
    ensures !r.ok ==> r.calls == [] && r.reg == reg
    ensures r.ok ==> IsSubseq(r.calls, Live(reg[t]))
  {
    if t !in reg then Outcome(false, [], reg)
    else
      var w := Walk(Pass(reg, reg[t], true), t, effects, 0, |reg[t]|);
      WalkCallsLive(Pass(reg, reg[t], true), t, effects, 0, |reg[t]|);
      assert reg[t][0..|reg[t]|] == reg[t];
      Outcome(true, w.0, w.1.reg)
  }

  function NoEffects(id: Id): seq<Op> { [] }

  lemma DominatedSlice(b: Listeners, a: Listeners, i: nat, n: nat)
    requires Grown(b, a) && i <= n <= |a|
    ensures Dominated(b[i..n], a[i..n])
  {
  }

  lemma LiveCons(l: Listeners, i: nat, n: nat)
    requires i < n <= |l|
    ensures Live(l[i..n]) == (if l[i].Some? then [l[i].value] else []) + Live(l[i + 1..n])
  {
    assert l[i..n][1..] == l[i + 1..n];
  }

  /** Every call of the pass is a live entry of the walked array as it was
      when the pass reached index `i`, called once, in list order; entries
      appended during the pass (beyond `n`) are never called. */
  lemma {:induction false} WalkCallsLive(p: Pass, t: string, effects: Id -> seq<Op>, i: nat, n: nat)
    requires Valid(p, t) && i <= n <= |p.arr|
    ensures IsSubseq(Walk(p, t, effects, i, n).0, Live(p.arr[i..n]))
    decreases n - i, 1
  {
    if i < n {
      LiveCons(p.arr, i, n);
      if p.arr[i].None? {
        assert Live(p.arr[i..n]) == [] + Live(p.arr[i + 1..n]) == Live(p.arr[i + 1..n]);
        assert Walk(p, t, effects, i, n) == Walk(p, t, effects, i + 1, n);
        WalkCallsLive(p, t, effects, i + 1, n);
      } else {
        WalkCallsLiveStep(p, t, effects, i, n);
      }
    }
  }

  lemma {:induction false} WalkCallsLiveStep(p: Pass, t: string, effects: Id -> seq<Op>, i: nat, n: nat)
    requires Valid(p, t) && i < n <= |p.arr| && p.arr[i].Some?
    ensures IsSubseq(Walk(p, t, effects, i, n).0, Live(p.arr[i..n]))
    decreases n - i, 0
  {
    var id := p.arr[i].value;
    var q := Run(p, t, effects(id));
    var rest := Walk(q, t, effects, i + 1, n).0;
    var tail := Live(p.arr[i + 1..n]);
    assert Walk(p, t, effects, i, n).0 == [id] + rest;
    LiveCons(p.arr, i, n);
    assert Live(p.arr[i..n]) == [id] + tail;
    WalkCallsLive(q, t, effects, i + 1, n);
    DominatedSlice(q.arr, p.arr, i + 1, n);
    DominatedLive(q.arr[i + 1..n], p.arr[i + 1..n]);
    SubseqTrans(rest, Live(q.arr[i + 1..n]), tail);
    assert ([id] + rest)[1..] == rest;
    assert ([id] + tail)[1..] == tail;
  }

  /** With listeners that do not touch the dispatcher, every live entry is
      called exactly once in list order and the registry is unchanged. */
  lemma {:induction false} WalkQuiet(p: Pass, t: string, i: nat, n: nat)
    requires Valid(p, t) && i <= n <= |p.arr|
    ensures Walk(p, t, NoEffects, i, n) == (Live(p.arr[i..n]), p)
    decreases n - i
  {
    if i < n {
      LiveCons(p.arr, i, n);
      WalkQuiet(p, t, i + 1, n);
      var rest := Walk(p, t, NoEffects, i + 1, n);
      if p.arr[i].Some? {
        var id := p.arr[i].value;
        assert NoEffects(id) == [];
        assert Run(p, t, NoEffects(id)) == p;
        assert Walk(p, t, NoEffects, i, n) == ([id] + rest.0, rest.1);
      } else {
        assert Live(p.arr[i..n]) == [] + Live(p.arr[i + 1..n]) == Live(p.arr[i + 1..n]);
        assert Walk(p, t, NoEffects, i, n) == rest;
      }
    }
  }

  lemma DispatchQuiet(reg: Registry, t: string)
    requires t in reg
    ensures Dispatch(reg, t, NoEffects) == Outcome(true, Live(reg[t]), reg)
  {
    WalkQuiet(Pass(reg, reg[t], true), t, 0, |reg[t]|);
    assert reg[t][0..|reg[t]|] == reg[t];
  }

  /** A listener registered twice is called twice. */
  lemma DispatchCallsTwice(reg: Registry, t: string, x: Id)
    requires t in reg
    ensures multiset(Dispatch(reg, t, NoEffects).calls)[x] == multiset(reg[t])[Some(x)]
  {
    DispatchQuiet(reg, t);
    LiveOccurrences(reg[t], x);
  }

  /** A type emptied by `off` keeps its key, so it still dispatches. */
  lemma OffKeepsKey(reg: Registry, t: string, x: Id)
    requires t in reg && Some(x) in reg[t]
    ensures Off(reg, t, Some(x)).1
    ensures Dispatch(Off(reg, t, Some(x)).0, t, NoEffects).ok
    ensures !Dispatch(Destroy(reg), t, NoEffects).ok
  {
  }

  /** `on` followed by `off` of the same listener leaves no trace of it. */
  lemma OnOffRemoves(reg: Registry, t: string, x: Id)
    requires t != "" && Some(x) !in ListOf(reg, t)
    ensures Has(On(reg, t, Some(x)).0, t, Some(x))
    ensures !Has(Off(On(reg, t, Some(x)).0, t, Some(x)).0, t, Some(x))
  {
    var r1 := On(reg, t, Some(x)).0;
    var l := r1[t];
    var i := IndexOf(l, x);
    assert l[|l| - 1] == Some(x);
    assert i == |l| - 1;
    var tomb := l[i := None];
    assert forall j :: 0 <= j < |tomb| ==> tomb[j] != Some(x);
  }

  // Concrete passes over the list [a, b] of type "t".

  function TwoListeners(): Registry { map["t" := [Some(1), Some(2)]] }

  function RemoveSecond(id: Id): seq<Op> { if id == 1 then [Remove("t", Some(2))] else [] }
  function AddThird(id: Id): seq<Op> { if id == 1 then [Add("t", Some(3))] else [] }
  function DestroyFirst(id: Id): seq<Op> { if id == 1 then [Clear] else [] }

  /** An entry tombstoned by an earlier listener is skipped. */
  lemma TombstonedSkipped()
    ensures Dispatch(TwoListeners(), "t", RemoveSecond).calls == [1]
    ensures Dispatch(TwoListeners(), "t", RemoveSecond).reg == map["t" := [Some(1), None]]
  {
    var reg := TwoListeners();
    var l: Listeners := [Some(1), Some(2)];
    var tomb: Listeners := [Some(1), None];
    assert reg["t"] == l;
    assert IndexOf(l, 2) == 1;
    assert l[1 := None] == tomb;
    assert HasFunction(tomb) by { assert tomb[0].Some?; }
    var reg' := map["t" := tomb];
    assert Off(reg, "t", Some(2)).0 == reg';
    var p0 := Pass(reg, l, true);
    var p1 := Pass(reg', tomb, true);
    assert Step(p0, "t", Remove("t", Some(2))) == p1;
    assert Run(p1, "t", []) == p1;
    assert Run(p0, "t", RemoveSecond(1)) == p1;
    assert Walk(p1, "t", RemoveSecond, 2, 2) == ([], p1);
    assert Walk(p1, "t", RemoveSecond, 1, 2) == ([], p1);
    assert [1] + [] == [1];
    assert Walk(p0, "t", RemoveSecond, 0, 2) == ([1], p1);
  }

  /** An entry appended during the pass is not called in it. */
  lemma AppendedNotCalled()
    ensures Dispatch(TwoListeners(), "t", AddThird).calls == [1, 2]
    ensures Dispatch(TwoListeners(), "t", AddThird).reg == map["t" := [Some(1), Some(2), Some(3)]]
  {
    var reg := TwoListeners();
    var l: Listeners := [Some(1), Some(2)];
    var l3: Listeners := [Some(1), Some(2), Some(3)];
    assert reg["t"] == l;
    var reg' := map["t" := l3];
    assert l + [Some(3)] == l3;
    assert On(reg, "t", Some(3)).0 == reg';
    var p0 := Pass(reg, l, true);
    var p1 := Pass(reg', l3, true);
    assert Step(p0, "t", Add("t", Some(3))) == p1;
    assert Run(p1, "t", []) == p1;
    assert Run(p0, "t", AddThird(1)) == p1;
    assert Run(p1, "t", AddThird(2)) == p1;
    assert Walk(p1, "t", AddThird, 2, 2) == ([], p1);
    assert [2] + [] == [2] && [1] + [2] == [1, 2];
    assert Walk(p1, "t", AddThird, 1, 2) == ([2], p1);
    assert Walk(p0, "t", AddThird, 0, 2) == ([1, 2], p1);
  }

  /** `destroy` during a pass detaches the walked array: the rest of it is
      still called, and the registry ends empty. */
  lemma DestroyMidPass()
    ensures Dispatch(TwoListeners(), "t", DestroyFirst).calls == [1, 2]
    ensures Dispatch(TwoListeners(), "t", DestroyFirst).reg == Fresh
  {
    var reg := TwoListeners();
    var l: Listeners := [Some(1), Some(2)];
    assert reg["t"] == l;
    var p0 := Pass(reg, l, true);
    var p1 := Pass(Fresh, l, false);
    assert Step(p0, "t", Clear) == p1;
    assert Run(p1, "t", []) == p1;
    assert Run(p0, "t", DestroyFirst(1)) == p1;
    assert Run(p1, "t", DestroyFirst(2)) == p1;
    assert Walk(p1, "t", DestroyFirst, 2, 2) == ([], p1);
    assert [2] + [] == [2] && [1] + [2] == [1, 2];
    assert Walk(p1, "t", DestroyFirst, 1, 2) == ([2], p1);
    assert Walk(p0, "t", DestroyFirst, 0, 2) == ([1, 2], p1);
  }
}
