/** `Rate`: a polling timer that ignores time and fires on every N-th cycle
    tick, with N taken from a fixed whitelist. */
module Rate {
  import opened Wrappers
  import D = Dispatcher
  import Cycle
  import Polling

  const Rate60: int := 1
  const Rate30: int := 2
  const Rate20: int := 3
  const Rate15: int := 4
  const Rate12: int := 5
  const Rate10: int := 6
  const Rate6: int := 10
  const Rate5: int := 12
  const Rate4: int := 15
  const Rate3: int := 20
  const Rate2: int := 30
  const Rate1: int := 60

  const Rates: seq<int> := [Rate60, Rate30, Rate20, Rate15, Rate12, Rate10, Rate6, Rate5, Rate4, Rate3, Rate2, Rate1]

  const Update: string := "rateUpdate"

  /** `validate(rate)`: `rates.indexOf(rate) !== -1`. The whitelist is
      exactly the divisors of 60, so every valid rate fires a whole number
      of times per 60 ticks. */
  predicate Validate(v: int)
    ensures Validate(v) <==> 0 < v && 60 % v == 0
  {
    DivisorsFrom(1);
    v in Rates
  }

  lemma {:induction false} DivisorsFrom(k: int)
    requires 1 <= k <= 61
    ensures forall v :: k <= v <= 60 && 60 % v == 0 ==> v in Rates
    decreases 61 - k
  {
    if k <= 60 {
      DivisorsFrom(k + 1);
      assert 60 % k == 0 ==> k in Rates;
    }
  }

  datatype Rate = Rate(timer: Polling.Polling, rate: int, count: nat)

  /** The class invariant: the rate is always one of the whitelist. */
  predicate Valid(r: Rate)
  {
    Validate(r.rate)
  }

  /** `new Rate(rateValue = RATE_5)`: the interval is 1000/60 ms, and an
      invalid rate falls back to RATE_5. */
  function New(handler: D.Id, rateValue: Option<int>): (r: Rate)
    ensures Valid(r) && r.count == 0 && r.timer.kind == Update
    ensures r.timer.interval == 1000.0 / 60.0 && r.timer.begin == 0
    ensures rateValue.Some? && Validate(rateValue.value) ==> r.rate == rateValue.value
    ensures !(rateValue.Some? && Validate(rateValue.value)) ==> r.rate == Rate5
  {
    var v := rateValue.GetOr(Rate5);
    var timer := Polling.New(handler, 1000.0 / 60.0).(kind := Update);
    Rate(timer, if Validate(v) then v else Rate5, 0)
  }

  /** `setRate(value)`: `None` is JavaScript's `null`. */
  function SetRate(r: Rate, value: int): (res: (Rate, Option<int>))
    ensures Validate(value) ==> res == (r.(rate := value), Some(value))
    ensures !Validate(value) ==> res == (r, None)
    ensures Valid(r) ==> Valid(res.0)
  {
    if Validate(value) then (r.(rate := value), Some(value)) else (r, None)
  }

  /** `onUpdate(events)`: count the tick, fire when the count reaches a
      multiple of the rate. The event reports `begin = present = 0`. */
  function OnUpdate(r: Rate, ce: Cycle.CycleEvents): (res: (Rate, bool, seq<Polling.PollingEvents>))
    requires Valid(r)
    ensures Valid(res.0) && res.0.rate == r.rate && res.0.timer.interval == r.timer.interval
    ensures res.1 <==> (r.count + 1) % r.rate == 0
    ensures res.1 ==> res.0.count == 0 && res.0.timer.begin == 0
    ensures res.1 ==> res.2 == [Polling.PollingEvents(r.timer.kind, 0, 0, r.timer.interval, ce)]
    ensures !res.1 ==> res.0 == r.(count := r.count + 1) && res.2 == []
  {
    var count := r.count + 1;
    if count % r.rate == 0 then
      var (t, ev) := Polling.UpdateEvents(r.timer, 0, 0, ce);
      (Rate(t, r.rate, 0), true, [ev])
    else (r.(count := count), false, [])
  }

  /** `change(rate)`: `setRate` then `start`; an invalid rate is ignored but
      the timer still restarts. The tick count is left alone. */
  function Change(r: Rate, value: int, cycle: D.Registry, now: int): (res: (Rate, D.Registry))
    ensures res.0.count == r.count && res.0.timer.begin == now
    ensures res.0.rate == if Validate(value) then value else r.rate
    ensures D.Has(res.1, Cycle.Update, Some(r.timer.handler))
  {
    var (s, _) := SetRate(r, value);
    var (t, cycle') := Polling.Start(s.timer, cycle, now);
    (s.(timer := t), cycle')
  }

  /** `k` ticks in a row: the final state and the number of fires. */
  function Ticks(r: Rate, k: nat, ce: Cycle.CycleEvents): (res: (Rate, nat))
    requires Valid(r)
    ensures Valid(res.0) && res.0.rate == r.rate
  {
    if k == 0 then (r, 0)
    else
      var (s, n) := Ticks(r, k - 1, ce);
      var (s', fired, _) := OnUpdate(s, ce);
      (s', if fired then n + 1 else n)
  }

  lemma DivModUnique(k: int, n: int, q: int, m: int)
    requires n > 0 && 0 <= m < n && k == q * n + m
    ensures k / n == q && k % n == m
  {
    var q0, m0 := k / n, k % n;
    assert k == q0 * n + m0;
    if q > q0 {
      MulAtLeast(q - q0, n);
      assert false;
    } else if q < q0 {
      MulAtLeast(q0 - q, n);
      assert false;
    }
  }

  lemma SmallMod(x: int, n: int)
    requires n > 0 && 1 <= x <= n
    ensures x % n == 0 <==> x == n
  {
    if x == n { DivModUnique(x, n, 1, 0); } else { DivModUnique(x, n, 0, x); }
  }

  lemma MulAtLeast(a: int, n: int)
    requires a >= 1 && n > 0
    ensures a * n >= n
  {
  }

  lemma DivModNext(k: nat, n: nat)
    requires n > 0
    ensures (k % n) + 1 == n ==> (k + 1) % n == 0 && (k + 1) / n == k / n + 1
    ensures (k % n) + 1 < n ==> (k + 1) % n == k % n + 1 && (k + 1) / n == k / n
  {
    var q, m := k / n, k % n;
    assert k == q * n + m;
    if m + 1 == n {
      assert k + 1 == (q + 1) * n + 0;
      DivModUnique(k + 1, n, q + 1, 0);
    } else {
      DivModUnique(k + 1, n, q, m + 1);
    }
  }

  /** Starting from a zero count, exactly one fire happens per `rate` ticks. */
  lemma {:induction false} OneFirePerRate(r: Rate, k: nat, ce: Cycle.CycleEvents)
    requires Valid(r) && r.count == 0
    ensures Ticks(r, k, ce).1 == k / r.rate
    ensures Ticks(r, k, ce).0.count == k % r.rate
  {
    if k > 0 {
      OneFirePerRate(r, k - 1, ce);
      var (s, n) := Ticks(r, k - 1, ce);
      assert n == (k - 1) / r.rate && s.count == (k - 1) % r.rate;
      var (s', fired, _) := OnUpdate(s, ce);
      assert Ticks(r, k, ce) == (s', if fired then n + 1 else n);
      DivModNext(k - 1, r.rate);
      SmallMod(s.count + 1, r.rate);
      assert fired <==> s.count + 1 == r.rate;
      if fired {
        assert k % r.rate == 0 && k / r.rate == n + 1;
      } else {
        assert k % r.rate == s.count + 1 && k / r.rate == n;
      }
    }
  }

  /** RATE_60 fires on every tick. */
  lemma Rate60EveryTick(r: Rate, ce: Cycle.CycleEvents)
    requires r.rate == Rate60
    ensures OnUpdate(r, ce).1
  {
  }
}
