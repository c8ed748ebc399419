/** `Times`: instants a whole number of minutes, hours, days, weeks or
    30-day months after the present, in milliseconds since the epoch.
    The clock reading `now` is a parameter. */
module Times {
  const OneMinute: int := 1000 * 60
  const OneHour: int := OneMinute * 60
  const OneDay: int := OneHour * 24
  const OneWeek: int := OneDay * 7
  const OneMonth: int := OneDay * 30

  /** The whole units of `unit` milliseconds from `from` to `to`, rounded
      down: the instant `to` lies in the `n`-th unit after `from`. */
  function Elapsed(from: int, to: int, unit: int): (n: int)
    requires unit > 0
    ensures from + n * unit <= to < from + (n + 1) * unit
  {
    var d := to - from;
    assert d == (d / unit) * unit + d % unit;
    assert (d / unit + 1) * unit == (d / unit) * unit + unit;
    d / unit
  }

  /** Counting the units back from an offset of `n` units gives `n`. */
  lemma {:induction false} ElapsedAfter(now: int, n: int, unit: int)
    requires unit > 0
    ensures Elapsed(now, now + n * unit, unit) == n
  {
    var m := Elapsed(now, now + n * unit, unit);
    if m < n {
      MulMonotone(m + 1, n, unit);
    } else if m > n {
      MulMonotone(n + 1, m, unit);
    }
  }

  lemma MulMonotone(a: int, b: int, unit: int)
    requires a <= b && unit > 0
    ensures a * unit <= b * unit
  {
    assert b * unit - a * unit == (b - a) * unit;
  }

  /** `present()`: the clock reading, no whole unit after itself. */
  function Present(now: int): (r: int)
    ensures forall unit :: unit > 0 ==> Elapsed(now, r, unit) == 0
  {
    now
  }

  /** `minute(n)`: exactly `n` minutes later, as counted back by `Elapsed`. */
  function Minute(now: int, n: int): (r: int)
    ensures r - now == n * 60_000
    ensures Elapsed(now, r, OneMinute) == n
  {
    ElapsedAfter(now, n, OneMinute);
    now + n * OneMinute
  }

  function Hour(now: int, n: int): (r: int)
    ensures r == Minute(now, 60 * n)
    ensures Elapsed(now, r, OneHour) == n
  {
    ElapsedAfter(now, n, OneHour);
    now + n * OneHour
  }

  function Day(now: int, n: int): (r: int)
    ensures r == Hour(now, 24 * n)
    ensures Elapsed(now, r, OneDay) == n
  {
    ElapsedAfter(now, n, OneDay);
    now + n * OneDay
  }

  function Week(now: int, n: int): (r: int)
    ensures r == Day(now, 7 * n)
    ensures Elapsed(now, r, OneWeek) == n
  {
    ElapsedAfter(now, n, OneWeek);
    now + n * OneWeek
  }

  /** `month(n)`: a month is a fixed 30 days, not a calendar month. */
  function Month(now: int, n: int): (r: int)
    ensures r == Day(now, 30 * n)
    ensures Elapsed(now, r, OneMonth) == n
  {
    ElapsedAfter(now, n, OneMonth);
    now + n * OneMonth
  }
}
