/** `IE`: the Internet Explorer detector. Its record starts as an empty
    object, so a flag the taken branch does not write stays `undefined`. */
module IE {
  import opened Strings
  import opened Devices
  import Numbers

  datatype Record = Record(
    ie: bool,
    ie6: Field<bool>, ie7: Field<bool>, ie8: Field<bool>, ie9: Field<bool>, ie10: Field<bool>,
    ie11: Field<bool>,
    build: Field<string>, major: Field<int>, version: Field<int>, numbers: Field<seq<int>>)

  predicate Truthy(f: Field<bool>)
  {
    f == Set(true)
  }

  /** The first number whose flag holds, in the given order; -1 when none
      does. The reference for the priority order. */
  function FirstFlag(flags: seq<(bool, int)>): int
  {
    if |flags| == 0 then -1
    else if flags[0].0 then flags[0].1
    else FirstFlag(flags[1..])
  }

  /** `version()`'s choice of `major`: 11, 10, 9, 8, 7, 6 for the first
      flag set in that order, else -1. */
  function Major(r: Record): (m: int)
    ensures m == -1 || 6 <= m <= 11
  {
    if Truthy(r.ie11) then 11
    else if Truthy(r.ie10) then 10
    else if Truthy(r.ie9) then 9
    else if Truthy(r.ie8) then 8
    else if Truthy(r.ie7) then 7
    else if Truthy(r.ie6) then 6
    else -1
  }

  function Flags(r: Record): seq<(bool, int)>
  {
    [(Truthy(r.ie11), 11), (Truthy(r.ie10), 10), (Truthy(r.ie9), 9),
     (Truthy(r.ie8), 8), (Truthy(r.ie7), 7), (Truthy(r.ie6), 6)]
  }

  lemma FirstFlagCons(f: (bool, int), rest: seq<(bool, int)>)
    ensures FirstFlag([f] + rest) == if f.0 then f.1 else FirstFlag(rest)
  {
    assert ([f] + rest)[1..] == rest;
  }

  /** The priority order: `major` is the number of the first flag set
      among ie11, ie10, ie9, ie8, ie7, ie6. */
  lemma MajorPriority(r: Record)
    ensures Major(r) == FirstFlag(Flags(r))
  {
    var fs := Flags(r);
    assert fs == [fs[0]] + fs[1..];
    assert fs[1..] == [fs[1]] + fs[2..];
    assert fs[2..] == [fs[2]] + fs[3..];
    assert fs[3..] == [fs[3]] + fs[4..];
    assert fs[4..] == [fs[4]] + fs[5..];
    assert fs[5..] == [fs[5]] + fs[6..];
    FirstFlagCons(fs[0], fs[1..]);
    FirstFlagCons(fs[1], fs[2..]);
    FirstFlagCons(fs[2], fs[3..]);
    FirstFlagCons(fs[3], fs[4..]);
    FirstFlagCons(fs[4], fs[5..]);
    FirstFlagCons(fs[5], fs[6..]);
  }

  /** `version()`: `build` is the decimal text of `major`, `version` equals
      it, and `numbers` is written only for a known major. */
  function Version(r: Record): (v: Record)
    ensures v.major == Set(Major(r)) && v.version == Set(Major(r))
    ensures v.build == Set(Numbers.DecimalString(Major(r)))
    ensures Major(r) >= 0 ==> v.numbers == Set([Major(r)])
    ensures Major(r) < 0 ==> v.numbers == r.numbers
    ensures v.(build := r.build, major := r.major, version := r.version, numbers := r.numbers) == r
    ensures Major(v) == Major(r)
  {
    var m := Major(r);
    var v := r.(build := Set(Numbers.DecimalString(m)), major := Set(m), version := Set(m));
    if m >= 0 then v.(numbers := Set([m])) else v
  }

  /** `/msie [10]/i`: a one-character class, so "msie 1" or "msie 0". */
  predicate Ie10Ua(ua: string)
  {
    ContainsCI(ua, "msie 1") || ContainsCI(ua, "msie 0")
  }

  /** `/trident\/[7]/i` and `/rv:[11]/i`. */
  predicate Ie11Ua(ua: string)
  {
    ContainsCI(ua, "trident/7") && ContainsCI(ua, "rv:1")
  }

  const Empty := Record(false, Undefined, Undefined, Undefined, Undefined, Undefined, Undefined,
                        Undefined, Undefined, Undefined, Undefined)

  /** `init`'s computation. */
  function Compute(ua: string): (r: Record)
    ensures r.ie <==> ContainsCI(ua, "msie") || Ie11Ua(ua)
    ensures ContainsCI(ua, "msie") ==>
      && r.ie10 == Set(Ie10Ua(ua)) && r.ie9 == Set(ContainsCI(ua, "msie 9"))
      && r.ie8 == Set(ContainsCI(ua, "msie 8")) && r.ie7 == Set(ContainsCI(ua, "msie 7"))
      && r.ie6 == Set(ContainsCI(ua, "msie 6")) && r.ie11 == Undefined
    ensures !ContainsCI(ua, "msie") ==>
      && r.ie11 == Set(r.ie) && r.ie10 == Undefined && r.ie9 == Undefined
      && r.ie8 == Undefined && r.ie7 == Undefined && r.ie6 == Undefined
    ensures !r.ie ==> r.build == Undefined && r.major == Undefined && r.numbers == Undefined
    ensures r.ie ==> && r.major == Set(Major(r)) && r.version == r.major
                     && r.build == Set(Numbers.DecimalString(Major(r)))
                     && (Major(r) >= 0 ==> r.numbers == Set([Major(r)]))
                     && (Major(r) < 0 ==> r.numbers == Undefined)
  {
    var msie := ContainsCI(ua, "msie");
    var flags :=
      if msie then
        Empty.(ie := true, ie10 := Set(Ie10Ua(ua)), ie9 := Set(ContainsCI(ua, "msie 9")),
               ie8 := Set(ContainsCI(ua, "msie 8")), ie7 := Set(ContainsCI(ua, "msie 7")),
               ie6 := Set(ContainsCI(ua, "msie 6")))
      else
        Empty.(ie := Ie11Ua(ua), ie11 := Set(Ie11Ua(ua)));
    if flags.ie then Version(flags) else flags
  }

  /** For a detected IE, `major` is the first flag in priority order and
      `build` reads back as `major`. */
  lemma MajorOfIe(ua: string)
    requires Compute(ua).ie
    ensures var r := Compute(ua);
            && r.major.Set? && r.build.Set?
            && r.major.value == Major(r)
            && Numbers.ParseInt(r.build.value, 10) == Some(r.major.value)
            && (r.numbers.Set? <==> r.major.value >= 0)
  {
    Numbers.ParseDecimalString(Major(Compute(ua)));
  }

  import opened Wrappers

  /** An IE 11 UA without "msie" yields major 11; an "msie" UA never does. */
  lemma Ie11Major(ua: string)
    ensures Compute(ua).ie && !ContainsCI(ua, "msie") ==> Compute(ua).major == Set(11)
    ensures ContainsCI(ua, "msie") ==> Compute(ua).major != Set(11)
  {
  }

  /** Accessors run `init` and read the cache. */
  function Query(c: Cache<Record>, ua: string): (r: (Cache<Record>, Record))
    ensures r.0 == Init(c, Compute(ua)) && r.1 == r.0.value
    ensures c.Ready? ==> r == (c, c.value)
  {
    var c' := Init(c, Compute(ua));
    (c', c'.value)
  }
}
