/** The shared version helpers of the browser detectors: the capture
    pattern table, the conversions from a `match` array to version numbers,
    and the setters that write them into a detector's record. The result of
    `navigator.appVersion.match(pattern)` is an input. */
module BrowserUtil {
  import opened Wrappers
  import opened Strings
  import opened Devices
  import Numbers

  /** A `match` array: index 0 is the whole match, `None` a group that did
      not take part (`undefined`). */
  type Captures = seq<Option<string>>

  /** The keys of the capture pattern table. The EdgA pattern is filed under
      `edgea`. */
  const PatternKeys: set<string> := {"chrome", "crios", "edgea", "edge", "edgios", "firefox", "fxios", "safari"}

  /** `getNumbersWithApp(browser)`: `appMatch(key)` is `app.match(regex[key])`
      for a key in the table. For a missing key `match` receives `undefined`,
      which matches the empty string at the start. */
  function NumbersWithApp(browser: string, appMatch: string -> Option<Captures>): (r: Option<Captures>)
    ensures Lower(browser) in PatternKeys ==> r == appMatch(Lower(browser))
    ensures Lower(browser) !in PatternKeys ==> r == Some([Some("")])
  {
    var key := Lower(browser);
    if key in PatternKeys then appMatch(key) else Some([Some("")])
  }

  /** `numbers.shift()`: the groups without the whole match. */
  function Shift(m: Captures): (r: Captures)
    ensures |m| > 0 ==> m == [m[0]] + r
    ensures |m| == 0 ==> r == []
  {
    if |m| > 0 then m[1..] else []
  }

  /** How `join` writes one entry: `undefined` as the empty string. */
  function Render(x: Option<string>): string
  {
    match x
    case Some(s) => s
    case None => ""
  }

  function Rendered(list: Captures): (r: seq<string>)
    ensures |r| == |list|
    ensures forall i :: 0 <= i < |list| ==> r[i] == Render(list[i])
  {
    seq(|list|, i requires 0 <= i < |list| => Render(list[i]))
  }

  /** `buildNum(list)`: the entries joined with `.`. */
  function BuildNum(list: Captures): (r: string)
    ensures |list| == 0 ==> r == ""
  {
    Join(Rendered(list), ".")
  }

  /** Entries without `.` can be read back from the build string. */
  lemma BuildNumSplits(list: Captures)
    requires |list| >= 1
    requires forall i :: 0 <= i < |list| ==> '.' !in Render(list[i])
    ensures Split(BuildNum(list), ".") == Rendered(list)
  {
    SplitJoinRoundTrip(Rendered(list), '.');
  }

  /** `parseInt(x, 10)` on a capture; `None` stands for NaN. */
  function ParseCapture(x: Option<string>): (r: Option<int>)
    ensures x.None? ==> r.None?
  {
    match x
    case Some(s) => Numbers.ParseInt(s, 10)
    case None => None
  }

  /** A capture of decimal digits parses to its value. */
  lemma ParseDigitsCapture(s: string)
    requires |s| > 0 && Numbers.AllDigits(s, 10)
    ensures ParseCapture(Some(s)) == Some(Numbers.Value(s, 10))
  {
    Numbers.ParseAllDigits(s, 10);
  }

  /** `getVersions(list)`: the entries that parse as integers, in order. */
  function GetVersions(list: Captures): (r: seq<int>)
    ensures |r| <= |list|
  {
    if |list| == 0 then []
    else
      (match ParseCapture(list[0]) case Some(v) => [v] case None => []) + GetVersions(list[1..])
  }

  /** `getVersions` works entry by entry: a parsable entry contributes its
      integer, any other nothing. */
  lemma {:induction false} GetVersionsAppend(a: Captures, b: Captures)
    ensures GetVersions(a + b) == GetVersions(a) + GetVersions(b)
    decreases |a|
  {
    if |a| == 0 {
      assert a + b == b;
    } else {
      var head := match ParseCapture(a[0]) case Some(v) => [v] case None => [];
      assert (a + b)[0] == a[0];
      assert (a + b)[1..] == a[1..] + b;
      assert GetVersions(a + b) == head + GetVersions(a[1..] + b);
      assert GetVersions(a) == head + GetVersions(a[1..]);
      GetVersionsAppend(a[1..], b);
    }
  }

  lemma GetVersionsSingle(x: Option<string>)
    ensures GetVersions([x]) == (match ParseCapture(x) case Some(v) => [v] case None => [])
  {
    assert [x][1..] == [];
  }

  /** Digit captures are all kept, each as its value. */
  lemma {:induction false} GetVersionsDigits(list: Captures)
    requires forall i :: 0 <= i < |list| ==> list[i].Some? && |list[i].value| > 0 && Numbers.AllDigits(list[i].value, 10)
    ensures |GetVersions(list)| == |list|
    ensures forall i :: 0 <= i < |list| ==> GetVersions(list)[i] == Numbers.Value(list[i].value, 10)
    decreases |list|
  {
    if |list| > 0 {
      ParseDigitsCapture(list[0].value);
      GetVersionsDigits(list[1..]);
    }
  }

  /** A missing group is dropped. */
  lemma DropsMissing(a: Captures, b: Captures)
    ensures GetVersions(a + [None] + b) == GetVersions(a) + GetVersions(b)
  {
    GetVersionsAppend(a + [None], b);
    GetVersionsAppend(a, [None]);
    GetVersionsSingle(None);
  }

  /** The parsed capture, or 0 for NaN (the OS detectors and Chrome). */
  function IntOrZero(x: Option<string>): (r: int)
    ensures x.None? ==> r == 0
  {
    match ParseCapture(x)
    case Some(v) => v
    case None => 0
  }

  function IntsOrZero(list: Captures): (r: seq<int>)
    ensures |r| == |list|
    ensures forall i :: 0 <= i < |list| ==> r[i] == IntOrZero(list[i])
  {
    seq(|list|, i requires 0 <= i < |list| => IntOrZero(list[i]))
  }

  /** Every entry keeps its position: a missing group is 0 and a digit
      capture its value. */
  lemma IntsOrZeroValues(list: Captures)
    ensures forall i :: 0 <= i < |list| && list[i].None? ==> IntsOrZero(list)[i] == 0
    ensures forall i :: 0 <= i < |list| && list[i].Some? && |list[i].value| > 0 && Numbers.AllDigits(list[i].value, 10)
              ==> IntsOrZero(list)[i] == Numbers.Value(list[i].value, 10)
  {
    forall i | 0 <= i < |list| && list[i].Some? && |list[i].value| > 0 && Numbers.AllDigits(list[i].value, 10)
      ensures IntsOrZero(list)[i] == Numbers.Value(list[i].value, 10)
    {
      ParseDigitsCapture(list[i].value);
    }
  }

  /** `versions.join('.')` on integers. */
  function BuildInts(list: seq<int>): string
  {
    Join(seq(|list|, i requires 0 <= i < |list| => Numbers.DecimalString(list[i])), ".")
  }

  lemma DecimalHasNoDot(n: int)
    ensures '.' !in Numbers.DecimalString(n)
  {
    var d := Numbers.ToDigits(if n < 0 then -n else n, 10);
    assert forall i :: 0 <= i < |d| ==> Numbers.IsDigit(d[i], 10);
    if n < 0 {
      assert forall i :: 1 <= i < |"-" + d| ==> ("-" + d)[i] == d[i - 1];
    }
  }

  /** The integers can be read back from the build string. */
  lemma BuildIntsRoundTrip(list: seq<int>)
    requires |list| >= 1
    ensures |Split(BuildInts(list), ".")| == |list|
    ensures forall i :: 0 <= i < |list| ==> Numbers.ParseInt(Split(BuildInts(list), ".")[i], 10) == Some(list[i])
  {
    var texts := seq(|list|, i requires 0 <= i < |list| => Numbers.DecimalString(list[i]));
    forall i | 0 <= i < |texts|
      ensures '.' !in texts[i]
    {
      DecimalHasNoDot(list[i]);
    }
    SplitJoinRoundTrip(texts, '.');
    forall i | 0 <= i < |list|
      ensures Numbers.ParseInt(texts[i], 10) == Some(list[i])
    {
      Numbers.ParseDecimalString(list[i]);
    }
  }

  /** `getMajor(list)`: `parseInt(list[0], 10)`, NaN for an empty list. */
  function GetMajor(list: seq<int>): (r: Option<int>)
    ensures r == (if |list| > 0 then Some(list[0]) else None)
  {
    if |list| > 0 then
      Numbers.ParseDecimalString(list[0]);
      Numbers.ParseInt(Numbers.DecimalString(list[0]), 10)
    else None
  }

  /** `getMinor(list)`: the second entry if truthy, else 0. */
  function GetMinor(list: seq<int>): (r: int)
    ensures r == (if |list| > 1 then list[1] else 0)
  {
    if |list| > 1 && list[1] != 0 then list[1] else 0
  }

  /** `getBuild(list)` and `getOption(list)`: the third or fourth entry if
      truthy; `None` stands for `''`. */
  function GetBuild(list: seq<int>): (r: Option<int>)
    ensures r.Some? ==> |list| > 2 && r.value == list[2] && r.value != 0
    ensures r.None? ==> |list| <= 2 || list[2] == 0
  {
    if |list| > 2 && list[2] != 0 then Some(list[2]) else None
  }

  function GetOption(list: seq<int>): (r: Option<int>)
    ensures r.Some? ==> |list| > 3 && r.value == list[3] && r.value != 0
    ensures r.None? ==> |list| <= 3 || list[3] == 0
  {
    if |list| > 3 && list[3] != 0 then Some(list[3]) else None
  }

  function OptText(x: Option<int>): string
  {
    match x
    case Some(v) => Numbers.DecimalString(v)
    case None => ""
  }

  /** The text `setBrowsersMajor` hands to `parseFloat`:
      `${major}.${minor}${build}${option}`. */
  function VersionText(list: seq<int>): string
  {
    (match GetMajor(list) case Some(v) => Numbers.DecimalString(v) case None => "NaN")
    + "." + Fraction(list)
  }

  lemma NonNegativeDigits(n: int)
    requires n >= 0
    ensures Numbers.AllDigits(Numbers.DecimalString(n), 10) && |Numbers.DecimalString(n)| > 0
  {
  }

  lemma OptDigits(x: Option<int>)
    requires x.Some? ==> x.value >= 0
    ensures Numbers.AllDigits(OptText(x), 10)
  {
  }

  lemma DigitsAppend(a: string, b: string)
    requires Numbers.AllDigits(a, 10) && Numbers.AllDigits(b, 10)
    ensures Numbers.AllDigits(a + b, 10)
  {
    forall i | 0 <= i < |a + b|
      ensures Numbers.IsDigit((a + b)[i], 10)
    {
      if i < |a| {
        assert (a + b)[i] == a[i];
      } else {
        assert (a + b)[i] == b[i - |a|];
      }
    }
  }

  /** The digits after the `.` of the version text. */
  function Fraction(list: seq<int>): string
  {
    Numbers.DecimalString(GetMinor(list)) + OptText(GetBuild(list)) + OptText(GetOption(list))
  }

  /** For non-negative entries, the text read as a float has the major
      number before its one `.` and only digits after it. */
  lemma VersionTextShape(list: seq<int>)
    requires |list| >= 1
    requires forall i :: 0 <= i < |list| ==> list[i] >= 0
    ensures VersionText(list) == Numbers.DecimalString(list[0]) + "." + Fraction(list)
    ensures |Fraction(list)| > 0 && Numbers.AllDigits(Fraction(list), 10)
  {
    var minor := Numbers.DecimalString(GetMinor(list));
    var b := OptText(GetBuild(list));
    var o := OptText(GetOption(list));
    NonNegativeDigits(GetMinor(list));
    OptDigits(GetBuild(list));
    OptDigits(GetOption(list));
    DigitsAppend(minor, b);
    DigitsAppend(minor + b, o);
  }

  /** The version part of a detector's record; `Undefined` marks a key the
      detector never assigned (it starts from an empty object). */
  datatype Version = Version(build: Field<string>, major: Field<Option<int>>, numbers: Field<seq<int>>)

  const Blank := Version(Undefined, Undefined, Undefined)

  /** `setBrowsersBuild(browsers, list)`. */
  function SetBrowsersBuild(v: Version, list: Captures): (r: Version)
    ensures r.build == Set(BuildNum(list))
    ensures r.major == v.major && r.numbers == v.numbers
  {
    v.(build := Set(BuildNum(list)))
  }

  /** `setBrowsersMajor(browsers, list)`; `version` is the float reading of
      `VersionText(list)` and is not part of the record here. */
  function SetBrowsersMajor(v: Version, list: seq<int>): (r: Version)
    ensures r.major == Set(if |list| > 0 then Some(list[0]) else None)
    ensures r.numbers == Set(list)
    ensures r.build == v.build
  {
    v.(major := Set(GetMajor(list)), numbers := Set(list))
  }

  /** The `version()` step the CriOS, Firefox, FxiOS, EdgA and Safari
      detectors share: nothing without a match; otherwise the raw groups
      joined as `build` and the parsable ones as `numbers`. */
  function AppVersion(name: string, appMatch: string -> Option<Captures>): (r: Version)
    ensures NumbersWithApp(name, appMatch).None? ==> r == Blank
    ensures NumbersWithApp(name, appMatch).Some? ==>
      var groups := Shift(NumbersWithApp(name, appMatch).value);
      && r.build == Set(BuildNum(groups))
      && r.numbers == Set(GetVersions(groups))
      && r.major == Set(if |GetVersions(groups)| > 0 then Some(GetVersions(groups)[0]) else None)
  {
    match NumbersWithApp(name, appMatch)
    case None => Blank
    case Some(m) =>
      var groups := Shift(m);
      SetBrowsersMajor(SetBrowsersBuild(Blank, groups), GetVersions(groups))
  }

  /** A detector's record: its flag and, only when the flag holds, the
      version data. */
  datatype Detected = Detected(flag: bool, version: Version)

  function Detect(flag: bool, name: string, appMatch: string -> Option<Captures>): (r: Detected)
    ensures r.flag == flag
    ensures !flag ==> r.version == Blank
    ensures flag ==> r.version == AppVersion(name, appMatch)
  {
    Detected(flag, if flag then AppVersion(name, appMatch) else Blank)
  }

  /** The `version()` step the Android and iOS detectors share, on the
      groups already mapped to integers: `build`, `major`, the float reading
      `parsed` of `major.minorbuild`, and `numbers`. */
  function OsVersion(p: Props, versions: seq<int>, parsed: real): (r: Props)
    ensures r.build == BuildInts(versions)
    ensures r.major == (if |versions| > 0 then Some(versions[0]) else None)
    ensures r.numbers == versions && r.version == parsed
    ensures r == p.(build := r.build, major := r.major, numbers := r.numbers, version := r.version)
  {
    p.(build := BuildInts(versions), major := GetMajor(versions), version := parsed, numbers := versions)
  }

  /** A name lower-cases to `key` when it does so character by character. */
  lemma LowerIs(name: string, key: string)
    requires |name| == |key|
    requires forall i :: 0 <= i < |name| ==> LowerChar(name[i]) == key[i]
    ensures Lower(name) == key
  {
  }

  /** The record of a detector that is asked about the same UA and pattern
      results again: `init` runs once. */
  function Query(c: Cache<Detected>, computed: Detected): (r: (Cache<Detected>, Detected))
    ensures r.0 == Init(c, computed) && r.1 == r.0.value
    ensures c.Ready? ==> r == (c, c.value)
  {
    var c' := Init(c, computed);
    (c', c'.value)
  }
}
