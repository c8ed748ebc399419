/** `CriOS`: the Chrome-on-iOS detector. */
module CriOS {
  import opened Wrappers
  import opened Strings
  import opened Devices
  import opened BrowserUtil

  /** `init`'s computation: the flag is "the UA mentions crios", and the
      version data is computed only when it holds. */
  function Compute(ua: string, appMatch: string -> Option<Captures>): (r: Detected)
    ensures r.flag <==> ContainsCI(ua, "crios")
    ensures !r.flag ==> r.version == Blank
    ensures r.flag ==> r.version == AppVersion("CriOS", appMatch)
  {
    Detect(ContainsCI(ua, "crios"), "CriOS", appMatch)
  }

  /** The lookup finds the `crios` pattern, so the version comes from its
      captures: the raw groups joined as `build`, the parsable ones as
      `numbers`, the first of those as `major`. */
  lemma CriOSVersion(ua: string, appMatch: string -> Option<Captures>)
    ensures NumbersWithApp("CriOS", appMatch) == appMatch("crios")
    ensures var r := Compute(ua, appMatch);
            r.flag && appMatch("crios").Some? ==>
              var groups := Shift(appMatch("crios").value);
              r.version.build == Set(BuildNum(groups)) && r.version.numbers == Set(GetVersions(groups))
  {
    LowerIs("CriOS", "crios");
  }

  /** Accessors run `init` and read the cache. */
  function Is(c: Cache<Detected>, ua: string, appMatch: string -> Option<Captures>): (r: (Cache<Detected>, bool))
    ensures r.0 == Init(c, Compute(ua, appMatch))
    ensures c.Uninit? ==> (r.1 <==> ContainsCI(ua, "crios"))
    ensures c.Ready? ==> r == (c, c.value.flag)
  {
    var (c', d) := Query(c, Compute(ua, appMatch));
    (c', d.flag)
  }
}
