/** `Firefox`: the Firefox detector. */
module Firefox {
  import opened Wrappers
  import opened Strings
  import opened Devices
  import opened BrowserUtil

  /** `init`'s computation: the flag is "the UA mentions firefox", and the
      version data is computed only when it holds. */
  function Compute(ua: string, appMatch: string -> Option<Captures>): (r: Detected)
    ensures r.flag <==> ContainsCI(ua, "firefox")
    ensures !r.flag ==> r.version == Blank
    ensures r.flag ==> r.version == AppVersion("Firefox", appMatch)
  {
    Detect(ContainsCI(ua, "firefox"), "Firefox", appMatch)
  }

  /** The lookup finds the `firefox` pattern, so the version comes from its
      captures: the raw groups joined as `build`, the parsable ones as
      `numbers`, the first of those as `major`. */
  lemma FirefoxVersion(ua: string, appMatch: string -> Option<Captures>)
    ensures NumbersWithApp("Firefox", appMatch) == appMatch("firefox")
    ensures var r := Compute(ua, appMatch);
            r.flag && appMatch("firefox").Some? ==>
              var groups := Shift(appMatch("firefox").value);
              r.version.build == Set(BuildNum(groups)) && r.version.numbers == Set(GetVersions(groups))
  {
    LowerIs("Firefox", "firefox");
  }

  /** Accessors run `init` and read the cache. */
  function Is(c: Cache<Detected>, ua: string, appMatch: string -> Option<Captures>): (r: (Cache<Detected>, bool))
    ensures r.0 == Init(c, Compute(ua, appMatch))
    ensures c.Uninit? ==> (r.1 <==> ContainsCI(ua, "firefox"))
    ensures c.Ready? ==> r == (c, c.value.flag)
  {
    var (c', d) := Query(c, Compute(ua, appMatch));
    (c', d.flag)
  }
}
