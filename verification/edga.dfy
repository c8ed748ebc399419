/** `EdgA`: the Edge-on-Android detector. */
module EdgA {
  import opened Wrappers
  import opened Strings
  import opened Devices
  import opened BrowserUtil

  /** `init`'s computation as written: the flag is "the UA mentions edga",
      and the version data is computed only when it holds, through the
      lookup of "EdgA". */
  function ComputeAsWritten(ua: string, appMatch: string -> Option<Captures>): (r: Detected)
    ensures r.flag <==> ContainsCI(ua, "edga")
    ensures !r.flag ==> r.version == Blank
    ensures r.flag ==> r.version == AppVersion("EdgA", appMatch)
  {
    Detect(ContainsCI(ua, "edga"), "EdgA", appMatch)
  }

  /** The lookup lower-cases "EdgA" to `edga`, which the table files as
      `edgea`: `match(undefined)` matches the empty string, so a detected
      EdgA gets an empty `build`, an empty `numbers` and a NaN `major`,
      whatever the UA says. */
  lemma EdgAVersion(ua: string, appMatch: string -> Option<Captures>)
    ensures NumbersWithApp("EdgA", appMatch) == Some([Some("")])
    ensures ComputeAsWritten(ua, appMatch).flag ==>
      ComputeAsWritten(ua, appMatch).version == Version(Set(""), Set(None), Set([]))
  {
    LowerIs("EdgA", "edga");
    assert "edga" !in PatternKeys;
    assert Shift([Some("")]) == [];
  }

  /** The detector as evidently intended: the same flag, with the version
      read through the table's `edgea` pattern. */
  function Compute(ua: string, appMatch: string -> Option<Captures>): (r: Detected)
    ensures r.flag <==> ContainsCI(ua, "edga")
    ensures r.flag == ComputeAsWritten(ua, appMatch).flag
    ensures !r.flag ==> r.version == Blank
    ensures r.flag ==> r.version == AppVersion("EdgeA", appMatch)
  {
    Detect(ContainsCI(ua, "edga"), "EdgeA", appMatch)
  }

  /** With the intended key the version comes from the EdgA pattern's
      captures: the raw groups joined as `build`, the parsable ones as
      `numbers`. */
  lemma IntendedVersion(ua: string, appMatch: string -> Option<Captures>)
    ensures NumbersWithApp("EdgeA", appMatch) == appMatch("edgea")
    ensures var r := Compute(ua, appMatch);
            r.flag && appMatch("edgea").Some? ==>
              var groups := Shift(appMatch("edgea").value);
              r.version.build == Set(BuildNum(groups)) && r.version.numbers == Set(GetVersions(groups))
  {
    LowerIs("EdgeA", "edgea");
  }

  /** Accessors run `init` as written and read the cache, so the stored
      record carries the as-written version data; the answer is the flag,
      which the correction does not change. */
  function Is(c: Cache<Detected>, ua: string, appMatch: string -> Option<Captures>): (r: (Cache<Detected>, bool))
    ensures r.0 == Init(c, ComputeAsWritten(ua, appMatch))
    ensures c.Uninit? ==> (r.1 <==> ContainsCI(ua, "edga"))
    ensures c.Uninit? ==> r.1 == Compute(ua, appMatch).flag
    ensures c.Ready? ==> r == (c, c.value.flag)
  {
    var (c', d) := Query(c, ComputeAsWritten(ua, appMatch));
    (c', d.flag)
  }
}
