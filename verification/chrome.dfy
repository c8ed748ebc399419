/** `Chrome`: the Chrome detector. Edge and Edge-on-iOS detection are not
    part of this model and come in as flags. */
module Chrome {
  import opened Wrappers
  import opened Strings
  import opened Devices
  import opened BrowserUtil
  import CriOS
  import EdgA

  /** The groups of `chrome\/(\d+)\.(\d+)\.(\d+)\.?(\d+)?`, each mapped to
      its integer or 0 (only the first four are mapped). */
  function Versions(groups: Captures): (r: seq<int>)
    ensures |r| == if |groups| < 4 then |groups| else 4
    ensures forall i :: 0 <= i < |r| ==> r[i] == IntOrZero(groups[i])
  {
    IntsOrZero(if |groups| < 4 then groups else groups[..4])
  }

  /** Chrome's `version()`: `build` joins the raw groups, `numbers` keeps
      every mapped group. */
  function ChromeVersion(appMatch: string -> Option<Captures>): (r: Version)
    ensures appMatch("chrome").None? ==> r == Blank
    ensures appMatch("chrome").Some? ==>
      var groups := Shift(appMatch("chrome").value);
      && r.build == Set(BuildNum(groups))
      && r.numbers == Set(Versions(groups))
      && r.major == Set(if |groups| > 0 then Some(IntOrZero(groups[0])) else None)
  {
    LowerIs("Chrome", "chrome");
    match NumbersWithApp("Chrome", appMatch)
    case None => Blank
    case Some(m) =>
      var groups := Shift(m);
      SetBrowsersMajor(SetBrowsersBuild(Blank, groups), Versions(groups))
  }

  /** `init`'s computation. */
  function Compute(ua: string, appMatch: string -> Option<Captures>, edge: bool, edgios: bool): (r: Detected)
    ensures edge || edgios || ContainsCI(ua, "edga") ==> !r.flag
    ensures !(edge || edgios || ContainsCI(ua, "edga")) ==>
              (r.flag <==> ContainsCI(ua, "crios") || ContainsCI(ua, "chrome"))
    ensures !r.flag ==> r.version == Blank
    ensures r.flag ==> r.version == ChromeVersion(appMatch)
  {
    var crios := CriOS.Compute(ua, appMatch).flag;
    var chrome :=
      if !edge && !edgios && !EdgA.Compute(ua, appMatch).flag then
        if crios then true else ContainsCI(ua, "chrome")
      else false;
    Detected(chrome, if chrome then ChromeVersion(appMatch) else Blank)
  }

  /** Unlike `getVersions`, a missing group keeps its place as 0. */
  lemma MissingGroupIsZero(ua: string, appMatch: string -> Option<Captures>, edge: bool, edgios: bool, i: nat)
    requires Compute(ua, appMatch, edge, edgios).flag
    requires appMatch("chrome").Some?
    requires i < 4 && i < |Shift(appMatch("chrome").value)|
    requires Shift(appMatch("chrome").value)[i].None?
    ensures Compute(ua, appMatch, edge, edgios).version.numbers.value[i] == 0
  {
  }

  function Is(c: Cache<Detected>, ua: string, appMatch: string -> Option<Captures>, edge: bool,
              edgios: bool): (r: (Cache<Detected>, bool))
    ensures r.0 == Init(c, Compute(ua, appMatch, edge, edgios))
    ensures c.Uninit? ==> r.1 == Compute(ua, appMatch, edge, edgios).flag
    ensures c.Ready? ==> r == (c, c.value.flag)
  {
    var (c', d) := Query(c, Compute(ua, appMatch, edge, edgios));
    (c', d.flag)
  }
}
