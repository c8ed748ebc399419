/** `Safari`: the Safari detector, which defers to every other browser
    that also says Safari. Edge and Edge-on-iOS detection are not part of
    this model and come in as flags. */
module Safari {
  import opened Wrappers
  import opened Strings
  import opened Devices
  import opened BrowserUtil
  import CriOS
  import Chrome
  import FxiOS
  import EdgA
  import Android

  /** The detectors whose hit rules Safari out. */
  predicate Other(ua: string, appMatch: string -> Option<Captures>, edge: bool, edgios: bool)
  {
    CriOS.Compute(ua, appMatch).flag || edge || Chrome.Compute(ua, appMatch, edge, edgios).flag
    || FxiOS.Compute(ua, appMatch).flag || edgios || EdgA.Compute(ua, appMatch).flag
    || Android.StockBrowser(ua)
  }

  /** `init`'s computation. */
  function Compute(ua: string, appMatch: string -> Option<Captures>, edge: bool, edgios: bool): (r: Detected)
    ensures Other(ua, appMatch, edge, edgios) ==> !r.flag
    ensures !Other(ua, appMatch, edge, edgios) ==> (r.flag <==> SafariUa(ua))
    ensures !r.flag ==> r.version == Blank
    ensures r.flag ==> r.version == AppVersion("Safari", appMatch)
  {
    var safari := if Other(ua, appMatch, edge, edgios) then false else SafariUa(ua);
    Detect(safari, "Safari", appMatch)
  }

  /** A UA is never both Safari and Chrome, Chrome-on-iOS, Firefox-on-iOS,
      Edge-on-Android or the stock Android browser. */
  lemma Exclusive(ua: string, appMatch: string -> Option<Captures>, edge: bool, edgios: bool)
    requires Compute(ua, appMatch, edge, edgios).flag
    ensures !Chrome.Compute(ua, appMatch, edge, edgios).flag
    ensures !ContainsCI(ua, "crios") && !ContainsCI(ua, "fxios") && !ContainsCI(ua, "edga")
    ensures !Android.Compute(ua, None, 0, 0, 0.0).standard
  {
  }

  /** The `version\/(\d+)\.(\d+)\.?(\d+)?` pattern supplies the version. */
  lemma SafariVersion(appMatch: string -> Option<Captures>)
    ensures NumbersWithApp("Safari", appMatch) == appMatch("safari")
  {
    LowerIs("Safari", "safari");
  }

  function Is(c: Cache<Detected>, ua: string, appMatch: string -> Option<Captures>, edge: bool,
              edgios: bool): (r: (Cache<Detected>, bool))
    ensures r.0 == Init(c, Compute(ua, appMatch, edge, edgios))
    ensures c.Uninit? ==> r.1 == Compute(ua, appMatch, edge, edgios).flag
    ensures c.Ready? ==> r == (c, c.value.flag)
  {
    var (c', d) := Query(c, Compute(ua, appMatch, edge, edgios));
    (c', d.flag)
  }
}
