/** `Android`: the Android OS detector. The `appVersion` match, the window
    size and the float reading of the version text are inputs. */
module Android {
  import opened Wrappers
  import opened Strings
  import opened Devices
  import opened BrowserUtil
  import Windows

  /** Only the three groups of `android (\d+)\.(\d+)\.?(\d+)?` are mapped,
      each to its integer or 0. */
  function Versions(groups: Captures): (r: seq<int>)
    ensures |r| == if |groups| < 3 then |groups| else 3
  {
    IntsOrZero(if |groups| < 3 then groups else groups[..3])
  }

  /** `standard`: the stock Android browser, which says Safari and Version
      or SamsungBrowser. */
  predicate StockBrowser(ua: string)
  {
    !Windows.Compute(ua).phone && ContainsCI(ua, "android") && SafariUa(ua)
    && (ContainsCI(ua, "version") || ContainsCI(ua, "samsungbrowser"))
  }

  /** The flags `init` writes. A Windows Phone UA also mentions Android, so
      the Windows detector is asked first. */
  function Classify(ua: string, innerWidth: int, innerHeight: int): (r: Props)
    ensures r.android <==> !Windows.Compute(ua).phone && ContainsCI(ua, "android")
    ensures !r.android ==> r == DefaultProps
    ensures r.android ==> (r.phone <==> ContainsCI(ua, "mobile"))
    ensures r.tablet <==> r.android && !r.phone
    ensures r.android ==> (r.hd <==> innerWidth > 1024 || innerHeight > 1024)
    ensures r.standard <==> StockBrowser(ua)
    ensures r.numbers == DefaultProps.numbers && r.version == DefaultProps.version && r.build == ""
  {
    var p := DefaultProps;
    var android := !Windows.Compute(ua).phone && ContainsCI(ua, "android");
    if !android then p
    else
      var phone := ContainsCI(ua, "mobile");
      // `tablet` is written only when not a phone; its default is false.
      p.(android := true, phone := phone, tablet := !phone,
         standard := SafariUa(ua) && (ContainsCI(ua, "version") || ContainsCI(ua, "samsungbrowser")),
         hd := (if innerWidth > innerHeight then innerWidth else innerHeight) > 1024)
  }

  /** `init`'s computation: the flags, then the version step for an Android
      UA whose `appVersion` matched. */
  function Compute(ua: string, app: Option<Captures>, innerWidth: int, innerHeight: int,
                   parsed: real): (r: Props)
    ensures var f := Classify(ua, innerWidth, innerHeight);
            && r.android == f.android && r.phone == f.phone && r.tablet == f.tablet
            && r.standard == f.standard && r.hd == f.hd
    ensures !r.android ==> r == DefaultProps
    ensures r.android && app.Some? ==> r.numbers == Versions(Shift(app.value)) && r.version == parsed
    ensures !(r.android && app.Some?) ==> r.numbers == [-1, -1, -1] && r.version == -1.0 && r.build == ""
  {
    var p := Classify(ua, innerWidth, innerHeight);
    if p.android && app.Some? then OsVersion(p, Versions(Shift(app.value)), parsed) else p
  }

  /** The build string lists the three version numbers, each readable back. */
  lemma BuildLists(ua: string, m: Captures, innerWidth: int, innerHeight: int, parsed: real)
    requires Compute(ua, Some(m), innerWidth, innerHeight, parsed).android
    requires |m| >= 2
    ensures var r := Compute(ua, Some(m), innerWidth, innerHeight, parsed);
            && r.major == Some(r.numbers[0])
            && |Split(r.build, ".")| == |r.numbers|
            && (forall i :: 0 <= i < |r.numbers| ==> Numbers.ParseInt(Split(r.build, ".")[i], 10) == Some(r.numbers[i]))
  {
    BuildIntsRoundTrip(Versions(Shift(m)));
  }

  import Numbers

  /** `kitKat()`: the stock browser of Android 4.3 or 4.4. */
  function KitKat(p: Props): (r: bool)
    ensures r ==> p.standard
  {
    p.standard && 4.2 < p.version < 4.5
  }

  /** KitKat needs an Android UA, the stock browser and a version reading
      strictly between 4.2 and 4.5; without a version match the default -1
      rules it out. */
  lemma KitKatIff(ua: string, app: Option<Captures>, innerWidth: int, innerHeight: int, parsed: real)
    ensures var r := Compute(ua, app, innerWidth, innerHeight, parsed);
            KitKat(r) <==> r.android && r.standard && app.Some? && 4.2 < parsed < 4.5
  {
  }

  /** Every accessor runs `init` and reads the cached record. */
  function Query(c: Cache<Props>, ua: string, app: Option<Captures>, innerWidth: int,
                 innerHeight: int, parsed: real): (r: (Cache<Props>, Props))
    ensures r.0 == Init(c, Compute(ua, app, innerWidth, innerHeight, parsed)) && r.1 == r.0.value
    ensures c.Ready? ==> r == (c, c.value)
  {
    var c' := Init(c, Compute(ua, app, innerWidth, innerHeight, parsed));
    (c', c'.value)
  }

  /** Later readings ignore changed inputs: the first `init` decides. */
  lemma QueryCached(c: Cache<Props>, ua: string, app: Option<Captures>, w: int, h: int, parsed: real,
                    app2: Option<Captures>, w2: int, h2: int, parsed2: real)
    ensures var (c1, p1) := Query(c, ua, app, w, h, parsed);
            Query(c1, ua, app2, w2, h2, parsed2) == (c1, p1)
  {
  }
}
