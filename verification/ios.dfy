/** `iOS`: the iPhone / iPad / iPod detector. The `appVersion` match,
    `navigator.standalone` and the float reading of the version text are
    inputs. */
module IOS {
  import opened Wrappers
  import opened Strings
  import opened Devices
  import opened BrowserUtil

  /** The device flags `init` writes for an iOS UA. The standalone flag
      goes under the key `stanalone`. */
  function Classify(ua: string, standalone: bool): (r: Props)
    ensures r.ipad <==> ContainsCI(ua, "ipad")
    ensures r.ipod <==> ContainsCI(ua, "ipod")
    ensures r.iphone <==> ContainsCI(ua, "iphone") && !r.ipad && !r.ipod
    ensures r.ios <==> r.ipad || r.ipod || r.iphone
    ensures !r.ios ==> r == DefaultProps
    ensures r.phone <==> r.iphone || r.ipod
    ensures r.tablet <==> r.ipad
    ensures r.webView <==> r.ios && !standalone && !SafariUa(ua)
    ensures r.ios ==> r.stanalone == Set(standalone)
    ensures !r.standalone
    ensures r.numbers == DefaultProps.numbers && r.version == DefaultProps.version && r.build == ""
  {
    var ipad := ContainsCI(ua, "ipad");
    var ipod := ContainsCI(ua, "ipod");
    var iphone := ContainsCI(ua, "iphone") && !ipad && !ipod;
    var ios := ipad || ipod || iphone;
    if !ios then DefaultProps
    else
      DefaultProps.(stanalone := Set(standalone), ios := ios, ipad := ipad, ipod := ipod,
                    iphone := iphone, phone := iphone || ipod, tablet := ipad,
                    webView := ios && !standalone && !SafariUa(ua))
  }

  /** `init`'s computation: every group of `os (\d+)_(\d+)_?(\d+)?` is
      mapped to its integer or 0. */
  function Compute(ua: string, app: Option<Captures>, standalone: bool, parsed: real): (r: Props)
    ensures var f := Classify(ua, standalone);
            && r.ios == f.ios && r.ipad == f.ipad && r.ipod == f.ipod && r.iphone == f.iphone
            && r.phone == f.phone && r.tablet == f.tablet && r.webView == f.webView
            && r.stanalone == f.stanalone && r.standalone == f.standalone
    ensures !r.ios ==> r == DefaultProps
    ensures r.ios && app.Some? ==> r.numbers == IntsOrZero(Shift(app.value)) && r.version == parsed
    ensures !(r.ios && app.Some?) ==> r.numbers == [-1, -1, -1] && r.version == -1.0 && r.build == ""
  {
    var p := Classify(ua, standalone);
    if p.ios && app.Some? then OsVersion(p, IntsOrZero(Shift(app.value)), parsed) else p
  }

  /** An iPad UA is a tablet and never a phone, whatever else it mentions. */
  lemma IpadIsTablet(ua: string, app: Option<Captures>, standalone: bool, parsed: real)
    requires ContainsCI(ua, "ipad")
    ensures var r := Compute(ua, app, standalone, parsed);
            r.ios && r.tablet && !r.iphone && (r.phone <==> ContainsCI(ua, "ipod"))
  {
  }

  /** Every iOS device is a phone or a tablet, and only iOS devices are. */
  lemma PhoneOrTablet(ua: string, app: Option<Captures>, standalone: bool, parsed: real)
    ensures var r := Compute(ua, app, standalone, parsed);
            r.ios <==> r.phone || r.tablet
  {
  }

  /** Accessors other than `standalone` run `init` and read the cache. */
  function Query(c: Cache<Props>, ua: string, app: Option<Captures>, standalone: bool,
                 parsed: real): (r: (Cache<Props>, Props))
    ensures r.0 == Init(c, Compute(ua, app, standalone, parsed)) && r.1 == r.0.value
    ensures c.Ready? ==> r == (c, c.value)
  {
    var c' := Init(c, Compute(ua, app, standalone, parsed));
    (c', c'.value)
  }

  /** `standalone()` neither runs `init` nor reads `stanalone`: before any
      other accessor it reads a property of `null`, afterwards the default. */
  function Standalone(c: Cache<Props>): (r: Result<bool>)
    ensures c.Uninit? ==> r == Throw(TypeError)
    ensures c.Ready? ==> r == Ok(c.value.standalone)
  {
    if c.Uninit? then Throw(TypeError) else Ok(c.value.standalone)
  }

  /** Even in a home-screen app, `standalone()` after `init` answers false. */
  lemma StandaloneAlwaysFalse(c: Cache<Props>, ua: string, app: Option<Captures>, parsed: real)
    requires c.Uninit?
    ensures var (c1, p) := Query(c, ua, app, true, parsed);
            Standalone(c1) == Ok(false)
            && (p.ios ==> p.stanalone == Set(true))
  {
  }
}
