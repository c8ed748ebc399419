/** `Windows`: the Windows / Windows Phone detector. */
module Windows {
  import opened Strings
  import opened Devices

  /** `init`'s computation: a copy of the default record, with `windows`
      and `phone` written only for a Windows UA. */
  function Compute(ua: string): (r: Props)
    ensures r.windows <==> ContainsCI(ua, "windows")
    ensures r.phone ==> r.windows
    ensures !ContainsCI(ua, "windows") ==> r == DefaultProps
    ensures r == DefaultProps.(windows := r.windows, phone := r.phone)
  {
    var p := DefaultProps;
    if ContainsCI(ua, "windows") then p.(windows := true, phone := ContainsCI(ua, "windows phone")) else p
  }

  /** "windows phone" contains "windows", so the phone flag alone decides. */
  lemma PhoneIsWindows(ua: string)
    ensures Compute(ua).phone <==> ContainsCI(ua, "windows phone")
  {
    if ContainsCI(ua, "windows phone") {
      MentionsWindows(ua);
    }
  }

  lemma MentionsWindows(ua: string)
    requires ContainsCI(ua, "windows phone")
    ensures ContainsCI(ua, "windows")
  {
    ContainsCIPrefix(ua, "windows phone", 7);
    assert "windows phone"[..7] == "windows";
  }

  /** `is()` and `phone()`: run `init`, then read the cached record. */
  function Is(c: Cache<Props>, ua: string): (r: (Cache<Props>, bool))
    ensures r.0 == Init(c, Compute(ua))
    ensures c.Uninit? ==> (r.1 <==> ContainsCI(ua, "windows"))
    ensures c.Ready? ==> r.0 == c && r.1 == c.value.windows
  {
    var c' := Init(c, Compute(ua));
    (c', c'.value.windows)
  }

  function Phone(c: Cache<Props>, ua: string): (r: (Cache<Props>, bool))
    ensures r.0 == Init(c, Compute(ua))
    ensures c.Uninit? ==> (r.1 <==> ContainsCI(ua, "windows phone"))
    ensures c.Ready? ==> r.0 == c && r.1 == c.value.phone
  {
    PhoneIsWindows(ua);
    var c' := Init(c, Compute(ua));
    (c', c'.value.phone)
  }
}
