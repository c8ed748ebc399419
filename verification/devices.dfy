/** `devices`: the default OS and browser records every detector copies,
    and the init-once cache each detector keeps in a module variable. */
module Devices {
  import opened Wrappers
  import Strings

  /** A property of a JavaScript object literal that may never have been
      assigned (`undefined`). */
  datatype Field<T> = Undefined | Set(value: T)

  /** The OS record. `major` is `None` for NaN; `version` is the
      `parseFloat` reading, which is an input. `stanalone` is an extra key
      that only the iOS detector writes. */
  datatype Props = Props(
    ios: bool, ipad: bool, ipod: bool, iphone: bool, windows: bool, android: bool,
    standard: bool, phone: bool, tablet: bool, hd: bool, webView: bool, standalone: bool,
    build: string, major: Option<int>, numbers: seq<int>, version: real,
    stanalone: Field<bool>)

  /** `devices.props`: every flag false, `build` empty, `major`, `version`
      and each of the three `numbers` -1. */
  const DefaultProps := Props(
    false, false, false, false, false, false,
    false, false, false, false, false, false,
    "", Some(-1), [-1, -1, -1], -1.0,
    Undefined)

  /** `devices.safari`: the UA mentions Safari. */
  predicate SafariUa(ua: string)
  {
    Strings.ContainsCI(ua, "safari")
  }

  /** A detector's module variable: `null` until `init` first runs. */
  datatype Cache<T> = Uninit | Ready(value: T)

  /** `init`: returns at once when the record exists, otherwise stores the
      newly computed one. */
  function Init<T>(c: Cache<T>, computed: T): (r: Cache<T>)
    ensures r.Ready?
    ensures c.Ready? ==> r == c
    ensures c.Uninit? ==> r.value == computed
  {
    if c.Ready? then c else Ready(computed)
  }

  /** Only the first `init` computes; every later one leaves the cache as
      it is, whatever it would compute. */
  lemma InitOnce<T>(c: Cache<T>, first: T, later: T)
    ensures Init(Init(c, first), later) == Init(c, first)
    ensures Init(c, first).value == (if c.Ready? then c.value else first)
  {
  }
}
