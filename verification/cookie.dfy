/** `Cookie`: the `document.cookie` string serializer and the per-key
    instance that remembers default attributes. `encodeURIComponent`,
    `Date.prototype.toUTCString` and the page protocol are inputs: `enc`
    is the encoder, an expiry date is given as its UTC string, and `https`
    says whether `location.protocol` is `https:`. */
module Cookie {
  import opened Wrappers
  import opened Strings

  /** The attribute that ends every serialized cookie, after a `;`. */
  const SameSite := " SameSite=Lax"

  /** A piece that the code appends only when `present` holds. */
  function Optional(present: bool, piece: string): (r: seq<string>)
    ensures |r| <= 1
    ensures r == [] <==> !present
    ensures present ==> r == [piece]
  {
    if present then [piece] else []
  }

  /** The `;`-separated pieces of a serialized cookie, in their fixed order:
      the pair, then expires, path, domain, secure and SameSite, each
      attribute with its leading space. This is the reference layout. */
  function Pieces(pair: string, end: Option<string>, path: string, domain: string,
                  secure: bool, https: bool): (r: seq<string>)
    ensures |r| >= 2 && r[0] == pair && r[|r| - 1] == SameSite
  {
    [pair]
    + Optional(end.Some?, " expires=" + (if end.Some? then end.value else ""))
    + Optional(path != "", " path=" + path)
    + Optional(domain != "", " domain=" + domain)
    + Optional(secure && https, " secure")
    + [SameSite]
  }

  /** Appends `;` and the piece when `present` holds. */
  function AddIf(acc: string, present: bool, piece: string): (r: string)
    ensures present ==> |r| == |acc| + 1 + |piece|
    ensures !present ==> r == acc
  {
    if present then acc + ";" + piece else acc
  }

  /** The pair followed by the optional attributes, before SameSite. */
  function Attributes(pair: string, end: Option<string>, path: string, domain: string,
                      secure: bool, https: bool): string
  {
    var withEnd := AddIf(pair, end.Some?, " expires=" + (if end.Some? then end.value else ""));
    var withPath := AddIf(withEnd, path != "", " path=" + path);
    var withDomain := AddIf(withPath, domain != "", " domain=" + domain);
    AddIf(withDomain, secure && https, " secure")
  }

  /** Static `set(key, value, end, path, domain, secure)`: the string written
      to `document.cookie` and returned. */
  function Set(enc: string -> string, key: string, value: string, end: Option<string>,
               path: string, domain: string, secure: bool, https: bool): (r: string)
    ensures r == Join(Pieces(enc(key) + "=" + enc(value), end, path, domain, secure, https), ";")
  {
    var pair := enc(key) + "=" + enc(value);
    SetLayout(pair, end, path, domain, secure, https);
    Attributes(pair, end, path, domain, secure, https) + ";" + SameSite
  }

  /** The written cookie begins with `enc(key)=enc(value)` and ends with
      `; SameSite=Lax`. */
  lemma SetFrame(enc: string -> string, key: string, value: string, end: Option<string>,
                 path: string, domain: string, secure: bool, https: bool)
    ensures var r := Set(enc, key, value, end, path, domain, secure, https);
            && StartsWith(r, enc(key) + "=" + enc(value))
            && |r| > |SameSite| && r[|r| - |SameSite| - 1] == ';' && r[|r| - |SameSite|..] == SameSite
  {
    var pair := enc(key) + "=" + enc(value);
    var a := Attributes(pair, end, path, domain, secure, https);
    AttributesKeepPair(pair, end, path, domain, secure, https);
    AddIfKeepsPrefix(a, true, SameSite, pair);
    var r := a + ";" + SameSite;
    assert r[|a|] == ';' && r[|a| + 1..] == SameSite;
  }

  lemma AttributesKeepPair(pair: string, end: Option<string>, path: string, domain: string,
                           secure: bool, https: bool)
    ensures StartsWith(Attributes(pair, end, path, domain, secure, https), pair)
  {
    var withEnd := AddIf(pair, end.Some?, " expires=" + (if end.Some? then end.value else ""));
    var withPath := AddIf(withEnd, path != "", " path=" + path);
    var withDomain := AddIf(withPath, domain != "", " domain=" + domain);
    AddIfKeepsPrefix(pair, end.Some?, " expires=" + (if end.Some? then end.value else ""), pair);
    AddIfKeepsPrefix(withEnd, path != "", " path=" + path, pair);
    AddIfKeepsPrefix(withPath, domain != "", " domain=" + domain, pair);
    AddIfKeepsPrefix(withDomain, secure && https, " secure", pair);
  }

  lemma AddIfKeepsPrefix(acc: string, present: bool, piece: string, p: string)
    requires StartsWith(acc, p)
    ensures StartsWith(AddIf(acc, present, piece), p)
  {
    if present {
      assert (acc + ";" + piece)[..|p|] == acc[..|p|];
    }
  }

  /** One optional step of the serializer is one more `;`-separated piece. */
  lemma Step(parts: seq<string>, present: bool, piece: string)
    requires |parts| >= 1
    ensures Join(parts + Optional(present, piece), ";") == AddIf(Join(parts, ";"), present, piece)
  {
    if present {
      JoinSnoc(parts, piece, ";");
    } else {
      assert parts + [] == parts;
    }
  }

  lemma SetLayout(pair: string, end: Option<string>, path: string, domain: string,
                  secure: bool, https: bool)
    ensures Attributes(pair, end, path, domain, secure, https) + ";" + SameSite
         == Join(Pieces(pair, end, path, domain, secure, https), ";")
  {
    var p0 := [pair];
    var p1 := p0 + Optional(end.Some?, " expires=" + (if end.Some? then end.value else ""));
    var p2 := p1 + Optional(path != "", " path=" + path);
    var p3 := p2 + Optional(domain != "", " domain=" + domain);
    var p4 := p3 + Optional(secure && https, " secure");
    var withEnd := AddIf(pair, end.Some?, " expires=" + (if end.Some? then end.value else ""));
    var withPath := AddIf(withEnd, path != "", " path=" + path);
    var withDomain := AddIf(withPath, domain != "", " domain=" + domain);
    var withSecure := AddIf(withDomain, secure && https, " secure");
    Step(p0, end.Some?, " expires=" + (if end.Some? then end.value else ""));
    assert Join(p1, ";") == withEnd;
    Step(p1, path != "", " path=" + path);
    assert Join(p2, ";") == withPath;
    Step(p2, domain != "", " domain=" + domain);
    assert Join(p3, ";") == withDomain;
    Step(p3, secure && https, " secure");
    assert Join(p4, ";") == withSecure == Attributes(pair, end, path, domain, secure, https);
    JoinSnoc(p4, SameSite, ";");
    assert Pieces(pair, end, path, domain, secure, https) == p4 + [SameSite];
  }

  /** No field contains `;` (the encoder escapes it; the UTC string, path
      and domain must not contain one). */
  predicate Clean(enc: string -> string, key: string, value: string, end: Option<string>,
                  path: string, domain: string)
  {
    ';' !in enc(key) && ';' !in enc(value) && '=' !in enc(key)
    && (end.Some? ==> ';' !in end.value) && ';' !in path && ';' !in domain
  }

  /** Splitting the written cookie at `;` gives back its pieces, so the pair
      and every attribute can be read back from it. */
  lemma SetSplits(enc: string -> string, key: string, value: string, end: Option<string>,
                  path: string, domain: string, secure: bool, https: bool)
    requires Clean(enc, key, value, end, path, domain)
    ensures Split(Set(enc, key, value, end, path, domain, secure, https), ";")
         == Pieces(enc(key) + "=" + enc(value), end, path, domain, secure, https)
  {
    var ps := Pieces(enc(key) + "=" + enc(value), end, path, domain, secure, https);
    forall i | 0 <= i < |ps|
      ensures ';' !in ps[i]
    {
    }
    SplitJoinRoundTrip(ps, ';');
  }

  /** Each attribute is present exactly under its condition, and they appear
      in the order expires, path, domain, secure, SameSite. */
  lemma SetAttributes(pair: string, end: Option<string>, path: string, domain: string,
                      secure: bool, https: bool)
    requires '=' in pair
    ensures var ps := Pieces(pair, end, path, domain, secure, https);
            && (end.Some? ==> ps[1] == " expires=" + end.value)
            && (path != "" ==> " path=" + path in ps)
            && (domain != "" ==> " domain=" + domain in ps)
            && (" secure" in ps <==> secure && https)
            && |ps| == 2 + (if end.Some? then 1 else 0) + (if path != "" then 1 else 0)
                         + (if domain != "" then 1 else 0) + (if secure && https then 1 else 0)
  {
    var ps := Pieces(pair, end, path, domain, secure, https);
    if " secure" in ps {
      var i :| 0 <= i < |ps| && ps[i] == " secure";
      assert '=' !in ps[i];
      assert i != 0;
      assert ps[i][1] == 's';
    }
  }

  /** Static `has(key)`: `get` yields null for an absent key and for an
      empty decoded value; `decoded` is the text the lookup pattern captured
      and decoded. */
  function Get(decoded: string): (r: Option<string>)
    ensures r.None? <==> decoded == ""
    ensures r.Some? ==> r.value == decoded
  {
    if decoded == "" then None else Some(decoded)
  }

  function Has(decoded: string): (r: bool)
    ensures r <==> Get(decoded).Some?
  {
    decoded != ""
  }

  /** Static `remove(key)`: for a present key, writes an empty value that
      expires now (`nowUtc`) with the default path, domain and secure flag;
      returns the written string, if any, and the result. */
  function Remove(enc: string -> string, key: string, decoded: string, nowUtc: string,
                  https: bool): (r: (Option<string>, bool))
    ensures r.1 <==> Has(decoded)
    ensures r.0.Some? <==> r.1
    ensures r.1 ==> r.0.value == Set(enc, key, "", Some(nowUtc), "/", "", true, https)
  {
    if Has(decoded) then (Some(Set(enc, key, "", Some(nowUtc), "/", "", true, https)), true)
    else (None, false)
  }

  /** The instance: one key with its default attributes. */
  datatype Instance = Instance(key: string, end: Option<string>, path: string,
                               domain: string, secure: bool)

  /** `new Cookie(key, end, path, domain, secure)`; `None` is an omitted
      argument, which takes the default (no end, `/`, no domain, secure). */
  function New(key: string, end: Option<Option<string>>, path: Option<string>,
               domain: Option<string>, secure: Option<bool>): (r: Instance)
    ensures r.key == key
    ensures end.None? && path.None? && domain.None? && secure.None?
            ==> r.end == None && r.path == "/" && r.domain == "" && r.secure
    ensures end.Some? ==> r.end == end.value
    ensures path.Some? ==> r.path == path.value
    ensures domain.Some? ==> r.domain == domain.value
    ensures secure.Some? ==> r.secure == secure.value
  {
    Instance(key, OrElse(end, None), OrElse(path, "/"), OrElse(domain, ""), OrElse(secure, true))
  }

  function OrElse<T>(o: Option<T>, default: T): (r: T)
    ensures o.Some? ==> r == o.value
    ensures o.None? ==> r == default
  {
    if o.Some? then o.value else default
  }

  /** `setKey`, `setEnd`, `setPath`, `setDomain`, `setSecure`. */
  datatype Setting = SetKey(key: string) | SetEnd(end: Option<string>) | SetPath(path: string)
                   | SetDomain(domain: string) | SetSecure(secure: bool)

  function Apply(c: Instance, s: Setting): (r: Instance)
  {
    match s
    case SetKey(k) => c.(key := k)
    case SetEnd(e) => c.(end := e)
    case SetPath(p) => c.(path := p)
    case SetDomain(d) => c.(domain := d)
    case SetSecure(b) => c.(secure := b)
  }

  /** Each setter is observed by its accessor and leaves the other four alone. */
  lemma ApplyObserved(c: Instance, s: Setting)
    ensures s.SetKey? ==> Apply(c, s) == Instance(s.key, c.end, c.path, c.domain, c.secure)
    ensures s.SetEnd? ==> Apply(c, s) == Instance(c.key, s.end, c.path, c.domain, c.secure)
    ensures s.SetPath? ==> Apply(c, s) == Instance(c.key, c.end, s.path, c.domain, c.secure)
    ensures s.SetDomain? ==> Apply(c, s) == Instance(c.key, c.end, c.path, s.domain, c.secure)
    ensures s.SetSecure? ==> Apply(c, s) == Instance(c.key, c.end, c.path, c.domain, s.secure)
  {
  }

  /** Instance `set(value, end, path, domain, secure)`: omitted arguments
      come from the accessors. */
  function InstanceSet(c: Instance, enc: string -> string, value: string,
                       end: Option<Option<string>>, path: Option<string>,
                       domain: Option<string>, secure: Option<bool>, https: bool): (r: string)
    ensures end.None? && path.None? && domain.None? && secure.None?
            ==> r == Set(enc, c.key, value, c.end, c.path, c.domain, c.secure, https)
    ensures StartsWith(r, enc(c.key) + "=" + enc(value))
  {
    Set(enc, c.key, value, OrElse(end, c.end), OrElse(path, c.path), OrElse(domain, c.domain),
        OrElse(secure, c.secure), https)
  }

  /** A fresh instance writes with the static defaults; after a setter, the
      next `set` uses the new setting. */
  lemma InstanceDefaults(key: string, enc: string -> string, value: string, https: bool)
    ensures InstanceSet(New(key, None, None, None, None), enc, value, None, None, None, None, https)
         == Set(enc, key, value, None, "/", "", true, https)
  {
  }

  lemma SetPathObserved(c: Instance, enc: string -> string, value: string, path: string, https: bool)
    ensures InstanceSet(Apply(c, SetPath(path)), enc, value, None, None, None, None, https)
         == InstanceSet(c, enc, value, None, Some(path), None, None, https)
  {
  }

  /** Instance `remove()` is the static one on the instance key. */
  function InstanceRemove(c: Instance, enc: string -> string, decoded: string, nowUtc: string,
                          https: bool): (r: (Option<string>, bool))
    ensures r.1 <==> decoded != ""
    ensures r.1 ==> r.0 == Some(Set(enc, c.key, "", Some(nowUtc), "/", "", true, https))
  {
    Remove(enc, c.key, decoded, nowUtc, https)
  }
}
