/** `Type`: file-name predicates and own-key lookup. A JavaScript value
    that is not a string is `None` where a string is expected; `None` is
    also the falsy `null`/`undefined` where truthiness is tested. A plain
    object is its own enumerable keys in insertion order plus their values;
    indexing it also reaches the names inherited from `Object.prototype`. */
module TypeUtil {
  import opened Wrappers
  import opened Strings

  /** `fileName.split('.')`, then the last piece lower-cased; `''` for a
      non-string or a name without `.`. */
  function Extension(fileName: Option<string>): (r: string)
    ensures '.' !in r
    ensures forall i :: 0 <= i < |r| ==> !IsUpper(r[i])
  {
    match fileName
    case None => ""
    case Some(s) =>
      var splits := Split(s, ".");
      if |splits| == 1 then ""
      else
        var last := splits[|splits| - 1];
        SplitPiecesClean(s, '.');
        assert '.' !in last;
        Lower(last)
  }

  lemma CharContains(s: string, c: char)
    requires c in s
    ensures Contains(s, [c])
  {
    var i :| 0 <= i < |s| && s[i] == c;
    assert s[i..i + 1] == [c];
    ContainsAt(s, [c], i);
  }

  /** The extension is the lower-cased text after the last `.`, and `''`
      when there is no `.`. */
  lemma ExtensionAfterLastDot(s: string)
    ensures LastIndexOf(s, '.').None? ==> Extension(Some(s)) == ""
    ensures LastIndexOf(s, '.').Some? ==> Extension(Some(s)) == Lower(s[LastIndexOf(s, '.').value + 1..])
  {
    var p := Split(s, ".");
    if '.' !in s {
      SplitNoSeparator(s, '.');
    } else {
      CharContains(s, '.');
      SplitContains(s, ".");
      SplitRejoin(s, ".");
      SplitPiecesClean(s, '.');
      var n := |p|;
      var last := p[n - 1];
      var init := p[..n - 1];
      assert init + [last] == p;
      JoinSnoc(init, last, ".");
      var j := Join(init, ".");
      assert s == j + ['.'] + last;
      LastIndexOfSplit(j, '.', last);
      assert s[|j| + 1..] == last;
    }
  }

  /** The four `data:image/...;base64` markers `base64` looks for. */
  const Base64Markers: seq<string> := [
    "data:image/jpeg;base64", "data:image/png;base64",
    "data:image/jpg;base64", "data:image/gif;base64"]

  /** The extensions `img` accepts. */
  const ImageExtensions: seq<string> := ["jpg", "png", "jpeg", "gif"]

  /** `Type.exist`: `!!target` on a string or a falsy non-string. */
  /** `exist(target)`: truthiness; a missing or empty name has no
      extension either. */
  predicate Exist(target: Option<string>)
    ensures !Exist(target) ==> Extension(target) == ""
  {
    assert Split("", ".") == [""];
    target.Some? && target.value != ""
  }

  /** `base64(fileName)`: an existing name holding one of the markers, so
      it always mentions `data:image/`. */
  predicate Base64(fileName: Option<string>)
    ensures Base64(fileName) ==> Exist(fileName) && Contains(fileName.value, "data:image/")
  {
    if fileName.Some? then MarkerMentionsImage(fileName.value); BaseTest(fileName)
    else BaseTest(fileName)
  }

  predicate BaseTest(fileName: Option<string>)
  {
    Exist(fileName) && exists i :: 0 <= i < |Base64Markers| && Contains(fileName.value, Base64Markers[i])
  }

  lemma MarkerMentionsImage(s: string)
    ensures (exists i :: 0 <= i < |Base64Markers| && Contains(s, Base64Markers[i])) ==> Contains(s, "data:image/")
  {
    if i :| 0 <= i < |Base64Markers| && Contains(s, Base64Markers[i]) {
      var m := Base64Markers[i];
      assert m == "data:image/" + m[11..];
      ContainsPrefix(s, "data:image/", m[11..]);
    }
  }

  /** `img(fileName)`: holds exactly for an embedded base64 image or a name
      with an image extension; the existence test adds nothing, because a
      missing or empty name has the empty extension. */
  predicate Img(fileName: Option<string>)
    ensures Img(fileName) <==> Base64(fileName) || Extension(fileName) in ImageExtensions
  {
    if !Exist(fileName) then false
    else if Base64(fileName) then true
    else Extension(fileName) in ImageExtensions
  }

  /** A plain object: own enumerable keys in insertion order and their values. */
  datatype Obj<V> = Obj(keys: seq<string>, values: map<string, V>)

  ghost predicate WellFormed<V>(o: Obj<V>)
  {
    (forall k :: k in o.values <==> k in o.keys) &&
    (forall i, j :: 0 <= i < j < |o.keys| ==> o.keys[i] != o.keys[j])
  }

  /** The names an object literal inherits from `Object.prototype`. */
  const ProtoNames: set<string> := {
    "constructor", "hasOwnProperty", "isPrototypeOf", "propertyIsEnumerable",
    "toLocaleString", "toString", "valueOf", "__proto__",
    "__defineGetter__", "__defineSetter__", "__lookupGetter__", "__lookupSetter__"}

  /** `has(target, key)`: `Object.keys(target).includes(key)`. */
  predicate Has<V>(o: Obj<V>, key: string)
    ensures WellFormed(o) ==> (Has(o, key) <==> key in o.values)
  {
    key in o.keys
  }

  /** What `target[key]` reads. */
  datatype Prop<V> = Own(value: V) | Inherited(name: string) | Undefined

  function Index<V>(o: Obj<V>, key: string): (r: Prop<V>)
    ensures r.Inherited? ==> key in ProtoNames
  {
    if key in o.values then Own(o.values[key])
    else if key in ProtoNames then Inherited(key)
    else Undefined
  }

  /** On a well-formed object, `has` and indexing agree except on the
      inherited names, which index to something without being own keys. */
  lemma HasIffOwn<V>(o: Obj<V>, key: string)
    requires WellFormed(o)
    ensures Has(o, key) <==> Index(o, key).Own?
    ensures !Has(o, key) ==> (Index(o, key).Undefined? <==> key !in ProtoNames)
  {
  }
}
