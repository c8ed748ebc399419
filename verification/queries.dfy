/** `Queries`: splitting a URL query string into keys and values. The
    location's search string is a parameter. */
module Queries {
  import opened Wrappers
  import opened Strings
  import Text

  /** Static `amp`: every `&amp;` becomes `&`, exactly as `Text.and` does;
      a text without `&amp;` is unchanged. */
  function Amp(s: string): (r: string)
    ensures r == Text.And(s)
    ensures r == ReplaceAll(s, Text.AmpEntity, "&")
    ensures !Contains(s, Text.AmpEntity) ==> r == s
  {
    if !Contains(s, Text.AmpEntity) then
      Text.ReplaceAllAbsent(s, Text.AmpEntity, "&");
      Join(Split(s, Text.AmpEntity), "&")
    else Join(Split(s, Text.AmpEntity), "&")
  }

  /** Strips one leading `?` from the `&amp;`-normalised text; without one the
      original text comes back, not normalised. */
  function Naked(s: string): (r: string)
    ensures var q := Text.And(s); r == (if |q| > 0 && q[0] == '?' then q[1..] else s)
  {
    var q := Text.And(s);
    if q[..if |q| < 1 then |q| else 1] == "?" then q[1..] else s
  }

  /** One `&`-separated piece: empty pieces and pieces without `=` carry no
      entry; otherwise the key is before the first `=` and the value runs to
      the second `=` (or the end). */
  function Entry(pair: string): (r: Option<(string, string)>)
    ensures r.Some? <==> pair != "" && Contains(pair, "=")
    ensures r.Some? ==> '=' !in r.value.0 && '=' !in r.value.1
    ensures r.Some? ==> StartsWith(pair, r.value.0 + "=" + r.value.1)
    ensures r.Some? ==> var n := |r.value.0| + 1 + |r.value.1|; n == |pair| || pair[n] == '='
  {
    if pair != "" && Contains(pair, "=") then
      SplitContains(pair, "=");
      var kv := Split(pair, "=");
      SplitPiecesClean(pair, '=');
      SplitRejoin(pair, "=");
      JoinHead(kv, "=");
      JoinSecondEnds(kv, "=");
      Some((kv[0], kv[1]))
    else None
  }

  /** The parsed table: `data` with the last value per key and `keys` in
      order of appearance, repeats included. */
  datatype Parsed = Parsed(data: map<string, string>, keys: seq<string>)

  /** The pieces processed in order; written as a recursion on the last piece. */
  function Collect(pairs: seq<string>): (r: Parsed)
    ensures forall k :: k in r.data <==> k in r.keys
    ensures |r.keys| <= |pairs|
    decreases |pairs|
  {
    if |pairs| == 0 then Parsed(map[], [])
    else
      var p := Collect(pairs[..|pairs| - 1]);
      match Entry(pairs[|pairs| - 1])
      case None => p
      case Some((k, v)) => Parsed(p.data[k := v], p.keys + [k])
  }

  function Parse(s: string): (r: Parsed)
    ensures forall k :: k in r.data <==> k in r.keys
  {
    Collect(Split(Naked(s), "&"))
  }

  /** The last value given to `k` among the entries, if any. */
  function LastValue(entries: seq<(string, string)>, k: string): Option<string>
    decreases |entries|
  {
    if |entries| == 0 then None
    else if entries[|entries| - 1].0 == k then Some(entries[|entries| - 1].1)
    else LastValue(entries[..|entries| - 1], k)
  }

  function Keys(entries: seq<(string, string)>): (r: seq<string>)
    ensures |r| == |entries|
    ensures forall i :: 0 <= i < |entries| ==> r[i] == entries[i].0
  {
    if |entries| == 0 then [] else Keys(entries[..|entries| - 1]) + [entries[|entries| - 1].0]
  }

  function Pieces(entries: seq<(string, string)>): (r: seq<string>)
    ensures |r| == |entries|
    ensures forall i :: 0 <= i < |entries| ==> r[i] == entries[i].0 + "=" + entries[i].1
  {
    if |entries| == 0 then [] else Pieces(entries[..|entries| - 1]) + [entries[|entries| - 1].0 + "=" + entries[|entries| - 1].1]
  }

  predicate Plain(t: string) { '&' !in t && '=' !in t }

  /** A serialized query `?k1=v1&k2=v2...` of plain keys and values. */
  function Serialize(entries: seq<(string, string)>): string
  {
    "?" + Join(Pieces(entries), "&")
  }

  lemma EntryOf(k: string, v: string)
    requires Plain(k) && Plain(v)
    ensures Entry(k + "=" + v) == Some((k, v))
  {
    var pair := k + "=" + v;
    ContainsAt(pair, "=", |k|);
    SplitAfterToken(k, '=', v);
    SplitNoSeparator(v, '=');
    assert pair == k + ['='] + v;
  }

  lemma {:induction false} CollectEntries(entries: seq<(string, string)>)
    requires forall i :: 0 <= i < |entries| ==> Plain(entries[i].0) && Plain(entries[i].1)
    ensures Collect(Pieces(entries)).keys == Keys(entries)
    ensures forall k :: Get(Collect(Pieces(entries)), k) == LastValue(entries, k)
    decreases |entries|
  {
    if |entries| > 0 {
      var n := |entries| - 1;
      var init := entries[..n];
      CollectEntries(init);
      assert Pieces(entries)[..n] == Pieces(init);
      EntryOf(entries[n].0, entries[n].1);
    }
  }

  /** Parsing a serialized query of plain keys and values gives back every
      key in order and, for each key, the last value written for it. */
  lemma ParseSerialized(entries: seq<(string, string)>)
    requires |entries| >= 1
    requires forall i :: 0 <= i < |entries| ==> Plain(entries[i].0) && Plain(entries[i].1)
    requires !Contains(Serialize(entries), Text.AmpEntity)
    ensures Parse(Serialize(entries)).keys == Keys(entries)
    ensures forall k :: Get(Parse(Serialize(entries)), k) == LastValue(entries, k)
  {
    var p := Parse(Serialize(entries));
    SplitSerialized(entries);
    assert p == Collect(Pieces(entries));
    CollectEntries(entries);
  }

  lemma SplitSerialized(entries: seq<(string, string)>)
    requires |entries| >= 1
    requires forall i :: 0 <= i < |entries| ==> Plain(entries[i].0) && Plain(entries[i].1)
    requires !Contains(Serialize(entries), Text.AmpEntity)
    ensures Split(Naked(Serialize(entries)), "&") == Pieces(entries)
  {
    NakedSerialized(entries);
    PiecesPlain(entries);
    SplitJoinRoundTrip(Pieces(entries), '&');
  }

  lemma NakedSerialized(entries: seq<(string, string)>)
    requires !Contains(Serialize(entries), Text.AmpEntity)
    ensures Naked(Serialize(entries)) == Join(Pieces(entries), "&")
  {
    var s := Serialize(entries);
    Text.ReplaceAbsent(s, Text.AmpEntity, "&");
    assert Text.And(s) == s;
    assert s[0] == '?';
    assert s[1..] == Join(Pieces(entries), "&");
  }

  lemma PiecesPlain(entries: seq<(string, string)>)
    requires forall i :: 0 <= i < |entries| ==> Plain(entries[i].0) && Plain(entries[i].1)
    ensures forall i :: 0 <= i < |Pieces(entries)| ==> '&' !in Pieces(entries)[i]
  {
    forall i | 0 <= i < |Pieces(entries)|
      ensures '&' !in Pieces(entries)[i]
    {
      assert Pieces(entries)[i] == entries[i].0 + "=" + entries[i].1;
    }
  }

  /** The instance: the parsed table of the search string given at
      construction. */
  function New(search: string): (r: Parsed)
    ensures forall k :: k in r.data <==> k in r.keys
    ensures search == "" || search == "?" ==> r.keys == [] && r.data == map[]
  {
    if search == "" || search == "?" then
      assert Naked(search) == "";
      assert Split("", "&") == [""];
      assert Entry("") == None;
      Parse(search)
    else Parse(search)
  }

  /** Instance `has`: on a table whose keys and values agree, a key is
      listed exactly when it has a value. */
  predicate Has(q: Parsed, k: string)
    ensures (forall j :: j in q.data <==> j in q.keys) ==> (Has(q, k) <==> k in q.data)
  {
    k in q.keys
  }

  /** Instance `get`: the stored value, or undefined. */
  function Get(q: Parsed, k: string): (r: Option<string>)
    ensures r.Some? <==> k in q.data
    ensures r.Some? ==> r.value == q.data[k]
  {
    if k in q.data then Some(q.data[k]) else None
  }

  /** Static `get`: parse the text and look the key up. */
  function StaticGet(k: string, search: string): (r: Option<string>)
    ensures r.Some? <==> Has(New(search), k)
    ensures r == Get(New(search), k)
  {
    Get(Parse(search), k)
  }

  /** `has` and `get` agree: a key is listed exactly when it has a value. */
  lemma HasIffGet(search: string, k: string)
    ensures Has(New(search), k) <==> Get(New(search), k).Some?
  {
  }
}
