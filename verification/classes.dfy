/** `Classes`: editing an element's `className` as a space-separated token
    list. Elements with `classList` hand the edit to the browser's
    `DOMTokenList`; that path is modelled only by its return value. */
module Classes {
  import opened Strings

  datatype Element = Element(className: string, classList: bool)

  predicate Token(t: string) { t != "" && ' ' !in t }

  /** Keeps the pieces that are neither empty nor a lone space, in order. */
  function Keep(pieces: seq<string>): (r: seq<string>)
    ensures |r| <= |pieces|
    ensures forall i :: 0 <= i < |r| ==> r[i] != "" && r[i] != " "
    ensures forall t :: t in r ==> t in pieces
  {
    if |pieces| == 0 then []
    else
      var rest := Keep(pieces[1..]);
      if pieces[0] != "" && pieces[0] != " " then [pieces[0]] + rest else rest
  }

  /** `convert`: `className.split(' ')` without empty tokens. */
  function Convert(className: string): (r: seq<string>)
    ensures forall i :: 0 <= i < |r| ==> Token(r[i])
  {
    var pieces := Split(className, " ");
    SplitPiecesClean(className, ' ');
    var r := Keep(pieces);
    assert forall t :: t in r ==> ' ' !in t;
    r
  }

  lemma {:induction false} KeepTokens(ts: seq<string>)
    requires forall i :: 0 <= i < |ts| ==> Token(ts[i])
    ensures Keep(ts) == ts
    decreases |ts|
  {
    if |ts| > 0 {
      KeepTokens(ts[1..]);
      assert [ts[0]] + ts[1..] == ts;
    }
  }

  /** Joining tokens with single spaces and converting gives them back. */
  lemma ConvertJoin(ts: seq<string>)
    requires forall i :: 0 <= i < |ts| ==> Token(ts[i])
    ensures Convert(Join(ts, " ")) == ts
  {
    if |ts| == 0 {
      assert Split("", " ") == [""];
    } else {
      SplitJoinRoundTrip(ts, ' ');
      KeepTokens(ts);
    }
  }

  /** `has` without `classList`: the name is one of the converted tokens. */
  predicate Has(className: string, name: string)
    ensures Has(className, name) ==> Token(name)
  {
    name in Convert(className)
  }

  /** The result of `add` or `remove`: handed to `classList` (which returns
      true), or the new `className` and the returned flag. */
  datatype Outcome = Native | Edited(className: string, done: bool)

  function Returned(o: Outcome): bool
  {
    o.Native? || o.done
  }

  function Add(e: Element, name: string): (o: Outcome)
    ensures e.classList <==> o.Native?
    ensures !e.classList && Has(e.className, name) ==> o == Edited(e.className, false)
    ensures !e.classList && !Has(e.className, name) ==> Returned(o)
  {
    if e.classList then Native
    else if Has(e.className, name) then Edited(e.className, false)
    else Edited(Join(Convert(e.className) + [name], " "), true)
  }

  /** Where `indexOf` finds `x`: the first position holding it. */
  function FirstIndex(ts: seq<string>, x: string): (i: nat)
    requires x in ts
    ensures i < |ts| && ts[i] == x && x !in ts[..i]
  {
    if ts[0] == x then 0
    else
      var j := FirstIndex(ts[1..], x);
      assert ts[..j + 1] == [ts[0]] + ts[1..][..j];
      j + 1
  }

  /** `splice(indexOf(x), 1)`: the list without its first `x`. */
  function RemoveFirst(ts: seq<string>, x: string): (r: seq<string>)
    ensures x !in ts ==> r == ts
    ensures x in ts ==> r == ts[..FirstIndex(ts, x)] + ts[FirstIndex(ts, x) + 1..]
    ensures forall t :: t in r ==> t in ts
  {
    if |ts| == 0 then []
    else if ts[0] == x then ts[1..]
    else
      var rest := RemoveFirst(ts[1..], x);
      assert [ts[0]] + ts[1..] == ts;
      if x in ts then
        var j := FirstIndex(ts[1..], x);
        assert ts[..j + 1] == [ts[0]] + ts[1..][..j];
        assert ts[j + 2..] == ts[1..][j + 1..];
        [ts[0]] + rest
      else [ts[0]] + rest
  }

  function Remove(e: Element, name: string): (o: Outcome)
    ensures e.classList <==> o.Native?
    ensures !e.classList && !Has(e.className, name) ==> o == Edited(e.className, false)
    ensures !e.classList && Has(e.className, name) ==> Returned(o)
  {
    if e.classList then Native
    else if !Has(e.className, name) then Edited(e.className, false)
    else Edited(Join(RemoveFirst(Convert(e.className), name), " "), true)
  }

  /** On the `classList` path both edits report success. */
  lemma ClassListReturnsTrue(e: Element, name: string)
    requires e.classList
    ensures Returned(Add(e, name)) && Returned(Remove(e, name))
  {
  }

  /** Adding a new token appends it to the token list. */
  lemma AddAppends(e: Element, name: string)
    requires !e.classList && Token(name) && !Has(e.className, name)
    ensures Convert(Add(e, name).className) == Convert(e.className) + [name]
    ensures Has(Add(e, name).className, name)
  {
    var ts := Convert(e.className) + [name];
    assert forall i :: 0 <= i < |ts| ==> Token(ts[i]);
    ConvertJoin(ts);
  }

  /** Removing a present token deletes its first occurrence from the list. */
  lemma RemoveDeletes(e: Element, name: string)
    requires !e.classList && Has(e.className, name)
    ensures Convert(Remove(e, name).className) == RemoveFirst(Convert(e.className), name)
  {
    var ts := RemoveFirst(Convert(e.className), name);
    forall i | 0 <= i < |ts|
      ensures Token(ts[i])
    {
      assert ts[i] in Convert(e.className);
    }
    ConvertJoin(ts);
  }

  /** Adding a new token and removing it again restores the token list. */
  lemma AddThenRemove(e: Element, name: string)
    requires !e.classList && Token(name) && !Has(e.className, name)
    ensures var added := Element(Add(e, name).className, false);
      Convert(Remove(added, name).className) == Convert(e.className)
  {
    AddAppends(e, name);
    var added := Element(Add(e, name).className, false);
    RemoveDeletes(added, name);
    RemoveLast(Convert(e.className), name);
  }

  lemma {:induction false} RemoveLast(ts: seq<string>, x: string)
    requires x !in ts
    ensures RemoveFirst(ts + [x], x) == ts
    decreases |ts|
  {
    if |ts| == 0 {
      assert ts + [x] == [x];
    } else {
      RemoveLast(ts[1..], x);
      assert (ts + [x])[1..] == ts[1..] + [x];
      assert [ts[0]] + ts[1..] == ts;
    }
  }
}
