/** String helpers shared by the model: ASCII case mapping (what the modelled
    regular expressions and `toLowerCase` do on ASCII text), substring search,
    and JavaScript's `String.prototype.split` / `Array.prototype.join`. */
module Strings {
  import opened Wrappers

  predicate IsUpper(c: char) { 'A' <= c <= 'Z' }

  predicate IsLower(c: char) { 'a' <= c <= 'z' }

  function LowerChar(c: char): (r: char)
    ensures !IsUpper(r)
    ensures IsUpper(c) ==> IsLower(r)
  {
    if IsUpper(c) then (c as int + 32) as char else c
  }

  function UpperChar(c: char): (r: char)
    ensures !IsLower(r)
    ensures IsLower(c) ==> IsUpper(r) && LowerChar(r) == c
  {
    if IsLower(c) then (c as int - 32) as char else c
  }

  /** `toLowerCase` restricted to ASCII letters. */
  function Lower(s: string): (r: string)
    ensures |r| == |s|
    ensures forall i :: 0 <= i < |s| ==> r[i] == LowerChar(s[i])
  {
    if |s| == 0 then [] else [LowerChar(s[0])] + Lower(s[1..])
  }

  lemma LowerAppend(a: string, b: string)
    ensures Lower(a + b) == Lower(a) + Lower(b)
  {
  }

  predicate StartsWith(s: string, prefix: string)
  {
    |prefix| <= |s| && s[..|prefix|] == prefix
  }

  /** `s.indexOf(w) !== -1`. */
  predicate Contains(s: string, w: string)
    decreases |s|
  {
    StartsWith(s, w) || (|s| > 0 && Contains(s[1..], w))
  }

  /** Case-insensitive substring test, as a `/w/i` regular expression
      without metacharacters performs it on ASCII text; the pattern `w` is
      written in lower case. */
  predicate ContainsCI(s: string, w: string)
  {
    Contains(Lower(s), w)
  }

  lemma ContainsAt(s: string, w: string, i: nat)
    requires i + |w| <= |s| && s[i..i + |w|] == w
    ensures Contains(s, w)
    decreases i
  {
    if i > 0 {
      assert s[1..][i - 1..i - 1 + |w|] == s[i..i + |w|];
      ContainsAt(s[1..], w, i - 1);
    }
  }

  lemma ContainsWitness(s: string, w: string) returns (i: nat)
    requires Contains(s, w)
    ensures i + |w| <= |s| && s[i..i + |w|] == w
    decreases |s|
  {
    if StartsWith(s, w) {
      i := 0;
    } else {
      var j := ContainsWitness(s[1..], w);
      i := j + 1;
      assert s[i..i + |w|] == s[1..][j..j + |w|];
    }
  }

  /** A text containing `a + b` contains `a`. */
  lemma ContainsPrefix(s: string, a: string, b: string)
    requires Contains(s, a + b)
    ensures Contains(s, a)
  {
    var i := ContainsWitness(s, a + b);
    assert s[i..i + |a|] == (a + b)[..|a|] == a;
    ContainsAt(s, a, i);
  }

  /** Case-insensitively too: a text mentioning `w` mentions each prefix. */
  lemma ContainsCIPrefix(s: string, w: string, k: nat)
    requires k <= |w| && ContainsCI(s, w)
    ensures ContainsCI(s, w[..k])
  {
    assert w == w[..k] + w[k..];
    ContainsPrefix(Lower(s), w[..k], w[k..]);
  }

  /** `s.split(w)` for a non-empty separator: the pieces between the leftmost
      non-overlapping occurrences of `w`. */
  function Split(s: string, w: string): (r: seq<string>)
    requires |w| > 0
    ensures |r| >= 1
    decreases |s|
  {
    if |s| == 0 then [""]
    else if StartsWith(s, w) then [""] + Split(s[|w|..], w)
    else
      var t := Split(s[1..], w);
      [[s[0]] + t[0]] + t[1..]
  }

  /** A text holding the separator splits into at least two pieces. */
  lemma {:induction false} SplitContains(s: string, w: string)
    requires |w| > 0 && Contains(s, w)
    ensures |Split(s, w)| >= 2
    decreases |s|
  {
    if !StartsWith(s, w) {
      SplitContains(s[1..], w);
    }
  }

  /** `parts.join(sep)`. */
  function Join(parts: seq<string>, sep: string): string
    decreases |parts|
  {
    if |parts| == 0 then ""
    else if |parts| == 1 then parts[0]
    else parts[0] + sep + Join(parts[1..], sep)
  }

  lemma JoinCons(p: string, rest: seq<string>, sep: string)
    requires |rest| >= 1
    ensures Join([p] + rest, sep) == p + sep + Join(rest, sep)
  {
    assert ([p] + rest)[1..] == rest;
  }

  lemma JoinPrefixFirst(c: string, t: seq<string>, sep: string)
    requires |t| >= 1
    ensures Join([c + t[0]] + t[1..], sep) == c + Join(t, sep)
  {
    if |t| > 1 {
      JoinCons(c + t[0], t[1..], sep);
      JoinCons(t[0], t[1..], sep);
      assert [t[0]] + t[1..] == t;
    }
  }

  /** Every non-overlapping occurrence of `w`, leftmost first, replaced by `r`:
      an independent, single-pass definition of `split(w).join(r)`. */
  function ReplaceAll(s: string, w: string, r: string): string
    requires |w| > 0
    decreases |s|
  {
    if |s| == 0 then ""
    else if StartsWith(s, w) then r + ReplaceAll(s[|w|..], w, r)
    else [s[0]] + ReplaceAll(s[1..], w, r)
  }

  /** `s.split(w).join(r)` is the single-pass replacement. */
  lemma {:induction false} SplitJoinIsReplaceAll(s: string, w: string, r: string)
    requires |w| > 0
    ensures Join(Split(s, w), r) == ReplaceAll(s, w, r)
    decreases |s|
  {
    if |s| == 0 {
    } else if StartsWith(s, w) {
      var t := Split(s[|w|..], w);
      assert Split(s, w) == [""] + t;
      SplitJoinIsReplaceAll(s[|w|..], w, r);
      JoinCons("", t, r);
      assert "" + r == r;
    } else {
      var t := Split(s[1..], w);
      assert Split(s, w) == [[s[0]] + t[0]] + t[1..];
      SplitJoinIsReplaceAll(s[1..], w, r);
      JoinPrefixFirst([s[0]], t, r);
    }
  }

  /** A text without the separator character splits into itself. */
  lemma {:induction false} SplitNoSeparator(t: string, c: char)
    requires c !in t
    ensures Split(t, [c]) == [t]
    decreases |t|
  {
    if |t| > 0 {
      SplitNoSeparator(t[1..], c);
      assert [t[0]] + t[1..] == t;
    }
  }

  /** Splitting `t c x` where `t` holds no `c` yields `t` followed by the pieces of `x`. */
  lemma {:induction false} SplitAfterToken(t: string, c: char, x: string)
    requires c !in t
    ensures Split(t + [c] + x, [c]) == [t] + Split(x, [c])
    decreases |t|
  {
    var s := t + [c] + x;
    if |t| == 0 {
      assert s == [c] + x;
      assert StartsWith(s, [c]);
      assert s[1..] == x;
    } else {
      assert s[0] == t[0] && s[1..] == t[1..] + [c] + x;
      assert !StartsWith(s, [c]);
      SplitAfterToken(t[1..], c, x);
      assert [t[0]] + t[1..] == t;
    }
  }

  /** Joining separator-free tokens and splitting again gives the tokens back. */
  lemma {:induction false} SplitJoinRoundTrip(ts: seq<string>, c: char)
    requires |ts| >= 1
    requires forall i :: 0 <= i < |ts| ==> c !in ts[i]
    ensures Split(Join(ts, [c]), [c]) == ts
    decreases |ts|
  {
    if |ts| == 1 {
      SplitNoSeparator(ts[0], c);
    } else {
      SplitJoinRoundTrip(ts[1..], c);
      SplitAfterToken(ts[0], c, Join(ts[1..], [c]));
      assert [ts[0]] + ts[1..] == ts;
    }
  }
  /** Joining the pieces with the separator rebuilds the text. */
  lemma SplitRejoin(s: string, w: string)
    requires |w| > 0
    ensures Join(Split(s, w), w) == s
  {
    SplitJoinIsReplaceAll(s, w, w);
    ReplaceSelf(s, w);
  }

  lemma {:induction false} ReplaceSelf(s: string, w: string)
    requires |w| > 0
    ensures ReplaceAll(s, w, w) == s
    decreases |s|
  {
    if |s| > 0 {
      if StartsWith(s, w) {
        ReplaceSelf(s[|w|..], w);
        assert s[..|w|] + s[|w|..] == s;
      } else {
        ReplaceSelf(s[1..], w);
        assert [s[0]] + s[1..] == s;
      }
    }
  }

  /** The join of two or more pieces begins with the first two around the
      separator. */
  lemma JoinHead(parts: seq<string>, sep: string)
    requires |parts| >= 2
    ensures StartsWith(Join(parts, sep), parts[0] + sep + parts[1])
  {
    var rest := Join(parts[1..], sep);
    if |parts| > 2 {
      assert parts[1..][1..] == parts[2..];
      assert rest == parts[1] + sep + Join(parts[2..], sep);
    }
    var j := parts[0] + sep + rest;
    assert j[..|parts[0] + sep + parts[1]|] == parts[0] + sep + parts[1];
  }

  /** In a join, the second part runs to the next separator or the end. */
  lemma JoinSecondEnds(parts: seq<string>, sep: string)
    requires |parts| >= 2 && |sep| > 0
    ensures var n := |parts[0]| + |sep| + |parts[1]|;
            n <= |Join(parts, sep)|
            && (n == |Join(parts, sep)| || Join(parts, sep)[n] == sep[0])
  {
    var n := |parts[0]| + |sep| + |parts[1]|;
    if |parts| == 2 {
      assert Join(parts[1..], sep) == parts[1];
    } else {
      assert parts[1..][1..] == parts[2..];
      var j := parts[0] + sep + (parts[1] + sep + Join(parts[2..], sep));
      assert Join(parts, sep) == j;
      assert j[n] == sep[0];
    }
  }

  /** No piece of a split holds the separator character. */
  lemma {:induction false} SplitPiecesClean(s: string, c: char)
    ensures forall i :: 0 <= i < |Split(s, [c])| ==> c !in Split(s, [c])[i]
    decreases |s|
  {
    if |s| > 0 {
      SplitPiecesClean(s[1..], c);
      if StartsWith(s, [c]) {
        assert s[|[c]|..] == s[1..];
      } else {
        assert s[0] != c;
      }
    }
  }

  /** Joining one more piece appends the separator and the piece. */
  lemma {:induction false} JoinSnoc(parts: seq<string>, p: string, sep: string)
    requires |parts| >= 1
    ensures Join(parts + [p], sep) == Join(parts, sep) + sep + p
    decreases |parts|
  {
    if |parts| == 1 {
      assert (parts + [p])[1..] == [p];
    } else {
      JoinSnoc(parts[1..], p, sep);
      assert (parts + [p])[1..] == parts[1..] + [p];
    }
  }

  /** The position of the last `c` in `s`, if any. */
  function LastIndexOf(s: string, c: char): (r: Option<nat>)
    ensures r.Some? ==> r.value < |s| && s[r.value] == c && c !in s[r.value + 1..]
    ensures r.None? <==> c !in s
  {
    if |s| == 0 then None
    else if s[|s| - 1] == c then Some(|s| - 1)
    else
      var r := LastIndexOf(s[..|s| - 1], c);
      assert s == s[..|s| - 1] + [s[|s| - 1]];
      if r.Some? then
        assert s[r.value + 1..] == s[..|s| - 1][r.value + 1..] + [s[|s| - 1]];
        r
      else r
  }

  /** In `a c b` with no `c` in `b`, the last `c` is the one after `a`. */
  lemma LastIndexOfSplit(a: string, c: char, b: string)
    requires c !in b
    ensures LastIndexOf(a + [c] + b, c) == Some(|a|)
  {
    var s := a + [c] + b;
    var r := LastIndexOf(s, c);
    assert s[|a|] == c;
  }
}
