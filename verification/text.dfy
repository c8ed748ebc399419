/** `Text`: kebab/camel case conversion, word replacement and the `&` /
    `&amp;` escaping pair. Case mapping is the ASCII one of `Strings`. */
module Text {
  import opened Strings

  /** No capital letter anywhere. */
  predicate NoUpper(s: string)
  {
    forall i :: 0 <= i < |s| ==> !IsUpper(s[i])
  }

  /** No hyphen immediately followed by a lower-case letter: the pattern
      `camel` rewrites. */
  predicate NoHyphenLower(s: string)
  {
    forall i :: 0 <= i < |s| - 1 ==> !(s[i] == '-' && IsLower(s[i + 1]))
  }

  /** What `dash` makes of one character: a capital becomes `-` and its
      lower-case letter, anything else is kept (lower-casing leaves it alone). */
  function DashChar(c: char): (r: string)
    ensures NoUpper(r)
    ensures IsUpper(c) ==> r == ['-', LowerChar(c)]
    ensures !IsUpper(c) ==> r == [c]
  {
    if IsUpper(c) then ['-', LowerChar(c)] else [LowerChar(c)]
  }

  /** `str.replace(/([A-Z])/g, '-$1').toLowerCase()`. */
  function Dash(s: string): (r: string)
    ensures NoUpper(r)
    ensures |r| >= |s|
    ensures NoUpper(s) ==> r == s
  {
    if |s| == 0 then "" else DashChar(s[0]) + Dash(s[1..])
  }

  /** `str.replace(/-([a-z])/g, g => g[1].toUpperCase())`: matches are found
      left to right and do not overlap; a hyphen not followed by a-z stays. */
  function Camel(s: string): (r: string)
    ensures |r| <= |s|
    ensures |s| > 0 ==> |r| > 0 && (IsLower(r[0]) ==> r[0] == s[0])
    ensures NoHyphenLower(r)
  {
    if |s| == 0 then ""
    else if |s| >= 2 && s[0] == '-' && IsLower(s[1]) then [UpperChar(s[1])] + Camel(s[2..])
    else [s[0]] + Camel(s[1..])
  }

  lemma DashCons(c: char, s: string)
    ensures Dash([c] + s) == DashChar(c) + Dash(s)
  {
    assert ([c] + s)[1..] == s;
  }

  /** `dash` works character by character, so it distributes over concatenation. */
  lemma {:induction false} DashAppend(a: string, b: string)
    ensures Dash(a + b) == Dash(a) + Dash(b)
    decreases |a|
  {
    if |a| > 0 {
      DashAppend(a[1..], b);
      assert (a + b)[1..] == a[1..] + b;
    } else {
      assert a + b == b;
    }
  }

  /** `dash` undoes `camel` exactly on the strings without capitals. */
  lemma {:induction false} DashCamel(s: string)
    ensures Dash(Camel(s)) == s <==> NoUpper(s)
    decreases |s|
  {
    if NoUpper(s) {
      DashCamelNoUpper(s);
    } else {
      assert NoUpper(Dash(Camel(s)));
    }
  }

  lemma {:induction false} DashCamelNoUpper(s: string)
    requires NoUpper(s)
    ensures Dash(Camel(s)) == s
    decreases |s|
  {
    if |s| == 0 {
    } else if |s| >= 2 && s[0] == '-' && IsLower(s[1]) {
      DashCamelNoUpper(s[2..]);
      DashCons(UpperChar(s[1]), Camel(s[2..]));
      assert s == ['-', s[1]] + s[2..];
    } else {
      DashCamelNoUpper(s[1..]);
      DashCons(s[0], Camel(s[1..]));
      assert s == [s[0]] + s[1..];
    }
  }

  /** `camel` undoes `dash` exactly on the strings with no hyphen before a
      lower-case letter; in particular on every string without `-`. */
  lemma CamelDash(s: string)
    ensures Camel(Dash(s)) == s <==> NoHyphenLower(s)
  {
    if NoHyphenLower(s) {
      CamelDashClean(s);
    }
  }

  lemma {:induction false} CamelDashClean(s: string)
    requires NoHyphenLower(s)
    ensures Camel(Dash(s)) == s
    decreases |s|
  {
    if |s| > 0 {
      var rest := Dash(s[1..]);
      assert NoHyphenLower(s[1..]);
      CamelDashClean(s[1..]);
      assert Dash(s) == DashChar(s[0]) + rest;
      if IsUpper(s[0]) {
        CamelUpperStep(s[0], rest);
      } else {
        CamelKeptStep(s, rest);
      }
      assert [s[0]] + s[1..] == s;
    }
  }

  /** A capital's hyphen pair turns back into the capital. */
  lemma CamelUpperStep(c: char, rest: string)
    requires IsUpper(c)
    ensures Camel(['-', LowerChar(c)] + rest) == [c] + Camel(rest)
  {
    var d := ['-', LowerChar(c)] + rest;
    assert d[0] == '-' && d[1] == LowerChar(c) && d[2..] == rest;
    assert UpperChar(LowerChar(c)) == c;
  }

  /** Any other first character is kept, since what follows a hyphen in a
      clean text never dashes to a lower-case letter. */
  lemma CamelKeptStep(s: string, rest: string)
    requires |s| > 0 && !IsUpper(s[0]) && NoHyphenLower(s) && rest == Dash(s[1..])
    ensures Camel([s[0]] + rest) == [s[0]] + Camel(rest)
  {
    var d := [s[0]] + rest;
    assert d[1..] == rest;
    if s[0] == '-' && |d| >= 2 {
      assert |s| >= 2;
      assert !IsLower(s[1]);
      assert s[1..] == [s[1]] + s[2..];
      DashCons(s[1], s[2..]);
      assert d[1] == DashChar(s[1])[0];
    }
  }

  lemma CamelDashNoHyphen(s: string)
    requires '-' !in s
    ensures Camel(Dash(s)) == s
  {
    CamelDash(s);
  }

  /** `targetText.split('')`: the text's characters, one per piece. */
  function Chars(s: string): (r: seq<string>)
    ensures |r| == |s|
    ensures forall i :: 0 <= i < |s| ==> r[i] == [s[i]]
  {
    if |s| == 0 then [] else [[s[0]]] + Chars(s[1..])
  }

  /** `targetText.split(targetWord).join(replaceWord)`. An empty word splits
      the text into its characters, so the replacement is put between them;
      a non-empty word has every leftmost non-overlapping occurrence
      substituted, scanning from the left. */
  function Replace(s: string, w: string, rep: string): (r: string)
    ensures |w| > 0 ==> r == ReplaceAll(s, w, rep)
    ensures |w| > 0 && |rep| <= |w| ==> |r| <= |s|
  {
    if |w| == 0 then Join(Chars(s), rep)
    else
      SplitJoinIsReplaceAll(s, w, rep);
      ReplaceAllShrinks(s, w, rep);
      Join(Split(s, w), rep)
  }

  /** Replacing a word by one no longer never lengthens the text. */
  lemma {:induction false} ReplaceAllShrinks(s: string, w: string, rep: string)
    requires |w| > 0
    ensures |rep| <= |w| ==> |ReplaceAll(s, w, rep)| <= |s|
    decreases |s|
  {
    if |s| > 0 {
      if StartsWith(s, w) {
        ReplaceAllShrinks(s[|w|..], w, rep);
      } else {
        ReplaceAllShrinks(s[1..], w, rep);
      }
    }
  }

  /** Replacing a one-character word by a text without that character
      leaves no occurrence of it. */
  lemma {:induction false} ReplaceAllClearsChar(s: string, c: char, rep: string)
    requires c !in rep
    ensures c !in ReplaceAll(s, [c], rep)
    decreases |s|
  {
    if |s| > 0 {
      ReplaceAllClearsChar(s[1..], c, rep);
      if !StartsWith(s, [c]) {
        assert s[0] != c;
      }
    }
  }

  /** Replacing an absent word changes nothing. */
  lemma {:induction false} ReplaceAbsent(s: string, w: string, rep: string)
    requires |w| > 0 && !Contains(s, w)
    ensures Replace(s, w, rep) == s
    decreases |s|
  {
    ReplaceAllAbsent(s, w, rep);
  }

  lemma {:induction false} ReplaceAllAbsent(s: string, w: string, rep: string)
    requires |w| > 0 && !Contains(s, w)
    ensures ReplaceAll(s, w, rep) == s
    decreases |s|
  {
    if |s| > 0 {
      ReplaceAllAbsent(s[1..], w, rep);
      assert [s[0]] + s[1..] == s;
    }
  }

  /** An empty word with an empty replacement returns the text itself. */
  lemma {:induction false} ReplaceEmptyWord(s: string)
    ensures Replace(s, "", "") == s
    decreases |s|
  {
    if |s| > 1 {
      ReplaceEmptyWord(s[1..]);
      assert Chars(s) == [[s[0]]] + Chars(s[1..]);
      JoinCons([s[0]], Chars(s[1..]), "");
      assert [s[0]] + s[1..] == s;
    }
  }

  /** `remove(targetText, targetWord)`: every occurrence of a non-empty word
      is deleted, so the text never grows, and a one-character word is gone
      from the result. */
  function Remove(s: string, w: string): (r: string)
    ensures |w| > 0 ==> r == ReplaceAll(s, w, "") && |r| <= |s|
    ensures |w| == 1 ==> w[0] !in r
  {
    if |w| == 1 then
      assert w == [w[0]];
      ReplaceAllClearsChar(s, w[0], "");
      Replace(s, w, "")
    else Replace(s, w, "")
  }

  const AmpEntity := "&amp;"

  /** `amp`: every `&` becomes `&amp;`; a text without `&` is unchanged. */
  function Amp(s: string): (r: string)
    ensures r == ReplaceAll(s, "&", AmpEntity)
    ensures '&' !in s ==> r == s
  {
    if '&' !in s then
      AbsentChar(s, '&');
      ReplaceAllAbsent(s, "&", AmpEntity);
      Replace(s, "&", AmpEntity)
    else Replace(s, "&", AmpEntity)
  }

  /** `and`: every `&amp;` becomes `&`, so the text never grows. */
  function And(s: string): (r: string)
    ensures r == ReplaceAll(s, AmpEntity, "&")
    ensures |r| <= |s|
  {
    Replace(s, AmpEntity, "&")
  }

  lemma {:induction false} AbsentChar(s: string, c: char)
    requires c !in s
    ensures !Contains(s, [c])
    decreases |s|
  {
    if |s| > 0 {
      assert s[0] != c;
      AbsentChar(s[1..], c);
    }
  }

  /** `and` undoes `amp` on every string. */
  lemma AndAmp(s: string)
    ensures And(Amp(s)) == s
  {
    UnescapeEscape(s);
  }

  lemma {:induction false} UnescapeEscape(s: string)
    ensures ReplaceAll(ReplaceAll(s, "&", AmpEntity), AmpEntity, "&") == s
    decreases |s|
  {
    if |s| > 0 {
      var rest := ReplaceAll(s[1..], "&", AmpEntity);
      UnescapeEscape(s[1..]);
      if s[0] == '&' {
        assert StartsWith(s, "&");
        assert s[1..] == s[|"&"|..];
        var e := AmpEntity + rest;
        assert StartsWith(e, AmpEntity);
        assert e[|AmpEntity|..] == rest;
      } else {
        assert !StartsWith(s, "&");
        var e := [s[0]] + rest;
        assert !StartsWith(e, AmpEntity);
        assert e[1..] == rest;
      }
      assert [s[0]] + s[1..] == s;
    }
  }
}
