/** `Iro` hex colour helpers: the 3- and 6-digit hex notations of section
    5.2 of CSS Color Module Level 4 (`#rgb`, `#rrggbb`), component and whole
    colour conversions. A JavaScript non-string argument is `None`. */
module Iro {
  import opened Wrappers
  import opened Numbers
  import Strings

  predicate IsHex(c: char) { IsDigit(c, 16) }

  /** `/^#?([a-f\d])([a-f\d])([a-f\d])$/i`: the three digits of a short form. */
  function Match3(s: string): (r: Option<string>)
    ensures r.Some? ==> |r.value| == 3 && AllDigits(r.value, 16)
    ensures r.Some? <==> (|s| == 3 && AllDigits(s, 16)) || (|s| == 4 && s[0] == '#' && AllDigits(s[1..], 16))
  {
    if |s| == 3 && AllDigits(s, 16) then Some(s)
    else if |s| == 4 && s[0] == '#' && AllDigits(s[1..], 16) then Some(s[1..])
    else None
  }

  /** `/^#?([a-f\d]{2})([a-f\d]{2})([a-f\d]{2})$/i`: the six digits of a long form. */
  function Match6(s: string): (r: Option<string>)
    ensures r.Some? ==> |r.value| == 6 && AllDigits(r.value, 16)
    ensures r.Some? <==> (|s| == 6 && AllDigits(s, 16)) || (|s| == 7 && s[0] == '#' && AllDigits(s[1..], 16))
  {
    if |s| == 6 && AllDigits(s, 16) then Some(s)
    else if |s| == 7 && s[0] == '#' && AllDigits(s[1..], 16) then Some(s[1..])
    else None
  }

  /** The long form `#rrggbb`: `#` and six hex digits. */
  predicate Full(s: string)
  {
    |s| == 7 && s[0] == '#' && AllDigits(s[1..], 16)
  }

  /** `shorthand`: a short form (with or without `#`) is expanded by doubling
      each digit; the result is prefixed with `#` unless it is already seven
      characters long. */
  function Shorthand(hex: Option<string>): (r: Option<string>)
    ensures r.Some? <==> hex.Some?
    ensures hex.Some? && Match3(hex.value).Some? ==> Full(r.value)
    ensures hex.Some? && Match3(hex.value).None? && |hex.value| == 7 ==> r.value == hex.value
    ensures hex.Some? && |hex.value| != 7 && Match3(hex.value).None? ==> r.value == "#" + hex.value
  {
    match hex
    case None => None
    case Some(s) =>
      var color := match Match3(s)
        case Some(d) => [d[0], d[0], d[1], d[1], d[2], d[2]]
        case None => s;
      Some(if |color| == 7 then color else "#" + color)
  }

  datatype Rgb = Rgb(r: int, g: int, b: int)

  /** The value of a two-digit hex pair, as `parseInt(pair, 16)` reads it. */
  function Pair(d: string, i: nat): (v: nat)
    requires i + 2 <= |d| && AllDigits(d, 16)
    ensures v < 256
  {
    assert AllDigits(d[i..i + 2], 16);
    TwoDigits(d[i..i + 2]);
    Value(d[i..i + 2], 16)
  }

  lemma TwoDigits(x: string)
    requires |x| == 2 && AllDigits(x, 16)
    ensures Value(x, 16) == DigitOf(x[0]).value * 16 + DigitOf(x[1]).value
  {
    var h := x[..1];
    assert h == [x[0]] && h[..0] == [];
    assert AllDigits(h, 16);
    assert Value(h, 16) == DigitOf(x[0]).value;
    assert x[|x| - 1] == x[1];
  }

  /** `hex2rgb`: null when `shorthand` gives null or its result is not a long
      form; otherwise the three pairs read in base 16. */
  function Hex2Rgb(hex: Option<string>): (r: Option<Rgb>)
    ensures r.Some? ==> 0 <= r.value.r < 256 && 0 <= r.value.g < 256 && 0 <= r.value.b < 256
    ensures hex.Some? && Full(hex.value) ==> r.Some?
  {
    match Shorthand(hex)
    case None => None
    case Some(hs) =>
      match Match6(hs)
      case None => None
      case Some(d) => Some(Rgb(Pair(d, 0), Pair(d, 2), Pair(d, 4)))
  }

  /** `int16`: `n.toString(16)`, left-padded with one `0` when it is a single digit. */
  function Int16(n: int): (r: string)
    ensures 0 <= n < 256 ==> |r| == 2 && AllDigits(r, 16) && Value(r, 16) == n
    ensures 0 <= n < 256 ==> forall i :: 0 <= i < |r| ==> !Strings.IsUpper(r[i])
  {
    var hex := HexString(n);
    assert 0 <= n < 256 ==> AllDigits(hex, 16) && Value(hex, 16) == n && |hex| <= 2 by {
      if 0 <= n < 256 {
        ValueOfToDigits(n, 16);
        assert Pow(16, 2) == 256 by { assert Pow(16, 1) == 16 * Pow(16, 0); }
        ToDigitsLength(n, 16, 2);
      }
    }
    assert 0 <= n < 256 && |hex| == 1 ==> Value("0" + hex, 16) == n by {
      if 0 <= n < 256 && |hex| == 1 {
        LeadingZeros(1, hex, 16);
        assert Zeros(1) == "0";
      }
    }
    if |hex| == 1 then "0" + hex else hex
  }

  /** `rgb2hex`: `#` and the three two-digit components. */
  function Rgb2Hex(r: int, g: int, b: int): (s: string)
    ensures 0 <= r < 256 && 0 <= g < 256 && 0 <= b < 256 ==> Full(s)
  {
    var d := Int16(r) + Int16(g) + Int16(b);
    if 0 <= r < 256 && 0 <= g < 256 && 0 <= b < 256 then
      SixDigits(Int16(r), Int16(g), Int16(b));
      HashFull(d);
      "#" + d
    else "#" + d
  }

  /** A component survives being written as two digits and read back. */
  lemma PairOfInt16(a: string, b: string, c: string)
    requires |a| == 2 && |b| == 2 && |c| == 2
    requires AllDigits(a, 16) && AllDigits(b, 16) && AllDigits(c, 16)
    ensures AllDigits(a + b + c, 16)
    ensures Pair(a + b + c, 0) == Value(a, 16)
    ensures Pair(a + b + c, 2) == Value(b, 16)
    ensures Pair(a + b + c, 4) == Value(c, 16)
  {
    var d := a + b + c;
    assert d[0..2] == a && d[2..4] == b && d[4..6] == c;
  }

  /** `hex2rgb(rgb2hex(r, g, b))` gives the components back. */
  lemma Hex2RgbOfRgb2Hex(r: int, g: int, b: int)
    requires 0 <= r < 256 && 0 <= g < 256 && 0 <= b < 256
    ensures Hex2Rgb(Some(Rgb2Hex(r, g, b))) == Some(Rgb(r, g, b))
  {
    var s := Rgb2Hex(r, g, b);
    var x, y, z := Int16(r), Int16(g), Int16(b);
    assert s[1..] == x + y + z;
    assert Shorthand(Some(s)) == Some(s);
    assert Match6(s) == Some(x + y + z);
    PairOfInt16(x, y, z);
  }

  /** Section 5.2 of CSS Color Module Level 4: `#rgb` is `#rrggbb` with each
      digit doubled, so each component is 17 times its digit. */
  lemma ShortForm(a: char, b: char, c: char)
    requires IsHex(a) && IsHex(b) && IsHex(c)
    ensures Hex2Rgb(Some(['#', a, b, c])) == Hex2Rgb(Some(['#', a, a, b, b, c, c]))
    ensures Hex2Rgb(Some(['#', a, b, c])) == Some(Rgb(17 * DigitOf(a).value, 17 * DigitOf(b).value, 17 * DigitOf(c).value))
  {
    var s := ['#', a, b, c];
    var l := ['#', a, a, b, b, c, c];
    var d := l[1..];
    assert Match3(s) == Some([a, b, c]);
    assert "#" + [a, a, b, b, c, c] == l;
    assert Shorthand(Some(s)) == Some(l);
    assert Match3(l).None?;
    assert Shorthand(Some(l)) == Some(l);
    assert Match6(l) == Some(d);
    assert d[0..2] == [a, a] && d[2..4] == [b, b] && d[4..6] == [c, c];
    TwoDigits([a, a]);
    TwoDigits([b, b]);
    TwoDigits([c, c]);
  }

  lemma HashFull(d: string)
    requires |d| == 6 && AllDigits(d, 16)
    ensures Full("#" + d)
  {
    assert ("#" + d)[1..] == d;
  }

  lemma SixDigits(x: string, y: string, z: string)
    requires |x| == 2 && |y| == 2 && |z| == 2
    requires AllDigits(x, 16) && AllDigits(y, 16) && AllDigits(z, 16)
    ensures |x + y + z| == 6 && AllDigits(x + y + z, 16)
  {
    var d := x + y + z;
    forall i | 0 <= i < 6
      ensures IsDigit(d[i], 16)
    {
      if i < 2 {
        assert d[i] == x[i];
      } else if i < 4 {
        assert d[i] == y[i - 2];
      } else {
        assert d[i] == z[i - 4];
      }
    }
  }

  /** The hex text `int2hex` pads: `n.toString(16)` of `floor(n)`. */
  function Digits(n: int): string { HexString(n) }

  /** `int2hex`: the hex digits left-padded with `0` to six and prefixed
      with `#`. The padding loop counts `6 - length` down to zero, so it ends
      only when the digits number at most six. */
  method Int2Hex(n: int) returns (r: string)
    requires |Digits(n)| <= 6
    ensures |r| == 7 && r[0] == '#'
    ensures r[7 - |Digits(n)|..] == Digits(n)
    ensures forall i :: 1 <= i < 7 - |Digits(n)| ==> r[i] == '0'
    ensures n >= 0 ==> Full(r) && Value(r[1..], 16) == n
  {
    var hex := Digits(n);
    var length := |hex|;
    if length == 6 {
      assert hex == Zeros(0) + Digits(n);
    } else {
      var step := 6 - length;
      while step != 0
        invariant 0 <= step <= 6 - length
        invariant hex == Zeros(6 - length - step) + Digits(n)
      {
        assert "0" + (Zeros(6 - length - step) + Digits(n)) == Zeros(6 - length - step + 1) + Digits(n);
        hex := "0" + hex;
        step := step - 1;
      }
    }
    r := "#" + hex;
    PaddedForm(n);
  }

  /** The padded text `int2hex` builds: `#`, zeros up to six digits, the
      digits. */
  lemma PaddedForm(n: int)
    requires |Digits(n)| <= 6
    ensures var r := "#" + (Zeros(6 - |Digits(n)|) + Digits(n));
            |r| == 7 && r[0] == '#'
            && r[7 - |Digits(n)|..] == Digits(n)
            && (forall i :: 1 <= i < 7 - |Digits(n)| ==> r[i] == '0')
            && (n >= 0 ==> Full(r) && Value(r[1..], 16) == n)
  {
    var k := 6 - |Digits(n)|;
    var r := "#" + (Zeros(k) + Digits(n));
    assert r[1..] == Zeros(k) + Digits(n);
    if n >= 0 {
      LeadingZeros(k, Digits(n), 16);
      ValueOfToDigits(n, 16);
    }
  }

  /** Every colour number `int2hex` documents, 0 to 0xFFFFFF, has at most six
      hex digits, so the padding loop ends. */
  lemma Int2HexDomain(n: int)
    requires 0 <= n <= 0xFFFFFF
    ensures |Digits(n)| <= 6
  {
    assert Pow(16, 6) == 0x1000000 by {
      assert Pow(16, 1) == 16 * Pow(16, 0);
      assert Pow(16, 2) == 16 * Pow(16, 1);
      assert Pow(16, 3) == 16 * Pow(16, 2);
      assert Pow(16, 4) == 16 * Pow(16, 3);
      assert Pow(16, 5) == 16 * Pow(16, 4);
    }
    ToDigitsLength(n, 16, 6);
  }

  /** `parseInt` results: `Num`, or `NaN`; `Null` is `hex2int`'s null. */
  datatype Number = Null | NaN | Num(n: int)

  function OfParse(p: Option<int>): (r: Number)
    ensures r.Num? <==> p.Some?
  {
    match p
    case Some(v) => Num(v)
    case None => NaN
  }

  /** `s.replace(w, rep)` with a string pattern: only the first occurrence. */
  function ReplaceFirst(s: string, w: string, rep: string): (r: string)
    requires |w| > 0
    ensures !Strings.Contains(s, w) ==> r == s
    decreases |s|
  {
    if |s| == 0 then ""
    else if Strings.StartsWith(s, w) then rep + s[|w|..]
    else
      var t := ReplaceFirst(s[1..], w, rep);
      assert !Strings.Contains(s, w) ==> t == s[1..];
      assert [s[0]] + s[1..] == s;
      [s[0]] + t
  }

  /** `hex2int`: the `shorthand` result with its first `#` dropped, read in base 16. */
  function Hex2Int(hex: Option<string>): (r: Number)
    ensures r.Null? <==> hex.None?
  {
    match Shorthand(hex)
    case None => Null
    case Some(hs) => OfParse(ParseInt(ReplaceFirst(hs, "#", ""), 16))
  }

  /** `toInt`: the first `#` becomes `0x`, then the text is read in base 16. */
  function ToInt(hex: string): (r: Option<int>)
    ensures !Strings.Contains(hex, "#") ==> r == ParseInt(hex, 16)
    ensures Full(hex) ==> r == Some(Value(hex[1..], 16))
  {
    if Full(hex) then
      var d := hex[1..];
      assert Strings.StartsWith(hex, "#");
      var t := "0x" + d;
      assert ReplaceFirst(hex, "#", "0x") == t;
      assert !IsSpace(t[0]) && t[0] != '-' && t[0] != '+';
      assert TrimStart(t) == t;
      assert Strings.StartsWith(t, "0x");
      assert t[2..] == d;
      DigitRunAll(d, 16);
      assert d[..|d|] == d;
      ParseInt(ReplaceFirst(hex, "#", "0x"), 16)
    else ParseInt(ReplaceFirst(hex, "#", "0x"), 16)
  }

  /** Both readers give the six digits' value on a long form; with
      `Int2Hex`'s postcondition this is `hex2int(int2hex(n)) == n` for
      0 <= n <= 0xFFFFFF, and `toInt` agrees. */
  lemma FullHexValue(s: string)
    requires Full(s)
    ensures Hex2Int(Some(s)) == Num(Value(s[1..], 16))
    ensures ToInt(s) == Some(Value(s[1..], 16))
  {
    var d := s[1..];
    assert Shorthand(Some(s)) == Some(s);
    assert Strings.StartsWith(s, "#");
    assert ReplaceFirst(s, "#", "") == d;
    assert IsHex(d[1]);
    ParseAllDigits(d, 16);
  }

  /** On a short form `hex2int` reads the doubled digits. */
  lemma ShortHex2Int(a: char, b: char, c: char)
    requires IsHex(a) && IsHex(b) && IsHex(c)
    ensures Hex2Int(Some(['#', a, b, c])) == Hex2Int(Some(['#', a, a, b, b, c, c]))
  {
    var s := ['#', a, b, c];
    var l := ['#', a, a, b, b, c, c];
    assert Match3(s) == Some([a, b, c]);
    assert "#" + [a, a, b, b, c, c] == l;
    assert Shorthand(Some(s)) == Some(l);
    assert Match3(l).None?;
    assert Shorthand(Some(l)) == Some(l);
  }
}
