/** Digit strings and JavaScript's `parseInt(s, radix)` for the radixes the
    library uses (10 and 16), plus `Number.prototype.toString(radix)` on
    integers. */
module Numbers {
  import opened Wrappers
  import Strings

  predicate IsRadix(radix: nat) { radix == 10 || radix == 16 }

  function Pow(b: nat, e: nat): nat
  {
    if e == 0 then 1 else b * Pow(b, e - 1)
  }

  /** The value of `c` as a base-36 digit, the way `parseInt` reads it. */
  function DigitOf(c: char): Option<nat>
  {
    if '0' <= c <= '9' then Some(c as nat - '0' as nat)
    else if 'a' <= c <= 'z' then Some(c as nat - 'a' as nat + 10)
    else if 'A' <= c <= 'Z' then Some(c as nat - 'A' as nat + 10)
    else None
  }

  predicate IsDigit(c: char, radix: nat)
  {
    DigitOf(c).Some? && DigitOf(c).value < radix
  }

  predicate AllDigits(s: string, radix: nat)
  {
    forall i :: 0 <= i < |s| ==> IsDigit(s[i], radix)
  }

  /** The lower-case digit character `toString(16)` writes for `d`. */
  function DigitChar(d: nat): (c: char)
    requires d < 16
    ensures DigitOf(c) == Some(d)
    ensures !Strings.IsUpper(c)
  {
    if d < 10 then ('0' as nat + d) as char else ('a' as nat + d - 10) as char
  }

  /** The value of a digit string, most significant digit first. */
  function Value(s: string, radix: nat): nat
    requires AllDigits(s, radix)
  {
    if |s| == 0 then 0
    else Value(s[..|s| - 1], radix) * radix + DigitOf(s[|s| - 1]).value
  }

  /** `n.toString(radix)` for a non-negative integer: no leading zeros. */
  function ToDigits(n: nat, radix: nat): (r: string)
    requires 2 <= radix <= 16
    ensures |r| >= 1
    ensures AllDigits(r, radix)
    ensures forall i :: 0 <= i < |r| ==> !Strings.IsUpper(r[i])
    decreases n
  {
    if n < radix then [DigitChar(n)]
    else
      DivShrinks(n, radix);
      ToDigits(n / radix, radix) + [DigitChar(n % radix)]
  }

  lemma DivShrinks(n: nat, d: nat)
    requires 2 <= d <= n
    ensures 0 < n / d < n && n % d < d
  {
    var q := n / d;
    assert n == q * d + n % d && n % d < d;
    AtLeastTwice(q, d);
  }

  lemma AtLeastTwice(q: nat, d: nat)
    requires d >= 2
    ensures q * d >= 2 * q
    ensures q == 0 <==> q * d == 0
  {
    assert q * d == q * (d - 2) + 2 * q;
  }

  lemma {:induction false} ValueOfToDigits(n: nat, radix: nat)
    requires 2 <= radix <= 16
    ensures Value(ToDigits(n, radix), radix) == n
    decreases n
  {
    if n < radix {
      var s := [DigitChar(n)];
      assert s[..0] == [];
    } else {
      var q, d := n / radix, n % radix;
      var t := ToDigits(q, radix);
      var s := t + [DigitChar(d)];
      assert ToDigits(n, radix) == s;
      DivDecreases(n, radix);
      ValueOfToDigits(q, radix);
      assert s[..|s| - 1] == t;
      assert Value(s, radix) == q * radix + d;
      DivMod(n, radix);
    }
  }

  lemma DivMod(n: nat, radix: nat)
    requires radix > 0
    ensures (n / radix) * radix + n % radix == n
  {
  }

  /** The digits of `n < radix^k` number at most `k`. */
  lemma {:induction false} ToDigitsLength(n: nat, radix: nat, k: nat)
    requires 2 <= radix <= 16
    requires 1 <= k && n < Pow(radix, k)
    ensures |ToDigits(n, radix)| <= k
    decreases n
  {
    if n >= radix {
      assert Pow(radix, 1) == radix * Pow(radix, 0) == radix;
      assert k >= 2;
      var p := Pow(radix, k - 1);
      assert Pow(radix, k) == radix * p;
      DivBound(n, radix, p);
      DivDecreases(n, radix);
      ToDigitsLength(n / radix, radix, k - 1);
    }
  }

  lemma DivDecreases(n: nat, radix: nat)
    requires radix >= 2 && n >= 1
    ensures n / radix < n
  {
    DivMod(n, radix);
    if n / radix >= n {
      MulMono(n / radix, 2, radix);
    }
  }

  lemma DivBound(n: nat, radix: nat, p: nat)
    requires radix > 0 && n < radix * p
    ensures n / radix < p
  {
    DivMod(n, radix);
    if n / radix >= p {
      MulMono(radix, p, n / radix);
    }
  }

  lemma MulMono(a: nat, p: nat, q: nat)
    requires p <= q
    ensures a * p <= a * q
  {
  }

  lemma {:induction false} ValueAppend(a: string, b: string, radix: nat)
    requires AllDigits(a, radix) && AllDigits(b, radix)
    ensures AllDigits(a + b, radix)
    ensures Value(a + b, radix) == Value(a, radix) * Pow(radix, |b|) + Value(b, radix)
    decreases |b|
  {
    var s := a + b;
    if |b| == 0 {
      assert s == a;
    } else {
      var b' := b[..|b| - 1];
      var d := DigitOf(b[|b| - 1]).value;
      assert s[..|s| - 1] == a + b';
      assert s[|s| - 1] == b[|b| - 1];
      ValueAppend(a, b', radix);
      var va, vb', p := Value(a, radix), Value(b', radix), Pow(radix, |b'|);
      assert Value(s, radix) == (va * p + vb') * radix + d;
      assert Value(b, radix) == vb' * radix + d;
      assert Pow(radix, |b|) == radix * p;
      Distrib(va, p, vb', radix);
    }
  }

  lemma Distrib(a: nat, p: nat, b: nat, r: nat)
    ensures (a * p + b) * r == a * (r * p) + b * r
  {
  }

  function Zeros(k: nat): (r: string)
    ensures |r| == k
    ensures forall i :: 0 <= i < k ==> r[i] == '0'
  {
    if k == 0 then [] else "0" + Zeros(k - 1)
  }

  lemma {:induction false} ZerosValue(k: nat, radix: nat)
    requires radix >= 2
    ensures AllDigits(Zeros(k), radix) && Value(Zeros(k), radix) == 0
  {
    if k > 0 {
      assert Zeros(k)[..k - 1] == Zeros(k - 1);
      ZerosValue(k - 1, radix);
    }
  }

  /** Leading zeros do not change a digit string's value. */
  lemma LeadingZeros(k: nat, s: string, radix: nat)
    requires radix >= 2 && AllDigits(s, radix)
    ensures AllDigits(Zeros(k) + s, radix)
    ensures Value(Zeros(k) + s, radix) == Value(s, radix)
  {
    ZerosValue(k, radix);
    ValueAppend(Zeros(k), s, radix);
  }

  /** `n.toString(10)` for any integer. */
  function DecimalString(n: int): string
  {
    if n < 0 then "-" + ToDigits(-n, 10) else ToDigits(n, 10)
  }

  /** `n.toString(16)` for any integer. */
  function HexString(n: int): string
  {
    if n < 0 then "-" + ToDigits(-n, 16) else ToDigits(n, 16)
  }

  /** The whitespace `parseInt` skips (ASCII part of StrWhiteSpaceChar). */
  predicate IsSpace(c: char)
  {
    c == ' ' || c == '\t' || c == '\n' || c == '\r' || c == '\U{B}' || c == '\U{C}'
  }

  function TrimStart(s: string): (r: string)
    ensures |r| <= |s|
    ensures |r| > 0 ==> !IsSpace(r[0])
  {
    if |s| > 0 && IsSpace(s[0]) then TrimStart(s[1..]) else s
  }

  /** The number of leading characters of `s` that are digits in `radix`. */
  function DigitRun(s: string, radix: nat): (k: nat)
    ensures k <= |s|
    ensures AllDigits(s[..k], radix)
    ensures k < |s| ==> !IsDigit(s[k], radix)
  {
    if |s| > 0 && IsDigit(s[0], radix) then
      var k := 1 + DigitRun(s[1..], radix);
      assert s[..k] == [s[0]] + s[1..][..k - 1];
      k
    else 0
  }

  /** The unsigned part of `parseInt`: optional `0x` for radix 16, then the
      longest run of digits; `None` (NaN) when there is no digit. */
  function ParseDigits(t: string, radix: nat): Option<nat>
    requires IsRadix(radix)
  {
    var u := if radix == 16 && (Strings.StartsWith(t, "0x") || Strings.StartsWith(t, "0X")) then t[2..] else t;
    var k := DigitRun(u, radix);
    if k == 0 then None else Some(Value(u[..k], radix))
  }

  /** `parseInt(s, radix)`: `None` stands for NaN. */
  function ParseInt(s: string, radix: nat): (r: Option<int>)
    requires IsRadix(radix)
  {
    var t := TrimStart(s);
    if |t| > 0 && t[0] == '-' then
      match ParseDigits(t[1..], radix)
      case Some(v) => Some(-(v as int))
      case None => None
    else if |t| > 0 && t[0] == '+' then
      match ParseDigits(t[1..], radix)
      case Some(v) => Some(v)
      case None => None
    else
      match ParseDigits(t, radix)
      case Some(v) => Some(v)
      case None => None
  }

  lemma DigitRunAll(s: string, radix: nat)
    requires AllDigits(s, radix)
    ensures DigitRun(s, radix) == |s|
  {
    if |s| > 0 {
      assert AllDigits(s[1..], radix);
      DigitRunAll(s[1..], radix);
    }
  }

  /** A whole string of digits parses to its value. */
  lemma ParseAllDigits(s: string, radix: nat)
    requires IsRadix(radix) && |s| > 0 && AllDigits(s, radix)
    requires !(radix == 16 && |s| >= 2 && s[0] == '0' && (s[1] == 'x' || s[1] == 'X'))
    ensures ParseInt(s, radix) == Some(Value(s, radix))
  {
    assert IsDigit(s[0], radix);
    assert !IsSpace(s[0]) && s[0] != '-' && s[0] != '+';
    assert TrimStart(s) == s;
    assert !Strings.StartsWith(s, "0x") && !Strings.StartsWith(s, "0X");
    DigitRunAll(s, radix);
    assert s[..|s|] == s;
  }

  /** `parseInt(String(n), 10) === n` for every integer `n`. */
  lemma ParseDecimalString(n: int)
    ensures ParseInt(DecimalString(n), 10) == Some(n)
  {
    if n < 0 {
      var d := ToDigits(-n, 10);
      var s := "-" + d;
      assert TrimStart(s) == s;
      assert s[1..] == d;
      DigitRunAll(d, 10);
      assert d[..|d|] == d;
      ValueOfToDigits(-n, 10);
    } else {
      ParseAllDigits(ToDigits(n, 10), 10);
      ValueOfToDigits(n, 10);
    }
  }
}
