/**
  The two number conversions the query codec relies on: `parseInt(s, 10)`
  (section 19.2.5 of ECMA-262) and `Number.prototype.toString()` on an integer.
  Numbers are mathematical integers here; NaN is `None`.
*/
module JsNumber {
  import opened Wrappers
  import opened Text

  predicate IsDigit(c: char) {
    '0' <= c <= '9'
  }

  predicate AllDigits(s: string) {
    forall i :: 0 <= i < |s| ==> IsDigit(s[i])
  }

  function DigitValue(c: char): nat
    requires IsDigit(c)
  {
    c as int - '0' as int
  }

  function DigitChar(d: nat): (c: char)
    requires d < 10
    ensures IsDigit(c) && DigitValue(c) == d
  {
    ('0' as int + d) as char
  }

  /** Length of the longest prefix of `s` made of decimal digits. */
  function DigitPrefixLength(s: string): (n: nat)
    ensures n <= |s| && AllDigits(s[..n])
    ensures n == |s| || !IsDigit(s[n])
  {
    if |s| > 0 && IsDigit(s[0]) then 1 + DigitPrefixLength(s[1..]) else 0
  }

  /** The value of a string of decimal digits, most significant first. */
  function DecimalValue(ds: string): nat
    requires AllDigits(ds)
  {
    if |ds| == 0 then 0 else DecimalValue(ds[..|ds| - 1]) * 10 + DigitValue(ds[|ds| - 1])
  }

  /** `s` after leading white space and at most one sign character. */
  function Unsigned(s: string): string {
    var t := TrimStart(s);
    if |t| > 0 && (t[0] == '-' || t[0] == '+') then t[1..] else t
  }

  /** Whether the sign character after the leading white space is `-`. */
  predicate Negative(s: string) {
    var t := TrimStart(s);
    |t| > 0 && t[0] == '-'
  }

  /** `parseInt(s, 10)`: skip leading white space, read an optional sign, then
      the longest run of decimal digits; NaN (`None`) when there is no digit.
      What follows the digits is ignored. (The sign of a zero is not kept.) */
  function ParseInt(s: string): (r: Option<int>)
    ensures r.None? <==> DigitPrefixLength(Unsigned(s)) == 0
    ensures r.Some? ==> var u := Unsigned(s); var n := DigitPrefixLength(u);
      r.value == (if Negative(s) then 0 - DecimalValue(u[..n]) else DecimalValue(u[..n]))
  {
    var u := Unsigned(s);
    var n := DigitPrefixLength(u);
    if n == 0 then None
    else
      var magnitude: int := DecimalValue(u[..n]);
      Some(if Negative(s) then -magnitude else magnitude)
  }

  /** The decimal digits of `n`, without leading zeros. */
  function NatToString(n: nat): (r: string)
    ensures |r| >= 1 && AllDigits(r) && DecimalValue(r) == n
    ensures |r| > 1 ==> r[0] != '0'
  {
    if n < 10 then [DigitChar(n)]
    else
      var p := NatToString(n / 10);
      var r := p + [DigitChar(n % 10)];
      assert r[..|r| - 1] == p;
      r
  }

  /** `Number.prototype.toString()` of an integer whose magnitude is below 10^21
      (larger ones use exponent notation, which is not modelled). */
  function IntToString(i: int): (r: string)
    ensures |r| >= 1
  {
    if i < 0 then "-" + NatToString(-i) else NatToString(i)
  }

  /** A string of digits is read in full. */
  lemma {:induction false} DigitPrefixOfDigits(s: string)
    requires AllDigits(s)
    ensures DigitPrefixLength(s) == |s|
  {
    if |s| > 0 {
      DigitPrefixOfDigits(s[1..]);
    }
  }

  /** `parseInt(String(i), 10) === i` for every integer `i`. */
  lemma ParseIntOfIntToString(i: int)
    ensures ParseInt(IntToString(i)) == Some(i)
  {
    var s := IntToString(i);
    assert !IsJsSpace(s[0]);
    assert TrimStart(s) == s;
    var u := Unsigned(s);
    if i < 0 {
      assert u == NatToString(-i);
    } else {
      assert u == NatToString(i);
    }
    DigitPrefixOfDigits(u);
    assert u[..|u|] == u;
  }

  /** The longest-prefix rule: digits followed by a non-digit read as the digits alone. */
  lemma ParseIntStopsAtNonDigit(ds: string, rest: string)
    requires |ds| >= 1 && AllDigits(ds) && !IsJsSpace(ds[0])
    requires rest == [] || !IsDigit(rest[0])
    ensures ParseInt(ds + rest) == Some(DecimalValue(ds))
  {
    var s := ds + rest;
    assert s[0] == ds[0];
    assert TrimStart(s) == s;
    assert Unsigned(s) == s;
    DigitPrefixOfDigits(ds);
    PrefixLengthOfConcat(ds, rest);
    assert s[..|ds|] == ds;
  }

  lemma {:induction false} PrefixLengthOfConcat(ds: string, rest: string)
    requires AllDigits(ds)
    requires rest == [] || !IsDigit(rest[0])
    ensures DigitPrefixLength(ds + rest) == |ds|
  {
    if |ds| > 0 {
      assert (ds + rest)[1..] == ds[1..] + rest;
      PrefixLengthOfConcat(ds[1..], rest);
    } else {
      assert ds + rest == rest;
    }
  }

  /** No digits: NaN. */
  lemma ParseIntOfSignOnly()
    ensures ParseInt("") == None
    ensures ParseInt("-") == None
  {
    assert TrimStart("-") == "-";
    assert Unsigned("-") == "";
  }

  /** Leading white space and a sign are skipped. */
  lemma ParseIntExample()
    ensures ParseInt(" -7") == Some(-7)
  {
    var s := " -7";
    assert s[1..] == "-7";
    assert TrimStart("-7") == "-7";
    assert TrimStart(s) == "-7";
    assert Unsigned(s) == "7";
    assert DigitPrefixLength("7") == 1;
    assert "7"[..1] == "7";
    assert "7"[..0] == "";
  }
}
