/**
 * Decimal rendering of integers, as JavaScript's template literals and
 * `toString()` print them (no exponent form: every integer here is far
 * below 10^21), together with a parser that inverts it. The parser reads
 * only the canonical spellings, with no leading zeros and no "-0", so a
 * string parses to an integer exactly when it is that integer's rendering.
 */
module Decimal {
  import opened Common

  predicate IsDigit(c: char) {
    '0' <= c <= '9'
  }

  predicate AllDigits(s: string) {
    forall i :: 0 <= i < |s| ==> IsDigit(s[i])
  }

  function DigitValue(c: char): nat
    requires IsDigit(c)
  {
    c as int - '0' as int
  }

  function DigitChar(d: nat): (c: char)
    requires d < 10
    ensures IsDigit(c) && DigitValue(c) == d
  {
    ('0' as int + d) as char
  }

  /** The digits of `n`, most significant first, without leading zeros. */
  function NatToString(n: nat): (s: string)
    ensures 1 <= |s|
    ensures AllDigits(s)
    ensures s[0] == '0' ==> n == 0 && s == "0"
    decreases n
  {
    if n < 10 then [DigitChar(n)] else NatToString(n / 10) + [DigitChar(n % 10)]
  }

  /** `String(x)` for an integer `x`: a minus sign, then the digits of `|x|`. */
  function IntToString(x: int): (s: string)
    ensures 1 <= |s|
    ensures s[0] == '-' <==> x < 0
    ensures x >= 0 ==> IsDigit(s[0])
    ensures forall i :: 0 < i < |s| ==> IsDigit(s[i])
  {
    if x < 0 then "-" + NatToString(-x) else NatToString(x)
  }

  /** The number a string of digits denotes. */
  function DigitsValue(s: string): nat
    requires AllDigits(s)
    decreases |s|
  {
    if |s| == 0 then 0 else DigitsValue(s[..|s| - 1]) * 10 + DigitValue(s[|s| - 1])
  }

  /** A non-empty run of digits that starts with '0' only when it is "0". */
  predicate Canonical(s: string) {
    |s| > 0 && AllDigits(s) && (s[0] != '0' || |s| == 1)
  }

  /** Reads a canonical run of digits. */
  function ParseNat(s: string): Option<nat> {
    if Canonical(s) then Some(DigitsValue(s)) else None
  }

  /** Reads an optional minus sign followed by a canonical run of digits; "-0" is refused. */
  function ParseInt(s: string): Option<int> {
    if |s| > 0 && s[0] == '-' then
      match ParseNat(s[1..])
      case None => None
      case Some(n) => if n == 0 then None else Some(0 - n as int)
    else
      ParseNat(s)
  }

  lemma {:induction false} NatToStringValue(n: nat)
    ensures DigitsValue(NatToString(n)) == n
    decreases n
  {
    if n >= 10 {
      var s := NatToString(n);
      assert s[..|s| - 1] == NatToString(n / 10);
      NatToStringValue(n / 10);
    }
  }

  /** Parsing the rendering of a natural number gives the number back. */
  lemma ParseNatToString(n: nat)
    ensures ParseNat(NatToString(n)) == Some(n)
  {
    NatToStringValue(n);
  }

  /** Parsing the rendering of an integer gives the integer back. */
  lemma ParseIntToString(x: int)
    ensures ParseInt(IntToString(x)) == Some(x)
  {
    var s := IntToString(x);
    if x < 0 {
      assert s[1..] == NatToString(-x);
      ParseNatToString(-x);
    } else {
      ParseNatToString(x);
    }
  }

  /** A run of digits led by a non-zero digit denotes a positive number. */
  lemma {:induction false} LeadingDigitPositive(s: string)
    requires |s| > 0 && AllDigits(s) && s[0] != '0'
    ensures DigitsValue(s) > 0
    decreases |s|
  {
    if |s| > 1 {
      LeadingDigitPositive(s[..|s| - 1]);
    }
  }

  /** A string that parses as a natural number is that number's rendering. */
  lemma {:induction false} NatToStringOfParse(s: string)
    requires ParseNat(s).Some?
    ensures s == NatToString(ParseNat(s).value)
    decreases |s|
  {
    var n := DigitsValue(s);
    var last := s[|s| - 1];
    if |s| > 1 {
      var p := s[..|s| - 1];
      LeadingDigitPositive(p);
      assert ParseNat(p) == Some(DigitsValue(p));
      NatToStringOfParse(p);
      assert n / 10 == DigitsValue(p) && n % 10 == DigitValue(last);
      assert DigitChar(DigitValue(last)) == last;
      assert s == p + [last];
    } else {
      assert |s| == 1;
      assert DigitsValue(s[..0]) == 0;
      assert n == DigitsValue(s[..0]) * 10 + DigitValue(last);
      assert DigitChar(DigitValue(last)) == last;
      assert s == [last];
    }
  }

  /** A string that parses as an integer is that integer's rendering: the parser reads only renderings. */
  lemma IntToStringOfParse(s: string)
    requires ParseInt(s).Some?
    ensures s == IntToString(ParseInt(s).value)
  {
    if |s| > 0 && s[0] == '-' {
      NatToStringOfParse(s[1..]);
      assert s == "-" + s[1..];
    } else {
      NatToStringOfParse(s);
    }
  }
}
