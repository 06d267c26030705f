/**
 * Decimal numerals as the level names use them: ASCII digit runs, C#'s
 * `int.TryParse` (default integer style) and `ToString("D2")`.
 */
module Numerals {
  import opened Geometry
  import opened Wrappers

  predicate IsDigit(c: char) {
    '0' <= c <= '9'
  }

  predicate AllDigits(s: string) {
    forall i :: 0 <= i < |s| ==> IsDigit(s[i])
  }

  function DigitValue(c: char): nat
    requires IsDigit(c)
  {
    (c as int) - ('0' as int)
  }

  function DigitChar(d: nat): (c: char)
    requires d < 10
    ensures IsDigit(c) && DigitValue(c) == d
  {
    (('0' as int) + d) as char
  }

  /** The value of a digit string, most significant digit first; 0 for the empty string. */
  function DigitsValue(s: string): nat
    requires AllDigits(s)
  {
    if s == [] then 0 else 10 * DigitsValue(s[..|s| - 1]) + DigitValue(s[|s| - 1])
  }

  /** The decimal digits of `n`, without leading zeros ("0" for zero). */
  function Digits(n: nat): (s: string)
    ensures 1 <= |s| && AllDigits(s)
  {
    if n < 10 then [DigitChar(n)] else Digits(n / 10) + [DigitChar(n % 10)]
  }

  /** Reading back the digits of `n` gives `n`. */
  lemma {:induction false} DigitsRoundTrip(n: nat)
    ensures DigitsValue(Digits(n)) == n
  {
    if n >= 10 {
      DigitsRoundTrip(n / 10);
      var s := Digits(n);
      assert s[..|s| - 1] == Digits(n / 10);
    }
  }

  /** A leading zero does not change the value of a digit string. */
  lemma {:induction false} LeadingZero(s: string)
    requires AllDigits(s)
    ensures AllDigits(['0'] + s) && DigitsValue(['0'] + s) == DigitsValue(s)
  {
    var z := ['0'] + s;
    if s != [] {
      LeadingZero(s[..|s| - 1]);
      assert z[..|z| - 1] == ['0'] + s[..|s| - 1];
    }
  }

  /** `s` padded on the left with zeros to at least `width` characters; a digit string stays one. */
  function PadLeft(s: string, width: nat): (r: string)
    ensures |r| >= width && |r| >= |s|
    ensures AllDigits(s) ==> AllDigits(r)
    decreases width - |s|
  {
    if |s| >= width then s else PadLeft(['0'] + s, width)
  }

  /** Zero-padding keeps the value of a digit string. */
  lemma {:induction false} PadLeftValue(s: string, width: nat)
    requires AllDigits(s)
    ensures DigitsValue(PadLeft(s, width)) == DigitsValue(s)
    decreases width - |s|
  {
    if |s| < width {
      LeadingZero(s);
      PadLeftValue(['0'] + s, width);
    }
  }

  /**
   * C#'s `n.ToString("D2")`: a minus sign for negatives, then the digits of
   * |n| zero-padded to two; at least two characters, all digits after the
   * sign.
   */
  function FormatD2(n: int): (r: string)
    ensures |r| >= 2
    ensures n >= 0 ==> AllDigits(r)
    ensures n < 0 ==> r[0] == '-' && AllDigits(r[1..])
  {
    if n < 0 then "-" + PadLeft(Digits(-n), 2) else PadLeft(Digits(n), 2)
  }

  /**
   * C#'s `int.TryParse` with the default integer style: an optional sign,
   * then one or more ASCII digits; None when malformed or out of the
   * 32-bit range.
   */
  function TryParseInt(s: string): (r: Option<int>)
    ensures r.Some? ==> IsInt32(r.value)
  {
    if |s| > 0 && (s[0] == '-' || s[0] == '+') then
      var body := s[1..];
      if |body| == 0 || !AllDigits(body) then None
      else
        var v: int := if s[0] == '-' then 0 - (DigitsValue(body) as int) else DigitsValue(body) as int;
        if IsInt32(v) then Some(v) else None
    else if |s| == 0 || !AllDigits(s) then None
    else if DigitsValue(s) <= IntMax then Some(DigitsValue(s))
    else None
  }

  /** A non-negative 32-bit value formats as digits that parse back to it. */
  lemma FormatD2NonNegative(n: int)
    requires 0 <= n <= IntMax
    ensures TryParseInt(FormatD2(n)) == Some(n)
  {
    var s := PadLeft(Digits(n), 2);
    PadLeftValue(Digits(n), 2);
    DigitsRoundTrip(n);
    ParseDigits(s);
  }

  /** A negative 32-bit value formats as a minus sign and digits that parse back to it. */
  lemma FormatD2Negative(n: int)
    requires IntMin <= n < 0
    ensures TryParseInt(FormatD2(n)) == Some(n)
  {
    var body := PadLeft(Digits(-n), 2);
    PadLeftValue(Digits(-n), 2);
    DigitsRoundTrip(-n);
    var s := FormatD2(n);
    assert s[1..] == body;
  }

  /**
   * Formatting a 32-bit value with "D2" and parsing it back gives the
   * value; the text has at least two characters, all digits but a
   * leading minus sign.
   */
  lemma ParseFormatD2(n: int)
    requires IsInt32(n)
    ensures |FormatD2(n)| >= 2
    ensures forall i :: 0 <= i < |FormatD2(n)| ==> IsDigit(FormatD2(n)[i]) || (i == 0 && n < 0 && FormatD2(n)[i] == '-')
    ensures TryParseInt(FormatD2(n)) == Some(n)
  {
    var s := FormatD2(n);
    if n < 0 {
      FormatD2Negative(n);
      forall i | 1 <= i < |s| ensures IsDigit(s[i]) {
        assert s[i] == s[1..][i - 1];
      }
    } else {
      FormatD2NonNegative(n);
    }
  }

  /** A digit string parses to its value when that fits a C# `int`, and fails otherwise. */
  lemma ParseDigits(s: string)
    requires 1 <= |s| && AllDigits(s)
    ensures TryParseInt(s) == if DigitsValue(s) <= IntMax then Some(DigitsValue(s)) else None
  {
    assert IsDigit(s[0]);
  }
}
