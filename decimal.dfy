/**
 * Decimal text of integers, as a template literal `${n}` renders the small
 * integral octave numbers the program forms, together with the parser that
 * reads it back and accepts that text only.
 */
module Decimal {
  import opened Wrappers

  predicate IsDigit(c: char) {
    '0' <= c <= '9'
  }

  predicate AllDigits(s: string) {
    forall i :: 0 <= i < |s| ==> IsDigit(s[i])
  }

  function DigitChar(d: int): (c: char)
    requires 0 <= d < 10
    ensures IsDigit(c) && c as int - '0' as int == d
  {
    ('0' as int + d) as char
  }

  function DigitValue(c: char): (d: int)
    requires IsDigit(c)
    ensures 0 <= d < 10 && DigitChar(d) == c
  {
    c as int - '0' as int
  }

  /** Shortest decimal text of a natural number (no leading zeros). */
  function NatToDecimal(n: nat): (s: string)
    ensures 1 <= |s| && AllDigits(s)
    ensures s[0] == '0' ==> n == 0
    decreases n
  {
    if n < 10 then [DigitChar(n)] else NatToDecimal(n / 10) + [DigitChar(n % 10)]
  }

  /** The value of a string of digits, most significant digit first. */
  function DecimalToNat(s: string): nat
    requires AllDigits(s)
    decreases |s|
  {
    if |s| == 0 then 0 else DecimalToNat(s[..|s| - 1]) * 10 + DigitValue(s[|s| - 1])
  }

  /** `${i}` for an integer i: an optional minus sign, then the digits of |i|. */
  function IntToDecimal(i: int): (s: string)
    ensures 1 <= |s|
    ensures i < 0 <==> s[0] == '-'
  {
    if i < 0 then "-" + NatToDecimal(-i) else NatToDecimal(i)
  }

  /** At least one digit, and no leading zero unless the numeral is "0" itself. */
  predicate IsNumeral(s: string) {
    1 <= |s| && AllDigits(s) && (s[0] == '0' ==> |s| == 1)
  }

  /**
   * Reads a numeral, or a minus sign followed by a numeral other than "0":
   * exactly the texts IntToDecimal writes.
   */
  function ParseInt(s: string): Option<int> {
    if 2 <= |s| && s[0] == '-' && IsNumeral(s[1..]) && s[1] != '0' then Some(0 - DecimalToNat(s[1..]) as int)
    else if IsNumeral(s) then Some(DecimalToNat(s) as int)
    else None
  }

  lemma {:induction false} NatDecimalRoundTrip(n: nat)
    ensures DecimalToNat(NatToDecimal(n)) == n
    decreases n
  {
    var s := NatToDecimal(n);
    if n >= 10 {
      NatDecimalRoundTrip(n / 10);
      assert s[..|s| - 1] == NatToDecimal(n / 10);
    }
  }

  /** Reading back the decimal text of any integer gives that integer. */
  lemma IntDecimalRoundTrip(i: int)
    ensures ParseInt(IntToDecimal(i)) == Some(i)
  {
    var s := IntToDecimal(i);
    if i < 0 {
      assert s[1..] == NatToDecimal(-i);
      NatDecimalRoundTrip(-i);
    } else {
      NatDecimalRoundTrip(i);
    }
  }

  /** A numeral is the shortest decimal text of its own value. */
  lemma {:induction false} NumeralIsShortest(s: string)
    requires IsNumeral(s)
    ensures NatToDecimal(DecimalToNat(s)) == s
    decreases |s|
  {
    if |s| > 1 {
      var p := s[..|s| - 1];
      assert p[0] == s[0];
      NumeralIsShortest(p);
      var q := DecimalToNat(p);
      assert q != 0;
      var n := DecimalToNat(s);
      assert n == q * 10 + DigitValue(s[|s| - 1]);
      assert n / 10 == q && n % 10 == DigitValue(s[|s| - 1]);
      assert s == p + [s[|s| - 1]];
    }
  }

  /** ParseInt accepts only the text IntToDecimal writes: no leading zeros, no "-0". */
  lemma ParseIntCanonical(s: string)
    ensures ParseInt(s).Some? ==> s == IntToDecimal(ParseInt(s).value)
  {
    if 2 <= |s| && s[0] == '-' && IsNumeral(s[1..]) && s[1] != '0' {
      NumeralIsShortest(s[1..]);
      assert DecimalToNat(s[1..]) != 0;
      assert s == "-" + s[1..];
    } else if IsNumeral(s) {
      NumeralIsShortest(s);
    }
  }
}
