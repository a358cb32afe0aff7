/**
 * Decimal rendering of integers, as Go's `strconv.Itoa` does it: an optional
 * leading '-' followed by the digits of the magnitude, without leading zeros.
 * The exporter turns HTTP status codes and health-check ids into label values
 * with it. `ParseDecimal` reads a rendering back; `ItoaRoundTrip` proves it a
 * left inverse of `Itoa`.
 */
module Strconv {
  import opened Wrappers

  predicate IsDigit(ch: char) {
    '0' <= ch <= '9'
  }

  predicate AllDigits(s: string) {
    forall i :: 0 <= i < |s| ==> IsDigit(s[i])
  }

  function DigitChar(d: nat): (ch: char)
    requires d < 10
    ensures IsDigit(ch)
    ensures ch == '0' <==> d == 0
  {
    (('0' as int) + d) as char
  }

  function DigitValue(ch: char): (d: nat)
    requires IsDigit(ch)
    ensures d < 10
    ensures DigitChar(d) == ch
  {
    (ch as int) - ('0' as int)
  }

  /** The decimal digits of `n`, most significant first. */
  function NatToDecimal(n: nat): (s: string)
    ensures |s| > 0 && AllDigits(s)
    ensures s[0] == '0' ==> n == 0
    ensures n == 0 ==> s == "0"
    decreases n
  {
    if n < 10 then [DigitChar(n)] else NatToDecimal(n / 10) + [DigitChar(n % 10)]
  }

  /** strconv.Itoa for Go's `int`. */
  function Itoa(n: int): (s: string)
    ensures |s| > 0
    ensures s[0] == '-' <==> n < 0
    ensures n >= 0 ==> AllDigits(s)
    ensures n < 0 ==> |s| > 1 && AllDigits(s[1..])
    ensures n != 0 ==> s[if n < 0 then 1 else 0] != '0'
    ensures n == 0 ==> s == "0"
  {
    if n < 0 then "-" + NatToDecimal(-n) else NatToDecimal(n)
  }

  /** The value of a string of decimal digits, most significant first. */
  function DigitsValue(s: string): nat
    requires AllDigits(s)
  {
    if s == [] then 0 else DigitsValue(s[..|s| - 1]) * 10 + DigitValue(s[|s| - 1])
  }

  /** Reads back an optionally negative decimal numeral; `None` for anything else. */
  function ParseDecimal(s: string): (r: Option<int>)
    ensures r.Some? ==> |s| > 0
  {
    if |s| > 1 && s[0] == '-' && AllDigits(s[1..]) then Some(0 - DigitsValue(s[1..]) as int)
    else if |s| > 0 && AllDigits(s) then Some(DigitsValue(s) as int)
    else None
  }

  lemma {:induction false} DigitsValueOfNatToDecimal(n: nat)
    ensures DigitsValue(NatToDecimal(n)) == n
    decreases n
  {
    var s := NatToDecimal(n);
    if n < 10 {
      assert s[..|s| - 1] == [];
    } else {
      var prefix := NatToDecimal(n / 10);
      assert s == prefix + [DigitChar(n % 10)];
      assert s[..|s| - 1] == prefix;
      DigitsValueOfNatToDecimal(n / 10);
    }
  }

  /** Reading back the rendering of any integer gives that integer. */
  lemma ItoaRoundTrip(n: int)
    ensures ParseDecimal(Itoa(n)) == Some(n)
  {
    var s := Itoa(n);
    if n < 0 {
      assert s[1..] == NatToDecimal(-n);
      DigitsValueOfNatToDecimal(-n);
    } else {
      DigitsValueOfNatToDecimal(n);
      assert !(|s| > 1 && s[0] == '-');
    }
  }

  /** Distinct integers get distinct renderings. */
  lemma ItoaInjective(a: int, b: int)
    ensures Itoa(a) == Itoa(b) <==> a == b
  {
    if Itoa(a) == Itoa(b) {
      ItoaRoundTrip(a);
      ItoaRoundTrip(b);
    }
  }
}
