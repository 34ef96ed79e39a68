/** Decimal rendering of non-negative integers, as JavaScript's
    `Number.prototype.toString()` and template literals produce it for the
    values the program renders, with a parser as its inverse. */
module Numerals {

  predicate IsDigit(c: char)
  {
    '0' <= c <= '9'
  }

  predicate AllDigits(s: string)
  {
    forall k :: 0 <= k < |s| ==> IsDigit(s[k])
  }

  function Digit(d: nat): (c: char)
    requires d < 10
    ensures IsDigit(c) && DigitValue(c) == d
  {
    (('0' as int) + d) as char
  }

  function DigitValue(c: char): nat
    requires IsDigit(c)
  {
    (c as int) - ('0' as int)
  }

  /** The shortest decimal numeral of `n`, without leading zeros. */
  function DecimalString(n: nat): (s: string)
    ensures 0 < |s| && AllDigits(s)
    ensures (n < 10) == (|s| == 1)
    ensures 10 <= n < 100 ==> |s| == 2
    ensures s[0] == '0' <==> n == 0
    ensures |s| > 1 ==> s[0] != '0'
    decreases n
  {
    if n < 10 then [Digit(n)] else DecimalString(n / 10) + [Digit(n % 10)]
  }

  /** The value of a string of decimal digits (the empty string reads as 0). */
  function ParseDecimal(s: string): nat
    requires AllDigits(s)
  {
    if |s| == 0 then 0 else ParseDecimal(s[..|s| - 1]) * 10 + DigitValue(s[|s| - 1])
  }

  /** Reading back a rendered number gives the number. */
  lemma {:induction false} ParseDecimalString(n: nat)
    ensures ParseDecimal(DecimalString(n)) == n
    decreases n
  {
    var s := DecimalString(n);
    if n >= 10 {
      ParseDecimalString(n / 10);
      assert s[..|s| - 1] == DecimalString(n / 10);
    }
  }

  /** Distinct numbers render as distinct strings. */
  lemma DecimalStringInjective(m: nat, n: nat)
    ensures DecimalString(m) == DecimalString(n) ==> m == n
  {
    ParseDecimalString(m);
    ParseDecimalString(n);
  }

  /** A digit string with no leading zero is the numeral of its value, so
      digits, no leading zero and the value together fix the text. */
  lemma {:induction false} CanonicalNumeral(s: string)
    requires 0 < |s| && AllDigits(s) && (|s| > 1 ==> s[0] != '0')
    ensures s == DecimalString(ParseDecimal(s))
    decreases |s|
  {
    var n := ParseDecimal(s);
    var d := DigitValue(s[|s| - 1]);
    if |s| == 1 {
      assert Digit(d) == s[0];
    } else {
      var t := s[..|s| - 1];
      assert t[0] == s[0];
      CanonicalNumeral(t);
      var m := ParseDecimal(t);
      assert m != 0;
      assert n / 10 == m && n % 10 == d;
      assert Digit(d) == s[|s| - 1];
      assert s == t + [s[|s| - 1]];
    }
  }

  /** `s.padStart(2, '0')`: left-pad with zeros to length two. */
  function PadStart2(s: string): (r: string)
    ensures |r| == if |s| < 2 then 2 else |s|
    ensures |s| <= 2 ==> r[2 - |s|..] == s
    ensures forall k :: 0 <= k < |r| - |s| ==> r[k] == '0'
  {
    if |s| == 0 then "00" else if |s| == 1 then "0" + s else s
  }

  /** Zero-padding changes how a number is written, not its value. */
  lemma ParsePadStart2(s: string)
    requires AllDigits(s) && |s| <= 2
    ensures AllDigits(PadStart2(s)) && |PadStart2(s)| == 2
    ensures ParseDecimal(PadStart2(s)) == ParseDecimal(s)
  {
    var r := PadStart2(s);
    if |s| == 0 {
      assert r[..1] == "0";
      assert r[..1][..0] == [];
    } else if |s| == 1 {
      assert r[..1] == "0" && s[..0] == [];
      assert r[..1][..0] == [];
    }
  }
}
