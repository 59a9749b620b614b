/** Python's conversions between text and numbers as the probe uses them: `int(s)` for
    the memory figures, `float(s)` for loads and thresholds, `str(n)` / `'{}'.format(n)`
    for integers written back into the output. */
module Numerals {
  import opened Failures
  import opened Text

  predicate IsDigit(c: char) {
    '0' <= c <= '9'
  }

  predicate AllDigits(s: string) {
    forall i :: 0 <= i < |s| ==> IsDigit(s[i])
  }

  function DigitValue(c: char): nat
    requires IsDigit(c)
  {
    c as int - '0' as int
  }

  function DigitChar(d: nat): (c: char)
    requires d < 10
    ensures IsDigit(c) && DigitValue(c) == d
  {
    ('0' as int + d) as char
  }

  /** The number a string of decimal digits denotes (the empty string denotes 0). */
  function DigitsValue(s: string): nat
    requires AllDigits(s)
    decreases |s|
  {
    if |s| == 0 then 0 else 10 * DigitsValue(s[..|s| - 1]) + DigitValue(s[|s| - 1])
  }

  function Pow10(k: nat): (p: nat)
    ensures p >= 1
  {
    if k == 0 then 1 else 10 * Pow10(k - 1)
  }

  /** n / 10^k: the value of k fractional digits that spell n. */
  function Scaled(n: nat, k: nat): (x: real)
    ensures x >= 0.0
  {
    n as real / Pow10(k) as real
  }

  /** Decimal notation of a natural number, without leading zeros. */
  function NatToDecimal(n: nat): (s: string)
    ensures |s| > 0 && AllDigits(s)
    ensures |s| > 1 ==> s[0] != '0'
    decreases n
  {
    if n < 10 then [DigitChar(n)] else NatToDecimal(n / 10) + [DigitChar(n % 10)]
  }

  /** Python's `str(i)` for an int. */
  function IntToDecimal(i: int): string {
    if i < 0 then "-" + NatToDecimal(-i) else NatToDecimal(i)
  }

  lemma {:induction false} NatToDecimalValue(n: nat)
    ensures DigitsValue(NatToDecimal(n)) == n
    decreases n
  {
    var s := NatToDecimal(n);
    if n >= 10 {
      NatToDecimalValue(n / 10);
      assert s[..|s| - 1] == NatToDecimal(n / 10);
    }
  }

  lemma DigitsHaveNoSpace(s: string)
    requires AllDigits(s)
    ensures NoSpace(s)
  {
  }

  lemma DecimalHasNoSpace(i: int)
    ensures NoSpace(IntToDecimal(i))
  {
    var d := if i < 0 then NatToDecimal(-i) else NatToDecimal(i);
    DigitsHaveNoSpace(d);
    if i < 0 {
      assert forall k :: 0 < k < |IntToDecimal(i)| ==> IntToDecimal(i)[k] == d[k - 1];
    }
  }

  lemma DecimalHasNoComma(i: int)
    ensures ',' !in IntToDecimal(i)
  {
    var d := if i < 0 then NatToDecimal(-i) else NatToDecimal(i);
    if i < 0 {
      assert forall k :: 0 < k < |IntToDecimal(i)| ==> IntToDecimal(i)[k] == d[k - 1];
    }
  }

  /** Python's `int(s)` on text: optional surrounding whitespace, an optional sign, and one
      or more ASCII digits; anything else raises ValueError. */
  function ParseInt(s: string): (r: Result<int>)
    ensures r.Err? ==> r.fault == BadValue(s)
  {
    var t := Strip(s);
    if |t| > 1 && (t[0] == '+' || t[0] == '-') && AllDigits(t[1..]) then
      var magnitude: int := DigitsValue(t[1..]);
      Ok(if t[0] == '-' then -magnitude else magnitude)
    else if |t| > 0 && AllDigits(t) then
      Ok(DigitsValue(t))
    else
      Err(BadValue(s))
  }

  /** `int(str(i)) == i`. */
  lemma ParseIntOfDecimal(i: int)
    ensures ParseInt(IntToDecimal(i)) == Ok(i)
  {
    var s := IntToDecimal(i);
    DecimalHasNoSpace(i);
    StripWithoutSpace(s);
    if i < 0 {
      assert s[1..] == NatToDecimal(-i);
      NatToDecimalValue(-i);
    } else {
      NatToDecimalValue(i);
    }
  }

  /** The value of unsigned decimal notation, given its pieces around decimal points: digits
      with at most one point and at least one digit; absent for anything else. */
  function Mantissa(pieces: seq<string>): (v: Option<real>)
    ensures v.Some? ==> v.value >= 0.0
  {
    if |pieces| == 1 && |pieces[0]| > 0 && AllDigits(pieces[0]) then
      Some(DigitsValue(pieces[0]) as real)
    else if |pieces| == 2 && AllDigits(pieces[0]) && AllDigits(pieces[1]) && |pieces[0]| + |pieces[1]| > 0 then
      Some(DigitsValue(pieces[0]) as real + Scaled(DigitsValue(pieces[1]), |pieces[1]|))
    else
      None
  }

  /** Python's `float(s)` on text in plain decimal notation: optional surrounding whitespace,
      an optional sign, then a mantissa; anything else raises ValueError with the text. */
  function ParseFloat(s: string): (r: Result<real>)
    ensures r.Err? ==> r.fault == BadValue(s)
  {
    match SignedMantissa(Strip(s))
    case Some(v) => Ok(v)
    case None => Err(BadValue(s))
  }

  /** An optional sign followed by a mantissa. */
  function SignedMantissa(t: string): Option<real> {
    var signed := |t| > 0 && (t[0] == '+' || t[0] == '-');
    match Mantissa(Split(if signed then t[1..] else t, '.'))
    case Some(v) => Some(if signed && t[0] == '-' then -v else v)
    case None => None
  }

  /** Text that `int()` accepts, `float()` accepts with the same value. */
  lemma ParseFloatOfInteger(s: string)
    requires ParseInt(s).Ok?
    ensures ParseFloat(s) == Ok(ParseInt(s).value as real)
  {
    var t := Strip(s);
    var signed := |t| > 0 && (t[0] == '+' || t[0] == '-');
    var body := if signed then t[1..] else t;
    assert AllDigits(body) && |body| > 0;
    SplitWithoutSeparator(body, '.');
  }

  /** `float(str(i)) == i`. */
  lemma ParseFloatOfDecimal(i: int)
    ensures ParseFloat(IntToDecimal(i)) == Ok(i as real)
  {
    ParseIntOfDecimal(i);
    ParseFloatOfInteger(IntToDecimal(i));
  }

  /** Text without whitespace that is digits, a point and digits denotes the whole part plus
      the scaled fraction. */
  lemma ParseFloatOfPieces(s: string, whole: string, fraction: string)
    requires AllDigits(whole) && AllDigits(fraction) && |whole| > 0
    requires Split(s, '.') == [whole, fraction]
    requires NoSpace(s) && IsDigit(s[0])
    ensures ParseFloat(s) == Ok(DigitsValue(whole) as real + Scaled(DigitsValue(fraction), |fraction|))
  {
    StripWithoutSpace(s);
  }

  /** Digits, a point and digits split at the point. */
  lemma SplitAtPoint(whole: string, fraction: string)
    requires AllDigits(whole) && AllDigits(fraction)
    ensures Split(whole + "." + fraction, '.') == [whole, fraction]
  {
    NoPointInDigits(whole);
    NoPointInDigits(fraction);
    SplitAfter(whole, fraction, '.');
    SplitWithoutSeparator(fraction, '.');
  }

  /** `float()` of digits, a point and digits. */
  lemma ParseFloatOfPoint(whole: string, fraction: string)
    requires AllDigits(whole) && AllDigits(fraction) && |whole| > 0
    ensures ParseFloat(whole + "." + fraction) == Ok(DigitsValue(whole) as real + Scaled(DigitsValue(fraction), |fraction|))
  {
    var s := whole + "." + fraction;
    SplitAtPoint(whole, fraction);
    forall i | 0 <= i < |s| ensures !IsSpace(s[i]) {
      if i < |whole| {
        assert s[i] == whole[i];
      } else if i > |whole| {
        assert s[i] == fraction[i - |whole| - 1];
      }
    }
    assert s[0] == whole[0];
    ParseFloatOfPieces(s, whole, fraction);
  }

  lemma NoPointInDigits(s: string)
    requires AllDigits(s)
    ensures '.' !in s
  {
  }
}
