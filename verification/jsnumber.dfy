/**
 * JavaScript's conversion of an attribute string to a number (unary `+`,
 * `Number(s)`) and the truthiness of the result.
 */
module JsNumber {
  import opened Wrappers
  import Text

  /** A JavaScript number as far as this model needs one: NaN or a finite value. */
  datatype Num = NaN | Num(value: real)

  /** `!!n`: zero and NaN are falsy, every other number is truthy. */
  predicate Truthy(n: Num)
  {
    n.Num? && n.value != 0.0
  }

  predicate IsDigit(c: char)
  {
    '0' <= c <= '9'
  }

  predicate AllDigits(s: string)
  {
    forall i :: 0 <= i < |s| ==> IsDigit(s[i])
  }

  function DigitValue(c: char): nat
    requires IsDigit(c)
  {
    (c as int - '0' as int) as nat
  }

  /** The decimal value of a digit string, most significant digit first. */
  function DigitsValue(s: string): nat
    requires AllDigits(s)
  {
    if |s| == 0 then 0 else 10 * DigitsValue(s[..|s| - 1]) + DigitValue(s[|s| - 1])
  }

  function Pow10(k: nat): (r: nat)
    ensures r >= 1
  {
    if k == 0 then 1 else 10 * Pow10(k - 1)
  }

  /** Length of the digit run that starts `s`. */
  function DigitRun(s: string): (n: nat)
    ensures n <= |s|
    ensures AllDigits(s[..n])
    ensures n < |s| ==> !IsDigit(s[n])
  {
    if |s| == 0 || !IsDigit(s[0]) then 0
    else
      var k := DigitRun(s[1..]);
      assert forall i :: 1 <= i < 1 + k ==> s[i] == s[1..][i - 1];
      1 + k
  }

  /**
   * An unsigned decimal literal: digits, optionally followed by a point and
   * more digits, with at least one digit in all ("7", "7.", ".5", "7.25").
   */
  function ParseUnsigned(u: string): Num
  {
    var k := DigitRun(u);
    var whole := DigitsValue(u[..k]) as real;
    if k == |u| then
      if k == 0 then NaN else Num(whole)
    else if u[k] != '.' then NaN
    else
      var f := u[k + 1..];
      var m := DigitRun(f);
      if m != |f| || (k == 0 && m == 0) then NaN
      else Num(whole + (DigitsValue(f) as real) / (Pow10(m) as real))
  }

  /**
   * `Number(s)`: surrounding whitespace is ignored, the empty string is 0, an
   * optional sign precedes an unsigned decimal literal, anything else is NaN.
   */
  function ToNumber(s: string): Num
  {
    var t := Text.Trim(s);
    if |t| == 0 then Num(0.0)
    else if t[0] == '-' then
      match ParseUnsigned(t[1..])
      case NaN => NaN
      case Num(v) => Num(-v)
    else if t[0] == '+' then ParseUnsigned(t[1..])
    else ParseUnsigned(t)
  }

  /** `+element.getAttribute(name)`: a missing attribute reads as `null`, and `+null` is 0. */
  function FromAttr(a: Option<string>): Num
  {
    match a
    case None => Num(0.0)
    case Some(s) => ToNumber(s)
  }

  function DigitChar(d: nat): (c: char)
    requires d < 10
    ensures IsDigit(c) && DigitValue(c) == d
  {
    (d + '0' as int) as char
  }

  /** The canonical decimal rendering of a natural number. */
  function NatToString(n: nat): (s: string)
    ensures |s| > 0 && AllDigits(s)
  {
    if n < 10 then [DigitChar(n)] else NatToString(n / 10) + [DigitChar(n % 10)]
  }

  lemma {:induction false} DigitsOfNatToString(n: nat)
    ensures DigitsValue(NatToString(n)) == n
  {
    var s := NatToString(n);
    if n >= 10 {
      DigitsOfNatToString(n / 10);
      assert s[..|s| - 1] == NatToString(n / 10);
    }
  }

  lemma {:induction false} DigitRunOfDigits(s: string)
    requires AllDigits(s)
    ensures DigitRun(s) == |s|
  {
    if |s| > 0 {
      DigitRunOfDigits(s[1..]);
    }
  }

  lemma DigitsHaveNoSpace(s: string)
    requires AllDigits(s)
    ensures Text.NoSpace(s)
  {
    forall i | 0 <= i < |s| ensures !Text.IsSpace(s[i]) {
      assert IsDigit(s[i]);
    }
  }

  /** An unsigned digit string parses to its decimal value. */
  lemma ParseDigits(s: string)
    requires |s| > 0 && AllDigits(s)
    ensures ParseUnsigned(s) == Num(DigitsValue(s) as real)
  {
    DigitRunOfDigits(s);
    assert s[..|s|] == s;
  }

  /** Reading back the decimal rendering of `n`, with or without a minus sign, gives `n`. */
  lemma NatToStringRoundTrip(n: nat)
    ensures ToNumber(NatToString(n)) == Num(n as real)
    ensures ToNumber("-" + NatToString(n)) == Num(-(n as real))
  {
    var s := NatToString(n);
    DigitsOfNatToString(n);
    ParseDigits(s);
    DigitsHaveNoSpace(s);
    Text.TrimNoSpace(s);
    var t := "-" + s;
    assert Text.NoSpace(t) by {
      forall i | 0 <= i < |t| ensures !Text.IsSpace(t[i]) {
        if i > 0 {
          assert t[i] == s[i - 1];
        }
      }
    }
    Text.TrimNoSpace(t);
    assert t[1..] == s;
  }
}
