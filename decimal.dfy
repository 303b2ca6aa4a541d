/** Decimal text of integers, as JavaScript writes a number into a template
    literal (`${y}`), and the reading back of that text. */
module Decimal {
  import opened Text

  predicate IsDigit(c: CodeUnit)
  {
    0x30 <= c <= 0x39
  }

  predicate AllDigits(s: JsString)
  {
    forall i :: 0 <= i < |s| ==> IsDigit(s[i])
  }

  function Digit(d: nat): (c: CodeUnit)
    requires d < 10
    ensures IsDigit(c)
  {
    (0x30 + d) as CodeUnit
  }

  /** The decimal text of a non-negative integer: digits only, never a
      leading zero except for 0 itself. */
  function NatText(n: nat): (r: JsString)
    ensures |r| >= 1 && AllDigits(r)
    ensures r[0] == 0x30 ==> n == 0
    decreases n
  {
    if n < 10 then [Digit(n)] else NatText(n / 10) + [Digit(n % 10)]
  }

  /** The text of an integer in a template literal: a minus sign before the
      digits of a negative number. */
  function IntText(n: int): (r: JsString)
  {
    if n < 0 then [MINUS] + NatText(-n) else NatText(n)
  }

  /** The value of a string of decimal digits, most significant first. */
  function DigitsValue(s: JsString): nat
    requires AllDigits(s)
  {
    if s == [] then 0 else DigitsValue(s[..|s| - 1]) * 10 + (s[|s| - 1] as int - 0x30) as nat
  }

  /** Reads an optional minus sign followed by at least one digit. */
  function ParseInt(s: JsString): (r: Option<int>)
    ensures r.Some? ==> |s| >= 1
  {
    if |s| >= 2 && s[0] == MINUS && AllDigits(s[1..]) then Some(-(DigitsValue(s[1..]) as int))
    else if |s| >= 1 && AllDigits(s) then Some(DigitsValue(s))
    else None
  }

  lemma {:induction false} DigitsValueOfNatText(n: nat)
    ensures DigitsValue(NatText(n)) == n
    decreases n
  {
    var r := NatText(n);
    if n >= 10 {
      DigitsValueOfNatText(n / 10);
      assert r[..|r| - 1] == NatText(n / 10);
    }
  }

  /** Reading back the text of any integer gives that integer. */
  lemma ParseIntText(n: int)
    ensures ParseInt(IntText(n)) == Some(n)
  {
    if n < 0 {
      var t := NatText(-n);
      var r := [MINUS] + t;
      assert r[0] == MINUS && r[1..] == t;
      DigitsValueOfNatText(-n);
      assert ParseInt(r) == Some(-(DigitsValue(t) as int));
    } else {
      var t := NatText(n);
      assert t[0] != MINUS;
      DigitsValueOfNatText(n);
      assert ParseInt(t) == Some(DigitsValue(t));
    }
  }

  /** The text of an integer holds only digits and the minus sign. */
  lemma IntTextUnits(n: int)
    ensures forall i :: 0 <= i < |IntText(n)| ==> IsDigit(IntText(n)[i]) || IntText(n)[i] == MINUS
  {
  }
}
