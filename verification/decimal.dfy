/**
 * Decimal conversion of day counts: `Long.toString` for non-negative values and
 * `Long.parseLong`, which accepts an optional sign followed by at least one digit
 * and rejects everything else (including surrounding whitespace).
 */
module Decimal {
  import opened Wrappers

  predicate IsDigit(c: char) {
    '0' <= c <= '9'
  }

  predicate AllDigits(s: string) {
    forall i :: 0 <= i < |s| ==> IsDigit(s[i])
  }

  function DigitChar(d: nat): (c: char)
    requires d < 10
    ensures IsDigit(c)
  {
    ('0' as int + d) as char
  }

  function DigitValue(c: char): (d: nat)
    requires IsDigit(c)
    ensures d < 10
  {
    c as int - '0' as int
  }

  /** The value of a string of decimal digits, most significant first. */
  function DigitsValue(s: string): nat
    requires AllDigits(s)
  {
    if s == [] then 0 else 10 * DigitsValue(s[..|s| - 1]) + DigitValue(s[|s| - 1])
  }

  /** `Long.toString(n)` for `n >= 0`: the shortest decimal numeral of `n`. */
  function NatToString(n: nat): (s: string)
    ensures |s| >= 1 && AllDigits(s)
    ensures |s| > 1 ==> s[0] != '0'
  {
    if n < 10 then [DigitChar(n)] else NatToString(n / 10) + [DigitChar(n % 10)]
  }

  /** `Long.parseLong(s)` without the 64-bit range check. */
  function ParseLong(s: string): (r: Result<int, string>)
    ensures r.Success? <==>
      (|s| >= 1 && AllDigits(s)) || (|s| >= 2 && (s[0] == '-' || s[0] == '+') && AllDigits(s[1..]))
    ensures r.Failure? ==> r.error == s
    ensures r.Success? && AllDigits(s) ==> r.value == DigitsValue(s)
    ensures r.Success? && s[0] == '+' ==> r.value == DigitsValue(s[1..])
    ensures r.Success? && s[0] == '-' ==> r.value == -(DigitsValue(s[1..]) as int)
  {
    if |s| >= 2 && s[0] == '-' && AllDigits(s[1..]) then Success(-(DigitsValue(s[1..]) as int))
    else if |s| >= 2 && s[0] == '+' && AllDigits(s[1..]) then Success(DigitsValue(s[1..]))
    else if |s| >= 1 && AllDigits(s) then Success(DigitsValue(s))
    else Failure(s)
  }

  lemma {:induction false} DigitsValueOfNatToString(n: nat)
    ensures DigitsValue(NatToString(n)) == n
  {
    var s := NatToString(n);
    if n < 10 {
    } else {
      DigitsValueOfNatToString(n / 10);
      assert s[..|s| - 1] == NatToString(n / 10);
    }
  }

  /** Printing a non-negative count and parsing it back gives the count. */
  lemma ParseLongOfNatToString(n: nat)
    ensures ParseLong(NatToString(n)) == Success(n)
  {
    DigitsValueOfNatToString(n);
  }

  /** A leading minus sign negates the parsed value; this is how "-1" reads as the disabled sentinel. */
  lemma ParseLongNegative(n: nat)
    ensures ParseLong("-" + NatToString(n)) == Success(-(n as int))
  {
    var s := "-" + NatToString(n);
    assert s[1..] == NatToString(n);
    DigitsValueOfNatToString(n);
  }

  /** A leading zero does not change the value of a digit string. */
  lemma {:induction false} LeadingZeroAddsNothing(s: string)
    requires AllDigits(s)
    ensures AllDigits("0" + s) && DigitsValue("0" + s) == DigitsValue(s)
  {
    var z := "0" + s;
    if s == [] {
      assert z[..0] == [];
    } else {
      LeadingZeroAddsNothing(s[..|s| - 1]);
      assert z[..|z| - 1] == "0" + s[..|s| - 1];
    }
  }

  /** A plus sign changes nothing: "+5" reads as "5". */
  lemma ParseLongPlus(s: string)
    requires |s| >= 1 && AllDigits(s)
    ensures ParseLong("+" + s) == ParseLong(s) == Success(DigitsValue(s))
  {
    var plus := "+" + s;
    assert plus[1..] == s && !IsDigit(plus[0]);
    var r := ParseLong(plus);
    assert r.Success?;
  }

  /** A leading zero changes nothing: "07" reads as "7". */
  lemma ParseLongLeadingZero(s: string)
    requires |s| >= 1 && AllDigits(s)
    ensures ParseLong("0" + s) == ParseLong(s)
  {
    LeadingZeroAddsNothing(s);
    var r := ParseLong("0" + s);
    assert r.Success?;
  }

  /** A minus sign negates, so "-0" reads as zero rather than as a negative count. */
  lemma ParseLongMinus(s: string)
    requires |s| >= 1 && AllDigits(s)
    ensures ParseLong("-" + s) == Success(-(DigitsValue(s) as int))
    ensures DigitsValue(s) == 0 ==> ParseLong("-" + s) == Success(0)
  {
    var minus := "-" + s;
    assert minus[1..] == s && !IsDigit(minus[0]);
    var r := ParseLong(minus);
    assert r.Success?;
  }
}
