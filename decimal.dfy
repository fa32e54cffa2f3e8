/** Decimal text as the entry form and the list screen produce and read it:
    Kotlin's conversion of a non-negative number to its decimal string, the
    reading of an all-digit string with String.toInt, and the two-digit
    padding the time and date labels use. */
module Decimal {

  /** The largest value of a Kotlin Int. */
  const IntMax: int := 2147483647

  predicate IsDigit(c: char) {
    '0' <= c <= '9'
  }

  /** What the pattern ^\d*$ accepts: every character an ASCII digit
      (the empty string included). */
  predicate AllDigits(s: string) {
    forall i :: 0 <= i < |s| ==> IsDigit(s[i])
  }

  function DigitValue(c: char): (d: nat)
    requires IsDigit(c)
    ensures d < 10
  {
    (c as int) - ('0' as int)
  }

  function DigitChar(d: nat): (c: char)
    requires d < 10
    ensures IsDigit(c) && DigitValue(c) == d
  {
    (('0' as int) + d) as char
  }

  /** The number an all-digit string denotes, read most significant digit first. */
  function Value(s: string): nat
    requires AllDigits(s)
    decreases |s|
  {
    if s == [] then 0 else Value(s[..|s| - 1]) * 10 + DigitValue(s[|s| - 1])
  }

  /** Kotlin's toString of a non-negative number: at least one digit and no
      leading zero. */
  function NatToString(n: nat): (r: string)
    ensures 1 <= |r| && AllDigits(r)
    ensures |r| > 1 ==> r[0] != '0'
    ensures n < 10 <==> |r| == 1
    decreases n
  {
    if n < 10 then [DigitChar(n)] else NatToString(n / 10) + [DigitChar(n % 10)]
  }

  /** Reading back what NatToString writes gives the number again. */
  lemma {:induction false} ValueOfNatToString(n: nat)
    ensures Value(NatToString(n)) == n
  {
    if n >= 10 {
      var r := NatToString(n);
      ValueOfNatToString(n / 10);
      assert r[..|r| - 1] == NatToString(n / 10);
    }
  }

  /** Kotlin's toString of any Long, sign included. */
  function IntToString(n: int): (r: string)
    ensures n >= 0 ==> r == NatToString(n)
    ensures n < 0 ==> |r| >= 2 && r[0] == '-' && r[1..] == NatToString(-n)
  {
    if n < 0 then "-" + NatToString(-n) else NatToString(n)
  }

  /** The outcome of String.toInt on the strings the entry form hands it. */
  datatype IntParse = Parsed(value: int) | NumberFormatException

  /** String.toInt on an all-digit string: the empty string and any value
      beyond Int's range throw NumberFormatException; leading zeros are
      accepted. */
  function ToInt(s: string): (r: IntParse)
    requires AllDigits(s)
    ensures r.Parsed? <==> s != [] && Value(s) <= IntMax
    ensures r.Parsed? ==> r.value == Value(s) && 0 <= r.value <= IntMax
  {
    if s == [] || Value(s) > IntMax then NumberFormatException else Parsed(Value(s))
  }

  /** Every number Int can hold survives the trip through its decimal text,
      and every larger one is refused. */
  lemma ToIntOfNatToString(n: nat)
    ensures ToInt(NatToString(n)) == if n <= IntMax then Parsed(n) else NumberFormatException
  {
    ValueOfNatToString(n);
  }

  function Pow10(k: nat): (p: nat)
    ensures p >= 1
  {
    if k == 0 then 1 else 10 * Pow10(k - 1)
  }

  /** A string of k digits denotes a number below 10^k. */
  lemma {:induction false} ValueBelowPow10(s: string)
    requires AllDigits(s)
    ensures Value(s) < Pow10(|s|)
  {
    if s != [] {
      ValueBelowPow10(s[..|s| - 1]);
    }
  }

  lemma {:induction false} Pow10Grows(a: nat, b: nat)
    requires a <= b
    ensures Pow10(a) <= Pow10(b)
  {
    if a < b {
      Pow10Grows(a, b - 1);
    }
  }

  /** Up to nine digits never overflow, so such input always parses. */
  lemma ShortDigitStringsParse(s: string)
    requires AllDigits(s) && 1 <= |s| <= 9
    ensures ToInt(s) == Parsed(Value(s))
  {
    ValueBelowPow10(s);
    Pow10Grows(|s|, 9);
    assert Pow10(9) == 1000000000;
  }

  /** The label padding `if (n / 10 == 0) "0$n" else n`: at least two digits
      that denote n, exactly two when n < 100. */
  function Pad2(n: nat): (r: string)
    ensures AllDigits(r) && 2 <= |r| && Value(r) == n
    ensures n <= 99 <==> |r| == 2
  {
    ValueOfNatToString(n);
    if n / 10 == 0 then
      var r := "0" + NatToString(n);
      assert r[..|r| - 1] == "0";
      r
    else
      assert NatToString(n) == NatToString(n / 10) + [DigitChar(n % 10)];
      NatToString(n)
  }
}
