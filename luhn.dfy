/**
 * The Luhn (modulus 10, "double-add-double") check digit of ISO/IEC 7812-1,
 * Annex B, as an independent reference definition. Digits are weighted from
 * the RIGHT: in a payload the rightmost digit is doubled, then every second
 * digit going left; in a complete number (payload + check digit) the check
 * digit is kept and the digit left of it is doubled.
 */
module Luhn {

  predicate IsDigit(c: char) {
    '0' <= c <= '9'
  }

  predicate AllDigits(s: string) {
    forall i :: 0 <= i < |s| ==> IsDigit(s[i])
  }

  /** The value of a decimal digit character. */
  function Value(c: char): (d: nat)
    requires IsDigit(c)
    ensures d < 10
  {
    (c as int) - ('0' as int)
  }

  /** The character of a decimal digit. */
  function Char(d: nat): (c: char)
    requires d < 10
    ensures IsDigit(c) && Value(c) == d
  {
    (('0' as int) + d) as char
  }

  /** The doubling step: double, and subtract 9 when the result exceeds 9. */
  function Double(d: nat): (r: nat)
    requires d < 10
    ensures r < 10
    ensures r == (2 * d) / 10 + (2 * d) % 10  // the sum of the digits of 2d
  {
    if 2 * d > 9 then 2 * d - 9 else 2 * d
  }

  function Weighted(d: nat, doubled: bool): (r: nat)
    requires d < 10
  {
    if doubled then Double(d) else d
  }

  /**
   * The Luhn sum of a digit string read from the right; `doubleLast` says
   * whether the rightmost digit is doubled, and the weights alternate from there.
   */
  function RightSum(s: string, doubleLast: bool): (r: nat)
    requires AllDigits(s)
  {
    if s == [] then 0
    else Weighted(Value(s[|s| - 1]), doubleLast) + RightSum(s[..|s| - 1], !doubleLast)
  }

  /** The check digit that Annex B appends to a payload. */
  function CheckDigit(payload: string): (r: nat)
    requires AllDigits(payload)
    ensures r < 10
    ensures (RightSum(payload, true) + r) % 10 == 0
  {
    var m := RightSum(payload, true) % 10;
    DigitCompletion(RightSum(payload, true), if m == 0 then 0 else 10 - m);
    if m == 0 then 0 else 10 - m
  }

  /** The one digit below 10 that tops x up to a multiple of 10. */
  lemma DigitCompletion(x: int, d: int)
    requires 0 <= d < 10
    ensures (x + d) % 10 == 0 <==> d == (if x % 10 == 0 then 0 else 10 - x % 10)
  {
    var q, m := x / 10, x % 10;
    assert x + d == 10 * q + (m + d);
    assert 0 <= m + d < 20;
  }

  /** Annex B validation of a complete number: its Luhn sum is a multiple of 10. */
  predicate IsValid(number: string)
    requires AllDigits(number)
  {
    |number| >= 1 && RightSum(number, false) % 10 == 0
  }

  /** Appending one digit: that digit is kept and the old payload is weighted from a doubled end. */
  lemma RightSumAppend(payload: string, c: char)
    requires AllDigits(payload) && IsDigit(c)
    ensures AllDigits(payload + [c])
    ensures RightSum(payload + [c], false) == Value(c) + RightSum(payload, true)
  {
    var s := payload + [c];
    assert s[..|s| - 1] == payload;
  }

  /** A digit completes a payload to a valid number exactly when it is the payload's check digit. */
  lemma {:induction false} CheckDigitCompletes(payload: string, d: nat)
    requires AllDigits(payload) && d < 10
    ensures AllDigits(payload + [Char(d)])
    ensures IsValid(payload + [Char(d)]) <==> d == CheckDigit(payload)
  {
    RightSumAppend(payload, Char(d));
    DigitCompletion(RightSum(payload, true), d);
  }
}
