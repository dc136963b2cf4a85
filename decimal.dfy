/** Decimal digit strings: what Python's `str()` writes for the calendar
    dates and the one-decimal incidence values of the table, and what
    the date part of a timestamp holds. */
module Decimal {
  import opened Wrappers

  predicate IsDigit(c: char) { '0' <= c <= '9' }

  predicate AllDigits(s: string) { forall i :: 0 <= i < |s| ==> IsDigit(s[i]) }

  function DigitChar(n: nat): (c: char)
    requires n < 10
    ensures IsDigit(c) && c as int - '0' as int == n
  {
    (n + '0' as int) as char
  }

  function DigitValue(c: char): nat
    requires IsDigit(c)
  {
    c as int - '0' as int
  }

  function Pow10(k: nat): (p: nat)
    ensures p >= 1
  {
    if k == 0 then 1 else 10 * Pow10(k - 1)
  }

  /** The value of a string of decimal digits, most significant first. */
  function DigitsValue(s: string): nat
    requires AllDigits(s)
  {
    if s == [] then 0 else 10 * DigitsValue(s[..|s| - 1]) + DigitValue(s[|s| - 1])
  }

  /** `n` in exactly `width` digits, zero-padded on the left (`%0<width>d`). */
  function PaddedDigits(n: nat, width: nat): (s: string)
    requires n < Pow10(width)
    ensures |s| == width && AllDigits(s)
  {
    if width == 0 then [] else PaddedDigits(n / 10, width - 1) + [DigitChar(n % 10)]
  }

  /** `n` without leading zeros, as `str()` writes a non-negative integer. */
  function Digits(n: nat): (s: string)
    ensures |s| >= 1 && AllDigits(s)
    ensures s[0] == '0' ==> n == 0
  {
    if n < 10 then [DigitChar(n)] else Digits(n / 10) + [DigitChar(n % 10)]
  }

  /** Reading a padded number back gives the number. */
  lemma {:induction false} PaddedDigitsRoundTrip(n: nat, width: nat)
    requires n < Pow10(width)
    ensures DigitsValue(PaddedDigits(n, width)) == n
  {
    if width > 0 {
      var s := PaddedDigits(n, width);
      assert s[..|s| - 1] == PaddedDigits(n / 10, width - 1);
      PaddedDigitsRoundTrip(n / 10, width - 1);
    }
  }

  /** Writing the value of a digit string back, at its own width, gives the string. */
  lemma {:induction false} DigitsValueRoundTrip(s: string)
    requires AllDigits(s)
    ensures DigitsValue(s) < Pow10(|s|)
    ensures PaddedDigits(DigitsValue(s), |s|) == s
  {
    if s != [] {
      var init := s[..|s| - 1];
      DigitsValueRoundTrip(init);
      var v := DigitsValue(s);
      assert v / 10 == DigitsValue(init) && v % 10 == DigitValue(s[|s| - 1]);
      assert s == init + [s[|s| - 1]];
    }
  }

  /** Reading an unpadded number back gives the number. */
  lemma {:induction false} DigitsRoundTrip(n: nat)
    ensures DigitsValue(Digits(n)) == n
  {
    if n >= 10 {
      var s := Digits(n);
      assert s[..|s| - 1] == Digits(n / 10);
      DigitsRoundTrip(n / 10);
    }
  }

  /** A value held in tenths, as `str()` writes the float `t / 10` that
      `round(x, 1)` returns: an optional minus sign, the integer part,
      a point and one decimal digit. */
  function FormatTenths(t: int): (s: string)
    ensures |s| >= 3 && s[|s| - 2] == '.'
  {
    var a := if t < 0 then -t else t;
    (if t < 0 then "-" else "") + Digits(a / 10) + "." + [DigitChar(a % 10)]
  }

  /** Reads back an unsigned one-decimal number, in tenths. */
  function ParseUnsignedTenths(body: string): Option<nat>
  {
    if |body| >= 3 && body[|body| - 2] == '.' && AllDigits(body[..|body| - 2]) && IsDigit(body[|body| - 1]) then
      Some(10 * DigitsValue(body[..|body| - 2]) + DigitValue(body[|body| - 1]))
    else
      None
  }

  /** Reads back a one-decimal number written by `FormatTenths`, in tenths. */
  function ParseTenths(s: string): Option<int>
  {
    if |s| > 0 && s[0] == '-' then
      match ParseUnsignedTenths(s[1..])
      case Some(a) => Some(0 - a)
      case None => None
    else
      match ParseUnsignedTenths(s)
      case Some(a) => Some(a)
      case None => None
  }

  lemma UnsignedTenthsRoundTrip(a: nat)
    ensures ParseUnsignedTenths(Digits(a / 10) + "." + [DigitChar(a % 10)]) == Some(a)
  {
    var digits := Digits(a / 10);
    var last := DigitChar(a % 10);
    var body := digits + ['.', last];
    assert body == digits + "." + [last];
    assert |body| == |digits| + 2 && body[|body| - 2] == '.' && body[|body| - 1] == last;
    assert body[..|body| - 2] == digits;
    DigitsRoundTrip(a / 10);
    assert DigitValue(last) == a % 10;
  }

  /** Every table value can be read back exactly. */
  lemma TenthsRoundTrip(t: int)
    ensures ParseTenths(FormatTenths(t)) == Some(t)
  {
    var a := if t < 0 then -t else t;
    var body := Digits(a / 10) + "." + [DigitChar(a % 10)];
    UnsignedTenthsRoundTrip(a);
    var s := FormatTenths(t);
    if t < 0 {
      assert s == "-" + body;
      assert s[0] == '-' && s[1..] == body;
    } else {
      assert s == body && IsDigit(s[0]);
    }
  }
}
