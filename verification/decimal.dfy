/**
  Decimal text as the application reads and writes it: the digits of
  `Date.now()` inside generated ids, the `Number(...)` / `parseInt(...)` of
  digit strings, and money amounts that pass through `parseFloat` and
  `Number.prototype.toString`. Amounts are whole cents, so that the model has
  no floating point.
*/
module Decimal {

  predicate IsDigit(c: char)
  {
    '0' <= c <= '9'
  }

  predicate AllDigits(s: string)
  {
    forall i :: 0 <= i < |s| ==> IsDigit(s[i])
  }

  function DigitValue(c: char): (d: nat)
    requires IsDigit(c)
    ensures d < 10
  {
    (c as int) - ('0' as int)
  }

  function DigitChar(d: nat): (c: char)
    requires d < 10
    ensures IsDigit(c) && DigitValue(c) == d
  {
    (('0' as int) + d) as char
  }

  /** The value of a string of decimal digits, most significant first (`Number`, `parseInt`). */
  function ParseDigits(s: string): nat
    requires AllDigits(s)
  {
    if |s| == 0 then 0 else ParseDigits(s[..|s| - 1]) * 10 + DigitValue(s[|s| - 1])
  }

  function Pow10(n: nat): (r: nat)
    ensures r >= 1
  {
    if n == 0 then 1 else 10 * Pow10(n - 1)
  }

  /** A string of `k` digits spells a number below `10^k`. */
  lemma {:induction false} ParseDigitsBound(s: string)
    requires AllDigits(s)
    ensures ParseDigits(s) < Pow10(|s|)
  {
    if |s| > 0 {
      ParseDigitsBound(s[..|s| - 1]);
    }
  }

  /** The shortest decimal spelling of `n` (`String(n)` for a non-negative integer). */
  function NatToDecimal(n: nat): (s: string)
    ensures |s| > 0 && AllDigits(s)
    ensures |s| > 1 ==> s[0] != '0'
  {
    if n < 10 then [DigitChar(n)] else NatToDecimal(n / 10) + [DigitChar(n % 10)]
  }

  /** Reading back what `NatToDecimal` wrote gives the original number. */
  lemma {:induction false} ParseNatToDecimal(n: nat)
    ensures ParseDigits(NatToDecimal(n)) == n
  {
    var s := NatToDecimal(n);
    if n < 10 {
      assert s[..|s| - 1] == [];
    } else {
      assert s[..|s| - 1] == NatToDecimal(n / 10);
      ParseNatToDecimal(n / 10);
    }
  }

  /** Distinct numbers have distinct spellings. */
  lemma NatToDecimalInjective(a: nat, b: nat)
    ensures NatToDecimal(a) == NatToDecimal(b) <==> a == b
  {
    if NatToDecimal(a) == NatToDecimal(b) {
      ParseNatToDecimal(a);
      ParseNatToDecimal(b);
    }
  }

  // ---------------------------------------------------------------------------
  // Money amounts in cents
  // ---------------------------------------------------------------------------

  /** Whole units with no decimal point, as in "1200". */
  predicate IsWholeAmount(s: string)
  {
    |s| > 0 && AllDigits(s)
  }

  /** Whole units and one decimal, as in "1200.5". */
  predicate IsOneDecimalAmount(s: string)
  {
    |s| >= 3 && s[|s| - 2] == '.' && AllDigits(s[..|s| - 2]) && IsDigit(s[|s| - 1])
  }

  /** Whole units and two decimals, as in "1200.25". */
  predicate IsTwoDecimalAmount(s: string)
  {
    |s| >= 4 && s[|s| - 3] == '.' && AllDigits(s[..|s| - 3]) && IsDigit(s[|s| - 2]) && IsDigit(s[|s| - 1])
  }

  /** Digits with at most two decimals and no sign. */
  predicate IsUnsignedAmount(s: string)
  {
    IsWholeAmount(s) || IsOneDecimalAmount(s) || IsTwoDecimalAmount(s)
  }

  /**
    The amounts modelled: an optional minus sign, then digits with at most
    two decimals. The `type="number"` inputs have no `min`, so a negative
    amount reaches `parseFloat` as it is.
  */
  predicate IsAmount(s: string)
  {
    IsUnsignedAmount(s) || (|s| > 1 && s[0] == '-' && IsUnsignedAmount(s[1..]))
  }

  /** `parseFloat` of an unsigned amount, in cents. */
  function ParseUnsignedCents(s: string): (c: nat)
    requires IsUnsignedAmount(s)
    ensures IsWholeAmount(s) ==> c % 100 == 0
  {
    if IsWholeAmount(s) then
      100 * ParseDigits(s)
    else if IsOneDecimalAmount(s) then
      100 * ParseDigits(s[..|s| - 2]) + 10 * DigitValue(s[|s| - 1])
    else
      100 * ParseDigits(s[..|s| - 3]) + 10 * DigitValue(s[|s| - 2]) + DigitValue(s[|s| - 1])
  }

  /** `parseFloat` of a well-formed amount, in cents: only a leading minus sign makes it negative. */
  function ParseCents(s: string): (c: int)
    requires IsAmount(s)
    ensures c < 0 ==> s[0] == '-'
    ensures s[0] != '-' ==> c >= 0
    ensures IsWholeAmount(s) ==> c % 100 == 0
  {
    if s[0] == '-' then
      -(ParseUnsignedCents(s[1..]) as int)
    else
      ParseUnsignedCents(s)
  }

  /** `Number.prototype.toString` of a non-negative amount held in cents: no trailing zero decimals. */
  function FormatUnsignedCents(c: nat): (s: string)
    ensures IsUnsignedAmount(s) && IsDigit(s[0])
  {
    var units := NatToDecimal(c / 100);
    var fraction := c % 100;
    if fraction == 0 then units
    else if fraction % 10 == 0 then units + ['.', DigitChar(fraction / 10)]
    else units + ['.', DigitChar(fraction / 10), DigitChar(fraction % 10)]
  }

  /** `Number.prototype.toString` of an amount held in cents, with a leading minus sign when negative. */
  function FormatCents(c: int): (s: string)
    ensures IsAmount(s)
    ensures s[0] == '-' <==> c < 0
  {
    if c < 0 then "-" + FormatUnsignedCents(-c) else FormatUnsignedCents(c)
  }

  /** Parsing what `FormatUnsignedCents` wrote gives back the amount. */
  lemma FormatUnsignedCentsRoundTrip(c: nat)
    ensures ParseUnsignedCents(FormatUnsignedCents(c)) == c
  {
    var units := NatToDecimal(c / 100);
    var s := FormatUnsignedCents(c);
    ParseNatToDecimal(c / 100);
    var fraction := c % 100;
    if fraction == 0 {
      assert IsWholeAmount(s);
    } else if fraction % 10 == 0 {
      assert !IsWholeAmount(s) by { assert !IsDigit(s[|s| - 2]); }
      assert s[..|s| - 2] == units;
    } else {
      assert !IsWholeAmount(s) by { assert !IsDigit(s[|s| - 3]); }
      assert !IsOneDecimalAmount(s) by { assert IsDigit(s[|s| - 2]); }
      assert s[..|s| - 3] == units;
    }
  }

  /** A minus sign in front of an unsigned amount negates it; without one the amount reads as unsigned. */
  lemma ParseSign(digits: string)
    requires IsUnsignedAmount(digits) && IsDigit(digits[0])
    ensures IsAmount(digits) && ParseCents(digits) == ParseUnsignedCents(digits)
    ensures IsAmount("-" + digits) && ParseCents("-" + digits) == -(ParseUnsignedCents(digits) as int)
  {
    assert ("-" + digits)[1..] == digits;
  }

  /** Parsing what `FormatCents` wrote gives back the amount, negative or not: a pre-filled amount is paid exactly. */
  lemma FormatCentsRoundTrip(c: int)
    ensures ParseCents(FormatCents(c)) == c
  {
    var digits := FormatUnsignedCents(if c < 0 then -c else c);
    ParseSign(digits);
    FormatUnsignedCentsRoundTrip(if c < 0 then -c else c);
  }

  // ---------------------------------------------------------------------------
  // Fixed-width numbers
  // ---------------------------------------------------------------------------

  /** `n` written with exactly `width` digits, zero-padded on the left (the `YYYY` and `MM` of a date). */
  function Padded(n: nat, width: nat): (s: string)
    requires n < Pow10(width)
    ensures |s| == width && AllDigits(s) && ParseDigits(s) == n
  {
    if width == 0 then []
    else
      var s := Padded(n / 10, width - 1) + [DigitChar(n % 10)];
      assert s[..|s| - 1] == Padded(n / 10, width - 1);
      s
  }
}
