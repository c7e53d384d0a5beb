/**
 * The part of JavaScript's string-to-number conversion that the experience
 * check `formData.experience < 0` exercises, restricted to optionally signed
 * decimal integers: the string is trimmed, then read as an optional '+' or
 * '-' followed by one or more ASCII digits. Any other text is left
 * unrecognised (None) and so is never negative, as NaN is never below 0.
 */
module Numbers {
  import opened Wrappers
  import opened Text
  import opened Patterns

  predicate AllDigits(s: string) {
    forall i | 0 <= i < |s| :: IsDigit(s[i])
  }

  function DigitValue(c: char): nat
    requires IsDigit(c)
  {
    c as int - '0' as int
  }

  /** The value of a string of decimal digits, most significant first. */
  function DigitsValue(d: string): nat
    requires AllDigits(d)
  {
    if d == [] then 0 else 10 * DigitsValue(d[..|d| - 1]) + DigitValue(d[|d| - 1])
  }

  /** Reads an already trimmed string as an optionally signed decimal integer. */
  function ParseInteger(t: string): Option<int> {
    if |t| > 1 && (t[0] == '-' || t[0] == '+') && AllDigits(t[1..]) then
      var v: int := DigitsValue(t[1..]);
      Some(if t[0] == '-' then -v else v)
    else if |t| > 0 && AllDigits(t) then
      Some(DigitsValue(t))
    else
      None
  }

  /** The integer a string converts to, if it is one. */
  function ToInteger(s: string): Option<int> {
    ParseInteger(Trim(s))
  }

  /** `s < 0` with `s` a string: true only for a string that reads as a
      negative integer. "-0" reads as zero and is not negative. */
  predicate IsNegativeNumber(s: string) {
    ToInteger(s).Some? && ToInteger(s).value < 0
  }

  function DigitChar(n: nat): (c: char)
    requires n < 10
    ensures IsDigit(c) && DigitValue(c) == n
  {
    ('0' as int + n) as char
  }

  /** The decimal digits of a natural number, without leading zeros. */
  function Digits(n: nat): string {
    if n < 10 then [DigitChar(n)] else Digits(n / 10) + [DigitChar(n % 10)]
  }

  /** The canonical decimal text of an integer: a '-' for negatives, then its digits. */
  function Decimal(n: int): string {
    if n < 0 then "-" + Digits(-n) else Digits(n)
  }

  /** The digits of `n` are digits, there is at least one, and they read back as `n`. */
  lemma {:induction false} DigitsRoundTrip(n: nat)
    ensures |Digits(n)| >= 1 && AllDigits(Digits(n))
    ensures DigitsValue(Digits(n)) == n
  {
    if n >= 10 {
      DigitsRoundTrip(n / 10);
      var d := Digits(n);
      assert d[..|d| - 1] == Digits(n / 10);
    }
  }

  /** Text without whitespace is left alone by `trim()`. */
  lemma TrimNoWhitespace(s: string)
    requires NoWhitespace(s)
    ensures Trim(s) == s
  {
    if s != [] {
      TrimPadded([], s, []);
      assert [] + s + [] == s;
    }
  }

  lemma DigitsUnpadded(d: string)
    requires AllDigits(d)
    ensures Trim(d) == d
  {
    assert NoWhitespace(d);
    TrimNoWhitespace(d);
  }

  lemma ParseUnsigned(d: string)
    requires |d| >= 1 && AllDigits(d)
    ensures ParseInteger(d) == Some(DigitsValue(d) as int)
  {
    assert !(d[0] == '-' || d[0] == '+');
  }

  /** A run of digits converts to its value. */
  lemma UnsignedToInteger(d: string)
    requires |d| >= 1 && AllDigits(d)
    ensures ToInteger(d) == Some(DigitsValue(d) as int)
  {
    DigitsUnpadded(d);
    ParseUnsigned(d);
  }

  /** A '-' followed by a run of digits converts to the negated value. */
  lemma {:induction false} NegatedToInteger(d: string)
    requires |d| >= 1 && AllDigits(d)
    ensures ToInteger("-" + d) == Some(-(DigitsValue(d) as int))
  {
    var s := "-" + d;
    assert Trim(s) == s by {
      assert NoWhitespace(s) by {
        forall i | 0 <= i < |s| ensures !IsWhitespace(s[i]) {
          if i > 0 { assert s[i] == d[i - 1]; }
        }
      }
      TrimNoWhitespace(s);
    }
    assert ParseInteger(s) == Some(-(DigitsValue(d) as int)) by {
      assert s[1..] == d;
    }
  }

  /** Every integer written in decimal converts back to itself. */
  lemma DecimalRoundTrip(n: int)
    ensures ToInteger(Decimal(n)) == Some(n)
  {
    if n < 0 {
      DigitsRoundTrip(-n);
      NegatedToInteger(Digits(-n));
    } else {
      DigitsRoundTrip(n);
      UnsignedToInteger(Digits(n));
    }
  }

  /** A string holding an integer counts as negative exactly when the integer is. */
  lemma NegativeDecimalIff(n: int)
    ensures IsNegativeNumber(Decimal(n)) <==> n < 0
  {
    DecimalRoundTrip(n);
  }

  /** Text that is not an integer, such as "abc", is never negative. */
  lemma NonNumericNotNegative(s: string)
    requires ToInteger(s) == None
    ensures !IsNegativeNumber(s)
  {
  }
}
