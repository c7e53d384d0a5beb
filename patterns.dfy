/**
 * The two regular expressions the forms test input against:
 *   e-mail  /^[^\s@]+@[^\s@]+\.[^\s@]+$/   (both forms)
 *   phone   /^[\+]?[1-9][\d]{0,15}$/       (job application, after removing every \s)
 * The e-mail pattern is a loose approximation of the addr-spec of section
 * 3.4.1 of RFC 5322; the model follows the pattern, not the RFC.
 */
module Patterns {
  import opened Text

  // ---------------------------------------------------------------------------
  // E-mail

  /** One character of the class `[^\s@]`. */
  predicate AddressChar(c: char) {
    !IsWhitespace(c) && c != '@'
  }

  predicate AllAddressChars(s: string) {
    forall i | 0 <= i < |s| :: AddressChar(s[i])
  }

  /** `s` reads L '@' A '.' B with the '@' at `at` and the '.' at `dot`, where
      L, A and B are non-empty runs of `[^\s@]` (A may itself hold dots). */
  ghost predicate SplitsAsAddress(s: string, at: int, dot: int) {
    && 0 < at && at + 1 < dot && dot + 1 < |s|
    && s[at] == '@' && s[dot] == '.'
    && AllAddressChars(s[..at]) && AllAddressChars(s[at + 1..dot]) && AllAddressChars(s[dot + 1..])
  }

  /** The language of the e-mail pattern, stated by its decomposition. */
  ghost predicate IsAddressShape(s: string) {
    exists at, dot :: SplitsAsAddress(s, at, dot)
  }

  /** Index of the first occurrence of `c`, or `|s|` when there is none. */
  function IndexOf(s: string, c: char): nat {
    if s == [] then 0 else if s[0] == c then 0 else 1 + IndexOf(s[1..], c)
  }

  /** IndexOf finds the first `c`, or reports none by returning `|s|`. */
  lemma {:induction false} IndexOfSpec(s: string, c: char)
    ensures IndexOf(s, c) <= |s|
    ensures IndexOf(s, c) < |s| ==> s[IndexOf(s, c)] == c
    ensures forall k | 0 <= k < IndexOf(s, c) :: s[k] != c
  {
    if s != [] && s[0] != c {
      IndexOfSpec(s[1..], c);
    }
  }

  /** `t` has a '.' with at least one character on either side. */
  predicate HasInnerDot(t: string) {
    exists k | 0 < k < |t| - 1 :: t[k] == '.'
  }

  /** `/^[^\s@]+@[^\s@]+\.[^\s@]+$/.test(s)`, decided by splitting at the first '@'. */
  predicate MatchesEmailPattern(s: string) {
    var at := IndexOf(s, '@');
    && 0 < at < |s|
    && AllAddressChars(s[..at])
    && AllAddressChars(s[at + 1..])
    && HasInnerDot(s[at + 1..])
  }

  /** The matcher accepts exactly the strings of the form L@A.B. */
  lemma EmailPatternIsAddressShape(s: string)
    ensures MatchesEmailPattern(s) <==> IsAddressShape(s)
  {
    IndexOfSpec(s, '@');
    if MatchesEmailPattern(s) {
      var at := IndexOf(s, '@');
      var t := s[at + 1..];
      var k :| 0 < k < |t| - 1 && t[k] == '.';
      var dot := at + 1 + k;
      assert s[at + 1..dot] == t[..k];
      assert s[dot + 1..] == t[k + 1..];
      assert SplitsAsAddress(s, at, dot);
    }
    if IsAddressShape(s) {
      var at, dot :| SplitsAsAddress(s, at, dot);
      forall k | 0 <= k < at ensures s[k] != '@' {
        assert s[k] == s[..at][k];
      }
      IndexOfFirst(s, '@', at);
      var t := s[at + 1..];
      forall i | 0 <= i < |t| ensures AddressChar(t[i]) {
        if at + 1 + i < dot {
          assert t[i] == s[at + 1..dot][i];
        } else if at + 1 + i > dot {
          assert t[i] == s[dot + 1..][i - (dot - at)];
        }
      }
      assert t[dot - at - 1] == '.';
    }
  }

  /** A position holding `c` with no earlier `c` is what IndexOf finds. */
  lemma {:induction false} IndexOfFirst(s: string, c: char, i: nat)
    requires i < |s| && s[i] == c
    requires forall k | 0 <= k < i :: s[k] != c
    ensures IndexOf(s, c) == i
  {
    if i > 0 {
      IndexOfFirst(s[1..], c, i - 1);
    }
  }

  // ---------------------------------------------------------------------------
  // Phone

  predicate IsDigit(c: char) {
    '0' <= c <= '9'
  }

  /** `[1-9][\d]{0,15}`: a non-zero digit followed by up to fifteen digits. */
  predicate PhoneDigits(t: string) {
    && 1 <= |t| <= 16
    && '1' <= t[0] <= '9'
    && forall i | 1 <= i < |t| :: IsDigit(t[i])
  }

  /** `/^[\+]?[1-9][\d]{0,15}$/.test(p)` */
  predicate MatchesPhonePattern(p: string) {
    PhoneDigits(p) || (|p| > 0 && p[0] == '+' && PhoneDigits(p[1..]))
  }

  /** `s.replace(/\s/g, '')`: `s` with every whitespace character deleted,
      the others kept in order. */
  function RemoveWhitespace(s: string): string {
    if s == [] then []
    else if IsWhitespace(s[0]) then RemoveWhitespace(s[1..])
    else [s[0]] + RemoveWhitespace(s[1..])
  }

  /** What is left has no whitespace; blank text leaves nothing and text
      without whitespace is left as it is. */
  lemma {:induction false} RemoveWhitespaceSpec(s: string)
    ensures NoWhitespace(RemoveWhitespace(s)) && |RemoveWhitespace(s)| <= |s|
    ensures AllWhitespace(s) ==> RemoveWhitespace(s) == []
    ensures NoWhitespace(s) ==> RemoveWhitespace(s) == s
  {
    if s != [] {
      RemoveWhitespaceSpec(s[1..]);
      if NoWhitespace(s) {
        assert s == [s[0]] + s[1..];
      }
    }
  }

  /** Every character that is not whitespace survives the deletion. */
  lemma {:induction false} RemoveWhitespaceKeeps(s: string, i: int)
    requires 0 <= i < |s| && !IsWhitespace(s[i])
    ensures s[i] in RemoveWhitespace(s)
  {
    if i > 0 {
      RemoveWhitespaceKeeps(s[1..], i - 1);
    }
  }

  /** Deleting whitespace piece by piece gives the same result as deleting it at once. */
  lemma {:induction false} RemoveWhitespaceAppend(a: string, b: string)
    ensures RemoveWhitespace(a + b) == RemoveWhitespace(a) + RemoveWhitespace(b)
  {
    if a != [] {
      assert (a + b)[1..] == a[1..] + b;
      RemoveWhitespaceAppend(a[1..], b);
    } else {
      assert a + b == b;
    }
  }

  /** The phone check does not depend on where the applicant puts spaces:
      whitespace inserted anywhere leaves the verdict unchanged. */
  lemma PhoneCheckIgnoresSpacing(a: string, w: string, b: string)
    requires AllWhitespace(w)
    ensures MatchesPhonePattern(RemoveWhitespace(a + w + b)) == MatchesPhonePattern(RemoveWhitespace(a + b))
  {
    RemoveWhitespaceAppend(a + w, b);
    RemoveWhitespaceAppend(a, w);
    RemoveWhitespaceAppend(a, b);
    RemoveWhitespaceSpec(w);
    assert RemoveWhitespace(a) + [] == RemoveWhitespace(a);
  }

  /** A phone number the pattern accepts has between one and sixteen digits
      after an optional leading '+', and nothing else. */
  lemma PhonePatternShape(p: string)
    requires MatchesPhonePattern(p)
    ensures 1 <= |p| <= 17
    ensures forall i | 0 <= i < |p| :: IsDigit(p[i]) || (i == 0 && p[i] == '+')
  {
    if !PhoneDigits(p) {
      assert forall i | 1 <= i < |p| :: p[i] == p[1..][i - 1];
    }
  }

  /** Text holding a character that is neither a digit nor '+' is never a phone number. */
  lemma ContainsNonPhoneChar(p: string, c: char)
    requires c in p && !IsDigit(c) && c != '+'
    ensures !MatchesPhonePattern(p)
  {
    if MatchesPhonePattern(p) {
      PhonePatternShape(p);
    }
  }
}
