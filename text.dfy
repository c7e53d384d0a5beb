/**
 * The JavaScript string primitives the forms rely on: the whitespace class
 * shared by `String.prototype.trim`, the regular-expression escape `\s` and
 * string-to-number conversion, `trim()` itself, and `length`, which counts
 * UTF-16 code units rather than characters.
 */
module Text {

  /** ECMAScript WhiteSpace (TAB, VT, FF, SP, NBSP, ZWNBSP and every Zs space
      separator) together with LineTerminator (LF, CR, LS, PS). */
  predicate IsWhitespace(c: char) {
    var n := c as int;
    n == 0x09 || n == 0x0A || n == 0x0B || n == 0x0C || n == 0x0D || n == 0x20
    || n == 0xA0 || n == 0x1680 || (0x2000 <= n <= 0x200A) || n == 0x2028
    || n == 0x2029 || n == 0x202F || n == 0x205F || n == 0x3000 || n == 0xFEFF
  }

  predicate AllWhitespace(s: string) {
    forall i | 0 <= i < |s| :: IsWhitespace(s[i])
  }

  predicate NoWhitespace(s: string) {
    forall i | 0 <= i < |s| :: !IsWhitespace(s[i])
  }

  /** True of the empty string and of a string that neither starts nor ends
      with whitespace: what `trim()` leaves behind. */
  predicate Unpadded(s: string) {
    s == [] || (!IsWhitespace(s[0]) && !IsWhitespace(s[|s| - 1]))
  }

  /** Drops the leading whitespace. */
  function TrimStart(s: string): string {
    if |s| > 0 && IsWhitespace(s[0]) then TrimStart(s[1..]) else s
  }

  /** Drops the trailing whitespace. */
  function TrimEnd(s: string): string {
    if |s| > 0 && IsWhitespace(s[|s| - 1]) then TrimEnd(s[..|s| - 1]) else s
  }

  /** `s.trim()` */
  function Trim(s: string): string {
    TrimEnd(TrimStart(s))
  }

  /** TrimStart leaves the suffix that starts at the first non-whitespace character. */
  lemma {:induction false} TrimStartSpec(s: string)
    ensures |TrimStart(s)| <= |s| && TrimStart(s) == s[|s| - |TrimStart(s)|..]
    ensures AllWhitespace(s[..|s| - |TrimStart(s)|])
    ensures TrimStart(s) == [] || !IsWhitespace(TrimStart(s)[0])
  {
    if |s| > 0 && IsWhitespace(s[0]) {
      var rest := s[1..];
      TrimStartSpec(rest);
      var k := |s| - |TrimStart(s)|;
      assert s[k..] == rest[k - 1..];
      forall i | 0 <= i < k ensures IsWhitespace(s[..k][i]) {
        if i > 0 {
          assert s[..k][i] == rest[..k - 1][i - 1];
        }
      }
    } else {
      assert s[..0] == [];
    }
  }

  /** TrimEnd leaves the prefix that ends at the last non-whitespace character. */
  lemma {:induction false} TrimEndSpec(s: string)
    ensures |TrimEnd(s)| <= |s| && TrimEnd(s) == s[..|TrimEnd(s)|]
    ensures AllWhitespace(s[|TrimEnd(s)|..])
    ensures TrimEnd(s) == [] || !IsWhitespace(TrimEnd(s)[|TrimEnd(s)| - 1])
  {
    if |s| > 0 && IsWhitespace(s[|s| - 1]) {
      var init := s[..|s| - 1];
      TrimEndSpec(init);
      var k := |TrimEnd(s)|;
      assert s[..k] == init[..k];
      forall j | 0 <= j < |s| - k ensures IsWhitespace(s[k..][j]) {
        if j < |s| - 1 - k {
          assert s[k..][j] == init[k..][j];
        }
      }
    } else {
      assert s[|s|..] == [];
    }
  }

  /** `trim()` leaves neither leading nor trailing whitespace. */
  lemma TrimUnpadded(s: string)
    ensures Unpadded(Trim(s))
  {
    var t := TrimStart(s);
    TrimStartSpec(s);
    TrimEndSpec(t);
    var r := TrimEnd(t);
    assert r != [] ==> r[0] == t[0];
  }

  /** `!s.trim()` holds exactly when every character of `s` is whitespace. */
  lemma {:induction false} TrimEmptyIff(s: string)
    ensures Trim(s) == [] <==> AllWhitespace(s)
  {
    var t := TrimStart(s);
    var k := |s| - |t|;
    TrimStartSpec(s);
    TrimEndSpec(t);
    if Trim(s) == [] {
      assert AllWhitespace(t[0..]);
      assert t[0..] == t;
      assert t == [];
      assert s == s[..k];
    }
    if AllWhitespace(s) {
      assert t == [];
    }
  }

  /** `trim()` removes exactly the whitespace padding around an unpadded core. */
  lemma {:induction false} TrimPadded(a: string, core: string, b: string)
    requires AllWhitespace(a) && AllWhitespace(b) && Unpadded(core)
    ensures Trim(a + core + b) == core
  {
    var s := a + core + b;
    if core == [] {
      assert AllWhitespace(s) by {
        forall i | 0 <= i < |s| ensures IsWhitespace(s[i]) {
          if i < |a| { assert s[i] == a[i]; } else { assert s[i] == b[i - |a|]; }
        }
      }
      TrimEmptyIff(s);
    } else {
      assert s == a + (core + b);
      TrimStartPadded(a, core + b);
      TrimEndPadded(core, b);
    }
  }

  lemma {:induction false} TrimStartPadded(a: string, t: string)
    requires AllWhitespace(a) && t != [] && !IsWhitespace(t[0])
    ensures TrimStart(a + t) == t
  {
    if a == [] {
      assert a + t == t;
    } else {
      assert (a + t)[1..] == a[1..] + t;
      TrimStartPadded(a[1..], t);
    }
  }

  lemma {:induction false} TrimEndPadded(t: string, b: string)
    requires AllWhitespace(b) && t != [] && !IsWhitespace(t[|t| - 1])
    ensures TrimEnd(t + b) == t
  {
    if b == [] {
      assert t + b == t;
    } else {
      assert (t + b)[..|t + b| - 1] == t + b[..|b| - 1];
      TrimEndPadded(t, b[..|b| - 1]);
    }
  }

  /** The number of UTF-16 code units of one character: two for a character
      outside the Basic Multilingual Plane, one otherwise. */
  function CodeUnits(c: char): nat {
    if c as int >= 0x1_0000 then 2 else 1
  }

  /** `s.length`: the number of UTF-16 code units of `s`. */
  function Utf16Length(s: string): (r: nat)
    ensures |s| <= r <= 2 * |s|
  {
    if s == [] then 0 else CodeUnits(s[0]) + Utf16Length(s[1..])
  }

  predicate InBasicPlane(s: string) {
    forall i | 0 <= i < |s| :: s[i] as int < 0x1_0000
  }

  /** For text made only of Basic Multilingual Plane characters, `length`
      counts characters. */
  lemma {:induction false} Utf16LengthBasicPlane(s: string)
    requires InBasicPlane(s)
    ensures Utf16Length(s) == |s|
  {
    if s != [] {
      assert InBasicPlane(s[1..]) by {
        forall i | 0 <= i < |s[1..]| ensures s[1..][i] as int < 0x1_0000 {
          assert s[1..][i] == s[i + 1];
        }
      }
      Utf16LengthBasicPlane(s[1..]);
    }
  }
}
