/** The JavaScript string built-ins the worker relies on: `String.prototype.trim`,
    `toLowerCase`, `includes`, and the conversion of a number inside a template
    literal. */
module JsString {

  /** The ECMAScript WhiteSpace and LineTerminator code points: exactly the
      characters `trim` removes from both ends of a string. */
  predicate IsWhitespace(c: char) {
    || c == '\t' || c == '\U{B}' || c == '\U{C}' || c == ' ' || c == '\U{A0}' || c == '\U{FEFF}'
    || c == '\U{1680}' || ('\U{2000}' <= c <= '\U{200A}') || c == '\U{202F}' || c == '\U{205F}'
    || c == '\U{3000}' || c == '\n' || c == '\r' || c == '\U{2028}' || c == '\U{2029}'
  }

  /** `trim`'s removal of the leading whitespace. */
  function TrimStart(s: string): string {
    if |s| > 0 && IsWhitespace(s[0]) then TrimStart(s[1..]) else s
  }

  /** What is left after the leading whitespace is a suffix of `s` that does not
      start with whitespace, and everything dropped was whitespace. */
  lemma {:induction false} TrimStartSpec(s: string)
    ensures var r := TrimStart(s);
      && |r| <= |s| && r == s[|s| - |r|..]
      && (forall i :: 0 <= i < |s| - |r| ==> IsWhitespace(s[i]))
      && (r == [] || !IsWhitespace(r[0]))
  {
    if |s| > 0 && IsWhitespace(s[0]) {
      TrimStartSpec(s[1..]);
    }
  }

  /** `trim`'s removal of the trailing whitespace. */
  function TrimEnd(s: string): string {
    if |s| > 0 && IsWhitespace(s[|s| - 1]) then TrimEnd(s[..|s| - 1]) else s
  }

  /** What is left after the trailing whitespace is a prefix of `s` that does
      not end with whitespace, and everything dropped was whitespace. */
  lemma {:induction false} TrimEndSpec(s: string)
    ensures var r := TrimEnd(s);
      && |r| <= |s| && r == s[..|r|]
      && (forall i :: |r| <= i < |s| ==> IsWhitespace(s[i]))
      && (r == [] || !IsWhitespace(r[|r| - 1]))
  {
    if |s| > 0 && IsWhitespace(s[|s| - 1]) {
      TrimEndSpec(s[..|s| - 1]);
    }
  }

  /** The number of leading whitespace characters `trim` removes. */
  function TrimOffset(s: string): int {
    |s| - |TrimStart(s)|
  }

  /** `s.trim()`. */
  function Trim(s: string): string {
    TrimEnd(TrimStart(s))
  }

  /** `s.trim()` is the slice of `s` between its leading and its trailing run of
      whitespace, and neither starts nor ends with whitespace. */
  lemma TrimSpec(s: string)
    ensures var r, a := Trim(s), TrimOffset(s);
      && 0 <= a && a + |r| <= |s| && r == s[a..a + |r|]
      && (forall i :: 0 <= i < a ==> IsWhitespace(s[i]))
      && (forall i :: a + |r| <= i < |s| ==> IsWhitespace(s[i]))
      && (r == [] || (!IsWhitespace(r[0]) && !IsWhitespace(r[|r| - 1])))
  {
    TrimStartSpec(s);
    TrimEndSpec(TrimStart(s));
  }

  /** The trimmed string is a slice of the original. */
  lemma TrimSlice(s: string)
    ensures 0 <= TrimOffset(s) && TrimOffset(s) + |Trim(s)| <= |s|
    ensures Trim(s) == s[TrimOffset(s)..TrimOffset(s) + |Trim(s)|]
  {
    TrimSpec(s);
  }

  /** Lower-casing the trimmed string is slicing the lower-cased original. */
  lemma LowerTrim(s: string)
    ensures 0 <= TrimOffset(s) && TrimOffset(s) + |Trim(s)| <= |s|
    ensures Lower(Trim(s)) == Lower(s)[TrimOffset(s)..TrimOffset(s) + |Trim(s)|]
  {
    TrimSlice(s);
    LowerSlice(s, TrimOffset(s), TrimOffset(s) + |Trim(s)|);
  }

  /** An occurrence in the lower-cased string that lies inside the trimmed
      part is an occurrence in the lower-cased trimmed string. */
  lemma OccurrenceInTrimmed(s: string, t: string, i: nat)
    requires TrimOffset(s) <= i && i + |t| <= TrimOffset(s) + |Trim(s)|
    requires i + |t| <= |Lower(s)| && t <= Lower(s)[i..]
    ensures IsSubstring(t, Lower(Trim(s)))
  {
    LowerTrim(s);
    SubstringInSlice(t, Lower(s), TrimOffset(s), TrimOffset(s) + |Trim(s)|, i);
  }

  /** A character whose lower-cased form is not whitespace lies inside the
      trimmed part. */
  lemma SolidCharKept(s: string, i: nat)
    requires i < |s| && !IsWhitespace(Lower(s)[i])
    ensures TrimOffset(s) <= i < TrimOffset(s) + |Trim(s)|
  {
    assert Lower(s)[i] == LowerChar(s[i]);
    LowerCharWhitespace(s[i]);
    TrimSpec(s);
  }

  /** `toLowerCase` on one character, for the ASCII upper-case letters; every
      other character is left as it is. */
  function LowerChar(c: char): (r: char)
    ensures !('A' <= r <= 'Z')
    ensures !('A' <= c <= 'Z') ==> r == c
  {
    if 'A' <= c <= 'Z' then (c as int - 'A' as int + 'a' as int) as char else c
  }

  /** Lower-casing neither makes nor unmakes whitespace. */
  lemma LowerCharWhitespace(c: char)
    ensures IsWhitespace(LowerChar(c)) <==> IsWhitespace(c)
  {
  }

  /** `s.toLowerCase()`, character by character. */
  function Lower(s: string): string {
    seq(|s|, i requires 0 <= i < |s| => LowerChar(s[i]))
  }

  /** Lower-casing commutes with slicing. */
  lemma LowerSlice(s: string, a: nat, b: nat)
    requires a <= b <= |s|
    ensures Lower(s[a..b]) == Lower(s)[a..b]
  {
  }

  /** `t` occurs in `s` as a contiguous substring. */
  ghost predicate IsSubstring(t: string, s: string) {
    exists i :: 0 <= i <= |s| && t <= s[i..]
  }

  /** `s.includes(t)`: a left-to-right scan for an occurrence of `t`. */
  function Includes(s: string, t: string): bool
    decreases |s|
  {
    if t <= s then true else if |s| == 0 then false else Includes(s[1..], t)
  }

  /** The scan finds an occurrence exactly when there is one. */
  lemma {:induction false} IncludesSpec(s: string, t: string)
    ensures Includes(s, t) <==> IsSubstring(t, s)
    decreases |s|
  {
    if t <= s {
      assert s[0..] == s;
    } else if |s| > 0 {
      IncludesSpec(s[1..], t);
      assert forall i :: 1 <= i <= |s| ==> s[1..][i - 1..] == s[i..];
    }
  }

  /** An occurrence inside a slice is an occurrence in the whole string. */
  lemma {:induction false} SubstringOfSlice(t: string, s: string, a: nat, b: nat)
    requires a <= b <= |s|
    requires IsSubstring(t, s[a..b])
    ensures IsSubstring(t, s)
  {
    var i :| 0 <= i <= b - a && t <= s[a..b][i..];
    assert s[a..b][i..] <= s[a + i..];
  }

  /** An occurrence that lies within `[a, b)` is an occurrence in the slice `s[a..b]`. */
  lemma {:induction false} SubstringInSlice(t: string, s: string, a: nat, b: nat, i: nat)
    requires a <= i && i + |t| <= b <= |s|
    requires t <= s[i..]
    ensures IsSubstring(t, s[a..b])
  {
    assert t <= s[a..b][i - a..];
  }

  /** The character for a decimal digit. */
  function DigitChar(d: nat): (c: char)
    requires d < 10
    ensures '0' <= c <= '9' && c as int - '0' as int == d
  {
    ('0' as int + d) as char
  }

  /** The decimal rendering of a number, as JavaScript writes a non-negative
      integer into a template literal: digits only, no leading zero. */
  function NatToString(n: nat): (r: string)
    ensures |r| >= 1
    ensures forall i :: 0 <= i < |r| ==> '0' <= r[i] <= '9'
    ensures |r| > 1 ==> r[0] != '0'
    decreases n
  {
    if n < 10 then [DigitChar(n)] else NatToString(n / 10) + [DigitChar(n % 10)]
  }

  /** The number a string of decimal digits denotes. */
  function DigitsValue(s: string): nat
    requires forall i :: 0 <= i < |s| ==> '0' <= s[i] <= '9'
  {
    if s == [] then 0 else DigitsValue(s[..|s| - 1]) * 10 + (s[|s| - 1] as int - '0' as int)
  }

  /** Reading the digits back gives the number that was written. */
  lemma {:induction false} NatToStringRoundTrip(n: nat)
    ensures DigitsValue(NatToString(n)) == n
  {
    if n >= 10 {
      var prefix := NatToString(n / 10);
      assert (prefix + [DigitChar(n % 10)])[..|prefix|] == prefix;
      NatToStringRoundTrip(n / 10);
    }
  }

  /** Two numbers with the same rendering are the same number. */
  lemma NatToStringInjective(m: nat, n: nat)
    requires NatToString(m) == NatToString(n)
    ensures m == n
  {
    NatToStringRoundTrip(m);
    NatToStringRoundTrip(n);
  }
}
