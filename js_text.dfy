/**
 * The character classes and the string length the two forms' regular
 * expressions and checks rely on, in JavaScript's own terms.
 */
module JsText {

  /**
   * The characters JavaScript's `\s` matches: ECMAScript's WhiteSpace
   * (tab, vertical tab, form feed, space, no-break space, the byte order
   * mark and the Unicode space separators) and LineTerminator (line feed,
   * carriage return, line and paragraph separators).  None of them is an
   * ASCII letter or digit, '@' or '.', or lies outside the Basic
   * Multilingual Plane.
   */
  predicate IsWhitespace(c: char): (b: bool)
    ensures b ==> !IsLetter(c) && !IsDigit(c) && c != '@' && c != '.' && !IsAstral(c)
  {
    c == '\t' || c == '\n' || c == '\U{000B}' || c == '\U{000C}' || c == '\r' || c == ' '
    || c == '\U{00A0}' || c == '\U{1680}' || ('\U{2000}' <= c <= '\U{200A}')
    || c == '\U{2028}' || c == '\U{2029}' || c == '\U{202F}' || c == '\U{205F}'
    || c == '\U{3000}' || c == '\U{FEFF}'
  }

  /** `[A-Z]` */
  predicate IsUpper(c: char) { 'A' <= c <= 'Z' }

  /** `[a-z]` */
  predicate IsLower(c: char) { 'a' <= c <= 'z' }

  /** `\d`, which in JavaScript is ASCII digits only. */
  predicate IsDigit(c: char) { '0' <= c <= '9' }

  /** `[a-zA-Z]` */
  predicate IsLetter(c: char) { IsUpper(c) || IsLower(c) }

  /** A character outside the Basic Multilingual Plane: two UTF-16 code units. */
  predicate IsAstral(c: char) { c as int > 0xFFFF }

  function CodeUnits(c: char): nat { if IsAstral(c) then 2 else 1 }

  /**
   * JavaScript's `String.prototype.length`: the number of UTF-16 code
   * units, so between one and two per character, and exactly one per
   * character when none lies outside the Basic Multilingual Plane.
   */
  function Utf16Length(s: string): (n: nat)
    ensures |s| <= n <= 2 * |s|
    ensures n == |s| <==> forall k :: 0 <= k < |s| ==> !IsAstral(s[k])
  {
    if s == [] then 0
    else
      assert forall k :: 1 <= k < |s| ==> s[1..][k - 1] == s[k];
      CodeUnits(s[0]) + Utf16Length(s[1..])
  }

  /** Code units add up over concatenation. */
  lemma {:induction false} Utf16LengthAppend(a: string, b: string)
    ensures Utf16Length(a + b) == Utf16Length(a) + Utf16Length(b)
  {
    if a != [] {
      assert (a + b)[0] == a[0] && (a + b)[1..] == a[1..] + b;
      Utf16LengthAppend(a[1..], b);
    } else {
      assert a + b == b;
    }
  }
}
