/** Characters, and white space around texts. */
module Texts {

  /** The Unicode tables the implementation language consults. */
  datatype CharClass = CharClass(alphabetic: char -> bool, alphanumeric: char -> bool)

  predicate IsAsciiDigit(c: char) {
    '0' <= c <= '9'
  }

  /** What the code relies on of those tables: letters and digits are
      alphanumeric, and the ASCII marks it looks for are not. */
  ghost predicate Sane(cls: CharClass) {
    && (forall c: char :: cls.alphabetic(c) ==> cls.alphanumeric(c))
    && (forall c: char :: IsAsciiDigit(c) ==> cls.alphanumeric(c) && !cls.alphabetic(c))
    && (forall c: char :: 'a' <= c <= 'z' || 'A' <= c <= 'Z' ==> cls.alphabetic(c))
    && (forall c: char :: IsMark(c) ==> !cls.alphanumeric(c))
  }

  /** The ASCII characters that are neither letters nor digits. */
  predicate IsMark(c: char) {
    c <= '/' || ':' <= c <= '@' || '[' <= c <= '`' || '{' <= c <= '\U{7F}'
  }

  predicate IsWhitespace(c: char) {
    '\t' <= c <= '\r' || c in {' ', '\U{85}', '\U{A0}', '\U{1680}', '\U{2028}', '\U{2029}', '\U{202F}', '\U{205F}', '\U{3000}'}
    || '\U{2000}' <= c <= '\U{200A}'
  }

  function TrimStart(s: string): string {
    if s != [] && IsWhitespace(s[0]) then TrimStart(s[1..]) else s
  }

  function TrimEnd(s: string): string {
    if s != [] && IsWhitespace(s[|s| - 1]) then TrimEnd(s[..|s| - 1]) else s
  }

  function Trim(s: string): string {
    TrimEnd(TrimStart(s))
  }

  /** Whether a name may start with `c`. */
  predicate StartsName(cls: CharClass, c: char) {
    cls.alphabetic(c) || c == '_'
  }

  /** How many digits come first. */
  function DigitRun(t: string): (n: nat)
    ensures n <= |t| && (n < |t| ==> !IsAsciiDigit(t[n])) && forall i :: 0 <= i < n ==> IsAsciiDigit(t[i])
  {
    if t == [] || !IsAsciiDigit(t[0]) then 0 else 1 + DigitRun(t[1..])
  }

  lemma {:induction false} DigitRunOf(d: string, rest: string)
    requires (forall i :: 0 <= i < |d| ==> IsAsciiDigit(d[i])) && (rest == [] || !IsAsciiDigit(rest[0]))
    ensures DigitRun(d + rest) == |d|
  {
    if d == [] {
      assert d + rest == rest;
    } else {
      DigitRunOf(d[1..], rest);
      assert (d + rest)[1..] == d[1..] + rest;
    }
  }

  function Lower(c: char): char {
    if 'A' <= c <= 'Z' then (c as int + 32) as char else c
  }

  predicate EqIgnoreAsciiCase(a: string, b: string) {
    |a| == |b| && forall i :: 0 <= i < |a| ==> Lower(a[i]) == Lower(b[i])
  }

  lemma Reassociate(a: string, b: string, c: string)
    ensures (a + b) + c == a + (b + c)
  {
  }
}
