/** Decimal digit strings and the numbers they spell. */
module Decimals {
  import opened Texts

  predicate AllDigits(s: string) {
    forall i :: 0 <= i < |s| ==> IsAsciiDigit(s[i])
  }

  function Pow10(n: nat): (p: int)
    ensures p >= 1
  {
    if n == 0 then 1 else 10 * Pow10(n - 1)
  }

  function DigitOf(c: char): int
    requires IsAsciiDigit(c)
  {
    c as int - '0' as int
  }

  /** The number a digit string spells; the empty string spells 0. */
  function IntOf(s: string): (n: int)
    requires AllDigits(s)
    ensures n >= 0
  {
    if s == [] then 0 else 10 * IntOf(s[..|s| - 1]) + DigitOf(s[|s| - 1])
  }

  function Repeat(c: char, n: nat): (s: string)
    ensures |s| == n && forall i :: 0 <= i < n ==> s[i] == c
  {
    if n == 0 then [] else [c] + Repeat(c, n - 1)
  }

  lemma {:induction false} Pow10Sum(a: nat, b: nat)
    ensures Pow10(a + b) == Pow10(a) * Pow10(b)
  {
    if a > 0 {
      Pow10Sum(a - 1, b);
      assert Pow10(a + b) == 10 * Pow10(a - 1 + b);
      assert 10 * (Pow10(a - 1) * Pow10(b)) == 10 * Pow10(a - 1) * Pow10(b);
    }
  }

  lemma {:induction false} IntOfConcat(a: string, b: string)
    requires AllDigits(a) && AllDigits(b)
    ensures AllDigits(a + b)
    ensures IntOf(a + b) == IntOf(a) * Pow10(|b|) + IntOf(b)
  {
    if b == [] {
      assert a + b == a;
    } else {
      var init := b[..|b| - 1];
      IntOfConcat(a, init);
      assert (a + b)[..|a + b| - 1] == a + init;
      ShiftByTen(IntOf(a), Pow10(|init|), IntOf(init), DigitOf(b[|b| - 1]));
    }
  }

  lemma ShiftByTen(x: int, p: int, y: int, d: int)
    ensures 10 * (x * p + y) + d == x * (10 * p) + (10 * y + d)
  {
  }

  lemma IntOfSnoc(a: string, c: char)
    requires AllDigits(a) && IsAsciiDigit(c)
    ensures AllDigits(a + [c]) && IntOf(a + [c]) == 10 * IntOf(a) + DigitOf(c)
  {
    assert (a + [c])[..|a|] == a;
  }

  /** A digit and what stands before and after it. */
  lemma IntOfAround(head: string, c: char, tail: string)
    requires AllDigits(head) && IsAsciiDigit(c) && AllDigits(tail)
    ensures AllDigits(head + [c]) && AllDigits(head + [c] + tail)
    ensures IntOf(head + [c]) == 10 * IntOf(head) + DigitOf(c)
    ensures IntOf(head + [c] + tail) == IntOf(head + [c]) * Pow10(|tail|) + IntOf(tail)
  {
    IntOfSnoc(head, c);
    IntOfConcat(head + [c], tail);
  }

  lemma {:induction false} IntOfBound(s: string)
    requires AllDigits(s)
    ensures IntOf(s) < Pow10(|s|)
  {
    if s != [] {
      IntOfBound(s[..|s| - 1]);
    }
  }

  lemma {:induction false} IntOfRepeatZero(n: nat)
    ensures AllDigits(Repeat('0', n)) && IntOf(Repeat('0', n)) == 0
  {
    if n > 0 {
      IntOfRepeatZero(n - 1);
      var s := Repeat('0', n);
      assert s[..n - 1] == Repeat('0', n - 1);
    }
  }

  lemma {:induction false} IntOfNines(s: string)
    requires AllDigits(s) && forall i :: 0 <= i < |s| ==> s[i] == '9'
    ensures IntOf(s) == Pow10(|s|) - 1
  {
    if s != [] {
      IntOfNines(s[..|s| - 1]);
    }
  }

  lemma IntOfFirst(s: string)
    requires s != [] && AllDigits(s)
    ensures IntOf(s) == DigitOf(s[0]) * Pow10(|s| - 1) + IntOf(s[1..])
  {
    assert s == [] + [s[0]] + s[1..];
    IntOfAround([], s[0], s[1..]);
    assert IntOf([] + [s[0]]) == DigitOf(s[0]);
  }

  /** A string spells 0 exactly when every digit is 0. */
  lemma {:induction false} IntOfIsZero(s: string)
    requires AllDigits(s)
    ensures IntOf(s) == 0 <==> forall i :: 0 <= i < |s| ==> s[i] == '0'
  {
    if s != [] {
      IntOfIsZero(s[..|s| - 1]);
      assert forall i :: 0 <= i < |s| - 1 ==> s[i] == s[..|s| - 1][i];
    }
  }
}
