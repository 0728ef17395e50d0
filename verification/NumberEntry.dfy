/** Numbers typed into a cell, and that what a format shows reads back. */
module NumberEntry {
  import opened Results
  import opened Decimals
  import opened Numbers
  import opened Texts

  /** What a number text denotes: `coefficient * 10^exponent` for a finite one. */
  datatype Parsed = Finite(negative: bool, coefficient: int, exponent: int) | Infinite(negative: bool) | NotANumber

  // ----- the language's own number syntax -----

  /** The digits `s` starts with, and the rest. */
  function Span(s: string): (r: (string, string))
    ensures AllDigits(r.0)
  {
    if s == [] || !IsAsciiDigit(s[0]) then ([], s)
    else
      var (d, rest) := Span(s[1..]);
      ([s[0]] + d, rest)
  }

  function ToLower(s: string): string {
    if s == [] then []
    else [if 'A' <= s[0] <= 'Z' then (s[0] as int + 32) as char else s[0]] + ToLower(s[1..])
  }

  /** A leading `+` or `-`: whether it is `-`, and the rest. */
  function TakeSign(s: string): (bool, string) {
    if s != [] && s[0] == '-' then (true, s[1..])
    else if s != [] && s[0] == '+' then (false, s[1..])
    else (false, s)
  }

  /** An exponent part, or none: `e`, a sign, digits to the end. */
  function ParseExponent(s: string): Option<int> {
    if s == [] then Some(0)
    else if s[0] != 'e' && s[0] != 'E' then None
    else
      var (minus, digits) := TakeSign(s[1..]);
      if digits == [] || !AllDigits(digits) then None
      else Some(if minus then -IntOf(digits) else IntOf(digits))
  }

  /** The number of the digits read, if what follows them is an exponent or nothing. */
  function Finish(negative: bool, whole: string, frac: string, tail: string): Option<Parsed>
    requires AllDigits(whole) && AllDigits(frac)
  {
    if whole == [] && frac == [] then None
    else
      match ParseExponent(tail)
      case None => None
      case Some(e) => Some(Finite(negative, IntOf(whole + frac), e - |frac|))
  }

  /** After the first digits: a point and more digits, or not. */
  function ParseTail(negative: bool, whole: string, rest: string): Option<Parsed>
    requires AllDigits(whole)
  {
    if rest != [] && rest[0] == '.' then
      var (frac, tail) := Span(rest[1..]);
      Finish(negative, whole, frac, tail)
    else
      Finish(negative, whole, [], rest)
  }

  /** Digits with an optional point among or around them, and an exponent. */
  function ParseDecimal(negative: bool, s: string): Option<Parsed> {
    var (whole, rest) := Span(s);
    ParseTail(negative, whole, rest)
  }

  /** A float as the implementation language reads it. */
  function ParseFloat(s: string): Option<Parsed> {
    var (negative, t) := TakeSign(s);
    var word := ToLower(t);
    if word == "inf" || word == "infinity" then Some(Infinite(negative))
    else if word == "nan" then Some(NotANumber)
    else ParseDecimal(negative, t)
  }

  // ----- the cell reader -----

  function StripMinus(s: string): (bool, string) {
    if s != [] && s[0] == '-' then (true, s[1..]) else (false, s)
  }

  function StripCurrency(s: string): string {
    if s != [] && s[0] in {'$', '\U{20AC}', '\U{A3}', '\U{A5}'} then s[1..] else s
  }

  /** The pieces of `s` between occurrences of `c`: always at least one. */
  function Split(s: string, c: char): (pieces: seq<string>)
    ensures pieces != []
  {
    if s == [] then [[]]
    else
      var rest := Split(s[1..], c);
      if s[0] == c then [[]] + rest else [[s[0]] + rest[0]] + rest[1..]
  }

  function Without(s: string, c: char): string {
    if s == [] then []
    else if s[0] == c then Without(s[1..], c)
    else [s[0]] + Without(s[1..], c)
  }

  predicate Digits(s: string) {
    s != [] && AllDigits(s)
  }

  /** Digits, or a lead of at most three and groups of exactly three. */
  predicate WellGrouped(s: string, g: char) {
    var pieces := Split(s, g);
    && Digits(pieces[0])
    && (g in s ==> |pieces[0]| <= 3)
    && forall i :: 0 < i < |pieces| ==> |pieces[i]| == 3 && Digits(pieces[i])
  }

  /** What follows the sign and currency sign, in the locale's separators. */
  function ParseLocale(sep: Separators, minus: bool, t: string): Option<Parsed> {
    var (whole, frac) := SplitOnce(t, sep.Decimal());
    if WellGrouped(whole, sep.Group()) && (frac == [] || Digits(frac)) then
      ParseFloat(Signed(minus, Without(whole, sep.Group()) + "." + (if frac == [] then "0" else frac)))
    else None
  }

  function ParseNumber(sep: Separators, text: string): Option<Parsed> {
    if ParseFloat(text).Some? then ParseFloat(text)
    else
      var (minus, t) := StripMinus(text);
      var (minus2, u) := StripMinus(TrimStart(StripCurrency(t)));
      if minus && minus2 then None else ParseLocale(sep, minus || minus2, u)
  }

  // ----- reading plain decimals -----

  predicate StartsWithDigit(s: string) {
    s != [] && IsAsciiDigit(s[0])
  }

  lemma {:induction false} SpanOf(d: string, rest: string)
    requires AllDigits(d) && !StartsWithDigit(rest)
    ensures Span(d + rest) == (d, rest)
  {
    if d == [] {
      assert d + rest == rest;
    } else {
      SpanOf(d[1..], rest);
      assert (d + rest)[1..] == d[1..] + rest;
      assert [d[0]] + d[1..] == d;
    }
  }

  lemma SpanAll(d: string)
    requires AllDigits(d)
    ensures Span(d) == (d, [])
  {
    assert d + [] == d;
    SpanOf(d, []);
  }

  lemma NotAWord(t: string)
    requires StartsWithDigit(t)
    ensures ToLower(t) != "inf" && ToLower(t) != "infinity" && ToLower(t) != "nan"
  {
    assert ToLower(t)[0] == t[0];
  }

  lemma SignsStrip(neg: bool, t: string)
    requires StartsWithDigit(t)
    ensures StripMinus(Signed(neg, t)) == (neg, t)
    ensures TakeSign(Signed(neg, t)) == (neg, t)
    ensures StripMinus(TrimStart(StripCurrency(t))) == (false, t)
  {
    if neg {
      assert Signed(neg, t)[1..] == t;
    }
  }

  lemma SignedFloat(neg: bool, t: string)
    requires StartsWithDigit(t)
    ensures ParseFloat(Signed(neg, t)) == ParseDecimal(neg, t)
  {
    NotAWord(t);
    SignsStrip(neg, t);
  }

  lemma PlainInteger(neg: bool, d: string)
    requires Digits(d)
    ensures ParseDecimal(neg, d) == Some(Finite(neg, IntOf(d), 0))
  {
    SpanAll(d);
    assert d + [] == d;
  }

  lemma PlainDecimal(neg: bool, d: string, f: string)
    requires Digits(d) && AllDigits(f)
    ensures AllDigits(d + f)
    ensures ParseDecimal(neg, d + ("." + f)) == Some(Finite(neg, IntOf(d + f), -|f|))
  {
    SpanOf(d, "." + f);
    PointThenDigits(neg, d, f);
  }

  lemma PointThenDigits(neg: bool, d: string, f: string)
    requires Digits(d) && AllDigits(f)
    ensures ParseTail(neg, d, "." + f) == Some(Finite(neg, IntOf(d + f), -|f|))
  {
    assert ("." + f)[1..] == f;
    SpanAll(f);
    assert Finish(neg, d, f, []) == Some(Finite(neg, IntOf(d + f), -|f|));
  }

  /** A comma after the leading digits is not part of a number. */
  lemma CommaStops(neg: bool, d: string, rest: string)
    requires Digits(d) && rest != [] && rest[0] == ','
    ensures ParseDecimal(neg, d + rest) == None
  {
    SpanOf(d, rest);
  }

  /** After a point and its digits, neither a comma nor another point may follow. */
  lemma SecondMarkStops(neg: bool, d: string, f: string, rest: string)
    requires Digits(d) && AllDigits(f) && rest != [] && (rest[0] == ',' || rest[0] == '.')
    ensures ParseDecimal(neg, d + ("." + (f + rest))) == None
  {
    SpanOf(d, "." + (f + rest));
    assert ("." + (f + rest))[1..] == f + rest;
    SpanOf(f, rest);
  }

  // ----- reading groups -----

  lemma {:induction false} SplitNone(s: string, c: char)
    requires c !in s
    ensures Split(s, c) == [s]
  {
    if s != [] {
      SplitNone(s[1..], c);
      assert [s[0]] + s[1..] == s;
    }
  }

  lemma SplitFirst(s: string, c: char)
    requires s != []
    ensures Split(s, c) == (if s[0] == c then [[]] + Split(s[1..], c)
                            else [[s[0]] + Split(s[1..], c)[0]] + Split(s[1..], c)[1..])
  {
  }

  lemma {:induction false} SplitLast(a: string, c: char, b: string)
    requires c !in b
    ensures Split(a + [c] + b, c) == Split(a, c) + [b]
  {
    SplitFirst(a + [c] + b, c);
    if a == [] {
      SplitNone(b, c);
      assert (a + [c] + b)[1..] == b;
    } else {
      SplitLast(a[1..], c, b);
      assert (a + [c] + b)[1..] == a[1..] + [c] + b;
      SplitFirst(a, c);
      var rest := Split(a[1..], c);
      assert (rest + [b])[0] == rest[0] && (rest + [b])[1..] == rest[1..] + [b];
    }
  }

  lemma {:induction false} WithoutNone(s: string, c: char)
    requires c !in s
    ensures Without(s, c) == s
  {
    if s != [] {
      WithoutNone(s[1..], c);
    }
  }

  /** Grouped digits are pieces of three after a lead of at most three. */
  predicate GroupPieces(pieces: seq<string>) {
    && pieces != [] && Digits(pieces[0]) && |pieces[0]| <= 3
    && forall i :: 0 < i < |pieces| ==> |pieces[i]| == 3 && Digits(pieces[i])
  }

  lemma {:induction false} GroupedSplits(s: string, g: char)
    requires Digits(s) && !IsAsciiDigit(g)
    ensures GroupPieces(Split(Grouped(s, g), g))
    decreases |s|
  {
    if |s| <= 3 {
      SplitNone(s, g);
    } else {
      var head, last := s[..|s| - 3], s[|s| - 3..];
      GroupedSplits(head, g);
      SplitLast(Grouped(head, g), g, last);
    }
  }

  lemma {:induction false} GroupedWithout(s: string, g: char)
    requires AllDigits(s) && !IsAsciiDigit(g)
    ensures Without(Grouped(s, g), g) == s
    decreases |s|
  {
    if |s| <= 3 {
      WithoutNone(s, g);
    } else {
      var head, last := s[..|s| - 3], s[|s| - 3..];
      GroupedWithout(head, g);
      WithoutSeparator(Grouped(head, g), g, last);
      assert head + last == s;
    }
  }

  lemma {:induction false} WithoutSeparator(a: string, g: char, b: string)
    requires g !in b
    ensures Without(a + [g] + b, g) == Without(a, g) + b
  {
    if a == [] {
      WithoutNone(b, g);
      assert (a + [g] + b)[1..] == b;
    } else {
      WithoutSeparator(a[1..], g, b);
      assert (a + [g] + b)[1..] == a[1..] + [g] + b;
      assert [a[0]] + (Without(a[1..], g) + b) == [a[0]] + Without(a[1..], g) + b;
    }
  }

  /** Shown whole digits are well grouped, and are the digits once the separators go. */
  lemma WholeReadsBack(int_: string, grouping: bool, sep: Separators)
    requires Digits(int_)
    ensures WellGrouped(Whole(int_, grouping, sep), sep.Group())
    ensures Without(Whole(int_, grouping, sep), sep.Group()) == int_
    ensures sep.Decimal() !in Whole(int_, grouping, sep)
    ensures StartsWithDigit(Whole(int_, grouping, sep))
  {
    var g := sep.Group();
    if grouping {
      GroupedSplits(int_, g);
      GroupedWithout(int_, g);
      GroupedHasNo(int_, g, sep.Decimal());
      GroupedStartsWithDigit(int_, g);
    } else {
      SplitNone(int_, g);
      WithoutNone(int_, g);
    }
  }

  lemma {:induction false} GroupedHasNo(s: string, g: char, c: char)
    requires AllDigits(s) && !IsAsciiDigit(c) && c != g
    ensures c !in Grouped(s, g)
    decreases |s|
  {
    if |s| > 3 {
      GroupedHasNo(s[..|s| - 3], g, c);
    }
  }

  lemma {:induction false} GroupedStartsWithDigit(s: string, g: char)
    requires Digits(s)
    ensures StartsWithDigit(Grouped(s, g))
    decreases |s|
  {
    if |s| > 3 {
      GroupedStartsWithDigit(s[..|s| - 3], g);
    }
  }

  lemma {:induction false} SplitOnceAt(u: string, c: char, f: string)
    requires c !in u
    ensures SplitOnce(u + ([c] + f), c) == (u, f)
  {
    if u == [] {
      assert u + ([c] + f) == [c] + f;
    } else {
      SplitOnceAt(u[1..], c, f);
      assert (u + ([c] + f))[1..] == u[1..] + ([c] + f);
      assert [u[0]] + u[1..] == u;
    }
  }

  lemma {:induction false} SplitOnceNone(u: string, c: char)
    requires c !in u
    ensures SplitOnce(u, c) == (u, [])
  {
    if u != [] {
      SplitOnceNone(u[1..], c);
      assert [u[0]] + u[1..] == u;
    }
  }

  /** `p` is `r / 10^decimals` with the sign `neg`. */
  ghost predicate Denotes(p: Option<Parsed>, neg: bool, r: int, decimals: nat) {
    && p.Some? && p.value.Finite? && p.value.negative == neg && p.value.exponent <= 0
    && p.value.coefficient * Pow10(decimals) == r * Pow10(-p.value.exponent)
  }

  lemma ReadsDecimal(neg: bool, d: string, f: string)
    requires Digits(d) && AllDigits(f)
    ensures AllDigits(d + f)
    ensures ParseFloat(Signed(neg, d + "." + f)) == Some(Finite(neg, IntOf(d + f), -|f|))
  {
    PlainDecimal(neg, d, f);
    assert d + "." + f == d + ("." + f);
    SignedFloat(neg, d + "." + f);
  }

  lemma DenotesItself(neg: bool, r: int, d: nat)
    ensures Denotes(Some(Finite(neg, r, -(d as int))), neg, r, d)
  {
  }

  lemma DenotesTenfold(neg: bool, r: int)
    ensures Denotes(Some(Finite(neg, 10 * r, -1)), neg, r, 0)
  {
    OneZero();
  }

  lemma ThousandthIsAnother(neg: bool, r: int)
    requires r >= 1000
    ensures !Denotes(Some(Finite(neg, r, -3)), neg, r, 0)
  {
    OneZero();
  }

  /** Read in the locale's separators, shown text has the value shown. */
  lemma LocaleReads(neg: bool, int_: string, frac: string, grouping: bool, sep: Separators)
    requires Digits(int_) && AllDigits(frac) && AllDigits(int_ + frac)
    ensures Denotes(ParseLocale(sep, neg, Whole(int_, grouping, sep) + Fraction(frac, sep)), neg, IntOf(int_ + frac), |frac|)
  {
    if frac == [] {
      LocaleReadsInteger(neg, int_, Whole(int_, grouping, sep), grouping, sep);
      assert int_ + [] == int_;
      assert Whole(int_, grouping, sep) + [] == Whole(int_, grouping, sep);
      DenotesTenfold(neg, IntOf(int_));
    } else {
      LocaleReadsFraction(neg, int_, frac, Whole(int_, grouping, sep), grouping, sep);
      DenotesItself(neg, IntOf(int_ + frac), |frac|);
    }
  }

  lemma LocaleReadsInteger(neg: bool, int_: string, whole: string, grouping: bool, sep: Separators)
    requires Digits(int_) && whole == Whole(int_, grouping, sep)
    ensures ParseLocale(sep, neg, whole) == Some(Finite(neg, 10 * IntOf(int_), -1))
  {
    WholeReadsBack(int_, grouping, sep);
    SplitOnceNone(whole, sep.Decimal());
    ReadsDecimal(neg, int_, "0");
    IntOfSnoc(int_, '0');
  }

  lemma LocaleReadsFraction(neg: bool, int_: string, frac: string, whole: string, grouping: bool, sep: Separators)
    requires Digits(int_) && Digits(frac) && AllDigits(int_ + frac) && whole == Whole(int_, grouping, sep)
    ensures ParseLocale(sep, neg, whole + ([sep.Decimal()] + frac)) == Some(Finite(neg, IntOf(int_ + frac), -|frac|))
  {
    WholeReadsBack(int_, grouping, sep);
    SplitOnceAt(whole, sep.Decimal(), frac);
    ReadsDecimal(neg, int_, frac);
  }

  lemma OneZero()
    ensures Pow10(0) == 1 && Pow10(1) == 10 && Pow10(3) == 1000 && Pow10(6) == 1_000_000
  {
    assert Pow10(2) == 100;
    assert Pow10(4) == 10_000;
    assert Pow10(5) == 100_000;
  }

  /** When the text is not a number in the language's own syntax, the cell
      reader takes the locale's separators. */
  lemma ReaderFallsBack(neg: bool, int_: string, frac: string, grouping: bool, sep: Separators)
    requires Digits(int_)
    requires ParseFloat(Shown(neg, int_, frac, grouping, sep)).None?
    ensures ParseNumber(sep, Shown(neg, int_, frac, grouping, sep))
         == ParseLocale(sep, neg, Whole(int_, grouping, sep) + Fraction(frac, sep))
  {
    WholeReadsBack(int_, grouping, sep);
    SignsStrip(neg, Whole(int_, grouping, sep) + Fraction(frac, sep));
  }

  // ----- which shown texts are numbers in the language's own syntax -----

  /** Grouped digits are a lead, and then groups each after its separator. */
  lemma {:induction false} GroupedStarts(s: string, g: char) returns (lead: string, tail: string)
    requires Digits(s) && |s| > 3
    ensures Digits(lead) && Grouped(s, g) == lead + ([g] + tail)
    ensures |s| <= 6 ==> lead + tail == s && |tail| == 3
    ensures |s| > 6 ==> exists f, rest :: AllDigits(f) && tail == f + ([g] + rest)
    decreases |s|
  {
    var head, last := s[..|s| - 3], s[|s| - 3..];
    if |s| <= 6 {
      lead, tail := head, last;
      assert Grouped(s, g) == lead + ([g] + tail);
    } else {
      var tail0;
      lead, tail0 := GroupedStarts(head, g);
      tail := tail0 + ([g] + last);
      GroupedLonger(s, g, lead, tail0);
      if |head| <= 6 {
        assert AllDigits(tail0);
      } else {
        var f, rest :| AllDigits(f) && tail0 == f + ([g] + rest);
        assert tail == f + ([g] + (rest + ([g] + last)));
      }
    }
  }

  lemma GroupedLonger(s: string, g: char, lead: string, tail0: string)
    requires |s| > 3 && Grouped(s[..|s| - 3], g) == lead + ([g] + tail0)
    ensures Grouped(s, g) == lead + ([g] + (tail0 + ([g] + s[|s| - 3..])))
  {
    var last := s[|s| - 3..];
    assert Grouped(s, g) == lead + ([g] + tail0) + [g] + last;
    MoveParentheses(lead, [g], tail0, [g], last);
  }

  lemma MoveParentheses(a: string, b: string, c: string, d: string, e: string)
    ensures a + (b + c) + d + e == a + (b + (c + (d + e)))
  {
  }

  /** The one shape that reads as another number: German, grouped, no decimals,
      one group separator, which is the language's own decimal point. */
  predicate Ambiguous(int_: string, frac: string, grouping: bool, sep: Separators) {
    sep.German? && grouping && frac == [] && 4 <= |int_| <= 6
  }

  lemma GroupedOwnSyntax(neg: bool, int_: string, frac: string, sep: Separators)
    requires Digits(int_) && AllDigits(frac) && |int_| > 3
    ensures var p := ParseDecimal(neg, Grouped(int_, sep.Group()) + Fraction(frac, sep));
            if Ambiguous(int_, frac, true, sep) then p == Some(Finite(neg, IntOf(int_), -3)) else p.None?
  {
    var g, end := sep.Group(), Fraction(frac, sep);
    var lead, tail := GroupedStarts(int_, g);
    LeadThenTail(Grouped(int_, g), lead, g, tail, end);
    if sep.English? {
      CommaStops(neg, lead, [g] + (tail + end));
    } else if |int_| > 6 {
      var f, rest :| AllDigits(f) && tail == f + ([g] + rest);
      LeadThenTail(tail, f, g, rest, end);
      SecondMarkStops(neg, lead, f, [g] + (rest + end));
    } else {
      OneGroup(neg, int_, lead, tail, frac);
    }
  }

  lemma LeadThenTail(s: string, lead: string, g: char, tail: string, end: string)
    requires s == lead + ([g] + tail)
    ensures s + end == lead + ([g] + (tail + end))
  {
  }

  /** A German number with one group separator. */
  lemma OneGroup(neg: bool, int_: string, lead: string, tail: string, frac: string)
    requires Digits(int_) && Digits(lead) && lead + tail == int_ && |tail| == 3 && AllDigits(frac)
    ensures var p := ParseDecimal(neg, lead + ("." + (tail + Fraction(frac, German))));
            if frac == [] then p == Some(Finite(neg, IntOf(int_), -3)) else p.None?
  {
    assert AllDigits(tail) by {
      assert forall i :: 0 <= i < |tail| ==> tail[i] == int_[|lead| + i];
    }
    if frac == [] {
      assert tail + [] == tail;
      PlainDecimal(neg, lead, tail);
    } else {
      SecondMarkStops(neg, lead, tail, Fraction(frac, German));
    }
  }

  lemma PlainOwnSyntax(neg: bool, int_: string, frac: string, sep: Separators)
    requires Digits(int_) && AllDigits(frac) && AllDigits(int_ + frac)
    ensures var p := ParseDecimal(neg, int_ + Fraction(frac, sep));
            p.None? || p == Some(Finite(neg, IntOf(int_ + frac), -|frac|))
  {
    if frac == [] {
      assert int_ + [] == int_;
      PlainInteger(neg, int_);
    } else if sep.English? {
      PlainDecimal(neg, int_, frac);
    } else {
      CommaStops(neg, int_, Fraction(frac, sep));
    }
  }

  /** Shown text either is a number in the language's own syntax with the value
      shown, or is no such number, or is ambiguous. */
  lemma OwnSyntax(neg: bool, int_: string, frac: string, grouping: bool, sep: Separators)
    requires Digits(int_) && AllDigits(frac) && AllDigits(int_ + frac)
    ensures var p := ParseFloat(Shown(neg, int_, frac, grouping, sep));
            if Ambiguous(int_, frac, grouping, sep) then p == Some(Finite(neg, IntOf(int_), -3))
            else p.None? || p == Some(Finite(neg, IntOf(int_ + frac), -|frac|))
  {
    WholeReadsBack(int_, grouping, sep);
    SignedFloat(neg, Whole(int_, grouping, sep) + Fraction(frac, sep));
    if grouping && |int_| > 3 {
      GroupedOwnSyntax(neg, int_, frac, sep);
    } else {
      PlainOwnSyntax(neg, int_, frac, sep);
    }
  }

  /** The number of digits bounds the number, and without a leading zero from below too. */
  lemma LengthBounds(s: string)
    requires Digits(s) && (s[0] == '0' ==> |s| == 1)
    ensures 4 <= |s| <= 6 <==> 1000 <= IntOf(s) <= 999_999
  {
    OneZero();
    IntOfBound(s);
    if |s| <= 3 {
      PowersGrow(|s|, 3);
    } else {
      AtLeast(s);
      PowersGrow(3, |s| - 1);
      if |s| <= 6 {
        PowersGrow(|s|, 6);
      } else {
        PowersGrow(6, |s| - 1);
      }
    }
  }

  lemma AtLeast(s: string)
    requires Digits(s) && s[0] != '0'
    ensures Pow10(|s| - 1) <= IntOf(s)
  {
    IntOfFirst(s);
    Monotone(1, DigitOf(s[0]), Pow10(|s| - 1));
  }

  lemma {:induction false} PowersGrow(a: nat, b: nat)
    requires a <= b
    ensures Pow10(a) <= Pow10(b)
  {
    if a < b {
      PowersGrow(a, b - 1);
    }
  }

  /** What a format with decimals shows reads back as the rounded value, in
      English always, and in German exactly unless it is grouped without
      decimals and between 1000 and 999999: `1.500` reads as 1.5 there. */
  lemma ShownReadsBack(n: Scientific, decimals: nat, neg: bool, int_: string, frac: string, grouping: bool, sep: Separators)
    requires IsFixed(n, decimals, neg, int_, frac)
    ensures Denotes(ParseNumber(sep, Shown(neg, int_, frac, grouping, sep)), neg, IntOf(int_ + frac), decimals)
       <==> !(sep.German? && grouping && decimals == 0 && 1000 <= IntOf(int_ + frac) <= 999_999)
  {
    OwnSyntax(neg, int_, frac, grouping, sep);
    if ParseFloat(Shown(neg, int_, frac, grouping, sep)).None? {
      ReaderFallsBack(neg, int_, frac, grouping, sep);
      LocaleReads(neg, int_, frac, grouping, sep);
    }
    Conclude(ParseNumber(sep, Shown(neg, int_, frac, grouping, sep)), neg, int_, frac, grouping, sep);
  }

  lemma Conclude(p: Option<Parsed>, neg: bool, int_: string, frac: string, grouping: bool, sep: Separators)
    requires Digits(int_) && (int_[0] == '0' ==> |int_| == 1) && AllDigits(frac) && AllDigits(int_ + frac)
    requires if Ambiguous(int_, frac, grouping, sep) then p == Some(Finite(neg, IntOf(int_), -3))
             else p == Some(Finite(neg, IntOf(int_ + frac), -|frac|)) || Denotes(p, neg, IntOf(int_ + frac), |frac|)
    ensures Denotes(p, neg, IntOf(int_ + frac), |frac|)
       <==> !(sep.German? && grouping && |frac| == 0 && 1000 <= IntOf(int_ + frac) <= 999_999)
  {
    LengthBounds(int_);
    DenotesItself(neg, IntOf(int_ + frac), |frac|);
    if frac == [] {
      assert int_ + frac == int_;
      if IntOf(int_) >= 1000 {
        ThousandthIsAnother(neg, IntOf(int_));
      }
    }
  }

  /** What is read back from a text shown of `n`: `n` rounded, unless the text is
      the ambiguous German one. */
  ghost predicate ReadsBack(n: Scientific, decimals: nat, grouping: bool, sep: Separators, back: Option<Parsed>, neg: bool, r: int) {
    && AllDigits(n.digits)
    && IsRounding(r, IntOf(n.digits), 14 - n.exp - decimals) && (neg <==> n.negative && r != 0)
    && (Denotes(back, neg, r, decimals) <==> !(sep.German? && grouping && decimals == 0 && 1000 <= r <= 999_999))
  }

  lemma ShownReadsBackAs(n: Scientific, decimals: nat, neg: bool, int_: string, frac: string, grouping: bool, sep: Separators, text: string)
    requires IsFixed(n, decimals, neg, int_, frac) && text == Shown(neg, int_, frac, grouping, sep)
    ensures exists m, r :: ReadsBack(n, decimals, grouping, sep, ParseNumber(sep, text), m, r)
  {
    ShownReadsBack(n, decimals, neg, int_, frac, grouping, sep);
    assert ReadsBack(n, decimals, grouping, sep, ParseNumber(sep, text), neg, IntOf(int_ + frac));
  }

  /** A number's format shows a text that reads back as the number rounded to
      the format's decimals, half away from zero. */
  method ShowAndRead(n: Scientific, general: string, decimals: nat, grouping: bool, sep: Separators)
    returns (text: string, back: Option<Parsed>)
    requires IsScientific(n) && n.exp < 15
    ensures back == ParseNumber(sep, text)
    ensures exists neg, r :: ReadsBack(n, decimals, grouping, sep, back, neg, r)
  {
    text := FormatNumber(n, general, Some(NumberFormat(Some(decimals), grouping)), sep);
    ghost var neg, int_, frac :| IsFixed(n, decimals, neg, int_, frac) && text == Shown(neg, int_, frac, grouping, sep);
    ShownReadsBackAs(n, decimals, neg, int_, frac, grouping, sep, text);
    back := ParseNumber(sep, text);
  }
}
