/** Numbers as the front ends show them: rounding the 15 significant digits of a
    number, and writing them with a locale's separators. */
module Numbers {
  import opened Results
  import opened Decimals

  /** A finite number as `{:.14e}` prints it: a sign, 15 significant digits
      `d1.d2...d15`, and a power of ten. */
  datatype Scientific = Scientific(negative: bool, digits: string, exp: int)

  predicate IsScientific(n: Scientific) {
    |n.digits| == 15 && AllDigits(n.digits)
  }

  /** `r` is `n / 10^k` rounded half up, for any sign of `k`. */
  ghost predicate IsRounding(r: int, n: int, k: int) {
    if k <= 0 then r == n * Pow10(-k)
    else 2 * r * Pow10(k) <= 2 * n + Pow10(k) < 2 * (r + 1) * Pow10(k)
  }

  lemma Monotone(a: int, b: int, p: int)
    requires a <= b && p >= 0
    ensures a * p <= b * p
  {
  }

  lemma RoundingIsUnique(r: int, s: int, n: int, k: int)
    requires IsRounding(r, n, k) && IsRounding(s, n, k)
    ensures r == s
  {
    if k > 0 {
      if r < s {
        Monotone(2 * (r + 1), 2 * s, Pow10(k));
      } else if s < r {
        Monotone(2 * (s + 1), 2 * r, Pow10(k));
      }
    }
  }

  /** What rounding to `decimals` places promises of a sign, integer digits and fraction digits. */
  ghost predicate IsFixed(n: Scientific, decimals: nat, neg: bool, int_: string, frac: string) {
    && |frac| == decimals && int_ != []
    && AllDigits(int_) && AllDigits(frac) && AllDigits(int_ + frac)
    && (int_[0] == '0' ==> |int_| == 1)
    && AllDigits(n.digits)
    && IsRounding(IntOf(int_ + frac), IntOf(n.digits), 14 - n.exp - decimals)
    && (neg <==> n.negative && IntOf(int_ + frac) != 0)
  }

  /** The digits before and from `keep` on, as numbers. */
  lemma SplitDigits(digits: string, keep: nat)
    requires AllDigits(digits) && keep <= |digits|
    ensures IntOf(digits) == IntOf(digits[..keep]) * Pow10(|digits| - keep) + IntOf(digits[keep..])
    ensures 0 <= IntOf(digits[keep..]) < Pow10(|digits| - keep)
  {
    assert digits == digits[..keep] + digits[keep..];
    IntOfConcat(digits[..keep], digits[keep..]);
    IntOfBound(digits[keep..]);
  }

  /** The first dropped digit says whether the dropped part is half or more. */
  lemma HalfOrMore(rest: string)
    requires rest != [] && AllDigits(rest)
    ensures rest[0] >= '5' <==> 2 * IntOf(rest) >= Pow10(|rest|)
  {
    IntOfFirst(rest);
    IntOfBound(rest[1..]);
    LeadingDigit(DigitOf(rest[0]), IntOf(rest[1..]), Pow10(|rest| - 1));
  }

  lemma LeadingDigit(d: int, m: int, p: int)
    requires 0 <= m < p
    ensures d >= 5 <==> 2 * (d * p + m) >= 10 * p
  {
    if d >= 5 {
      Monotone(5, d, p);
    } else {
      Monotone(d, 4, p);
    }
  }

  lemma RoundQuotient(q: int, m: int, p: int, r: int)
    requires 0 <= m < p && r == q + (if 2 * m >= p then 1 else 0)
    ensures 2 * r * p <= 2 * (q * p + m) + p < 2 * (r + 1) * p
  {
    assert 2 * (q + 1) * p == 2 * (q * p) + 2 * p;
    assert 2 * (q + 2) * p == 2 * (q * p) + 4 * p;
    assert 2 * q * p == 2 * (q * p);
  }

  lemma RoundDigits(digits: string, keep: nat, r: int)
    requires AllDigits(digits) && keep < |digits|
    requires r == IntOf(digits[..keep]) + (if digits[keep] >= '5' then 1 else 0)
    ensures IsRounding(r, IntOf(digits), |digits| - keep)
  {
    SplitDigits(digits, keep);
    HalfOrMore(digits[keep..]);
    RoundQuotient(IntOf(digits[..keep]), IntOf(digits[keep..]), Pow10(|digits| - keep), r);
  }

  /** The last position that does not hold `c`. */
  function LastNot(s: string, c: char): (i: Option<nat>)
    ensures i.Some? ==> i.value < |s| && s[i.value] != c && forall j :: i.value < j < |s| ==> s[j] == c
    ensures i.None? ==> forall j :: 0 <= j < |s| ==> s[j] == c
  {
    if s == [] then None
    else if s[|s| - 1] != c then Some(|s| - 1)
    else LastNot(s[..|s| - 1], c)
  }

  /** One more in the last place, where some digit is not 9. */
  lemma CarryInside(digits: string, i: nat, out: string)
    requires AllDigits(digits) && i < |digits| && digits[i] != '9'
    requires forall j :: i < j < |digits| ==> digits[j] == '9'
    requires out == digits[..i] + [(digits[i] as int + 1) as char] + Repeat('0', |digits| - i - 1)
    ensures AllDigits(out) && |out| == |digits| && IntOf(out) == IntOf(digits) + 1
  {
    var head, tail, zeros := digits[..i], digits[i + 1..], Repeat('0', |digits| - i - 1);
    assert digits == head + [digits[i]] + tail;
    IntOfRepeatZero(|zeros|);
    IntOfNines(tail);
    IntOfAround(head, digits[i], tail);
    IntOfAround(head, (digits[i] as int + 1) as char, zeros);
    OneMore(IntOf(head + [digits[i]]), IntOf(head + [(digits[i] as int + 1) as char]), Pow10(|tail|));
  }

  lemma OneMore(x: int, y: int, p: int)
    requires y == x + 1
    ensures y * p == x * p + p
  {
  }

  lemma CarryOut(digits: string, out: string)
    requires AllDigits(digits) && forall j :: 0 <= j < |digits| ==> digits[j] == '9'
    requires out == "1" + Repeat('0', |digits|)
    ensures AllDigits(out) && IntOf(out) == IntOf(digits) + 1
  {
    IntOfNines(digits);
    IntOfRepeatZero(|digits|);
    assert out == [] + ['1'] + Repeat('0', |digits|);
    IntOfAround([], '1', Repeat('0', |digits|));
  }

  /** The digits of `n` with the point among them: `point` digits before it. */
  lemma PlacedDigits(n: Scientific, digits: string, point: nat)
    requires IsScientific(n) && n.exp < 15
    requires if n.exp < 0 then digits == Repeat('0', -n.exp) + n.digits && point == 1
             else digits == n.digits && point == n.exp + 1
    ensures AllDigits(digits) && IntOf(digits) == IntOf(n.digits)
    ensures |digits| - point == 14 - n.exp
  {
    if n.exp < 0 {
      IntOfRepeatZero(-n.exp);
      IntOfConcat(Repeat('0', -n.exp), n.digits);
    }
  }

  lemma PadDigits(digits: string, keep: nat)
    requires AllDigits(digits) && |digits| <= keep
    ensures AllDigits(digits + Repeat('0', keep - |digits|))
    ensures IsRounding(IntOf(digits + Repeat('0', keep - |digits|)), IntOf(digits), |digits| - keep)
  {
    IntOfRepeatZero(keep - |digits|);
    IntOfConcat(digits, Repeat('0', keep - |digits|));
  }

  /** Drops the digits from `keep` on, adding one in the last place kept when
      the first dropped is 5 or more. A carry out of the top lengthens the number. */
  method RoundAt(digits: string, keep: nat) returns (out: string)
    requires AllDigits(digits) && keep < |digits|
    ensures AllDigits(out) && keep <= |out| <= keep + 1
    ensures IsRounding(IntOf(out), IntOf(digits), |digits| - keep)
  {
    var up := digits[keep] >= '5';
    out := digits[..keep];
    if up {
      match LastNot(out, '9') {
        case Some(i) =>
          out := out[..i] + [(out[i] as int + 1) as char] + Repeat('0', keep - i - 1);
          CarryInside(digits[..keep], i, out);
        case None =>
          out := "1" + Repeat('0', keep);
          CarryOut(digits[..keep], out);
      }
    }
    RoundDigits(digits, keep, IntOf(out));
  }

  /** `n`'s digits rounded half away from zero to `decimals` places; `None` from 1E+15. */
  method Fixed(n: Scientific, decimals: nat) returns (r: Option<(bool, string, string)>)
    requires IsScientific(n)
    ensures r.None? <==> n.exp >= 15
    ensures r.Some? ==> IsFixed(n, decimals, r.value.0, r.value.1, r.value.2)
  {
    if n.exp >= 15 {
      return None;
    }
    var digits := n.digits;
    var point := if n.exp >= 0 then n.exp + 1 else 0;
    if n.exp < 0 {
      digits := Repeat('0', -n.exp) + digits;
      point := 1;
    }
    PlacedDigits(n, digits, point);
    var keep := point + decimals;
    if |digits| <= keep {
      PadDigits(digits, keep);
      digits := digits + Repeat('0', keep - |digits|);
    } else {
      digits := RoundAt(digits, keep);
      if |digits| > keep {
        point := point + 1;
      }
    }
    assert IsRounding(IntOf(digits), IntOf(n.digits), 14 - n.exp - decimals);
    var neg, int_, frac := Split(n, digits, point);
    return Some((neg, int_, frac));
  }

  /** The sign, the digits before the point without leading zeros, and those after it. */
  method Split(n: Scientific, digits: string, point: nat) returns (neg: bool, int_: string, frac: string)
    requires AllDigits(digits) && 0 < point <= |digits|
    ensures |frac| == |digits| - point && int_ != []
    ensures AllDigits(int_) && AllDigits(frac) && AllDigits(int_ + frac) && IntOf(int_ + frac) == IntOf(digits)
    ensures int_[0] == '0' ==> |int_| == 1
    ensures neg <==> n.negative && IntOf(digits) != 0
  {
    neg := n.negative && exists i :: 0 <= i < |digits| && digits[i] != '0';
    IntOfIsZero(digits);
    int_, frac := digits[..point], digits[point..];
    assert int_ + frac == digits;
    var lead := FirstNonzero(int_);
    DropLeadingZeros(int_, lead, frac);
    int_ := int_[lead..];
  }

  /** Where the first digit other than 0 stands, or the last digit. */
  method FirstNonzero(s: string) returns (lead: nat)
    requires s != []
    ensures lead < |s| && (forall j :: 0 <= j < lead ==> s[j] == '0') && (s[lead] == '0' ==> lead == |s| - 1)
  {
    lead := 0;
    while lead < |s| - 1 && s[lead] == '0'
      invariant lead < |s| && forall j :: 0 <= j < lead ==> s[j] == '0'
    {
      lead := lead + 1;
    }
  }

  lemma DropLeadingZeros(s: string, lead: nat, frac: string)
    requires AllDigits(s) && AllDigits(frac) && lead < |s| && forall j :: 0 <= j < lead ==> s[j] == '0'
    ensures AllDigits(s[lead..] + frac) && AllDigits(s + frac) && IntOf(s[lead..] + frac) == IntOf(s + frac)
  {
    assert s == s[..lead] + s[lead..];
    IntOfIsZero(s[..lead]);
    IntOfConcat(s[..lead], s[lead..]);
    IntOfConcat(s[lead..], frac);
    IntOfConcat(s, frac);
  }

  // ----- writing the digits -----

  /** The separators of a locale: `.` and `,`, one the decimal sign, the other grouping. */
  datatype Separators = English | German {
    function Decimal(): char {
      if German? then ',' else '.'
    }

    /** The separator that is not the decimal one. */
    function Group(): char {
      if Decimal() == ',' then '.' else ','
    }
  }

  datatype NumberFormat = NumberFormat(decimals: Option<nat>, grouping: bool)

  /** Digits in groups of three from the right. */
  function Grouped(s: string, g: char): string {
    if |s| <= 3 then s else Grouped(s[..|s| - 3], g) + [g] + s[|s| - 3..]
  }

  function Signed(neg: bool, t: string): string {
    if neg then "-" + t else t
  }

  /** The whole digits as shown. */
  function Whole(int_: string, grouping: bool, sep: Separators): string {
    if grouping then Grouped(int_, sep.Group()) else int_
  }

  /** The decimal sign and the fraction digits, if there are any. */
  function Fraction(frac: string, sep: Separators): string {
    if frac == [] then "" else [sep.Decimal()] + frac
  }

  function Shown(neg: bool, int_: string, frac: string, grouping: bool, sep: Separators): string {
    Signed(neg, Whole(int_, grouping, sep) + Fraction(frac, sep))
  }

  /** What stands before digit `i` of `n`. */
  function Separator(n: nat, i: nat, g: char): string
    requires i <= n
  {
    if i > 0 && (n - i) % 3 == 0 then [g] else []
  }

  /** `Grouped` written from the left: what follows once `i` digits are written. */
  function GroupedFrom(s: string, i: nat, g: char): string
    requires i <= |s|
    decreases |s| - i
  {
    if i == |s| then [] else Separator(|s|, i, g) + [s[i]] + GroupedFrom(s, i + 1, g)
  }

  lemma {:induction false} GroupedFromSplit(s: string, i: nat, g: char)
    requires |s| > 3 && i <= |s| - 3
    ensures GroupedFrom(s, i, g) == GroupedFrom(s[..|s| - 3], i, g) + [g] + s[|s| - 3..]
    decreases |s| - i
  {
    var head := s[..|s| - 3];
    if i == |s| - 3 {
      LastGroup(s, g);
      assert GroupedFrom(head, i, g) == [];
    } else {
      GroupedFromSplit(s, i + 1, g);
      SplitStep(s, head, i, g);
    }
  }

  lemma SplitStep(s: string, head: string, i: nat, g: char)
    requires |s| > 3 && i < |s| - 3 && head == s[..|s| - 3]
    requires GroupedFrom(s, i + 1, g) == GroupedFrom(head, i + 1, g) + [g] + s[|s| - 3..]
    ensures GroupedFrom(s, i, g) == GroupedFrom(head, i, g) + [g] + s[|s| - 3..]
  {
    SeparatorSame(|s|, i, g);
    GroupStep(s, i, g);
    GroupStep(head, i, g);
    MoveSeparators(Separator(|s|, i, g), s[i], GroupedFrom(head, i + 1, g), [g], s[|s| - 3..]);
  }

  lemma SeparatorSame(n: nat, i: nat, g: char)
    requires i <= n - 3
    ensures Separator(n, i, g) == Separator(n - 3, i, g)
  {
  }

  lemma MoveSeparators(a: string, c: char, x: string, y: string, z: string)
    ensures a + [c] + (x + y + z) == a + [c] + x + y + z
  {
  }

  lemma GroupStep(s: string, i: nat, g: char)
    requires i < |s|
    ensures GroupedFrom(s, i, g) == Separator(|s|, i, g) + [s[i]] + GroupedFrom(s, i + 1, g)
  {
  }

  lemma LastGroup(s: string, g: char)
    requires |s| > 3
    ensures GroupedFrom(s, |s| - 3, g) == [g] + s[|s| - 3..]
  {
    var n := |s|;
    LastTwo(s, g);
    GroupStep(s, n - 3, g);
    assert Separator(n, n - 3, g) == [g];
    LastThree(s, g);
  }

  lemma LastThree(s: string, g: char)
    requires |s| > 3
    ensures [g] + [s[|s| - 3]] + ([s[|s| - 2]] + [s[|s| - 1]]) == [g] + s[|s| - 3..]
  {
  }

  lemma LastTwo(s: string, g: char)
    requires |s| > 3
    ensures GroupedFrom(s, |s| - 2, g) == [s[|s| - 2]] + [s[|s| - 1]]
  {
    GroupStep(s, |s| - 1, g);
    GroupStep(s, |s| - 2, g);
    assert GroupedFrom(s, |s|, g) == [];
  }

  lemma {:induction false} GroupedFromStart(s: string, g: char)
    ensures GroupedFrom(s, 0, g) == Grouped(s, g)
    decreases |s|
  {
    if |s| <= 3 {
      ShortGroupedFrom(s, g);
    } else {
      GroupedFromSplit(s, 0, g);
      GroupedFromStart(s[..|s| - 3], g);
    }
  }

  lemma ShortGroupedFrom(s: string, g: char)
    requires |s| <= 3
    ensures GroupedFrom(s, 0, g) == s
  {
    if |s| == 3 {
      assert GroupedFrom(s, 2, g) == [s[2]];
      assert GroupedFrom(s, 1, g) == [s[1]] + [s[2]];
      assert GroupedFrom(s, 0, g) == [s[0]] + ([s[1]] + [s[2]]);
    } else if |s| == 2 {
      assert GroupedFrom(s, 1, g) == [s[1]];
      assert GroupedFrom(s, 0, g) == [s[0]] + [s[1]];
    }
  }

  function Replaced(s: string, from: char, to: char): (r: string)
    ensures |r| == |s|
  {
    if s == [] then [] else [if s[0] == from then to else s[0]] + Replaced(s[1..], from, to)
  }

  /** A finite number in a measure's format; `general` is its General form. */
  method FormatNumber(n: Scientific, general: string, format: Option<NumberFormat>, sep: Separators) returns (out: string)
    requires IsScientific(n)
    ensures format.None? ==> out == general
    ensures format.Some? && format.value.decimals.Some? && n.exp >= 15 ==> out == Replaced(general, '.', sep.Decimal())
    ensures format.Some? && format.value.decimals.Some? && n.exp < 15 ==>
              exists neg, int_, frac :: IsFixed(n, format.value.decimals.value, neg, int_, frac)
                                     && out == Shown(neg, int_, frac, format.value.grouping, sep)
    ensures format.Some? && format.value.decimals.None? ==>
              out == if 'E' in general then Replaced(general, '.', sep.Decimal())
                     else
                       var (whole, frac) := SplitOnce(general, '.');
                       var neg := whole != [] && whole[0] == '-';
                       Shown(neg, if neg then whole[1..] else whole, frac, format.value.grouping, sep)
  {
    if format.None? {
      return general;
    }
    var f := format.value;
    var digits: Option<(bool, string, string)> := None;
    match f.decimals {
      case Some(d) => digits := Fixed(n, d);
      case None =>
        if 'E' !in general {
          var (whole, frac) := SplitOnce(general, '.');
          var neg := whole != [] && whole[0] == '-';
          digits := Some((neg, if neg then whole[1..] else whole, frac));
        }
    }
    if digits.None? {
      return Replaced(general, '.', sep.Decimal());
    }
    var (neg, int_, frac) := digits.value;
    out := Write(neg, int_, frac, f.grouping, sep);
  }

  /** Text before and after the first `c`, or the whole text and nothing. */
  function SplitOnce(s: string, c: char): (string, string) {
    if s == [] then ([], [])
    else if s[0] == c then ([], s[1..])
    else var (a, b) := SplitOnce(s[1..], c); ([s[0]] + a, b)
  }

  method WriteWhole(sign: string, int_: string, grouping: bool, sep: Separators) returns (out: string)
    ensures out == sign + Whole(int_, grouping, sep)
  {
    out := sign;
    RestEnds(out, int_, grouping, sep);
    for i := 0 to |int_|
      invariant out + Rest(int_, i, grouping, sep) == sign + Whole(int_, grouping, sep)
    {
      RestStep(out, int_, i, grouping, sep);
      if grouping && i > 0 && (|int_| - i) % 3 == 0 {
        out := out + [sep.Group()];
      }
      out := out + [int_[i]];
    }
    RestEnds(out, int_, grouping, sep);
  }

  method Write(neg: bool, int_: string, frac: string, grouping: bool, sep: Separators) returns (out: string)
    ensures out == Shown(neg, int_, frac, grouping, sep)
  {
    var sign := if neg then "-" else "";
    out := WriteWhole(sign, int_, grouping, sep);
    if frac != [] {
      out := out + [sep.Decimal()];
      out := out + frac;
    }
    ShownParts(neg, sign, Whole(int_, grouping, sep), frac, sep, out);
  }

  lemma ShownParts(neg: bool, sign: string, whole: string, frac: string, sep: Separators, out: string)
    requires sign == if neg then "-" else ""
    requires out == if frac == [] then sign + whole else sign + whole + [sep.Decimal()] + frac
    ensures out == Signed(neg, whole + Fraction(frac, sep))
  {
  }

  /** What is still to be written of the integer digits. */
  ghost function Rest(s: string, i: nat, grouping: bool, sep: Separators): string
    requires i <= |s|
  {
    if grouping then GroupedFrom(s, i, sep.Group()) else s[i..]
  }

  lemma RestStep(out: string, s: string, i: nat, grouping: bool, sep: Separators)
    requires i < |s|
    ensures out + (if grouping then Separator(|s|, i, sep.Group()) else []) + [s[i]] + Rest(s, i + 1, grouping, sep)
         == out + Rest(s, i, grouping, sep)
  {
    if grouping {
      GroupStep(s, i, sep.Group());
      MoveSeparator(out, Separator(|s|, i, sep.Group()), s[i], GroupedFrom(s, i + 1, sep.Group()));
    } else {
      assert s[i..] == [s[i]] + s[i + 1..];
    }
  }

  lemma MoveSeparator(out: string, a: string, c: char, x: string)
    ensures out + a + [c] + x == out + (a + [c] + x)
  {
  }

  lemma RestEnds(out: string, s: string, grouping: bool, sep: Separators)
    ensures out + Rest(s, |s|, grouping, sep) == out
    ensures Rest(s, 0, grouping, sep) == Whole(s, grouping, sep)
  {
    GroupedFromStart(s, sep.Group());
  }
}
