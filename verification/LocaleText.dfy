/** Formula text in a locale's spelling: the scanner that rewrites it into the
    canonical language and back, and when the two undo each other. */
module LocaleText {
  import opened Results
  import opened Texts

  /** Which marks a rewriting replaces, and by what. */
  datatype Marks = Marks(decFrom: char, decTo: char, sepFrom: char, sepTo: char)

  /** What a called word becomes, where the rewriting knows it. */
  type Names = string -> Option<string>

  function Renamed(names: Names, word: string): string {
    match names(word) case Some(n) => n case None => word
  }

  predicate IsQuote(c: char) {
    c == '"' || c == '\'' || c == '#'
  }

  predicate InWord(cls: CharClass, c: char) {
    cls.alphanumeric(c) || c == '_' || c == '.'
  }

  // ----- segments -----

  /** Up to and with the first `c`, or everything. */
  function ThroughClose(t: string, c: char): (n: nat)
    ensures n <= |t| && (t != [] ==> n > 0)
  {
    if t == [] then 0 else if t[0] == c then 1 else 1 + ThroughClose(t[1..], c)
  }

  function WordRun(cls: CharClass, t: string): (n: nat)
    ensures n <= |t| && (n < |t| ==> !InWord(cls, t[n])) && forall i :: 0 <= i < n ==> InWord(cls, t[i])
  {
    if t == [] || !InWord(cls, t[0]) then 0 else 1 + WordRun(cls, t[1..])
  }

  /** Digits, then one decimal separator if a digit follows it, and its digits. */
  function NumberRun(t: string, dec: char): (n: nat)
    ensures n <= |t| && n >= DigitRun(t)
  {
    var i := DigitRun(t);
    if i + 1 < |t| && t[i] == dec && IsAsciiDigit(t[i + 1]) then i + 1 + DigitRun(t[i + 1..]) else i
  }

  /** How long the first segment of `t` is. */
  function SegmentLength(cls: CharClass, t: string, dec: char): (n: nat)
    requires t != []
    ensures n <= |t|
  {
    if IsQuote(t[0]) then 1 + ThroughClose(t[1..], t[0])
    else if IsAsciiDigit(t[0]) then NumberRun(t, dec)
    else if StartsName(cls, t[0]) then 1 + WordRun(cls, t[1..])
    else 1
  }

  /** Whether spaces and an opening parenthesis come next. */
  predicate CallFollows(t: string) {
    t != [] && (t[0] == '(' || (t[0] == ' ' && CallFollows(t[1..])))
  }

  /** A number with its decimal separator, if it has one, replaced. */
  function NumberImage(s: string, to: char): string {
    var i := DigitRun(s);
    if i < |s| then s[..i] + [to] + s[i + 1..] else s
  }

  /** What the segment `s`, before `rest`, is rewritten to. */
  function Image(cls: CharClass, s: string, rest: string, names: Names, m: Marks): string
    requires s != []
  {
    if IsQuote(s[0]) then s
    else if IsAsciiDigit(s[0]) then NumberImage(s, m.decTo)
    else if StartsName(cls, s[0]) then (if CallFollows(rest) then Renamed(names, s) else s)
    else if s[0] == m.sepFrom then [m.sepTo]
    else s
  }

  lemma SegmentIsNonempty(cls: CharClass, t: string, dec: char)
    requires t != []
    ensures SegmentLength(cls, t, dec) > 0
  {
  }

  function Rewrite(cls: CharClass, t: string, names: Names, m: Marks): string
    decreases |t|
  {
    if t == [] then []
    else
      SegmentIsNonempty(cls, t, m.decFrom);
      var n := SegmentLength(cls, t, m.decFrom);
      Image(cls, t[..n], t[n..], names, m) + Rewrite(cls, t[n..], names, m)
  }

  /** Where the run of digits from `start` ends. */
  method SkipDigits(text: string, start: nat) returns (i: nat)
    requires start <= |text|
    ensures i == start + DigitRun(text[start..])
  {
    i := start;
    while i < |text| && IsAsciiDigit(text[i])
      invariant start <= i <= |text| && DigitRun(text[start..]) == i - start + DigitRun(text[i..])
    {
      assert text[i..][1..] == text[i + 1..];
      i := i + 1;
    }
  }

  method SkipWord(cls: CharClass, text: string, start: nat) returns (i: nat)
    requires start <= |text|
    ensures i == start + WordRun(cls, text[start..])
  {
    i := start;
    while i < |text| && InWord(cls, text[i])
      invariant start <= i <= |text| && WordRun(cls, text[start..]) == i - start + WordRun(cls, text[i..])
    {
      assert text[i..][1..] == text[i + 1..];
      i := i + 1;
    }
  }

  method PastClose(text: string, start: nat, c: char) returns (i: nat)
    requires start <= |text|
    ensures i == start + ThroughClose(text[start..], c)
  {
    i := start;
    while i < |text| && text[i] != c
      invariant start <= i <= |text| && ThroughClose(text[start..], c) == i - start + ThroughClose(text[i..], c)
    {
      assert text[i..][1..] == text[i + 1..];
      i := i + 1;
    }
    if i < |text| {
      i := i + 1;
    }
  }

  method IsCall(text: string, start: nat) returns (call: bool)
    requires start <= |text|
    ensures call == CallFollows(text[start..])
  {
    var j := start;
    while j < |text| && text[j] == ' '
      invariant start <= j <= |text| && CallFollows(text[start..]) == CallFollows(text[j..])
    {
      assert text[j..][1..] == text[j + 1..];
      j := j + 1;
    }
    call := j < |text| && text[j] == '(';
  }

  /** A number's end, and what is written for it. */
  method RewriteNumber(text: string, start: nat, m: Marks) returns (end: nat, image: string)
    requires start < |text| && IsAsciiDigit(text[start])
    ensures end == start + NumberRun(text[start..], m.decFrom) && end <= |text|
    ensures image == NumberImage(text[start..end], m.decTo)
  {
    var i := SkipDigits(text, start);
    image := text[start..i];
    end := i;
    if i + 1 < |text| && text[i] == m.decFrom && IsAsciiDigit(text[i + 1]) {
      end := SkipDigits(text, i + 1);
      image := image + [m.decTo] + text[i + 1..end];
      WithFraction(text, start, i, end, m);
    } else {
      assert text[start..][..i - start] == text[start..i];
      ImageOfWhole(text[start..i], m.decTo);
    }
  }

  lemma WithFraction(text: string, start: nat, i: nat, end: nat, m: Marks)
    requires start <= i && i + 1 < |text| && i == start + DigitRun(text[start..])
    requires text[i] == m.decFrom && IsAsciiDigit(text[i + 1]) && end == i + 1 + DigitRun(text[i + 1..])
    ensures end == start + NumberRun(text[start..], m.decFrom)
    ensures NumberImage(text[start..end], m.decTo) == text[start..i] + [m.decTo] + text[i + 1..end]
  {
    FractionEnds(text[start..], i - start, text[i + 1..], m.decFrom);
    AtTheMark(text, start, i, end);
    assert forall k :: start <= k < i ==> text[start..][k - start] == text[k];
    ImageOfDecimal(text[start..i], text[i + 1..end], m.decFrom, m.decTo);
  }

  lemma FractionEnds(t: string, n: nat, rest: string, from: char)
    requires n == DigitRun(t) && n + 1 < |t| && t[n] == from && IsAsciiDigit(t[n + 1]) && t[n + 1..] == rest
    ensures NumberRun(t, from) == n + 1 + DigitRun(rest)
  {
  }

  lemma AtTheMark(text: string, start: nat, i: nat, end: nat)
    requires start <= i < end <= |text|
    ensures text[start..end] == text[start..i] + [text[i]] + text[i + 1..end]
  {
  }

  /** The scanner, by index. */
  method RewriteText(cls: CharClass, text: string, names: Names, m: Marks) returns (out: string)
    requires Sane(cls)
    ensures out == Rewrite(cls, text, names, m)
  {
    out := [];
    var i := 0;
    while i < |text|
      invariant i <= |text|
      invariant out + Rewrite(cls, text[i..], names, m) == Rewrite(cls, text, names, m)
      decreases |text| - i
    {
      var end, image := RewriteSegment(cls, text, i, names, m);
      OneSegment(cls, text, i, end, names, m);
      Reassociate(out, image, Rewrite(cls, text[end..], names, m));
      out := out + image;
      i := end;
    }
    assert out + [] == out;
  }

  lemma OneSegment(cls: CharClass, text: string, i: nat, end: nat, names: Names, m: Marks)
    requires i < |text| && end == i + SegmentLength(cls, text[i..], m.decFrom) && i < end <= |text|
    ensures Rewrite(cls, text[i..], names, m) ==
            Image(cls, text[i..end], text[end..], names, m) + Rewrite(cls, text[end..], names, m)
  {
    var rest := text[i..];
    assert rest[..end - i] == text[i..end] && rest[end - i..] == text[end..];
    SegmentParts(cls, rest, names, m, end - i);
  }

  /** One turn of the scanner's loop: where the segment at `i` ends, and what is written for it. */
  method RewriteSegment(cls: CharClass, text: string, i: nat, names: Names, m: Marks) returns (end: nat, image: string)
    requires Sane(cls) && i < |text|
    ensures end == i + SegmentLength(cls, text[i..], m.decFrom) && i < end <= |text|
    ensures image == Image(cls, text[i..end], text[end..], names, m)
  {
    var c := text[i];
    SegmentIsNonempty(cls, text[i..], m.decFrom);
    assert text[i..][0] == c && text[i..][1..] == text[i + 1..];
    if IsQuote(c) {
      end := PastClose(text, i + 1, c);
      image := text[i..end];
    } else if IsAsciiDigit(c) {
      end, image := RewriteNumber(text, i, m);
    } else if StartsName(cls, c) {
      end := SkipWord(cls, text, i);
      var word := text[i..end];
      var call := IsCall(text, end);
      image := match names(word) case Some(n) => if call then n else word case None => word;
    } else if c == m.sepFrom {
      end, image := i + 1, [m.sepTo];
    } else {
      end, image := i + 1, [c];
    }
  }

  // ----- one rewriting after another -----

  /** A called word's final name. */
  function Then(f: Names, g: Names): Names {
    w => Some(Renamed(g, Renamed(f, w)))
  }

  ghost predicate IsWord(cls: CharClass, s: string) {
    s != [] && StartsName(cls, s[0]) && forall i :: 0 <= i < |s| ==> InWord(cls, s[i])
  }

  /** Words are renamed to words. */
  ghost predicate KeepsWords(cls: CharClass, f: Names) {
    forall w :: IsWord(cls, w) ==> IsWord(cls, Renamed(f, w))
  }

  const OUT := Marks('.', ',', ',', ';')
  const BACK := Marks(',', '.', ';', ',')
  const BOTH := Marks('.', '.', ';', ',')

  lemma SegmentParts(cls: CharClass, t: string, names: Names, m: Marks, n: nat)
    requires t != [] && n == SegmentLength(cls, t, m.decFrom)
    ensures 0 < n <= |t|
    ensures Rewrite(cls, t, names, m) == Image(cls, t[..n], t[n..], names, m) + Rewrite(cls, t[n..], names, m)
  {
    SegmentIsNonempty(cls, t, m.decFrom);
  }

  /** A word segment is a word. */
  lemma WordSegment(cls: CharClass, t: string, dec: char)
    requires Sane(cls) && t != [] && !IsQuote(t[0]) && !IsAsciiDigit(t[0]) && StartsName(cls, t[0])
    ensures var n := SegmentLength(cls, t, dec); IsWord(cls, t[..n]) && (n < |t| ==> !InWord(cls, t[n]))
  {
    var n := SegmentLength(cls, t, dec);
    assert t[..n] == [t[0]] + t[1..][..n - 1];
  }

  /** What rewritten text starts with: a digit or mark as before, a word for a
      word, and never a comma, since a comma is replaced. */
  lemma StartOfRewritten(cls: CharClass, t: string, f: Names)
    requires Sane(cls) && KeepsWords(cls, f)
    ensures var r := Rewrite(cls, t, f, OUT);
            if t == [] then r == []
            else
              && r != [] && r[0] != ','
              && (IsQuote(t[0]) || IsAsciiDigit(t[0]) ==> r[0] == t[0])
              && (!IsQuote(t[0]) && StartsName(cls, t[0]) ==> StartsName(cls, r[0]) && !IsQuote(r[0]) && !IsAsciiDigit(r[0]))
              && (!IsQuote(t[0]) && !IsAsciiDigit(t[0]) && !StartsName(cls, t[0]) ==>
                    r[0] == if t[0] == ',' then ';' else t[0])
  {
    if t != [] {
      var n := SegmentLength(cls, t, '.');
      SegmentParts(cls, t, f, OUT, n);
      if !IsQuote(t[0]) && !IsAsciiDigit(t[0]) && StartsName(cls, t[0]) {
        WordSegment(cls, t, '.');
        assert IsWord(cls, Image(cls, t[..n], t[n..], f, OUT));
      }
    }
  }

  /** Whether a call follows is not changed by rewriting. */
  lemma {:induction false} CallStillFollows(cls: CharClass, t: string, f: Names)
    requires Sane(cls) && KeepsWords(cls, f)
    ensures CallFollows(Rewrite(cls, t, f, OUT)) == CallFollows(t)
    decreases |t|
  {
    StartOfRewritten(cls, t, f);
    if t != [] && t[0] == ' ' {
      assert IsMark(' ');
      SegmentParts(cls, t, f, OUT, 1);
      assert t[..1] == [' '];
      CallStillFollows(cls, t[1..], f);
      assert Rewrite(cls, t, f, OUT)[1..] == Rewrite(cls, t[1..], f, OUT);
    } else if t != [] {
      assert IsMark('(') && IsMark(' ');
    }
  }

  lemma {:induction false} ThroughCloseAgain(a: string, b: string, c: char)
    requires ThroughClose(a, c) == |a| && (b == [] || (a != [] && a[|a| - 1] == c))
    ensures ThroughClose(a + b, c) == |a|
  {
    if a == [] {
      assert a + b == [];
    } else if a[0] != c {
      assert a[1..] != [] || b == [];
      if a[1..] != [] {
        assert a[1..][|a| - 2] == a[|a| - 1];
      }
      ThroughCloseAgain(a[1..], b, c);
      assert (a + b)[1..] == a[1..] + b;
    } else {
      ThroughCloseOne(a, c);
    }
  }

  lemma ThroughCloseOne(a: string, c: char)
    requires a != [] && a[0] == c && ThroughClose(a, c) == |a|
    ensures |a| == 1
  {
  }

  lemma {:induction false} ThroughClosePrefix(t: string, c: char)
    ensures var n := ThroughClose(t, c);
            ThroughClose(t[..n], c) == n && (n < |t| ==> n > 0 && t[n - 1] == c)
    decreases |t|
  {
    if t != [] && t[0] != c {
      ThroughClosePrefix(t[1..], c);
      var n := ThroughClose(t, c);
      assert t[..n][1..] == t[1..][..n - 1];
    } else if t != [] {
      assert t[..1][0] == c;
    }
  }

  lemma {:induction false} WordRunOf(cls: CharClass, w: string, rest: string)
    requires (forall i :: 0 <= i < |w| ==> InWord(cls, w[i])) && (rest == [] || !InWord(cls, rest[0]))
    ensures WordRun(cls, w + rest) == |w|
  {
    if w == [] {
      assert w + rest == rest;
    } else {
      WordRunOf(cls, w[1..], rest);
      assert (w + rest)[1..] == w[1..] + rest;
    }
  }

  // ----- the second scanner finds the images of the first one's segments -----

  /** A segment's image, before what the rest becomes, is a segment again. */
  lemma QuotedAgain(cls: CharClass, t: string, f: Names, n: nat, after: string)
    requires t != [] && IsQuote(t[0]) && n == SegmentLength(cls, t, '.')
    requires n == |t| ==> after == []
    ensures SegmentLength(cls, t[..n] + after, ',') == n
  {
    var c, body := t[0], t[1..];
    ThroughClosePrefix(body, c);
    assert t[..n] == [c] + body[..n - 1];
    ThroughCloseAgain(body[..n - 1], after, c);
    assert (t[..n] + after)[1..] == body[..n - 1] + after;
  }

  /** The digits before the point and, if there is a point, those after it. */
  lemma NumberParts(t: string, dec: char) returns (d: string, e: string)
    requires t != [] && IsAsciiDigit(t[0]) && !IsAsciiDigit(dec)
    ensures d != [] && (forall i :: 0 <= i < |d| ==> IsAsciiDigit(d[i])) && (forall i :: 0 <= i < |e| ==> IsAsciiDigit(e[i]))
    ensures var n := NumberRun(t, dec); t[..n] == if e == [] then d else d + [dec] + e
    ensures NumberRun(t, dec) < |t| ==> !IsAsciiDigit(t[NumberRun(t, dec)])
  {
    var i, n := DigitRun(t), NumberRun(t, dec);
    d := t[..i];
    e := if n == i then [] else t[i + 1..n];
    if n != i {
      assert t[i + 1..][..n - i - 1] == e;
      assert t[..n] == d + [dec] + e;
    }
  }

  lemma NumberAgain(d: string, e: string, dec: char, after: string)
    requires d != [] && (forall i :: 0 <= i < |d| ==> IsAsciiDigit(d[i])) && (forall i :: 0 <= i < |e| ==> IsAsciiDigit(e[i]))
    requires !IsAsciiDigit(dec) && (after == [] || (!IsAsciiDigit(after[0]) && (e == [] ==> after[0] != dec)))
    ensures var s := if e == [] then d else d + [dec] + e; NumberRun(s + after, dec) == |s|
  {
    if e == [] {
      DigitRunOf(d, after);
    } else {
      var t := d + [dec] + e + after;
      assert t == d + ([dec] + e + after);
      DigitRunOf(d, [dec] + e + after);
      DigitRunOf(e, after);
      assert t[|d| + 1..] == e + after;
    }
  }

  lemma ImageOfWhole(d: string, to: char)
    requires forall i :: 0 <= i < |d| ==> IsAsciiDigit(d[i])
    ensures NumberImage(d, to) == d
  {
    DigitRunOf(d, []);
    assert d + [] == d;
  }

  lemma ImageOfDecimal(d: string, e: string, from: char, to: char)
    requires (forall i :: 0 <= i < |d| ==> IsAsciiDigit(d[i])) && !IsAsciiDigit(from)
    ensures NumberImage(d + [from] + e, to) == d + [to] + e
  {
    DigitRunOf(d, [from] + e);
    var s := d + [from] + e;
    assert s == d + ([from] + e);
    assert s[..|d|] == d && s[|d| + 1..] == e;
  }

  /** The first segment's image is a segment of the rewritten text, and its
      image under the second rewriting is what one rewriting makes of it. */
  ghost predicate FirstSegmentAgrees(cls: CharClass, t: string, f: Names, g: Names)
    requires t != []
  {
    var n := SegmentLength(cls, t, '.');
    n > 0 &&
    var image, after := Image(cls, t[..n], t[n..], f, OUT), Rewrite(cls, t[n..], f, OUT);
    && image != []
    && SegmentLength(cls, image + after, ',') == |image|
    && Image(cls, image, after, g, BACK) == Image(cls, t[..n], t[n..], Then(f, g), BOTH)
  }

  lemma FirstSegmentTwice(cls: CharClass, t: string, f: Names, g: Names)
    requires Sane(cls) && KeepsWords(cls, f) && t != []
    ensures FirstSegmentAgrees(cls, t, f, g)
  {
    if IsQuote(t[0]) {
      FirstQuoteTwice(cls, t, f, g);
    } else if IsAsciiDigit(t[0]) {
      FirstNumberTwice(cls, t, f, g);
    } else if StartsName(cls, t[0]) {
      FirstWordTwice(cls, t, f, g);
    } else {
      FirstMarkTwice(cls, t, f, g);
    }
  }

  lemma FirstQuoteTwice(cls: CharClass, t: string, f: Names, g: Names)
    requires t != [] && IsQuote(t[0])
    ensures FirstSegmentAgrees(cls, t, f, g)
  {
    var n := SegmentLength(cls, t, '.');
    assert t[..n][0] == t[0];
    QuotedAgain(cls, t, f, n, Rewrite(cls, t[n..], f, OUT));
  }

  lemma FirstMarkTwice(cls: CharClass, t: string, f: Names, g: Names)
    requires Sane(cls) && t != [] && !IsQuote(t[0]) && !IsAsciiDigit(t[0]) && !StartsName(cls, t[0])
    ensures FirstSegmentAgrees(cls, t, f, g)
  {
    assert IsMark(';') && IsMark(',');
    assert t[..1] == [t[0]];
  }

  lemma FirstNumberTwice(cls: CharClass, t: string, f: Names, g: Names)
    requires Sane(cls) && KeepsWords(cls, f) && t != [] && IsAsciiDigit(t[0])
    ensures FirstSegmentAgrees(cls, t, f, g)
  {
    var n := SegmentLength(cls, t, '.');
    var d, e := NumberParts(t, '.');
    StartOfRewritten(cls, t[n..], f);
    NumberAgain(d, e, ',', Rewrite(cls, t[n..], f, OUT));
    if e == [] {
      ImageOfWhole(d, ',');
      ImageOfWhole(d, '.');
    } else {
      ImageOfDecimal(d, e, '.', ',');
      ImageOfDecimal(d, e, ',', '.');
      ImageOfDecimal(d, e, '.', '.');
    }
  }

  lemma FirstWordTwice(cls: CharClass, t: string, f: Names, g: Names)
    requires Sane(cls) && KeepsWords(cls, f) && t != [] && !IsQuote(t[0]) && !IsAsciiDigit(t[0]) && StartsName(cls, t[0])
    ensures FirstSegmentAgrees(cls, t, f, g)
  {
    var n := SegmentLength(cls, t, '.');
    WordSegment(cls, t, '.');
    var w, rest := t[..n], t[n..];
    var after := Rewrite(cls, rest, f, OUT);
    StartOfRewritten(cls, rest, f);
    CallStillFollows(cls, rest, f);
    NotAWordStart(cls, rest, after);
    WordImageTwice(cls, w, rest, after, f, g);
  }

  lemma WordImageTwice(cls: CharClass, w: string, rest: string, after: string, f: Names, g: Names)
    requires Sane(cls) && KeepsWords(cls, f) && IsWord(cls, w)
    requires CallFollows(after) == CallFollows(rest) && (after == [] || !InWord(cls, after[0]))
    ensures var image := Image(cls, w, rest, f, OUT);
            && image != []
            && SegmentLength(cls, image + after, ',') == |image|
            && Image(cls, image, after, g, BACK) == Image(cls, w, rest, Then(f, g), BOTH)
  {
    WordStartIsPlain(cls, w[0]);
    var image := Image(cls, w, rest, f, OUT);
    assert IsWord(cls, image);
    WordStartIsPlain(cls, image[0]);
    WordIsSegment(cls, image, after);
  }

  lemma WordIsSegment(cls: CharClass, w: string, after: string)
    requires Sane(cls) && IsWord(cls, w) && (after == [] || !InWord(cls, after[0]))
    ensures SegmentLength(cls, w + after, ',') == |w|
  {
    WordStartIsPlain(cls, w[0]);
    WordRunOf(cls, w[1..], after);
    assert (w + after)[1..] == w[1..] + after;
  }

  lemma WordStartIsPlain(cls: CharClass, c: char)
    requires Sane(cls) && StartsName(cls, c)
    ensures !IsQuote(c) && !IsAsciiDigit(c)
  {
    assert IsMark('"') && IsMark('\'') && IsMark('#');
  }

  /** After a word comes no word character, before and after rewriting. */
  lemma NotAWordStart(cls: CharClass, rest: string, after: string)
    requires Sane(cls)
    requires rest == [] ==> after == []
    requires rest != [] ==> !InWord(cls, rest[0]) && after != []
    requires rest != [] && IsQuote(rest[0]) ==> after[0] == rest[0]
    requires rest != [] && !IsQuote(rest[0]) && !IsAsciiDigit(rest[0]) && !StartsName(cls, rest[0]) ==>
               after[0] == if rest[0] == ',' then ';' else rest[0]
    ensures after == [] || !InWord(cls, after[0])
  {
    assert IsMark(';');
  }

  /** Rewriting out and back is one rewriting of the original text: words called
      get the second name of their first name, a semicolon becomes a comma, and
      nothing else changes. */
  lemma {:induction false} RewriteTwice(cls: CharClass, t: string, f: Names, g: Names)
    requires Sane(cls) && KeepsWords(cls, f)
    ensures Rewrite(cls, Rewrite(cls, t, f, OUT), g, BACK) == Rewrite(cls, t, Then(f, g), BOTH)
    decreases |t|
  {
    if t != [] {
      var n := SegmentLength(cls, t, '.');
      FirstSegmentTwice(cls, t, f, g);
      SegmentParts(cls, t, f, OUT, n);
      SegmentParts(cls, t, Then(f, g), BOTH, n);
      RewriteTwice(cls, t[n..], f, g);
      var image, after := Image(cls, t[..n], t[n..], f, OUT), Rewrite(cls, t[n..], f, OUT);
      SegmentParts(cls, image + after, g, BACK, |image|);
      assert (image + after)[..|image|] == image && (image + after)[|image|..] == after;
    }
  }

  // ----- when the round trip is the identity -----

  predicate IsWordSegment(cls: CharClass, t: string) {
    t != [] && !IsQuote(t[0]) && !IsAsciiDigit(t[0]) && StartsName(cls, t[0])
  }

  /** No semicolon outside quotes, and `keeps` of every called word. */
  predicate KeptBy(cls: CharClass, t: string, keeps: string -> bool)
    decreases |t|
  {
    t == [] ||
    (SegmentIsNonempty(cls, t, '.');
     var n := SegmentLength(cls, t, '.');
     && t[0] != ';'
     && (IsWordSegment(cls, t) && CallFollows(t[n..]) ==> keeps(t[..n]))
     && KeptBy(cls, t[n..], keeps))
  }

  /** A segment is its own image unless it is a semicolon or a called word that is renamed. */
  lemma SegmentKept(cls: CharClass, t: string, h: Names)
    requires Sane(cls) && t != []
    ensures var n := SegmentLength(cls, t, '.');
            n > 0 &&
            (Image(cls, t[..n], t[n..], h, BOTH) == t[..n]
             <==> t[0] != ';' && (IsWordSegment(cls, t) && CallFollows(t[n..]) ==> Renamed(h, t[..n]) == t[..n]))
  {
    SegmentIsNonempty(cls, t, '.');
    assert IsMark(';');
    if !IsQuote(t[0]) && IsAsciiDigit(t[0]) {
      var d, e := NumberParts(t, '.');
      if e == [] {
        ImageOfWhole(d, '.');
      } else {
        ImageOfDecimal(d, e, '.', '.');
      }
    }
  }

  lemma StartOfBoth(cls: CharClass, t: string, h: Names)
    requires Sane(cls) && KeepsWords(cls, h) && t != [] && !InWord(cls, t[0])
    ensures Rewrite(cls, t, h, BOTH) != [] && !InWord(cls, Rewrite(cls, t, h, BOTH)[0])
  {
    var n := SegmentLength(cls, t, '.');
    SegmentParts(cls, t, h, BOTH, n);
    assert IsMark(',');
  }

  /** A text comes back unchanged exactly when it has no semicolon outside quotes
      and every called word keeps its name. */
  lemma {:induction false} UnchangedIffKept(cls: CharClass, t: string, h: Names, keeps: string -> bool)
    requires Sane(cls) && KeepsWords(cls, h)
    requires forall w :: keeps(w) <==> Renamed(h, w) == w
    ensures Rewrite(cls, t, h, BOTH) == t <==> KeptBy(cls, t, keeps)
    decreases |t|
  {
    if t != [] {
      var n := SegmentLength(cls, t, '.');
      SegmentParts(cls, t, h, BOTH, n);
      UnchangedIffKept(cls, t[n..], h, keeps);
      SegmentKept(cls, t, h);
      if Image(cls, t[..n], t[n..], h, BOTH) == t[..n] {
        SameFrom(t, n, Rewrite(cls, t[n..], h, BOTH));
      } else {
        FirstDifference(cls, t, h);
      }
    }
  }

  lemma SameFrom(t: string, n: nat, r: string)
    requires n <= |t|
    ensures t[..n] + r == t <==> r == t[n..]
  {
    assert (t[..n] + r)[n..] == r;
    assert t == t[..n] + t[n..];
  }

  lemma FirstDifference(cls: CharClass, t: string, h: Names)
    requires Sane(cls) && KeepsWords(cls, h) && t != []
    requires var n := SegmentLength(cls, t, '.'); n > 0 && Image(cls, t[..n], t[n..], h, BOTH) != t[..n]
    ensures Rewrite(cls, t, h, BOTH) != t
  {
    var n := SegmentLength(cls, t, '.');
    SegmentParts(cls, t, h, BOTH, n);
    var s, rest := t[..n], t[n..];
    if IsAsciiDigit(t[0]) {
      var d, e := NumberParts(t, '.');
      if e == [] {
        ImageOfWhole(d, '.');
      } else {
        ImageOfDecimal(d, e, '.', '.');
      }
    } else if StartsName(cls, t[0]) {
      WordSegment(cls, t, '.');
      var image, after := Image(cls, s, rest, h, BOTH), Rewrite(cls, rest, h, BOTH);
      if rest != [] {
        StartOfBoth(cls, rest, h);
      }
      WordsDiffer(cls, s, rest, image, after);
    }
  }

  /** Two words, each before something that is not a word, differ where the words do. */
  lemma WordsDiffer(cls: CharClass, s: string, rest: string, image: string, after: string)
    requires IsWord(cls, s) && IsWord(cls, image) && s != image
    requires (rest == [] || !InWord(cls, rest[0])) && (after == [] || !InWord(cls, after[0]))
    ensures image + after != s + rest
  {
    WordRunOf(cls, s, rest);
    WordRunOf(cls, image, after);
    assert (s + rest)[..|s|] == s && (image + after)[..|image|] == image;
  }

  // ----- a locale's function names -----

  /** A locale: its separators, its table of canonical and local names, and the
      Unicode upper-casing those are compared by. */
  datatype Locale = Locale(tag: string, decimal: char, argSep: char, names: seq<(string, string)>, upper: string -> string)

  predicate SameLocal(l: Locale, a: string, b: string) {
    EqIgnoreAsciiCase(a, b) || l.upper(a) == l.upper(b)
  }

  /** The canonical name of the first row whose local name is `local`. */
  function CanonicalName(l: Locale, rows: seq<(string, string)>, local: string): Option<string> {
    if rows == [] then None
    else if SameLocal(l, rows[0].1, local) then Some(rows[0].0)
    else CanonicalName(l, rows[1..], local)
  }

  /** The local name of the first row for `name`, or `name` itself. */
  function LocalName(rows: seq<(string, string)>, name: string): string {
    if rows == [] then name
    else if EqIgnoreAsciiCase(rows[0].0, name) then rows[0].1
    else LocalName(rows[1..], name)
  }

  /** What the function table knows: the canonical spelling of a function's name or alias. */
  type Functions = string -> Option<string>

  function ToLocal(l: Locale, functions: Functions): Names {
    w => match functions(w) case None => None case Some(name) => Some(LocalName(l.names, name))
  }

  function ToCanonical(l: Locale): Names {
    w => CanonicalName(l, l.names, w)
  }

  /** What is typed in a locale, in the canonical language. */
  function Canonicalize(cls: CharClass, l: Locale, text: string): string {
    if l.tag == "en" then text
    else Rewrite(cls, text, ToCanonical(l), Marks(l.decimal, '.', l.argSep, ','))
  }

  /** Canonical text, in the locale's spelling. */
  function Localize(cls: CharClass, l: Locale, functions: Functions, text: string): string {
    if l.tag == "en" then text
    else Rewrite(cls, text, ToLocal(l, functions), Marks('.', l.decimal, ',', l.argSep))
  }

  /** The locales there are: English, or one with German's separators. */
  predicate IsKnown(l: Locale) {
    l.tag == "en" || (l.decimal == ',' && l.argSep == ';')
  }

  /** The table is one-to-one, its names are words, it spells functions as the
      function table does, no other function is called like a local name, and
      what a word calls is a word; `@ITEM` and the like are no words. */
  ghost predicate GoodTable(cls: CharClass, l: Locale, functions: Functions) {
    && (forall i, j :: 0 <= i < |l.names| && 0 <= j < |l.names| && SameLocal(l, l.names[i].1, l.names[j].1) ==> i == j)
    && (forall i :: 0 <= i < |l.names| ==> IsWord(cls, l.names[i].1) && IsWord(cls, l.names[i].0))
    && (forall i, w :: 0 <= i < |l.names| && functions(w).Some? && EqIgnoreAsciiCase(l.names[i].0, functions(w).value) ==>
          functions(w).value == l.names[i].0)
    && (forall w :: IsWord(cls, w) && functions(w).Some? ==> IsWord(cls, functions(w).value))
    && (forall i, w :: 0 <= i < |l.names| && functions(w).Some? && SameLocal(l, l.names[i].1, functions(w).value) ==>
          functions(w).value == l.names[i].0 || exists j :: 0 <= j < |l.names| && l.names[j].0 == functions(w).value)
  }

  /** The table of functions with one more, under its own name in any case. */
  function WithFunction(functions: Functions, name: string): Functions {
    w => if EqIgnoreAsciiCase(w, name) then Some(name) else functions(w)
  }

  /** Functions whose names start with `@` are no obstacle. */
  lemma AtNamesAreAllowed(cls: CharClass, l: Locale, functions: Functions, name: string)
    requires Sane(cls) && GoodTable(cls, l, functions) && name != [] && name[0] == '@'
    requires forall i :: 0 <= i < |l.names| ==> l.upper(l.names[i].1) != l.upper(name)
    ensures GoodTable(cls, l, WithFunction(functions, name))
  {
    assert IsMark('@');
    forall w | IsWord(cls, w)
      ensures !EqIgnoreAsciiCase(w, name)
    {
      assert Lower(w[0]) != '@';
    }
    assert forall i :: 0 <= i < |l.names| ==> IsWord(cls, l.names[i].0) && IsWord(cls, l.names[i].1);
    assert forall w :: EqIgnoreAsciiCase(w, name) ==> WithFunction(functions, name)(w) == Some(name);
  }

  lemma {:induction false} CanonicalOfRow(l: Locale, rows: seq<(string, string)>, i: nat, local: string)
    requires i < |rows| && SameLocal(l, rows[i].1, local)
    requires forall j :: 0 <= j < |rows| && SameLocal(l, rows[j].1, local) ==> j == i
    ensures CanonicalName(l, rows, local) == Some(rows[i].0)
  {
    if i > 0 {
      CanonicalOfRow(l, rows[1..], i - 1, local);
    }
  }

  lemma {:induction false} LocalOf(rows: seq<(string, string)>, name: string) returns (i: int)
    ensures i == -1 ==> LocalName(rows, name) == name && forall j :: 0 <= j < |rows| ==> !EqIgnoreAsciiCase(rows[j].0, name)
    ensures i != -1 ==> 0 <= i < |rows| && EqIgnoreAsciiCase(rows[i].0, name) && LocalName(rows, name) == rows[i].1
  {
    if rows == [] {
      i := -1;
    } else if EqIgnoreAsciiCase(rows[0].0, name) {
      i := 0;
    } else {
      i := LocalOf(rows[1..], name);
      i := if i == -1 then -1 else i + 1;
    }
  }

  lemma {:induction false} CanonicalOfNone(l: Locale, rows: seq<(string, string)>, local: string)
    requires forall j :: 0 <= j < |rows| ==> !SameLocal(l, rows[j].1, local)
    ensures CanonicalName(l, rows, local) == None
  {
    if rows != [] {
      CanonicalOfNone(l, rows[1..], local);
    }
  }

  /** Out and back, a function's name becomes its canonical spelling. */
  lemma NamesComeBack(cls: CharClass, l: Locale, functions: Functions, w: string)
    requires GoodTable(cls, l, functions) && functions(w).Some?
    ensures Renamed(ToCanonical(l), Renamed(ToLocal(l, functions), w)) == functions(w).value
  {
    var name := functions(w).value;
    var i := LocalOf(l.names, name);
    if i != -1 {
      assert name == l.names[i].0;
      assert SameLocal(l, l.names[i].1, l.names[i].1);
      CanonicalOfRow(l, l.names, i, l.names[i].1);
    } else {
      forall j | 0 <= j < |l.names|
        ensures !SameLocal(l, l.names[j].1, name)
      {
        if SameLocal(l, l.names[j].1, name) {
          SelfEqual(name);
        }
      }
      CanonicalOfNone(l, l.names, name);
    }
  }

  lemma SelfEqual(s: string)
    ensures EqIgnoreAsciiCase(s, s)
  {
  }

  /** What a called word is after a round trip. */
  function Settled(l: Locale, functions: Functions): Names {
    w => Some(match functions(w) case Some(name) => name case None => Renamed(ToCanonical(l), w))
  }

  lemma {:induction false} RewriteByEqualNames(cls: CharClass, t: string, f: Names, g: Names, m: Marks)
    requires forall w :: Renamed(f, w) == Renamed(g, w)
    ensures Rewrite(cls, t, f, m) == Rewrite(cls, t, g, m)
    decreases |t|
  {
    if t != [] {
      SegmentIsNonempty(cls, t, m.decFrom);
      var n := SegmentLength(cls, t, m.decFrom);
      RewriteByEqualNames(cls, t[n..], f, g, m);
    }
  }

  lemma LocalNamesAreWords(cls: CharClass, l: Locale, functions: Functions)
    requires GoodTable(cls, l, functions)
    ensures KeepsWords(cls, ToLocal(l, functions))
    ensures KeepsWords(cls, Settled(l, functions))
  {
    forall w | IsWord(cls, w)
      ensures IsWord(cls, Renamed(ToLocal(l, functions), w))
    {
      if functions(w).Some? {
        var i := LocalOf(l.names, functions(w).value);
      }
    }
    forall w | IsWord(cls, w)
      ensures IsWord(cls, Renamed(Settled(l, functions), w))
    {
      if functions(w).None? {
        CanonicalIsWord(cls, l, l.names, w);
      }
    }
  }

  lemma {:induction false} CanonicalIsWord(cls: CharClass, l: Locale, rows: seq<(string, string)>, w: string)
    requires forall i :: 0 <= i < |rows| ==> IsWord(cls, rows[i].0)
    ensures CanonicalName(l, rows, w).Some? ==> IsWord(cls, CanonicalName(l, rows, w).value)
  {
    if rows != [] {
      CanonicalIsWord(cls, l, rows[1..], w);
    }
  }

  lemma SettledNames(cls: CharClass, l: Locale, functions: Functions)
    requires GoodTable(cls, l, functions)
    ensures forall w :: Renamed(Then(ToLocal(l, functions), ToCanonical(l)), w) == Renamed(Settled(l, functions), w)
  {
    forall w
      ensures Renamed(Then(ToLocal(l, functions), ToCanonical(l)), w) == Renamed(Settled(l, functions), w)
    {
      SettledName(cls, l, functions, w);
    }
  }

  lemma SettledName(cls: CharClass, l: Locale, functions: Functions, w: string)
    requires GoodTable(cls, l, functions)
    ensures Renamed(Then(ToLocal(l, functions), ToCanonical(l)), w) == Renamed(Settled(l, functions), w)
  {
    if functions(w).Some? {
      NamesComeBack(cls, l, functions, w);
    }
  }

  /** A formula shown in a locale and read back is the formula with every called
      function in its canonical spelling, semicolons outside quotes read as
      commas, and called words that are local names read as the functions. */
  lemma CanonicalizeLocalize(cls: CharClass, l: Locale, functions: Functions, text: string)
    requires Sane(cls) && IsKnown(l) && GoodTable(cls, l, functions)
    ensures Canonicalize(cls, l, Localize(cls, l, functions, text)) ==
            if l.tag == "en" then text else Rewrite(cls, text, Settled(l, functions), BOTH)
  {
    if l.tag != "en" {
      LocalNamesAreWords(cls, l, functions);
      SettledNames(cls, l, functions);
      var f, g := ToLocal(l, functions), ToCanonical(l);
      RewriteTwice(cls, text, f, g);
      RewriteByEqualNames(cls, text, Then(f, g), Settled(l, functions), BOTH);
    }
  }

  /** No semicolon outside quotes, and no called word that is a local name only. */
  predicate Canonical(cls: CharClass, l: Locale, functions: Functions, t: string)
    decreases |t|
  {
    t == [] ||
    (SegmentIsNonempty(cls, t, '.');
     var n := SegmentLength(cls, t, '.');
     && t[0] != ';'
     && (IsWordSegment(cls, t) && CallFollows(t[n..]) && functions(t[..n]).None? ==> CanonicalName(l, l.names, t[..n]).None?)
     && Canonical(cls, l, functions, t[n..]))
  }

  const SAME := Marks('.', '.', ',', ',')

  lemma {:induction false} SettledIsCanonicalSpelling(cls: CharClass, l: Locale, functions: Functions, t: string)
    requires Canonical(cls, l, functions, t)
    ensures Rewrite(cls, t, Settled(l, functions), BOTH) == Rewrite(cls, t, functions, SAME)
    decreases |t|
  {
    if t != [] {
      var n := SegmentLength(cls, t, '.');
      SegmentParts(cls, t, Settled(l, functions), BOTH, n);
      SegmentParts(cls, t, functions, SAME, n);
      assert t[..n][0] == t[0];
      SettledIsCanonicalSpelling(cls, l, functions, t[n..]);
    }
  }

  /** Canonical text comes back as itself, each called function's name in its
      canonical spelling and nothing else changed. */
  lemma CanonicalTextComesBack(cls: CharClass, l: Locale, functions: Functions, text: string)
    requires Sane(cls) && IsKnown(l) && GoodTable(cls, l, functions) && Canonical(cls, l, functions, text)
    ensures Canonicalize(cls, l, Localize(cls, l, functions, text)) ==
            if l.tag == "en" then text else Rewrite(cls, text, functions, SAME)
  {
    CanonicalizeLocalize(cls, l, functions, text);
    SettledIsCanonicalSpelling(cls, l, functions, text);
  }

  /** Whether a called word is spelled as it is stored: a function's canonical
      spelling, or neither a function nor a local name of another one. */
  function KeepsSpelling(l: Locale, functions: Functions): string -> bool {
    w => match functions(w)
         case Some(name) => name == w
         case None => CanonicalName(l, l.names, w) == None || CanonicalName(l, l.names, w) == Some(w)
  }

  lemma KeepsWhatSettles(l: Locale, functions: Functions, w: string)
    ensures KeepsSpelling(l, functions)(w) <==> Renamed(Settled(l, functions), w) == w
  {
    assert Renamed(ToCanonical(l), w) == match CanonicalName(l, l.names, w) case Some(name) => name case None => w;
  }

  /** The round trip gives the text back if and only if it has no semicolon
      outside quotes and every called word is a function in its canonical
      spelling, or neither a function nor a local name of another spelling. */
  lemma RoundTripIffKept(cls: CharClass, l: Locale, functions: Functions, text: string)
    requires Sane(cls) && IsKnown(l) && GoodTable(cls, l, functions)
    ensures Canonicalize(cls, l, Localize(cls, l, functions, text)) == text
            <==> l.tag == "en" || KeptBy(cls, text, KeepsSpelling(l, functions))
  {
    CanonicalizeLocalize(cls, l, functions, text);
    LocalNamesAreWords(cls, l, functions);
    forall w
      ensures KeepsSpelling(l, functions)(w) <==> Renamed(Settled(l, functions), w) == w
    {
      KeepsWhatSettles(l, functions, w);
    }
    UnchangedIffKept(cls, text, Settled(l, functions), KeepsSpelling(l, functions));
  }
}
