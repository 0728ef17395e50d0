/** What was typed and its printed text: when the two stand for the same formula. */
module TypedFormulas {
  import opened Results
  import opened Formulas
  import opened Texts
  import opened Tokenizer
  import opened Parser
  import opened Printer
  import opened PrintedTokens
  import opened PrintedText
  import opened DslRoundTrip
  import opened FaithfulFormulas
  import opened ParsedFormulas
  import opened Misreadings
  import opened Dates

  // ----- which formulas come back -----

  /** What the parser made of a text is legible if it prints. */
  lemma ParsedIsLegible(b: Book, text: string)
    requires GoodBook(b) && Parse(b, text).Ok? && Print(b, Parse(b, text).value).Some?
    ensures Legible(b, Parse(b, text).value, false)
  {
    TokensAreGood(b.reader, text);
    ParseAtIsSound(b, 1, Tokenize(b.reader, text).value, 0, false);
  }

  /** Exactly which formulas that print read back: the readable ones within the limits. */
  lemma ReadsBackExactly(b: Book, e: Expr)
    requires GoodBook(b) && Print(b, e).Some?
    ensures Parse(b, Print(b, e).value) == Ok(e) <==> Readable(b, e) && Nest(e) <= b.maxNest && WithinLimits(b, e)
  {
    if Readable(b, e) {
      PrintedReadsBack(b, e);
    } else if Parse(b, Print(b, e).value) == Ok(e) {
      ParsedIsLegible(b, Print(b, e).value);
      PrintedTokenizes(b, e, false);
      MisreadTokens(b, e);
    }
  }

  /** A typed formula that prints reads back as itself if and only if it is
      readable and reading its text recurses within the limit; a readable one
      is refused otherwise. */
  lemma TypedReadsBack(b: Book, text: string)
    requires GoodBook(b) && Parse(b, text).Ok? && Print(b, Parse(b, text).value).Some?
    ensures var e := Parse(b, text).value;
            && (Parse(b, Print(b, e).value) == Ok(e) <==> Readable(b, e) && Nest(e) <= b.maxNest)
            && (Readable(b, e) && Nest(e) > b.maxNest ==> Parse(b, Print(b, e).value).Err?)
  {
    var e := Parse(b, text).value;
    ReadsBackExactly(b, e);
    if Readable(b, e) {
      PrintedReadsBack(b, e);
    }
  }

  /** Typed without a percent sign, it reads back if and only if it is readable. */
  lemma TypedWithoutPercentReadsBack(b: Book, text: string)
    requires GoodBook(b) && Parse(b, text).Ok? && Print(b, Parse(b, text).value).Some?
    requires Op(Percent) !in Tokenize(b.reader, text).value
    ensures var e := Parse(b, text).value; Parse(b, Print(b, e).value) == Ok(e) <==> Readable(b, e)
  {
    TokensAreGood(b.reader, text);
    ParseAtIsSound(b, 1, Tokenize(b.reader, text).value, 0, true);
    TypedReadsBack(b, text);
  }

  // ----- a percent sign can add recursion -----

  /** `n` times minus and NOT, around minus a truth value in percent. */
  function Tower(n: nat): Expr {
    if n == 0 then Unary(Neg, Binary(Div, Literal(Boolean(true)), Literal(Number("100"))))
    else Unary(Neg, Unary(Not, Tower(n - 1)))
  }

  /** The tower as it may be typed. */
  function Typed(n: nat): string {
    if n == 0 then "-TRUE%" else "-(NOT " + Typed(n - 1) + ")"
  }

  function TypedToks(n: nat): seq<Tok> {
    if n == 0 then [Op(Minus), Ident("TRUE"), Op(Percent)]
    else [Op(Minus), Op(Open), Ident("NOT")] + TypedToks(n - 1) + [Op(Close)]
  }

  lemma LexesTyped(r: Reader, n: nat)
    requires GoodReader(r)
    ensures Lexes(r, Typed(n), TypedToks(n), false)
  {
    if n == 0 {
      LexesPercent(r);
    } else {
      LexesTyped(r, n - 1);
      LexesPair(r, Typed(n - 1), TypedToks(n - 1));
    }
  }

  lemma LexesPercent(r: Reader)
    requires GoodReader(r)
    ensures Lexes(r, "-TRUE%", [Op(Minus), Ident("TRUE"), Op(Percent)], false)
  {
    LexesMark(r, '-', Minus);
    LexesWord(r, "TRUE");
    LexesMark(r, '%', Percent);
    Compose(r, "-", [Op(Minus)], true, "TRUE", [Ident("TRUE")], false);
    Compose(r, "-" + "TRUE", [Op(Minus)] + [Ident("TRUE")], false, "%", [Op(Percent)], true);
    assert "-" + "TRUE" + "%" == "-TRUE%";
    assert [Op(Minus)] + [Ident("TRUE")] + [Op(Percent)] == [Op(Minus), Ident("TRUE"), Op(Percent)];
    Weaken(r, "-TRUE%", [Op(Minus), Ident("TRUE"), Op(Percent)]);
  }

  lemma LexesPair(r: Reader, s: string, toks: seq<Tok>)
    requires GoodReader(r) && Lexes(r, s, toks, false)
    ensures Lexes(r, "-(NOT " + s + ")", [Op(Minus), Op(Open), Ident("NOT")] + toks + [Op(Close)], false)
  {
    LexesPrefixed(r, Not, s, toks);
    LexesParens(r, "NOT " + s, [Ident("NOT")] + toks);
    LexesPrefixed(r, Neg, "(" + ("NOT " + s) + ")", [Op(Open)] + ([Ident("NOT")] + toks) + [Op(Close)]);
    PairText(s, toks);
  }

  lemma PairText(s: string, toks: seq<Tok>)
    ensures "-" + ("(" + ("NOT " + s) + ")") == "-(NOT " + s + ")"
    ensures [Op(Minus)] + ([Op(Open)] + ([Ident("NOT")] + toks) + [Op(Close)]) ==
            [Op(Minus), Op(Open), Ident("NOT")] + toks + [Op(Close)]
  {
    assert "-" + "(" + "NOT " == "-(NOT ";
    assert "-" + ("(" + ("NOT " + s) + ")") == "-" + "(" + "NOT " + s + ")";
  }

  lemma MinusRead(b: Book, toks: seq<Tok>, d: nat, inner: Expr, rest: seq<Tok>)
    requires HeadIs(toks, Op(Minus)) && d < b.maxNest && ParseAt(b, 8, toks[1..], d + 1) == Ok((inner, rest))
    ensures ParseAt(b, 8, toks, d) == Ok((Unary(Neg, inner), rest))
  {
  }

  lemma NotRead(b: Book, toks: seq<Tok>, d: nat, inner: Expr, rest: seq<Tok>)
    requires HeadIs(toks, Ident("NOT")) && d < b.maxNest && ParseAt(b, 3, toks[1..], d + 1) == Ok((inner, rest))
    ensures ParseAt(b, 3, toks, d) == Ok((Unary(Not, inner), rest))
  {
    assert EqIgnoreAsciiCase("NOT", "NOT");
  }

  /** `TRUE%` is read without parentheses. */
  lemma PercentRead(b: Book, rest: seq<Tok>, d: nat)
    requires Stops(rest, 8) && d < b.maxNest && b.maxDepth >= 2
    ensures ParseAt(b, 8, [Ident("TRUE"), Op(Percent)] + rest, d) ==
            Ok((Binary(Div, Literal(Boolean(true)), Literal(Number("100"))), rest))
  {
    var toks := [Ident("TRUE"), Op(Percent)] + rest;
    var after := [Op(Percent)] + rest;
    assert toks[1..] == after && after[1..] == rest;
    TrueIsPrimary(b, toks, d);
    PostfixIs(b, toks, d);
    PercentOfTrue(b, after);
    LoosenTo(b, 8, 10, toks, d);
  }

  lemma TrueIsPrimary(b: Book, toks: seq<Tok>, d: nat)
    requires |toks| >= 2 && toks[0] == Ident("TRUE") && toks[1] == Op(Percent) && d < b.maxNest
    ensures ParsePrimary(b, toks, d) == Ok((Literal(Boolean(true)), toks[1..]))
  {
    assert EqIgnoreAsciiCase("TRUE", "TRUE") && toks[1..][0] == Op(Percent);
    WordIsPrimary(b, "TRUE", toks, d);
  }

  lemma PercentOfTrue(b: Book, toks: seq<Tok>)
    requires HeadIs(toks, Op(Percent)) && Stops(toks[1..], 8) && b.maxDepth >= 2
    ensures ParsePercents(b, Literal(Boolean(true)), toks) ==
            Ok((Binary(Div, Literal(Boolean(true)), Literal(Number("100"))), toks[1..]))
  {
    var e := Binary(Div, Literal(Boolean(true)), Literal(Number("100")));
    assert Depth(e) == 2;
    PercentsStop(b, e, toks[1..]);
  }

  lemma {:induction false} TypedToksRead(b: Book, n: nat, rest: seq<Tok>, d: nat)
    requires Stops(rest, 8) && d + 3 * n + 2 <= b.maxNest && b.maxDepth >= 2
    ensures ParseAt(b, 8, TypedToks(n) + rest, d) == Ok((Tower(n), rest))
  {
    if n == 0 {
      assert (TypedToks(0) + rest)[1..] == [Ident("TRUE"), Op(Percent)] + rest;
      PercentRead(b, rest, d + 1);
      MinusRead(b, TypedToks(0) + rest, d, Binary(Div, Literal(Boolean(true)), Literal(Number("100"))), rest);
    } else {
      TypedToksRead(b, n - 1, [Op(Close)] + rest, d + 3);
      StepTyped(b, n, rest, d);
    }
  }

  lemma {:induction false} StepTyped(b: Book, n: nat, rest: seq<Tok>, d: nat)
    requires n > 0 && Stops(rest, 8) && d + 3 * n + 2 <= b.maxNest
    requires var close := [Op(Close)] + rest; ParseAt(b, 8, TypedToks(n - 1) + close, d + 3) == Ok((Tower(n - 1), close))
    ensures ParseAt(b, 8, TypedToks(n) + rest, d) == Ok((Tower(n), rest))
  {
    var close := [Op(Close)] + rest;
    var inside := [Ident("NOT")] + (TypedToks(n - 1) + close);
    PairSpelled(TypedToks(n - 1), rest);
    NotTowerRead(b, n - 1, inside, close, d + 2);
    ParensRead(b, [Op(Open)] + inside, Unary(Not, Tower(n - 1)), rest, d + 1);
    MinusRead(b, TypedToks(n) + rest, d, Unary(Not, Tower(n - 1)), rest);
  }

  lemma PairSpelled(toks: seq<Tok>, rest: seq<Tok>)
    ensures var inside := [Ident("NOT")] + (toks + ([Op(Close)] + rest));
            [Op(Minus), Op(Open), Ident("NOT")] + toks + [Op(Close)] + rest == [Op(Minus)] + ([Op(Open)] + inside)
  {
  }

  lemma NotTowerRead(b: Book, n: nat, toks: seq<Tok>, close: seq<Tok>, d: nat)
    requires HeadIs(toks, Ident("NOT")) && toks[1..] == TypedToks(n) + close && HeadIs(close, Op(Close)) && d < b.maxNest
    requires ParseAt(b, 8, toks[1..], d + 1) == Ok((Tower(n), close))
    ensures ParseAt(b, 1, toks, d) == Ok((Unary(Not, Tower(n)), close))
  {
    assert toks[1..][0] == Op(Minus);
    LoosenTo(b, 3, 8, toks[1..], d + 1);
    NotRead(b, toks, d, Tower(n), close);
    LoosenTo(b, 1, 3, toks, d);
  }

  lemma ParensRead(b: Book, toks: seq<Tok>, e: Expr, rest: seq<Tok>, d: nat)
    requires HeadIs(toks, Op(Open)) && d < b.maxNest && Stops(rest, 8)
    requires ParseAt(b, 1, toks[1..], d + 1) == Ok((e, [Op(Close)] + rest))
    ensures ParseAt(b, 8, toks, d) == Ok((e, rest))
  {
    assert ([Op(Close)] + rest)[1..] == rest;
    PrimaryParens(b, toks, d);
    LoosenTo(b, 8, 10, toks, d);
  }

  lemma {:induction false} TowerCounts(n: nat)
    ensures Depth(Tower(n)) == 2 * n + 3 && Size(Tower(n)) == 2 * n + 4
    ensures Prec(Tower(n)) == 8 && Nest(Tower(n)) == 3 * n + 3
  {
    if n > 0 {
      TowerCounts(n - 1);
      NotCounts(Tower(n - 1));
      NegCounts(Unary(Not, Tower(n - 1)));
    } else {
      QuotientCounts();
      NegCounts(Binary(Div, Literal(Boolean(true)), Literal(Number("100"))));
    }
  }

  lemma NotCounts(a: Expr)
    requires Prec(a) >= 3
    ensures var e := Unary(Not, a); Depth(e) == 1 + Depth(a) && Size(e) == 1 + Size(a) && Nest(e) == 1 + Nest(a)
  {
  }

  lemma NegCounts(a: Expr)
    requires Prec(a) < 8
    ensures var e := Unary(Neg, a); Depth(e) == 1 + Depth(a) && Size(e) == 1 + Size(a) && Nest(e) == 2 + Nest(a)
  {
    assert NestChild(a, 8) == 1 + Nest(a);
  }

  lemma QuotientCounts()
    ensures var e := Binary(Div, Literal(Boolean(true)), Literal(Number("100"))); Depth(e) == 2 && Size(e) == 3 && Nest(e) == 1
  {
  }

  lemma {:induction false} TowerPrints(b: Book, n: nat)
    requires b.reader.number("100") == Some("100")
    ensures Readable(b, Tower(n)) && Print(b, Tower(n)).Some?
  {
    if n > 0 {
      TowerPrints(b, n - 1);
      TowerCounts(n - 1);
      PairPrints(b, Tower(n - 1));
    } else {
      QuotientPrints(b);
    }
  }

  lemma {:induction false} QuotientPrints(b: Book)
    requires b.reader.number("100") == Some("100")
    ensures Readable(b, Tower(0)) && Print(b, Tower(0)).Some?
  {
    HundredPrints();
    var quotient := Binary(Div, Literal(Boolean(true)), Literal(Number("100")));
    assert Print(b, Literal(Number("100"))).Some? && Print(b, quotient).Some?;
    assert Legible(b, quotient, true);
    QuotientToks(b);
  }

  lemma HundredPrints()
    ensures IsNumeral("100")
  {
    assert "100"[..3] == "100" && IsMantissa("100"[..3]);
  }

  lemma {:induction false} QuotientToks(b: Book)
    ensures DatesRead(b.reader, Toks(b, Tower(0)))
  {
    var quotient := Binary(Div, Literal(Boolean(true)), Literal(Number("100")));
    assert Toks(b, quotient) == [Ident("TRUE")] + ([Op(Divide)] + [Num("100")]);
    assert Toks(b, Tower(0)) == [Op(Minus)] + ([Op(Open)] + Toks(b, quotient) + [Op(Close)]);
  }

  lemma {:induction false} TypedHasNoDate(r: Reader, n: nat)
    ensures DatesRead(r, TypedToks(n))
  {
    if n > 0 {
      TypedHasNoDate(r, n - 1);
    }
  }

  /** The tower's text is accepted while the recursion lasts. */
  lemma {:induction false} TypedIsAccepted(b: Book, n: nat)
    requires GoodReader(b.reader) && 3 * n + 2 <= b.maxNest && b.maxDepth >= 2 && WithinLimits(b, Tower(n))
    ensures Parse(b, Typed(n)) == Ok(Tower(n))
  {
    LexesTyped(b.reader, n);
    TypedHasNoDate(b.reader, n);
    EndsHere(b.reader, Typed(n), TypedToks(n));
    TypedToksRead(b, n, [], 0);
    TypedTokens(b, n);
  }

  lemma {:induction false} TypedTokens(b: Book, n: nat)
    requires ParseAt(b, 8, TypedToks(n) + [], 0) == Ok((Tower(n), [])) && WithinLimits(b, Tower(n))
    ensures ParseTokens(b, TypedToks(n)) == Ok(Tower(n))
  {
    assert TypedToks(n) + [] == TypedToks(n) && TypedToks(n)[0] == Op(Minus);
    LoosenTo(b, 1, 8, TypedToks(n), 0);
  }

  /** A formula that may be typed with `%`, is accepted and prints, and whose
      printed text, which needs parentheses where the percent sign did not, is refused. */
  lemma {:induction false} PercentDoesNotReadBack(b: Book)
    requires GoodReader(b.reader) && b.reader.number("100") == Some("100")
    requires b.maxDepth == MAX_FORMULA_DEPTH && b.maxNest == MAX_PARSE_DEPTH && b.lambdas == map[]
    ensures var e := Tower(106);
            && Parse(b, Typed(106)) == Ok(e) && Depth(e) == SAFE_DEPTH + 1
            && Print(b, e).Some? && Parse(b, Print(b, e).value).Err?
  {
    TowerCounts(106);
    TowerPrints(b, 106);
    TypedIsAccepted(b, 106);
    PrintedReadsBack(b, Tower(106));
  }

  // ----- dates -----

  /** Dates are read as the two syntaxes of date literals say. */
  ghost predicate ReadsDates(r: Reader) {
    forall raw: string :: r.date(raw) == DateText(raw)
  }

  /** What a date reads as reads as itself or not at all. */
  lemma DatesAreSettled(r: Reader, raw: string)
    requires ReadsDates(r) && r.date(raw).Some?
    ensures LiteralReads(r, DateTime(r.date(raw).value))
  {
    DateTextComesBackIff(raw);
    StampHasNoHash(ReadDate(raw).value);
  }

  /** A typed date comes back if and only if its year in UTC has four digits,
      and is refused otherwise. */
  lemma DateReadsBackIff(b: Book, raw: string)
    requires ReadsDates(b.reader) && '#' !in raw && ReadDate(raw).Some? && b.maxDepth >= 1 && b.maxNest >= 1
    ensures var date := ReadDate(raw).value; var e := Literal(DateTime(PrintStamp(date)));
            && Parse(b, "#" + raw + "#") == Ok(e) && Print(b, e).Some?
            && (Parse(b, Print(b, e).value) == Ok(e) <==> 0 <= date.year <= 9999)
            && (Parse(b, Print(b, e).value).Err? <==> !(0 <= date.year <= 9999))
  {
    var stamp := PrintStamp(ReadDate(raw).value);
    DateTextComesBackIff(raw);
    StampHasNoHash(ReadDate(raw).value);
    DateTokenizes(b.reader, raw);
    DateTokenizes(b.reader, stamp);
    DateParses(b, stamp);
  }

  lemma DateTokenizes(r: Reader, raw: string)
    requires '#' !in raw
    ensures Tokenize(r, "#" + raw + "#") ==
            match r.date(raw) case Some(stamp) => Ok([Date(stamp)]) case None => Err(InvalidDate(raw))
  {
    var t := "#" + raw + "#";
    IndexOfEnd(raw, '#', []);
    assert raw + ['#'] + [] == raw + "#" && t[1..] == raw + "#" && t[1..|raw| + 1] == raw;
    assert !IsWhitespace('#') && t[0] == '#';
    if r.date(raw).Some? {
      var tok := Date(r.date(raw).value);
      TokenizeOne(r, t, tok, |raw| + 2);
      assert t[|raw| + 2..] == [] && Tokenize(r, []) == Ok([]);
      assert [tok] + [] == [tok];
    } else {
      assert NextTok(r, t) == Results.Err(InvalidDate(raw));
    }
  }

  lemma DateParses(b: Book, stamp: string)
    requires b.maxDepth >= 1 && b.maxNest >= 1
    ensures ParseTokens(b, [Date(stamp)]) == Ok(Literal(DateTime(stamp)))
  {
    var toks, e := [Date(stamp)], Literal(DateTime(stamp));
    assert toks[1..] == [] && ParsePrimary(b, toks, 0) == Ok((e, []));
    PrimaryStands(b, toks, 0);
    LoosenTo(b, 1, 10, toks, 0);
    LiteralIsWithinLimits(b, e);
  }

  lemma LiteralIsWithinLimits(b: Book, e: Expr)
    requires e.Literal? && b.maxDepth >= 1
    ensures WithinLimits(b, e)
  {
    assert Depth(e) == 1 && Size(e) == 1;
  }

  /** Every year without four digits that the library holds has a day that can
      be typed and whose printed text is refused. */
  lemma {:induction false} LateYearDoesNotReadBack(b: Book, year: int)
    requires ReadsDates(b.reader) && b.maxDepth >= 1 && b.maxNest >= 1
    requires MIN_YEAR <= year <= MAX_YEAR && !(0 <= year <= 9999)
    ensures var e := Literal(DateTime(PrintStamp(Stamp(year, 1, 1, 0, 0, 0, 0))));
            && Parse(b, "#" + NewYear(year) + "#") == Ok(e) && Print(b, e).Some? && Parse(b, Print(b, e).value).Err?
  {
    NewYearIsLost(year);
    DateReadsBackIff(b, NewYear(year));
  }
}
