/** What the parser makes: formulas whose texts stand for them, and no deeper
    nested than the text they were read from. */
module ParsedFormulas {
  import opened Integers
  import opened Results
  import opened Formulas
  import opened Texts
  import opened LambdaParams
  import opened Functions
  import opened Tokenizer
  import opened Parser
  import opened Printer
  import opened PrintedTokens
  import opened PrintedClauses
  import opened FaithfulFormulas

  // ----- tokens -----

  lemma {:induction false} TokensAreGood(r: Reader, t: string)
    requires GoodLiterals(r)
    ensures Tokenize(r, t).Ok? ==> GoodToks(r, Tokenize(r, t).value)
    decreases |t|
  {
    if t != [] && IsWhitespace(t[0]) {
      TokensAreGood(r, t[1..]);
    } else if t != [] && NextTok(r, t).Ok? {
      TokenIsGood(r, t);
      TokensAreGood(r, t[NextTok(r, t).value.1..]);
    }
  }

  lemma TokenIsGood(r: Reader, t: string)
    requires GoodLiterals(r) && t != [] && NextTok(r, t).Ok?
    ensures GoodTok(r, NextTok(r, t).value.0)
  {
  }

  // ----- formulas, by induction over the parser -----

  /** The outcome is faithful, its rest is of the tokens, and if `clean`, which
      is without a percent sign, it nests no deeper than the parser did. */
  ghost predicate Sound(b: Book, level: nat, toks: seq<Tok>, d: nat, r: Parsed, clean: bool) {
    r.Ok? ==>
      && Faithful(b, r.value.0)
      && Within(r.value.1, toks)
      && (clean ==> d + NestChild(r.value.0, level) <= b.maxNest)
  }

  predicate Within(rest: seq<Tok>, toks: seq<Tok>) {
    forall tok :: tok in rest ==> tok in toks
  }

  /** The tokens allow what the parser makes of them to be read back. */
  ghost predicate Allowed(b: Book, toks: seq<Tok>, clean: bool) {
    GoodToks(b.reader, toks) && (clean ==> Op(Percent) !in toks)
  }

  /** What is left after a token and a part of the rest is of the tokens. */
  lemma WithinTail(toks: seq<Tok>, rest: seq<Tok>)
    requires toks != [] && Within(rest, toks[1..])
    ensures Within(rest, toks) && (rest != [] ==> Within(rest[1..], toks))
  {
  }

  lemma AllowedWithin(b: Book, rest: seq<Tok>, toks: seq<Tok>, clean: bool)
    requires Within(rest, toks) && Allowed(b, toks, clean)
    ensures Allowed(b, rest, clean) && (rest != [] ==> Allowed(b, rest[1..], clean) && Within(rest[1..], toks))
  {
  }

  lemma {:induction false} ParseAtIsSound(b: Book, level: nat, toks: seq<Tok>, d: nat, clean: bool)
    requires GoodBook(b) && Allowed(b, toks, clean) && 1 <= level <= 10
    ensures Sound(b, level, toks, d, ParseAt(b, level, toks, d), clean)
    decreases |toks|, 2 * (11 - level)
  {
    if level == 3 {
      ParseNotIsSound(b, toks, d, clean);
    } else if level == 4 {
      ParseComparisonIsSound(b, toks, d, clean);
    } else if level == 8 {
      ParseUnaryIsSound(b, toks, d, clean);
    } else if level == 9 {
      ParsePowerIsSound(b, toks, d, clean);
    } else if level == 10 {
      ParsePostfixIsSound(b, toks, d, clean);
    } else {
      ParseAtIsSound(b, level + 1, toks, d, clean);
      var first := ParseAt(b, level + 1, toks, d);
      if first.Ok? {
        AllowedWithin(b, first.value.1, toks, clean);
        ChainNests(level, first.value.0);
        ParseChainIsSound(b, level, first.value.0, first.value.1, d, clean);
      }
      ChainIs(b, level, toks, d);
    }
  }

  lemma ChainNests(level: nat, e: Expr)
    requires IsChainLevel(level)
    ensures NestChild(e, level) <= NestChild(e, level + 1)
  {
  }

  lemma {:induction false} ParseChainIsSound(b: Book, level: nat, lhs: Expr, toks: seq<Tok>, d: nat, clean: bool)
    requires GoodBook(b) && Allowed(b, toks, clean) && IsChainLevel(level) && Faithful(b, lhs)
    requires clean ==> d + NestChild(lhs, level) <= b.maxNest
    ensures Sound(b, level, toks, d, ParseChain(b, level, lhs, toks, d), clean)
    decreases |toks|, 0
  {
    var op := ChainOp(level, toks);
    if op.Some? {
      AllowedWithin(b, toks, toks, clean);
      ParseAtIsSound(b, level + 1, toks[1..], d, clean);
      var next := ParseAt(b, level + 1, toks[1..], d);
      if next.Ok? {
        var e := Binary(op.value, lhs, next.value.0);
        LinkIsSound(b, level, op.value, lhs, next.value.0, toks, next.value.1, d, clean);
        ParseChainIsSound(b, level, e, next.value.1, d, clean);
      }
    }
    ChainStep(b, level, lhs, toks, d);
  }

  lemma StaysAllowed(b: Book, toks: seq<Tok>, rest: seq<Tok>, clean: bool)
    requires toks != [] && Within(rest, toks[1..]) && Allowed(b, toks, clean)
    ensures Allowed(b, rest, clean) && Within(rest, toks)
  {
    WithinTail(toks, rest);
    AllowedWithin(b, rest, toks, clean);
  }

  lemma LinkFits(b: Book, level: nat, op: BinaryOp, lhs: Expr, rhs: Expr, d: nat, clean: bool)
    requires IsChainLevel(level) && Prec(Binary(op, lhs, rhs)) == level
    requires clean ==> d + NestChild(lhs, level) <= b.maxNest && d + NestChild(rhs, level + 1) <= b.maxNest
    ensures clean ==> d + NestChild(Binary(op, lhs, rhs), level) <= b.maxNest
  {
    LinkNests(level, op, lhs, rhs);
  }

  /** The next operand makes a sound link. */
  lemma LinkIsSound(b: Book, level: nat, op: BinaryOp, lhs: Expr, rhs: Expr, toks: seq<Tok>, rest: seq<Tok>, d: nat, clean: bool)
    requires IsChainLevel(level) && ChainOp(level, toks) == Some(op) && Allowed(b, toks, clean)
    requires Faithful(b, lhs) && (clean ==> d + NestChild(lhs, level) <= b.maxNest)
    requires Faithful(b, rhs) && (clean ==> d + NestChild(rhs, level + 1) <= b.maxNest) && Within(rest, toks[1..])
    ensures var e := Binary(op, lhs, rhs);
            && Faithful(b, e) && (clean ==> d + NestChild(e, level) <= b.maxNest)
            && Allowed(b, rest, clean) && Within(rest, toks)
  {
    StaysAllowed(b, toks, rest, clean);
    BinaryIsFaithful(b, op, lhs, rhs);
    LinkFits(b, level, op, lhs, rhs, d, clean);
  }

  lemma LinkNests(level: nat, op: BinaryOp, lhs: Expr, rhs: Expr)
    requires IsChainLevel(level) && Prec(Binary(op, lhs, rhs)) == level
    ensures NestChild(Binary(op, lhs, rhs), level) == Max(NestChild(lhs, level), NestChild(rhs, level + 1))
  {
  }

  lemma {:induction false} ParseNotIsSound(b: Book, toks: seq<Tok>, d: nat, clean: bool)
    requires GoodBook(b) && Allowed(b, toks, clean)
    ensures Sound(b, 3, toks, d, ParseNot(b, toks, d), clean)
    decreases |toks|, 15
  {
    if IsKeyword(toks, "NOT") {
      AllowedWithin(b, toks, toks, clean);
      ParseAtIsSound(b, 3, toks[1..], d + 1, clean);
      NotOutcome(b, toks, d, clean);
    } else {
      ParseAtIsSound(b, 4, toks, d, clean);
      NoNotOutcome(b, toks, d, clean);
    }
  }

  lemma {:induction false} NotOutcome(b: Book, toks: seq<Tok>, d: nat, clean: bool)
    requires IsKeyword(toks, "NOT") && GoodToks(b.reader, toks) && Sound(b, 3, toks[1..], d + 1, ParseAt(b, 3, toks[1..], d + 1), clean)
    ensures Sound(b, 3, toks, d, ParseNot(b, toks, d), clean)
  {
    var inner := ParseAt(b, 3, toks[1..], d + 1);
    if inner.Ok? {
      WithinTail(toks, inner.value.1);
      UnaryIsFaithful(b, Not, inner.value.0);
    }
  }

  lemma NoNotOutcome(b: Book, toks: seq<Tok>, d: nat, clean: bool)
    requires !IsKeyword(toks, "NOT") && Sound(b, 4, toks, d, ParseAt(b, 4, toks, d), clean)
    ensures Sound(b, 3, toks, d, ParseNot(b, toks, d), clean)
  {
    assert ParseNot(b, toks, d) == ParseAt(b, 4, toks, d);
  }

  lemma {:induction false} ParseComparisonIsSound(b: Book, toks: seq<Tok>, d: nat, clean: bool)
    requires GoodBook(b) && Allowed(b, toks, clean)
    ensures Sound(b, 4, toks, d, ParseComparison(b, toks, d), clean)
    decreases |toks|, 13
  {
    ParseAtIsSound(b, 5, toks, d, clean);
    var lhs := ParseAt(b, 5, toks, d);
    if lhs.Ok? {
      AllowedWithin(b, lhs.value.1, toks, clean);
      if Comparison(lhs.value.1).Some? {
        ParseAtIsSound(b, 5, lhs.value.1[1..], d, clean);
      }
    }
    ComparisonOutcome(b, toks, d, clean);
  }

  lemma {:induction false} ComparisonOutcome(b: Book, toks: seq<Tok>, d: nat, clean: bool)
    requires var lhs := ParseAt(b, 5, toks, d);
             && Sound(b, 5, toks, d, lhs, clean)
             && (lhs.Ok? && Comparison(lhs.value.1).Some? ==>
                   Sound(b, 5, lhs.value.1[1..], d, ParseAt(b, 5, lhs.value.1[1..], d), clean))
    ensures Sound(b, 4, toks, d, ParseComparison(b, toks, d), clean)
  {
    ComparisonIs(b, toks, d);
    var lhs := ParseAt(b, 5, toks, d);
    if lhs.Ok? && Comparison(lhs.value.1).Some? {
      var rhs := ParseAt(b, 5, lhs.value.1[1..], d);
      if rhs.Ok? {
        WithinTail(lhs.value.1, rhs.value.1);
        ComparisonNests(lhs.value.1, lhs.value.0, rhs.value.0);
        BinaryIsFaithful(b, Comparison(lhs.value.1).value, lhs.value.0, rhs.value.0);
      }
    }
  }

  lemma ComparisonNests(toks: seq<Tok>, l: Expr, r: Expr)
    requires Comparison(toks).Some?
    ensures NestChild(Binary(Comparison(toks).value, l, r), 4) == Max(NestChild(l, 5), NestChild(r, 5))
  {
  }

  lemma {:induction false} ParseUnaryIsSound(b: Book, toks: seq<Tok>, d: nat, clean: bool)
    requires GoodBook(b) && Allowed(b, toks, clean)
    ensures Sound(b, 8, toks, d, ParseUnary(b, toks, d), clean)
    decreases |toks|, 5
  {
    if HeadIs(toks, Op(Minus)) {
      AllowedWithin(b, toks, toks, clean);
      ParseAtIsSound(b, 8, toks[1..], d + 1, clean);
      MinusOutcome(b, toks, d, clean);
    } else {
      ParseAtIsSound(b, 9, toks, d, clean);
      NoMinusOutcome(b, toks, d, clean);
    }
  }

  lemma {:induction false} MinusOutcome(b: Book, toks: seq<Tok>, d: nat, clean: bool)
    requires HeadIs(toks, Op(Minus)) && Sound(b, 8, toks[1..], d + 1, ParseAt(b, 8, toks[1..], d + 1), clean)
    ensures Sound(b, 8, toks, d, ParseUnary(b, toks, d), clean)
  {
    var inner := ParseAt(b, 8, toks[1..], d + 1);
    if inner.Ok? {
      WithinTail(toks, inner.value.1);
      UnaryIsFaithful(b, Neg, inner.value.0);
    }
  }

  lemma NoMinusOutcome(b: Book, toks: seq<Tok>, d: nat, clean: bool)
    requires !HeadIs(toks, Op(Minus)) && Sound(b, 9, toks, d, ParseAt(b, 9, toks, d), clean)
    ensures Sound(b, 8, toks, d, ParseUnary(b, toks, d), clean)
  {
    assert ParseUnary(b, toks, d) == ParseAt(b, 9, toks, d);
  }

  lemma {:induction false} ParsePowerIsSound(b: Book, toks: seq<Tok>, d: nat, clean: bool)
    requires GoodBook(b) && Allowed(b, toks, clean)
    ensures Sound(b, 9, toks, d, ParsePower(b, toks, d), clean)
    decreases |toks|, 3
  {
    ParseAtIsSound(b, 10, toks, d, clean);
    var base := ParseAt(b, 10, toks, d);
    if base.Ok? {
      AllowedWithin(b, base.value.1, toks, clean);
      if HeadIs(base.value.1, Op(Power)) {
        ParseAtIsSound(b, 8, base.value.1[1..], d + 1, clean);
      }
    }
    PowerOutcome(b, toks, d, clean);
  }

  lemma {:induction false} PowerOutcome(b: Book, toks: seq<Tok>, d: nat, clean: bool)
    requires var base := ParseAt(b, 10, toks, d);
             && Sound(b, 10, toks, d, base, clean)
             && (base.Ok? && HeadIs(base.value.1, Op(Power)) ==>
                   Sound(b, 8, base.value.1[1..], d + 1, ParseAt(b, 8, base.value.1[1..], d + 1), clean))
    ensures Sound(b, 9, toks, d, ParsePower(b, toks, d), clean)
  {
    PowerIs(b, toks, d);
    var base := ParseAt(b, 10, toks, d);
    if base.Ok? && HeadIs(base.value.1, Op(Power)) {
      var exponent := ParseAt(b, 8, base.value.1[1..], d + 1);
      if exponent.Ok? {
        WithinTail(base.value.1, exponent.value.1);
        PowerNests(base.value.0, exponent.value.0);
        BinaryIsFaithful(b, Pow, base.value.0, exponent.value.0);
      }
    }
  }

  lemma PowerNests(l: Expr, r: Expr)
    ensures NestChild(Binary(Pow, l, r), 9) == Max(NestChild(l, 10), NestChild(r, 8) + 1)
  {
  }

  lemma {:induction false} ParsePostfixIsSound(b: Book, toks: seq<Tok>, d: nat, clean: bool)
    requires GoodBook(b) && Allowed(b, toks, clean)
    ensures Sound(b, 10, toks, d, ParsePostfix(b, toks, d), clean)
    decreases |toks|, 1
  {
    ParsePrimaryIsSound(b, toks, d, clean);
    var primary := ParsePrimary(b, toks, d);
    if primary.Ok? {
      PercentsAreSound(b, primary.value.0, primary.value.1);
    }
    PostfixIs(b, toks, d);
  }

  lemma {:induction false} PercentsAreSound(b: Book, e: Expr, toks: seq<Tok>)
    requires GoodBook(b) && Faithful(b, e)
    ensures var r := ParsePercents(b, e, toks);
            r.Ok? ==> Faithful(b, r.value.0) && Within(r.value.1, toks) && (Op(Percent) !in toks ==> r.value == (e, toks))
    decreases |toks|
  {
    if HeadIs(toks, Op(Percent)) {
      if e.Literal? && e.value.Number? {
        PercentsAreSound(b, Literal(Number(b.hundredth(e.value.numeral))), toks[1..]);
      } else if Link(b, Div, e, Literal(Number("100"))).Ok? {
        BinaryIsFaithful(b, Div, e, Literal(Number("100")));
        PercentsAreSound(b, Binary(Div, e, Literal(Number("100"))), toks[1..]);
      }
    }
  }

  lemma {:induction false} ParsePrimaryIsSound(b: Book, toks: seq<Tok>, d: nat, clean: bool)
    requires GoodBook(b) && Allowed(b, toks, clean)
    ensures Sound(b, 10, toks, d, ParsePrimary(b, toks, d), clean)
    decreases |toks|, 0, 1
  {
    if d + 1 > b.maxNest || toks == [] {
      NoPrimary(b, toks, d);
    } else if toks[0] == Op(Open) {
      ParseParensIsSound(b, toks, d, clean);
    } else if IsCall(toks) {
      ParseCallAtIsSound(b, toks, d, clean);
    } else {
      LeafIsSound(b, toks, d, clean);
    }
  }

  lemma {:induction false} ParseParensIsSound(b: Book, toks: seq<Tok>, d: nat, clean: bool)
    requires GoodBook(b) && Allowed(b, toks, clean) && HeadIs(toks, Op(Open))
    ensures Sound(b, 10, toks, d, ParsePrimary(b, toks, d), clean)
    decreases |toks|, 0, 0
  {
    AllowedWithin(b, toks, toks, clean);
    ParseAtIsSound(b, 1, toks[1..], d + 1, clean);
    ParensOutcome(b, toks, d, clean);
  }

  /** A word and an opening parenthesis. */
  predicate IsCall(toks: seq<Tok>) {
    |toks| >= 2 && toks[0].Ident? && toks[1] == Op(Open)
  }

  lemma {:induction false} ParseCallAtIsSound(b: Book, toks: seq<Tok>, d: nat, clean: bool)
    requires GoodBook(b) && Allowed(b, toks, clean) && IsCall(toks) && d + 1 <= b.maxNest
    ensures Sound(b, 10, toks, d, ParsePrimary(b, toks, d), clean)
    decreases |toks|, 0, 0
  {
    var word := toks[0].word;
    ParseCalledIsSound(b, word, toks, d + 1, clean);
    CalledOutcome(b, word, toks, d, clean, ParseCalled(b, word, toks, d + 1));
  }

  lemma NoPrimary(b: Book, toks: seq<Tok>, d: nat)
    requires d + 1 > b.maxNest || toks == []
    ensures ParsePrimary(b, toks, d).Err?
  {
  }

  lemma {:induction false} ParensOutcome(b: Book, toks: seq<Tok>, d: nat, clean: bool)
    requires HeadIs(toks, Op(Open)) && Sound(b, 1, toks[1..], d + 1, ParseAt(b, 1, toks[1..], d + 1), clean)
    ensures Sound(b, 10, toks, d, ParsePrimary(b, toks, d), clean)
  {
    var inner := ParseAt(b, 1, toks[1..], d + 1);
    if inner.Ok? {
      WithinTail(toks, inner.value.1);
      assert NestChild(inner.value.0, 10) <= 1 + NestChild(inner.value.0, 1);
    }
  }

  lemma {:induction false} CalledOutcome(b: Book, word: string, toks: seq<Tok>, d: nat, clean: bool, called: Parsed)
    requires IsCall(toks) && toks[0] == Ident(word) && d + 1 <= b.maxNest
    requires called == ParseCalled(b, word, toks, d + 1) && SoundCall(b, toks, d + 1, called, clean)
    ensures Sound(b, 10, toks, d, ParsePrimary(b, toks, d), clean)
  {
    CalledIsPrimary(b, word, toks, d);
  }

  lemma {:induction false} LeafIsSound(b: Book, toks: seq<Tok>, d: nat, clean: bool)
    requires GoodBook(b) && Allowed(b, toks, clean) && toks != [] && d + 1 <= b.maxNest
    requires toks[0] != Op(Open) && !IsCall(toks)
    ensures Sound(b, 10, toks, d, ParsePrimary(b, toks, d), clean)
  {
    if toks[0].Quoted? || toks[0].Ident? {
      MeasureRefIsSound(b, toks, d, clean);
    } else {
      LiteralIsSound(b, toks, d, clean);
    }
  }

  lemma {:induction false} LiteralIsSound(b: Book, toks: seq<Tok>, d: nat, clean: bool)
    requires Allowed(b, toks, clean) && toks != [] && d + 1 <= b.maxNest
    requires toks[0] != Op(Open) && !toks[0].Quoted? && !toks[0].Ident?
    ensures Sound(b, 10, toks, d, ParsePrimary(b, toks, d), clean)
  {
    assert GoodTok(b.reader, toks[0]);
  }

  // ----- names -----

  lemma NameIsFound(b: Book, toks: seq<Tok>)
    requires GoodNames(b) && GoodToks(b.reader, toks)
    ensures var r := ParseCategory(b, toks); r.Ok? ==> FindsCategory(b, r.value.0) && Within(r.value.1, toks)
  {
    assert toks != [] ==> GoodTok(b.reader, toks[0]);
  }

  lemma {:induction false} CategoriesAreSound(b: Book, toks: seq<Tok>)
    requires GoodNames(b) && GoodToks(b.reader, toks)
    ensures var r := ParseCategories(b, toks);
            r.Ok? ==> Within(r.value.1, toks) && forall i :: 0 <= i < |r.value.0| ==> FindsCategory(b, r.value.0[i])
    decreases |toks|
  {
    var first := ParseCategory(b, toks);
    NameIsFound(b, toks);
    if first.Ok? && HeadIs(first.value.1, Op(Comma)) {
      CategoriesAreSound(b, first.value.1[1..]);
    }
  }

  lemma MeasureRefIsSound(b: Book, toks: seq<Tok>, d: nat, clean: bool)
    requires GoodNames(b) && GoodToks(b.reader, toks) && d + 1 <= b.maxNest
    ensures Sound(b, 10, toks, d, ParseMeasureRef(b, toks), clean)
    ensures ParseMeasureRef(b, toks).Ok? ==> ParseMeasureRef(b, toks).value.0.Ref?
  {
    var name := ParseName(toks);
    assert toks != [] ==> GoodTok(b.reader, toks[0]);
    if name.Ok? && b.measureNamed(name.value.0).Some? {
      if HeadIs(name.value.1, Op(OpenBracket)) {
        CategoriesAreSound(b, name.value.1[1..]);
        var groupBy := ParseCategories(b, name.value.1[1..]);
        if groupBy.Ok? {
          WithinTail(name.value.1, groupBy.value.1);
          WithinTail(toks, groupBy.value.1);
        }
      }
    }
  }

  // ----- calls -----

  /** A call's outcome; `d` already counts the call. */
  ghost predicate SoundCall(b: Book, toks: seq<Tok>, d: nat, r: Parsed, clean: bool) {
    r.Ok? ==>
      && Faithful(b, r.value.0) && Prec(r.value.0) == 10
      && Within(r.value.1, toks)
      && (clean ==> d + Nest(r.value.0) <= b.maxNest + 1)
  }

  lemma {:induction false} ParseCalledIsSound(b: Book, word: string, toks: seq<Tok>, d: nat, clean: bool)
    requires GoodBook(b) && Allowed(b, toks, clean) && |toks| >= 2 && 0 < d <= b.maxNest
    ensures SoundCall(b, toks, d, ParseCalled(b, word, toks, d), clean)
    decreases |toks| - 1, 23
  {
    var named := b.lambdaNamed(word);
    assert Within(toks[2..], toks);
    AllowedWithin(b, toks[2..], toks, clean);
    if Callable(b.reader.functions, word).None? && named.Some? && named.value in b.lambdas {
      ParseLambdaCallIsSound(b, named.value, word, toks[2..], d, clean);
    } else if !IsSpecialForm(word) {
      ParseCallIsSound(b, word, toks[2..], d, clean);
      MeasureRefIsSound(b, toks, d - 1, clean);
    }
  }

  lemma {:induction false} ParseLambdaCallIsSound(b: Book, id: U32, word: string, toks: seq<Tok>, d: nat, clean: bool)
    requires GoodBook(b) && Allowed(b, toks, clean) && id in b.lambdas && d <= b.maxNest
    requires b.lambdaNamed(word) == Some(id) && Callable(b.reader.functions, word).None?
    ensures SoundCall(b, toks, d, ParseLambdaCall(b, id, word, toks, d), clean)
    decreases |toks|, 24
  {
    var kinds := KindsOf(b.lambdas[id]);
    if kinds.Some? {
      ParseArgsAreSound(b, LambdaKinds(kinds.value), toks, d, clean);
      var args := ParseArgs(b, LambdaKinds(kinds.value), toks, d);
      if args.Ok? && |args.value.exprs| == |kinds.value| {
        LambdaCallIsFaithful(b, id, word, args.value.exprs);
      }
    }
  }

  lemma {:induction false} ParseCallIsSound(b: Book, word: string, toks: seq<Tok>, d: nat, clean: bool)
    requires GoodBook(b) && Allowed(b, toks, clean) && d <= b.maxNest && !IsSpecialForm(word)
    ensures SoundCall(b, toks, d, ParseCall(b, word, toks, d), clean)
    decreases |toks|, 24
  {
    ParseArgsAreSound(b, CallKindsOf(b, word), toks, d, clean);
    CallOutcomeIsSound(b, word, toks, d, clean);
  }

  function CallKindsOf(b: Book, word: string): nat -> ParamKind {
    var plain := Callable(b.reader.functions, word);
    if plain.Some? then CallKinds(plain.value, Aggregation(b.reader.functions, word).Some?) else LambdaKinds([])
  }

  lemma {:induction false} CallOutcomeIsSound(b: Book, word: string, toks: seq<Tok>, d: nat, clean: bool)
    requires GoodBook(b) && !IsSpecialForm(word)
    requires SoundArgs(b, CallKindsOf(b, word), 0, toks, d, ParseArgs(b, CallKindsOf(b, word), toks, d), clean)
    ensures SoundCall(b, toks, d, ParseCall(b, word, toks, d), clean)
  {
    var args := ParseArgs(b, CallKindsOf(b, word), toks, d);
    var plain, reducing := Callable(b.reader.functions, word), Aggregation(b.reader.functions, word);
    if args.Ok? {
      var es, clause := args.value.exprs, args.value.clause;
      if clause.cats.Some? || clause.into != [] {
        if reducing.Some? && FinishAggregation(reducing.value, es, clause).Ok? {
          FinishedIsSound(b, word, reducing.value, es, clause, d, clean);
        }
      } else if plain.Some? && plain.value.Accepts(|es|) {
        PlainCallIsFaithful(b, word, plain.value, es);
      }
    }
  }

  lemma {:induction false} FinishedIsSound(b: Book, word: string, def: FnDef, es: seq<Expr>, clause: Clause, d: nat, clean: bool)
    requires GoodBook(b) && !IsSpecialForm(word) && Aggregation(b.reader.functions, word) == Some(def)
    requires FaithfulArgs(b, es, CallKindsOf(b, word), 0) && SoundClause(b, clause, d, clean)
    requires clean ==> d + NestAll(es) <= b.maxNest
    requires FinishAggregation(def, es, clause).Ok?
    ensures var e := FinishAggregation(def, es, clause).value;
            Faithful(b, e) && Prec(e) == 10 && (clean ==> d + Nest(e) <= b.maxNest + 1)
  {
    FaithfulEach(b, es, CallKindsOf(b, word), 0);
    AggregationIsFaithful(b, word, def, es, clause);
    FinishedNests(b, def, es, clause, d, clean);
  }

  lemma {:induction false} FaithfulEach(b: Book, es: seq<Expr>, kinds: nat -> ParamKind, i: nat)
    requires FaithfulArgs(b, es, kinds, i) && forall j: nat :: kinds(j) == TakesValue
    ensures forall j :: 0 <= j < |es| ==> Faithful(b, es[j])
  {
    if es != [] {
      FaithfulEach(b, es[1..], kinds, i + 1);
      assert forall j :: 1 <= j < |es| ==> es[j] == es[1..][j - 1];
    }
  }

  lemma FinishedNests(b: Book, def: FnDef, es: seq<Expr>, clause: Clause, d: nat, clean: bool)
    requires FinishAggregation(def, es, clause).Ok?
    requires clean ==> d + NestAll(es) <= b.maxNest && !PredNested(b, clause.pred, d) && d <= b.maxNest
    ensures var e := FinishAggregation(def, es, clause).value;
            e == Expr.Call(def.id, OverAll(def, es, clause) + Markers(clause)) && (clean ==> d + Nest(e) <= b.maxNest + 1)
  {
    var parts := OverAll(def, es, clause);
    NestAllJoined(parts, Markers(clause));
    MarkersNest(clause);
    SameNests(parts, es);
  }

  lemma RefNests(e: Expr)
    requires e.Ref?
    ensures ArgNest(e) == 1
  {
    assert Nest(e) == 1;
  }

  lemma {:induction false} SameNests(es: seq<Expr>, fs: seq<Expr>)
    requires |es| == |fs| && forall i :: 0 <= i < |es| ==> es[i] == fs[i] || (es[i].Ref? && fs[i].Ref?)
    ensures NestAll(es) == NestAll(fs)
  {
    if es != [] {
      if es[0].Ref? && fs[0].Ref? {
        RefNests(es[0]);
        RefNests(fs[0]);
      }
      forall i | 0 <= i < |es| - 1
        ensures es[1..][i] == fs[1..][i] || (es[1..][i].Ref? && fs[1..][i].Ref?)
      {
        assert es[1..][i] == es[i + 1] && fs[1..][i] == fs[i + 1];
      }
      SameNests(es[1..], fs[1..]);
    }
  }

  // ----- arguments and clauses -----

  /** A list of arguments' outcome. */
  ghost predicate SoundArgs(b: Book, kinds: nat -> ParamKind, i: nat, toks: seq<Tok>, d: nat,
                            r: Result<Args, ParseError>, clean: bool) {
    r.Ok? ==>
      && FaithfulArgs(b, r.value.exprs, kinds, i)
      && Within(r.value.rest, toks)
      && SoundClause(b, r.value.clause, d, clean)
      && (clean ==> d + NestAll(r.value.exprs) <= b.maxNest)
  }

  ghost predicate SoundClause(b: Book, clause: Clause, d: nat, clean: bool) {
    FaithfulClause(b, clause) && d <= b.maxNest && (clean ==> !PredNested(b, clause.pred, d))
  }

  ghost predicate SoundClauseRead(b: Book, toks: seq<Tok>, d: nat, r: Result<(Clause, seq<Tok>), ParseError>, clean: bool) {
    r.Ok? ==> SoundClause(b, r.value.0, d, clean) && Within(r.value.1, toks)
  }

  lemma {:induction false} ParseArgsAreSound(b: Book, kinds: nat -> ParamKind, toks: seq<Tok>, d: nat, clean: bool)
    requires GoodBook(b) && Allowed(b, toks, clean) && d <= b.maxNest
    ensures SoundArgs(b, kinds, 0, toks, d, ParseArgs(b, kinds, toks, d), clean)
    decreases |toks|, 23
  {
    if !HeadIs(toks, Op(Close)) {
      ParseArgsFromAreSound(b, kinds, 0, NO_CLAUSE, toks, d, clean);
    }
  }

  lemma {:induction false} ParseArgsFromAreSound(b: Book, kinds: nat -> ParamKind, i: nat, clause: Clause, toks: seq<Tok>,
                                                 d: nat, clean: bool)
    requires GoodBook(b) && Allowed(b, toks, clean) && SoundClause(b, clause, d, clean)
    ensures SoundArgs(b, kinds, i, toks, d, ParseArgsFrom(b, kinds, i, clause, toks, d), clean)
    decreases |toks|, 22
  {
    ParseArgIsSound(b, kinds(i), i, toks, d, clean);
    var first := ParseArg(b, kinds(i), i, toks, d);
    if first.Ok? {
      AllowedWithin(b, first.value.1, toks, clean);
      ParseOverIsSound(b, clause, first.value.1, d, clean);
      var over := ParseOver(b, clause, first.value.1, d);
      if over.Ok? {
        AllowedWithin(b, over.value.1, first.value.1, clean);
        ParseIntoIsSound(b, over.value.0, over.value.1, d, clean);
        var into := ParseInto(b, over.value.0, over.value.1);
        if into.Ok? {
          AllowedWithin(b, into.value.1, over.value.1, clean);
          if HeadIs(into.value.1, Op(Comma)) {
            ParseArgsFromAreSound(b, kinds, i + 1, into.value.0, into.value.1[1..], d, clean);
          }
        }
      }
    }
    ArgsFromOutcome(b, kinds, i, clause, toks, d, clean);
  }

  lemma {:induction false} ArgsFromOutcome(b: Book, kinds: nat -> ParamKind, i: nat, clause: Clause, toks: seq<Tok>, d: nat, clean: bool)
    requires var first := ParseArg(b, kinds(i), i, toks, d);
             && SoundArg(b, kinds(i), toks, d, first, clean)
             && (first.Ok? ==>
                   var over := ParseOver(b, clause, first.value.1, d);
                   && SoundClauseRead(b, first.value.1, d, over, clean)
                   && (over.Ok? ==>
                         var into := ParseInto(b, over.value.0, over.value.1);
                         && SoundClauseRead(b, over.value.1, d, into, clean)
                         && (into.Ok? && HeadIs(into.value.1, Op(Comma)) ==>
                               SoundArgs(b, kinds, i + 1, into.value.1[1..], d,
                                         ParseArgsFrom(b, kinds, i + 1, into.value.0, into.value.1[1..], d), clean))))
    ensures SoundArgs(b, kinds, i, toks, d, ParseArgsFrom(b, kinds, i, clause, toks, d), clean)
  {
    assert FaithfulArgs(b, [], kinds, i + 1);
    var r := ParseArgsFrom(b, kinds, i, clause, toks, d);
    if r.Ok? {
      var first := ParseArg(b, kinds(i), i, toks, d).value;
      assert r.value.exprs[0] == first.0;
    }
  }

  ghost predicate SoundArg(b: Book, kind: ParamKind, toks: seq<Tok>, d: nat, r: Parsed, clean: bool) {
    r.Ok? ==>
      && (if kind.TakesCategory? then r.value.0.Category? && FindsCategory(b, r.value.0.category)
          else Faithful(b, r.value.0) && (kind.TakesReading? ==> r.value.0.Ref?))
      && Within(r.value.1, toks)
      && (clean ==> d + ArgNest(r.value.0) <= b.maxNest)
  }

  lemma {:induction false} ParseArgIsSound(b: Book, kind: ParamKind, i: nat, toks: seq<Tok>, d: nat, clean: bool)
    requires GoodBook(b) && Allowed(b, toks, clean) && d <= b.maxNest
    ensures SoundArg(b, kind, toks, d, ParseArg(b, kind, i, toks, d), clean)
    decreases |toks|, 21
  {
    if kind.TakesCategory? {
      NameIsFound(b, toks);
    } else {
      ParseAtIsSound(b, 1, toks, d, clean);
    }
  }

  /** More categories, none of them with a measure's name. */
  lemma {:induction false} MoreCategoriesAreSound(b: Book, toks: seq<Tok>)
    requires GoodNames(b) && GoodToks(b.reader, toks)
    ensures var r := ParseMoreCategories(b, toks);
            r.Ok? ==> Within(r.value.1, toks) &&
                      forall i :: 0 <= i < |r.value.0| ==>
                        FindsCategory(b, r.value.0[i]) && b.measureNamed(CategoryName(b, r.value.0[i])).None?
    decreases |toks|
  {
    if HeadIs(toks, Op(Comma)) && CategoryAhead(b, toks[1..]) {
      NameIsFound(b, toks[1..]);
      assert GoodTok(b.reader, toks[1]);
      var first := ParseCategory(b, toks[1..]);
      if first.Ok? {
        WithinTail(toks, first.value.1);
        MoreCategoriesAreSound(b, first.value.1);
      }
    }
  }

  lemma BoundIsSound(b: Book, toks: seq<Tok>)
    requires GoodToks(b.reader, toks)
    ensures var r := ParseBound(toks); r.Ok? ==> ReadableBound(b.reader, r.value.0) && Within(r.value.1, toks)
  {
    if |toks| > 2 && toks[2].Num? && IsWhole(toks[2].numeral) {
      assert GoodTok(b.reader, toks[2]);
      var n := toks[2].numeral;
      assert n[..|n|] == n && IsMantissa(n[..|n|]);
      assert Negated(n) != "0" ==> Negated(n) == "-" + n && Negated(n)[1..] == n;
    }
  }

  lemma {:induction false} ReductionIsSound(b: Book, first: CategoryId, toks: seq<Tok>)
    requires GoodNames(b) && GoodToks(b.reader, toks) && FindsCategory(b, first)
    ensures var r := ParseReduction(b, first, toks);
            r.Ok? ==>
              && Within(r.value.2, toks) && FindsList(b, r.value.0)
              && (r.value.1.Some? ==> |r.value.0| == 1)
              && (r.value.1.Some? ==>
                    ReadableBound(b.reader, r.value.1.value.0) && ReadableBound(b.reader, r.value.1.value.1))
  {
    if HeadIs(toks, Op(OpenBracket)) {
      WindowIsSound(b, first, toks);
    } else {
      MoreCategoriesAreSound(b, toks);
    }
  }

  lemma {:induction false} WindowIsSound(b: Book, first: CategoryId, toks: seq<Tok>)
    requires GoodToks(b.reader, toks) && HeadIs(toks, Op(OpenBracket))
    ensures var r := ParseReduction(b, first, toks);
            r.Ok? ==>
              && Within(r.value.2, toks) && r.value.0 == [first]
              && (r.value.1.Some? ==>
                    ReadableBound(b.reader, r.value.1.value.0) && ReadableBound(b.reader, r.value.1.value.1))
  {
    BoundIsSound(b, toks[1..]);
    var lo := ParseBound(toks[1..]);
    if lo.Ok? && HeadIs(lo.value.1, Op(Dot)) && HeadIs(lo.value.1[1..], Op(Dot)) {
      GoodRest(b, lo.value.1, toks);
      BoundIsSound(b, lo.value.1[2..]);
      WindowOutcome(b, first, toks, lo.value);
    }
  }

  lemma GoodRest(b: Book, rest: seq<Tok>, toks: seq<Tok>)
    requires GoodToks(b.reader, toks) && toks != [] && Within(rest, toks[1..]) && |rest| >= 2
    ensures GoodToks(b.reader, rest[2..]) && Within(rest[2..], toks)
  {
    assert forall tok :: tok in rest[2..] ==> tok in rest;
    assert forall tok :: tok in toks[1..] ==> tok in toks;
  }

  lemma {:induction false} WindowOutcome(b: Book, first: CategoryId, toks: seq<Tok>, lo: (Expr, seq<Tok>))
    requires HeadIs(toks, Op(OpenBracket)) && ParseBound(toks[1..]) == Ok(lo)
    requires HeadIs(lo.1, Op(Dot)) && HeadIs(lo.1[1..], Op(Dot)) && Within(lo.1[2..], toks)
    requires ReadableBound(b.reader, lo.0)
    requires var hi := ParseBound(lo.1[2..]);
             hi.Ok? ==> ReadableBound(b.reader, hi.value.0) && Within(hi.value.1, lo.1[2..])
    ensures var r := ParseReduction(b, first, toks);
            r.Ok? ==>
              && Within(r.value.2, toks) && r.value.0 == [first] && r.value.1.Some?
              && ReadableBound(b.reader, r.value.1.value.0) && ReadableBound(b.reader, r.value.1.value.1)
  {
  }

  lemma {:induction false} ParseOverIsSound(b: Book, clause: Clause, toks: seq<Tok>, d: nat, clean: bool)
    requires GoodBook(b) && Allowed(b, toks, clean) && SoundClause(b, clause, d, clean)
    ensures SoundClauseRead(b, toks, d, ParseOver(b, clause, toks, d), clean)
    decreases |toks|, 21
  {
    if IsKeyword(toks, "OVER") && clause.cats.None? {
      AllowedWithin(b, toks, toks, clean);
      NameIsFound(b, toks[1..]);
      var first := ParseCategory(b, toks[1..]);
      if first.Ok? {
        WithinTail(toks, first.value.1);
        AllowedWithin(b, first.value.1, toks, clean);
        ReductionIsSound(b, first.value.0, first.value.1);
        var cats := ParseReduction(b, first.value.0, first.value.1);
        if cats.Ok? {
          AllowedWithin(b, cats.value.2, first.value.1, clean);
          if IsKeyword(cats.value.2, "WHERE") {
            ParseAtIsSound(b, 1, cats.value.2[1..], d, clean);
          }
        }
      }
    }
  }

  lemma {:induction false} ParseIntoIsSound(b: Book, clause: Clause, toks: seq<Tok>, d: nat, clean: bool)
    requires GoodBook(b) && Allowed(b, toks, clean) && SoundClause(b, clause, d, clean)
    ensures SoundClauseRead(b, toks, d, ParseInto(b, clause, toks), clean)
  {
    if IsKeyword(toks, "INTO") && clause.into == [] {
      AllowedWithin(b, toks, toks, clean);
      NameIsFound(b, toks[1..]);
      var first := ParseCategory(b, toks[1..]);
      if first.Ok? {
        WithinTail(toks, first.value.1);
        AllowedWithin(b, first.value.1, toks, clean);
        MoreCategoriesAreSound(b, first.value.1);
      }
    }
  }
}
