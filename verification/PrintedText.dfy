/** The tokenizer finds, in what the printer writes, the tokens it meant. */
module PrintedText {
  import opened Results
  import opened Formulas
  import opened Texts
  import opened Placeholders
  import opened LambdaParams
  import opened Functions
  import opened Tokenizer
  import opened Parser
  import opened Printer
  import opened PrintedTokens
  import opened PrintedClauses

  /** What may follow a name, a number or a text in printed formulas, and in some typed ones. */
  predicate IsBound(c: char) {
    c in {' ', ')', ',', '[', ']', '(', '+', '-', '%'}
  }

  predicate Bounded(rest: string) {
    rest == [] || IsBound(rest[0]) || (|rest| > 1 && rest[0] == '.' && rest[1] == '.')
  }

  ghost predicate GoodReader(r: Reader) {
    Sane(r.cls) && forall c: char :: r.cls.alphabetic(c) ==> !IsWhitespace(c)
  }

  function Before(toks: seq<Tok>, rest: Result<seq<Tok>, LexError>): Result<seq<Tok>, LexError> {
    match rest case Ok(more) => Ok(toks + more) case Err(e) => Err(e)
  }

  /** `s` reads as `toks`, whatever bounded text follows, or whatever text does;
      if there is a date among them that its text does not read as, it does not read. */
  ghost predicate Lexes(r: Reader, s: string, toks: seq<Tok>, any: bool) {
    forall rest: string :: any || Bounded(rest) ==> Follows(r, toks, Tokenize(r, s + rest), Tokenize(r, rest))
  }

  ghost predicate Follows(r: Reader, toks: seq<Tok>, whole: Result<seq<Tok>, LexError>, rest: Result<seq<Tok>, LexError>) {
    if DatesRead(r, toks) then whole == Before(toks, rest) else whole.Err?
  }

  lemma Compose(r: Reader, s: string, toks: seq<Tok>, any: bool, s': string, toks': seq<Tok>, any': bool)
    requires Lexes(r, s, toks, any) && Lexes(r, s', toks', any')
    requires any || (s' != [] && Bounded(s'))
    ensures Lexes(r, s + s', toks + toks', any')
  {
    forall rest: string | any' || Bounded(rest)
      ensures Follows(r, toks + toks', Tokenize(r, s + s' + rest), Tokenize(r, rest))
    {
      Reassociate(s, s', rest);
      BoundedStays(s', rest);
      BothFollow(r, toks, toks', Tokenize(r, s + (s' + rest)), Tokenize(r, s' + rest), Tokenize(r, rest));
    }
  }

  lemma BothFollow(r: Reader, toks: seq<Tok>, toks': seq<Tok>, whole: Result<seq<Tok>, LexError>,
                   more: Result<seq<Tok>, LexError>, rest: Result<seq<Tok>, LexError>)
    requires Follows(r, toks, whole, more) && Follows(r, toks', more, rest)
    ensures Follows(r, toks + toks', whole, rest)
  {
    BeforeBefore(toks, toks', rest);
    assert DatesRead(r, toks + toks') <==> DatesRead(r, toks) && DatesRead(r, toks') by {
      assert forall tok :: tok in toks || tok in toks' ==> tok in toks + toks';
    }
  }

  lemma BoundedStays(s: string, rest: string)
    ensures s != [] && Bounded(s) ==> Bounded(s + rest)
  {
  }

  lemma BeforeBefore(a: seq<Tok>, b: seq<Tok>, rest: Result<seq<Tok>, LexError>)
    ensures Before(a, Before(b, rest)) == Before(a + b, rest)
  {
    if rest.Ok? {
      assert a + (b + rest.value) == a + b + rest.value;
    }
  }

  /** One token. */
  lemma LexesOne(r: Reader, s: string, tok: Tok, any: bool)
    requires s != [] && !IsWhitespace(s[0]) && DatesRead(r, [tok])
    requires forall rest: string :: any || Bounded(rest) ==> NextTok(r, s + rest) == Ok((tok, |s|))
    ensures Lexes(r, s, [tok], any)
  {
    forall rest: string | any || Bounded(rest)
      ensures Tokenize(r, s + rest) == Before([tok], Tokenize(r, rest))
    {
      assert NextTok(r, s + rest) == Ok((tok, |s|));
      assert (s + rest)[|s|..] == rest && (s + rest)[0] == s[0];
    }
  }

  lemma TokenizeOne(r: Reader, t: string, tok: Tok, n: nat)
    requires t != [] && !IsWhitespace(t[0]) && NextTok(r, t) == Ok((tok, n))
    ensures Tokenize(r, t) == Before([tok], Tokenize(r, t[n..]))
  {
  }

  lemma LexesSpace(r: Reader)
    ensures Lexes(r, " ", [], true)
  {
    forall rest: string
      ensures Tokenize(r, " " + rest) == Before([], Tokenize(r, rest))
    {
      assert (" " + rest)[1..] == rest;
      BeforeNothing(Tokenize(r, rest));
    }
  }

  lemma BeforeNothing(rest: Result<seq<Tok>, LexError>)
    ensures Before([], rest) == rest
  {
    if rest.Ok? {
      assert [] + rest.value == rest.value;
    }
  }

  // ----- operators and marks -----

  /** A mark that starts no longer operator. */
  lemma LexesMark(r: Reader, c: char, sym: Sym)
    requires GoodReader(r) && OneCharSym(c) == Some(sym) && c !in {'<', '>', '=', '!'}
    ensures Lexes(r, [c], [Op(sym)], true)
  {
    assert IsMark(c);
    forall rest: string
      ensures NextTok(r, [c] + rest) == Ok((Op(sym), 1))
    {
      MarkIsNext(r, [c] + rest, sym);
    }
    LexesOne(r, [c], Op(sym), true);
  }

  lemma MarkIsNext(r: Reader, t: string, sym: Sym)
    requires GoodReader(r) && t != [] && OneCharSym(t[0]) == Some(sym) && t[0] !in {'<', '>', '=', '!'}
    ensures NextTok(r, t) == Ok((Op(sym), 1))
  {
    SymbolIsPlain(r, t[0]);
  }

  lemma SymbolIsPlain(r: Reader, c: char)
    requires GoodReader(r) && OneCharSym(c).Some?
    ensures c != '"' && c != '#' && c != '\'' && c != '@' && !IsAsciiDigit(c) && !StartsName(r.cls, c)
  {
    assert IsMark(c);
  }

  /** A comparison sign, before a space. */
  lemma LexesComparison(r: Reader, s: string, sym: Sym)
    requires GoodReader(r)
    requires (|s| == 1 && s[0] in {'<', '>'} && OneCharSym(s[0]) == Some(sym))
             || (|s| == 2 && TwoCharSym(s[0], s[1]) == Some(sym))
    ensures Lexes(r, s, [Op(sym)], false)
  {
    assert IsMark(s[0]);
    forall rest: string | Bounded(rest)
      ensures NextTok(r, s + rest) == Ok((Op(sym), |s|))
    {
      var t := s + rest;
      assert t[0] == s[0];
      if |s| == 2 {
        assert t[1] == s[1];
      } else if rest != [] {
        assert t[1] == rest[0];
      }
    }
    LexesOne(r, s, Op(sym), false);
  }

  lemma LexesSymbol(r: Reader, op: BinaryOp)
    requires GoodReader(r)
    ensures Lexes(r, Symbol(op), [OpTok(op)], false)
  {
    match op
    case And => LexesWord(r, "AND");
    case Or => LexesWord(r, "OR");
    case Eq => LexesComparison(r, "==", Equal);
    case Ne => LexesComparison(r, "<>", Differs);
    case Lt => LexesComparison(r, "<", Less);
    case Le => LexesComparison(r, "<=", LessEq);
    case Gt => LexesComparison(r, ">", Greater);
    case Ge => LexesComparison(r, ">=", GreaterEq);
    case Add => LexesMark(r, '+', Plus);
    case Sub => LexesMark(r, '-', Minus);
    case Mul => LexesMark(r, '*', Times);
    case Div => LexesMark(r, '/', Divide);
    case Pow => LexesMark(r, '^', Power);
    case Concat => LexesMark(r, '&', Ampersand);
  }

  /** An operator between spaces. */
  lemma LexesOperator(r: Reader, op: BinaryOp)
    requires GoodReader(r)
    ensures Lexes(r, " " + Symbol(op) + " ", [OpTok(op)], true)
  {
    LexesSpace(r);
    LexesSymbol(r, op);
    Compose(r, " ", [], true, Symbol(op), [OpTok(op)], false);
    assert [] + [OpTok(op)] == [OpTok(op)];
    Compose(r, " " + Symbol(op), [OpTok(op)], false, " ", [], true);
    assert [OpTok(op)] + [] == [OpTok(op)];
  }

  /** A comma and the space after it. */
  lemma LexesComma(r: Reader)
    requires GoodReader(r)
    ensures Lexes(r, ", ", [Op(Comma)], true)
  {
    LexesMark(r, ',', Comma);
    LexesSpace(r);
    Compose(r, ",", [Op(Comma)], true, " ", [], true);
    assert [Op(Comma)] + [] == [Op(Comma)] && "," + " " == ", ";
  }

  // ----- words and quoted names -----

  lemma {:induction false} NameRunOf(cls: CharClass, w: string, rest: string)
    requires NameRun(cls, w) == |w| && (rest == [] || !InName(cls, rest[0]))
    ensures NameRun(cls, w + rest) == |w|
  {
    if w == [] {
      assert w + rest == rest;
    } else {
      NameRunOf(cls, w[1..], rest);
      assert (w + rest)[1..] == w[1..] + rest;
    }
  }

  lemma BoundEndsName(cls: CharClass, rest: string)
    requires Sane(cls) && Bounded(rest)
    ensures rest == [] || !InName(cls, rest[0])
  {
    assert rest != [] ==> IsMark(rest[0]);
  }

  /** A character that starts a name starts nothing else. */
  lemma NameStartIsPlain(r: Reader, c: char)
    requires GoodReader(r) && StartsName(r.cls, c)
    ensures !IsWhitespace(c) && c != '"' && c != '#' && c != '\'' && !IsAsciiDigit(c)
  {
    assert IsMark('"') && IsMark('#') && IsMark('\'') && IsMark('_');
  }

  lemma LexesWord(r: Reader, w: string)
    requires GoodReader(r) && w != [] && StartsName(r.cls, w[0]) && NameRun(r.cls, w[1..]) == |w| - 1
    ensures Lexes(r, w, [Ident(w)], false)
  {
    NameStartIsPlain(r, w[0]);
    forall rest: string | Bounded(rest)
      ensures NextTok(r, w + rest) == Ok((Ident(w), |w|))
    {
      WordIsNext(r, w, rest);
    }
    LexesOne(r, w, Ident(w), false);
  }

  lemma WordIsNext(r: Reader, w: string, rest: string)
    requires GoodReader(r) && w != [] && StartsName(r.cls, w[0]) && NameRun(r.cls, w[1..]) == |w| - 1 && Bounded(rest)
    ensures NextTok(r, w + rest) == Ok((Ident(w), |w|))
  {
    var t := w + rest;
    NameStartIsPlain(r, w[0]);
    BoundEndsName(r.cls, rest);
    NameRunOf(r.cls, w[1..], rest);
    assert t[1..] == w[1..] + rest && t[0] == w[0] && t[..|w|] == w;
    assert |w| < |t| ==> t[|w|] == rest[0];
    assert LongestCall(r, t, |w|, 0, |w|) == |w|;
  }

  lemma {:induction false} UnquoteDoubled(s: string, q: char, rest: string)
    requires rest == [] || rest[0] != q
    ensures Unquote(Doubled(s, q) + [q] + rest, q) == Some((s, |Doubled(s, q)| + 1))
  {
    var t := Doubled(s, q) + [q] + rest;
    if s == [] {
      assert t == [q] + rest;
      assert rest != [] ==> t[1] == rest[0];
    } else {
      UnquoteDoubled(s[1..], q, rest);
      var more := Doubled(s[1..], q) + [q] + rest;
      assert s == [s[0]] + s[1..];
      if s[0] == q {
        assert t == [q, q] + more;
        UnquotePair(more, q);
      } else {
        assert t == [s[0]] + more;
        assert t[1..] == more;
      }
    }
  }

  lemma UnquotePair(more: string, q: char)
    requires Unquote(more, q).Some?
    ensures var r := Unquote(more, q).value; Unquote([q, q] + more, q) == Some(([q] + r.0, r.1 + 2))
  {
    assert ([q, q] + more)[2..] == more;
  }

  lemma LexesQuoted(r: Reader, name: string)
    requires name != []
    ensures Lexes(r, "'" + Doubled(name, '\'') + "'", [Quoted(name)], false)
  {
    var s := "'" + Doubled(name, '\'') + "'";
    forall rest: string | Bounded(rest)
      ensures NextTok(r, s + rest) == Ok((Quoted(name), |s|))
    {
      UnquoteClosed(s, name, '\'', rest);
      QuotedIsNext(r, s + rest, name, |s| - 1);
    }
    LexesOne(r, s, Quoted(name), false);
  }

  lemma UnquoteClosed(s: string, text: string, q: char, rest: string)
    requires s == [q] + Doubled(text, q) + [q] && (rest == [] || rest[0] != q)
    ensures Unquote((s + rest)[1..], q) == Some((text, |s| - 1))
  {
    UnquoteDoubled(text, q, rest);
    assert (s + rest)[1..] == Doubled(text, q) + [q] + rest;
  }

  lemma QuotedIsNext(r: Reader, t: string, name: string, n: nat)
    requires t != [] && t[0] == '\'' && Unquote(t[1..], '\'') == Some((name, n)) && name != []
    ensures NextTok(r, t) == Ok((Quoted(name), n + 1))
  {
  }

  lemma LexesText(r: Reader, text: string)
    ensures Lexes(r, "\"" + Doubled(text, '"') + "\"", [Str(text)], false)
  {
    var s := "\"" + Doubled(text, '"') + "\"";
    forall rest: string | Bounded(rest)
      ensures NextTok(r, s + rest) == Ok((Str(text), |s|))
    {
      UnquoteClosed(s, text, '"', rest);
      TextIsNext(r, s + rest, text, |s| - 1);
    }
    LexesOne(r, s, Str(text), false);
  }

  lemma TextIsNext(r: Reader, t: string, text: string, n: nat)
    requires t != [] && t[0] == '"' && Unquote(t[1..], '"') == Some((text, n))
    ensures NextTok(r, t) == Ok((Str(text), n + 1))
  {
  }

  lemma LexesName(b: Book, name: string)
    requires GoodReader(b.reader) && PrintName(b.reader.cls, name).Some?
    ensures Lexes(b.reader, PrintName(b.reader.cls, name).value, [NameTok(b, name)], false)
  {
    if IsBare(b.reader.cls, name) {
      LexesWord(b.reader, name);
    } else {
      LexesQuoted(b.reader, name);
    }
  }

  // ----- numbers and dates -----

  lemma {:induction false} DigitsAreDotted(d: string, rest: string)
    requires DigitRun(d) == |d|
    ensures DottedDigits(d + rest) == |d| + DottedDigits(rest)
  {
    if d == [] {
      assert d + rest == rest;
    } else {
      DigitsAreDotted(d[1..], rest);
      assert (d + rest)[1..] == d[1..] + rest;
    }
  }

  lemma DigitPrefix(s: string)
    ensures DigitRun(s[..DigitRun(s)]) == DigitRun(s)
  {
    DigitRunOf(s[..DigitRun(s)], []);
    assert s[..DigitRun(s)] + [] == s[..DigitRun(s)];
  }

  /** The tokenizer reads a mantissa to its end. */
  lemma MantissaEnds(m: string, rest: string)
    requires IsMantissa(m) && DottedDigits(rest) == 0
    ensures DottedDigits(m + rest) == |m|
  {
    var i := DigitRun(m);
    DigitPrefix(m);
    if i == |m| {
      DigitsAreDotted(m, rest);
    } else {
      FractionEnds(m[..i], m[i + 1..], rest);
      assert m == m[..i] + "." + m[i + 1..];
    }
  }

  lemma FractionEnds(d: string, f: string, rest: string)
    requires DigitRun(d) == |d| && DigitRun(f) == |f| && f != []
    requires DottedDigits(rest) == 0
    ensures DottedDigits(d + "." + f + rest) == |d| + 1 + |f|
  {
    DigitsAreDotted(d, "." + (f + rest));
    DotStep(f + rest);
    DigitsAreDotted(f, rest);
    FourParts(d, ".", f, rest);
  }

  lemma DotStep(g: string)
    requires g != [] && IsAsciiDigit(g[0])
    ensures DottedDigits("." + g) == 1 + DottedDigits(g)
  {
    assert ("." + g)[1..] == g;
  }

  lemma FourParts(a: string, b: string, c: string, d: string)
    ensures a + b + c + d == a + (b + (c + d))
  {
  }

  lemma DigitsEnd(d: string, rest: string)
    requires DigitRun(d) == |d| && (rest == [] || !IsAsciiDigit(rest[0]))
    ensures DigitRun(d + rest) == |d|
  {
    DigitRunOf(d, rest);
  }

  lemma NumeralEnds(n: string, rest: string)
    requires IsNumeral(n) && Bounded(rest)
    ensures n != [] && IsAsciiDigit(n[0]) && NumberEnd(n + rest) == Some(|n|)
  {
    var m, x, scientific := NumeralParts(n);
    if scientific {
      ScientificEnds(n, m, x, rest);
    } else {
      WholeMantissa(n, rest);
    }
  }

  lemma NumeralParts(n: string) returns (m: string, x: string, scientific: bool)
    requires IsNumeral(n)
    ensures IsMantissa(m) && n != [] && n[0] == m[0]
    ensures if scientific then IsExponent(x) && n == m + "e" + x else n == m
  {
    var k :| 0 < k <= |n| && IsMantissa(n[..k]) && (k == |n| || (n[k] == 'e' && IsExponent(n[k + 1..])));
    CutAt(n, k);
    m := n[..k];
    scientific := k < |n|;
    x := if scientific then n[k + 1..] else [];
  }

  lemma CutAt(n: string, k: nat)
    requires 0 < k <= |n|
    ensures n[..k][0] == n[0]
    ensures if k == |n| then n == n[..k] else n == n[..k] + [n[k]] + n[k + 1..]
  {
  }

  lemma WholeMantissa(n: string, rest: string)
    requires IsMantissa(n) && Bounded(rest)
    ensures IsAsciiDigit((n + rest)[0]) && NumberEnd(n + rest) == Some(|n|)
  {
    BoundEndsNumber(rest);
    MantissaEnds(n, rest);
    assert |n| < |n + rest| ==> (n + rest)[|n|] == rest[0];
  }

  lemma ScientificEnds(n: string, m: string, x: string, rest: string)
    requires n == m + "e" + x && IsMantissa(m) && IsExponent(x) && Bounded(rest)
    ensures IsAsciiDigit((n + rest)[0]) && NumberEnd(n + rest) == Some(|n|)
  {
    FourParts(m, "e", x, rest);
    MantissaBefore(m, x + rest);
    ExponentIsRead(n + rest, |m|, x, rest);
  }

  lemma ExponentIsRead(t: string, i: nat, x: string, rest: string)
    requires i < |t| && t[i + 1..] == x + rest && IsExponent(x) && Bounded(rest)
    ensures ExponentEnd(t, i) == Some(i + 1 + |x|)
  {
    var sign, digits := ExponentParts(x);
    Reassociate(sign, digits, rest);
    BoundEndsNumber(rest);
    DropSign(t, i + 1, sign, digits + rest);
    DigitsEnd(digits, rest);
    ExponentStart(t, i, x, rest);
  }

  lemma BoundEndsNumber(rest: string)
    requires Bounded(rest)
    ensures rest == [] || (!IsAsciiDigit(rest[0]) && rest[0] != 'e' && rest[0] != 'E')
    ensures DottedDigits(rest) == 0
  {
  }

  lemma ExponentParts(x: string) returns (sign: string, digits: string)
    requires IsExponent(x)
    ensures x == sign + digits && sign == (if x[0] == '-' then "-" else "")
    ensures digits != [] && DigitRun(digits) == |digits|
  {
    if x[0] == '-' {
      sign, digits := "-", x[1..];
    } else {
      sign, digits := "", x;
    }
  }

  lemma DropSign(t: string, k: nat, sign: string, after: string)
    requires k <= |t| && t[k..] == sign + after
    ensures k + |sign| <= |t| && t[k + |sign|..] == after
  {
    assert t[k + |sign|..] == t[k..][|sign|..];
  }

  lemma ExponentStart(t: string, i: nat, x: string, rest: string)
    requires i < |t| && t[i + 1..] == x + rest && IsExponent(x)
    ensures i + 1 < |t| && t[i + 1] == x[0] && x[0] != '+'
  {
    assert t[i + 1] == t[i + 1..][0];
  }

  lemma MantissaBefore(m: string, after: string)
    requires IsMantissa(m)
    ensures var t := m + ("e" + after);
            IsAsciiDigit(t[0]) && t[|m|] == 'e' && DottedDigits(t) == |m| && t[|m| + 1..] == after
  {
    MantissaEnds(m, "e" + after);
  }

  lemma LexesNumeral(r: Reader, n: string)
    requires IsNumeral(n) && r.number(n) == Some(n)
    ensures Lexes(r, n, [Num(n)], false)
  {
    NumeralEnds(n, []);
    forall rest: string | Bounded(rest)
      ensures NextTok(r, n + rest) == Ok((Num(n), |n|))
    {
      NumeralEnds(n, rest);
      assert (n + rest)[..|n|] == n && (n + rest)[0] == n[0];
    }
    LexesOne(r, n, Num(n), false);
  }

  lemma {:induction false} IndexOfEnd(s: string, c: char, rest: string)
    requires c !in s
    ensures IndexOf(s + [c] + rest, c) == Some(|s|)
  {
    if s == [] {
      assert s + [c] + rest == [c] + rest;
    } else {
      IndexOfEnd(s[1..], c, rest);
      assert (s + [c] + rest)[1..] == s[1..] + [c] + rest;
    }
  }

  lemma LexesDate(r: Reader, stamp: string)
    requires '#' !in stamp && (r.date(stamp) == Some(stamp) || r.date(stamp) == None)
    ensures Lexes(r, "#" + stamp + "#", [Date(stamp)], false)
  {
    if r.date(stamp) == Some(stamp) {
      LexesGoodDate(r, stamp);
    } else {
      forall rest: string | Bounded(rest)
        ensures Tokenize(r, "#" + stamp + "#" + rest).Err?
      {
        BadDate(r, stamp, rest);
      }
      assert Date(stamp) in [Date(stamp)] && !DatesRead(r, [Date(stamp)]);
    }
  }

  lemma BadDate(r: Reader, stamp: string, rest: string)
    requires '#' !in stamp && r.date(stamp) == None
    ensures Tokenize(r, "#" + stamp + "#" + rest).Err?
  {
    var t := "#" + stamp + "#" + rest;
    IndexOfEnd(stamp, '#', rest);
    assert t[1..] == stamp + "#" + rest && t[1..|stamp| + 1] == stamp;
    assert t[0] == '#' && !IsWhitespace('#');
    assert NextTok(r, t) == Results.Err(InvalidDate(stamp));
  }

  lemma LexesGoodDate(r: Reader, stamp: string)
    requires '#' !in stamp && r.date(stamp) == Some(stamp)
    ensures Lexes(r, "#" + stamp + "#", [Date(stamp)], false)
  {
    forall rest: string | Bounded(rest)
      ensures NextTok(r, "#" + stamp + "#" + rest) == Ok((Date(stamp), |stamp| + 2))
    {
      var t := "#" + stamp + "#" + rest;
      IndexOfEnd(stamp, '#', rest);
      assert t[1..] == stamp + "#" + rest && t[1..|stamp| + 1] == stamp;
    }
    LexesOne(r, "#" + stamp + "#", Date(stamp), false);
  }

  lemma LexesLiteral(b: Book, v: Value)
    requires GoodReader(b.reader) && LiteralReads(b.reader, v) && PrintLiteral(v).Some?
    ensures Lexes(b.reader, PrintLiteral(v).value, LiteralToks(v), false)
  {
    match v
    case Number(n) => LexesNumeral(b.reader, n);
    case Boolean(flag) => LexesWord(b.reader, if flag then "TRUE" else "FALSE");
    case Text(t) => LexesText(b.reader, t);
    case DateTime(stamp) => LexesDate(b.reader, stamp);
  }

  // ----- names of functions, dots and all -----

  lemma {:induction false} NameRunStays(cls: CharClass, w: string, rest: string)
    requires rest == [] || !InName(cls, rest[0])
    ensures NameRun(cls, w + rest) == NameRun(cls, w)
  {
    if w == [] {
      assert w + rest == rest;
    } else {
      assert (w + rest)[1..] == w[1..] + rest;
      NameRunStays(cls, w[1..], rest);
    }
  }

  /** The longest called name is the whole one. */
  lemma {:induction false} LongestCallReads(r: Reader, w: string, rest: string, j: nat, parts: nat, best: nat)
    requires GoodReader(r) && rest != [] && rest[0] == '(' && IsFunction(r.functions, w)
    requires 0 < j <= |w| && best <= j && parts <= 3 && IsCallName(r.cls, w, j, parts + 1)
    ensures LongestCall(r, w + rest, j, parts, best) == if j == |w| then best else |w|
    decreases 3 - parts
  {
    if j == |w| {
      assert (w + rest)[j] == '(';
    } else {
      var k := NextPart(r.cls, w, j).value;
      var called := CalledAt(r, w + rest, k);
      NamePart(r, w, rest, j);
      if k == |w| {
        WholeIsCalled(r, w, rest);
      }
      LongestCallReads(r, w, rest, k, parts + 1, if called then k else best);
    }
  }

  lemma WholeIsCalled(r: Reader, w: string, rest: string)
    requires rest != [] && rest[0] == '(' && IsFunction(r.functions, w)
    ensures CalledAt(r, w + rest, |w|)
  {
    assert (w + rest)[|w|..] == rest && (w + rest)[..|w|] == w;
  }

  lemma NamePart(r: Reader, w: string, rest: string, j: nat)
    requires GoodReader(r) && rest != [] && rest[0] == '(' && j < |w| && NextPart(r.cls, w, j).Some?
    ensures NextPart(r.cls, w + rest, j) == NextPart(r.cls, w, j)
  {
    assert IsMark('(');
    assert (w + rest)[j + 1..] == w[j + 1..] + rest;
    NameRunStays(r.cls, w[j + 1..], rest);
  }

  lemma CallNameIsNext(r: Reader, w: string, rest: string)
    requires GoodReader(r) && rest != [] && rest[0] == '(' && IsFunction(r.functions, w) && IsCallName(r.cls, w, 0, 0)
    ensures NextTok(r, w + rest) == Ok((Ident(w), |w|))
  {
    var j := CallNameStart(r.cls, w);
    FirstPart(r, w, rest);
    LongestCallReads(r, w, rest, j, 0, j);
    StartsAlike(r.cls, w, rest);
    WordToken(r, w + rest, j, |w|);
    assert (w + rest)[..|w|] == w;
  }

  lemma StartsAlike(cls: CharClass, w: string, rest: string)
    requires StartsCall(cls, w)
    ensures StartsCall(cls, w + rest)
  {
    assert (w + rest)[0] == w[0];
    assert |w| > 1 ==> (w + rest)[1] == w[1];
  }

  lemma CallNameStart(cls: CharClass, w: string) returns (j: nat)
    requires IsCallName(cls, w, 0, 0)
    ensures StartsCall(cls, w) && j == 1 + NameRun(cls, w[1..]) && j <= |w| && IsCallName(cls, w, j, 1)
  {
    j := 1 + NameRun(cls, w[1..]);
  }

  lemma WordToken(r: Reader, t: string, i: nat, n: nat)
    requires GoodReader(r) && StartsCall(r.cls, t) && i <= n <= |t|
    requires i == 1 + NameRun(r.cls, t[1..]) && LongestCall(r, t, i, 0, i) == n
    ensures NextTok(r, t) == Ok((Ident(t[..n]), n))
  {
    CallStartIsPlain(r, t);
  }

  lemma CallStartIsPlain(r: Reader, t: string)
    requires GoodReader(r) && StartsCall(r.cls, t)
    ensures var c := t[0]; !IsWhitespace(c) && c != '"' && c != '#' && c != '\'' && !IsAsciiDigit(c)
  {
    if t[0] != '@' {
      NameStartIsPlain(r, t[0]);
    }
  }

  lemma FirstPart(r: Reader, w: string, rest: string)
    requires GoodReader(r) && rest != [] && rest[0] == '(' && w != []
    ensures NameRun(r.cls, (w + rest)[1..]) == NameRun(r.cls, w[1..])
  {
    assert IsMark('(');
    assert (w + rest)[1..] == w[1..] + rest;
    NameRunStays(r.cls, w[1..], rest);
  }

  lemma LexesCallName(r: Reader, w: string)
    requires GoodReader(r) && IsFunction(r.functions, w) && IsCallName(r.cls, w, 0, 0)
    ensures Lexes(r, w + "(", [Ident(w), Op(Open)], true)
  {
    forall rest: string
      ensures Tokenize(r, w + "(" + rest) == Before([Ident(w), Op(Open)], Tokenize(r, rest))
    {
      CallReads(r, w, rest);
    }
  }

  lemma CallReads(r: Reader, w: string, rest: string)
    requires GoodReader(r) && IsFunction(r.functions, w) && IsCallName(r.cls, w, 0, 0)
    ensures Tokenize(r, w + "(" + rest) == Before([Ident(w), Op(Open)], Tokenize(r, rest))
  {
    CallNameReads(r, w, "(" + rest);
    OpenReads(r, rest);
    Glue(t => Tokenize(r, t), w, "(", rest, [Ident(w)], [Op(Open)]);
    assert [Ident(w)] + [Op(Open)] == [Ident(w), Op(Open)];
  }

  lemma Glue(f: string -> Result<seq<Tok>, LexError>, a: string, b: string, c: string, toks: seq<Tok>, toks': seq<Tok>)
    requires f(a + (b + c)) == Before(toks, f(b + c)) && f(b + c) == Before(toks', f(c))
    ensures f(a + b + c) == Before(toks + toks', f(c))
  {
    Reassociate(a, b, c);
    BeforeBefore(toks, toks', f(c));
  }

  lemma OpenReads(r: Reader, rest: string)
    requires GoodReader(r)
    ensures Tokenize(r, "(" + rest) == Before([Op(Open)], Tokenize(r, rest))
  {
    MarkIsNext(r, "(" + rest, Open);
    TokenizeOne(r, "(" + rest, Op(Open), 1);
    assert ("(" + rest)[1..] == rest;
  }

  lemma CallNameReads(r: Reader, w: string, more: string)
    requires GoodReader(r) && IsFunction(r.functions, w) && IsCallName(r.cls, w, 0, 0)
    requires more != [] && more[0] == '('
    ensures Tokenize(r, w + more) == Before([Ident(w)], Tokenize(r, more))
  {
    var _ := CallNameStart(r.cls, w);
    CallStartIsPlain(r, w);
    CallNameIsNext(r, w, more);
    assert (w + more)[|w|..] == more && (w + more)[0] == w[0];
    TokenizeOne(r, w + more, Ident(w), |w|);
  }

  // ----- a whole formula -----

  /** Two parts with a comma between them. */
  lemma LexesMore(r: Reader, s: string, toks: seq<Tok>, s': string, toks': seq<Tok>, any: bool)
    requires GoodReader(r) && Lexes(r, s, toks, false) && Lexes(r, s', toks', any)
    ensures Lexes(r, s + ", " + s', toks + ([Op(Comma)] + toks'), any)
  {
    LexesComma(r);
    Compose(r, s, toks, false, ", ", [Op(Comma)], true);
    Compose(r, s + ", ", toks + [Op(Comma)], true, s', toks', any);
    assert toks + [Op(Comma)] + toks' == toks + ([Op(Comma)] + toks');
  }

  lemma {:induction false} LexesCategories(b: Book, cs: seq<CategoryId>)
    requires GoodReader(b.reader) && cs != [] && PrintCategories(b, cs).Some?
    ensures Lexes(b.reader, PrintCategories(b, cs).value, CategoryToks(b, cs), false)
  {
    LexesName(b, CategoryName(b, cs[0]));
    if |cs| > 1 {
      LexesCategories(b, cs[1..]);
      var tok := NameTok(b, CategoryName(b, cs[0]));
      LexesMore(b.reader, PrintCategory(b, cs[0]).value, [tok], PrintCategories(b, cs[1..]).value, CategoryToks(b, cs[1..]), false);
      assert [tok] + ([Op(Comma)] + CategoryToks(b, cs[1..])) == CategoryToks(b, cs);
    }
  }

  lemma LexesBracketed(r: Reader, s: string, tok: Tok, s': string, toks: seq<Tok>)
    requires GoodReader(r) && Lexes(r, s, [tok], false) && Lexes(r, s', toks, false)
    ensures Lexes(r, s + "[" + s' + "]", [tok] + ([Op(OpenBracket)] + toks + [Op(CloseBracket)]), false)
  {
    LexesMark(r, '[', OpenBracket);
    LexesMark(r, ']', CloseBracket);
    Compose(r, s, [tok], false, "[", [Op(OpenBracket)], true);
    Compose(r, s + "[", [tok] + [Op(OpenBracket)], true, s', toks, false);
    Compose(r, s + "[" + s', [tok] + [Op(OpenBracket)] + toks, false, "]", [Op(CloseBracket)], true);
    assert [tok] + [Op(OpenBracket)] + toks + [Op(CloseBracket)] == [tok] + ([Op(OpenBracket)] + toks + [Op(CloseBracket)]);
  }

  lemma LexesReference(b: Book, m: MeasureId, groupBy: seq<CategoryId>)
    requires GoodReader(b.reader) && PrintReference(b, m, groupBy).Some?
    ensures Lexes(b.reader, PrintReference(b, m, groupBy).value, RefToks(b, m, groupBy), false)
  {
    var tok := NameTok(b, MeasureName(b, m));
    LexesName(b, b.measures[m]);
    if groupBy == [] {
      assert RefToks(b, m, groupBy) == [tok];
    } else {
      LexesCategories(b, groupBy);
      LexesBracketed(b.reader, PrintName(b.reader.cls, b.measures[m]).value, tok,
                     PrintCategories(b, groupBy).value, CategoryToks(b, groupBy));
    }
  }

  lemma Weaken(r: Reader, s: string, toks: seq<Tok>)
    requires Lexes(r, s, toks, true)
    ensures Lexes(r, s, toks, false)
  {
  }

  lemma LexesParens(r: Reader, s: string, toks: seq<Tok>)
    requires GoodReader(r) && Lexes(r, s, toks, false)
    ensures Lexes(r, "(" + s + ")", [Op(Open)] + toks + [Op(Close)], false)
  {
    LexesMark(r, '(', Open);
    LexesMark(r, ')', Close);
    Compose(r, "(", [Op(Open)], true, s, toks, false);
    Compose(r, "(" + s, [Op(Open)] + toks, false, ")", [Op(Close)], true);
    Weaken(r, "(" + s + ")", [Op(Open)] + toks + [Op(Close)]);
  }

  lemma LexesPrefixed(r: Reader, op: UnaryOp, s: string, toks: seq<Tok>)
    requires GoodReader(r) && Lexes(r, s, toks, false)
    ensures Lexes(r, if op == Neg then "-" + s else "NOT " + s, [if op == Neg then Op(Minus) else Ident("NOT")] + toks, false)
  {
    if op == Neg {
      LexesMark(r, '-', Minus);
      Compose(r, "-", [Op(Minus)], true, s, toks, false);
    } else {
      LexesWord(r, "NOT");
      LexesSpace(r);
      Compose(r, "NOT", [Ident("NOT")], false, " ", [], true);
      assert "NOT" + " " == "NOT " && [Ident("NOT")] + [] == [Ident("NOT")];
      Compose(r, "NOT ", [Ident("NOT")], true, s, toks, false);
    }
  }

  lemma LexesInfix(r: Reader, op: BinaryOp, s: string, toks: seq<Tok>, s': string, toks': seq<Tok>)
    requires GoodReader(r) && Lexes(r, s, toks, false) && Lexes(r, s', toks', false)
    ensures Lexes(r, s + (" " + Symbol(op) + " ") + s', toks + ([OpTok(op)] + toks'), false)
  {
    var sign := " " + Symbol(op) + " ";
    LexesOperator(r, op);
    Compose(r, s, toks, false, sign, [OpTok(op)], true);
    Compose(r, s + sign, toks + [OpTok(op)], true, s', toks', false);
    assert toks + [OpTok(op)] + toks' == toks + ([OpTok(op)] + toks');
  }

  // ----- the clauses of an aggregation -----

  /** A word between spaces. */
  lemma LexesKeyword(r: Reader, w: string)
    requires GoodReader(r) && w != [] && StartsName(r.cls, w[0]) && NameRun(r.cls, w[1..]) == |w| - 1
    ensures Lexes(r, " " + w + " ", [Ident(w)], true)
  {
    LexesSpace(r);
    LexesWord(r, w);
    Compose(r, " ", [], true, w, [Ident(w)], false);
    Compose(r, " " + w, [] + [Ident(w)], false, " ", [], true);
    assert [] + [Ident(w)] + [] == [Ident(w)];
  }

  lemma LexesOffset(r: Reader, sign: char, sym: Sym, n: string)
    requires GoodReader(r) && ((sign == '+' && sym == Plus) || (sign == '-' && sym == Minus))
    requires IsWhole(n) && r.number(n) == Some(n)
    ensures Lexes(r, "THIS" + [sign] + n, [Ident("THIS"), Op(sym), Num(n)], false)
  {
    LexesWord(r, "THIS");
    LexesMark(r, sign, sym);
    assert n[..|n|] == n && IsMantissa(n[..|n|]);
    LexesNumeral(r, n);
    Compose(r, "THIS", [Ident("THIS")], false, [sign], [Op(sym)], true);
    Compose(r, "THIS" + [sign], [Ident("THIS")] + [Op(sym)], true, n, [Num(n)], false);
    assert [Ident("THIS")] + [Op(sym)] + [Num(n)] == [Ident("THIS"), Op(sym), Num(n)];
  }

  lemma LexesBound(r: Reader, e: Expr)
    requires GoodReader(r) && ReadableBound(r, e)
    ensures PrintBound(e).Some? && Lexes(r, PrintBound(e).value, BoundToks(e), false)
  {
    if e.value.Text? {
      LexesWord(r, e.value.text);
    } else {
      LexesNumberBound(r, e.value.numeral);
    }
  }

  lemma LexesNumberBound(r: Reader, n: string)
    requires GoodReader(r) && ReadableBound(r, Literal(Number(n)))
    ensures var e := Literal(Number(n)); PrintBound(e).Some? && Lexes(r, PrintBound(e).value, BoundToks(e), false)
  {
    var e := Literal(Number(n));
    if n == "0" {
      LexesWord(r, "THIS");
    } else if n[0] == '-' {
      LexesOffset(r, '-', Minus, n[1..]);
      assert PrintBound(e) == Some("THIS-" + n[1..]) && "THIS-" == "THIS" + ['-'];
    } else {
      LexesOffset(r, '+', Plus, n);
      assert PrintBound(e) == Some("THIS+" + n) && "THIS+" == "THIS" + ['+'];
    }
  }

  lemma LexesDots(r: Reader)
    requires GoodReader(r)
    ensures Lexes(r, "..", [Op(Dot), Op(Dot)], true)
  {
    LexesMark(r, '.', Dot);
    Compose(r, ".", [Op(Dot)], true, ".", [Op(Dot)], true);
    assert "." + "." == ".." && [Op(Dot)] + [Op(Dot)] == [Op(Dot), Op(Dot)];
  }

  lemma LexesWindow(r: Reader, lo: Expr, hi: Expr)
    requires GoodReader(r) && ReadableBound(r, lo) && ReadableBound(r, hi)
    ensures PrintBound(lo).Some? && PrintBound(hi).Some?
    ensures Lexes(r, "[" + PrintBound(lo).value + ".." + PrintBound(hi).value + "]", WindowToks(lo, hi), true)
  {
    LexesBound(r, lo);
    LexesBound(r, hi);
    LexesMark(r, '[', OpenBracket);
    LexesMark(r, ']', CloseBracket);
    LexesDots(r);
    var l, h := PrintBound(lo).value, PrintBound(hi).value;
    Compose(r, "[", [Op(OpenBracket)], true, l, BoundToks(lo), false);
    Compose(r, "[" + l, [Op(OpenBracket)] + BoundToks(lo), false, "..", [Op(Dot), Op(Dot)], true);
    Compose(r, "[" + l + "..", [Op(OpenBracket)] + BoundToks(lo) + [Op(Dot), Op(Dot)], true, h, BoundToks(hi), false);
    Compose(r, "[" + l + ".." + h, [Op(OpenBracket)] + BoundToks(lo) + [Op(Dot), Op(Dot)] + BoundToks(hi), false,
            "]", [Op(CloseBracket)], true);
  }

  /** Categories after a keyword. */
  lemma LexesListed(b: Book, w: string, cats: seq<CategoryId>)
    requires GoodReader(b.reader) && w != [] && StartsName(b.reader.cls, w[0]) && NameRun(b.reader.cls, w[1..]) == |w| - 1
    requires cats != [] && PrintCategories(b, cats).Some?
    ensures Lexes(b.reader, " " + w + " " + PrintCategories(b, cats).value, [Ident(w)] + CategoryToks(b, cats), false)
  {
    LexesKeyword(b.reader, w);
    LexesCategories(b, cats);
    Compose(b.reader, " " + w + " ", [Ident(w)], true, PrintCategories(b, cats).value, CategoryToks(b, cats), false);
  }

  /** The text of a window that is `clause`'s. */
  lemma LexesOptionalWindow(r: Reader, clause: Clause, bounds: Option<seq<Expr>>, s: string, toks: seq<Tok>)
    requires GoodReader(r) && Lexes(r, s, toks, false) && clause.cats.Some? && PrintWindow(clause.cats.value, bounds).Some?
    requires clause.window == match bounds case Some(es) => (if |es| == 2 then Some((es[0], es[1])) else None) case None => None
    requires clause.window.Some? ==> ReadableBound(r, clause.window.value.0) && ReadableBound(r, clause.window.value.1)
    ensures var window := match clause.window case Some(w) => WindowToks(w.0, w.1) case None => [];
            Lexes(r, s + PrintWindow(clause.cats.value, bounds).value, toks + window, false)
  {
    match clause.window {
      case None =>
        assert s + "" == s && toks + [] == toks;
      case Some(w) =>
        LexesWindow(r, w.0, w.1);
        var window := PrintWindow(clause.cats.value, bounds).value;
        Compose(r, s, toks, false, window, WindowToks(w.0, w.1), true);
        Weaken(r, s + window, toks + WindowToks(w.0, w.1));
    }
  }

  /** A printed formula's text reads as the tokens it stands for. */
  lemma {:induction false} LexesPrinted(b: Book, e: Expr, strict: bool)
    requires GoodReader(b.reader) && Legible(b, e, strict) && Print(b, e).Some?
    ensures Lexes(b.reader, Print(b, e).value, Toks(b, e), false)
    decreases e, 1
  {
    match e
    case Literal(v) => LexesLiteral(b, v);
    case Ref(m, spec) =>
      LexesReference(b, m, spec.groupBy);
    case Unary(op, a) =>
      LexesChild(b, a, Prec(e), strict);
      LexesPrefixed(b.reader, op, Child(b, a, Prec(e)).value, ChildToks(b, a, Prec(e)));
    case Binary(op, l, r) =>
      var p := Prec(e);
      LexesChild(b, l, LeftMin(op, p), strict);
      LexesChild(b, r, RightMin(op, p), strict);
      LexesInfix(b.reader, op, Child(b, l, LeftMin(op, p)).value, ChildToks(b, l, LeftMin(op, p)),
                 Child(b, r, RightMin(op, p)).value, ChildToks(b, r, RightMin(op, p)));
    case Call(f, args) =>
      if Reducing(b, f).Some? {
        AggregationIsLegible(b, f, args, strict);
        LexesAggregation(b, Reducing(b, f).value, args, strict && IsOpen(ClauseOf(Reducing(b, f).value, args)), strict);
      } else {
        CallIsLegible(b, f, args, strict);
        LexesList(b, args, KindsTaken(b, f, |args|, strict).value, 0, strict);
        LexesCall(b, f, args, strict);
      }
  }

  lemma {:induction false} LexesChild(b: Book, e: Expr, min: nat, strict: bool)
    requires GoodReader(b.reader) && Legible(b, e, strict) && Print(b, e).Some?
    ensures Lexes(b.reader, Child(b, e, min).value, ChildToks(b, e, min), false)
    decreases e, 2
  {
    LexesPrinted(b, e, strict);
    if Prec(e) < min {
      LexesParens(b.reader, Print(b, e).value, Toks(b, e));
    }
  }

  lemma {:induction false} LexesCall(b: Book, f: FuncId, args: seq<Expr>, strict: bool)
    requires GoodReader(b.reader) && Reducing(b, f).None? && KindsTaken(b, f, |args|, strict).Some? && Print(b, Call(f, args)).Some?
    requires PrintList(b, args).Some? && Lexes(b.reader, PrintList(b, args).value + ")", ListToks(b, args), true)
    ensures Lexes(b.reader, Print(b, Call(f, args)).value, Toks(b, Call(f, args)), false)
  {
    LexesCalled(b, f, |args|, strict);
    CallText(b, f, args);
    LexesCallAndList(b.reader, PrintCalled(b, f).value, CalledTok(b, f), PrintList(b, args).value, ListToks(b, args));
  }

  lemma LexesCallAndList(r: Reader, word: string, tok: Tok, list: string, toks: seq<Tok>)
    requires Lexes(r, word + "(", [tok, Op(Open)], true) && Lexes(r, list + ")", toks, true)
    ensures Lexes(r, word + "(" + list + ")", [tok, Op(Open)] + toks, false)
  {
    Compose(r, word + "(", [tok, Op(Open)], true, list + ")", toks, true);
    assert word + "(" + (list + ")") == word + "(" + list + ")";
    Weaken(r, word + "(" + list + ")", [tok, Op(Open)] + toks);
  }

  lemma {:induction false} CallText(b: Book, f: FuncId, args: seq<Expr>)
    requires Reducing(b, f).None? && Print(b, Call(f, args)).Some? && PrintCalled(b, f).Some? && PrintList(b, args).Some?
    ensures Print(b, Call(f, args)).value == PrintCalled(b, f).value + "(" + PrintList(b, args).value + ")"
    ensures Toks(b, Call(f, args)) == [CalledTok(b, f), Op(Open)] + ListToks(b, args)
  {
  }

  /** The name of what is called, and the parenthesis. */
  lemma {:induction false} LexesCalled(b: Book, f: FuncId, n: nat, strict: bool)
    requires GoodReader(b.reader) && KindsTaken(b, f, n, strict).Some?
    ensures var name := PrintCalled(b, f); name.Some? && Lexes(b.reader, name.value + "(", [CalledTok(b, f), Op(Open)], true)
  {
    var r, word := b.reader, CalledName(b, f);
    if NamedLambdaOf(f).Some? {
      var name, tok := PrintName(r.cls, word).value, CalledTok(b, f);
      LexesName(b, word);
      LexesMark(r, '(', Open);
      Compose(r, name, [tok], false, "(", [Op(Open)], true);
      assert [tok] + [Op(Open)] == [tok, Op(Open)];
    } else {
      LexesCallName(r, word);
    }
  }

  /** The name of what is called, as it prints. */
  function PrintCalled(b: Book, f: FuncId): Option<string> {
    if NamedLambdaOf(f).Some? then PrintName(b.reader.cls, CalledName(b, f)) else Some(CalledName(b, f))
  }

  lemma {:induction false} LexesList(b: Book, args: seq<Expr>, kinds: nat -> ParamKind, i: nat, strict: bool)
    requires GoodReader(b.reader) && LegibleArgs(b, args, kinds, i, strict) && PrintList(b, args).Some?
    ensures Lexes(b.reader, PrintList(b, args).value + ")", ListToks(b, args), true)
    decreases args, 3
  {
    var r := b.reader;
    LexesMark(r, ')', Close);
    if args == [] {
      assert "" + ")" == ")";
    } else {
      LexesArg(b, args[0], kinds(i), strict);
      var first, tok := Print(b, args[0]).value, Toks(b, args[0]);
      if |args| == 1 {
        Compose(r, first, tok, false, ")", [Op(Close)], true);
      } else {
        LexesList(b, args[1..], kinds, i + 1, strict);
        LexesMore(r, first, tok, PrintList(b, args[1..]).value + ")", ListToks(b, args[1..]), true);
        assert first + ", " + (PrintList(b, args[1..]).value + ")") == PrintList(b, args).value + ")";
      }
    }
  }

  lemma {:induction false} LexesArg(b: Book, a: Expr, kind: ParamKind, strict: bool)
    requires GoodReader(b.reader) && Print(b, a).Some?
    requires if kind.TakesCategory? then a.Category? && FindsCategory(b, a.category)
             else Legible(b, a, strict) && (kind.TakesReading? ==> a.Ref?)
    ensures Lexes(b.reader, Print(b, a).value, Toks(b, a), false)
    decreases a, 2
  {
    if kind.TakesCategory? {
      LexesName(b, b.categories[a.category]);
    } else {
      LexesPrinted(b, a, strict);
    }
  }

  // ----- an aggregation -----

  lemma {:induction false} LexesAggregation(b: Book, def: FnDef, args: seq<Expr>, open: bool, strict: bool)
    requires GoodReader(b.reader) && Reducing(b, def.id) == Some(def) && LegibleClauses(b, def, args, open, strict)
    requires IsFunction(b.reader.functions, def.name) && IsCallName(b.reader.cls, def.name, 0, 0)
    requires Print(b, Call(def.id, args)).Some?
    ensures Lexes(b.reader, Print(b, Call(def.id, args)).value, Toks(b, Call(def.id, args)), false)
    decreases args, 4
  {
    var clause := ClauseOf(def, args);
    var over, into, list := AggregationTexts(b, def, args);
    if clause.pred.Some? {
      LexesPrinted(b, clause.pred.value, strict);
    }
    LexesOver(b, def, args, over);
    IntoMarker(def, args);
    LexesInto(b, args, clause.into, into);
    LexesParts(b, def, args, 0, PartAt(def, args), over, OverToks(b, clause) + WhereToks(b, clause.pred),
               into, IntoToks(b, clause.into), open, strict);
    AggregationSpelled(b, def, args);
    AggregationCallToks(b, def, args);
    LexesCalledList(b.reader, def.name, list, AggregationToks(b, def, args));
  }

  /** The texts an aggregation's is put together from. */
  lemma AggregationTexts(b: Book, def: FnDef, args: seq<Expr>) returns (over: string, into: string, list: string)
    requires Reducing(b, def.id) == Some(def) && Print(b, Call(def.id, args)).Some?
    ensures SharedOver(def, Parts(args)).Some? && PrintOver(b, SharedOver(def, Parts(args)).value, args) == Some(over)
    ensures PrintInto(b, args) == Some(into) && PrintParts(b, def, args, 0, PartAt(def, args), over, into) == Some(list)
    ensures Print(b, Call(def.id, args)) == Some(def.name + "(" + list + ")")
  {
    var cats := SharedOver(def, Parts(args)).value;
    over, into := PrintOver(b, cats, args).value, PrintInto(b, args).value;
    list := PrintParts(b, def, args, 0, PartAt(def, args), over, into).value;
  }

  lemma LexesCalledList(r: Reader, word: string, list: string, toks: seq<Tok>)
    requires GoodReader(r) && IsFunction(r.functions, word) && IsCallName(r.cls, word, 0, 0) && Lexes(r, list + ")", toks, true)
    ensures Lexes(r, word + "(" + list + ")", [Ident(word), Op(Open)] + toks, false)
  {
    LexesCallName(r, word);
    Compose(r, word + "(", [Ident(word), Op(Open)], true, list + ")", toks, true);
    assert word + "(" + (list + ")") == word + "(" + list + ")";
    Weaken(r, word + "(" + list + ")", [Ident(word), Op(Open)] + toks);
  }

  lemma {:induction false} LexesOver(b: Book, def: FnDef, args: seq<Expr>, over: string)
    requires GoodReader(b.reader) && FindsClause(b, ClauseOf(def, args))
    requires PrintOver(b, ClauseOf(def, args).cats.value, args) == Some(over)
    requires Condition(args).Some? ==>
               var p := Condition(args).value; Print(b, p).Some? ==> Lexes(b.reader, Print(b, p).value, Toks(b, p), false)
    ensures var clause := ClauseOf(def, args);
            over != [] && over[0] == ' ' && Lexes(b.reader, over, OverToks(b, clause) + WhereToks(b, clause.pred), false)
  {
    var clause := ClauseOf(def, args);
    var plain := LexesPlainOver(b, def, args);
    if clause.pred.None? {
      assert OverToks(b, clause) + [] == OverToks(b, clause);
    } else {
      var p := clause.pred.value;
      LexesWhere(b.reader, plain, OverToks(b, clause), Print(b, p).value, Toks(b, p));
      WhereText(b, clause.cats.value, args, plain);
    }
  }

  /** The clause without its condition. */
  lemma LexesPlainOver(b: Book, def: FnDef, args: seq<Expr>) returns (plain: string)
    requires GoodReader(b.reader) && FindsClause(b, ClauseOf(def, args))
    requires PrintOver(b, ClauseOf(def, args).cats.value, args).Some?
    ensures plain == PlainOver(b, ClauseOf(def, args).cats.value, args)
    ensures plain != [] && plain[0] == ' ' && Lexes(b.reader, plain, OverToks(b, ClauseOf(def, args)), false)
  {
    plain := PlainOver(b, ClauseOf(def, args).cats.value, args);
    LexesOverText(b, ClauseOf(def, args), MarkerOf(args, WINDOW));
  }

  lemma {:induction false} LexesOverText(b: Book, clause: Clause, bounds: Option<seq<Expr>>)
    requires GoodReader(b.reader) && FindsClause(b, clause)
    requires PrintCategories(b, clause.cats.value).Some? && PrintWindow(clause.cats.value, bounds).Some?
    requires clause.window == match bounds case Some(es) => (if |es| == 2 then Some((es[0], es[1])) else None) case None => None
    ensures Lexes(b.reader, " OVER " + (PrintCategories(b, clause.cats.value).value + PrintWindow(clause.cats.value, bounds).value),
                  OverToks(b, clause), false)
  {
    var cats := clause.cats.value;
    var names, window := PrintCategories(b, cats).value, PrintWindow(cats, bounds).value;
    LexesListed(b, "OVER", cats);
    OverText(b, clause, names, window);
    LexesOptionalWindow(b.reader, clause, bounds, " OVER " + names, [Ident("OVER")] + CategoryToks(b, cats));
  }

  function PlainOver(b: Book, cats: seq<CategoryId>, args: seq<Expr>): string
    requires cats != [] && PrintOver(b, cats, args).Some?
  {
    " OVER " + (PrintCategories(b, cats).value + PrintWindow(cats, MarkerOf(args, WINDOW)).value)
  }

  lemma WhereText(b: Book, cats: seq<CategoryId>, args: seq<Expr>, plain: string)
    requires cats != [] && PrintOver(b, cats, args).Some? && plain == PlainOver(b, cats, args) && Condition(args).Some?
    ensures var p := Condition(args).value;
            Print(b, p).Some? && PrintOver(b, cats, args) == Some(plain + (" WHERE " + Print(b, p).value))
  {
    var names, window := PrintCategories(b, cats).value, PrintWindow(cats, MarkerOf(args, WINDOW)).value;
    Reassociate(" OVER ", names + window, " WHERE " + Print(b, Condition(args).value).value);
  }

  lemma OverText(b: Book, clause: Clause, names: string, window: string)
    requires clause.cats.Some?
    ensures " OVER " + names + window == " OVER " + (names + window) && " " + "OVER" + " " == " OVER "
    ensures var toks := match clause.window case Some(w) => WindowToks(w.0, w.1) case None => [];
            [Ident("OVER")] + CategoryToks(b, clause.cats.value) + toks == OverToks(b, clause)
  {
  }

  lemma LexesWhere(r: Reader, s: string, toks: seq<Tok>, p: string, pred: seq<Tok>)
    requires GoodReader(r) && Lexes(r, s, toks, false) && Lexes(r, p, pred, false)
    ensures Lexes(r, s + (" WHERE " + p), toks + ([Ident("WHERE")] + pred), false)
  {
    LexesKeyword(r, "WHERE");
    assert " " + "WHERE" + " " == " WHERE ";
    Compose(r, " WHERE ", [Ident("WHERE")], true, p, pred, false);
    Compose(r, s, toks, false, " WHERE " + p, [Ident("WHERE")] + pred, false);
  }

  lemma {:induction false} LexesInto(b: Book, args: seq<Expr>, cats: seq<CategoryId>, into: string)
    requires GoodReader(b.reader) && PrintInto(b, args) == Some(into)
    requires MarkerOf(args, INTO) == if cats == [] then None else Some(CategoryExprs(cats))
    ensures if cats == [] then into == [] else into != [] && into[0] == ' ' && Lexes(b.reader, into, IntoToks(b, cats), false)
  {
    if cats != [] {
      IntoText(b, args, cats, into);
      LexesListed(b, "INTO", cats);
    }
  }

  lemma IntoText(b: Book, args: seq<Expr>, cats: seq<CategoryId>, into: string)
    requires cats != [] && MarkerOf(args, INTO) == Some(CategoryExprs(cats)) && PrintInto(b, args) == Some(into)
    ensures PrintCategories(b, cats).Some? && into == " " + "INTO" + " " + PrintCategories(b, cats).value && into[0] == ' '
  {
    ListOfCategories(b, cats);
    assert " " + "INTO" + " " == " INTO ";
  }

  lemma {:induction false} ListOfCategories(b: Book, cs: seq<CategoryId>)
    requires cs != []
    ensures PrintList(b, CategoryExprs(cs)) == PrintCategories(b, cs)
  {
    if |cs| > 1 {
      ListOfCategories(b, cs[1..]);
      assert CategoryExprs(cs)[1..] == CategoryExprs(cs[1..]);
    }
  }

  lemma {:induction false} LexesPart(b: Book, a: Expr, reduced: bool, strict: bool)
    requires GoodReader(b.reader) && LegiblePart(b, a, reduced, strict) && PrintPart(b, a, reduced).Some?
    ensures Lexes(b.reader, PrintPart(b, a, reduced).value, Toks(b, a), false)
    decreases a, 2
  {
    if reduced {
      LexesReference(b, a.measure, a.spec.groupBy);
    } else {
      LexesPrinted(b, a, strict);
    }
  }

  lemma {:induction false} LexesParts(b: Book, def: FnDef, args: seq<Expr>, i: nat, at: nat, over: string, overToks: seq<Tok>,
                                      into: string, intoToks: seq<Tok>, open: bool, strict: bool)
    requires GoodReader(b.reader) && LegibleParts(b, def, args, i, at, open, strict)
    requires over != [] && over[0] == ' ' && Lexes(b.reader, over, overToks, false)
    requires if into == [] then intoToks == [] else into[0] == ' ' && Lexes(b.reader, into, intoToks, false)
    requires PrintParts(b, def, args, i, at, over, into).Some?
    ensures Lexes(b.reader, PrintParts(b, def, args, i, at, over, into).value + ")", PartToks(b, args, i, at, overToks, intoToks), true)
    decreases args, 3
  {
    var r := b.reader;
    if args == [] {
      LexesMark(r, ')', Close);
      assert "" + ")" == ")";
    } else if IsMarker(args[0]) {
      LexesParts(b, def, args[1..], i, at, over, overToks, into, intoToks, open, strict);
    } else {
      var reduced := def.Reduced(i, args[0]);
      LexesPart(b, args[0], reduced, strict);
      var part, toks := PrintPart(b, args[0], reduced).value, Toks(b, args[0]);
      LexesHere(r, part, toks, i == at, over, overToks);
      var s, here := part + (if i == at then over else ""), OverHere(i, at, overToks);
      LastOrMore(b, def, args, i, at, over, overToks, into, intoToks);
      if Parts(args[1..]) == [] {
        LexesLast(r, s, toks + here, into, intoToks);
      } else {
        LexesParts(b, def, args[1..], i + 1, at, over, overToks, into, intoToks, open, strict);
        LexesMore(r, s, toks + here, PrintParts(b, def, args[1..], i + 1, at, over, into).value + ")",
                  PartToks(b, args[1..], i + 1, at, overToks, intoToks), true);
      }
    }
  }

  /** How the parts' text and tokens go on after the first. */
  lemma LastOrMore(b: Book, def: FnDef, args: seq<Expr>, i: nat, at: nat, over: string, overToks: seq<Tok>,
                   into: string, intoToks: seq<Tok>)
    requires args != [] && !IsMarker(args[0]) && PrintParts(b, def, args, i, at, over, into).Some?
    ensures PrintPart(b, args[0], def.Reduced(i, args[0])).Some?
    ensures var s := PrintPart(b, args[0], def.Reduced(i, args[0])).value + if i == at then over else "";
            var toks := Toks(b, args[0]) + OverHere(i, at, overToks);
            var text, all := PrintParts(b, def, args, i, at, over, into).value + ")", PartToks(b, args, i, at, overToks, intoToks);
            if Parts(args[1..]) == [] then text == s + into + ")" && all == toks + (intoToks + [Op(Close)])
            else
              var more := PrintParts(b, def, args[1..], i + 1, at, over, into);
              && more.Some? && text == s + ", " + (more.value + ")")
              && all == toks + ([Op(Comma)] + PartToks(b, args[1..], i + 1, at, overToks, intoToks))
  {
    var s := PrintPart(b, args[0], def.Reduced(i, args[0])).value + if i == at then over else "";
    var here := OverHere(i, at, overToks);
    if Parts(args[1..]) == [] {
      ThreeToks(Toks(b, args[0]), here, intoToks + [Op(Close)]);
    } else {
      ThreeToks(Toks(b, args[0]), here, [Op(Comma)] + PartToks(b, args[1..], i + 1, at, overToks, intoToks));
      Reassociate(s + ", ", PrintParts(b, def, args[1..], i + 1, at, over, into).value, ")");
    }
  }

  lemma ThreeToks(a: seq<Tok>, b: seq<Tok>, c: seq<Tok>)
    ensures a + (b + c) == a + b + c
  {
  }

  lemma LexesHere(r: Reader, part: string, toks: seq<Tok>, here: bool, over: string, overToks: seq<Tok>)
    requires Lexes(r, part, toks, false) && over != [] && over[0] == ' ' && Lexes(r, over, overToks, false)
    ensures Lexes(r, part + (if here then over else ""), toks + (if here then overToks else []), false)
  {
    if here {
      Compose(r, part, toks, false, over, overToks, false);
    } else {
      assert part + "" == part && toks + [] == toks;
    }
  }

  lemma LexesLast(r: Reader, s: string, toks: seq<Tok>, into: string, intoToks: seq<Tok>)
    requires GoodReader(r) && Lexes(r, s, toks, false)
    requires if into == [] then intoToks == [] else into[0] == ' ' && Lexes(r, into, intoToks, false)
    ensures Lexes(r, s + into + ")", toks + (intoToks + [Op(Close)]), true)
  {
    LexesMark(r, ')', Close);
    if into == [] {
      Compose(r, s, toks, false, ")", [Op(Close)], true);
      assert s + into == s && intoToks + [Op(Close)] == [Op(Close)];
    } else {
      Compose(r, s, toks, false, into, intoToks, false);
      Compose(r, s + into, toks + intoToks, false, ")", [Op(Close)], true);
      assert toks + intoToks + [Op(Close)] == toks + (intoToks + [Op(Close)]);
    }
  }
}
