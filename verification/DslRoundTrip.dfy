/** Printing a formula and reading it back: when it gives the formula again. */
module DslRoundTrip {
  import opened Integers
  import opened Results
  import opened Formulas
  import opened LambdaParams
  import opened Functions
  import opened Tokenizer
  import opened Parser
  import opened Printer
  import opened PrintedTokens
  import opened PrintedText
  import opened PrintedClauses
  import opened ReadingBack

  /** The tokens of a printed formula are those it stands for; with a date that
      its text does not read as, it has none. */
  lemma PrintedTokenizes(b: Book, e: Expr, strict: bool)
    requires GoodReader(b.reader) && Legible(b, e, strict) && Print(b, e).Some?
    ensures if DatesRead(b.reader, Toks(b, e)) then Tokenize(b.reader, Print(b, e).value) == Ok(Toks(b, e))
            else Tokenize(b.reader, Print(b, e).value).Err?
  {
    LexesPrinted(b, e, strict);
    EndsHere(b.reader, Print(b, e).value, Toks(b, e));
  }

  lemma EndsHere(r: Reader, s: string, toks: seq<Tok>)
    requires Lexes(r, s, toks, false)
    ensures if DatesRead(r, toks) then Tokenize(r, s) == Ok(toks) else Tokenize(r, s).Err?
  {
    assert Bounded([]) && Tokenize(r, []) == Ok([]);
    assert Follows(r, toks, Tokenize(r, s + []), Ok([]));
    assert s + [] == s && toks + [] == toks;
  }

  /** A printed formula reads back as itself, and as nothing else: exactly when
      it is within the limits and reading it recurses no deeper than the parser
      allows, and otherwise it is refused. */
  lemma PrintedReadsBack(b: Book, e: Expr)
    requires GoodReader(b.reader) && Readable(b, e) && Print(b, e).Some?
    ensures Parse(b, Print(b, e).value) == Ok(e) <==> Nest(e) <= b.maxNest && WithinLimits(b, e)
    ensures Parse(b, Print(b, e).value).Ok? ==> Parse(b, Print(b, e).value).value == e
  {
    PrintedTokenizes(b, e, true);
    TokensReadBack(b, e);
  }

  lemma TokensReadBack(b: Book, e: Expr)
    requires Legible(b, e, true)
    ensures var r := ParseTokens(b, Toks(b, e));
            (r.Ok? <==> Nest(e) <= b.maxNest && WithinLimits(b, e)) && (r.Ok? ==> r.value == e)
  {
    var toks := Toks(b, e);
    assert toks + [] == toks;
    Head(b, e, [], true);
    ReadsAt(b, e, 1, [], 0);
    WholeOutcome(b, e, toks, ParseAt(b, 1, toks, 0));
  }

  lemma WholeOutcome(b: Book, e: Expr, toks: seq<Tok>, r: Parsed)
    requires toks != [] && r == ParseAt(b, 1, toks, 0)
    requires Reads(r, Ok((e, [])), HasRoom(b, e, 0, Nest(e)), Nest(e) > b.maxNest)
    ensures var p := ParseTokens(b, toks);
            (p.Ok? <==> Nest(e) <= b.maxNest && WithinLimits(b, e)) && (p.Ok? ==> p.value == e)
  {
    assert WithinLimits(b, e) ==> Depth(e) <= b.maxDepth;
  }

  // ----- different formulas never print alike -----

  lemma {:induction false} LimitsDoNotPrint(b: Book, c: Book, e: Expr)
    requires c == b.(maxDepth := c.maxDepth, maxNest := c.maxNest)
    ensures Toks(c, e) == Toks(b, e) && Print(c, e) == Print(b, e) && Legible(c, e, true) == Legible(b, e, true)
    decreases e, 1
  {
    match e
    case Literal(_) =>
    case Ref(m, spec) =>
      SameCategories(b, c, spec.groupBy);
    case Unary(_, a) =>
      LimitsDoNotPrint(b, c, a);
    case Binary(_, l, r) =>
      LimitsDoNotPrint(b, c, l);
      LimitsDoNotPrint(b, c, r);
    case Call(f, args) =>
      SameArgs(b, c, args);
      if Reducing(b, f).Some? {
        SameAggregation(b, c, Reducing(b, f).value, args);
      } else {
        SameCall(b, c, f, args);
      }
    case Category(_) =>
  }

  lemma {:induction false} SameCategories(b: Book, c: Book, cs: seq<CategoryId>)
    requires c == b.(maxDepth := c.maxDepth, maxNest := c.maxNest)
    ensures CategoryToks(c, cs) == CategoryToks(b, cs)
    ensures cs != [] ==> PrintCategories(c, cs) == PrintCategories(b, cs)
  {
    if cs != [] {
      SameCategories(b, c, cs[1..]);
    }
  }

  lemma {:induction false} SameArgs(b: Book, c: Book, args: seq<Expr>)
    requires c == b.(maxDepth := c.maxDepth, maxNest := c.maxNest)
    ensures ListToks(c, args) == ListToks(b, args) && PrintList(c, args) == PrintList(b, args)
    decreases args, 0
  {
    if args != [] {
      LimitsDoNotPrint(b, c, args[0]);
      SameArgs(b, c, args[1..]);
    }
  }

  lemma {:induction false} SameLegibleArgs(b: Book, c: Book, args: seq<Expr>, kinds: nat -> ParamKind, i: nat)
    requires c == b.(maxDepth := c.maxDepth, maxNest := c.maxNest)
    ensures LegibleArgs(c, args, kinds, i, true) == LegibleArgs(b, args, kinds, i, true)
    decreases args, 0
  {
    if args != [] {
      LimitsDoNotPrint(b, c, args[0]);
      SameLegibleArgs(b, c, args[1..], kinds, i + 1);
    }
  }

  lemma {:induction false} SameCall(b: Book, c: Book, f: FuncId, args: seq<Expr>)
    requires c == b.(maxDepth := c.maxDepth, maxNest := c.maxNest)
    requires Reducing(b, f).None? && ListToks(c, args) == ListToks(b, args) && PrintList(c, args) == PrintList(b, args)
    ensures var e := Call(f, args); Toks(c, e) == Toks(b, e) && Print(c, e) == Print(b, e) && Legible(c, e, true) == Legible(b, e, true)
    decreases args, 4
  {
    SameKindsTaken(b, c, f, |args|);
    SameCallText(b, c, f, args);
    if KindsTaken(b, f, |args|, true).Some? {
      SameLegibleArgs(b, c, args, KindsTaken(b, f, |args|, true).value, 0);
    }
  }

  lemma {:induction false} SameCallText(b: Book, c: Book, f: FuncId, args: seq<Expr>)
    requires c == b.(maxDepth := c.maxDepth, maxNest := c.maxNest)
    requires Reducing(b, f).None? && ListToks(c, args) == ListToks(b, args) && PrintList(c, args) == PrintList(b, args)
    ensures var e := Call(f, args); Toks(c, e) == Toks(b, e) && Print(c, e) == Print(b, e)
  {
    SameKindsTaken(b, c, f, |args|);
  }

  lemma {:induction false} SameKindsTaken(b: Book, c: Book, f: FuncId, n: nat)
    requires c == b.(maxDepth := c.maxDepth, maxNest := c.maxNest)
    ensures KindsTaken(c, f, n, true) == KindsTaken(b, f, n, true) && Reducing(c, f) == Reducing(b, f) && CalledName(c, f) == CalledName(b, f)
  {
  }

  lemma {:induction false} SameAggregation(b: Book, c: Book, def: FnDef, args: seq<Expr>)
    requires c == b.(maxDepth := c.maxDepth, maxNest := c.maxNest) && Reducing(b, def.id) == Some(def)
    ensures var e := Call(def.id, args); Toks(c, e) == Toks(b, e) && Print(c, e) == Print(b, e) && Legible(c, e, true) == Legible(b, e, true)
    decreases args, 4
  {
    var clause, at := ClauseOf(def, args), PartAt(def, args);
    if clause.pred.Some? {
      LimitsDoNotPrint(b, c, clause.pred.value);
    }
    SameClause(b, c, clause);
    SameTexts(b, c, def, args);
    SameParts(b, c, def, args, 0, at, OverToks(b, clause) + WhereToks(b, clause.pred), IntoToks(b, clause.into), IsOpen(clause));
    AggregationSpelled(b, def, args);
    AggregationSpelled(c, def, args);
    SameAggregationText(b, c, def, args);
    SameLegibleClauses(b, c, def, args);
  }

  lemma {:induction false} SameAggregationText(b: Book, c: Book, def: FnDef, args: seq<Expr>)
    requires c == b.(maxDepth := c.maxDepth, maxNest := c.maxNest) && Reducing(b, def.id) == Some(def)
    requires PrintAggregation(c, def, args) == PrintAggregation(b, def, args) && AggregationToks(c, def, args) == AggregationToks(b, def, args)
    ensures var e := Call(def.id, args); Toks(c, e) == Toks(b, e) && Print(c, e) == Print(b, e)
  {
  }

  lemma {:induction false} SameLegibleClauses(b: Book, c: Book, def: FnDef, args: seq<Expr>)
    requires c == b.(maxDepth := c.maxDepth, maxNest := c.maxNest) && Reducing(b, def.id) == Some(def)
    requires FindsClause(c, ClauseOf(def, args)) == FindsClause(b, ClauseOf(def, args))
    requires Condition(args).Some? ==> Legible(c, Condition(args).value, true) == Legible(b, Condition(args).value, true)
    requires var at, open := PartAt(def, args), IsOpen(ClauseOf(def, args));
             LegibleParts(c, def, args, 0, at, open, true) == LegibleParts(b, def, args, 0, at, open, true)
    ensures Legible(c, Call(def.id, args), true) == Legible(b, Call(def.id, args), true)
  {
    var open := IsOpen(ClauseOf(def, args));
    assert CallsAggregation(c, def, true) == CallsAggregation(b, def, true);
    assert LegibleClauses(c, def, args, open, true) == LegibleClauses(b, def, args, open, true);
    assert LegibleAggregation(c, def, args, true) == LegibleAggregation(b, def, args, true);
  }

  lemma SameClause(b: Book, c: Book, clause: Clause)
    requires c == b.(maxDepth := c.maxDepth, maxNest := c.maxNest)
    ensures OverToks(c, clause) == OverToks(b, clause) && IntoToks(c, clause.into) == IntoToks(b, clause.into)
    ensures FindsClause(c, clause) == FindsClause(b, clause)
  {
    SameCategories(b, c, clause.into);
    if clause.cats.Some? {
      SameCategories(b, c, clause.cats.value);
    }
  }

  lemma {:induction false} SameTexts(b: Book, c: Book, def: FnDef, args: seq<Expr>)
    requires c == b.(maxDepth := c.maxDepth, maxNest := c.maxNest)
    ensures PrintAggregation(c, def, args) == PrintAggregation(b, def, args)
    decreases args, 3
  {
    var cats := SharedOver(def, Parts(args));
    if cats.Some? {
      SameCategories(b, c, cats.value);
      if Condition(args).Some? {
        LimitsDoNotPrint(b, c, Condition(args).value);
      }
      if MarkerOf(args, INTO).Some? {
        SameArgs(b, c, MarkerOf(args, INTO).value);
      }
      assert PrintOver(c, cats.value, args) == PrintOver(b, cats.value, args) && PrintInto(c, args) == PrintInto(b, args);
      if PrintOver(b, cats.value, args).Some? && PrintInto(b, args).Some? {
        SamePrintedParts(b, c, def, args, 0, PartAt(def, args), PrintOver(b, cats.value, args).value, PrintInto(b, args).value);
      }
    }
  }

  lemma {:induction false} SamePrintedParts(b: Book, c: Book, def: FnDef, args: seq<Expr>, i: nat, at: nat, over: string, into: string)
    requires c == b.(maxDepth := c.maxDepth, maxNest := c.maxNest)
    ensures PrintParts(c, def, args, i, at, over, into) == PrintParts(b, def, args, i, at, over, into)
    decreases args, 0
  {
    if args != [] && IsMarker(args[0]) {
      SamePrintedParts(b, c, def, args[1..], i, at, over, into);
    } else if args != [] {
      SamePart(b, c, args[0], def.Reduced(i, args[0]));
      SamePrintedParts(b, c, def, args[1..], i + 1, at, over, into);
    }
  }

  lemma {:induction false} SamePart(b: Book, c: Book, a: Expr, reduced: bool)
    requires c == b.(maxDepth := c.maxDepth, maxNest := c.maxNest)
    ensures PrintPart(c, a, reduced) == PrintPart(b, a, reduced) && Toks(c, a) == Toks(b, a)
    ensures LegiblePart(c, a, reduced, true) == LegiblePart(b, a, reduced, true)
    decreases a, 2
  {
    LimitsDoNotPrint(b, c, a);
    if a.Ref? {
      SameCategories(b, c, a.spec.groupBy);
    }
  }

  lemma {:induction false} SameParts(b: Book, c: Book, def: FnDef, args: seq<Expr>, i: nat, at: nat,
                                     over: seq<Tok>, into: seq<Tok>, open: bool)
    requires c == b.(maxDepth := c.maxDepth, maxNest := c.maxNest)
    ensures PartToks(c, args, i, at, over, into) == PartToks(b, args, i, at, over, into)
    ensures LegibleParts(c, def, args, i, at, open, true) == LegibleParts(b, def, args, i, at, open, true)
    ensures Parts(args) != [] ==> Toks(c, Parts(args)[0]) == Toks(b, Parts(args)[0])
    decreases args, 0
  {
    if args != [] && IsMarker(args[0]) {
      SameParts(b, c, def, args[1..], i, at, over, into, open);
    } else if args != [] {
      SamePart(b, c, args[0], def.Reduced(i, args[0]));
      SameParts(b, c, def, args[1..], i + 1, at, over, into, open);
    }
  }

  /** Formulas of any size that print the same text are the same formula. */
  lemma {:induction false} PrintIsInjective(b: Book, e: Expr, e': Expr)
    requires GoodReader(b.reader) && Readable(b, e) && Readable(b, e')
    requires Print(b, e).Some? && Print(b, e) == Print(b, e')
    ensures e == e'
  {
    var c := b.(maxDepth := Max(Depth(e), Depth(e')), maxNest := Max(Nest(e), Nest(e')));
    LimitsDoNotPrint(b, c, e);
    LimitsDoNotPrint(b, c, e');
    PrintedTokenizes(c, e, true);
    PrintedTokenizes(c, e', true);
    ReadsAt(c, e, 1, [], 0);
    ReadsAt(c, e', 1, [], 0);
    assert Toks(c, e) + [] == Toks(c, e') + [];
  }

  // ----- how much of the recursion limit a depth can take -----

  /** How far twice the recursion stays from three times the depth, by precedence. */
  function Slack(p: nat): nat {
    if p >= 8 then 1 else if p == 3 then 2 else 3
  }

  lemma {:induction false} NestByPrecedence(e: Expr)
    ensures 2 * Nest(e) <= 3 * Depth(e) - Slack(Prec(e))
    decreases e, 1
  {
    match e
    case Unary(_, a) => NestByPrecedence(a);
    case Binary(_, l, r) =>
      NestByPrecedence(l);
      NestByPrecedence(r);
    case Call(_, args) => NestAllByDepth(args);
    case _ =>
  }

  lemma {:induction false} NestAllByDepth(es: seq<Expr>)
    ensures 2 * NestAll(es) <= 3 * DepthAll(es)
    decreases es, 0
  {
    if es != [] {
      ArgByDepth(es[0]);
      NestAllByDepth(es[1..]);
    }
  }

  /** A condition is read without the recursion of a call. */
  lemma {:induction false} ArgByDepth(a: Expr)
    ensures 2 * ArgNest(a) <= 3 * Depth(a)
    decreases a, 2
  {
    if IsMarker(a) && a.args != [] {
      NestByPrecedence(a.args[0]);
      assert Depth(a) == 1 + DepthAll(a.args) && DepthAll(a.args) >= Depth(a.args[0]);
    } else if !IsMarker(a) {
      NestByPrecedence(a);
    }
  }

  /** Formulas this deep always read back under the parser's own limits; deeper ones may not. */
  const SAFE_DEPTH: nat := 214

  /** A formula within the limits and no deeper than `SAFE_DEPTH` reads back. */
  lemma {:induction false} ShallowReadsBack(b: Book, e: Expr)
    requires GoodReader(b.reader) && Readable(b, e) && Print(b, e).Some?
    requires b.maxNest == MAX_PARSE_DEPTH && WithinLimits(b, e) && Depth(e) <= SAFE_DEPTH
    ensures Parse(b, Print(b, e).value) == Ok(e)
  {
    NestByPrecedence(e);
    PrintedReadsBack(b, e);
  }

  // ----- a formula the printer spells and the parser refuses -----

  /** `n` times minus and NOT in turn. */
  function Alternating(n: nat): Expr {
    if n == 0 then Literal(Boolean(true)) else Unary(Neg, Unary(Not, Alternating(n - 1)))
  }

  lemma {:induction false} AlternatingCounts(n: nat)
    ensures Depth(Alternating(n)) == 2 * n + 1 && Size(Alternating(n)) == 2 * n + 1
    ensures Prec(Alternating(n)) >= 8 && Nest(Alternating(n)) == 3 * n + 1
  {
    if n > 0 {
      AlternatingCounts(n - 1);
      var below := Alternating(n - 1);
      assert Depth(Unary(Not, below)) == 1 + Depth(below) && Size(Unary(Not, below)) == 1 + Size(below);
      assert Nest(Unary(Not, below)) == 1 + Nest(below);
    }
  }

  lemma {:induction false} AlternatingPrints(b: Book, n: nat)
    ensures Readable(b, Alternating(n)) && Print(b, Alternating(n)).Some?
  {
    if n > 0 {
      AlternatingPrints(b, n - 1);
      PairPrints(b, Alternating(n - 1));
    }
  }

  /** A minus and a NOT before a formula are no obstacle. */
  lemma {:induction false} PairPrints(b: Book, e: Expr)
    requires Readable(b, e) && Print(b, e).Some? && Prec(e) >= 3
    ensures var pair := Unary(Neg, Unary(Not, e)); Readable(b, pair) && Print(b, pair).Some?
  {
    var inner := Unary(Not, e);
    assert Legible(b, inner, true) && Print(b, inner).Some?;
    assert Toks(b, inner) == [Ident("NOT")] + Toks(b, e);
    assert Toks(b, Unary(Neg, inner)) == [Op(Minus)] + ([Op(Open)] + ([Ident("NOT")] + Toks(b, e)) + [Op(Close)]);
  }

  /** One level past `SAFE_DEPTH`, well within the depth limit, minus and NOT in
      turn print as a text that the parser refuses. */
  lemma {:induction false} AlternatingDoesNotReadBack(b: Book)
    requires GoodReader(b.reader)
    requires b.maxDepth == MAX_FORMULA_DEPTH && b.maxNest == MAX_PARSE_DEPTH && b.lambdas == map[]
    ensures var e := Alternating(107);
            && Depth(e) == SAFE_DEPTH + 1 && WithinLimits(b, e)
            && Readable(b, e) && Print(b, e).Some? && Parse(b, Print(b, e).value).Err?
  {
    AlternatingCounts(107);
    AlternatingPrints(b, 107);
    PrintedReadsBack(b, Alternating(107));
  }
}
