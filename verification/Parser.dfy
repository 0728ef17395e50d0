/** The recursive-descent parser of formula text, and the limits it holds a
    formula to. Its special forms (LET, LAMBDA, SCAN and the like), named
    arguments and OVER ALL are not part of this model: they are refused. */
module Parser {
  import opened Results
  import opened Formulas
  import opened Texts
  import opened Placeholders
  import opened Lambdas
  import opened LambdaParams
  import opened Functions
  import opened Tokenizer

  /** What a formula is read against: a model's names and functions, and the limits. */
  datatype Book = Book(
    reader: Reader,
    measures: map<MeasureId, string>, categories: map<CategoryId, string>, lambdas: Table,
    measureNamed: string -> Option<MeasureId>, categoryNamed: string -> Option<CategoryId>,
    lambdaNamed: string -> Option<U32>,
    hundredth: string -> string,
    maxDepth: nat, maxNest: nat)

  /** The deepest recursion the parser allows: the depth limit and some for redundant parentheses. */
  const MAX_PARSE_DEPTH: nat := MAX_FORMULA_DEPTH + 64

  datatype ParseError =
    | Lexical(error: LexError)
    | EmptyExpression
    | FormulaTooBig
    | UnexpectedEnd
    | UnexpectedToken(tok: Tok)
    | TrailingInput
    | Expected(what: string)
    | NestedTooDeeply
    | OverLimit(limit: LimitError)
    | UnknownName(name: string)
    | UnknownQualifier(name: string)
    | UnknownFunction(name: string)
    | NamedArgument(name: string)
    | SpecialForm(name: string)
    | NeedsOver(name: string)
    | OneClauseOnly(word: string)
    | DoesNotAggregate(name: string)
    | NoClauseHere(name: string)
    | NoWindow(name: string)
    | ExpectedBound
    | BadArity(name: string, got: nat)
    | NotAMeasure(argument: nat)
    | ParameterUsedBothWays(name: string)

  type Parsed = Result<(Expr, seq<Tok>), ParseError>

  predicate HeadIs(toks: seq<Tok>, tok: Tok) {
    toks != [] && toks[0] == tok
  }

  predicate IsKeyword(toks: seq<Tok>, word: string) {
    toks != [] && toks[0].Ident? && EqIgnoreAsciiCase(toks[0].word, word)
  }

  // ----- operators by level -----

  /** The operator of the chain at `level` that comes next. */
  function ChainOp(level: nat, toks: seq<Tok>): Option<BinaryOp> {
    if level == 1 then (if IsKeyword(toks, "OR") then Some(Or) else None)
    else if level == 2 then (if IsKeyword(toks, "AND") then Some(And) else None)
    else if level == 5 then (if HeadIs(toks, Op(Ampersand)) then Some(Concat) else None)
    else if level == 6 then
      (if HeadIs(toks, Op(Plus)) then Some(Add) else if HeadIs(toks, Op(Minus)) then Some(Sub) else None)
    else if level == 7 then
      (if HeadIs(toks, Op(Times)) then Some(Mul) else if HeadIs(toks, Op(Divide)) then Some(Div) else None)
    else None
  }

  function Comparison(toks: seq<Tok>): Option<BinaryOp> {
    if toks == [] || !toks[0].Op? then None
    else
      var s := toks[0].sym;
      if s == Equal then Some(Eq)
      else if s == Differs || s == BangEqual then Some(Ne)
      else if s == Less then Some(Lt)
      else if s == LessEq then Some(Le)
      else if s == Greater then Some(Gt)
      else if s == GreaterEq then Some(Ge)
      else None
  }

  /** One more link of an operator chain, unless the tree gets too deep. */
  function Link(b: Book, op: BinaryOp, lhs: Expr, rhs: Expr): Result<Expr, ParseError> {
    var e := Binary(op, lhs, rhs);
    if Depth(e) > b.maxDepth then Err(OverLimit(TooDeep(Depth(e), b.maxDepth))) else Ok(e)
  }

  // ----- the grammar -----

  /** The grammar's rule at `level`: OR 1, AND 2, NOT 3, comparison 4, `&` 5,
      `+ -` 6, `* /` 7, unary minus 8, `^` 9, primary with `%` 10. `d` counts the
      recursion so far. */
  function ParseAt(b: Book, level: nat, toks: seq<Tok>, d: nat): (r: Parsed)
    requires 1 <= level <= 10
    ensures r.Ok? ==> |r.value.1| < |toks|
    decreases |toks|, 2 * (11 - level)
  {
    if level == 3 then ParseNot(b, toks, d)
    else if level == 4 then ParseComparison(b, toks, d)
    else if level == 8 then ParseUnary(b, toks, d)
    else if level == 9 then ParsePower(b, toks, d)
    else if level == 10 then ParsePostfix(b, toks, d)
    else
      var first :- ParseAt(b, level + 1, toks, d);
      ParseChain(b, level, first.0, first.1, d)
  }

  /** The further links of the chain at `level` that `lhs` starts. */
  function ParseChain(b: Book, level: nat, lhs: Expr, toks: seq<Tok>, d: nat): (r: Parsed)
    requires 1 <= level < 10
    ensures r.Ok? ==> |r.value.1| <= |toks|
    decreases |toks|, 0
  {
    match ChainOp(level, toks)
    case None => Ok((lhs, toks))
    case Some(op) =>
      var next :- ParseAt(b, level + 1, toks[1..], d);
      var e :- Link(b, op, lhs, next.0);
      ParseChain(b, level, e, next.1, d)
  }

  function ParseNot(b: Book, toks: seq<Tok>, d: nat): (r: Parsed)
    ensures r.Ok? ==> |r.value.1| < |toks|
    decreases |toks|, 15
  {
    if IsKeyword(toks, "NOT") then
      if d >= b.maxNest then Err(NestedTooDeeply)
      else
        var inner :- ParseAt(b, 3, toks[1..], d + 1);
        Ok((Unary(Not, inner.0), inner.1))
    else ParseAt(b, 4, toks, d)
  }

  function ParseComparison(b: Book, toks: seq<Tok>, d: nat): (r: Parsed)
    ensures r.Ok? ==> |r.value.1| < |toks|
    decreases |toks|, 13
  {
    var lhs :- ParseAt(b, 5, toks, d);
    match Comparison(lhs.1)
    case None => Ok(lhs)
    case Some(op) =>
      var rhs :- ParseAt(b, 5, lhs.1[1..], d);
      Ok((Binary(op, lhs.0, rhs.0), rhs.1))
  }

  function ParseUnary(b: Book, toks: seq<Tok>, d: nat): (r: Parsed)
    ensures r.Ok? ==> |r.value.1| < |toks|
    decreases |toks|, 5
  {
    if HeadIs(toks, Op(Minus)) then
      if d >= b.maxNest then Err(NestedTooDeeply)
      else
        var inner :- ParseAt(b, 8, toks[1..], d + 1);
        Ok((Unary(Neg, inner.0), inner.1))
    else ParseAt(b, 9, toks, d)
  }

  function ParsePower(b: Book, toks: seq<Tok>, d: nat): (r: Parsed)
    ensures r.Ok? ==> |r.value.1| < |toks|
    decreases |toks|, 3
  {
    var base :- ParseAt(b, 10, toks, d);
    if !HeadIs(base.1, Op(Power)) then Ok(base)
    else if d + 1 > b.maxNest then Err(NestedTooDeeply)
    else
      var exponent :- ParseAt(b, 8, base.1[1..], d + 1);
      Ok((Binary(Pow, base.0, exponent.0), exponent.1))
  }

  function ParsePostfix(b: Book, toks: seq<Tok>, d: nat): (r: Parsed)
    ensures r.Ok? ==> |r.value.1| < |toks|
    decreases |toks|, 1
  {
    var primary :- ParsePrimary(b, toks, d);
    ParsePercents(b, primary.0, primary.1)
  }

  /** `x%` is `x / 100`; a number's is folded. */
  function ParsePercents(b: Book, e: Expr, toks: seq<Tok>): (r: Parsed)
    ensures r.Ok? ==> |r.value.1| <= |toks|
    decreases |toks|, 0
  {
    if !HeadIs(toks, Op(Percent)) then Ok((e, toks))
    else
      match e
      case Literal(Number(n)) => ParsePercents(b, Literal(Number(b.hundredth(n))), toks[1..])
      case _ =>
        var quotient :- Link(b, Div, e, Literal(Number("100")));
        ParsePercents(b, quotient, toks[1..])
  }

  function ParsePrimary(b: Book, toks: seq<Tok>, d: nat): (r: Parsed)
    ensures r.Ok? ==> |r.value.1| < |toks|
    decreases |toks|, 0
  {
    if d + 1 > b.maxNest then Err(NestedTooDeeply)
    else if toks == [] then Err(UnexpectedEnd)
    else
      match toks[0]
      case Op(s) =>
        if s != Open then Err(UnexpectedToken(toks[0]))
        else
          var inner :- ParseAt(b, 1, toks[1..], d + 1);
          if HeadIs(inner.1, Op(Close)) then Ok((inner.0, inner.1[1..])) else Err(Expected(")"))
      case Num(n) => Ok((Literal(Number(n)), toks[1..]))
      case Str(s) => Ok((Literal(Text(s)), toks[1..]))
      case Date(t) => Ok((Literal(DateTime(t)), toks[1..]))
      case Quoted(_) => ParseMeasureRef(b, toks)
      case Ident(word) =>
        if HeadIs(toks[1..], Op(Arrow)) then Err(NamedArgument(word))
        else if HeadIs(toks[1..], Op(Open)) then ParseCalled(b, word, toks, d + 1)
        else if EqIgnoreAsciiCase(word, "TRUE") then Ok((Literal(Boolean(true)), toks[1..]))
        else if EqIgnoreAsciiCase(word, "FALSE") then Ok((Literal(Boolean(false)), toks[1..]))
        else ParseMeasureRef(b, toks)
  }

  predicate IsSpecialForm(word: string) {
    || EqIgnoreAsciiCase(word, "LET") || EqIgnoreAsciiCase(word, "LAMBDA") || EqIgnoreAsciiCase(word, "MAP")
    || EqIgnoreAsciiCase(word, "SEQUENCE") || EqIgnoreAsciiCase(word, "MAKEARRAY")
    || EqIgnoreAsciiCase(word, "BYROW") || EqIgnoreAsciiCase(word, "BYCOL")
    || EqIgnoreAsciiCase(word, "REDUCE") || EqIgnoreAsciiCase(word, "SCAN") || EqIgnoreAsciiCase(word, "FIXPOINT")
  }

  /** The kinds of a named LAMBDA's parameters, unless one is used both ways. */
  function KindsOf(l: NamedLambda): Option<seq<ParamKind>> {
    if exists i :: 0 <= i < |l.params| && UseOf(l.body, i).value && UseOf(l.body, i).category then None
    else Some(seq(|l.params|, i requires 0 <= i => KindOf(UseOf(l.body, i))))
  }

  /** `word(…`. A named LAMBDA is tried where no plain function has the name,
      then the special forms, then functions. */
  function ParseCalled(b: Book, word: string, toks: seq<Tok>, d: nat): (r: Parsed)
    requires |toks| >= 2
    ensures r.Ok? ==> |r.value.1| < |toks|
    decreases |toks| - 1, 23
  {
    var plain := Callable(b.reader.functions, word);
    var aggregates := Aggregation(b.reader.functions, word).Some?;
    if plain.None? && b.lambdaNamed(word).Some? && b.lambdaNamed(word).value in b.lambdas then
      ParseLambdaCall(b, b.lambdaNamed(word).value, word, toks[2..], d)
    else if IsSpecialForm(word) then Err(SpecialForm(word))
    else if plain.Some? || aggregates || EqIgnoreAsciiCase(word, "TRUE") || EqIgnoreAsciiCase(word, "FALSE") then
      ParseCall(b, word, toks[2..], d)
    else if b.measureNamed(word).None? then Err(UnknownFunction(word))
    else ParseMeasureRef(b, toks)
  }

  /** A call of a function: an aggregation where a clause of one was read,
      otherwise the function of the name that does not reduce. */
  function ParseCall(b: Book, word: string, toks: seq<Tok>, d: nat): (r: Parsed)
    ensures r.Ok? ==> |r.value.1| <= |toks|
    decreases |toks|, 24
  {
    var plain := Callable(b.reader.functions, word);
    var reducing := Aggregation(b.reader.functions, word);
    var kinds := if plain.Some? then CallKinds(plain.value, reducing.Some?) else LambdaKinds([]);
    var args :- ParseArgs(b, kinds, toks, d);
    if args.clause.cats.Some? || args.clause.into != [] then
      match reducing
      case None => Err(DoesNotAggregate(word))
      case Some(def) =>
        var e :- FinishAggregation(def, args.exprs, args.clause);
        Ok((e, args.rest))
    else
      match plain
      case None => Err(NeedsOver(word))
      case Some(def) =>
        if def.Accepts(|args.exprs|) then Ok((Expr.Call(def.id, args.exprs), args.rest)) else Err(BadArity(def.name, |args.exprs|))
  }

  /** Which of a call's arguments are read as categories: none of a function
      that shares its name with an aggregation. */
  function CallKinds(def: FnDef, aggregates: bool): nat -> ParamKind {
    (i: nat) => if def.TakesCategoryAt(i) && !aggregates then TakesCategory else TakesValue
  }

  function LambdaKinds(kinds: seq<ParamKind>): nat -> ParamKind {
    (i: nat) => if i < |kinds| then kinds[i] else TakesValue
  }

  function ParseLambdaCall(b: Book, id: U32, word: string, toks: seq<Tok>, d: nat): (r: Parsed)
    requires id in b.lambdas
    ensures r.Ok? ==> |r.value.1| <= |toks|
    decreases |toks|, 24
  {
    match KindsOf(b.lambdas[id])
    case None => Err(ParameterUsedBothWays(word))
    case Some(kinds) =>
      var args :- ParseArgs(b, LambdaKinds(kinds), toks, d);
      if args.clause != NO_CLAUSE then Err(NoClauseHere(word))
      else if |args.exprs| == |kinds| then Ok((Expr.Call(NamedLambdaCall(id), args.exprs), args.rest))
      else Err(BadArity(word, |args.exprs|))
  }

  // ----- arguments, and the clauses of an aggregation -----

  /** An `OVER` clause and an `INTO` list as read: categories, maybe a window and a condition. */
  datatype Clause = Clause(cats: Option<seq<CategoryId>>, window: Option<(Expr, Expr)>, pred: Option<Expr>, into: seq<CategoryId>)

  const NO_CLAUSE := Clause(None, None, None, [])

  /** A call's arguments with their clauses, and what follows the closing parenthesis. */
  datatype Args = Args(exprs: seq<Expr>, clause: Clause, rest: seq<Tok>)

  function ParseArgs(b: Book, kinds: nat -> ParamKind, toks: seq<Tok>, d: nat): (r: Result<Args, ParseError>)
    ensures r.Ok? ==> |r.value.rest| <= |toks|
    decreases |toks|, 23
  {
    if HeadIs(toks, Op(Close)) then Ok(Args([], NO_CLAUSE, toks[1..])) else ParseArgsFrom(b, kinds, 0, NO_CLAUSE, toks, d)
  }

  function ParseArgsFrom(b: Book, kinds: nat -> ParamKind, i: nat, clause: Clause, toks: seq<Tok>, d: nat)
    : (r: Result<Args, ParseError>)
    ensures r.Ok? ==> |r.value.rest| <= |toks|
    decreases |toks|, 22
  {
    var first :- ParseArg(b, kinds(i), i, toks, d);
    var over :- ParseOver(b, clause, first.1, d);
    var into :- ParseInto(b, over.0, over.1);
    if HeadIs(into.1, Op(Comma)) then
      var more :- ParseArgsFrom(b, kinds, i + 1, into.0, into.1[1..], d);
      Ok(Args([first.0] + more.exprs, more.clause, more.rest))
    else if HeadIs(into.1, Op(Close)) then Ok(Args([first.0], into.0, into.1[1..]))
    else Err(Expected(")"))
  }

  /** An `OVER` clause, if one comes next; a call takes one. */
  function ParseOver(b: Book, clause: Clause, toks: seq<Tok>, d: nat): (r: Result<(Clause, seq<Tok>), ParseError>)
    ensures r.Ok? ==> |r.value.1| <= |toks|
    decreases |toks|, 21
  {
    if !IsKeyword(toks, "OVER") then Ok((clause, toks))
    else if clause.cats.Some? then Err(OneClauseOnly("OVER"))
    else if IsKeyword(toks[1..], "ALL") && !HeadIs(toks[2..], Op(Open)) then Err(SpecialForm("OVER ALL"))
    else
      var first :- ParseCategory(b, toks[1..]);
      var cats :- ParseReduction(b, first.0, first.1);
      if !IsKeyword(cats.2, "WHERE") then Ok((Clause(Some(cats.0), cats.1, None, clause.into), cats.2))
      else
        var pred :- ParseAt(b, 1, cats.2[1..], d);
        Ok((Clause(Some(cats.0), cats.1, Some(pred.0), clause.into), pred.1))
  }

  /** What follows the first category: a window, or more categories. */
  function ParseReduction(b: Book, first: CategoryId, toks: seq<Tok>)
    : (r: Result<(seq<CategoryId>, Option<(Expr, Expr)>, seq<Tok>), ParseError>)
    ensures r.Ok? ==> |r.value.2| <= |toks|
  {
    if HeadIs(toks, Op(OpenBracket)) then
      var lo :- ParseBound(toks[1..]);
      if !HeadIs(lo.1, Op(Dot)) || !HeadIs(lo.1[1..], Op(Dot)) then Err(Expected(".."))
      else
        var hi :- ParseBound(lo.1[2..]);
        if HeadIs(hi.1, Op(CloseBracket)) then Ok(([first], Some((lo.0, hi.0)), hi.1[1..])) else Err(Expected("]"))
    else
      var more :- ParseMoreCategories(b, toks);
      Ok(([first] + more.0, None, more.1))
  }

  /** An `INTO` list, if one comes next; a call takes one. */
  function ParseInto(b: Book, clause: Clause, toks: seq<Tok>): (r: Result<(Clause, seq<Tok>), ParseError>)
    ensures r.Ok? ==> |r.value.1| <= |toks|
  {
    if !IsKeyword(toks, "INTO") then Ok((clause, toks))
    else if clause.into != [] then Err(OneClauseOnly("INTO"))
    else
      var first :- ParseCategory(b, toks[1..]);
      var more :- ParseMoreCategories(b, first.1);
      Ok((clause.(into := [first.0] + more.0), more.1))
  }

  /** Whether a category continues a list: its name, which is no measure's,
      neither called nor a qualifier. */
  predicate CategoryAhead(b: Book, toks: seq<Tok>) {
    toks != [] && (toks[0].Ident? || toks[0].Quoted?) &&
    var name := if toks[0].Ident? then toks[0].word else toks[0].name;
    && !HeadIs(toks[1..], Op(Open)) && !HeadIs(toks[1..], Op(Dot))
    && b.categoryNamed(name).Some? && b.measureNamed(name).None?
  }

  function ParseMoreCategories(b: Book, toks: seq<Tok>): (r: Result<(seq<CategoryId>, seq<Tok>), ParseError>)
    ensures r.Ok? ==> |r.value.1| <= |toks|
    decreases |toks|
  {
    if HeadIs(toks, Op(Comma)) && CategoryAhead(b, toks[1..]) then
      var first :- ParseCategory(b, toks[1..]);
      var more :- ParseMoreCategories(b, first.1);
      Ok(([first.0] + more.0, more.1))
    else Ok(([], toks))
  }

  /** A number without fraction or exponent. */
  predicate IsWhole(numeral: string) {
    numeral != [] && DigitRun(numeral) == |numeral|
  }

  function Negated(numeral: string): string {
    if numeral == "0" then "0" else "-" + numeral
  }

  /** A window's bound: `FIRST`, `LAST`, `THIS`, `THIS-n` or `THIS+n`, as text or as an offset. */
  function ParseBound(toks: seq<Tok>): (r: Parsed)
    ensures r.Ok? ==> |r.value.1| < |toks|
  {
    if IsKeyword(toks, "FIRST") then Ok((Literal(Text("FIRST")), toks[1..]))
    else if IsKeyword(toks, "LAST") then Ok((Literal(Text("LAST")), toks[1..]))
    else if !IsKeyword(toks, "THIS") then Err(ExpectedBound)
    else if !HeadIs(toks[1..], Op(Plus)) && !HeadIs(toks[1..], Op(Minus)) then Ok((Literal(Number("0")), toks[1..]))
    else if |toks| > 2 && toks[2].Num? && IsWhole(toks[2].numeral) then
      Ok((Literal(Number(if toks[1] == Op(Plus) then toks[2].numeral else Negated(toks[2].numeral))), toks[3..]))
    else Err(ExpectedBound)
  }

  /** How many leading arguments are measure references. */
  function LeadingRefs(exprs: seq<Expr>): (n: nat)
    ensures n <= |exprs|
  {
    if exprs == [] || !exprs[0].Ref? then 0 else 1 + LeadingRefs(exprs[1..])
  }

  /** Whether the parser reduces argument `i`. */
  predicate IsReduced(def: FnDef, exprs: seq<Expr>, i: nat) {
    if def.over.Leading? then i < LeadingRefs(exprs) else def.over.Contains(i)
  }

  /** The arguments with their `OVER` categories, then the markers of the other clauses. */
  function FinishAggregation(def: FnDef, exprs: seq<Expr>, clause: Clause): Result<Expr, ParseError> {
    if !def.Accepts(|exprs|) then Err(BadArity(def.name, |exprs|))
    else if clause.window.Some? && def.perItem then Err(NoWindow(def.name))
    else if def.over.Leading? && LeadingRefs(exprs) < def.over.min then Err(BadArity(def.name, LeadingRefs(exprs)))
    else if exists i :: 0 <= i < |exprs| && IsReduced(def, exprs, i) && !exprs[i].Ref? then Err(NotAMeasure(|exprs|))
    else Ok(Expr.Call(def.id, OverAll(def, exprs, clause) + Markers(clause)))
  }

  function OverAll(def: FnDef, exprs: seq<Expr>, clause: Clause): (r: seq<Expr>)
    requires forall i :: 0 <= i < |exprs| && IsReduced(def, exprs, i) ==> exprs[i].Ref?
    ensures |r| == |exprs|
  {
    var cats := match clause.cats case Some(cs) => cs case None => [];
    seq(|exprs|, i requires 0 <= i < |exprs| =>
      if IsReduced(def, exprs, i) then Ref(exprs[i].measure, exprs[i].spec.(over := cats)) else exprs[i])
  }

  function Markers(clause: Clause): seq<Expr> {
    (match clause.pred case Some(p) => [Expr.Call(WHERE, [p])] case None => [])
    + (match clause.window case Some(w) => [Expr.Call(WINDOW, [w.0, w.1])] case None => [])
    + (if clause.into == [] then [] else [Expr.Call(INTO, CategoryExprs(clause.into))])
  }

  function CategoryExprs(cs: seq<CategoryId>): (r: seq<Expr>)
    ensures |r| == |cs| && forall i :: 0 <= i < |cs| ==> r[i] == Category(cs[i])
  {
    seq(|cs|, i requires 0 <= i < |cs| => Category(cs[i]))
  }

  function ParseArg(b: Book, kind: ParamKind, i: nat, toks: seq<Tok>, d: nat): (r: Parsed)
    ensures r.Ok? ==> |r.value.1| < |toks|
    decreases |toks|, 21
  {
    if kind.TakesCategory? then
      var c :- ParseCategory(b, toks);
      Ok((Category(c.0), c.1))
    else
      var e :- ParseAt(b, 1, toks, d);
      if kind.TakesReading? && !e.0.Ref? then Err(NotAMeasure(i + 1)) else Ok(e)
  }

  /** A name, bare or quoted; a qualified one is refused. */
  function ParseName(toks: seq<Tok>): (r: Result<(string, seq<Tok>), ParseError>)
    ensures r.Ok? ==> |r.value.1| < |toks|
  {
    if toks == [] || !(toks[0].Ident? || toks[0].Quoted?) then Err(Expected("a name"))
    else
      var name := if toks[0].Ident? then toks[0].word else toks[0].name;
      if HeadIs(toks[1..], Op(Dot)) then Err(UnknownQualifier(name)) else Ok((name, toks[1..]))
  }

  function ParseCategory(b: Book, toks: seq<Tok>): (r: Result<(CategoryId, seq<Tok>), ParseError>)
    ensures r.Ok? ==> |r.value.1| < |toks|
  {
    var name :- ParseName(toks);
    match b.categoryNamed(name.0)
    case None => Err(UnknownName(name.0))
    case Some(c) => Ok((c, name.1))
  }

  /** `Name` or `Name[Category, …]`. */
  function ParseMeasureRef(b: Book, toks: seq<Tok>): (r: Parsed)
    ensures r.Ok? ==> |r.value.1| < |toks|
  {
    var name :- ParseName(toks);
    match b.measureNamed(name.0)
    case None => Err(UnknownName(name.0))
    case Some(id) =>
      if HeadIs(name.1, Op(OpenBracket)) then
        var groupBy :- ParseCategories(b, name.1[1..]);
        if HeadIs(groupBy.1, Op(CloseBracket)) then Ok((Ref(id, DimensionSpec(groupBy.0, [], [])), groupBy.1[1..]))
        else Err(Expected("]"))
      else Ok((Ref(id, PLAIN), name.1))
  }

  function ParseCategories(b: Book, toks: seq<Tok>): (r: Result<(seq<CategoryId>, seq<Tok>), ParseError>)
    ensures r.Ok? ==> |r.value.1| < |toks|
    decreases |toks|
  {
    var first :- ParseCategory(b, toks);
    if HeadIs(first.1, Op(Comma)) then
      var more :- ParseCategories(b, first.1[1..]);
      Ok(([first.0] + more.0, more.1))
    else Ok(([first.0], first.1))
  }

  // ----- a whole formula -----

  /** The limits on a whole formula: its own tree, and that with its named
      LAMBDAs expanded, where expanding works. */
  predicate WithinLimits(b: Book, e: Expr) {
    && CheckDepth(e, b.maxDepth).Ok?
    && (b.lambdas == map[] ||
        match ExpandLambdas(b.lambdas, e)
        case Ok(full) => CheckDepth(full, b.maxDepth).Ok?
        case Err(failure) => !failure.IsLimit())
  }

  function ParseTokens(b: Book, toks: seq<Tok>): Result<Expr, ParseError> {
    if toks == [] then Err(EmptyExpression)
    else
      var r :- ParseAt(b, 1, toks, 0);
      if r.1 != [] then Err(TrailingInput)
      else if !WithinLimits(b, r.0) then Err(FormulaTooBig)
      else Ok(r.0)
  }

  function Parse(b: Book, text: string): Result<Expr, ParseError> {
    match Tokenize(b.reader, text)
    case Err(error) => Err(Lexical(error))
    case Ok(toks) => ParseTokens(b, toks)
  }
}
