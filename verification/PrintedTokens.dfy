/** Reading a formula back from the tokens it prints as. */
module PrintedTokens {
  import opened Integers
  import opened Results
  import opened Formulas
  import opened Texts
  import opened Placeholders
  import opened LambdaParams
  import opened Functions
  import opened Tokenizer
  import opened Parser
  import opened Printer

  // ----- the tokens a formula prints as -----

  function NameTok(b: Book, name: string): Tok {
    if IsBare(b.reader.cls, name) then Ident(name) else Quoted(name)
  }

  function OpTok(op: BinaryOp): Tok {
    match op
    case And => Ident("AND") case Or => Ident("OR")
    case Add => Op(Plus) case Sub => Op(Minus) case Mul => Op(Times) case Div => Op(Divide)
    case Eq => Op(Equal) case Ne => Op(Differs) case Lt => Op(Less) case Le => Op(LessEq)
    case Gt => Op(Greater) case Ge => Op(GreaterEq) case Pow => Op(Power) case Concat => Op(Ampersand)
  }

  function MeasureName(b: Book, m: MeasureId): string {
    if m in b.measures then b.measures[m] else ""
  }

  function CategoryName(b: Book, c: CategoryId): string {
    if c in b.categories then b.categories[c] else ""
  }

  function CalledName(b: Book, f: FuncId): string {
    match NamedLambdaOf(f)
    case Some(id) => if id in b.lambdas then b.lambdas[id].name else ""
    case None => match ById(b.reader.functions, f) case Some(def) => def.name case None => ""
  }

  /** A call's name, in quotes where a LAMBDA's needs them. */
  function CalledTok(b: Book, f: FuncId): Tok {
    if NamedLambdaOf(f).Some? then NameTok(b, CalledName(b, f)) else Ident(CalledName(b, f))
  }

  function CategoryToks(b: Book, cs: seq<CategoryId>): seq<Tok> {
    if cs == [] then []
    else if |cs| == 1 then [NameTok(b, CategoryName(b, cs[0]))]
    else [NameTok(b, CategoryName(b, cs[0])), Op(Comma)] + CategoryToks(b, cs[1..])
  }

  function LiteralToks(v: Value): seq<Tok> {
    match v
    case Number(n) => [Num(n)]
    case Boolean(flag) => [Ident(if flag then "TRUE" else "FALSE")]
    case Text(t) => [Str(t)]
    case DateTime(stamp) => [Date(stamp)]
    case _ => []
  }

  function RefToks(b: Book, m: MeasureId, groupBy: seq<CategoryId>): seq<Tok> {
    [NameTok(b, MeasureName(b, m))] +
    if groupBy == [] then [] else [Op(OpenBracket)] + CategoryToks(b, groupBy) + [Op(CloseBracket)]
  }

  function Toks(b: Book, e: Expr): seq<Tok>
    decreases e, 1
  {
    match e
    case Literal(v) => LiteralToks(v)
    case Ref(m, spec) => RefToks(b, m, spec.groupBy)
    case Unary(op, a) => [if op == Neg then Op(Minus) else Ident("NOT")] + ChildToks(b, a, Prec(e))
    case Binary(op, l, r) =>
      ChildToks(b, l, LeftMin(op, Prec(e))) + ([OpTok(op)] + ChildToks(b, r, RightMin(op, Prec(e))))
    case Call(f, args) =>
      [CalledTok(b, f), Op(Open)] +
      (match Reducing(b, f) case Some(def) => AggregationToks(b, def, args) case None => ListToks(b, args))
    case Category(c) => [NameTok(b, CategoryName(b, c))]
  }

  function ChildToks(b: Book, e: Expr, min: nat): seq<Tok>
    decreases e, 2
  {
    if Prec(e) < min then [Op(Open)] + Toks(b, e) + [Op(Close)] else Toks(b, e)
  }

  /** The arguments and the parenthesis that closes them. */
  function ListToks(b: Book, args: seq<Expr>): seq<Tok>
    decreases args, 0
  {
    if args == [] then [Op(Close)]
    else if |args| == 1 then Toks(b, args[0]) + [Op(Close)]
    else Toks(b, args[0]) + ([Op(Comma)] + ListToks(b, args[1..]))
  }

  /** The aggregation that `f` calls, if it calls one. */
  function Reducing(b: Book, f: FuncId): Option<FnDef> {
    if NamedLambdaOf(f).Some? then None
    else
      var def :- ById(b.reader.functions, f);
      if def.reduces then Some(def) else None
  }

  function AggregationToks(b: Book, def: FnDef, args: seq<Expr>): seq<Tok>
    decreases args, 3
  {
    var clause := ClauseOf(def, args);
    var pred := match Condition(args) case Some(p) => [Ident("WHERE")] + Toks(b, p) case None => [];
    PartToks(b, args, 0, PartAt(def, args), OverToks(b, clause) + pred, IntoToks(b, clause.into))
  }

  /** The parts from the `i`-th on, the clauses among them, and the parenthesis that closes them. */
  function PartToks(b: Book, args: seq<Expr>, i: nat, at: nat, over: seq<Tok>, into: seq<Tok>): seq<Tok>
    decreases args, 0
  {
    if args == [] then [Op(Close)]
    else if IsMarker(args[0]) then PartToks(b, args[1..], i, at, over, into)
    else
      Toks(b, args[0]) + ((if i == at then over else []) +
      (if Parts(args[1..]) == [] then into + [Op(Close)] else [Op(Comma)] + PartToks(b, args[1..], i + 1, at, over, into)))
  }

  function PartAt(def: FnDef, args: seq<Expr>): nat {
    match OverAt(def, Parts(args)) case Some(at) => at case None => 0
  }

  /** An aggregation's clauses, as its arguments hold them. */
  function ClauseOf(def: FnDef, args: seq<Expr>): Clause {
    var window := match MarkerOf(args, WINDOW)
      case Some(bounds) => if |bounds| == 2 then Some((bounds[0], bounds[1])) else None
      case None => None;
    var into := match MarkerOf(args, INTO) case Some(cats) => CategoriesOf(cats) case None => [];
    Clause(SharedOver(def, Parts(args)), window, Condition(args), into)
  }

  function CategoriesOf(es: seq<Expr>): (r: seq<CategoryId>)
    ensures |r| == |es| && forall i :: 0 <= i < |es| && es[i].Category? ==> r[i] == es[i].category
  {
    seq(|es|, i requires 0 <= i < |es| => if es[i].Category? then es[i].category else 0)
  }

  /** `OVER`, the categories and the window. */
  function OverToks(b: Book, clause: Clause): seq<Tok> {
    [Ident("OVER")] +
    ((match clause.cats case Some(cats) => CategoryToks(b, cats) case None => []) +
     (match clause.window case Some(w) => WindowToks(w.0, w.1) case None => []))
  }

  function WindowToks(lo: Expr, hi: Expr): seq<Tok> {
    [Op(OpenBracket)] + BoundToks(lo) + [Op(Dot), Op(Dot)] + BoundToks(hi) + [Op(CloseBracket)]
  }

  function BoundToks(e: Expr): seq<Tok> {
    match e
    case Literal(Text(t)) => [Ident(t)]
    case Literal(Number(n)) =>
      if n == "0" then [Ident("THIS")]
      else if n != [] && n[0] == '-' then [Ident("THIS"), Op(Minus), Num(n[1..])]
      else [Ident("THIS"), Op(Plus), Num(n)]
    case _ => []
  }

  function IntoToks(b: Book, cats: seq<CategoryId>): seq<Tok> {
    if cats == [] then [] else [Ident("INTO")] + CategoryToks(b, cats)
  }

  // ----- which formulas a text can stand for -----

  predicate FindsCategory(b: Book, c: CategoryId) {
    c in b.categories && b.categories[c] != [] && b.categoryNamed(b.categories[c]) == Some(c)
  }

  predicate FindsMeasure(b: Book, m: MeasureId) {
    m in b.measures && b.measures[m] != [] && b.measureNamed(b.measures[m]) == Some(m)
  }

  predicate FindsReference(b: Book, m: MeasureId, groupBy: seq<CategoryId>) {
    FindsMeasure(b, m) && LambdaSlotOf(m).None? && forall i :: 0 <= i < |groupBy| ==> FindsCategory(b, groupBy[i])
  }

  /** A name, or `@` and a letter, as functions start. */
  predicate StartsCall(cls: CharClass, s: string) {
    s != [] && (StartsName(cls, s[0]) || (s[0] == '@' && |s| > 1 && cls.alphabetic(s[1])))
  }

  /** Up to four parts of letters, digits and underscores, joined by dots, the
      first starting as a call does; checked from `j`, the start of part `parts`. */
  predicate IsCallName(cls: CharClass, name: string, j: nat, parts: nat)
    decreases 5 - parts
  {
    if j == 0 then
      StartsCall(cls, name) && parts == 0 &&
      var k := 1 + NameRun(cls, name[1..]); IsCallName(cls, name, k, 1)
    else
      j == |name| ||
      (parts < 4 && j < |name| && NextPart(cls, name, j).Some? &&
       IsCallName(cls, name, NextPart(cls, name, j).value, parts + 1))
  }

  /** The literal has a text, and its text stands for it, or, a date's, for nothing. */
  predicate LiteralReads(r: Reader, v: Value) {
    match v
    case Number(n) => IsNumeral(n) ==> r.number(n) == Some(n)
    case Boolean(_) => true
    case Text(_) => true
    case DateTime(stamp) => '#' !in stamp && (r.date(stamp) == Some(stamp) || r.date(stamp) == None)
    case EnumIndex(_) => false
    case Error(_) => false
  }

  /** A word that starts a clause of an aggregation. */
  predicate IsClauseWord(w: string) {
    EqIgnoreAsciiCase(w, "OVER") || EqIgnoreAsciiCase(w, "WHERE") || EqIgnoreAsciiCase(w, "INTO")
  }

  predicate IsWordOfGrammar(w: string) {
    EqIgnoreAsciiCase(w, "NOT") || IsClauseWord(w)
  }

  /** The kinds of the arguments a call of `f` takes, if its name calls `f`. */
  function KindsTaken(b: Book, f: FuncId, n: nat, strict: bool): Option<nat -> ParamKind> {
    match NamedLambdaOf(f)
    case Some(id) =>
      if id !in b.lambdas || NamedLambdaCall(id) != f then None
      else
        var l := b.lambdas[id];
        if (if strict then IsBare(b.reader.cls, l.name) else l.name != []) && Callable(b.reader.functions, l.name).None? && b.lambdaNamed(l.name) == Some(id)
           && KindsOf(l).Some? && n == |l.params|
        then Some(LambdaKinds(KindsOf(l).value)) else None
    case None =>
      match ById(b.reader.functions, f)
      case None => None
      case Some(def) =>
        if Callable(b.reader.functions, def.name) == Some(def) && !IsSpecialForm(def.name) && !IsReserved(f)
           && IsCallName(b.reader.cls, def.name, 0, 0)
           && !IsWordOfGrammar(def.name) && def.Accepts(n)
        then Some(CallKinds(def, Aggregation(b.reader.functions, def.name).Some?)) else None
  }

  /** Every name in `e` finds what it names, its calls are calls the parser
      makes, and its literals have texts. If `strict`, its text also leads the
      parser to them: no LAMBDA's name is quoted, no LAMBDA hides an aggregation,
      and nothing after an `OVER` looks like one more category. */
  predicate Legible(b: Book, e: Expr, strict: bool)
    decreases e, 1
  {
    match e
    case Literal(v) => LiteralReads(b.reader, v)
    case Ref(m, spec) => FindsReference(b, m, spec.groupBy) && spec.over == [] && spec.except == []
    case Unary(_, a) => Legible(b, a, strict)
    case Binary(_, l, r) => Legible(b, l, strict) && Legible(b, r, strict)
    case Call(f, args) =>
      (match Reducing(b, f)
       case Some(def) => LegibleAggregation(b, def, args, strict)
       case None => KindsTaken(b, f, |args|, strict).Some? && LegibleArgs(b, args, KindsTaken(b, f, |args|, strict).value, 0, strict))
    case Category(_) => false
  }

  predicate LegibleArgs(b: Book, args: seq<Expr>, kinds: nat -> ParamKind, i: nat, strict: bool)
    decreases args, 0
  {
    args == [] ||
    ((if kinds(i).TakesCategory? then args[0].Category? && FindsCategory(b, args[0].category)
      else Legible(b, args[0], strict) && (kinds(i).TakesReading? ==> args[0].Ref?))
     && LegibleArgs(b, args[1..], kinds, i + 1, strict))
  }

  /** The call's name calls the aggregation, and its parts and clauses are readable. */
  predicate LegibleAggregation(b: Book, def: FnDef, args: seq<Expr>, strict: bool)
    decreases args, 4
  {
    CallsAggregation(b, def, strict) && LegibleClauses(b, def, args, strict && IsOpen(ClauseOf(def, args)), strict)
  }

  /** The arguments are what the parser makes of their parts and clauses, and
      these are readable, `open` if more categories could follow the `OVER`. */
  predicate LegibleClauses(b: Book, def: FnDef, args: seq<Expr>, open: bool, strict: bool)
    decreases args, 3
  {
    && FinishAggregation(def, BareParts(def, args, 0), ClauseOf(def, args)) == Ok(Expr.Call(def.id, args))
    && FindsClause(b, ClauseOf(def, args))
    && (Condition(args).Some? ==> Legible(b, Condition(args).value, strict))
    && LegibleParts(b, def, args, 0, PartAt(def, args), open, strict)
  }

  /** A call with the aggregation's name and an `OVER` is a call of it. A
      LAMBDA of the name hides it, where no plain function has the name too. */
  predicate CallsAggregation(b: Book, def: FnDef, strict: bool) {
    && Aggregation(b.reader.functions, def.name) == Some(def) && !IsReserved(def.id)
    && !IsSpecialForm(def.name) && !IsWordOfGrammar(def.name) && IsCallName(b.reader.cls, def.name, 0, 0)
    && (strict ==> !Hidden(b, def))
  }

  /** A LAMBDA has the aggregation's name, and no plain function does. */
  predicate Hidden(b: Book, def: FnDef) {
    && Callable(b.reader.functions, def.name).None?
    && b.lambdaNamed(def.name).Some? && b.lambdaNamed(def.name).value in b.lambdas
  }

  /** A part as it is read, before it gets the `OVER` categories. */
  function Bare(a: Expr, reduced: bool): Expr {
    if reduced && a.Ref? then Ref(a.measure, a.spec.(over := [])) else a
  }

  function BareParts(def: FnDef, args: seq<Expr>, i: nat): seq<Expr> {
    if args == [] then []
    else if IsMarker(args[0]) then BareParts(def, args[1..], i)
    else [Bare(args[0], def.Reduced(i, args[0]))] + BareParts(def, args[1..], i + 1)
  }

  /** Whether more categories could follow the `OVER` clause. */
  predicate IsOpen(clause: Clause) {
    clause.window.None? && clause.pred.None?
  }

  predicate FindsClause(b: Book, clause: Clause) {
    && clause.cats.Some? && FindsList(b, clause.cats.value)
    && (clause.into == [] || FindsList(b, clause.into))
    && (clause.window.Some? ==> |clause.cats.value| == 1)
    && (clause.window.Some? ==>
          ReadableBound(b.reader, clause.window.value.0) && ReadableBound(b.reader, clause.window.value.1))
  }

  /** A list without brackets: no category after the first has a measure's name. */
  predicate FindsList(b: Book, cs: seq<CategoryId>) {
    && cs != [] && (forall i :: 0 <= i < |cs| ==> FindsCategory(b, cs[i]))
    && forall i :: 1 <= i < |cs| ==> b.measureNamed(CategoryName(b, cs[i])).None?
  }

  predicate ReadableBound(r: Reader, e: Expr) {
    match e
    case Literal(Text(t)) => t == "FIRST" || t == "LAST"
    case Literal(Number(n)) =>
      n == "0" || (IsWhole(n) && r.number(n) == Some(n))
      || (n != [] && n[0] == '-' && IsWhole(n[1..]) && n[1..] != "0" && r.number(n[1..]) == Some(n[1..]))
    case _ => false
  }

  /** The parts are readable, and the one after an open list of categories does
      not look like one more of them. */
  predicate LegibleParts(b: Book, def: FnDef, args: seq<Expr>, i: nat, at: nat, open: bool, strict: bool)
    decreases args, 0
  {
    args == [] ||
    (if IsMarker(args[0]) then LegibleParts(b, def, args[1..], i, at, open, strict)
     else
       && LegiblePart(b, args[0], def.Reduced(i, args[0]), strict)
       && (i == at && open && Parts(args[1..]) != [] ==> !CategoryAhead(b, Toks(b, Parts(args[1..])[0])))
       && LegibleParts(b, def, args[1..], i + 1, at, open, strict))
  }

  predicate LegiblePart(b: Book, a: Expr, reduced: bool, strict: bool)
    decreases a, 2
  {
    if reduced then a.Ref? && FindsReference(b, a.measure, a.spec.groupBy) && a.spec.except == []
    else Legible(b, a, strict)
  }

  lemma AggregationIsLegible(b: Book, f: FuncId, args: seq<Expr>, strict: bool)
    requires Legible(b, Call(f, args), strict) && Reducing(b, f).Some?
    ensures var def := Reducing(b, f).value; def.id == f && LegibleAggregation(b, def, args, strict)
  {
  }

  lemma CallIsLegible(b: Book, f: FuncId, args: seq<Expr>, strict: bool)
    requires Legible(b, Call(f, args), strict) && Reducing(b, f).None?
    ensures KindsTaken(b, f, |args|, strict).Some? && LegibleArgs(b, args, KindsTaken(b, f, |args|, strict).value, 0, strict)
  {
  }

  /** Every date among the tokens is one that its text reads as. */
  ghost predicate DatesRead(r: Reader, toks: seq<Tok>) {
    forall tok :: tok in toks && tok.Date? ==> r.date(tok.stamp) == Some(tok.stamp)
  }

  /** The formula's text stands for it, if only reading it stays within the limits. */
  ghost predicate Readable(b: Book, e: Expr) {
    Legible(b, e, true) && DatesRead(b.reader, Toks(b, e))
  }

  // ----- how deep the parser recurses -----

  /** How much recursion reading `e` back takes. */
  function Nest(e: Expr): (n: nat)
    ensures n >= 1
    decreases e, 1
  {
    match e
    case Unary(_, a) => 1 + NestChild(a, Prec(e))
    case Binary(op, l, r) =>
      Max(NestChild(l, LeftMin(op, Prec(e))), NestChild(r, RightMin(op, Prec(e))) + if op == Pow then 1 else 0)
    case Call(_, args) => 1 + NestAll(args)
    case _ => 1
  }

  function NestChild(e: Expr, min: nat): (n: nat)
    ensures n >= 1
    decreases e, 2
  {
    if Prec(e) < min then 1 + Nest(e) else Nest(e)
  }

  function ArgNest(a: Expr): nat
    decreases a, 2
  {
    if a.Category? then 0
    else if !IsMarker(a) then Nest(a)
    else if a.func == WHERE && a.args != [] then Nest(a.args[0])
    else 0
  }

  function NestAll(es: seq<Expr>): nat
    decreases es, 0
  {
    if es == [] then 0 else Max(ArgNest(es[0]), NestAll(es[1..]))
  }

  // ----- what ends an expression -----

  /** The highest level at which `tok` continues an expression. */
  function Continues(tok: Tok): nat {
    match tok
    case Ident(w) => if EqIgnoreAsciiCase(w, "OR") then 1 else if EqIgnoreAsciiCase(w, "AND") then 2 else 0
    case Op(s) =>
      if s == Equal || s == Differs || s == BangEqual || s == Less || s == LessEq || s == Greater || s == GreaterEq then 4
      else if s == Ampersand then 5
      else if s == Plus || s == Minus then 6
      else if s == Times || s == Divide then 7
      else if s == Power then 9
      else if s == Percent then 10
      else if s == OpenBracket || s == Open || s == Dot || s == Arrow then 11
      else 0
    case _ => 0
  }

  /** `rest` does not continue an expression at `level` or a tighter one. */
  predicate Stops(rest: seq<Tok>, level: nat) {
    rest == [] || Continues(rest[0]) < level
  }

  /** No operator at `level` or a tighter one comes next. */
  predicate NoOperator(rest: seq<Tok>, level: nat) {
    rest == [] || Continues(rest[0]) < level || Continues(rest[0]) == 11
  }

  /** An operator is no tighter than its level, and none is at that of unary minus. */
  lemma OperatorStops(op: BinaryOp, rest: seq<Tok>, level: nat)
    requires HeadIs(rest, OpTok(op)) && Prec(Binary(op, Literal(Boolean(true)), Literal(Boolean(true)))) < level
    ensures Stops(rest, level)
  {
  }

  lemma PowerStops(more: seq<Tok>, rest: seq<Tok>)
    ensures Stops([Op(Power)] + more + rest, 10)
  {
  }

  lemma MinusContinuesNothing(rest: seq<Tok>)
    requires Stops(rest, 9)
    ensures Stops(rest, 8)
  {
  }

  lemma MarkStops(rest: seq<Tok>)
    requires HeadIs(rest, Op(Comma)) || HeadIs(rest, Op(Close))
    ensures Stops(rest, 1)
  {
  }

  // ----- outcomes -----

  /** The outcome is `goal` or a refusal; `fits` rules out the refusal, and
      `nested` the goal. */
  ghost predicate Reads<T>(r: Result<T, ParseError>, goal: Result<T, ParseError>, fits: bool, nested: bool) {
    (r == goal || r.Err?) && (fits ==> r == goal) && (nested ==> r.Err?)
  }

  predicate HasRoom(b: Book, e: Expr, d: nat, nest: nat) {
    d + nest <= b.maxNest && Depth(e) <= b.maxDepth
  }

  /** At `level`, the formula's tokens before `rest` are read as it, if the limits allow. */
  ghost predicate ReadsBack(b: Book, level: nat, e: Expr, rest: seq<Tok>, d: nat)
    requires 1 <= level <= 10
  {
    Reads(ParseAt(b, level, Toks(b, e) + rest, d), Ok((e, rest)), HasRoom(b, e, d, Nest(e)), d + Nest(e) > b.maxNest)
  }

  /** The same of an operand, in parentheses where it binds too loosely. */
  ghost predicate ChildReadsBack(b: Book, min: nat, e: Expr, rest: seq<Tok>, d: nat)
    requires 1 <= min <= 10
  {
    Reads(ParseAt(b, min, ChildToks(b, e, min) + rest, d), Ok((e, rest)),
          HasRoom(b, e, d, NestChild(e, min)), d + NestChild(e, min) > b.maxNest)
  }

  predicate IsChainLevel(level: nat) {
    level == 1 || level == 2 || level == 5 || level == 6 || level == 7
  }

  /** Skipping levels: what a tighter level reads, a looser one reads too. */
  lemma {:induction false} Loosen(b: Book, level: nat, toks: seq<Tok>, d: nat)
    requires 1 <= level < 10
    requires level == 3 ==> !IsKeyword(toks, "NOT")
    requires level == 8 ==> !HeadIs(toks, Op(Minus))
    ensures var r := ParseAt(b, level + 1, toks, d);
            && (r.Err? ==> ParseAt(b, level, toks, d).Err?)
            && (r.Ok? && NoOperator(r.value.1, level) ==> ParseAt(b, level, toks, d) == r)
  {
    if IsChainLevel(level) {
      LoosenChain(b, level, toks, d);
    }
  }

  lemma {:induction false} LoosenChain(b: Book, level: nat, toks: seq<Tok>, d: nat)
    requires IsChainLevel(level)
    ensures var r := ParseAt(b, level + 1, toks, d);
            && (r.Err? ==> ParseAt(b, level, toks, d).Err?)
            && (r.Ok? && NoOperator(r.value.1, level) ==> ParseAt(b, level, toks, d) == r)
  {
    ChainIs(b, level, toks, d);
    var r := ParseAt(b, level + 1, toks, d);
    if r.Ok? && NoOperator(r.value.1, level) {
      NoChainOp(level, r.value.1);
      ChainStops(b, level, r.value.0, r.value.1, d);
    }
  }

  lemma ChainIs(b: Book, level: nat, toks: seq<Tok>, d: nat)
    requires IsChainLevel(level)
    ensures var first, r := ParseAt(b, level + 1, toks, d), ParseAt(b, level, toks, d);
            (first.Err? ==> r.Err?) && (first.Ok? ==> r == ParseChain(b, level, first.value.0, first.value.1, d))
  {
  }

  /** A chain by its next link. */
  lemma {:induction false} ChainStep(b: Book, level: nat, lhs: Expr, toks: seq<Tok>, d: nat)
    requires IsChainLevel(level)
    ensures var op, r := ChainOp(level, toks), ParseChain(b, level, lhs, toks, d);
            && (op.None? ==> r == Ok((lhs, toks)))
            && (op.Some? ==>
                  var next := ParseAt(b, level + 1, toks[1..], d);
                  && (next.Err? ==> r.Err?)
                  && (next.Ok? ==>
                        r.Err? || r == ParseChain(b, level, Binary(op.value, lhs, next.value.0), next.value.1, d)))
  {
  }

  lemma NoChainOp(level: nat, rest: seq<Tok>)
    requires IsChainLevel(level) && NoOperator(rest, level)
    ensures ChainOp(level, rest).None?
  {
  }

  lemma ChainStops(b: Book, level: nat, e: Expr, rest: seq<Tok>, d: nat)
    requires 1 <= level < 10 && ChainOp(level, rest).None?
    ensures ParseChain(b, level, e, rest, d) == Ok((e, rest))
  {
  }

  /** The same over several levels. */
  lemma {:induction false} LoosenTo(b: Book, level: nat, from: nat, toks: seq<Tok>, d: nat)
    requires 1 <= level <= from <= 10
    requires level <= 3 < from ==> !IsKeyword(toks, "NOT")
    requires level <= 8 < from ==> !HeadIs(toks, Op(Minus))
    ensures var r := ParseAt(b, from, toks, d);
            && (r.Err? ==> ParseAt(b, level, toks, d).Err?)
            && (r.Ok? && NoOperator(r.value.1, level) ==> ParseAt(b, level, toks, d) == r)
    decreases from - level
  {
    if level < from {
      LoosenTo(b, level + 1, from, toks, d);
      Loosen(b, level, toks, d);
    }
  }

  // ----- what an expression starts with -----

  lemma {:induction false} Head(b: Book, e: Expr, rest: seq<Tok>, strict: bool)
    requires Legible(b, e, strict)
    ensures Toks(b, e) != []
    ensures Prec(e) > 3 ==> !IsKeyword(Toks(b, e) + rest, "NOT")
    ensures Prec(e) > 8 ==> !HeadIs(Toks(b, e) + rest, Op(Minus))
    ensures !HeadIs(Toks(b, e) + rest, Op(Close))
    decreases e, 0
  {
    match e
    case Literal(_) =>
    case Ref(m, _) =>
      assert KEYWORDS[0] == "NOT";
      assert Toks(b, e)[0] == NameTok(b, MeasureName(b, m));
    case Unary(_, a) =>
    case Binary(op, l, r) =>
      ChildHead(b, l, LeftMin(op, Prec(e)), [OpTok(op)] + ChildToks(b, r, RightMin(op, Prec(e))) + rest, strict);
      BinaryToks(b, op, l, r, rest);
    case Call(f, args) =>
      CallHead(b, f, args, rest, strict);
  }

  lemma CallHead(b: Book, f: FuncId, args: seq<Expr>, rest: seq<Tok>, strict: bool)
    requires Legible(b, Call(f, args), strict)
    ensures var toks := Toks(b, Call(f, args));
            && toks != [] && (toks + rest)[0] == CalledTok(b, f)
            && !IsKeyword(toks + rest, "NOT") && !HeadIs(toks + rest, Op(Minus)) && !HeadIs(toks + rest, Op(Close))
  {
    CalledIsNotNot(b, f, args, strict);
    assert Toks(b, Call(f, args))[0] == CalledTok(b, f);
  }

  lemma CalledIsNotNot(b: Book, f: FuncId, args: seq<Expr>, strict: bool)
    requires Legible(b, Call(f, args), strict)
    ensures CalledTok(b, f).Ident? ==> !IsWordOfGrammar(CalledTok(b, f).word)
  {
    BareIsNoWordOfGrammar(b.reader.cls, CalledName(b, f));
  }

  lemma BareIsNoWordOfGrammar(cls: CharClass, name: string)
    ensures IsBare(cls, name) ==> !IsWordOfGrammar(name)
  {
    assert KEYWORDS[0] == "NOT" && KEYWORDS[3] == "OVER" && KEYWORDS[6] == "WHERE" && KEYWORDS[7] == "INTO";
  }

  lemma {:induction false} ChildHead(b: Book, e: Expr, min: nat, rest: seq<Tok>, strict: bool)
    requires Legible(b, e, strict)
    ensures ChildToks(b, e, min) != []
    ensures min > 3 ==> !IsKeyword(ChildToks(b, e, min) + rest, "NOT")
    ensures min > 8 ==> !HeadIs(ChildToks(b, e, min) + rest, Op(Minus))
    ensures !HeadIs(ChildToks(b, e, min) + rest, Op(Close))
    decreases e, 1
  {
    Head(b, e, rest, strict);
  }

  lemma BinaryToks(b: Book, op: BinaryOp, l: Expr, r: Expr, rest: seq<Tok>)
    ensures var e := Binary(op, l, r);
            Toks(b, e) + rest ==
            ChildToks(b, l, LeftMin(op, Prec(e))) + ([OpTok(op)] + ChildToks(b, r, RightMin(op, Prec(e))) + rest)
  {
  }

  // ----- reading one construct, given that its parts are read -----

  lemma {:induction false} StepNot(b: Book, a: Expr, rest: seq<Tok>, d: nat)
    requires ChildReadsBack(b, 3, a, rest, d + 1)
    ensures ReadsBack(b, 3, Unary(Not, a), rest, d)
  {
    var e := Unary(Not, a);
    assert (Toks(b, e) + rest)[1..] == ChildToks(b, a, 3) + rest;
  }

  lemma {:induction false} StepNeg(b: Book, a: Expr, rest: seq<Tok>, d: nat)
    requires ChildReadsBack(b, 8, a, rest, d + 1)
    ensures ReadsBack(b, 8, Unary(Neg, a), rest, d)
  {
    var e := Unary(Neg, a);
    assert (Toks(b, e) + rest)[1..] == ChildToks(b, a, 8) + rest;
  }

  lemma {:induction false} StepComparison(b: Book, op: BinaryOp, l: Expr, r: Expr, rest: seq<Tok>, d: nat)
    requires Prec(Binary(op, l, r)) == 4
    requires ChildReadsBack(b, 5, l, [OpTok(op)] + ChildToks(b, r, 5) + rest, d)
    requires ChildReadsBack(b, 5, r, rest, d)
    ensures ReadsBack(b, 4, Binary(op, l, r), rest, d)
  {
    var tail := [OpTok(op)] + ChildToks(b, r, 5) + rest;
    BinaryToks(b, op, l, r, rest);
    assert tail[1..] == ChildToks(b, r, 5) + rest;
    ComparisonIsRead(op, tail);
    ComparisonIs(b, ChildToks(b, l, 5) + tail, d);
  }

  lemma ComparisonIsRead(op: BinaryOp, toks: seq<Tok>)
    requires op in {Eq, Ne, Lt, Le, Gt, Ge} && HeadIs(toks, OpTok(op))
    ensures Comparison(toks) == Some(op)
  {
  }

  lemma ComparisonIs(b: Book, toks: seq<Tok>, d: nat)
    ensures var p, r := ParseAt(b, 5, toks, d), ParseAt(b, 4, toks, d);
            && (p.Err? ==> r.Err?)
            && (p.Ok? && Comparison(p.value.1).None? ==> r == p)
            && (p.Ok? && Comparison(p.value.1).Some? ==>
                  var q := ParseAt(b, 5, p.value.1[1..], d);
                  (q.Err? ==> r.Err?) &&
                  (q.Ok? ==> r == Ok((Binary(Comparison(p.value.1).value, p.value.0, q.value.0), q.value.1))))
  {
  }

  lemma {:induction false} StepPower(b: Book, l: Expr, r: Expr, rest: seq<Tok>, d: nat)
    requires ChildReadsBack(b, 10, l, [Op(Power)] + ChildToks(b, r, 8) + rest, d)
    requires ChildReadsBack(b, 8, r, rest, d + 1)
    ensures ReadsBack(b, 9, Binary(Pow, l, r), rest, d)
  {
    var tail := [Op(Power)] + ChildToks(b, r, 8) + rest;
    BinaryToks(b, Pow, l, r, rest);
    assert tail[1..] == ChildToks(b, r, 8) + rest;
    PowerIs(b, ChildToks(b, l, 10) + tail, d);
  }

  lemma PowerIs(b: Book, toks: seq<Tok>, d: nat)
    ensures var p, r := ParseAt(b, 10, toks, d), ParseAt(b, 9, toks, d);
            && (p.Err? ==> r.Err?)
            && (p.Ok? && !HeadIs(p.value.1, Op(Power)) ==> r == p)
            && (p.Ok? && HeadIs(p.value.1, Op(Power)) ==>
                  var q := ParseAt(b, 8, p.value.1[1..], d + 1);
                  (d + 1 > b.maxNest || q.Err? ==> r.Err?) &&
                  (d + 1 <= b.maxNest && q.Ok? ==> r == Ok((Binary(Pow, p.value.0, q.value.0), q.value.1))))
  {
  }

  /** Once `l` is read, the operator and `r` after it make the next link. */
  lemma {:induction false} StepLink(b: Book, op: BinaryOp, l: Expr, r: Expr, rest: seq<Tok>, d: nat)
    requires var level := Prec(Binary(op, l, r)); IsChainLevel(level)
    requires var level := Prec(Binary(op, l, r));
             ChildReadsBack(b, level + 1, r, rest, d)
    ensures var e := Binary(op, l, r); var level := Prec(e);
            var nest := NestChild(r, level + 1);
            Reads(ParseChain(b, level, l, [OpTok(op)] + ChildToks(b, r, level + 1) + rest, d),
                  ParseChain(b, level, e, rest, d), HasRoom(b, e, d, nest), d + nest > b.maxNest)
  {
    var e := Binary(op, l, r);
    var level := Prec(e);
    var tail := [OpTok(op)] + ChildToks(b, r, level + 1) + rest;
    assert tail[1..] == ChildToks(b, r, level + 1) + rest;
    assert ChainOp(level, tail) == Some(op);
  }

  lemma {:induction false} StepOperand(b: Book, e: Expr, level: nat, rest: seq<Tok>, d: nat)
    requires IsChainLevel(level) && Prec(e) != level
    requires ChildReadsBack(b, level + 1, e, rest, d)
    ensures Reads(ParseAt(b, level, ChildToks(b, e, level) + rest, d), ParseChain(b, level, e, rest, d),
                  HasRoom(b, e, d, NestChild(e, level)), d + NestChild(e, level) > b.maxNest)
  {
  }

  lemma {:induction false} StepParens(b: Book, e: Expr, min: nat, rest: seq<Tok>, d: nat)
    requires 1 <= min <= 10 && Prec(e) < min && Stops(rest, min)
    requires var inner := [Op(Close)] + rest;
             ReadsBack(b, 1, e, inner, d + 1)
    ensures ChildReadsBack(b, min, e, rest, d)
  {
    var inner := [Op(Close)] + rest;
    var toks := ChildToks(b, e, min) + rest;
    ParensToks(b, e, min, rest);
    PrimaryParens(b, toks, d);
    LoosenTo(b, min, 10, toks, d);
    ParensOutcome(b, e, d, rest, ParseAt(b, 1, Toks(b, e) + inner, d + 1), ParseAt(b, 10, toks, d), ParseAt(b, min, toks, d));
    assert NestChild(e, min) == 1 + Nest(e);
  }

  lemma ParensToks(b: Book, e: Expr, min: nat, rest: seq<Tok>)
    requires Prec(e) < min
    ensures var toks, inner := ChildToks(b, e, min) + rest, [Op(Close)] + rest;
            HeadIs(toks, Op(Open)) && toks[1..] == Toks(b, e) + inner && inner[1..] == rest
  {
    Enclosed(Toks(b, e), rest);
  }

  lemma Enclosed(inside: seq<Tok>, rest: seq<Tok>)
    ensures var toks, inner := [Op(Open)] + inside + [Op(Close)] + rest, [Op(Close)] + rest;
            HeadIs(toks, Op(Open)) && toks[1..] == inside + inner && inner[1..] == rest
  {
    assert [Op(Open)] + inside + [Op(Close)] + rest == [Op(Open)] + (inside + ([Op(Close)] + rest));
  }

  lemma ParensOutcome(b: Book, e: Expr, d: nat, rest: seq<Tok>, inner: Parsed, primary: Parsed, r: Parsed)
    requires Reads(inner, Ok((e, [Op(Close)] + rest)), HasRoom(b, e, d + 1, Nest(e)), d + 1 + Nest(e) > b.maxNest)
    requires d + 1 > b.maxNest || inner.Err? ==> primary.Err?
    requires d + 1 <= b.maxNest && inner == Ok((e, [Op(Close)] + rest)) ==> primary == Ok((e, rest))
    requires (primary.Err? ==> r.Err?) && (primary == Ok((e, rest)) ==> r == primary)
    ensures Reads(r, Ok((e, rest)), HasRoom(b, e, d, 1 + Nest(e)), d + 1 + Nest(e) > b.maxNest)
  {
  }

  lemma PrimaryParens(b: Book, toks: seq<Tok>, d: nat)
    requires HeadIs(toks, Op(Open))
    ensures var r := ParseAt(b, 10, toks, d); var inner := ParseAt(b, 1, toks[1..], d + 1);
            && (d + 1 > b.maxNest || inner.Err? || !HeadIs(inner.value.1, Op(Close)) ==> r.Err?)
            && (d + 1 <= b.maxNest && inner.Ok? && HeadIs(inner.value.1, Op(Close)) && Stops(inner.value.1[1..], 10) ==>
                  r == Ok((inner.value.0, inner.value.1[1..])))
  {
    PrimaryStands(b, toks, d);
  }

  lemma {:induction false} PrimaryStands(b: Book, toks: seq<Tok>, d: nat)
    ensures var r, p := ParseAt(b, 10, toks, d), ParsePrimary(b, toks, d);
            (p.Err? ==> r.Err?) && (p.Ok? && NoOperator(p.value.1, 10) ==> r == p)
  {
    PostfixIs(b, toks, d);
    var p := ParsePrimary(b, toks, d);
    if p.Ok? {
      PercentsStop(b, p.value.0, p.value.1);
    }
  }

  lemma PercentsStop(b: Book, e: Expr, rest: seq<Tok>)
    ensures NoOperator(rest, 10) ==> ParsePercents(b, e, rest) == Ok((e, rest))
  {
  }

  lemma PostfixIs(b: Book, toks: seq<Tok>, d: nat)
    ensures var r, p := ParseAt(b, 10, toks, d), ParsePrimary(b, toks, d);
            (p.Err? ==> r.Err?) && (p.Ok? ==> r == ParsePercents(b, p.value.0, p.value.1))
  {
    assert ParseAt(b, 10, toks, d) == ParsePostfix(b, toks, d);
  }

  // ----- literals and names -----

  lemma StepLiteral(b: Book, v: Value, rest: seq<Tok>, d: nat)
    requires !v.EnumIndex? && !v.Error? && Stops(rest, 10)
    ensures ReadsBack(b, 10, Literal(v), rest, d)
  {
    LiteralIsPrimary(b, v, rest, d);
    PrimaryStands(b, LiteralToks(v) + rest, d);
  }

  lemma LiteralIsPrimary(b: Book, v: Value, rest: seq<Tok>, d: nat)
    requires !v.EnumIndex? && !v.Error? && Stops(rest, 10)
    ensures ParsePrimary(b, LiteralToks(v) + rest, d) ==
            if d + 1 <= b.maxNest then Ok((Literal(v), rest)) else Err(NestedTooDeeply)
  {
    if v.Boolean? {
      BooleanIsPrimary(b, v.flag, rest, d);
    } else {
      assert (LiteralToks(v) + rest)[1..] == rest;
    }
  }

  lemma BooleanIsPrimary(b: Book, flag: bool, rest: seq<Tok>, d: nat)
    requires Stops(rest, 10)
    ensures ParsePrimary(b, [Ident(if flag then "TRUE" else "FALSE")] + rest, d) ==
            if d + 1 <= b.maxNest then Ok((Literal(Boolean(flag)), rest)) else Err(NestedTooDeeply)
  {
    var word := if flag then "TRUE" else "FALSE";
    var toks := [Ident(word)] + rest;
    assert toks[1..] == rest;
    WordIsPrimary(b, word, toks, d);
    assert EqIgnoreAsciiCase(word, word);
  }

  /** A word that calls nothing is a truth value or a measure. */
  lemma {:induction false} WordIsPrimary(b: Book, word: string, toks: seq<Tok>, d: nat)
    requires HeadIs(toks, Ident(word)) && Stops(toks[1..], 11)
    ensures ParsePrimary(b, toks, d) ==
            if d + 1 > b.maxNest then Err(NestedTooDeeply)
            else if EqIgnoreAsciiCase(word, "TRUE") then Ok((Literal(Boolean(true)), toks[1..]))
            else if EqIgnoreAsciiCase(word, "FALSE") then Ok((Literal(Boolean(false)), toks[1..]))
            else ParseMeasureRef(b, toks)
  {
    assert !HeadIs(toks[1..], Op(Arrow)) && !HeadIs(toks[1..], Op(Open));
  }

  lemma NameRead(b: Book, name: string, rest: seq<Tok>)
    requires !HeadIs(rest, Op(Dot))
    ensures ParseName([NameTok(b, name)] + rest) == Ok((name, rest))
  {
    assert ([NameTok(b, name)] + rest)[1..] == rest;
  }

  lemma {:induction false} CategoriesRead(b: Book, cs: seq<CategoryId>, rest: seq<Tok>)
    requires cs != [] && (forall i :: 0 <= i < |cs| ==> FindsCategory(b, cs[i])) && HeadIs(rest, Op(CloseBracket))
    ensures ParseCategories(b, CategoryToks(b, cs) + rest) == Ok((cs, rest))
  {
    var name := NameTok(b, CategoryName(b, cs[0]));
    if |cs| == 1 {
      NameRead(b, CategoryName(b, cs[0]), rest);
      assert cs == [cs[0]];
    } else {
      var more := CategoryToks(b, cs[1..]) + rest;
      assert CategoryToks(b, cs) + rest == [name] + ([Op(Comma)] + more);
      NameRead(b, CategoryName(b, cs[0]), [Op(Comma)] + more);
      assert ([Op(Comma)] + more)[1..] == more;
      CategoriesRead(b, cs[1..], rest);
      assert cs == [cs[0]] + cs[1..];
    }
  }

  lemma {:induction false} MeasureRefRead(b: Book, m: MeasureId, groupBy: seq<CategoryId>, rest: seq<Tok>)
    requires FindsMeasure(b, m) && (forall i :: 0 <= i < |groupBy| ==> FindsCategory(b, groupBy[i])) && Stops(rest, 10)
    ensures ParseMeasureRef(b, RefToks(b, m, groupBy) + rest) == Ok((Ref(m, DimensionSpec(groupBy, [], [])), rest))
  {
    if groupBy == [] {
      PlainRefRead(b, m, rest);
    } else {
      GroupedRefRead(b, m, groupBy, rest);
    }
  }

  lemma PlainRefRead(b: Book, m: MeasureId, rest: seq<Tok>)
    requires FindsMeasure(b, m) && !HeadIs(rest, Op(OpenBracket)) && !HeadIs(rest, Op(Dot))
    ensures ParseMeasureRef(b, RefToks(b, m, []) + rest) == Ok((Ref(m, PLAIN), rest))
  {
    NameRead(b, MeasureName(b, m), rest);
    assert RefToks(b, m, []) + rest == [NameTok(b, MeasureName(b, m))] + rest;
  }

  lemma {:induction false} GroupedRefRead(b: Book, m: MeasureId, groupBy: seq<CategoryId>, rest: seq<Tok>)
    requires FindsMeasure(b, m) && (forall i :: 0 <= i < |groupBy| ==> FindsCategory(b, groupBy[i])) && groupBy != []
    ensures ParseMeasureRef(b, RefToks(b, m, groupBy) + rest) == Ok((Ref(m, DimensionSpec(groupBy, [], [])), rest))
  {
    var close := [Op(CloseBracket)] + rest;
    var cats := CategoryToks(b, groupBy) + close;
    var open := [Op(OpenBracket)] + cats;
    assert RefToks(b, m, groupBy) + rest == [NameTok(b, MeasureName(b, m))] + open;
    NameRead(b, MeasureName(b, m), open);
    CategoriesRead(b, groupBy, close);
    assert open[1..] == cats && close[1..] == rest;
    BracketsRead(b, m, [NameTok(b, MeasureName(b, m))] + open, open, groupBy, close);
  }

  lemma BracketsRead(b: Book, m: MeasureId, toks: seq<Tok>, open: seq<Tok>, groupBy: seq<CategoryId>, close: seq<Tok>)
    requires FindsMeasure(b, m) && ParseName(toks) == Ok((MeasureName(b, m), open))
    requires HeadIs(open, Op(OpenBracket)) && HeadIs(close, Op(CloseBracket))
    requires ParseCategories(b, open[1..]) == Ok((groupBy, close))
    ensures ParseMeasureRef(b, toks) == Ok((Ref(m, DimensionSpec(groupBy, [], [])), close[1..]))
  {
  }

  lemma StepRef(b: Book, m: MeasureId, spec: DimensionSpec, rest: seq<Tok>, d: nat)
    requires Legible(b, Ref(m, spec), true) && Stops(rest, 10)
    ensures ReadsBack(b, 10, Ref(m, spec), rest, d)
  {
    var toks := RefToks(b, m, spec.groupBy) + rest;
    MeasureRefRead(b, m, spec.groupBy, rest);
    assert spec == DimensionSpec(spec.groupBy, [], []);
    NameIsPrimary(b, m, spec.groupBy, rest, d);
    PrimaryStands(b, toks, d);
  }

  lemma {:induction false} NameIsPrimary(b: Book, m: MeasureId, groupBy: seq<CategoryId>, rest: seq<Tok>, d: nat)
    requires Stops(rest, 10)
    ensures var toks := RefToks(b, m, groupBy) + rest;
            ParsePrimary(b, toks, d) == if d + 1 > b.maxNest then Err(NestedTooDeeply) else ParseMeasureRef(b, toks)
  {
    var name := MeasureName(b, m);
    var toks := RefToks(b, m, groupBy) + rest;
    assert toks[0] == NameTok(b, name);
    assert groupBy == [] ==> toks[1..] == rest;
    assert groupBy != [] ==> toks[1] == Op(OpenBracket);
    if IsBare(b.reader.cls, name) {
      assert KEYWORDS[4] == "TRUE" && KEYWORDS[5] == "FALSE";
      BareIsPrimary(b, name, toks, d);
    }
  }

  lemma BareIsPrimary(b: Book, word: string, toks: seq<Tok>, d: nat)
    requires HeadIs(toks, Ident(word)) && !HeadIs(toks[1..], Op(Arrow)) && !HeadIs(toks[1..], Op(Open))
    requires !EqIgnoreAsciiCase(word, "TRUE") && !EqIgnoreAsciiCase(word, "FALSE")
    ensures ParsePrimary(b, toks, d) == if d + 1 > b.maxNest then Err(NestedTooDeeply) else ParseMeasureRef(b, toks)
  {
  }

  // ----- calls -----

  ghost predicate ArgsRead(b: Book, args: seq<Expr>, kinds: nat -> ParamKind, rest: seq<Tok>, d: nat) {
    Reads(ParseArgs(b, kinds, ListToks(b, args) + rest, d), Ok(Args(args, NO_CLAUSE, rest)),
          d + NestAll(args) <= b.maxNest && DepthAll(args) <= b.maxDepth, d + NestAll(args) > b.maxNest)
  }

  /** A call is read once its arguments are. */
  lemma {:induction false} StepCall(b: Book, f: FuncId, args: seq<Expr>, kinds: nat -> ParamKind, rest: seq<Tok>, d: nat)
    requires Reducing(b, f).None? && KindsTaken(b, f, |args|, true) == Some(kinds) && Stops(rest, 10)
    requires ArgsRead(b, args, kinds, rest, d + 1)
    ensures ReadsBack(b, 10, Call(f, args), rest, d)
  {
    var toks := Toks(b, Call(f, args)) + rest;
    var list := ParseArgs(b, kinds, ListToks(b, args) + rest, d + 1);
    var called := ParseCalled(b, CalledName(b, f), toks, d + 1);
    CallSpelled(CalledName(b, f), ListToks(b, args), rest);
    assert toks == [Ident(CalledName(b, f)), Op(Open)] + ListToks(b, args) + rest;
    CalledIsRead(b, f, args, kinds, toks, d + 1);
    CalledIsPrimary(b, CalledName(b, f), toks, d);
    PrimaryStands(b, toks, d);
    CallOutcome(b, f, args, rest, d, list, called, ParsePrimary(b, toks, d), ParseAt(b, 10, toks, d));
  }

  lemma CallSpelled(word: string, list: seq<Tok>, rest: seq<Tok>)
    ensures var toks := [Ident(word), Op(Open)] + list + rest;
            |toks| >= 2 && toks[0] == Ident(word) && toks[1] == Op(Open) && toks[2..] == list + rest
  {
    assert [Ident(word), Op(Open)] + list + rest == [Ident(word)] + ([Op(Open)] + (list + rest));
  }

  lemma CalledIsPrimary(b: Book, word: string, toks: seq<Tok>, d: nat)
    requires |toks| >= 2 && toks[0] == Ident(word) && toks[1] == Op(Open)
    ensures ParsePrimary(b, toks, d) == if d + 1 > b.maxNest then Err(NestedTooDeeply) else ParseCalled(b, word, toks, d + 1)
  {
    assert toks[1..][0] == toks[1];
  }

  /** Which call a name makes. */
  lemma {:induction false} CalledIsRead(b: Book, f: FuncId, args: seq<Expr>, kinds: nat -> ParamKind, toks: seq<Tok>, d: nat)
    requires |toks| >= 2 && KindsTaken(b, f, |args|, true) == Some(kinds)
    ensures var r := ParseArgs(b, kinds, toks[2..], d);
            var called := ParseCalled(b, CalledName(b, f), toks, d);
            && (r.Err? ==> called.Err?)
            && (r.Ok? && r.value.exprs == args && r.value.clause == NO_CLAUSE ==>
                  called == Ok((Expr.Call(f, args), r.value.rest)))
  {
  }

  lemma CallOutcome(b: Book, f: FuncId, args: seq<Expr>, rest: seq<Tok>, d: nat,
                    list: Result<Args, ParseError>, called: Parsed, primary: Parsed, r: Parsed)
    requires Reads(list, Ok(Args(args, NO_CLAUSE, rest)),
                   d + 1 + NestAll(args) <= b.maxNest && DepthAll(args) <= b.maxDepth, d + 1 + NestAll(args) > b.maxNest)
    requires list.Err? ==> called.Err?
    requires list == Ok(Args(args, NO_CLAUSE, rest)) ==> called == Ok((Expr.Call(f, args), rest))
    requires primary == if d + 1 > b.maxNest then Err(NestedTooDeeply) else called
    requires (primary.Err? ==> r.Err?) && (primary.Ok? && Stops(primary.value.1, 10) ==> r == primary)
    requires Stops(rest, 10)
    ensures var e := Call(f, args); Reads(r, Ok((e, rest)), HasRoom(b, e, d, Nest(e)), d + Nest(e) > b.maxNest)
  {
  }
}
