/** Formulas whose texts stand for them, as the parser puts them together. */
module FaithfulFormulas {
  import opened Results
  import opened Formulas
  import opened Texts
  import opened Placeholders
  import opened LambdaParams
  import opened Functions
  import opened Tokenizer
  import opened Parser
  import opened Printer
  import opened PrintedTokens
  import opened PrintedText
  import opened Aggregations

  // ----- what a text is read against -----

  /** A number or a date is written as it prints, and no name is empty. */
  ghost predicate GoodTok(r: Reader, tok: Tok) {
    match tok
    case Num(n) => LiteralReads(r, Number(n))
    case Date(stamp) => LiteralReads(r, DateTime(stamp))
    case Ident(w) => w != []
    case Quoted(name) => name != []
    case _ => true
  }

  ghost predicate GoodToks(r: Reader, toks: seq<Tok>) {
    forall tok :: tok in toks ==> GoodTok(r, tok)
  }

  /** What a number reads as reads as itself, and what a date reads as reads as
      itself or not at all. */
  ghost predicate GoodLiterals(r: Reader) {
    && (forall raw: string :: r.number(raw).Some? ==> LiteralReads(r, Number(r.number(raw).value)))
    && (forall raw: string :: r.date(raw).Some? ==> LiteralReads(r, DateTime(r.date(raw).value)))
  }

  /** The name lookups find only what has the name, and no measure has the id of
      a fold's placeholder. */
  ghost predicate GoodNames(b: Book) {
    && (forall n: string :: n != [] && b.measureNamed(n).Some? ==>
          var m := b.measureNamed(n).value; m in b.measures && b.measures[m] == n && LambdaSlotOf(m).None?)
    && (forall n: string :: n != [] && b.categoryNamed(n).Some? ==>
          var c := b.categoryNamed(n).value; c in b.categories && b.categories[c] == n)
  }

  /** The table of functions gives every plain function and every aggregation
      its own id and name, below the ids of named LAMBDAs, and a name that can be called. */
  ghost predicate GoodFunctions(r: Reader) {
    && (forall w: string :: Callable(r.functions, w).Some? ==> GoodFunction(r, w, Callable(r.functions, w).value))
    && (forall w: string :: Aggregation(r.functions, w).Some? ==> GoodAggregation(r, w, Aggregation(r.functions, w).value))
  }

  ghost predicate GoodName(r: Reader, w: string, def: FnDef) {
    && ById(r.functions, def.id) == Some(def) && NamedLambdaOf(def.id).None? && !IsReserved(def.id)
    && IsCallName(r.cls, def.name, 0, 0) && !IsWordOfGrammar(def.name)
    && (!IsSpecialForm(w) ==> !IsSpecialForm(def.name))
  }

  ghost predicate GoodFunction(r: Reader, w: string, def: FnDef) {
    && GoodName(r, w, def) && Callable(r.functions, def.name) == Some(def)
    && forall i: nat :: CallKinds(def, Aggregation(r.functions, w).Some?)(i)
                     == CallKinds(def, Aggregation(r.functions, def.name).Some?)(i)
  }

  ghost predicate GoodAggregation(r: Reader, w: string, def: FnDef) {
    GoodName(r, w, def) && Aggregation(r.functions, def.name) == Some(def)
  }

  /** A LAMBDA is found by its name, in any case, and its id leaves room for its calls' ids. */
  ghost predicate GoodLambdas(b: Book) {
    forall w: string :: b.lambdaNamed(w).Some? ==>
      var id := b.lambdaNamed(w).value;
      && id in b.lambdas && EqIgnoreAsciiCase(b.lambdas[id].name, w) && b.lambdaNamed(b.lambdas[id].name) == Some(id)
      && NamedLambdaOf(NamedLambdaCall(id)) == Some(id)
  }

  ghost predicate GoodBook(b: Book) {
    && GoodReader(b.reader) && GoodLiterals(b.reader) && GoodFunctions(b.reader) && GoodNames(b) && GoodLambdas(b)
    && LiteralReads(b.reader, Number("100")) && forall n: string :: LiteralReads(b.reader, Number(b.hundredth(n)))
  }

  // ----- formulas whose texts stand for them -----

  /** The formula is no clause and nothing reduced already, and if it prints it is legible. */
  predicate Faithful(b: Book, e: Expr) {
    IsPlain(e) && (Print(b, e).Some? ==> Legible(b, e, false))
  }

  lemma UnaryIsFaithful(b: Book, op: UnaryOp, a: Expr)
    requires Faithful(b, a)
    ensures Faithful(b, Unary(op, a))
  {
    assert Print(b, Unary(op, a)).Some? ==> Child(b, a, Prec(Unary(op, a))).Some?;
  }

  lemma BinaryIsFaithful(b: Book, op: BinaryOp, l: Expr, r: Expr)
    requires Faithful(b, l) && Faithful(b, r)
    ensures Faithful(b, Binary(op, l, r))
  {
    var p := Prec(Binary(op, l, r));
    assert Print(b, Binary(op, l, r)).Some? ==> Child(b, l, LeftMin(op, p)).Some? && Child(b, r, RightMin(op, p)).Some?;
  }

  // ----- calls -----

  /** Arguments as read: categories where they belong, and faithful formulas. */
  predicate FaithfulArgs(b: Book, es: seq<Expr>, kinds: nat -> ParamKind, i: nat) {
    es == [] ||
    ((if kinds(i).TakesCategory? then es[0].Category? && FindsCategory(b, es[0].category)
      else Faithful(b, es[0]) && (kinds(i).TakesReading? ==> es[0].Ref?))
     && FaithfulArgs(b, es[1..], kinds, i + 1))
  }

  lemma {:induction false} PrintedArgsAreLegible(b: Book, es: seq<Expr>, kinds: nat -> ParamKind, i: nat)
    requires FaithfulArgs(b, es, kinds, i) && PrintList(b, es).Some?
    ensures LegibleArgs(b, es, kinds, i, false)
  {
    if es != [] {
      assert Print(b, es[0]).Some?;
      PrintedArgsAreLegible(b, es[1..], kinds, i + 1);
    }
  }

  lemma {:induction false} SameKinds(b: Book, args: seq<Expr>, kinds: nat -> ParamKind, kinds': nat -> ParamKind, i: nat)
    requires (forall j: nat :: kinds(j) == kinds'(j)) && LegibleArgs(b, args, kinds, i, false)
    ensures LegibleArgs(b, args, kinds', i, false)
    decreases |args|
  {
    if args != [] {
      SameKinds(b, args[1..], kinds, kinds', i + 1);
    }
  }

  lemma PlainCallIsFaithful(b: Book, word: string, def: FnDef, es: seq<Expr>)
    requires GoodFunctions(b.reader) && Callable(b.reader.functions, word) == Some(def) && !IsSpecialForm(word)
    requires def.Accepts(|es|) && FaithfulArgs(b, es, CallKinds(def, Aggregation(b.reader.functions, word).Some?), 0)
    ensures Faithful(b, Call(def.id, es))
  {
    assert GoodFunction(b.reader, word, def);
    var kinds := CallKinds(def, Aggregation(b.reader.functions, word).Some?);
    var kinds' := CallKinds(def, Aggregation(b.reader.functions, def.name).Some?);
    if Print(b, Call(def.id, es)).Some? {
      PrintedArgsAreLegible(b, es, kinds, 0);
      SameKinds(b, es, kinds, kinds', 0);
      PlainCallIsLegible(b, def, es);
    }
  }

  lemma PlainCallIsLegible(b: Book, def: FnDef, es: seq<Expr>)
    requires Reducing(b, def.id).None? && NamedLambdaOf(def.id).None? && ById(b.reader.functions, def.id) == Some(def)
    requires Callable(b.reader.functions, def.name) == Some(def) && !IsSpecialForm(def.name) && !IsReserved(def.id)
    requires IsCallName(b.reader.cls, def.name, 0, 0) && !IsWordOfGrammar(def.name) && def.Accepts(|es|)
    requires LegibleArgs(b, es, CallKinds(def, Aggregation(b.reader.functions, def.name).Some?), 0, false)
    ensures Legible(b, Call(def.id, es), false)
  {
    assert KindsTaken(b, def.id, |es|, false) == Some(CallKinds(def, Aggregation(b.reader.functions, def.name).Some?));
  }

  /** Which function a word calls does not depend on its case. */
  lemma {:induction false} CallableInAnyCase(fs: seq<FnDef>, v: string, w: string)
    requires EqIgnoreAsciiCase(v, w)
    ensures Callable(fs, v) == Callable(fs, w)
  {
    if fs != [] {
      CallableInAnyCase(fs[1..], v, w);
      SameCalled(fs[0], v, w);
    }
  }

  lemma SameCalled(def: FnDef, v: string, w: string)
    requires EqIgnoreAsciiCase(v, w)
    ensures def.IsCalled(v) == def.IsCalled(w)
  {
    assert forall s: string :: EqIgnoreAsciiCase(s, v) == EqIgnoreAsciiCase(s, w);
  }

  lemma LambdaCallIsFaithful(b: Book, id: U32, word: string, es: seq<Expr>)
    requires GoodLambdas(b) && b.lambdaNamed(word) == Some(id) && id in b.lambdas && Callable(b.reader.functions, word).None?
    requires KindsOf(b.lambdas[id]).Some? && |es| == |b.lambdas[id].params|
    requires FaithfulArgs(b, es, LambdaKinds(KindsOf(b.lambdas[id]).value), 0)
    ensures Faithful(b, Call(NamedLambdaCall(id), es))
  {
    var f := NamedLambdaCall(id);
    CallableInAnyCase(b.reader.functions, b.lambdas[id].name, word);
    if Print(b, Call(f, es)).Some? {
      PrintedArgsAreLegible(b, es, LambdaKinds(KindsOf(b.lambdas[id]).value), 0);
      assert KindsTaken(b, f, |es|, false) == Some(LambdaKinds(KindsOf(b.lambdas[id]).value));
    }
  }

  // ----- aggregations -----

  predicate FaithfulClause(b: Book, clause: Clause) {
    && (clause.cats.Some? ==> FindsList(b, clause.cats.value))
    && (clause.into == [] || FindsList(b, clause.into))
    && (clause.window.Some? ==> clause.cats.Some? && |clause.cats.value| == 1)
    && (clause.window.Some? ==>
          ReadableBound(b.reader, clause.window.value.0) && ReadableBound(b.reader, clause.window.value.1))
    && (clause.pred.Some? ==> Faithful(b, clause.pred.value))
  }

  lemma PartIsLegible(b: Book, a: Expr, e: Expr, reduced: bool)
    requires Bare(a, reduced) == e && PrintPart(b, a, reduced).Some? && Faithful(b, e)
    ensures LegiblePart(b, a, reduced, false)
  {
    if reduced {
      assert e == Ref(a.measure, DimensionSpec(a.spec.groupBy, [], []));
      assert Print(b, e).Some?;
    }
  }

  lemma FirstPartPrints(b: Book, def: FnDef, args: seq<Expr>, i: nat, at: nat, over: string, into: string)
    requires args != [] && !IsMarker(args[0]) && PrintParts(b, def, args, i, at, over, into).Some?
    ensures PrintPart(b, args[0], def.Reduced(i, args[0])).Some?
    ensures Parts(args[1..]) != [] ==> PrintParts(b, def, args[1..], i + 1, at, over, into).Some?
  {
  }

  lemma {:induction false} PartsAreLegible(b: Book, def: FnDef, args: seq<Expr>, es: seq<Expr>, i: nat, at: nat,
                                           over: string, into: string)
    requires Covers(def, args, es, i) && (es != [] ==> PrintParts(b, def, args, i, at, over, into).Some?)
    requires forall j :: 0 <= j < |es| ==> Faithful(b, es[j])
    ensures LegibleParts(b, def, args, i, at, false, false)
    decreases |args|
  {
    if es != [] {
      FirstCovered(b, def, args, es, i, at, over, into);
      PartsAreLegible(b, def, args[1..], es[1..], i + 1, at, over, into);
      PartThenParts(b, def, args, i, at);
    } else if args != [] {
      PartsAreLegible(b, def, args[1..], [], i, at, over, into);
      PartThenParts(b, def, args, i, at);
    }
  }

  lemma {:induction false} FirstCovered(b: Book, def: FnDef, args: seq<Expr>, es: seq<Expr>, i: nat, at: nat, over: string, into: string)
    requires Covers(def, args, es, i) && es != [] && PrintParts(b, def, args, i, at, over, into).Some? && Faithful(b, es[0])
    ensures !IsMarker(args[0]) && LegiblePart(b, args[0], def.Reduced(i, args[0]), false)
    ensures Covers(def, args[1..], es[1..], i + 1)
    ensures es[1..] != [] ==> PrintParts(b, def, args[1..], i + 1, at, over, into).Some?
  {
    assert !IsMarker(args[0]) && Bare(args[0], def.Reduced(i + 0, args[0])) == es[0];
    FirstPartPrints(b, def, args, i, at, over, into);
    PartIsLegible(b, args[0], es[0], def.Reduced(i, args[0]));
    CoversRest(def, args, es, i);
    BareOfCovered(def, args[1..], es[1..], i + 1);
  }

  lemma {:induction false} PartThenParts(b: Book, def: FnDef, args: seq<Expr>, i: nat, at: nat)
    requires args != []
    requires if IsMarker(args[0]) then LegibleParts(b, def, args[1..], i, at, false, false)
             else LegiblePart(b, args[0], def.Reduced(i, args[0]), false) && LegibleParts(b, def, args[1..], i + 1, at, false, false)
    ensures LegibleParts(b, def, args, i, at, false, false)
  {
  }

  lemma {:induction false} AggregationIsFaithful(b: Book, word: string, def: FnDef, es: seq<Expr>, clause: Clause)
    requires GoodFunctions(b.reader) && Aggregation(b.reader.functions, word) == Some(def) && !IsSpecialForm(word)
    requires (forall i :: 0 <= i < |es| ==> Faithful(b, es[i])) && FaithfulClause(b, clause)
    requires FinishAggregation(def, es, clause).Ok?
    ensures Faithful(b, FinishAggregation(def, es, clause).value)
  {
    var args := OverAll(def, es, clause) + Markers(clause);
    assert GoodAggregation(b.reader, word, def);
    if Print(b, Expr.Call(def.id, args)).Some? {
      ClausesAreLegible(b, def, es, clause);
      assert CallsAggregation(b, def, false);
    }
  }

  lemma {:induction false} ClausesAreLegible(b: Book, def: FnDef, es: seq<Expr>, clause: Clause)
    requires Reducing(b, def.id) == Some(def) && FinishAggregation(def, es, clause).Ok?
    requires (forall i :: 0 <= i < |es| ==> Faithful(b, es[i])) && FaithfulClause(b, clause)
    requires Print(b, Expr.Call(def.id, OverAll(def, es, clause) + Markers(clause))).Some?
    ensures LegibleClauses(b, def, OverAll(def, es, clause) + Markers(clause), false, false)
  {
    var args := OverAll(def, es, clause) + Markers(clause);
    var over, into, list := AggregationTexts(b, def, args);
    FinishedFrom(def, es, clause, args);
    PartsOfFinished(def, es, clause);
    SharedIsOver(def, es, clause);
    FinishedCovers(def, es, clause);
    PartsAreLegible(b, def, args, es, 0, PartAt(def, args), over, into);
    if clause.pred.Some? {
      assert Print(b, clause.pred.value).Some?;
    }
  }
}
