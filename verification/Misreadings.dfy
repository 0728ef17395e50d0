/** What the parser makes of all the tokens of a legible formula, by induction on
    it: the formula itself exactly where nothing in it leads the parser astray. */
module Misreadings {
  import opened Results
  import opened Formulas
  import opened Texts
  import opened LambdaParams
  import opened Functions
  import opened Tokenizer
  import opened Parser
  import opened Printer
  import opened PrintedTokens
  import opened PrintedClauses
  import opened ReadingBack
  import opened Aggregations
  import opened MisreadingSteps

  /** What the parser makes of a legible formula's tokens at its own level. */
  lemma {:induction false} GoesOwn(b: Book, e: Expr, rest: seq<Tok>, d: nat)
    requires Legible(b, e, false) && Stops(rest, Prec(e))
    ensures Goes(ParseAt(b, Prec(e), Toks(b, e) + rest, d), e, rest, Legible(b, e, true))
    decreases e, 1
  {
    if Legible(b, e, true) {
      ReadsOwn(b, e, rest, d);
      GoodGoes(b, Prec(e), e, rest, d);
    } else if e.Unary? {
      GoesChild(b, e.arg, Prec(e), rest, d + 1);
      StepUnary(b, e.uop, e.arg, rest, d);
    } else if e.Binary? {
      GoesBinary(b, e.bop, e.left, e.right, rest, d);
    } else {
      GoesCall(b, e.func, e.args, rest, d);
    }
  }

  lemma {:induction false} GoesBinary(b: Book, op: BinaryOp, l: Expr, r: Expr, rest: seq<Tok>, d: nat)
    requires var e := Binary(op, l, r); Legible(b, e, false) && Stops(rest, Prec(e))
    ensures var e := Binary(op, l, r); Goes(ParseAt(b, Prec(e), Toks(b, e) + rest, d), e, rest, Legible(b, e, true))
    decreases Binary(op, l, r), 0, 3
  {
    if IsChainLevel(Prec(Binary(op, l, r))) {
      GoesChain(b, op, l, r, rest, d);
    } else if op == Pow {
      GoesPower(b, l, r, rest, d);
    } else {
      GoesComparison(b, op, l, r, rest, d);
    }
  }

  lemma {:induction false} GoesPower(b: Book, l: Expr, r: Expr, rest: seq<Tok>, d: nat)
    requires Legible(b, l, false) && Legible(b, r, false) && Stops(rest, 9)
    ensures var e := Binary(Pow, l, r); Goes(ParseAt(b, 9, Toks(b, e) + rest, d), e, rest, Legible(b, e, true))
    decreases Binary(Pow, l, r), 0, 2
  {
    PowerStops(ChildToks(b, r, 8), rest);
    GoesChild(b, l, 10, [Op(Power)] + ChildToks(b, r, 8) + rest, d);
    MinusContinuesNothing(rest);
    GoesChild(b, r, 8, rest, d + 1);
    StepPowerGoes(b, l, r, rest, d);
  }

  lemma {:induction false} GoesComparison(b: Book, op: BinaryOp, l: Expr, r: Expr, rest: seq<Tok>, d: nat)
    requires Prec(Binary(op, l, r)) == 4 && Legible(b, l, false) && Legible(b, r, false) && Stops(rest, 4)
    ensures var e := Binary(op, l, r); Goes(ParseAt(b, 4, Toks(b, e) + rest, d), e, rest, Legible(b, e, true))
    decreases Binary(op, l, r), 0, 2
  {
    OperatorStops(op, [OpTok(op)] + ChildToks(b, r, 5) + rest, 5);
    GoesChild(b, l, 5, [OpTok(op)] + ChildToks(b, r, 5) + rest, d);
    GoesChild(b, r, 5, rest, d);
    StepComparisonGoes(b, op, l, r, rest, d);
  }

  lemma {:induction false} GoesAt(b: Book, e: Expr, level: nat, rest: seq<Tok>, d: nat)
    requires 1 <= level <= Prec(e) && Legible(b, e, false) && Stops(rest, level)
    ensures Goes(ParseAt(b, level, Toks(b, e) + rest, d), e, rest, Legible(b, e, true))
    decreases e, 2, 0
  {
    StopsTighter(rest, level, Prec(e));
    GoesOwn(b, e, rest, d);
    Head(b, e, rest, false);
    LoosenTo(b, level, Prec(e), Toks(b, e) + rest, d);
    LooserGoes(ParseAt(b, Prec(e), Toks(b, e) + rest, d), ParseAt(b, level, Toks(b, e) + rest, d), level, e, rest, Legible(b, e, true));
  }

  lemma StopsTighter(rest: seq<Tok>, level: nat, from: nat)
    requires level <= from && Stops(rest, level)
    ensures Stops(rest, from)
  {
  }

  lemma LooserGoes(tight: Parsed, loose: Parsed, level: nat, e: Expr, rest: seq<Tok>, good: bool)
    requires Goes(tight, e, rest, good) && Stops(rest, level)
    requires (tight.Err? ==> loose.Err?) && (tight.Ok? && NoOperator(tight.value.1, level) ==> loose == tight)
    ensures Goes(loose, e, rest, good)
  {
  }

  lemma {:induction false} GoesChild(b: Book, e: Expr, min: nat, rest: seq<Tok>, d: nat)
    requires 1 <= min <= 10 && Legible(b, e, false) && Stops(rest, min)
    ensures Goes(ParseAt(b, min, ChildToks(b, e, min) + rest, d), e, rest, Legible(b, e, true))
    decreases e, 3
  {
    if Prec(e) < min {
      MarkStops([Op(Close)] + rest);
      GoesAt(b, e, 1, [Op(Close)] + rest, d + 1);
      StepInParens(b, e, min, rest, d);
    } else {
      GoesAt(b, e, min, rest, d);
    }
  }

  /** A chain's own links, up to whatever it goes on with. */
  lemma {:induction false} GoesLinks(b: Book, op: BinaryOp, l: Expr, r: Expr, rest: seq<Tok>, d: nat)
    requires var e := Binary(op, l, r); Legible(b, e, false) && IsChainLevel(Prec(e)) && Stops(rest, Prec(e) + 1)
    ensures var e := Binary(op, l, r); GoesOn(b, Prec(e), ParseAt(b, Prec(e), Toks(b, e) + rest, d), e, rest, d, Legible(b, e, true))
    decreases Binary(op, l, r), 0, 0
  {
    var level := Prec(Binary(op, l, r));
    var tail := [OpTok(op)] + ChildToks(b, r, level + 1) + rest;
    OperatorStops(op, tail, level + 1);
    GoesOperand(b, l, level, tail, d);
    GoesChild(b, r, level + 1, rest, d);
    BinaryToks(b, op, l, r, rest);
    LinksGo(b, op, l, r, rest, d);
  }

  lemma {:induction false} LinksGo(b: Book, op: BinaryOp, l: Expr, r: Expr, rest: seq<Tok>, d: nat)
    requires IsChainLevel(Prec(Binary(op, l, r)))
    requires var level := Prec(Binary(op, l, r)); var tail := [OpTok(op)] + ChildToks(b, r, level + 1) + rest;
             GoesOn(b, level, ParseAt(b, level, ChildToks(b, l, level) + tail, d), l, tail, d, Legible(b, l, true))
    requires var level := Prec(Binary(op, l, r));
             Goes(ParseAt(b, level + 1, ChildToks(b, r, level + 1) + rest, d), r, rest, Legible(b, r, true))
    ensures var e := Binary(op, l, r); GoesOn(b, Prec(e), ParseAt(b, Prec(e), Toks(b, e) + rest, d), e, rest, d, Legible(b, e, true))
  {
    var level := Prec(Binary(op, l, r));
    var tail := [OpTok(op)] + ChildToks(b, r, level + 1) + rest;
    BinaryToks(b, op, l, r, rest);
    TailOf(OpTok(op), ChildToks(b, r, level + 1), rest);
    ChainGoesOn(b, op, l, r, ParseAt(b, level, ChildToks(b, l, level) + tail, d), tail, rest, d, Legible(b, l, true), Legible(b, r, true));
  }

  lemma {:induction false} GoesOperand(b: Book, e: Expr, level: nat, rest: seq<Tok>, d: nat)
    requires IsChainLevel(level) && Legible(b, e, false) && Stops(rest, level + 1)
    ensures GoesOn(b, level, ParseAt(b, level, ChildToks(b, e, level) + rest, d), e, rest, d, Legible(b, e, true))
    decreases e, 4
  {
    if Prec(e) == level {
      GoesLinks(b, e.bop, e.left, e.right, rest, d);
    } else {
      GoesChild(b, e, level + 1, rest, d);
      StepOperandGoes(b, e, level, rest, d);
    }
  }

  lemma {:induction false} GoesChain(b: Book, op: BinaryOp, l: Expr, r: Expr, rest: seq<Tok>, d: nat)
    requires var e := Binary(op, l, r); Legible(b, e, false) && IsChainLevel(Prec(e)) && Stops(rest, Prec(e))
    ensures var e := Binary(op, l, r); Goes(ParseAt(b, Prec(e), Toks(b, e) + rest, d), e, rest, Legible(b, e, true))
    decreases Binary(op, l, r), 0, 1
  {
    var e := Binary(op, l, r);
    StopsTighter(rest, Prec(e), Prec(e) + 1);
    GoesLinks(b, op, l, r, rest, d);
    ChainGoes(b, Prec(e), ParseAt(b, Prec(e), Toks(b, e) + rest, d), e, rest, d, Legible(b, e, true));
  }

  lemma {:induction false} ChainGoes(b: Book, level: nat, r: Parsed, e: Expr, rest: seq<Tok>, d: nat, good: bool)
    requires 1 <= level < 10 && Stops(rest, level) && GoesOn(b, level, r, e, rest, d, good)
    ensures Goes(r, e, rest, good)
  {
    if r.Ok? && !(!good && IsStuck(r.value.1)) {
      var x :| IsReadAs(x, e, good) && r == ParseChain(b, level, x, rest, d);
      ChainEnds(b, level, x, rest, d);
    }
  }

  lemma {:induction false} GoesCall(b: Book, f: FuncId, args: seq<Expr>, rest: seq<Tok>, d: nat)
    requires var e := Call(f, args); Legible(b, e, false) && !Legible(b, e, true) && Stops(rest, 10)
    ensures Goes(ParseAt(b, 10, Toks(b, Call(f, args)) + rest, d), Call(f, args), rest, false)
    decreases Call(f, args), 0
  {
    if d + 1 > b.maxNest {
      NoRoom(b, Toks(b, Call(f, args)) + rest, d);
    } else if Reducing(b, f).Some? {
      AggregationIsLegible(b, f, args, false);
      GoesAggregation(b, Reducing(b, f).value, args, rest, d);
    } else {
      CallIsLegible(b, f, args, false);
      GoesPlainCall(b, f, args, KindsTaken(b, f, |args|, false).value, rest, d);
    }
  }

  lemma {:induction false} GoesPlainCall(b: Book, f: FuncId, args: seq<Expr>, kinds: nat -> ParamKind, rest: seq<Tok>, d: nat)
    requires Reducing(b, f).None? && KindsTaken(b, f, |args|, false) == Some(kinds) && LegibleArgs(b, args, kinds, 0, false)
    requires Stops(rest, 10) && d + 1 <= b.maxNest && !Legible(b, Call(f, args), true)
    ensures Goes(ParseAt(b, 10, Toks(b, Call(f, args)) + rest, d), Call(f, args), rest, false)
    decreases args, 4
  {
    if CalledTok(b, f).Quoted? {
      QuotedGoes(b, f, args, rest, d);
    } else {
      UnquotedTakes(b, f, |args|);
      GoesArgs(b, args, kinds, rest, d + 1);
      StepCallGoes(b, f, args, kinds, rest, d);
    }
  }

  lemma {:induction false} UnquotedTakes(b: Book, f: FuncId, n: nat)
    requires !CalledTok(b, f).Quoted?
    ensures KindsTaken(b, f, n, true) == KindsTaken(b, f, n, false)
  {
  }

  lemma {:induction false} GoesArgs(b: Book, args: seq<Expr>, kinds: nat -> ParamKind, rest: seq<Tok>, d: nat)
    requires LegibleArgs(b, args, kinds, 0, false)
    ensures ArgsGo(ParseArgs(b, kinds, ListToks(b, args) + rest, d), args, rest, LegibleArgs(b, args, kinds, 0, true))
    decreases args, 3
  {
    if args == [] {
      assert (ListToks(b, args) + rest)[1..] == rest;
    } else {
      GoesArgsFrom(b, args, kinds, 0, rest, d);
      ListHead(b, args, kinds, rest, false);
      ListStart(b, kinds, ListToks(b, args) + rest, d);
    }
  }

  lemma {:induction false} GoesArgsFrom(b: Book, args: seq<Expr>, kinds: nat -> ParamKind, i: nat, rest: seq<Tok>, d: nat)
    requires args != [] && LegibleArgs(b, args, kinds, i, false)
    ensures ArgsGo(ParseArgsFrom(b, kinds, i, NO_CLAUSE, ListToks(b, args) + rest, d), args, rest, LegibleArgs(b, args, kinds, i, true))
    decreases args, 2
  {
    ArgsByFirst(b, args, kinds, i);
    if |args| == 1 {
      GoesArg(b, args[0], kinds(i), i, [Op(Close)] + rest, d);
      StepLastGoes(b, args, kinds, i, rest, d);
    } else {
      GoesArg(b, args[0], kinds(i), i, [Op(Comma)] + (ListToks(b, args[1..]) + rest), d);
      GoesArgsFrom(b, args[1..], kinds, i + 1, rest, d);
      StepMoreGoes(b, args, kinds, i, rest, d, LegibleArgs(b, args[1..], kinds, i + 1, true));
    }
  }

  lemma {:induction false} ArgsByFirst(b: Book, args: seq<Expr>, kinds: nat -> ParamKind, i: nat)
    requires args != []
    ensures LegibleArgs(b, args, kinds, i, true) <==> GoodArg(b, args[0], kinds(i)) && LegibleArgs(b, args[1..], kinds, i + 1, true)
    ensures |args| == 1 ==> LegibleArgs(b, args[1..], kinds, i + 1, true)
    ensures LegibleArgs(b, args, kinds, i, false) ==> LegibleArgs(b, args[1..], kinds, i + 1, false)
    ensures LegibleArgs(b, args, kinds, i, false) ==>
              if kinds(i).TakesCategory? then args[0].Category? && FindsCategory(b, args[0].category)
              else Legible(b, args[0], false) && (kinds(i).TakesReading? ==> args[0].Ref?)
  {
  }

  lemma {:induction false} GoesArg(b: Book, a: Expr, kind: ParamKind, i: nat, rest: seq<Tok>, d: nat)
    requires HeadIs(rest, Op(Comma)) || HeadIs(rest, Op(Close))
    requires if kind.TakesCategory? then a.Category? && FindsCategory(b, a.category)
             else Legible(b, a, false) && (kind.TakesReading? ==> a.Ref?)
    ensures Goes(ParseArg(b, kind, i, Toks(b, a) + rest, d), a, rest, GoodArg(b, a, kind))
    decreases a, 5
  {
    if kind.TakesCategory? {
      CategoryArgGoes(b, a.category, kind, i, rest, d);
    } else {
      MarkStops(rest);
      GoesAt(b, a, 1, rest, d);
      ExprArgGoes(b, a, kind, i, rest, d);
    }
  }

  // ----- aggregations -----

  lemma {:induction false} GoesPart(b: Book, a: Expr, reduced: bool, rest: seq<Tok>, d: nat)
    requires LegiblePart(b, a, reduced, false) && Stops(rest, 1)
    ensures PartGoes(ParseAt(b, 1, Toks(b, a) + rest, d), a, reduced, rest, LegiblePart(b, a, reduced, true))
    decreases a, 5
  {
    if reduced {
      ReducedGoes(b, a, rest, d);
    } else {
      GoesAt(b, a, 1, rest, d);
      PlainPartGoes(b, a, rest, d);
    }
  }

  /** The parts after the one with the `OVER`. */
  lemma {:induction false} RestOfParts(b: Book, def: FnDef, args: seq<Expr>, i: nat, at: nat, over: seq<Tok>, into: seq<CategoryId>, c: Clause,
                                       kinds: nat -> ParamKind, q: nat, rest: seq<Tok>, d: nat, open: bool)
    requires LegibleParts(b, def, args, i, at, false, false) && Parts(args) != [] && i > at
    requires c.cats.Some? && c.into == [] && (into == [] || FindsList(b, into)) && forall j: nat :: kinds(j) == TakesValue
    ensures RestGoes(ParseArgsFrom(b, kinds, q, c, PartToks(b, args, i, at, over, IntoToks(b, into)) + rest, d),
                     c, into, BareParts(def, args, i), rest, LegibleParts(b, def, args, i, at, open, true))
    decreases args, 2
  {
    if IsMarker(args[0]) {
      SkipMarker(b, def, args, i, at, over, IntoToks(b, into), false, false);
      SkipMarker(b, def, args, i, at, over, IntoToks(b, into), open, true);
      MarkerIsSkipped(b, def, args, i, at, open);
      RestOfParts(b, def, args[1..], i, at, over, into, c, kinds, q, rest, d, open);
    } else {
      PartIsLegible(b, def, args, i, at, false, false);
      TailIs(b, args, i, at, over, into, rest);
      GoesPart(b, args[0], def.Reduced(i, args[0]), PartTail(b, args, i, at, over, IntoToks(b, into)) + rest, d);
      if Parts(args[1..]) != [] {
        RestOfParts(b, def, args[1..], i + 1, at, over, into, c, kinds, q + 1, rest, d, open);
      }
      StepRest(b, def, args, i, at, over, into, c, kinds, q, rest, d, LegiblePart(b, args[0], def.Reduced(i, args[0]), true),
               LegibleParts(b, def, args[1..], i + 1, at, open, true));
      PartsByFirst(b, def, args, i, at, open);
    }
  }

  lemma {:induction false} MarkerIsSkipped(b: Book, def: FnDef, args: seq<Expr>, i: nat, at: nat, open: bool)
    requires args != [] && IsMarker(args[0])
    ensures LegibleParts(b, def, args, i, at, open, true) == LegibleParts(b, def, args[1..], i, at, open, true)
  {
  }

  /** Parts are legible if the first one and the others are, and no category follows an open list. */
  lemma {:induction false} PartsByFirst(b: Book, def: FnDef, args: seq<Expr>, i: nat, at: nat, open: bool)
    requires args != [] && !IsMarker(args[0])
    ensures LegiblePart(b, args[0], def.Reduced(i, args[0]), true)
            && (i == at && open && Parts(args[1..]) != [] ==> !CategoryAhead(b, Toks(b, Parts(args[1..])[0])))
            && (Parts(args[1..]) != [] ==> LegibleParts(b, def, args[1..], i + 1, at, open, true))
            ==> LegibleParts(b, def, args, i, at, open, true)
  {
    if Parts(args[1..]) == [] {
      NoPartsAreLegible(b, def, args[1..], i + 1, at, open);
    }
  }

  lemma {:induction false} NoPartsAreLegible(b: Book, def: FnDef, args: seq<Expr>, i: nat, at: nat, open: bool)
    requires Parts(args) == []
    ensures LegibleParts(b, def, args, i, at, open, true)
  {
    if args != [] {
      NoPartsAreLegible(b, def, args[1..], i, at, open);
    }
  }

  /** The parts up to the one with the `OVER`, and those after it. */
  lemma {:induction false} GoesParts(b: Book, def: FnDef, args: seq<Expr>, i: nat, at: nat, over: seq<Tok>, clause: Clause,
                                     kinds: nat -> ParamKind, rest: seq<Tok>, d: nat)
    requires LegibleParts(b, def, args, i, at, false, false) && i <= at < i + |Parts(args)| && FindsClause(b, clause)
    requires over == OverToks(b, clause) + WhereToks(b, clause.pred) && forall j: nat :: kinds(j) == TakesValue
    requires clause.pred.Some? ==> PredGoes(b, clause.pred.value, IsOpen(clause), d)
    ensures PartsGo(ParseArgsFrom(b, kinds, i, NO_CLAUSE, PartToks(b, args, i, at, over, IntoToks(b, clause.into)) + rest, d),
                    BareParts(def, args, i), clause, rest, LegibleParts(b, def, args, i, at, IsOpen(clause), true) && GoodPred(b, clause))
    decreases args, 2
  {
    var into := IntoToks(b, clause.into);
    if IsMarker(args[0]) {
      SkipMarker(b, def, args, i, at, over, into, false, false);
      MarkerIsSkipped(b, def, args, i, at, IsOpen(clause));
      GoesParts(b, def, args[1..], i, at, over, clause, kinds, rest, d);
    } else {
      PartIsLegible(b, def, args, i, at, false, false);
      PartsByFirst(b, def, args, i, at, IsOpen(clause));
      if i < at {
        GoesBefore(b, def, args, i, at, over, clause, kinds, rest, d);
      } else if Parts(args[1..]) != [] && IsOpen(clause)
                && CategoryAhead(b, PartToks(b, args[1..], i + 1, at, over, into) + rest) {
        GoesAbsorbed(b, def, args, i, at, over, clause, kinds, rest, d);
      } else {
        GoesAtOver(b, def, args, i, at, over, clause, kinds, rest, d);
      }
    }
  }

  /** The condition's outcome, whatever ends it. */
  ghost predicate PredGoes(b: Book, p: Expr, open: bool, d: nat) {
    forall tail: seq<Tok> :: Ends(b, open, tail) ==> Goes(ParseAt(b, 1, Toks(b, p) + tail, d), p, tail, Legible(b, p, true))
  }

  lemma {:induction false} GoesPred(b: Book, p: Expr, open: bool, d: nat)
    requires Legible(b, p, false)
    ensures PredGoes(b, p, open, d)
    decreases p, 3
  {
    forall tail: seq<Tok> | Ends(b, open, tail)
      ensures Goes(ParseAt(b, 1, Toks(b, p) + tail, d), p, tail, Legible(b, p, true))
    {
      EndStops(b, open, tail);
      GoesAt(b, p, 1, tail, d);
    }
  }

  lemma {:induction false} GoesBefore(b: Book, def: FnDef, args: seq<Expr>, i: nat, at: nat, over: seq<Tok>, clause: Clause,
                                      kinds: nat -> ParamKind, rest: seq<Tok>, d: nat)
    requires args != [] && !IsMarker(args[0]) && LegiblePart(b, args[0], def.Reduced(i, args[0]), false)
    requires LegibleParts(b, def, args[1..], i + 1, at, false, false) && i < at < i + |Parts(args)| && FindsClause(b, clause)
    requires over == OverToks(b, clause) + WhereToks(b, clause.pred) && forall j: nat :: kinds(j) == TakesValue
    requires clause.pred.Some? ==> PredGoes(b, clause.pred.value, IsOpen(clause), d)
    ensures PartsGo(ParseArgsFrom(b, kinds, i, NO_CLAUSE, PartToks(b, args, i, at, over, IntoToks(b, clause.into)) + rest, d),
                    BareParts(def, args, i), clause, rest,
                    LegiblePart(b, args[0], def.Reduced(i, args[0]), true)
                    && LegibleParts(b, def, args[1..], i + 1, at, IsOpen(clause), true) && GoodPred(b, clause))
    decreases args, 1
  {
    var into := IntoToks(b, clause.into);
    FirstOfParts(def, args, i);
    TailIs(b, args, i, at, over, clause.into, rest);
    GoesPart(b, args[0], def.Reduced(i, args[0]), PartTail(b, args, i, at, over, into) + rest, d);
    GoesParts(b, def, args[1..], i + 1, at, over, clause, kinds, rest, d);
    StepBefore(b, def, args, i, at, over, clause, kinds, rest, d, LegiblePart(b, args[0], def.Reduced(i, args[0]), true),
               LegibleParts(b, def, args[1..], i + 1, at, IsOpen(clause), true) && GoodPred(b, clause));
  }

  lemma {:induction false} StepBefore(b: Book, def: FnDef, args: seq<Expr>, i: nat, at: nat, over: seq<Tok>, clause: Clause,
                                      kinds: nat -> ParamKind, rest: seq<Tok>, d: nat, good: bool, good': bool)
    requires args != [] && !IsMarker(args[0]) && i != at && kinds(i) == TakesValue && Parts(args[1..]) != []
    requires var tail := PartTail(b, args, i, at, over, IntoToks(b, clause.into)) + rest;
             PartGoes(ParseAt(b, 1, Toks(b, args[0]) + tail, d), args[0], def.Reduced(i, args[0]), tail, good)
    requires PartsGo(ParseArgsFrom(b, kinds, i + 1, NO_CLAUSE, PartToks(b, args[1..], i + 1, at, over, IntoToks(b, clause.into)) + rest, d),
                     BareParts(def, args[1..], i + 1), clause, rest, good')
    ensures PartsGo(ParseArgsFrom(b, kinds, i, NO_CLAUSE, PartToks(b, args, i, at, over, IntoToks(b, clause.into)) + rest, d),
                    BareParts(def, args, i), clause, rest, good && good')
  {
    var into := IntoToks(b, clause.into);
    var tail := PartTail(b, args, i, at, over, into) + rest;
    var toks := Toks(b, args[0]) + tail;
    PartSpelled(b, args, i, at, over, into, rest);
    assert [] + tail == tail;
    assert PartToks(b, args, i, at, over, into) + rest == toks;
    TailIs(b, args, i, at, over, clause.into, rest);
    FirstOfParts(def, args, i);
    BeforeOnward(b, kinds, i, toks, tail, d, args[0], def.Reduced(i, args[0]), BareParts(def, args[1..], i + 1), clause, rest, good, good');
  }

  lemma {:induction false} BeforeOnward(b: Book, kinds: nat -> ParamKind, i: nat, toks: seq<Tok>, tail: seq<Tok>, d: nat, a: Expr, reduced: bool,
                                        es: seq<Expr>, clause: Clause, rest: seq<Tok>, good: bool, good': bool)
    requires kinds(i) == TakesValue && HeadIs(tail, Op(Comma)) && !IsKeyword(tail, "OVER")
    requires PartGoes(ParseAt(b, 1, toks, d), a, reduced, tail, good)
    requires PartsGo(ParseArgsFrom(b, kinds, i + 1, NO_CLAUSE, tail[1..], d), es, clause, rest, good')
    ensures PartsGo(ParseArgsFrom(b, kinds, i, NO_CLAUSE, toks, d), [Bare(a, reduced)] + es, clause, rest, good && good')
  {
    OnwardIs(b, kinds, i, NO_CLAUSE, toks, d);
    ValueArgIs(b, kinds, i, toks, d);
    var first := ParseAt(b, 1, toks, d);
    if first.Ok? && !good && IsStuck(first.value.1) {
      StuckArgs(b, kinds, i, first.value.0, NO_CLAUSE, first.value.1, d);
    } else if first.Ok? {
      AfterPartStays(b, NO_CLAUSE, tail, d);
      CommaOnward(b, kinds, i, first.value.0, NO_CLAUSE, tail, d);
      MorePartsGo(ParseArgsFrom(b, kinds, i + 1, NO_CLAUSE, tail[1..], d), ParseArgsFrom(b, kinds, i, NO_CLAUSE, toks, d),
                  first.value.0, es, clause, rest, Bare(a, reduced), good, good');
    }
  }

  lemma MorePartsGo(more: Result<Args, ParseError>, r: Result<Args, ParseError>, x: Expr, es: seq<Expr>, clause: Clause,
                    rest: seq<Tok>, e: Expr, good: bool, good': bool)
    requires PartsGo(more, es, clause, rest, good') && IsPlain(x) && (x == e ==> good)
    requires (more.Err? ==> r.Err?) && (more.Ok? ==> r == Ok(Args([x] + more.value.exprs, more.value.clause, more.value.rest)))
    ensures PartsGo(r, [e] + es, clause, rest, good && good')
  {
    if r.Ok? {
      assert r.value.exprs[0] == x && r.value.exprs[1..] == more.value.exprs;
      assert ([e] + es)[0] == e && ([e] + es)[1..] == es;
      forall k | 0 <= k < |r.value.exprs|
        ensures IsPlain(r.value.exprs[k])
      {
        if k > 0 {
          assert r.value.exprs[k] == more.value.exprs[k - 1];
        }
      }
    }
  }

  lemma {:induction false} GoesAtOver(b: Book, def: FnDef, args: seq<Expr>, i: nat, at: nat, over: seq<Tok>, clause: Clause,
                                      kinds: nat -> ParamKind, rest: seq<Tok>, d: nat)
    requires args != [] && !IsMarker(args[0]) && LegiblePart(b, args[0], def.Reduced(i, args[0]), false) && i == at
    requires LegibleParts(b, def, args[1..], i + 1, at, false, false) && FindsClause(b, clause)
    requires over == OverToks(b, clause) + WhereToks(b, clause.pred) && forall j: nat :: kinds(j) == TakesValue
    requires clause.pred.Some? ==> PredGoes(b, clause.pred.value, IsOpen(clause), d)
    requires Parts(args[1..]) != [] && IsOpen(clause) ==>
               !CategoryAhead(b, PartToks(b, args[1..], i + 1, at, over, IntoToks(b, clause.into)) + rest)
    ensures PartsGo(ParseArgsFrom(b, kinds, i, NO_CLAUSE, PartToks(b, args, i, at, over, IntoToks(b, clause.into)) + rest, d),
                    BareParts(def, args, i), clause, rest, LegibleParts(b, def, args, i, at, IsOpen(clause), true) && GoodPred(b, clause))
    decreases args, 1
  {
    var into := IntoToks(b, clause.into);
    var tail := PartTail(b, args, i, at, over, into) + rest;
    var good := LegiblePart(b, args[0], def.Reduced(i, args[0]), true);
    var good' := LegibleParts(b, def, args[1..], i + 1, at, IsOpen(clause), true);
    AtOverEnds(b, args, i, at, over, clause, rest);
    GoesPart(b, args[0], def.Reduced(i, args[0]), over + tail, d);
    StepOverGoes(b, clause, tail, d);
    if Parts(args[1..]) != [] {
      forall c: Clause | c.cats.Some? && c.into == []
        ensures RestGoes(ParseArgsFrom(b, kinds, i + 1, c, PartToks(b, args[1..], i + 1, at, over, into) + rest, d),
                         c, clause.into, BareParts(def, args[1..], i + 1), rest, good')
      {
        RestOfParts(b, def, args[1..], i + 1, at, over, clause.into, c, kinds, i + 1, rest, d, IsOpen(clause));
      }
      NotAhead(b, def, args, i, at, over, clause, rest);
    }
    StepAt(b, def, args, i, at, over, clause, kinds, rest, d, good, good');
    PartsByFirst(b, def, args, i, at, IsOpen(clause));
  }

  lemma {:induction false} NotAhead(b: Book, def: FnDef, args: seq<Expr>, i: nat, at: nat, over: seq<Tok>, clause: Clause, rest: seq<Tok>)
    requires args != [] && Parts(args[1..]) != [] && LegibleParts(b, def, args[1..], i + 1, at, false, false)
    requires StartsClause(over, "OVER")
    ensures CategoryAhead(b, Toks(b, Parts(args[1..])[0])) ==>
              CategoryAhead(b, PartToks(b, args[1..], i + 1, at, over, IntoToks(b, clause.into)) + rest)
  {
    var into := IntoToks(b, clause.into);
    var more := FirstPart(b, args[1..], i + 1, at, over, into);
    PartStarts(b, def, args[1..], i + 1, at, over, into, rest, false, false);
    AheadBeforeMore(b, Toks(b, Parts(args[1..])[0]), more, rest);
  }

  lemma AheadBeforeMore(b: Book, first: seq<Tok>, more: seq<Tok>, rest: seq<Tok>)
    requires first != [] && more != [] && more[0] in {Op(Comma), Op(Close), Ident("OVER"), Ident("INTO")}
    ensures CategoryAhead(b, first + more + rest) == CategoryAhead(b, first)
  {
    assert first + more + rest == first + (more + rest);
    AheadStays(b, first, more + rest);
  }

  lemma {:induction false} AtOverEnds(b: Book, args: seq<Expr>, i: nat, at: nat, over: seq<Tok>, clause: Clause, rest: seq<Tok>)
    requires args != [] && over == OverToks(b, clause) + WhereToks(b, clause.pred)
    requires Parts(args[1..]) != [] && IsOpen(clause) ==>
               !CategoryAhead(b, PartToks(b, args[1..], i + 1, at, over, IntoToks(b, clause.into)) + rest)
    ensures var tail := PartTail(b, args, i, at, over, IntoToks(b, clause.into)) + rest;
            Ends(b, IsOpen(clause), tail) && Stops(over + tail, 1) && StartsClause(over, "OVER")
  {
    var tail := PartTail(b, args, i, at, over, IntoToks(b, clause.into)) + rest;
    TailIs(b, args, i, at, over, clause.into, rest);
    OverIsNoParenthesis(b, clause, tail);
    if Parts(args[1..]) == [] {
      assert tail[0] == if clause.into == [] then Op(Close) else Ident("INTO");
    }
    assert (over + tail)[0] == Ident("OVER") && |"OVER"| != |"OR"| && |"OVER"| != |"AND"|;
  }

  /** Categories that a list takes with it from the parts after it. */
  lemma {:induction false} AbsorbParts(b: Book, def: FnDef, args: seq<Expr>, i: nat, at: nat, over: seq<Tok>, into: seq<CategoryId>,
                                       kinds: nat -> ParamKind, rest: seq<Tok>, d: nat)
    requires LegibleParts(b, def, args, i, at, false, false) && Parts(args) != [] && i > at
    requires (into == [] || FindsList(b, into)) && forall j: nat :: kinds(j) == TakesValue
    requires CategoryAhead(b, PartToks(b, args, i, at, over, IntoToks(b, into)) + rest)
    ensures Absorbs(b, kinds, [Op(Comma)] + (PartToks(b, args, i, at, over, IntoToks(b, into)) + rest), rest, d)
    decreases args, 3
  {
    var intoToks := IntoToks(b, into);
    if IsMarker(args[0]) {
      SkipMarker(b, def, args, i, at, over, intoToks, false, false);
      AbsorbParts(b, def, args[1..], i, at, over, into, kinds, rest, d);
    } else {
      var part, tail := Toks(b, args[0]), PartTail(b, args, i, at, over, intoToks) + rest;
      PartIsLegible(b, def, args, i, at, false, false);
      PartSecondIsQuiet(b, args[0], def.Reduced(i, args[0]));
      if |part| == 1 {
        AbsorbTail(b, def, args, i, at, over, into, kinds, rest, d);
      }
      LaterPartSpelled(b, args, i, at, over, intoToks, rest);
      AbsorbStep(b, part, tail, kinds, rest, d);
    }
  }

  lemma LaterPartSpelled(b: Book, args: seq<Expr>, i: nat, at: nat, over: seq<Tok>, into: seq<Tok>, rest: seq<Tok>)
    requires args != [] && !IsMarker(args[0]) && i > at
    ensures PartToks(b, args, i, at, over, into) + rest == Toks(b, args[0]) + (PartTail(b, args, i, at, over, into) + rest)
  {
    PartSpelled(b, args, i, at, over, into, rest);
    var tail := PartTail(b, args, i, at, over, into) + rest;
    assert [] + tail == tail;
  }

  lemma {:induction false} AbsorbTail(b: Book, def: FnDef, args: seq<Expr>, i: nat, at: nat, over: seq<Tok>, into: seq<CategoryId>,
                                      kinds: nat -> ParamKind, rest: seq<Tok>, d: nat)
    requires args != [] && !IsMarker(args[0]) && LegibleParts(b, def, args[1..], i + 1, at, false, false) && i > at
    requires (into == [] || FindsList(b, into)) && forall j: nat :: kinds(j) == TakesValue
    ensures MoreGoes(b, kinds, PartTail(b, args, i, at, over, IntoToks(b, into)) + rest, rest, d)
    decreases args, 2
  {
    var tail := PartTail(b, args, i, at, over, IntoToks(b, into)) + rest;
    TailIs(b, args, i, at, over, into, rest);
    if Parts(args[1..]) != [] && CategoryAhead(b, tail[1..]) {
      AbsorbParts(b, def, args[1..], i + 1, at, over, into, kinds, rest, d);
      assert tail == [Op(Comma)] + tail[1..];
    } else {
      NoMoreCategories(b, tail);
      TailLands(b, def, args, i, at, over, into, kinds, rest, d);
    }
  }

  lemma NoMoreCategories(b: Book, toks: seq<Tok>)
    requires !HeadIs(toks, Op(Comma)) || !CategoryAhead(b, toks[1..])
    ensures ParseMoreCategories(b, toks) == Ok(([], toks))
  {
  }

  /** From a part's end on the list lands on `rest`. */
  lemma {:induction false} TailLands(b: Book, def: FnDef, args: seq<Expr>, i: nat, at: nat, over: seq<Tok>, into: seq<CategoryId>,
                                     kinds: nat -> ParamKind, rest: seq<Tok>, d: nat)
    requires args != [] && !IsMarker(args[0]) && LegibleParts(b, def, args[1..], i + 1, at, false, false) && i > at
    requires (into == [] || FindsList(b, into)) && forall j: nat :: kinds(j) == TakesValue
    ensures TailGoes(b, kinds, PartTail(b, args, i, at, over, IntoToks(b, into)) + rest, rest, d)
    decreases args, 1
  {
    var tail := PartTail(b, args, i, at, over, IntoToks(b, into)) + rest;
    TailIs(b, args, i, at, over, into, rest);
    forall q: nat, x: Expr, c: Clause | c.cats.Some? && c.into == [] && IsPlain(x)
      ensures Lands(Onward(b, kinds, q, x, c, tail, d), c, rest)
    {
      if Parts(args[1..]) == [] {
        LastOnward(b, kinds, q, x, c, into, rest, d);
      } else {
        RestOfParts(b, def, args[1..], i + 1, at, over, into, c, kinds, q + 1, rest, d, false);
        MoreLand(b, kinds, q, x, c, into, tail, d, BareParts(def, args[1..], i + 1), rest, LegibleParts(b, def, args[1..], i + 1, at, false, true));
      }
    }
  }

  lemma {:induction false} MoreLand(b: Book, kinds: nat -> ParamKind, q: nat, x: Expr, c: Clause, into: seq<CategoryId>, toks: seq<Tok>, d: nat,
                                    es: seq<Expr>, rest: seq<Tok>, good: bool)
    requires HeadIs(toks, Op(Comma)) && IsPlain(x)
    requires RestGoes(ParseArgsFrom(b, kinds, q + 1, c, toks[1..], d), c, into, es, rest, good)
    ensures Lands(Onward(b, kinds, q, x, c, toks, d), c, rest)
  {
    MoreOnward(b, kinds, q, x, c, into, toks, d, es, rest, x, true, good);
  }

  /** What the list takes with it makes the clause another one. */
  lemma {:induction false} GoesAbsorbed(b: Book, def: FnDef, args: seq<Expr>, i: nat, at: nat, over: seq<Tok>, clause: Clause,
                                        kinds: nat -> ParamKind, rest: seq<Tok>, d: nat)
    requires args != [] && !IsMarker(args[0]) && LegiblePart(b, args[0], def.Reduced(i, args[0]), false) && i == at
    requires LegibleParts(b, def, args[1..], i + 1, at, false, false) && Parts(args[1..]) != []
    requires FindsClause(b, clause) && IsOpen(clause) && over == OverToks(b, clause) + WhereToks(b, clause.pred)
    requires forall j: nat :: kinds(j) == TakesValue
    requires CategoryAhead(b, PartToks(b, args[1..], i + 1, at, over, IntoToks(b, clause.into)) + rest)
    ensures PartsGo(ParseArgsFrom(b, kinds, i, NO_CLAUSE, PartToks(b, args, i, at, over, IntoToks(b, clause.into)) + rest, d),
                    BareParts(def, args, i), clause, rest, false)
    decreases args, 1
  {
    var tail := PartTail(b, args, i, at, over, IntoToks(b, clause.into)) + rest;
    TailIs(b, args, i, at, over, clause.into, rest);
    OverStops(b, clause, over, tail);
    GoesPart(b, args[0], def.Reduced(i, args[0]), over + tail, d);
    assert Absorbs(b, kinds, tail, rest, d) by {
      AbsorbParts(b, def, args[1..], i + 1, at, over, clause.into, kinds, rest, d);
      assert tail == [Op(Comma)] + tail[1..];
    }
    OverThen(b, clause, tail, d);
    StepAbsorbed(b, def, args, i, at, over, clause, kinds, rest, d, LegiblePart(b, args[0], def.Reduced(i, args[0]), true));
  }

  lemma OverStops(b: Book, clause: Clause, over: seq<Tok>, tail: seq<Tok>)
    requires IsOpen(clause) && over == OverToks(b, clause) + WhereToks(b, clause.pred)
    ensures Stops(over + tail, 1) && HeadIs(over, Ident("OVER"))
  {
    OverIsNoParenthesis(b, clause, tail);
    assert |"OVER"| != |"OR"| && |"OVER"| != |"AND"|;
  }

  lemma {:induction false} StepAbsorbed(b: Book, def: FnDef, args: seq<Expr>, i: nat, at: nat, over: seq<Tok>, clause: Clause,
                                        kinds: nat -> ParamKind, rest: seq<Tok>, d: nat, good: bool)
    requires args != [] && !IsMarker(args[0]) && i == at && kinds(i) == TakesValue && FindsClause(b, clause)
    requires over == OverToks(b, clause) + WhereToks(b, clause.pred)
    requires var tail := PartTail(b, args, i, at, over, IntoToks(b, clause.into)) + rest;
             && PartGoes(ParseAt(b, 1, Toks(b, args[0]) + (over + tail), d), args[0], def.Reduced(i, args[0]), over + tail, good)
             && Absorbs(b, kinds, tail, rest, d) && TakesMore(b, clause, over, tail, d)
    ensures PartsGo(ParseArgsFrom(b, kinds, i, NO_CLAUSE, PartToks(b, args, i, at, over, IntoToks(b, clause.into)) + rest, d),
                    BareParts(def, args, i), clause, rest, false)
  {
    var tail := PartTail(b, args, i, at, over, IntoToks(b, clause.into)) + rest;
    PartSpelled(b, args, i, at, over, IntoToks(b, clause.into), rest);
    OverIsNoParenthesis(b, clause, tail);
    AbsorbedOnward(b, clause, Toks(b, args[0]) + (over + tail), over + tail, tail, kinds, i, rest, d, args[0], def.Reduced(i, args[0]), over, good,
                   BareParts(def, args, i));
  }

  lemma {:induction false} AbsorbedOnward(b: Book, clause: Clause, toks: seq<Tok>, after: seq<Tok>, tail: seq<Tok>, kinds: nat -> ParamKind, i: nat,
                                          rest: seq<Tok>, d: nat, a: Expr, reduced: bool, over: seq<Tok>, good: bool, es: seq<Expr>)
    requires kinds(i) == TakesValue && clause.cats.Some? && after == over + tail && !IsStuck(after)
    requires PartGoes(ParseAt(b, 1, toks, d), a, reduced, after, good)
    requires Absorbs(b, kinds, tail, rest, d) && TakesMore(b, clause, over, tail, d)
    ensures PartsGo(ParseArgsFrom(b, kinds, i, NO_CLAUSE, toks, d), es, clause, rest, false)
  {
    OnwardIs(b, kinds, i, NO_CLAUSE, toks, d);
    ValueArgIs(b, kinds, i, toks, d);
    var first := ParseAt(b, 1, toks, d);
    if first.Ok? {
      if IsStuck(first.value.1) {
        StuckArgs(b, kinds, i, first.value.0, NO_CLAUSE, first.value.1, d);
      } else {
        var over' := ParseOver(b, NO_CLAUSE, after, d);
        if over'.Ok? {
          var c := over'.value.0;
          assert Lands(Onward(b, kinds, i, first.value.0, c, over'.value.1, d), c, rest);
          assert |c.cats.value| > |clause.cats.value|;
        }
      }
    }
  }

  /** However the parts are read as arguments of something else, the `OVER` is met. */
  lemma {:induction false} HiddenParts(b: Book, def: FnDef, args: seq<Expr>, i: nat, at: nat, over: seq<Tok>, into: seq<CategoryId>,
                                       kinds: nat -> ParamKind, q: nat, rest: seq<Tok>, d: nat)
    requires LegibleParts(b, def, args, i, at, false, false) && i <= at < i + |Parts(args)|
    requires HeadIs(over, Ident("OVER"))
    ensures HasOver(b, kinds, q, PartToks(b, args, i, at, over, IntoToks(b, into)) + rest, d)
    decreases args, 2
  {
    var intoToks := IntoToks(b, into);
    if IsMarker(args[0]) {
      SkipMarker(b, def, args, i, at, over, intoToks, false, false);
      HiddenParts(b, def, args[1..], i, at, over, into, kinds, q, rest, d);
    } else {
      PartIsLegible(b, def, args, i, at, false, false);
      HiddenFirstPart(b, args, def.Reduced(i, args[0]), i, at, over, into, kinds, q, rest, d);
      if i < at {
        HiddenParts(b, def, args[1..], i + 1, at, over, into, kinds, q + 1, rest, d);
      }
      HiddenPartsStep(b, args, i, at, over, into, kinds, q, rest, d);
    }
  }

  lemma {:induction false} HiddenFirstPart(b: Book, args: seq<Expr>, reduced: bool, i: nat, at: nat, over: seq<Tok>, into: seq<CategoryId>,
                                           kinds: nat -> ParamKind, q: nat, rest: seq<Tok>, d: nat)
    requires args != [] && !IsMarker(args[0]) && i <= at < i + |Parts(args)| && HeadIs(over, Ident("OVER"))
    requires LegiblePart(b, args[0], reduced, false)
    ensures var after := OverHere(i, at, over) + (PartTail(b, args, i, at, over, IntoToks(b, into)) + rest);
            FirstEnds(b, kinds(q), q, Toks(b, args[0]) + after, after, d)
    decreases args, 1
  {
    AfterIs(b, args, i, at, over, into, rest);
    HiddenFirst(b, args[0], reduced, kinds(q), q, OverHere(i, at, over) + (PartTail(b, args, i, at, over, IntoToks(b, into)) + rest), d);
  }

  lemma {:induction false} HiddenPartsStep(b: Book, args: seq<Expr>, i: nat, at: nat, over: seq<Tok>, into: seq<CategoryId>,
                                           kinds: nat -> ParamKind, q: nat, rest: seq<Tok>, d: nat)
    requires args != [] && !IsMarker(args[0]) && i <= at < i + |Parts(args)| && HeadIs(over, Ident("OVER"))
    requires var after := OverHere(i, at, over) + (PartTail(b, args, i, at, over, IntoToks(b, into)) + rest);
             FirstEnds(b, kinds(q), q, Toks(b, args[0]) + after, after, d)
    requires i < at ==> HasOver(b, kinds, q + 1, PartToks(b, args[1..], i + 1, at, over, IntoToks(b, into)) + rest, d)
    ensures HasOver(b, kinds, q, PartToks(b, args, i, at, over, IntoToks(b, into)) + rest, d)
  {
    var after := OverHere(i, at, over) + (PartTail(b, args, i, at, over, IntoToks(b, into)) + rest);
    PartSpelled(b, args, i, at, over, IntoToks(b, into), rest);
    AfterIs(b, args, i, at, over, into, rest);
    HiddenStep(b, kinds, q, Toks(b, args[0]) + after, after, d);
  }

  lemma AfterIs(b: Book, args: seq<Expr>, i: nat, at: nat, over: seq<Tok>, into: seq<CategoryId>, rest: seq<Tok>)
    requires args != [] && !IsMarker(args[0]) && i <= at < i + |Parts(args)| && HeadIs(over, Ident("OVER"))
    ensures var tail := PartTail(b, args, i, at, over, IntoToks(b, into)) + rest;
            var after := OverHere(i, at, over) + tail;
            && Stops(after, 1)
            && (i == at ==> IsKeyword(after, "OVER") && !HeadIs(after, Op(Comma)))
            && (i < at ==> HeadIs(after, Op(Comma)) && after[1..] == PartToks(b, args[1..], i + 1, at, over, IntoToks(b, into)) + rest)
  {
    var tail := PartTail(b, args, i, at, over, IntoToks(b, into)) + rest;
    TailIs(b, args, i, at, over, into, rest);
    if i == at {
      assert (over + tail)[0] == Ident("OVER") && EqIgnoreAsciiCase("OVER", "OVER");
      assert |"OVER"| != |"OR"| && |"OVER"| != |"AND"|;
    } else {
      assert [] + tail == tail;
    }
  }

  lemma {:induction false} HiddenFirst(b: Book, a: Expr, reduced: bool, kind: ParamKind, q: nat, after: seq<Tok>, d: nat)
    requires LegiblePart(b, a, reduced, false) && Stops(after, 1)
    ensures FirstEnds(b, kind, q, Toks(b, a) + after, after, d)
    decreases a, 6
  {
    if kind.TakesCategory? {
      PartSecondIsQuiet(b, a, reduced);
      CategoryFirst(b, kind, q, Toks(b, a), after, d);
    } else {
      GoesPart(b, a, reduced, after, d);
      ValueFirst(b, a, reduced, kind, q, after, d);
    }
  }

  lemma {:induction false} ValueFirst(b: Book, a: Expr, reduced: bool, kind: ParamKind, q: nat, after: seq<Tok>, d: nat)
    requires !kind.TakesCategory?
    requires PartGoes(ParseAt(b, 1, Toks(b, a) + after, d), a, reduced, after, LegiblePart(b, a, reduced, true))
    ensures FirstEnds(b, kind, q, Toks(b, a) + after, after, d)
  {
  }

  lemma {:induction false} GoesAggregation(b: Book, def: FnDef, args: seq<Expr>, rest: seq<Tok>, d: nat)
    requires Reducing(b, def.id) == Some(def) && LegibleAggregation(b, def, args, false) && !Legible(b, Call(def.id, args), true)
    requires Stops(rest, 10) && d + 1 <= b.maxNest
    ensures Goes(ParseAt(b, 10, Toks(b, Call(def.id, args)) + rest, d), Call(def.id, args), rest, false)
    decreases args, 4
  {
    if Hidden(b, def) {
      GoesHidden(b, def, args, rest, d);
    } else {
      GoesShown(b, def, args, rest, d);
    }
  }

  lemma {:induction false} GoesHidden(b: Book, def: FnDef, args: seq<Expr>, rest: seq<Tok>, d: nat)
    requires Reducing(b, def.id) == Some(def) && LegibleAggregation(b, def, args, false) && Hidden(b, def) && Stops(rest, 10)
    ensures ParseAt(b, 10, Toks(b, Call(def.id, args)) + rest, d).Err?
    decreases args, 3
  {
    var clause := ClauseOf(def, args);
    var over, inner := OverToks(b, clause) + WhereToks(b, clause.pred), d + 1;
    AggregationStarts(b, def, args, rest, false);
    AggregationSpelled(b, def, args);
    OverIsNoParenthesis(b, clause, []);
    assert over + [] == over;
    forall kinds: nat -> ParamKind
      ensures HasOver(b, kinds, 0, AggregationToks(b, def, args) + rest, inner)
    {
      HiddenParts(b, def, args, 0, PartAt(def, args), over, clause.into, kinds, 0, rest, inner);
    }
    HiddenIsRefused(b, def, args, rest, d, inner);
  }

  lemma {:induction false} GoesShown(b: Book, def: FnDef, args: seq<Expr>, rest: seq<Tok>, d: nat)
    requires Reducing(b, def.id) == Some(def) && LegibleAggregation(b, def, args, false) && !Hidden(b, def)
    requires !Legible(b, Call(def.id, args), true) && Stops(rest, 10) && d + 1 <= b.maxNest
    ensures Goes(ParseAt(b, 10, Toks(b, Call(def.id, args)) + rest, d), Call(def.id, args), rest, false)
    decreases args, 3
  {
    var clause := ClauseOf(def, args);
    if clause.pred.Some? {
      GoesPred(b, clause.pred.value, IsOpen(clause), d + 1);
    }
    AggregationStarts(b, def, args, rest, false);
    AggregationSpelled(b, def, args);
    GoesParts(b, def, args, 0, PartAt(def, args), OverToks(b, clause) + WhereToks(b, clause.pred), clause,
              AggregationKinds(b, def), rest, d + 1);
    ShownIsNotGood(b, def, args);
    StepAggregationGoes(b, def, args, rest, d, false);
  }

  lemma {:induction false} ShownIsNotGood(b: Book, def: FnDef, args: seq<Expr>)
    requires Reducing(b, def.id) == Some(def) && LegibleAggregation(b, def, args, false) && !Hidden(b, def)
    requires !Legible(b, Call(def.id, args), true)
    ensures var clause := ClauseOf(def, args);
            !(LegibleParts(b, def, args, 0, PartAt(def, args), IsOpen(clause), true) && GoodPred(b, clause))
    ensures CallsAggregation(b, def, true) && SharedOver(def, Parts(args)).Some?
  {
    var clause := ClauseOf(def, args);
    assert clause.pred == Condition(args);
    if LegibleParts(b, def, args, 0, PartAt(def, args), IsOpen(clause), true) && GoodPred(b, clause) {
      assert LegibleClauses(b, def, args, IsOpen(clause), true);
      assert LegibleAggregation(b, def, args, true);
    }
  }

  /** A legible formula whose text leads the parser astray does not come back. */
  lemma MisreadTokens(b: Book, e: Expr)
    requires Legible(b, e, false) && !Legible(b, e, true)
    ensures ParseTokens(b, Toks(b, e)) != Ok(e)
  {
    GoesAt(b, e, 1, [], 0);
    assert Toks(b, e) + [] == Toks(b, e);
  }
}
