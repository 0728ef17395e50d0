/** Every printed formula is read back, by induction on the formula. */
module ReadingBack {
  import opened Results
  import opened Formulas
  import opened LambdaParams
  import opened Functions
  import opened Tokenizer
  import opened Parser
  import opened Printer
  import opened PrintedTokens
  import opened PrintedClauses

  // ----- the whole grammar, by induction on the formula -----

  /** A printed formula is read back at its own level, or refused for its limits. */
  lemma {:induction false} ReadsOwn(b: Book, e: Expr, rest: seq<Tok>, d: nat)
    requires Legible(b, e, true) && Stops(rest, Prec(e))
    ensures ReadsBack(b, Prec(e), e, rest, d)
    decreases e, 1
  {
    match e
    case Literal(v) => StepLiteral(b, v, rest, d);
    case Ref(m, spec) => StepRef(b, m, spec, rest, d);
    case Unary(op, a) =>
      ReadsChild(b, a, Prec(e), rest, d + 1);
      if op == Neg {
        StepNeg(b, a, rest, d);
      } else {
        StepNot(b, a, rest, d);
      }
    case Binary(op, l, r) =>
      if IsChainLevel(Prec(e)) {
        OwnChain(b, op, l, r, rest, d);
      } else if op == Pow {
        OwnPower(b, l, r, rest, d);
      } else {
        OwnComparison(b, op, l, r, rest, d);
      }
    case Call(f, args) => OwnCall(b, f, args, rest, d);
  }

  lemma {:induction false} OwnPower(b: Book, l: Expr, r: Expr, rest: seq<Tok>, d: nat)
    requires Legible(b, l, true) && Legible(b, r, true) && Stops(rest, 9)
    ensures ReadsBack(b, 9, Binary(Pow, l, r), rest, d)
    decreases Binary(Pow, l, r), 0, 1
  {
    ReadsBase(b, l, r, rest, d);
    ReadsExponent(b, l, r, rest, d);
    StepPower(b, l, r, rest, d);
  }

  lemma {:induction false} ReadsBase(b: Book, l: Expr, r: Expr, rest: seq<Tok>, d: nat)
    requires Legible(b, l, true)
    ensures ChildReadsBack(b, 10, l, [Op(Power)] + ChildToks(b, r, 8) + rest, d)
    decreases Binary(Pow, l, r), 0, 0
  {
    PowerStops(ChildToks(b, r, 8), rest);
    ReadsChild(b, l, 10, [Op(Power)] + ChildToks(b, r, 8) + rest, d);
  }

  lemma {:induction false} ReadsExponent(b: Book, l: Expr, r: Expr, rest: seq<Tok>, d: nat)
    requires Legible(b, r, true) && Stops(rest, 9)
    ensures ChildReadsBack(b, 8, r, rest, d + 1)
    decreases Binary(Pow, l, r), 0, 0
  {
    MinusContinuesNothing(rest);
    ReadsChild(b, r, 8, rest, d + 1);
  }

  lemma {:induction false} OwnComparison(b: Book, op: BinaryOp, l: Expr, r: Expr, rest: seq<Tok>, d: nat)
    requires Prec(Binary(op, l, r)) == 4 && Legible(b, l, true) && Legible(b, r, true) && Stops(rest, 4)
    ensures ReadsBack(b, 4, Binary(op, l, r), rest, d)
    decreases Binary(op, l, r), 0
  {
    var tail := [OpTok(op)] + ChildToks(b, r, 5) + rest;
    assert Stops(tail, 5) by {
      OperatorStops(op, tail, 5);
    }
    ReadsChild(b, l, 5, tail, d);
    ReadsChild(b, r, 5, rest, d);
    StepComparison(b, op, l, r, rest, d);
  }

  lemma {:induction false} OwnCall(b: Book, f: FuncId, args: seq<Expr>, rest: seq<Tok>, d: nat)
    requires Legible(b, Call(f, args), true) && Stops(rest, 10)
    ensures ReadsBack(b, 10, Call(f, args), rest, d)
    decreases Call(f, args), 0
  {
    if d + 1 > b.maxNest {
      NoRoom(b, Toks(b, Call(f, args)) + rest, d);
    } else if Reducing(b, f).Some? {
      AggregationIsLegible(b, f, args, true);
      OwnAggregation(b, Reducing(b, f).value, args, rest, d);
    } else {
      CallIsLegible(b, f, args, true);
      OwnPlainCall(b, f, args, KindsTaken(b, f, |args|, true).value, rest, d);
    }
  }

  lemma {:induction false} OwnPlainCall(b: Book, f: FuncId, args: seq<Expr>, kinds: nat -> ParamKind, rest: seq<Tok>, d: nat)
    requires Reducing(b, f).None? && KindsTaken(b, f, |args|, true) == Some(kinds) && LegibleArgs(b, args, kinds, 0, true)
    requires Stops(rest, 10) && d + 1 <= b.maxNest
    ensures ReadsBack(b, 10, Call(f, args), rest, d)
    decreases args, 4
  {
    assert ArgsRead(b, args, kinds, rest, d + 1) by {
      ReadsArgs(b, args, kinds, rest, d + 1);
    }
    StepCall(b, f, args, kinds, rest, d);
  }

  lemma {:induction false} OwnAggregation(b: Book, def: FnDef, args: seq<Expr>, rest: seq<Tok>, d: nat)
    requires Reducing(b, def.id) == Some(def) && LegibleAggregation(b, def, args, true) && Stops(rest, 10) && d + 1 <= b.maxNest
    ensures ReadsBack(b, 10, Call(def.id, args), rest, d)
    decreases args, 4
  {
    var clause := ClauseOf(def, args);
    if clause.pred.Some? {
      ReadsPred(b, clause.pred.value, IsOpen(clause), d + 1);
    }
    OverIsRead(b, clause, d + 1);
    AggregationStarts(b, def, args, rest, true);
    ReadsParts(b, def, args, 0, PartAt(def, args), OverToks(b, clause) + WhereToks(b, clause.pred), clause,
               AggregationKinds(b, def), rest, d + 1);
    AggregationSpelled(b, def, args);
    StepAggregation(b, def, args, rest, d);
  }

  /** An aggregation has a part, and so does not start with its closing parenthesis. */
  lemma AggregationStarts(b: Book, def: FnDef, args: seq<Expr>, rest: seq<Tok>, strict: bool)
    requires LegibleAggregation(b, def, args, strict)
    ensures PartAt(def, args) < |Parts(args)| && !HeadIs(AggregationToks(b, def, args) + rest, Op(Close))
    ensures StartsClause(OverToks(b, ClauseOf(def, args)) + WhereToks(b, ClauseOf(def, args).pred), "OVER")
    ensures forall j: nat :: AggregationKinds(b, def)(j) == TakesValue
  {
    var clause := ClauseOf(def, args);
    var over := OverToks(b, clause) + WhereToks(b, clause.pred);
    assert over[0] == Ident("OVER");
    PartStarts(b, def, args, 0, PartAt(def, args), over, IntoToks(b, clause.into), rest, strict && IsOpen(clause), strict);
    AggregationSpelled(b, def, args);
  }

  lemma PartStarts(b: Book, def: FnDef, args: seq<Expr>, i: nat, at: nat, over: seq<Tok>, into: seq<Tok>, rest: seq<Tok>, open: bool, strict: bool)
    requires LegibleParts(b, def, args, i, at, open, strict) && Parts(args) != []
    requires StartsClause(over, "OVER") && StartsClause(into, "INTO")
    ensures Toks(b, Parts(args)[0]) != [] && !HeadIs(PartToks(b, args, i, at, over, into) + rest, Op(Close))
  {
    var more := FirstPart(b, args, i, at, over, into);
    var reduced := FirstIsLegible(b, def, args, i, at, open, strict);
    PartHead(b, Parts(args)[0], reduced, more + rest, strict);
    assert PartToks(b, args, i, at, over, into) + rest == Toks(b, Parts(args)[0]) + (more + rest);
  }

  lemma {:induction false} FirstIsLegible(b: Book, def: FnDef, args: seq<Expr>, i: nat, at: nat, open: bool, strict: bool) returns (reduced: bool)
    requires LegibleParts(b, def, args, i, at, open, strict) && Parts(args) != []
    ensures LegiblePart(b, Parts(args)[0], reduced, strict)
  {
    if IsMarker(args[0]) {
      reduced := FirstIsLegible(b, def, args[1..], i, at, open, strict);
    } else {
      reduced := def.Reduced(i, args[0]);
    }
  }

  lemma PartHead(b: Book, a: Expr, reduced: bool, rest: seq<Tok>, strict: bool)
    requires LegiblePart(b, a, reduced, strict)
    ensures Toks(b, a) != [] && !HeadIs(Toks(b, a) + rest, Op(Close))
  {
    if !reduced {
      Head(b, a, rest, strict);
    } else {
      assert Toks(b, a)[0] == NameTok(b, MeasureName(b, a.measure));
    }
  }

  lemma {:induction false} ReadsPred(b: Book, p: Expr, open: bool, d: nat)
    requires Legible(b, p, true)
    ensures PredReads(b, p, open, d)
    decreases p, 3
  {
    forall tail: seq<Tok> | Ends(b, open, tail)
      ensures ReadsBack(b, 1, p, tail, d)
    {
      EndStops(b, open, tail);
      ReadsAt(b, p, 1, tail, d);
    }
  }

  lemma NoRoom(b: Book, toks: seq<Tok>, d: nat)
    requires d + 1 > b.maxNest
    ensures ParseAt(b, 10, toks, d).Err?
  {
    PrimaryStands(b, toks, d);
  }

  lemma {:induction false} ReadsAt(b: Book, e: Expr, level: nat, rest: seq<Tok>, d: nat)
    requires 1 <= level <= Prec(e) && Legible(b, e, true) && Stops(rest, level)
    ensures ReadsBack(b, level, e, rest, d)
    decreases e, 2, 0
  {
    ReadsOwn(b, e, rest, d);
    Head(b, e, rest, true);
    LoosenTo(b, level, Prec(e), Toks(b, e) + rest, d);
  }

  lemma {:induction false} ReadsChild(b: Book, e: Expr, min: nat, rest: seq<Tok>, d: nat)
    requires 1 <= min <= 10 && Legible(b, e, true) && Stops(rest, min)
    ensures ChildReadsBack(b, min, e, rest, d)
    decreases e, 3
  {
    if Prec(e) < min {
      ReadsParens(b, e, min, rest, d);
    } else {
      ReadsAt(b, e, min, rest, d);
      assert ChildToks(b, e, min) == Toks(b, e) && NestChild(e, min) == Nest(e);
    }
  }

  lemma {:induction false} ReadsParens(b: Book, e: Expr, min: nat, rest: seq<Tok>, d: nat)
    requires 1 <= min <= 10 && Prec(e) < min && Legible(b, e, true) && Stops(rest, min)
    ensures ChildReadsBack(b, min, e, rest, d)
    decreases e, 2, 1
  {
    ReadsAt(b, e, 1, [Op(Close)] + rest, d + 1);
    StepParens(b, e, min, rest, d);
  }

  /** An operator chain's own links, up to whatever the chain goes on with. */
  lemma {:induction false} OwnLinks(b: Book, op: BinaryOp, l: Expr, r: Expr, rest: seq<Tok>, d: nat)
    requires var e := Binary(op, l, r); Legible(b, e, true) && IsChainLevel(Prec(e)) && Stops(rest, Prec(e) + 1)
    ensures var e := Binary(op, l, r);
            Reads(ParseAt(b, Prec(e), Toks(b, e) + rest, d), ParseChain(b, Prec(e), e, rest, d),
                  HasRoom(b, e, d, Nest(e)), d + Nest(e) > b.maxNest)
    decreases Binary(op, l, r), 0, 0
  {
    var level := Prec(Binary(op, l, r));
    var tail := [OpTok(op)] + ChildToks(b, r, level + 1) + rest;
    OperatorStops(op, tail, level + 1);
    ReadsOperand(b, l, level, tail, d);
    ReadsChild(b, r, level + 1, rest, d);
    StepLinks(b, op, l, r, rest, d);
  }

  lemma {:induction false} StepLinks(b: Book, op: BinaryOp, l: Expr, r: Expr, rest: seq<Tok>, d: nat)
    requires IsChainLevel(Prec(Binary(op, l, r)))
    requires var level := Prec(Binary(op, l, r)); var tail := [OpTok(op)] + ChildToks(b, r, level + 1) + rest;
             Reads(ParseAt(b, level, ChildToks(b, l, level) + tail, d), ParseChain(b, level, l, tail, d),
                   HasRoom(b, l, d, NestChild(l, level)), d + NestChild(l, level) > b.maxNest)
    requires var level := Prec(Binary(op, l, r));
             ChildReadsBack(b, level + 1, r, rest, d)
    ensures var e := Binary(op, l, r);
            Reads(ParseAt(b, Prec(e), Toks(b, e) + rest, d), ParseChain(b, Prec(e), e, rest, d),
                  HasRoom(b, e, d, Nest(e)), d + Nest(e) > b.maxNest)
  {
    var level := Prec(Binary(op, l, r));
    var tail := [OpTok(op)] + ChildToks(b, r, level + 1) + rest;
    StepLink(b, op, l, r, rest, d);
    BinaryToks(b, op, l, r, rest);
    BothRead(b, ParseAt(b, level, ChildToks(b, l, level) + tail, d), ParseChain(b, level, l, tail, d),
             ParseChain(b, level, Binary(op, l, r), rest, d), op, l, r, d);
  }

  /** Reading the operand and then the link is reading both. */
  lemma BothRead(b: Book, first: Parsed, second: Parsed, goal: Parsed, op: BinaryOp, l: Expr, r: Expr, d: nat)
    requires var e := Binary(op, l, r); var level := Prec(e);
             && IsChainLevel(level)
             && Reads(first, second, HasRoom(b, l, d, NestChild(l, level)), d + NestChild(l, level) > b.maxNest)
             && Reads(second, goal, HasRoom(b, e, d, NestChild(r, level + 1)), d + NestChild(r, level + 1) > b.maxNest)
    ensures var e := Binary(op, l, r);
            Reads(first, goal, HasRoom(b, e, d, Nest(e)), d + Nest(e) > b.maxNest)
  {
  }

  lemma {:induction false} OwnChain(b: Book, op: BinaryOp, l: Expr, r: Expr, rest: seq<Tok>, d: nat)
    requires var e := Binary(op, l, r); Legible(b, e, true) && IsChainLevel(Prec(e)) && Stops(rest, Prec(e))
    ensures ReadsBack(b, Prec(Binary(op, l, r)), Binary(op, l, r), rest, d)
    decreases Binary(op, l, r), 0, 1
  {
    OwnLinks(b, op, l, r, rest, d);
    ChainEnds(b, Prec(Binary(op, l, r)), Binary(op, l, r), rest, d);
  }

  lemma ChainEnds(b: Book, level: nat, e: Expr, rest: seq<Tok>, d: nat)
    requires 1 <= level < 10 && Stops(rest, level)
    ensures ParseChain(b, level, e, rest, d) == Ok((e, rest))
  {
  }

  /** A chain's first operand, and its own links if it is a chain of the same level. */
  lemma {:induction false} ReadsOperand(b: Book, e: Expr, level: nat, rest: seq<Tok>, d: nat)
    requires IsChainLevel(level) && Legible(b, e, true) && Stops(rest, level + 1)
    ensures Reads(ParseAt(b, level, ChildToks(b, e, level) + rest, d), ParseChain(b, level, e, rest, d),
                  HasRoom(b, e, d, NestChild(e, level)), d + NestChild(e, level) > b.maxNest)
    decreases e, 4
  {
    if Prec(e) == level {
      OwnLinks(b, e.bop, e.left, e.right, rest, d);
    } else {
      ReadsChild(b, e, level + 1, rest, d);
      StepOperand(b, e, level, rest, d);
    }
  }

  lemma {:induction false} ReadsArgs(b: Book, args: seq<Expr>, kinds: nat -> ParamKind, rest: seq<Tok>, d: nat)
    requires LegibleArgs(b, args, kinds, 0, true) && d <= b.maxNest
    ensures ArgsRead(b, args, kinds, rest, d)
    decreases args, 3
  {
    if args == [] {
      assert (ListToks(b, args) + rest)[1..] == rest;
    } else {
      ReadsArgsFrom(b, args, kinds, 0, rest, d);
      ListHead(b, args, kinds, rest, true);
    }
  }

  lemma ListHead(b: Book, args: seq<Expr>, kinds: nat -> ParamKind, rest: seq<Tok>, strict: bool)
    requires args != [] && LegibleArgs(b, args, kinds, 0, strict)
    ensures !HeadIs(ListToks(b, args) + rest, Op(Close))
  {
    if !args[0].Category? {
      Head(b, args[0], (if |args| == 1 then [Op(Close)] else [Op(Comma)] + ListToks(b, args[1..])) + rest, strict);
    }
  }

  lemma {:induction false} ReadsArgsFrom(b: Book, args: seq<Expr>, kinds: nat -> ParamKind, i: nat, rest: seq<Tok>, d: nat)
    requires args != [] && LegibleArgs(b, args, kinds, i, true) && d <= b.maxNest
    ensures Reads(ParseArgsFrom(b, kinds, i, NO_CLAUSE, ListToks(b, args) + rest, d), Ok(Args(args, NO_CLAUSE, rest)),
                  d + NestAll(args) <= b.maxNest && DepthAll(args) <= b.maxDepth, d + NestAll(args) > b.maxNest)
    decreases args, 2
  {
    if |args| == 1 {
      ReadsArg(b, args[0], kinds(i), i, [Op(Close)] + rest, d);
      StepLastArg(b, args, kinds, i, rest, d);
    } else {
      ReadsArg(b, args[0], kinds(i), i, [Op(Comma)] + (ListToks(b, args[1..]) + rest), d);
      ReadsArgsFrom(b, args[1..], kinds, i + 1, rest, d);
      StepArg(b, args, kinds, i, rest, d);
    }
  }

  lemma {:induction false} StepLastArg(b: Book, args: seq<Expr>, kinds: nat -> ParamKind, i: nat, rest: seq<Tok>, d: nat)
    requires |args| == 1
    requires var a := args[0]; var tail := [Op(Close)] + rest;
             Reads(ParseArg(b, kinds(i), i, Toks(b, a) + tail, d), Ok((a, tail)),
                   d + ArgNest(a) <= b.maxNest && Depth(a) <= b.maxDepth, d + ArgNest(a) > b.maxNest)
    ensures Reads(ParseArgsFrom(b, kinds, i, NO_CLAUSE, ListToks(b, args) + rest, d), Ok(Args(args, NO_CLAUSE, rest)),
                  d + NestAll(args) <= b.maxNest && DepthAll(args) <= b.maxDepth, d + NestAll(args) > b.maxNest)
  {
    var tail := [Op(Close)] + rest;
    assert ListToks(b, args) + rest == Toks(b, args[0]) + tail;
    assert tail[1..] == rest && args == [args[0]];
    assert NestAll(args[1..]) == 0 && DepthAll(args[1..]) == 0;
  }

  lemma {:induction false} StepArg(b: Book, args: seq<Expr>, kinds: nat -> ParamKind, i: nat, rest: seq<Tok>, d: nat)
    requires |args| > 1
    requires var a := args[0]; var tail := [Op(Comma)] + (ListToks(b, args[1..]) + rest);
             Reads(ParseArg(b, kinds(i), i, Toks(b, a) + tail, d), Ok((a, tail)),
                   d + ArgNest(a) <= b.maxNest && Depth(a) <= b.maxDepth, d + ArgNest(a) > b.maxNest)
    requires Reads(ParseArgsFrom(b, kinds, i + 1, NO_CLAUSE, ListToks(b, args[1..]) + rest, d), Ok(Args(args[1..], NO_CLAUSE, rest)),
                   d + NestAll(args[1..]) <= b.maxNest && DepthAll(args[1..]) <= b.maxDepth, d + NestAll(args[1..]) > b.maxNest)
    ensures Reads(ParseArgsFrom(b, kinds, i, NO_CLAUSE, ListToks(b, args) + rest, d), Ok(Args(args, NO_CLAUSE, rest)),
                  d + NestAll(args) <= b.maxNest && DepthAll(args) <= b.maxDepth, d + NestAll(args) > b.maxNest)
  {
    var more := ListToks(b, args[1..]) + rest;
    var tail := [Op(Comma)] + more;
    assert ListToks(b, args) + rest == Toks(b, args[0]) + tail;
    assert tail[1..] == more && args == [args[0]] + args[1..];
  }

  lemma {:induction false} ReadsArg(b: Book, a: Expr, kind: ParamKind, i: nat, rest: seq<Tok>, d: nat)
    requires HeadIs(rest, Op(Comma)) || HeadIs(rest, Op(Close))
    requires if kind.TakesCategory? then a.Category? && FindsCategory(b, a.category)
             else Legible(b, a, true) && (kind.TakesReading? ==> a.Ref?)
    requires d <= b.maxNest
    ensures Reads(ParseArg(b, kind, i, Toks(b, a) + rest, d), Ok((a, rest)),
                  d + ArgNest(a) <= b.maxNest && Depth(a) <= b.maxDepth, d + ArgNest(a) > b.maxNest)
    decreases a, 5
  {
    if kind.TakesCategory? {
      CategoryArg(b, a.category, i, rest, d);
    } else {
      MarkStops(rest);
      ReadsAt(b, a, 1, rest, d);
      ArgIs(b, kind, i, Toks(b, a) + rest, d);
      LegibleIsNoMarker(b, a, true);
    }
  }

  lemma LegibleIsNoMarker(b: Book, a: Expr, strict: bool)
    requires Legible(b, a, strict)
    ensures !IsMarker(a) && !a.Category? && ArgNest(a) == Nest(a)
  {
    if a.Call? {
      CalledIsNotReserved(b, a.func, a.args, strict);
    }
  }

  lemma CalledIsNotReserved(b: Book, f: FuncId, args: seq<Expr>, strict: bool)
    requires Legible(b, Call(f, args), strict)
    ensures !IsReserved(f)
  {
    if Reducing(b, f).Some? {
      AggregationIsLegible(b, f, args, strict);
    } else {
      CallIsLegible(b, f, args, strict);
    }
  }

  lemma ArgIs(b: Book, kind: ParamKind, i: nat, toks: seq<Tok>, d: nat)
    requires !kind.TakesCategory?
    ensures var e, r := ParseAt(b, 1, toks, d), ParseArg(b, kind, i, toks, d);
            (e.Err? ==> r.Err?) && (e.Ok? && (kind.TakesReading? ==> e.value.0.Ref?) ==> r == e)
  {
  }

  lemma CategoryArg(b: Book, c: CategoryId, i: nat, rest: seq<Tok>, d: nat)
    requires !HeadIs(rest, Op(Dot)) && FindsCategory(b, c)
    ensures ParseArg(b, TakesCategory, i, Toks(b, Category(c)) + rest, d) == Ok((Category(c), rest))
  {
    NameRead(b, CategoryName(b, c), rest);
  }

  // ----- the parts of an aggregation -----

  lemma {:induction false} ReadsPart(b: Book, a: Expr, reduced: bool, rest: seq<Tok>, d: nat)
    requires LegiblePart(b, a, reduced, true) && Stops(rest, 1)
    ensures PartReads(b, a, reduced, rest, d)
    decreases a, 5
  {
    if reduced {
      ReducedPart(b, a.measure, a.spec, rest, d);
    } else {
      ReadsAt(b, a, 1, rest, d);
    }
  }

  lemma PartIsNoCategory(b: Book, a: Expr, reduced: bool, strict: bool)
    requires LegiblePart(b, a, reduced, strict)
    ensures !a.Category?
  {
  }

  lemma ReducedPart(b: Book, m: MeasureId, spec: DimensionSpec, rest: seq<Tok>, d: nat)
    requires FindsReference(b, m, spec.groupBy) && spec.except == [] && Stops(rest, 1)
    ensures PartReads(b, Ref(m, spec), true, rest, d)
  {
    var e := Ref(m, spec.(over := []));
    StepRef(b, m, e.spec, rest, d);
    Head(b, e, rest, true);
    LoosenTo(b, 1, 10, Toks(b, e) + rest, d);
  }

  /** The parts of an aggregation, its clauses among them, are read back as the bare parts and the clauses. */
  lemma {:induction false} ReadsParts(b: Book, def: FnDef, args: seq<Expr>, i: nat, at: nat, over: seq<Tok>, clause: Clause,
                                      kinds: nat -> ParamKind, rest: seq<Tok>, d: nat)
    requires LegibleParts(b, def, args, i, at, IsOpen(clause), true) && Parts(args) != [] && at < i + |Parts(args)|
    requires OverReads(b, over, clause, d) && StartsClause(over, "OVER") && FindsClause(b, clause)
    requires forall j: nat :: kinds(j) == TakesValue
    ensures PartsRead(b, def, args, i, at, over, clause, kinds, rest, d)
    decreases args, 2
  {
    if IsMarker(args[0]) {
      SkipMarker(b, def, args, i, at, over, IntoToks(b, clause.into), IsOpen(clause), true);
      ReadsParts(b, def, args[1..], i, at, over, clause, kinds, rest, d);
    } else {
      var into := IntoToks(b, clause.into);
      ReadsFirstPart(b, def, args, i, at, over, into, IsOpen(clause), rest, d);
      PartIsLegible(b, def, args, i, at, IsOpen(clause), true);
      if Parts(args[1..]) == [] {
        StepLastPart(b, def, args, i, at, over, clause, kinds, rest, d);
      } else {
        ReadsParts(b, def, args[1..], i + 1, at, over, clause, kinds, rest, d);
        PartStarts(b, def, args[1..], i + 1, at, over, into, rest, IsOpen(clause), true);
        StepPart(b, def, args, i, at, over, clause, kinds, rest, d);
      }
    }
  }

  lemma {:induction false} ReadsFirstPart(b: Book, def: FnDef, args: seq<Expr>, i: nat, at: nat, over: seq<Tok>, into: seq<Tok>,
                                          open: bool, rest: seq<Tok>, d: nat)
    requires args != [] && !IsMarker(args[0]) && LegibleParts(b, def, args, i, at, open, true)
    requires StartsClause(over, "OVER") && StartsClause(into, "INTO")
    ensures PartReads(b, args[0], def.Reduced(i, args[0]), OverHere(i, at, over) + (PartTail(b, args, i, at, over, into) + rest), d)
    ensures !args[0].Category?
    decreases args, 1
  {
    AfterPart(b, args, i, at, over, into, rest);
    PartIsLegible(b, def, args, i, at, open, true);
    PartIsNoCategory(b, args[0], def.Reduced(i, args[0]), true);
    ReadsPart(b, args[0], def.Reduced(i, args[0]), OverHere(i, at, over) + (PartTail(b, args, i, at, over, into) + rest), d);
  }

  lemma SkipMarker(b: Book, def: FnDef, args: seq<Expr>, i: nat, at: nat, over: seq<Tok>, into: seq<Tok>, open: bool, strict: bool)
    requires args != [] && IsMarker(args[0])
    ensures PartToks(b, args, i, at, over, into) == PartToks(b, args[1..], i, at, over, into)
    ensures Parts(args) == Parts(args[1..]) && BareParts(def, args, i) == BareParts(def, args[1..], i)
    ensures LegibleParts(b, def, args, i, at, open, strict) ==> LegibleParts(b, def, args[1..], i, at, open, strict)
  {
  }

  lemma PartIsLegible(b: Book, def: FnDef, args: seq<Expr>, i: nat, at: nat, open: bool, strict: bool)
    requires args != [] && !IsMarker(args[0]) && LegibleParts(b, def, args, i, at, open, strict)
    ensures LegiblePart(b, args[0], def.Reduced(i, args[0]), strict)
    ensures LegibleParts(b, def, args[1..], i + 1, at, open, strict) && |Parts(args)| == 1 + |Parts(args[1..])|
    ensures i == at && open && Parts(args[1..]) != [] ==> !CategoryAhead(b, Toks(b, Parts(args[1..])[0]))
  {
  }
}
