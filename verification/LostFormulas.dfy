/** Formulas that print and are not read back as themselves, wherever in them
    the trouble is. */
module LostFormulas {
  import opened Results
  import opened Formulas
  import opened LambdaParams
  import opened Functions
  import opened Tokenizer
  import opened Parser
  import opened Printer
  import opened PrintedTokens
  import opened FaithfulFormulas
  import opened TypedFormulas

  /** Whether `sub` is `e`, or an operand, an argument or a condition in it. */
  predicate Occurs(b: Book, sub: Expr, e: Expr)
    decreases e, 1
  {
    sub == e ||
    match e
    case Unary(_, a) => Occurs(b, sub, a)
    case Binary(_, l, r) => Occurs(b, sub, l) || Occurs(b, sub, r)
    case Call(f, args) =>
      (match Reducing(b, f)
       case Some(def) =>
         (Condition(args).Some? && Occurs(b, sub, Condition(args).value)) || OccursInParts(b, sub, def, args, 0)
       case None => exists i :: 0 <= i < |args| && !args[i].Category? && Occurs(b, sub, args[i]))
    case _ => false
  }

  predicate OccursInParts(b: Book, sub: Expr, def: FnDef, args: seq<Expr>, i: nat)
    decreases args, 0
  {
    args != [] &&
    if IsMarker(args[0]) then OccursInParts(b, sub, def, args[1..], i)
    else (!def.Reduced(i, args[0]) && Occurs(b, sub, args[0])) || OccursInParts(b, sub, def, args[1..], i + 1)
  }

  /** What occurs in a formula that leads to itself does so too. */
  lemma {:induction false} OccursLegible(b: Book, sub: Expr, e: Expr)
    requires Occurs(b, sub, e) && Legible(b, e, true)
    ensures Legible(b, sub, true)
    decreases e, 1
  {
    if sub != e {
      match e
      case Unary(_, a) => OccursLegible(b, sub, a);
      case Binary(_, l, r) =>
        if Occurs(b, sub, l) {
          OccursLegible(b, sub, l);
        } else {
          OccursLegible(b, sub, r);
        }
      case Call(f, args) =>
        if Reducing(b, f).Some? {
          AggregationIsLegible(b, f, args, true);
          if Condition(args).Some? && Occurs(b, sub, Condition(args).value) {
            OccursLegible(b, sub, Condition(args).value);
          } else {
            PartOccursLegible(b, sub, Reducing(b, f).value, args, 0, PartAt(Reducing(b, f).value, args),
                              IsOpen(ClauseOf(Reducing(b, f).value, args)));
          }
        } else {
          CallIsLegible(b, f, args, true);
          var i :| 0 <= i < |args| && !args[i].Category? && Occurs(b, sub, args[i]);
          ArgumentIsLegible(b, args, KindsTaken(b, f, |args|, true).value, 0, i);
          OccursLegible(b, sub, args[i]);
        }
    }
  }

  lemma {:induction false} ArgumentIsLegible(b: Book, args: seq<Expr>, kinds: nat -> ParamKind, k: nat, i: nat)
    requires LegibleArgs(b, args, kinds, k, true) && i < |args| && !args[i].Category?
    ensures Legible(b, args[i], true)
    decreases |args|
  {
    FirstArgumentIsLegible(b, args, kinds, k);
    if i > 0 {
      ArgumentIsLegible(b, args[1..], kinds, k + 1, i - 1);
      assert args[1..][i - 1] == args[i];
    }
  }

  lemma {:induction false} FirstArgumentIsLegible(b: Book, args: seq<Expr>, kinds: nat -> ParamKind, k: nat)
    requires args != [] && LegibleArgs(b, args, kinds, k, true)
    ensures args[0].Category? || Legible(b, args[0], true)
    ensures LegibleArgs(b, args[1..], kinds, k + 1, true)
  {
  }

  lemma {:induction false} PartOccursLegible(b: Book, sub: Expr, def: FnDef, args: seq<Expr>, i: nat, at: nat, open: bool)
    requires OccursInParts(b, sub, def, args, i) && LegibleParts(b, def, args, i, at, open, true)
    ensures Legible(b, sub, true)
    decreases args, 0
  {
    if IsMarker(args[0]) {
      PartOccursLegible(b, sub, def, args[1..], i, at, open);
    } else if !def.Reduced(i, args[0]) && Occurs(b, sub, args[0]) {
      OccursLegible(b, sub, args[0]);
    } else {
      PartOccursLegible(b, sub, def, args[1..], i + 1, at, open);
    }
  }

  /** One part that leads the parser astray, and the whole formula does not come back. */
  lemma LostWithItsPart(b: Book, e: Expr, sub: Expr)
    requires GoodBook(b) && Print(b, e).Some? && Occurs(b, sub, e) && !Legible(b, sub, true)
    ensures Parse(b, Print(b, e).value) != Ok(e)
  {
    ReadsBackExactly(b, e);
    if Legible(b, e, true) {
      OccursLegible(b, sub, e);
    }
  }

  /** A call of a LAMBDA whose name needs quotes, anywhere in a formula, loses it. */
  lemma QuotedCallIsLost(b: Book, e: Expr, f: FuncId, args: seq<Expr>)
    requires GoodBook(b) && Print(b, e).Some? && Occurs(b, Call(f, args), e) && CalledTok(b, f).Quoted?
    ensures Parse(b, Print(b, e).value) != Ok(e)
  {
    assert KindsTaken(b, f, |args|, true) == None;
    assert Reducing(b, f).None?;
    LostWithItsPart(b, e, Call(f, args));
  }

  /** So does a call of an aggregation that a LAMBDA hides. */
  lemma HiddenAggregationIsLost(b: Book, e: Expr, f: FuncId, args: seq<Expr>)
    requires GoodBook(b) && Print(b, e).Some? && Occurs(b, Call(f, args), e)
    requires Reducing(b, f).Some? && Hidden(b, Reducing(b, f).value)
    ensures Parse(b, Print(b, e).value) != Ok(e)
  {
    assert !CallsAggregation(b, Reducing(b, f).value, true);
    assert !LegibleAggregation(b, Reducing(b, f).value, args, true);
    LostWithItsPart(b, e, Call(f, args));
  }

  /** Whether the part after the one that `OVER` follows seems to be a further category. */
  predicate SeemsFurther(b: Book, def: FnDef, args: seq<Expr>) {
    var next := PartAt(def, args) + 1;
    IsOpen(ClauseOf(def, args)) && next < |Parts(args)| && CategoryAhead(b, Toks(b, Parts(args)[next]))
  }

  /** And an aggregation whose categories a further one seems to follow. */
  lemma CategoryAheadIsLost(b: Book, e: Expr, f: FuncId, args: seq<Expr>)
    requires GoodBook(b) && Print(b, e).Some? && Occurs(b, Call(f, args), e)
    requires Reducing(b, f).Some? && SeemsFurther(b, Reducing(b, f).value, args)
    ensures Parse(b, Print(b, e).value) != Ok(e)
  {
    if Legible(b, Call(f, args), true) {
      NoFurtherSeen(b, f, args);
      assert false;
    }
    LostWithItsPart(b, e, Call(f, args));
  }

  lemma {:induction false} NoFurtherSeen(b: Book, f: FuncId, args: seq<Expr>)
    requires Legible(b, Call(f, args), true) && Reducing(b, f).Some?
    ensures !SeemsFurther(b, Reducing(b, f).value, args)
  {
    AggregationIsLegible(b, f, args, true);
    if IsOpen(ClauseOf(Reducing(b, f).value, args)) {
      OpenPartsAreLegible(b, Reducing(b, f).value, args);
      NoFurtherPart(b, Reducing(b, f).value, args);
    }
  }

  lemma {:induction false} NoFurtherPart(b: Book, def: FnDef, args: seq<Expr>)
    requires LegibleParts(b, def, args, 0, PartAt(def, args), true, true)
    ensures !SeemsFurther(b, def, args)
  {
    if PartAt(def, args) + 1 < |Parts(args)| {
      NoneAhead(b, def, args, 0, PartAt(def, args));
    }
  }

  lemma {:induction false} OpenPartsAreLegible(b: Book, def: FnDef, args: seq<Expr>)
    requires LegibleAggregation(b, def, args, true) && IsOpen(ClauseOf(def, args))
    ensures LegibleParts(b, def, args, 0, PartAt(def, args), true, true)
  {
    assert LegibleClauses(b, def, args, true, true);
  }

  lemma {:induction false} NoneAhead(b: Book, def: FnDef, args: seq<Expr>, i: nat, at: nat)
    requires LegibleParts(b, def, args, i, at, true, true) && i <= at && at + 1 - i < |Parts(args)|
    ensures !CategoryAhead(b, Toks(b, Parts(args)[at + 1 - i]))
  {
    if IsMarker(args[0]) {
      NoneAhead(b, def, args[1..], i, at);
    } else if i < at {
      NoneAhead(b, def, args[1..], i + 1, at);
      assert Parts(args)[at + 1 - i] == Parts(args[1..])[at - i];
    } else {
      assert Parts(args)[1] == Parts(args[1..])[0];
    }
  }

  lemma WordAhead(b: Book, word: string, rest: seq<Tok>)
    requires !HeadIs(rest, Op(Open)) && !HeadIs(rest, Op(Dot))
    ensures CategoryAhead(b, [Ident(word)] + rest) <==> b.categoryNamed(word).Some? && b.measureNamed(word).None?
  {
    assert ([Ident(word)] + rest)[1..] == rest;
  }

  /** A truth value seems to be a category where one has its name, and no measure does. */
  lemma TruthSeemsCategory(b: Book, flag: bool)
    ensures var word := if flag then "TRUE" else "FALSE";
            CategoryAhead(b, Toks(b, Literal(Boolean(flag)))) <==> b.categoryNamed(word).Some? && b.measureNamed(word).None?
  {
    var word := if flag then "TRUE" else "FALSE";
    assert Toks(b, Literal(Boolean(flag))) == [Ident(word)] + [];
    WordAhead(b, word, []);
  }

  lemma {:induction false} NotIsSpelled(b: Book, a: Expr)
    requires Prec(a) >= 3
    ensures Toks(b, Unary(Not, a)) == [Ident("NOT")] + Toks(b, a)
  {
    assert ChildToks(b, a, 3) == Toks(b, a);
  }

  /** So does NOT before anything but a parenthesis. */
  lemma NotSeemsCategory(b: Book, a: Expr)
    requires Prec(a) >= 3 && !HeadIs(Toks(b, a), Op(Open)) && !HeadIs(Toks(b, a), Op(Dot))
    ensures CategoryAhead(b, Toks(b, Unary(Not, a))) <==> b.categoryNamed("NOT").Some? && b.measureNamed("NOT").None?
  {
    NotIsSpelled(b, a);
    WordAhead(b, "NOT", Toks(b, a));
  }
}
