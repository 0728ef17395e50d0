/** The parentheses the printer writes are needed: without them an operand
    would not be read as itself where it stands. */
module NeededParentheses {
  import opened Results
  import opened Formulas
  import opened Tokenizer
  import opened Parser
  import opened Printer
  import opened PrintedTokens
  import opened ReadingBack

  /** A looser rule that succeeds reads at least as far as a tighter one. */
  lemma {:induction false} ReadsFurther(b: Book, level: nat, from: nat, toks: seq<Tok>, d: nat)
    requires 1 <= level <= from <= 10
    requires level <= 3 < from ==> !IsKeyword(toks, "NOT")
    requires level <= 8 < from ==> !HeadIs(toks, Op(Minus))
    ensures var r, s := ParseAt(b, from, toks, d), ParseAt(b, level, toks, d);
            r.Ok? && s.Ok? ==> |s.value.1| <= |r.value.1|
    ensures ParseAt(b, from, toks, d).Err? ==> ParseAt(b, level, toks, d).Err?
    decreases from - level
  {
    if level < from {
      ReadsFurther(b, level + 1, from, toks, d);
      OneLevelFurther(b, level, toks, d);
    }
  }

  lemma OneLevelFurther(b: Book, level: nat, toks: seq<Tok>, d: nat)
    requires 1 <= level < 10
    requires level == 3 ==> !IsKeyword(toks, "NOT")
    requires level == 8 ==> !HeadIs(toks, Op(Minus))
    ensures var r, s := ParseAt(b, level + 1, toks, d), ParseAt(b, level, toks, d);
            (r.Err? ==> s.Err?) && (r.Ok? && s.Ok? ==> |s.value.1| <= |r.value.1|)
  {
  }

  // ----- the operand an operator starts with -----

  /** The rule takes something and leaves more than `rest`. */
  ghost predicate StopsAhead(b: Book, level: nat, toks: seq<Tok>, d: nat, rest: seq<Tok>)
    requires 1 <= level <= 10
  {
    var s := ParseAt(b, level, toks, d);
    s.Ok? && |s.value.1| > |rest|
  }

  /** The rule above an operator's own stops before the operator. */
  lemma {:induction false} FirstOperand(b: Book, op: BinaryOp, l: Expr, r: Expr, rest: seq<Tok>, d: nat)
    requires var e := Binary(op, l, r); Legible(b, e, true) && HasRoom(b, e, d, Nest(e))
    ensures var e := Binary(op, l, r); StopsAhead(b, Prec(e) + 1, Toks(b, e) + rest, d, rest)
    decreases l
  {
    var level := Prec(Binary(op, l, r));
    var tail := [OpTok(op)] + ChildToks(b, r, RightMin(op, level)) + rest;
    BinaryToks(b, op, l, r, rest);
    LeftFits(b, op, l, r, d);
    if IsChainLevel(level) && Prec(l) == level {
      FirstOperand(b, l.bop, l.left, l.right, tail, d);
      EarlierStill(b, level + 1, Toks(b, l) + tail, d, tail, rest);
    } else {
      OperatorStops(op, tail, level + 1);
      LeftChildToks(b, op, l, level);
      FirstOfTighter(b, l, level + 1, tail, rest, d);
    }
  }

  lemma EarlierStill(b: Book, level: nat, toks: seq<Tok>, d: nat, tail: seq<Tok>, rest: seq<Tok>)
    requires 1 <= level <= 10 && StopsAhead(b, level, toks, d, tail) && |tail| >= |rest|
    ensures StopsAhead(b, level, toks, d, rest)
  {
  }

  lemma {:induction false} FirstOfTighter(b: Book, l: Expr, min: nat, tail: seq<Tok>, rest: seq<Tok>, d: nat)
    requires 1 <= min <= 10 && Legible(b, l, true) && Stops(tail, min) && HasRoom(b, l, d, NestChild(l, min)) && |tail| > |rest|
    ensures StopsAhead(b, min, ChildToks(b, l, min) + tail, d, rest)
  {
    ReadsChild(b, l, min, tail, d);
    ReadAhead(b, l, min, tail, rest, d);
  }

  lemma ReadAhead(b: Book, l: Expr, min: nat, tail: seq<Tok>, rest: seq<Tok>, d: nat)
    requires 1 <= min <= 10 && ChildReadsBack(b, min, l, tail, d) && HasRoom(b, l, d, NestChild(l, min)) && |tail| > |rest|
    ensures StopsAhead(b, min, ChildToks(b, l, min) + tail, d, rest)
  {
  }

  lemma {:induction false} LeftFits(b: Book, op: BinaryOp, l: Expr, r: Expr, d: nat)
    requires var e := Binary(op, l, r); Legible(b, e, true) && HasRoom(b, e, d, Nest(e))
    ensures Legible(b, l, true)
    ensures var level := Prec(Binary(op, l, r));
            && HasRoom(b, l, d, NestChild(l, LeftMin(op, level)))
            && (IsChainLevel(level) && Prec(l) == level ==>
                  l.Binary? && HasRoom(b, l, d, Nest(l)) && ChildToks(b, l, LeftMin(op, level)) == Toks(b, l))
  {
  }

  /** A left operand that is no chain of the operator's own level prints as the rule above demands. */
  lemma LeftChildToks(b: Book, op: BinaryOp, l: Expr, level: nat)
    requires level == Prec(Binary(op, l, l)) && !(IsChainLevel(level) && Prec(l) == level)
    ensures ChildToks(b, l, LeftMin(op, level)) == ChildToks(b, l, level + 1)
    ensures NestChild(l, LeftMin(op, level)) == NestChild(l, level + 1)
  {
  }

  // ----- NOT where no NOT is read -----

  /** What stands leftmost in a tree of operators. */
  function LeftEnd(e: Expr): Expr {
    if e.Binary? then LeftEnd(e.left) else e
  }

  lemma {:induction false} NotStandsLeftmost(b: Book, e: Expr, rest: seq<Tok>)
    requires Legible(b, e, true) && IsKeyword(Toks(b, e) + rest, "NOT")
    ensures LeftEnd(e).Unary? && LeftEnd(e).uop == Not
  {
    match e
    case Binary(op, l, r) =>
      var tail := [OpTok(op)] + ChildToks(b, r, RightMin(op, Prec(e))) + rest;
      BinaryToks(b, op, l, r, rest);
      ParensFirst(b, l, LeftMin(op, Prec(e)), tail);
      NotStandsLeftmost(b, l, tail);
    case Unary(op, a) =>
      assert (Toks(b, e) + rest)[0] == if op == Neg then Op(Minus) else Ident("NOT");
    case _ => Head(b, e, rest, true);
  }

  lemma ParensFirst(b: Book, e: Expr, min: nat, rest: seq<Tok>)
    ensures Prec(e) < min ==> HeadIs(ChildToks(b, e, min) + rest, Op(Open))
  {
  }

  /** Above the level of NOT, a word starts a leaf, and operators only go around it. */
  lemma {:induction false} WordStartsLeaf(b: Book, level: nat, toks: seq<Tok>, d: nat)
    requires 4 <= level <= 10 && toks != [] && toks[0].Ident?
    ensures var r := ParseAt(b, level, toks, d); r.Ok? ==> !LeftEnd(r.value.0).Unary?
    decreases 10 - level
  {
    if level < 10 {
      WordStartsLeaf(b, level + 1, toks, d);
      if IsChainLevel(level) {
        var first := ParseAt(b, level + 1, toks, d);
        if first.Ok? {
          ChainKeepsLeftEnd(b, level, first.value.0, first.value.1, d);
        }
      }
    } else {
      PercentLeaf(b, toks, d);
    }
  }

  lemma {:induction false} ChainKeepsLeftEnd(b: Book, level: nat, lhs: Expr, toks: seq<Tok>, d: nat)
    requires 1 <= level < 10
    ensures var r := ParseChain(b, level, lhs, toks, d); r.Ok? ==> LeftEnd(r.value.0) == LeftEnd(lhs)
    decreases |toks|
  {
    var op := ChainOp(level, toks);
    if op.Some? {
      var next := ParseAt(b, level + 1, toks[1..], d);
      if next.Ok? && Link(b, op.value, lhs, next.value.0).Ok? {
        ChainKeepsLeftEnd(b, level, Binary(op.value, lhs, next.value.0), next.value.1, d);
      }
    }
  }

  lemma PercentLeaf(b: Book, toks: seq<Tok>, d: nat)
    requires toks != [] && toks[0].Ident?
    ensures var r := ParseAt(b, 10, toks, d); r.Ok? ==> !LeftEnd(r.value.0).Unary?
  {
    var p := ParsePrimary(b, toks, d);
    if p.Ok? {
      WordIsLeaf(b, toks, d);
      PercentsKeepLeaf(b, p.value.0, p.value.1);
    }
  }

  lemma WordIsLeaf(b: Book, toks: seq<Tok>, d: nat)
    requires toks != [] && toks[0].Ident?
    ensures var p := ParsePrimary(b, toks, d); p.Ok? ==> !p.value.0.Unary? && !p.value.0.Binary?
  {
    if HeadIs(toks[1..], Op(Open)) {
      CalledIsLeaf(b, toks[0].word, toks, d + 1);
    }
  }

  lemma CalledIsLeaf(b: Book, word: string, toks: seq<Tok>, d: nat)
    requires |toks| >= 2
    ensures var c := ParseCalled(b, word, toks, d); c.Ok? ==> c.value.0.Call? || c.value.0.Ref?
  {
    var id := b.lambdaNamed(word);
    if id.Some? && id.value in b.lambdas {
      LambdaCallIsCall(b, id.value, word, toks[2..], d);
    }
  }

  lemma LambdaCallIsCall(b: Book, id: U32, word: string, toks: seq<Tok>, d: nat)
    requires id in b.lambdas
    ensures var c := ParseLambdaCall(b, id, word, toks, d); c.Ok? ==> c.value.0.Call?
  {
  }

  lemma {:induction false} PercentsKeepLeaf(b: Book, e: Expr, toks: seq<Tok>)
    ensures var r := ParsePercents(b, e, toks); r.Ok? && !LeftEnd(e).Unary? ==> !LeftEnd(r.value.0).Unary?
    decreases |toks|
  {
    if HeadIs(toks, Op(Percent)) {
      if e.Literal? && e.value.Number? {
        PercentsKeepLeaf(b, Literal(Number(b.hundredth(e.value.numeral))), toks[1..]);
      } else if Link(b, Div, e, Literal(Number("100"))).Ok? {
        PercentsKeepLeaf(b, Binary(Div, e, Literal(Number("100"))), toks[1..]);
      }
    }
  }

  // ----- minus where no minus is read -----

  lemma {:induction false} MinusStartsNothing(b: Book, level: nat, toks: seq<Tok>, d: nat)
    requires 9 <= level <= 10 && HeadIs(toks, Op(Minus))
    ensures ParseAt(b, level, toks, d).Err?
  {
    assert ParsePrimary(b, toks, d).Err?;
    PrimaryStands(b, toks, d);
  }

  // ----- the parentheses -----

  /** An operand that binds more loosely than its place demands, written without
      parentheses, is not read there as itself, whatever follows. */
  lemma ParenthesesAreNeeded(b: Book, e: Expr, min: nat, rest: seq<Tok>, d: nat)
    requires Legible(b, e, true) && Prec(e) < min <= 10 && HasRoom(b, e, d, Nest(e))
    ensures ParseAt(b, min, Toks(b, e) + rest, d) != Ok((e, rest))
  {
    var toks := Toks(b, e) + rest;
    if IsKeyword(toks, "NOT") && min > 3 {
      NotStandsLeftmost(b, e, rest);
      WordStartsLeaf(b, min, toks, d);
    } else if HeadIs(toks, Op(Minus)) && min > 8 {
      MinusStartsNothing(b, min, toks, d);
    } else if e.Binary? {
      FirstOperand(b, e.bop, e.left, e.right, rest, d);
      ReadsFurther(b, Prec(e) + 1, min, toks, d);
    } else {
      UnaryStartsItself(b, e, rest);
    }
  }

  lemma UnaryStartsItself(b: Book, e: Expr, rest: seq<Tok>)
    requires Legible(b, e, true) && !e.Binary? && Prec(e) < 10
    ensures if Prec(e) == 3 then IsKeyword(Toks(b, e) + rest, "NOT") else HeadIs(Toks(b, e) + rest, Op(Minus))
  {
  }
}
