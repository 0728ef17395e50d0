/** One step of reading a legible formula whose tokens lead the parser astray:
    nothing comes of it, or something that stops elsewhere, or another formula. */
module MisreadingSteps {
  import opened Results
  import opened Formulas
  import opened Texts
  import opened LambdaParams
  import opened Functions
  import opened Tokenizer
  import opened Parser
  import opened Printer
  import opened PrintedTokens
  import opened PrintedClauses
  import opened ReadingBack
  import opened Aggregations

  /** What a formula that is misread is read as. */
  predicate IsComposite(x: Expr) {
    x.Unary? || x.Binary? || (x.Call? && !IsReserved(x.func))
  }

  /** The reader stands before an opening parenthesis, which nothing goes on with. */
  predicate IsStuck(toks: seq<Tok>) {
    HeadIs(toks, Op(Open))
  }

  /** An outcome of reading `e` before `rest`: `e` itself if `good`, and if not,
      stuck or another formula. */
  ghost predicate Goes(r: Parsed, e: Expr, rest: seq<Tok>, good: bool) {
    r.Ok? ==>
      || (!good && IsStuck(r.value.1))
      || (r.value.1 == rest && (r.value.0 == e <==> good) && (good || IsComposite(r.value.0)))
  }

  lemma GoodGoes(b: Book, level: nat, e: Expr, rest: seq<Tok>, d: nat)
    requires 1 <= level <= 10 && ReadsBack(b, level, e, rest, d)
    ensures Goes(ParseAt(b, level, Toks(b, e) + rest, d), e, rest, true)
  {
  }

  // ----- the first two tokens of a formula -----

  /** A token that ends no argument and starts no clause. */
  predicate IsQuiet(tok: Tok) {
    tok != Op(Comma) && tok != Op(Close) && (tok.Ident? ==> !IsClauseWord(tok.word))
  }

  lemma {:induction false} FirstIsQuiet(b: Book, e: Expr)
    requires Legible(b, e, false)
    ensures Toks(b, e) != [] && IsQuiet(Toks(b, e)[0])
    decreases e, 1
  {
    match e
    case Literal(v) => LiteralIsQuiet(v);
    case Ref(m, _) =>
      NameIsQuiet(b, MeasureName(b, m));
      assert Toks(b, e)[0] == NameTok(b, MeasureName(b, m));
    case Unary(op, a) =>
      assert Toks(b, e)[0] == if op == Neg then Op(Minus) else Ident("NOT");
      NotIsQuiet();
    case Binary(op, l, r) =>
      FirstOfChild(b, l, LeftMin(op, Prec(e)));
      assert Toks(b, e)[0] == ChildToks(b, l, LeftMin(op, Prec(e)))[0];
    case Call(f, args) =>
      CalledIsNotNot(b, f, args, false);
      assert Toks(b, e)[0] == CalledTok(b, f);
  }

  lemma NotIsQuiet()
    ensures !IsClauseWord("NOT")
  {
    assert |"OVER"| != |"NOT"| && |"WHERE"| != |"NOT"| && |"INTO"| != |"NOT"|;
  }

  lemma LiteralIsQuiet(v: Value)
    requires !v.EnumIndex? && !v.Error?
    ensures IsQuiet(LiteralToks(v)[0])
  {
    if v.Boolean? {
      assert |"TRUE"| == |"OVER"| == |"INTO"| && Lower("TRUE"[0]) != Lower("OVER"[0]) && Lower("TRUE"[0]) != Lower("INTO"[0]);
      assert |"FALSE"| == |"WHERE"| && Lower("FALSE"[0]) != Lower("WHERE"[0]);
    }
  }

  lemma NameIsQuiet(b: Book, name: string)
    ensures IsQuiet(NameTok(b, name))
  {
    BareIsNoWordOfGrammar(b.reader.cls, name);
  }

  lemma {:induction false} FirstOfChild(b: Book, e: Expr, min: nat)
    requires Legible(b, e, false)
    ensures ChildToks(b, e, min) != [] && IsQuiet(ChildToks(b, e, min)[0])
    decreases e, 2
  {
    FirstIsQuiet(b, e);
    assert Prec(e) < min ==> ChildToks(b, e, min)[0] == Op(Open);
  }

  lemma {:induction false} SecondIsQuiet(b: Book, e: Expr)
    requires Legible(b, e, false) && |Toks(b, e)| >= 2
    ensures IsQuiet(Toks(b, e)[1])
    decreases e, 1
  {
    match e
    case Literal(v) =>
    case Ref(m, spec) =>
      assert Toks(b, e)[1] == Op(OpenBracket);
    case Unary(_, a) =>
      FirstOfChild(b, a, Prec(e));
      assert Toks(b, e)[1] == ChildToks(b, a, Prec(e))[0];
    case Binary(op, l, r) =>
      SecondOfChild(b, l, LeftMin(op, Prec(e)));
      var left := ChildToks(b, l, LeftMin(op, Prec(e)));
      assert Toks(b, e)[1] == if |left| >= 2 then left[1] else OpTok(op);
      OperatorIsQuiet(op);
    case Call(f, args) =>
      assert Toks(b, e)[1] == Op(Open);
  }

  lemma OperatorIsQuiet(op: BinaryOp)
    ensures IsQuiet(OpTok(op))
  {
    assert |"AND"| != |"OVER"| && |"AND"| != |"WHERE"| && |"AND"| != |"INTO"|;
    assert |"OR"| != |"OVER"| && |"OR"| != |"WHERE"| && |"OR"| != |"INTO"|;
  }

  lemma {:induction false} SecondOfChild(b: Book, e: Expr, min: nat)
    requires Legible(b, e, false)
    ensures ChildToks(b, e, min) != []
    ensures |ChildToks(b, e, min)| >= 2 ==> IsQuiet(ChildToks(b, e, min)[1])
    decreases e, 2
  {
    FirstIsQuiet(b, e);
    if Prec(e) < min {
      assert ChildToks(b, e, min)[1] == Toks(b, e)[0];
    } else if |Toks(b, e)| >= 2 {
      SecondIsQuiet(b, e);
    }
  }

  // ----- one construct, given how its parts are read -----

  lemma {:induction false} StepUnary(b: Book, op: UnaryOp, a: Expr, rest: seq<Tok>, d: nat)
    requires var min := Prec(Unary(op, a));
             Goes(ParseAt(b, min, ChildToks(b, a, min) + rest, d + 1), a, rest, Legible(b, a, true))
    ensures var e := Unary(op, a); Goes(ParseAt(b, Prec(e), Toks(b, e) + rest, d), e, rest, Legible(b, e, true))
  {
    var e := Unary(op, a);
    var first := if op == Neg then Op(Minus) else Ident("NOT");
    TailOf(first, ChildToks(b, a, Prec(e)), rest);
    assert Toks(b, e) == [first] + ChildToks(b, a, Prec(e));
    UnaryGoes(b, op, a, [first] + ChildToks(b, a, Prec(e)) + rest, rest, d, Legible(b, a, true));
  }

  lemma {:induction false} UnaryGoes(b: Book, op: UnaryOp, a: Expr, toks: seq<Tok>, rest: seq<Tok>, d: nat, good: bool)
    requires toks != [] && toks[0] == if op == Neg then Op(Minus) else Ident("NOT")
    requires Goes(ParseAt(b, if op == Neg then 8 else 3, toks[1..], d + 1), a, rest, good)
    ensures Goes(ParseAt(b, if op == Neg then 8 else 3, toks, d), Unary(op, a), rest, good)
  {
    UnaryIs(b, op, toks, d);
  }

  lemma {:induction false} UnaryIs(b: Book, op: UnaryOp, toks: seq<Tok>, d: nat)
    requires toks != [] && toks[0] == if op == Neg then Op(Minus) else Ident("NOT")
    ensures var level := if op == Neg then 8 else 3;
            var inner, r := ParseAt(b, level, toks[1..], d + 1), ParseAt(b, level, toks, d);
            (inner.Err? ==> r.Err?) && (inner.Ok? && r.Ok? ==> r == Ok((Unary(op, inner.value.0), inner.value.1)))
  {
    assert EqIgnoreAsciiCase("NOT", "NOT");
  }

  lemma {:induction false} StepInParens(b: Book, e: Expr, min: nat, rest: seq<Tok>, d: nat)
    requires 1 <= min <= 10 && Prec(e) < min && Stops(rest, min)
    requires var inner := [Op(Close)] + rest;
             Goes(ParseAt(b, 1, Toks(b, e) + inner, d + 1), e, inner, Legible(b, e, true))
    ensures Goes(ParseAt(b, min, ChildToks(b, e, min) + rest, d), e, rest, Legible(b, e, true))
  {
    var toks := ChildToks(b, e, min) + rest;
    ParensToks(b, e, min, rest);
    PrimaryParens(b, toks, d);
    LoosenTo(b, min, 10, toks, d);
  }

  lemma TwoOperands(op: BinaryOp, l: Expr, r: Expr, tail: seq<Tok>, rest: seq<Tok>, first: Parsed, second: Parsed, whole: Parsed,
                    good: bool, good': bool)
    requires Goes(first, l, tail, good) && (first.Err? ==> whole.Err?)
    requires first.Ok? && IsStuck(first.value.1) ==> whole == first || whole.Err?
    requires first.Ok? && first.value.1 == tail ==>
               && Goes(second, r, rest, good') && (second.Err? ==> whole.Err?)
               && (second.Ok? ==> whole.Err? || whole == Ok((Binary(op, first.value.0, second.value.0), second.value.1)))
    requires !IsStuck(tail)
    ensures Goes(whole, Binary(op, l, r), rest, good && good')
  {
  }

  lemma {:induction false} StepPowerGoes(b: Book, l: Expr, r: Expr, rest: seq<Tok>, d: nat)
    requires var tail := [Op(Power)] + ChildToks(b, r, 8) + rest;
             Goes(ParseAt(b, 10, ChildToks(b, l, 10) + tail, d), l, tail, Legible(b, l, true))
    requires Goes(ParseAt(b, 8, ChildToks(b, r, 8) + rest, d + 1), r, rest, Legible(b, r, true))
    ensures var e := Binary(Pow, l, r); Goes(ParseAt(b, 9, Toks(b, e) + rest, d), e, rest, Legible(b, e, true))
  {
    var tail := [Op(Power)] + ChildToks(b, r, 8) + rest;
    BinaryToks(b, Pow, l, r, rest);
    TailOf(Op(Power), ChildToks(b, r, 8), rest);
    PowerGoes(b, l, r, ChildToks(b, l, 10) + tail, tail, rest, d, Legible(b, l, true), Legible(b, r, true));
  }

  lemma TailOf(tok: Tok, toks: seq<Tok>, rest: seq<Tok>)
    ensures var tail := [tok] + toks + rest; HeadIs(tail, tok) && tail[1..] == toks + rest
  {
  }

  lemma {:induction false} PowerGoes(b: Book, l: Expr, r: Expr, toks: seq<Tok>, tail: seq<Tok>, rest: seq<Tok>, d: nat, good: bool, good': bool)
    requires HeadIs(tail, Op(Power)) && Goes(ParseAt(b, 10, toks, d), l, tail, good)
    requires Goes(ParseAt(b, 8, tail[1..], d + 1), r, rest, good')
    ensures Goes(ParseAt(b, 9, toks, d), Binary(Pow, l, r), rest, good && good')
  {
    PowerIs(b, toks, d);
    TwoOperands(Pow, l, r, tail, rest, ParseAt(b, 10, toks, d), ParseAt(b, 8, tail[1..], d + 1), ParseAt(b, 9, toks, d), good, good');
  }

  lemma {:induction false} StepComparisonGoes(b: Book, op: BinaryOp, l: Expr, r: Expr, rest: seq<Tok>, d: nat)
    requires Prec(Binary(op, l, r)) == 4
    requires var tail := [OpTok(op)] + ChildToks(b, r, 5) + rest;
             Goes(ParseAt(b, 5, ChildToks(b, l, 5) + tail, d), l, tail, Legible(b, l, true))
    requires Goes(ParseAt(b, 5, ChildToks(b, r, 5) + rest, d), r, rest, Legible(b, r, true))
    ensures var e := Binary(op, l, r); Goes(ParseAt(b, 4, Toks(b, e) + rest, d), e, rest, Legible(b, e, true))
  {
    var tail := [OpTok(op)] + ChildToks(b, r, 5) + rest;
    BinaryToks(b, op, l, r, rest);
    TailOf(OpTok(op), ChildToks(b, r, 5), rest);
    ComparisonGoes(b, op, l, r, ChildToks(b, l, 5) + tail, tail, rest, d, Legible(b, l, true), Legible(b, r, true));
  }

  lemma {:induction false} ComparisonGoes(b: Book, op: BinaryOp, l: Expr, r: Expr, toks: seq<Tok>, tail: seq<Tok>, rest: seq<Tok>, d: nat,
                                          good: bool, good': bool)
    requires Prec(Binary(op, l, r)) == 4 && HeadIs(tail, OpTok(op)) && Goes(ParseAt(b, 5, toks, d), l, tail, good)
    requires Goes(ParseAt(b, 5, tail[1..], d), r, rest, good')
    ensures Goes(ParseAt(b, 4, toks, d), Binary(op, l, r), rest, good && good')
  {
    ComparisonIsRead(op, tail);
    ComparisonIs(b, toks, d);
    TwoOperands(op, l, r, tail, rest, ParseAt(b, 5, toks, d), ParseAt(b, 5, tail[1..], d), ParseAt(b, 4, toks, d), good, good');
  }

  /** An operator chain's outcome so far: the links of some formula, `e` if `good`. */
  ghost predicate GoesOn(b: Book, level: nat, r: Parsed, e: Expr, rest: seq<Tok>, d: nat, good: bool)
    requires 1 <= level < 10
  {
    r.Ok? ==>
      || (!good && IsStuck(r.value.1))
      || exists x :: IsReadAs(x, e, good) && r == ParseChain(b, level, x, rest, d)
  }

  predicate IsReadAs(x: Expr, e: Expr, good: bool) {
    (x == e <==> good) && (good || IsComposite(x))
  }

  lemma {:induction false} ChainGoesOn(b: Book, op: BinaryOp, l: Expr, r: Expr, whole: Parsed, tail: seq<Tok>, rest: seq<Tok>, d: nat,
                                       good: bool, good': bool)
    requires IsChainLevel(Prec(Binary(op, l, r))) && HeadIs(tail, OpTok(op))
    requires GoesOn(b, Prec(Binary(op, l, r)), whole, l, tail, d, good)
    requires Goes(ParseAt(b, Prec(Binary(op, l, r)) + 1, tail[1..], d), r, rest, good')
    ensures GoesOn(b, Prec(Binary(op, l, r)), whole, Binary(op, l, r), rest, d, good && good')
  {
    if whole.Ok? && !(!good && IsStuck(whole.value.1)) {
      var x :| IsReadAs(x, l, good) && whole == ParseChain(b, Prec(Binary(op, l, r)), x, tail, d);
      LinkGoes(b, op, l, x, r, tail, rest, d, good, good');
    }
  }

  lemma {:induction false} LinkGoes(b: Book, op: BinaryOp, l: Expr, x: Expr, r: Expr, tail: seq<Tok>, rest: seq<Tok>, d: nat,
                                    good: bool, good': bool)
    requires IsChainLevel(Prec(Binary(op, l, r))) && IsReadAs(x, l, good) && HeadIs(tail, OpTok(op))
    requires Goes(ParseAt(b, Prec(Binary(op, l, r)) + 1, tail[1..], d), r, rest, good')
    ensures var level := Prec(Binary(op, l, r));
            GoesOn(b, level, ParseChain(b, level, x, tail, d), Binary(op, l, r), rest, d, good && good')
  {
    var level := Prec(Binary(op, l, r));
    assert ChainOp(level, tail) == Some(op);
    ChainStep(b, level, x, tail, d);
    var next := ParseAt(b, level + 1, tail[1..], d);
    if next.Ok? && next.value.1 == rest && !IsStuck(rest) {
      assert IsReadAs(Binary(op, x, next.value.0), Binary(op, l, r), good && good');
    } else if next.Ok? {
      StuckChain(b, level, Binary(op, x, next.value.0), next.value.1, d);
    }
  }

  lemma StuckChain(b: Book, level: nat, x: Expr, toks: seq<Tok>, d: nat)
    requires IsChainLevel(level) && IsStuck(toks)
    ensures ParseChain(b, level, x, toks, d) == Ok((x, toks))
  {
    assert ChainOp(level, toks).None?;
  }

  /** A chain's first operand, of another level, begins it. */
  lemma {:induction false} StepOperandGoes(b: Book, e: Expr, level: nat, rest: seq<Tok>, d: nat)
    requires IsChainLevel(level) && Prec(e) != level
    requires Goes(ParseAt(b, level + 1, ChildToks(b, e, level + 1) + rest, d), e, rest, Legible(b, e, true))
    ensures GoesOn(b, level, ParseAt(b, level, ChildToks(b, e, level) + rest, d), e, rest, d, Legible(b, e, true))
  {
    var toks := ChildToks(b, e, level + 1) + rest;
    assert ChildToks(b, e, level) == ChildToks(b, e, level + 1);
    ChainIs(b, level, toks, d);
    var first := ParseAt(b, level + 1, toks, d);
    if first.Ok? && first.value.1 == rest && !IsStuck(rest) {
      assert IsReadAs(first.value.0, e, Legible(b, e, true));
    } else if first.Ok? {
      StuckChain(b, level, first.value.0, first.value.1, d);
    }
  }

  // ----- calls -----

  /** A name in quotes calls nothing: the reader stops before the parenthesis. */
  lemma {:induction false} QuotedGoes(b: Book, f: FuncId, args: seq<Expr>, rest: seq<Tok>, d: nat)
    requires CalledTok(b, f).Quoted? && Reducing(b, f).None?
    ensures Goes(ParseAt(b, 10, Toks(b, Call(f, args)) + rest, d), Call(f, args), rest, false)
  {
    var toks := Toks(b, Call(f, args)) + rest;
    assert toks[0] == CalledTok(b, f) && toks[1] == Op(Open) && toks[1..][0] == Op(Open);
    PrimaryStands(b, toks, d);
    QuotedIsStuck(b, toks, d);
  }

  lemma QuotedIsStuck(b: Book, toks: seq<Tok>, d: nat)
    requires |toks| >= 2 && toks[0].Quoted? && toks[1] == Op(Open)
    ensures var p := ParsePrimary(b, toks, d); p.Ok? ==> p.value.1 == toks[1..] && IsStuck(p.value.1)
  {
    assert toks[1..][0] == Op(Open);
  }

  /** A list's outcome: the arguments if `good`, and if not, others. */
  ghost predicate ArgsGo(r: Result<Args, ParseError>, args: seq<Expr>, rest: seq<Tok>, good: bool) {
    r.Ok? ==>
      && r.value.clause == NO_CLAUSE && r.value.rest == rest
      && |r.value.exprs| == |args| && (r.value.exprs == args <==> good)
  }

  predicate GoodArg(b: Book, a: Expr, kind: ParamKind) {
    if kind.TakesCategory? then a.Category? && FindsCategory(b, a.category)
    else Legible(b, a, true) && (kind.TakesReading? ==> a.Ref?)
  }

  /** A list of arguments by its first one, where no clause comes next. */
  lemma {:induction false} ArgsStep(b: Book, kinds: nat -> ParamKind, i: nat, toks: seq<Tok>, d: nat)
    ensures var first, r := ParseArg(b, kinds(i), i, toks, d), ParseArgsFrom(b, kinds, i, NO_CLAUSE, toks, d);
            && (first.Err? ==> r.Err?)
            && (first.Ok? && IsStuck(first.value.1) ==> r.Err?)
            && (first.Ok? && HeadIs(first.value.1, Op(Close)) ==> r == Ok(Args([first.value.0], NO_CLAUSE, first.value.1[1..])))
            && (first.Ok? && HeadIs(first.value.1, Op(Comma)) ==>
                  var more := ParseArgsFrom(b, kinds, i + 1, NO_CLAUSE, first.value.1[1..], d);
                  && (more.Err? ==> r.Err?)
                  && (more.Ok? ==> r == Ok(Args([first.value.0] + more.value.exprs, more.value.clause, more.value.rest))))
  {
  }

  lemma {:induction false} StepLastGoes(b: Book, args: seq<Expr>, kinds: nat -> ParamKind, i: nat, rest: seq<Tok>, d: nat)
    requires |args| == 1
    requires var a := args[0]; var tail := [Op(Close)] + rest;
             Goes(ParseArg(b, kinds(i), i, Toks(b, a) + tail, d), a, tail, GoodArg(b, a, kinds(i)))
    ensures ArgsGo(ParseArgsFrom(b, kinds, i, NO_CLAUSE, ListToks(b, args) + rest, d), args, rest, GoodArg(b, args[0], kinds(i)))
  {
    var tail := [Op(Close)] + rest;
    assert ListToks(b, args) + rest == Toks(b, args[0]) + tail;
    assert tail[1..] == rest && args == [args[0]];
    ArgsStep(b, kinds, i, Toks(b, args[0]) + tail, d);
  }

  lemma {:induction false} StepMoreGoes(b: Book, args: seq<Expr>, kinds: nat -> ParamKind, i: nat, rest: seq<Tok>, d: nat, good: bool)
    requires |args| > 1
    requires var a := args[0]; var tail := [Op(Comma)] + (ListToks(b, args[1..]) + rest);
             Goes(ParseArg(b, kinds(i), i, Toks(b, a) + tail, d), a, tail, GoodArg(b, a, kinds(i)))
    requires ArgsGo(ParseArgsFrom(b, kinds, i + 1, NO_CLAUSE, ListToks(b, args[1..]) + rest, d), args[1..], rest, good)
    ensures ArgsGo(ParseArgsFrom(b, kinds, i, NO_CLAUSE, ListToks(b, args) + rest, d), args, rest, GoodArg(b, args[0], kinds(i)) && good)
  {
    var more := ListToks(b, args[1..]) + rest;
    var tail := [Op(Comma)] + more;
    assert ListToks(b, args) + rest == Toks(b, args[0]) + tail;
    assert tail[1..] == more && args == [args[0]] + args[1..];
    ArgsStep(b, kinds, i, Toks(b, args[0]) + tail, d);
    var r := ParseArgsFrom(b, kinds, i, NO_CLAUSE, ListToks(b, args) + rest, d);
    if r.Ok? {
      assert r.value.exprs[0] == ParseArg(b, kinds(i), i, Toks(b, args[0]) + tail, d).value.0;
      assert r.value.exprs[1..] == ParseArgsFrom(b, kinds, i + 1, NO_CLAUSE, more, d).value.exprs;
    }
  }

  lemma {:induction false} CategoryArgGoes(b: Book, c: CategoryId, kind: ParamKind, i: nat, rest: seq<Tok>, d: nat)
    requires kind.TakesCategory? && !HeadIs(rest, Op(Dot)) && FindsCategory(b, c)
    ensures Goes(ParseArg(b, kind, i, Toks(b, Category(c)) + rest, d), Category(c), rest, true)
  {
    CategoryArg(b, c, i, rest, d);
  }

  lemma {:induction false} ExprArgGoes(b: Book, a: Expr, kind: ParamKind, i: nat, rest: seq<Tok>, d: nat)
    requires !kind.TakesCategory? && (kind.TakesReading? ==> a.Ref?)
    requires Goes(ParseAt(b, 1, Toks(b, a) + rest, d), a, rest, Legible(b, a, true))
    ensures Goes(ParseArg(b, kind, i, Toks(b, a) + rest, d), a, rest, GoodArg(b, a, kind))
  {
    ArgIs(b, kind, i, Toks(b, a) + rest, d);
  }

  /** A call of what its name calls, whatever its arguments. */
  lemma {:induction false} CalledWith(b: Book, f: FuncId, n: nat, kinds: nat -> ParamKind, toks: seq<Tok>, d: nat)
    requires |toks| >= 2 && KindsTaken(b, f, n, true) == Some(kinds)
    ensures var r := ParseArgs(b, kinds, toks[2..], d);
            var called := ParseCalled(b, CalledName(b, f), toks, d);
            && (r.Err? ==> called.Err?)
            && (r.Ok? && |r.value.exprs| == n && r.value.clause == NO_CLAUSE ==>
                  called == Ok((Expr.Call(f, r.value.exprs), r.value.rest)))
  {
  }

  lemma {:induction false} StepCallGoes(b: Book, f: FuncId, args: seq<Expr>, kinds: nat -> ParamKind, rest: seq<Tok>, d: nat)
    requires Reducing(b, f).None? && KindsTaken(b, f, |args|, true) == Some(kinds) && Stops(rest, 10) && d + 1 <= b.maxNest
    requires ArgsGo(ParseArgs(b, kinds, ListToks(b, args) + rest, d + 1), args, rest, LegibleArgs(b, args, kinds, 0, true))
    ensures var e := Call(f, args); Goes(ParseAt(b, 10, Toks(b, e) + rest, d), e, rest, LegibleArgs(b, args, kinds, 0, true))
  {
    var word := CalledName(b, f);
    var toks := [Ident(word), Op(Open)] + ListToks(b, args) + rest;
    CalledIsWord(b, f, |args|);
    assert Toks(b, Call(f, args)) + rest == toks;
    CallSpelled(word, ListToks(b, args), rest);
    CalledWith(b, f, |args|, kinds, toks, d + 1);
    CalledIsPrimary(b, word, toks, d);
    PrimaryStands(b, toks, d);
    TakenIsNotReserved(b, f, |args|);
  }

  lemma CalledIsWord(b: Book, f: FuncId, n: nat)
    requires KindsTaken(b, f, n, true).Some?
    ensures CalledTok(b, f) == Ident(CalledName(b, f))
  {
  }

  lemma TakenIsNotReserved(b: Book, f: FuncId, n: nat)
    requires KindsTaken(b, f, n, true).Some?
    ensures !IsReserved(f)
  {
  }

  // ----- the parts of an aggregation -----

  /** A part's outcome: its bare form if `good`. */
  ghost predicate PartGoes(r: Parsed, a: Expr, reduced: bool, rest: seq<Tok>, good: bool) {
    r.Ok? ==>
      || (!good && IsStuck(r.value.1))
      || (r.value.1 == rest && (r.value.0 == Bare(a, reduced) ==> good) && IsPlain(r.value.0))
  }

  lemma {:induction false} ReducedGoes(b: Book, a: Expr, rest: seq<Tok>, d: nat)
    requires LegiblePart(b, a, true, false) && Stops(rest, 1)
    ensures PartGoes(ParseAt(b, 1, Toks(b, a) + rest, d), a, true, rest, LegiblePart(b, a, true, true))
  {
    ReducedPart(b, a.measure, a.spec, rest, d);
  }

  lemma {:induction false} PlainPartGoes(b: Book, a: Expr, rest: seq<Tok>, d: nat)
    requires Legible(b, a, false) && Goes(ParseAt(b, 1, Toks(b, a) + rest, d), a, rest, Legible(b, a, true))
    ensures PartGoes(ParseAt(b, 1, Toks(b, a) + rest, d), a, false, rest, LegiblePart(b, a, false, true))
  {
    LegibleIsPlain(b, a);
  }

  lemma LegibleIsPlain(b: Book, a: Expr)
    requires Legible(b, a, false)
    ensures IsPlain(a)
  {
    LegibleIsNoMarker(b, a, false);
  }

  /** Once a call has its `OVER`, the clause stays, but for `INTO`. */
  lemma {:induction false} ClauseStays(b: Book, kinds: nat -> ParamKind, q: nat, c: Clause, toks: seq<Tok>, d: nat)
    requires c.cats.Some?
    ensures var r := ParseArgsFrom(b, kinds, q, c, toks, d); r.Ok? ==> r.value.clause.(into := c.into) == c
    decreases |toks|
  {
    var first := ParseArg(b, kinds(q), q, toks, d);
    if first.Ok? {
      var over := ParseOver(b, c, first.value.1, d);
      if over.Ok? {
        assert over.value.0 == c;
        var into := ParseInto(b, c, over.value.1);
        if into.Ok? && HeadIs(into.value.1, Op(Comma)) {
          ClauseStays(b, kinds, q + 1, into.value.0, into.value.1[1..], d);
        }
      }
    }
  }

  /** What a list makes of its first part and what comes after its `OVER`. */
  function Onward(b: Book, kinds: nat -> ParamKind, q: nat, first: Expr, c: Clause, toks: seq<Tok>, d: nat): Result<Args, ParseError> {
    var into :- ParseInto(b, c, toks);
    if HeadIs(into.1, Op(Comma)) then
      var more :- ParseArgsFrom(b, kinds, q + 1, into.0, into.1[1..], d);
      Ok(Args([first] + more.exprs, more.clause, more.rest))
    else if HeadIs(into.1, Op(Close)) then Ok(Args([first], into.0, into.1[1..]))
    else Err(Expected(")"))
  }

  lemma {:induction false} OnwardIs(b: Book, kinds: nat -> ParamKind, q: nat, c: Clause, toks: seq<Tok>, d: nat)
    ensures var first, r := ParseArg(b, kinds(q), q, toks, d), ParseArgsFrom(b, kinds, q, c, toks, d);
            && (first.Err? ==> r.Err?)
            && (first.Ok? ==>
                  var over := ParseOver(b, c, first.value.1, d);
                  && (over.Err? ==> r.Err?)
                  && (over.Ok? ==> r == Onward(b, kinds, q, first.value.0, over.value.0, over.value.1, d)))
  {
  }

  lemma {:induction false} ValueArgIs(b: Book, kinds: nat -> ParamKind, q: nat, toks: seq<Tok>, d: nat)
    requires kinds(q) == TakesValue
    ensures var e, r := ParseAt(b, 1, toks, d), ParseArg(b, kinds(q), q, toks, d); (e.Err? <==> r.Err?) && (e.Ok? ==> r == e)
  {
  }

  predicate AllPlain(es: seq<Expr>) {
    forall i :: 0 <= i < |es| ==> IsPlain(es[i])
  }

  /** The outcome of the parts after the `OVER`: the rest, the clause and plain
      formulas, and the parts themselves only if they are good. */
  ghost predicate RestGoes(r: Result<Args, ParseError>, c: Clause, into: seq<CategoryId>, es: seq<Expr>, rest: seq<Tok>, good: bool) {
    r.Ok? ==>
      && r.value.rest == rest && r.value.clause == c.(into := into)
      && AllPlain(r.value.exprs) && (r.value.exprs == es ==> good)
  }

  lemma AfterPartStays(b: Book, c: Clause, toks: seq<Tok>, d: nat)
    requires toks != [] && !IsKeyword(toks, "OVER")
    ensures ParseOver(b, c, toks, d) == Ok((c, toks))
  {
  }

  lemma StuckArgs(b: Book, kinds: nat -> ParamKind, q: nat, first: Expr, c: Clause, toks: seq<Tok>, d: nat)
    requires IsStuck(toks)
    ensures ParseOver(b, c, toks, d) == Ok((c, toks)) && Onward(b, kinds, q, first, c, toks, d).Err?
  {
  }

  /** After the last part, `INTO` and the closing parenthesis. */
  lemma {:induction false} LastOnward(b: Book, kinds: nat -> ParamKind, q: nat, first: Expr, c: Clause, cats: seq<CategoryId>,
                                      rest: seq<Tok>, d: nat)
    requires c.into == [] && (cats == [] || FindsList(b, cats))
    ensures Onward(b, kinds, q, first, c, IntoToks(b, cats) + [Op(Close)] + rest, d) == Ok(Args([first], c.(into := cats), rest))
  {
    var close := [Op(Close)] + rest;
    assert IntoToks(b, cats) + [Op(Close)] + rest == IntoToks(b, cats) + close;
    IntoRead(b, c, cats, close);
    assert close[1..] == rest;
  }

  /** Before a comma, the list goes on with what comes after it. */
  lemma {:induction false} CommaOnward(b: Book, kinds: nat -> ParamKind, q: nat, first: Expr, c: Clause, toks: seq<Tok>, d: nat)
    requires HeadIs(toks, Op(Comma))
    ensures var more, r := ParseArgsFrom(b, kinds, q + 1, c, toks[1..], d), Onward(b, kinds, q, first, c, toks, d);
            && (more.Err? ==> r.Err?)
            && (more.Ok? ==> r == Ok(Args([first] + more.value.exprs, more.value.clause, more.value.rest)))
  {
  }

  lemma {:induction false} StepRest(b: Book, def: FnDef, args: seq<Expr>, i: nat, at: nat, over: seq<Tok>, into: seq<CategoryId>, c: Clause,
                                    kinds: nat -> ParamKind, q: nat, rest: seq<Tok>, d: nat, good: bool, good': bool)
    requires args != [] && !IsMarker(args[0]) && i != at && kinds(q) == TakesValue
    requires c.cats.Some? && c.into == [] && (into == [] || FindsList(b, into))
    requires PartGoes(ParseAt(b, 1, Toks(b, args[0]) + (PartTail(b, args, i, at, over, IntoToks(b, into)) + rest), d),
                      args[0], def.Reduced(i, args[0]), PartTail(b, args, i, at, over, IntoToks(b, into)) + rest, good)
    requires Parts(args[1..]) != [] ==>
               RestGoes(ParseArgsFrom(b, kinds, q + 1, c, PartToks(b, args[1..], i + 1, at, over, IntoToks(b, into)) + rest, d),
                        c, into, BareParts(def, args[1..], i + 1), rest, good')
    ensures RestGoes(ParseArgsFrom(b, kinds, q, c, PartToks(b, args, i, at, over, IntoToks(b, into)) + rest, d),
                     c, into, BareParts(def, args, i), rest, good && (Parts(args[1..]) != [] ==> good'))
  {
    var intoToks := IntoToks(b, into);
    var tail := PartTail(b, args, i, at, over, intoToks) + rest;
    var toks := Toks(b, args[0]) + tail;
    PartSpelled(b, args, i, at, over, intoToks, rest);
    assert [] + tail == tail;
    assert PartToks(b, args, i, at, over, intoToks) + rest == toks;
    OnwardIs(b, kinds, q, c, toks, d);
    ValueArgIs(b, kinds, q, toks, d);
    FirstOfParts(def, args, i);
    var first := ParseAt(b, 1, toks, d);
    if first.Ok? {
      FirstOnward(b, def, args, i, at, over, into, c, kinds, q, rest, d, first.value.0, first.value.1, good, good');
    }
  }

  lemma {:induction false} FirstOnward(b: Book, def: FnDef, args: seq<Expr>, i: nat, at: nat, over: seq<Tok>, into: seq<CategoryId>, c: Clause,
                                       kinds: nat -> ParamKind, q: nat, rest: seq<Tok>, d: nat, x: Expr, toks: seq<Tok>, good: bool, good': bool)
    requires args != [] && !IsMarker(args[0])
    requires c.cats.Some? && c.into == [] && (into == [] || FindsList(b, into))
    requires var tail := PartTail(b, args, i, at, over, IntoToks(b, into)) + rest;
             (!good && IsStuck(toks)) || (toks == tail && (x == Bare(args[0], def.Reduced(i, args[0])) ==> good) && IsPlain(x))
    requires Parts(args[1..]) != [] ==>
               RestGoes(ParseArgsFrom(b, kinds, q + 1, c, PartToks(b, args[1..], i + 1, at, over, IntoToks(b, into)) + rest, d),
                        c, into, BareParts(def, args[1..], i + 1), rest, good')
    ensures ParseOver(b, c, toks, d) == Ok((c, toks))
    ensures RestGoes(Onward(b, kinds, q, x, c, toks, d), c, into, [Bare(args[0], def.Reduced(i, args[0]))] + BareParts(def, args[1..], i + 1),
                     rest, good && (Parts(args[1..]) != [] ==> good'))
  {
    if !good && IsStuck(toks) {
      StuckArgs(b, kinds, q, x, c, toks, d);
    } else {
      TailIs(b, args, i, at, over, into, rest);
      AfterPartStays(b, c, toks, d);
      if Parts(args[1..]) == [] {
        LastOnward(b, kinds, q, x, c, into, rest, d);
        NoMoreParts(def, args[1..], i + 1);
        OnePartGoes(x, c, into, Bare(args[0], def.Reduced(i, args[0])), rest, good);
      } else {
        MoreOnward(b, kinds, q, x, c, into, toks, d, BareParts(def, args[1..], i + 1), rest,
                   Bare(args[0], def.Reduced(i, args[0])), good, good');
      }
    }
  }

  lemma OnePartGoes(x: Expr, c: Clause, into: seq<CategoryId>, e: Expr, rest: seq<Tok>, good: bool)
    requires IsPlain(x) && (x == e ==> good)
    ensures RestGoes(Ok(Args([x], c.(into := into), rest)), c, into, [e] + [], rest, good)
  {
    assert [x] == [e] + [] ==> [x][0] == ([e] + [])[0];
  }

  lemma {:induction false} MoreOnward(b: Book, kinds: nat -> ParamKind, q: nat, x: Expr, c: Clause, into: seq<CategoryId>, toks: seq<Tok>, d: nat,
                                      es: seq<Expr>, rest: seq<Tok>, e: Expr, good: bool, good': bool)
    requires HeadIs(toks, Op(Comma)) && IsPlain(x) && (x == e ==> good)
    requires RestGoes(ParseArgsFrom(b, kinds, q + 1, c, toks[1..], d), c, into, es, rest, good')
    ensures RestGoes(Onward(b, kinds, q, x, c, toks, d), c, into, [e] + es, rest, good && good')
  {
    CommaOnward(b, kinds, q, x, c, toks, d);
    MoreParts(ParseArgsFrom(b, kinds, q + 1, c, toks[1..], d), Onward(b, kinds, q, x, c, toks, d), x, c, into, es, rest, e, good, good');
  }

  lemma TailIs(b: Book, args: seq<Expr>, i: nat, at: nat, over: seq<Tok>, into: seq<CategoryId>, rest: seq<Tok>)
    requires args != []
    ensures var tail := PartTail(b, args, i, at, over, IntoToks(b, into)) + rest;
            && tail != [] && !IsKeyword(tail, "OVER") && !IsKeyword(tail, "WHERE") && Stops(tail, 1)
            && (Parts(args[1..]) == [] ==> tail == IntoToks(b, into) + [Op(Close)] + rest)
            && (Parts(args[1..]) != [] ==>
                  HeadIs(tail, Op(Comma)) && tail[1..] == PartToks(b, args[1..], i + 1, at, over, IntoToks(b, into)) + rest)
  {
    var intoToks := IntoToks(b, into);
    var tail := PartTail(b, args, i, at, over, intoToks) + rest;
    if Parts(args[1..]) == [] {
      assert tail[0] == if into == [] then Op(Close) else Ident("INTO");
      assert |"INTO"| == |"OVER"| && Lower("INTO"[0]) != Lower("OVER"[0]) && |"INTO"| != |"WHERE"|;
      assert |"INTO"| != |"OR"| && |"INTO"| != |"AND"|;
    } else {
      var more := PartToks(b, args[1..], i + 1, at, over, intoToks);
      assert tail == [Op(Comma)] + (more + rest);
    }
  }

  lemma MoreParts(more: Result<Args, ParseError>, r: Result<Args, ParseError>, x: Expr, c: Clause, into: seq<CategoryId>, es: seq<Expr>,
                  rest: seq<Tok>, e: Expr, good: bool, good': bool)
    requires RestGoes(more, c, into, es, rest, good') && IsPlain(x) && (x == e ==> good)
    requires (more.Err? ==> r.Err?) && (more.Ok? ==> r == Ok(Args([x] + more.value.exprs, more.value.clause, more.value.rest)))
    ensures RestGoes(r, c, into, [e] + es, rest, good && good')
  {
    if r.Ok? {
      assert r.value.exprs[0] == x && r.value.exprs[1..] == more.value.exprs;
      assert ([e] + es)[0] == e && ([e] + es)[1..] == es;
      assert AllPlain(r.value.exprs) by {
        forall k | 0 <= k < |r.value.exprs|
          ensures IsPlain(r.value.exprs[k])
        {
          if k > 0 {
            assert r.value.exprs[k] == more.value.exprs[k - 1];
          }
        }
      }
    }
  }

  // ----- the part that the `OVER` follows -----

  predicate GoodPred(b: Book, clause: Clause) {
    clause.pred.Some? ==> Legible(b, clause.pred.value, true)
  }

  /** An `OVER` clause's outcome before what ends it. */
  ghost predicate OverGoes(b: Book, r: Result<(Clause, seq<Tok>), ParseError>, clause: Clause, tail: seq<Tok>) {
    r.Ok? ==>
      && r.value.0.cats == clause.cats && r.value.0.into == []
      && (IsStuck(r.value.1) || r.value.1 == tail)
      && (r.value.1 == tail && !IsStuck(tail) && r.value.0 == clause.(into := []) ==> GoodPred(b, clause))
  }

  lemma {:induction false} StepOverGoes(b: Book, clause: Clause, tail: seq<Tok>, d: nat)
    requires FindsClause(b, clause) && Ends(b, IsOpen(clause), tail)
    requires clause.pred.Some? ==>
               var p := clause.pred.value; Goes(ParseAt(b, 1, Toks(b, p) + tail, d), p, tail, Legible(b, p, true))
    ensures OverGoes(b, ParseOver(b, NO_CLAUSE, OverToks(b, clause) + WhereToks(b, clause.pred) + tail, d), clause, tail)
  {
    EndOfClause(b, IsOpen(clause), tail);
    if clause.pred.None? {
      StepPlainOver(b, clause, tail, d);
    } else {
      StepOverWhere(b, clause, clause.pred.value, tail, d);
    }
  }

  /** What comes after the `OVER` and the part's tail. */
  lemma {:induction false} StepAt(b: Book, def: FnDef, args: seq<Expr>, i: nat, at: nat, over: seq<Tok>, clause: Clause,
                                  kinds: nat -> ParamKind, rest: seq<Tok>, d: nat, good: bool, good': bool)
    requires args != [] && !IsMarker(args[0]) && kinds(i) == TakesValue && i == at && FindsClause(b, clause)
    requires over == OverToks(b, clause) + WhereToks(b, clause.pred)
    requires var tail := PartTail(b, args, i, at, over, IntoToks(b, clause.into)) + rest;
             && PartGoes(ParseAt(b, 1, Toks(b, args[0]) + (over + tail), d), args[0], def.Reduced(i, args[0]), over + tail, good)
             && OverGoes(b, ParseOver(b, NO_CLAUSE, over + tail, d), clause, tail)
    requires Parts(args[1..]) != [] ==>
               forall c: Clause :: c.cats.Some? && c.into == [] ==>
                 RestGoes(ParseArgsFrom(b, kinds, i + 1, c, PartToks(b, args[1..], i + 1, at, over, IntoToks(b, clause.into)) + rest, d),
                          c, clause.into, BareParts(def, args[1..], i + 1), rest, good')
    ensures PartsGo(ParseArgsFrom(b, kinds, i, NO_CLAUSE, PartToks(b, args, i, at, over, IntoToks(b, clause.into)) + rest, d),
                    BareParts(def, args, i), clause, rest, good && GoodPred(b, clause) && (Parts(args[1..]) != [] ==> good'))
  {
    var into := clause.into;
    var tail := PartTail(b, args, i, at, over, IntoToks(b, into)) + rest;
    var toks := Toks(b, args[0]) + (over + tail);
    PartSpelled(b, args, i, at, over, IntoToks(b, into), rest);
    assert PartToks(b, args, i, at, over, IntoToks(b, into)) + rest == toks;
    OnwardIs(b, kinds, i, NO_CLAUSE, toks, d);
    ValueArgIs(b, kinds, i, toks, d);
    OverIsNoParenthesis(b, clause, tail);
    FirstOfParts(def, args, i);
    var first, r := ParseAt(b, 1, toks, d), ParseArgsFrom(b, kinds, i, NO_CLAUSE, toks, d);
    if first.Ok? {
      if IsStuck(first.value.1) {
        StuckArgs(b, kinds, i, first.value.0, NO_CLAUSE, first.value.1, d);
      } else {
        AtOnward(b, def, args, i, at, over, clause, kinds, rest, d, first.value.0, good, good');
      }
    }
  }

  lemma OverIsNoParenthesis(b: Book, clause: Clause, tail: seq<Tok>)
    ensures var toks := OverToks(b, clause) + WhereToks(b, clause.pred) + tail;
            HeadIs(toks, Ident("OVER")) && !IsStuck(toks) && IsKeyword(toks, "OVER")
  {
    assert EqIgnoreAsciiCase("OVER", "OVER");
  }

  /** The outcome of the parts from the one with the `OVER` on. */
  ghost predicate PartsGo(r: Result<Args, ParseError>, es: seq<Expr>, clause: Clause, rest: seq<Tok>, good: bool) {
    r.Ok? ==>
      && r.value.rest == rest && r.value.clause.cats.Some? && AllPlain(r.value.exprs)
      && (r.value.exprs == es && r.value.clause == clause ==> good)
  }

  lemma {:induction false} AtOnward(b: Book, def: FnDef, args: seq<Expr>, i: nat, at: nat, over: seq<Tok>, clause: Clause,
                                    kinds: nat -> ParamKind, rest: seq<Tok>, d: nat, x: Expr, good: bool, good': bool)
    requires args != [] && !IsMarker(args[0]) && FindsClause(b, clause)
    requires IsPlain(x) && (x == Bare(args[0], def.Reduced(i, args[0])) ==> good)
    requires var tail := PartTail(b, args, i, at, over, IntoToks(b, clause.into)) + rest;
             OverGoes(b, ParseOver(b, NO_CLAUSE, over + tail, d), clause, tail)
    requires Parts(args[1..]) != [] ==>
               forall c: Clause :: c.cats.Some? && c.into == [] ==>
                 RestGoes(ParseArgsFrom(b, kinds, i + 1, c, PartToks(b, args[1..], i + 1, at, over, IntoToks(b, clause.into)) + rest, d),
                          c, clause.into, BareParts(def, args[1..], i + 1), rest, good')
    ensures var tail := PartTail(b, args, i, at, over, IntoToks(b, clause.into)) + rest;
            var r := ParseOver(b, NO_CLAUSE, over + tail, d);
            r.Ok? ==> PartsGo(Onward(b, kinds, i, x, r.value.0, r.value.1, d),
                              [Bare(args[0], def.Reduced(i, args[0]))] + BareParts(def, args[1..], i + 1), clause, rest,
                              good && GoodPred(b, clause) && (Parts(args[1..]) != [] ==> good'))
  {
    var tail := PartTail(b, args, i, at, over, IntoToks(b, clause.into)) + rest;
    var r := ParseOver(b, NO_CLAUSE, over + tail, d);
    if r.Ok? {
      var c := r.value.0;
      if IsStuck(r.value.1) {
        StuckArgs(b, kinds, i, x, c, r.value.1, d);
      } else {
        FirstOnward(b, def, args, i, at, over, clause.into, c, kinds, i, rest, d, x, tail, good, good');
        assert c.(into := clause.into) == clause ==> c == clause.(into := []);
      }
    }
  }

  // ----- categories that a list takes with it -----

  /** A list of categories goes on with whatever comes after it. */
  lemma {:induction false} MoreCategoriesThen(b: Book, cs: seq<CategoryId>, rest: seq<Tok>)
    requires cs != [] && !HeadIs(rest, Op(Dot)) && !HeadIs(rest, Op(Open))
    requires forall i :: 0 <= i < |cs| ==> FindsCategory(b, cs[i]) && b.measureNamed(CategoryName(b, cs[i])).None?
    ensures var more, r := ParseMoreCategories(b, rest), ParseMoreCategories(b, [Op(Comma)] + (CategoryToks(b, cs) + rest));
            (more.Err? ==> r.Err?) && (more.Ok? ==> r == Ok((cs + more.value.0, more.value.1)))
  {
    if |cs| == 1 {
      ShortList(b, cs, rest);
      OneCategoryThen(b, cs[0], rest);
      assert cs == [cs[0]];
    } else {
      MoreCategoriesThen(b, cs[1..], rest);
      LongList(b, cs, rest);
      OneCategoryThen(b, cs[0], [Op(Comma)] + (CategoryToks(b, cs[1..]) + rest));
      ListsJoin(cs, ParseMoreCategories(b, rest));
    }
  }

  lemma ListsJoin(cs: seq<CategoryId>, more: Result<(seq<CategoryId>, seq<Tok>), ParseError>)
    requires cs != []
    ensures more.Ok? ==> [cs[0]] + (cs[1..] + more.value.0) == cs + more.value.0
  {
  }

  lemma OneCategoryThen(b: Book, c: CategoryId, rest: seq<Tok>)
    requires FindsCategory(b, c) && b.measureNamed(CategoryName(b, c)).None? && !HeadIs(rest, Op(Dot)) && !HeadIs(rest, Op(Open))
    ensures var more, r := ParseMoreCategories(b, rest), ParseMoreCategories(b, [Op(Comma)] + ([NameTok(b, CategoryName(b, c))] + rest));
            (more.Err? ==> r.Err?) && (more.Ok? ==> r == Ok(([c] + more.value.0, more.value.1)))
  {
    var toks := [NameTok(b, CategoryName(b, c))] + rest;
    assert ([Op(Comma)] + toks)[1..] == toks && toks[1..] == rest;
  }

  /** `OVER` and its categories, with whatever more of them come after. */
  lemma {:induction false} OverThen(b: Book, clause: Clause, tail: seq<Tok>, d: nat)
    requires FindsClause(b, clause) && IsOpen(clause) && HeadIs(tail, Op(Comma))
    ensures TakesMore(b, clause, OverToks(b, clause) + WhereToks(b, clause.pred), tail, d)
  {
    var cats := clause.cats.value;
    var toks := OverToks(b, clause) + tail;
    assert OverToks(b, clause) + WhereToks(b, clause.pred) + tail == toks;
    OverSpelled(b, clause, tail);
    var next := if |cats| == 1 then tail else [Op(Comma)] + (CategoryToks(b, cats[1..]) + tail);
    FirstOfList(b, cats, tail, next);
    if |cats| > 1 {
      MoreCategoriesThen(b, cats[1..], tail);
    }
    ReductionThen(b, cats, tail, next);
    OverIsThen(b, toks, d, (cats[0], next));
  }

  lemma OverSpelled(b: Book, clause: Clause, tail: seq<Tok>)
    requires clause.cats.Some? && clause.cats.value != [] && clause.window.None?
    ensures var toks := OverToks(b, clause) + tail;
            IsKeyword(toks, "OVER") && toks[1..] == CategoryToks(b, clause.cats.value) + tail && !IsKeyword(toks[1..], "ALL")
  {
    var toks := OverToks(b, clause) + tail;
    assert toks[0] == Ident("OVER") && EqIgnoreAsciiCase("OVER", "OVER");
    assert toks[1..] == CategoryToks(b, clause.cats.value) + tail;
    assert toks[1..][0] == NameTok(b, CategoryName(b, clause.cats.value[0]));
    assert KEYWORDS[9] == "ALL";
  }

  lemma FirstOfList(b: Book, cats: seq<CategoryId>, tail: seq<Tok>, next: seq<Tok>)
    requires FindsList(b, cats) && HeadIs(tail, Op(Comma))
    requires next == if |cats| == 1 then tail else [Op(Comma)] + (CategoryToks(b, cats[1..]) + tail)
    ensures ParseCategory(b, CategoryToks(b, cats) + tail) == Ok((cats[0], next)) && HeadIs(next, Op(Comma))
  {
    if |cats| == 1 {
      ShortList(b, cats, tail);
    } else {
      LongList(b, cats, tail);
    }
    NameRead(b, CategoryName(b, cats[0]), next);
  }

  lemma ReductionThen(b: Book, cats: seq<CategoryId>, tail: seq<Tok>, next: seq<Tok>)
    requires cats != [] && HeadIs(next, Op(Comma))
    requires var more := ParseMoreCategories(b, tail);
             if |cats| == 1 then next == tail
             else
               var all := ParseMoreCategories(b, next);
               (more.Err? ==> all.Err?) && (more.Ok? ==> all == Ok((cats[1..] + more.value.0, more.value.1)))
    ensures var more, r := ParseMoreCategories(b, tail), ParseReduction(b, cats[0], next);
            (more.Err? ==> r.Err?) && (more.Ok? ==> r == Ok((cats + more.value.0, None, more.value.1)))
  {
    ListsJoin(cats, ParseMoreCategories(b, tail));
    assert |cats| == 1 ==> cats == [cats[0]];
  }

  lemma OverIsThen(b: Book, toks: seq<Tok>, d: nat, first: (CategoryId, seq<Tok>))
    requires IsKeyword(toks, "OVER") && !IsKeyword(toks[1..], "ALL") && ParseCategory(b, toks[1..]) == Ok(first)
    ensures var cats, r := ParseReduction(b, first.0, first.1), ParseOver(b, NO_CLAUSE, toks, d);
            && (cats.Err? ==> r.Err?)
            && (cats.Ok? && !IsKeyword(cats.value.2, "WHERE") ==>
                  r == Ok((Clause(Some(cats.value.0), cats.value.1, None, []), cats.value.2)))
  {
  }

  /** The outcome lands on `rest` with these categories. */
  ghost predicate Lands(r: Result<Args, ParseError>, c: Clause, rest: seq<Tok>) {
    r.Ok? ==> r.value.rest == rest && r.value.clause.cats == c.cats && AllPlain(r.value.exprs)
  }

  /** From here a list lands on `rest`, whatever clause it has read. */
  ghost predicate TailGoes(b: Book, kinds: nat -> ParamKind, toks: seq<Tok>, rest: seq<Tok>, d: nat) {
    && !IsKeyword(toks, "WHERE")
    && forall q: nat, x: Expr, c: Clause :: c.cats.Some? && c.into == [] && IsPlain(x) ==>
         Lands(Onward(b, kinds, q, x, c, toks, d), c, rest)
  }

  /** Wherever the categories end, the list goes on to `rest`. */
  ghost predicate MoreGoes(b: Book, kinds: nat -> ParamKind, toks: seq<Tok>, rest: seq<Tok>, d: nat) {
    var m := ParseMoreCategories(b, toks);
    m.Ok? ==> TailGoes(b, kinds, m.value.1, rest, d)
  }

  /** So it does after one more category at least. */
  ghost predicate Absorbs(b: Book, kinds: nat -> ParamKind, toks: seq<Tok>, rest: seq<Tok>, d: nat) {
    var m := ParseMoreCategories(b, toks);
    m.Ok? ==> m.value.0 != [] && TailGoes(b, kinds, m.value.1, rest, d)
  }

  /** What a clause's reading makes of more categories. */
  ghost predicate TakesMore(b: Book, clause: Clause, over: seq<Tok>, tail: seq<Tok>, d: nat)
    requires clause.cats.Some?
  {
    var more, r := ParseMoreCategories(b, tail), ParseOver(b, NO_CLAUSE, over + tail, d);
    && (more.Err? ==> r.Err?)
    && (more.Ok? && !IsKeyword(more.value.1, "WHERE") ==>
          r == Ok((Clause(Some(clause.cats.value + more.value.0), None, None, []), more.value.1)))
  }

  /** A token that ends no argument: the list is refused. */
  lemma {:induction false} QuietTail(b: Book, kinds: nat -> ParamKind, toks: seq<Tok>, rest: seq<Tok>, d: nat)
    requires toks != [] && IsQuiet(toks[0])
    ensures TailGoes(b, kinds, toks, rest, d)
    ensures forall c: Clause :: ParseOver(b, c, toks, d) == Ok((c, toks))
    ensures forall q: nat, x: Expr, c: Clause :: Onward(b, kinds, q, x, c, toks, d).Err?
  {
    assert !IsKeyword(toks, "INTO") && !IsKeyword(toks, "WHERE") && !IsKeyword(toks, "OVER");
  }

  /** One more category is the whole of a part, or its first token. */
  lemma {:induction false} AbsorbOne(b: Book, part: seq<Tok>, tail: seq<Tok>)
    requires part != [] && CategoryAhead(b, part + tail)
    ensures var m, more := ParseMoreCategories(b, [Op(Comma)] + (part + tail)), ParseMoreCategories(b, part[1..] + tail);
            m.Ok? ==> more.Ok? && m.value.1 == more.value.1 && m.value.0 != []
  {
    var toks := [Op(Comma)] + (part + tail);
    assert toks[1..] == part + tail && (part + tail)[1..] == part[1..] + tail;
  }

  lemma {:induction false} QuietRest(b: Book, kinds: nat -> ParamKind, toks: seq<Tok>, rest: seq<Tok>, d: nat)
    requires toks != [] && IsQuiet(toks[0])
    ensures ParseMoreCategories(b, toks) == Ok(([], toks)) && TailGoes(b, kinds, toks, rest, d)
  {
    QuietTail(b, kinds, toks, rest, d);
  }

  lemma {:induction false} AbsorbStep(b: Book, part: seq<Tok>, tail: seq<Tok>, kinds: nat -> ParamKind, rest: seq<Tok>, d: nat)
    requires part != [] && CategoryAhead(b, part + tail)
    requires if |part| == 1 then MoreGoes(b, kinds, tail, rest, d) else IsQuiet(part[1])
    ensures Absorbs(b, kinds, [Op(Comma)] + (part + tail), rest, d)
  {
    AbsorbOne(b, part, tail);
    if |part| == 1 {
      assert part[1..] + tail == tail;
    } else {
      QuietRest(b, kinds, part[1..] + tail, rest, d);
    }
  }

  lemma {:induction false} PartSecondIsQuiet(b: Book, a: Expr, reduced: bool)
    requires LegiblePart(b, a, reduced, false)
    ensures Toks(b, a) != [] && (|Toks(b, a)| >= 2 ==> IsQuiet(Toks(b, a)[1]))
  {
    if reduced {
      assert |Toks(b, a)| >= 2 ==> Toks(b, a)[1] == Op(OpenBracket);
    } else {
      FirstIsQuiet(b, a);
      if |Toks(b, a)| >= 2 {
        SecondIsQuiet(b, a);
      }
    }
  }

  // ----- a hidden aggregation -----

  ghost predicate Dead(toks: seq<Tok>) {
    toks != [] && IsQuiet(toks[0])
  }

  /** An argument, however it is read: up to the part's end, or nowhere. */
  ghost predicate FirstEnds(b: Book, kind: ParamKind, q: nat, toks: seq<Tok>, after: seq<Tok>, d: nat) {
    var first := ParseArg(b, kind, q, toks, d);
    first.Ok? ==> first.value.1 == after || Dead(first.value.1)
  }

  predicate HasOver(b: Book, kinds: nat -> ParamKind, q: nat, toks: seq<Tok>, d: nat) {
    var r := ParseArgsFrom(b, kinds, q, NO_CLAUSE, toks, d);
    r.Ok? ==> r.value.clause.cats.Some?
  }

  lemma {:induction false} CategoryFirst(b: Book, kind: ParamKind, q: nat, part: seq<Tok>, after: seq<Tok>, d: nat)
    requires kind.TakesCategory? && part != [] && (|part| >= 2 ==> IsQuiet(part[1]))
    ensures FirstEnds(b, kind, q, part + after, after, d)
  {
    assert (part + after)[1..] == part[1..] + after;
    if |part| == 1 {
      assert part[1..] + after == after;
    } else {
      assert (part[1..] + after)[0] == part[1];
    }
  }

  lemma {:induction false} HiddenStep(b: Book, kinds: nat -> ParamKind, q: nat, toks: seq<Tok>, after: seq<Tok>, d: nat)
    requires FirstEnds(b, kinds(q), q, toks, after, d)
    requires if HeadIs(after, Op(Comma)) then HasOver(b, kinds, q + 1, after[1..], d) else IsKeyword(after, "OVER")
    ensures HasOver(b, kinds, q, toks, d)
  {
    OnwardIs(b, kinds, q, NO_CLAUSE, toks, d);
    var first := ParseArg(b, kinds(q), q, toks, d);
    if first.Ok? && first.value.1 == after {
      if HeadIs(after, Op(Comma)) {
        CommaOnward(b, kinds, q, first.value.0, NO_CLAUSE, after, d);
        AfterPartStays(b, NO_CLAUSE, after, d);
      } else {
        var over := ParseOver(b, NO_CLAUSE, after, d);
        if over.Ok? {
          OverStays(b, kinds, q, first.value.0, over.value.0, over.value.1, d);
        }
      }
    } else if first.Ok? {
      QuietTail(b, kinds, first.value.1, [], d);
    }
  }

  lemma {:induction false} OverStays(b: Book, kinds: nat -> ParamKind, q: nat, x: Expr, c: Clause, toks: seq<Tok>, d: nat)
    requires c.cats.Some?
    ensures var r := Onward(b, kinds, q, x, c, toks, d); r.Ok? ==> r.value.clause.cats.Some?
  {
    var into := ParseInto(b, c, toks);
    if into.Ok? && HeadIs(into.value.1, Op(Comma)) {
      ClauseStays(b, kinds, q + 1, into.value.0, into.value.1[1..], d);
    }
  }

  /** A LAMBDA takes no clause, so its call is refused. */
  lemma {:induction false} HiddenIsRefused(b: Book, def: FnDef, args: seq<Expr>, rest: seq<Tok>, d: nat, inner: nat)
    requires Hidden(b, def) && Reducing(b, def.id) == Some(def) && Stops(rest, 10) && inner == d + 1
    requires var toks := AggregationToks(b, def, args) + rest;
             && !HeadIs(toks, Op(Close))
             && forall kinds: nat -> ParamKind :: HasOver(b, kinds, 0, toks, inner)
    ensures ParseAt(b, 10, Toks(b, Call(def.id, args)) + rest, d).Err?
  {
    var toks := [Ident(def.name), Op(Open)] + AggregationToks(b, def, args) + rest;
    AggregationCallToks(b, def, args);
    CallSpelled(def.name, AggregationToks(b, def, args), rest);
    CalledIsPrimary(b, def.name, toks, d);
    PrimaryStands(b, toks, d);
    HiddenCall(b, def, toks, inner);
  }

  lemma {:induction false} HiddenCall(b: Book, def: FnDef, toks: seq<Tok>, d: nat)
    requires Hidden(b, def) && |toks| >= 2 && !HeadIs(toks[2..], Op(Close))
    requires forall kinds: nat -> ParamKind :: HasOver(b, kinds, 0, toks[2..], d)
    ensures ParseCalled(b, def.name, toks, d).Err?
  {
    var id := b.lambdaNamed(def.name).value;
    assert ParseCalled(b, def.name, toks, d) == ParseLambdaCall(b, id, def.name, toks[2..], d);
    if KindsOf(b.lambdas[id]).Some? {
      var kinds := LambdaKinds(KindsOf(b.lambdas[id]).value);
      ListStart(b, kinds, toks[2..], d);
      assert HasOver(b, kinds, 0, toks[2..], d);
    }
  }

  // ----- a whole aggregation -----

  lemma {:induction false} StepAggregationGoes(b: Book, def: FnDef, args: seq<Expr>, rest: seq<Tok>, d: nat, good: bool)
    requires Reducing(b, def.id) == Some(def) && CallsAggregation(b, def, true) && Stops(rest, 10) && d + 1 <= b.maxNest && !good
    requires SharedOver(def, Parts(args)).Some?
    requires var toks := AggregationToks(b, def, args) + rest;
             && !HeadIs(toks, Op(Close))
             && PartsGo(ParseArgsFrom(b, AggregationKinds(b, def), 0, NO_CLAUSE, toks, d + 1), BareParts(def, args, 0),
                        ClauseOf(def, args), rest, good)
    ensures var e := Call(def.id, args); Goes(ParseAt(b, 10, Toks(b, e) + rest, d), e, rest, good)
  {
    var toks := [Ident(def.name), Op(Open)] + AggregationToks(b, def, args) + rest;
    AggregationCallToks(b, def, args);
    CallSpelled(def.name, AggregationToks(b, def, args), rest);
    CalledIsPrimary(b, def.name, toks, d);
    PrimaryStands(b, toks, d);
    AggregationIsCalled(b, def, toks, d + 1);
    ListStart(b, AggregationKinds(b, def), toks[2..], d + 1);
    AnotherCall(b, def, args, toks[2..], rest, d + 1);
  }

  lemma {:induction false} AnotherCall(b: Book, def: FnDef, args: seq<Expr>, toks: seq<Tok>, rest: seq<Tok>, d: nat)
    requires CallsAggregation(b, def, true) && SharedOver(def, Parts(args)).Some?
    requires PartsGo(ParseArgs(b, AggregationKinds(b, def), toks, d), BareParts(def, args, 0), ClauseOf(def, args), rest, false)
    ensures var r := ParseCall(b, def.name, toks, d);
            r.Ok? ==> r.value.1 == rest && r.value.0 != Expr.Call(def.id, args) && IsComposite(r.value.0)
  {
    var list := ParseArgs(b, AggregationKinds(b, def), toks, d);
    if list.Ok? {
      var es, clause := list.value.exprs, list.value.clause;
      CallIs(b, def, toks, d, list.value);
      if FinishAggregation(def, es, clause) == Ok(Expr.Call(def.id, args)) {
        FinishedFrom(def, es, clause, args);
      }
    } else {
      CallIs(b, def, toks, d, Args([], NO_CLAUSE, []));
    }
  }
}
