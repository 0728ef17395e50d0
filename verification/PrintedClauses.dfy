/** Reading the clauses of an aggregation back from the tokens they print as. */
module PrintedClauses {
  import opened Integers
  import opened Results
  import opened Formulas
  import opened Texts
  import opened LambdaParams
  import opened Functions
  import opened Tokenizer
  import opened Parser
  import opened Printer
  import opened PrintedTokens

  // ----- categories without brackets -----

  /** `rest` continues no list of categories. */
  predicate NoMore(b: Book, rest: seq<Tok>) {
    && !HeadIs(rest, Op(Dot)) && !HeadIs(rest, Op(Open))
    && (HeadIs(rest, Op(Comma)) ==> !CategoryAhead(b, rest[1..]))
  }

  lemma {:induction false} MoreCategoriesRead(b: Book, cs: seq<CategoryId>, rest: seq<Tok>)
    requires cs != [] && NoMore(b, rest)
    requires forall i :: 0 <= i < |cs| ==> FindsCategory(b, cs[i]) && b.measureNamed(CategoryName(b, cs[i])).None?
    ensures ParseMoreCategories(b, [Op(Comma)] + (CategoryToks(b, cs) + rest)) == Ok((cs, rest))
  {
    if |cs| == 1 {
      NothingMore(b, rest);
      OneCategoryRead(b, cs[0], rest, [], rest);
      ShortList(b, cs, rest);
    } else {
      var more := [Op(Comma)] + (CategoryToks(b, cs[1..]) + rest);
      MoreCategoriesRead(b, cs[1..], rest);
      OneCategoryRead(b, cs[0], more, cs[1..], rest);
      LongList(b, cs, rest);
    }
  }

  lemma ShortList(b: Book, cs: seq<CategoryId>, rest: seq<Tok>)
    requires |cs| == 1
    ensures CategoryToks(b, cs) + rest == [NameTok(b, CategoryName(b, cs[0]))] + rest && cs == [cs[0]] + [] && cs[1..] == []
  {
  }

  lemma NothingMore(b: Book, rest: seq<Tok>)
    requires NoMore(b, rest)
    ensures ParseMoreCategories(b, rest) == Ok(([], rest))
  {
  }

  lemma LongList(b: Book, cs: seq<CategoryId>, rest: seq<Tok>)
    requires |cs| > 1
    ensures CategoryToks(b, cs) + rest ==
            [NameTok(b, CategoryName(b, cs[0]))] + ([Op(Comma)] + (CategoryToks(b, cs[1..]) + rest))
    ensures cs == [cs[0]] + cs[1..]
  {
    CommaAfter(NameTok(b, CategoryName(b, cs[0])), CategoryToks(b, cs[1..]), rest);
  }

  lemma CommaAfter(first: Tok, more: seq<Tok>, rest: seq<Tok>)
    ensures [first, Op(Comma)] + more + rest == [first] + ([Op(Comma)] + (more + rest))
  {
  }

  lemma OneCategoryRead(b: Book, c: CategoryId, more: seq<Tok>, cs: seq<CategoryId>, rest: seq<Tok>)
    requires FindsCategory(b, c) && b.measureNamed(CategoryName(b, c)).None?
    requires !HeadIs(more, Op(Dot)) && !HeadIs(more, Op(Open)) && ParseMoreCategories(b, more) == Ok((cs, rest))
    ensures ParseMoreCategories(b, [Op(Comma)] + ([NameTok(b, CategoryName(b, c))] + more)) == Ok(([c] + cs, rest))
  {
    var toks := [NameTok(b, CategoryName(b, c))] + more;
    assert ([Op(Comma)] + toks)[1..] == toks && toks[1..] == more;
  }

  /** The first category of a list, and the others after it. */
  lemma ListRead(b: Book, cs: seq<CategoryId>, rest: seq<Tok>) returns (more: seq<Tok>)
    requires FindsList(b, cs) && NoMore(b, rest)
    ensures ParseCategory(b, CategoryToks(b, cs) + rest) == Ok((cs[0], more))
    ensures ParseMoreCategories(b, more) == Ok((cs[1..], rest))
    ensures HeadIs(more, Op(OpenBracket)) ==> HeadIs(rest, Op(OpenBracket))
  {
    var name := NameTok(b, CategoryName(b, cs[0]));
    if |cs| == 1 {
      more := rest;
      NothingMore(b, rest);
      assert CategoryToks(b, cs) == [name] && cs[1..] == [];
    } else {
      more := [Op(Comma)] + (CategoryToks(b, cs[1..]) + rest);
      MoreCategoriesRead(b, cs[1..], rest);
      LongList(b, cs, rest);
    }
    NameRead(b, CategoryName(b, cs[0]), more);
  }

  lemma LoneCategoryRead(b: Book, c: CategoryId, rest: seq<Tok>)
    requires FindsCategory(b, c) && !HeadIs(rest, Op(Dot))
    ensures ParseCategory(b, CategoryToks(b, [c]) + rest) == Ok((c, rest))
  {
    NameRead(b, CategoryName(b, c), rest);
  }

  // ----- windows -----

  lemma BoundRead(r: Reader, e: Expr, rest: seq<Tok>)
    requires ReadableBound(r, e) && !HeadIs(rest, Op(Plus)) && !HeadIs(rest, Op(Minus))
    ensures ParseBound(BoundToks(e) + rest) == Ok((e, rest))
  {
    var toks := BoundToks(e) + rest;
    if e.value.Text? {
      WordBound(e.value.text, toks);
      assert toks[1..] == rest;
    } else if e.value.numeral == "0" {
      assert toks[1..] == rest;
      Here(toks);
    } else {
      OffsetRead(e.value.numeral, toks, rest);
    }
  }

  lemma WordBound(word: string, toks: seq<Tok>)
    requires (word == "FIRST" || word == "LAST") && HeadIs(toks, Ident(word))
    ensures ParseBound(toks) == Ok((Literal(Text(word)), toks[1..]))
  {
    assert EqIgnoreAsciiCase(word, word) && |"FIRST"| != |"LAST"|;
  }

  lemma Here(toks: seq<Tok>)
    requires HeadIs(toks, Ident("THIS"))
    ensures !IsKeyword(toks, "FIRST") && !IsKeyword(toks, "LAST") && IsKeyword(toks, "THIS")
  {
    assert |"THIS"| != |"FIRST"| && Lower("THIS"[0]) != Lower("LAST"[0]);
  }

  lemma OffsetRead(n: string, toks: seq<Tok>, rest: seq<Tok>)
    requires n != [] && n != "0" && toks == BoundToks(Literal(Number(n))) + rest
    requires if n[0] == '-' then IsWhole(n[1..]) && n[1..] != "0" else IsWhole(n)
    ensures ParseBound(toks) == Ok((Literal(Number(n)), rest))
  {
    Here(toks);
    assert toks[3..] == rest && toks[1..][0] == toks[1];
    if n[0] == '-' {
      assert n == "-" + n[1..];
      assert toks[2] == Num(n[1..]) && toks[1] == Op(Minus);
    } else {
      assert toks[2] == Num(n) && toks[1] == Op(Plus);
    }
  }

  lemma WindowRead(b: Book, c: CategoryId, lo: Expr, hi: Expr, rest: seq<Tok>)
    requires ReadableBound(b.reader, lo) && ReadableBound(b.reader, hi)
    ensures ParseReduction(b, c, WindowToks(lo, hi) + rest) == Ok(([c], Some((lo, hi)), rest))
  {
    var close := [Op(CloseBracket)] + rest;
    var dots := [Op(Dot), Op(Dot)] + (BoundToks(hi) + close);
    var toks := WindowToks(lo, hi) + rest;
    WindowSpelled(lo, hi, rest);
    BoundRead(b.reader, lo, dots);
    BoundRead(b.reader, hi, close);
    assert dots[1..][0] == Op(Dot) && dots[2..] == BoundToks(hi) + close && close[1..] == rest;
    WindowIs(b, c, toks, (lo, dots), (hi, close));
  }

  lemma WindowSpelled(lo: Expr, hi: Expr, rest: seq<Tok>)
    ensures var toks := WindowToks(lo, hi) + rest;
            HeadIs(toks, Op(OpenBracket)) &&
            toks[1..] == BoundToks(lo) + ([Op(Dot), Op(Dot)] + (BoundToks(hi) + ([Op(CloseBracket)] + rest)))
  {
    var close := [Op(CloseBracket)] + rest;
    var dots := [Op(Dot), Op(Dot)] + (BoundToks(hi) + close);
    assert WindowToks(lo, hi) + rest == [Op(OpenBracket)] + (BoundToks(lo) + dots);
  }

  lemma WindowIs(b: Book, c: CategoryId, toks: seq<Tok>, lo: (Expr, seq<Tok>), hi: (Expr, seq<Tok>))
    requires HeadIs(toks, Op(OpenBracket)) && ParseBound(toks[1..]) == Ok(lo)
    requires HeadIs(lo.1, Op(Dot)) && HeadIs(lo.1[1..], Op(Dot))
    requires ParseBound(lo.1[2..]) == Ok(hi) && HeadIs(hi.1, Op(CloseBracket))
    ensures ParseReduction(b, c, toks) == Ok(([c], Some((lo.0, hi.0)), hi.1[1..]))
  {
  }

  // ----- OVER -----

  /** What ends a clause before the next part, `INTO`, or the closing parenthesis. */
  predicate Ends(b: Book, open: bool, tail: seq<Tok>) {
    tail != [] &&
    (tail[0] == Op(Close) || tail[0] == Ident("INTO") || (tail[0] == Op(Comma) && (open ==> !CategoryAhead(b, tail[1..]))))
  }

  /** `OVER`, its categories and the window are read up to the condition or the end. */
  lemma {:induction false} ReductionRead(b: Book, clause: Clause, tail: seq<Tok>) returns (first: (CategoryId, seq<Tok>))
    requires FindsClause(b, clause) && tail != []
    requires !HeadIs(tail, Op(OpenBracket)) && (clause.window.None? ==> NoMore(b, tail))
    ensures var toks := OverToks(b, clause) + tail;
            && IsKeyword(toks, "OVER") && !IsKeyword(toks[1..], "ALL") && ParseCategory(b, toks[1..]) == Ok(first)
            && ParseReduction(b, first.0, first.1) == Ok((clause.cats.value, clause.window, tail))
  {
    var cats := clause.cats.value;
    var window := match clause.window case Some(w) => WindowToks(w.0, w.1) case None => [];
    var toks := OverToks(b, clause) + tail;
    assert toks[0] == Ident("OVER") && toks[1..] == CategoryToks(b, cats) + (window + tail);
    assert toks[1..][0] == NameTok(b, CategoryName(b, cats[0]));
    assert KEYWORDS[9] == "ALL";
    match clause.window {
      case None =>
        assert window + tail == tail;
        var more := ListRead(b, cats, tail);
        MoreIs(b, cats, more, tail);
        first := (cats[0], more);
      case Some(w) =>
        assert cats == [cats[0]];
        LoneCategoryRead(b, cats[0], window + tail);
        WindowRead(b, cats[0], w.0, w.1, tail);
        first := (cats[0], window + tail);
    }
  }

  lemma MoreIs(b: Book, cats: seq<CategoryId>, more: seq<Tok>, rest: seq<Tok>)
    requires cats != [] && !HeadIs(more, Op(OpenBracket)) && ParseMoreCategories(b, more) == Ok((cats[1..], rest))
    ensures ParseReduction(b, cats[0], more) == Ok((cats, None, rest))
  {
    assert [cats[0]] + cats[1..] == cats;
  }

  lemma OverIs(b: Book, toks: seq<Tok>, d: nat, first: (CategoryId, seq<Tok>), clause: Clause, tail: seq<Tok>)
    requires IsKeyword(toks, "OVER") && !IsKeyword(toks[1..], "ALL") && ParseCategory(b, toks[1..]) == Ok(first)
    requires clause.cats.Some? && ParseReduction(b, first.0, first.1) == Ok((clause.cats.value, clause.window, tail))
    ensures var r := ParseOver(b, NO_CLAUSE, toks, d);
            if !IsKeyword(tail, "WHERE") then r == Ok((Clause(clause.cats, clause.window, None, []), tail))
            else
              var p := ParseAt(b, 1, tail[1..], d);
              (p.Err? ==> r.Err?) && (p.Ok? ==> r == Ok((Clause(clause.cats, clause.window, Some(p.value.0), []), p.value.1)))
  {
  }

  predicate PredFits(b: Book, pred: Option<Expr>, d: nat) {
    pred.Some? ==> HasRoom(b, pred.value, d, Nest(pred.value))
  }

  predicate PredNested(b: Book, pred: Option<Expr>, d: nat) {
    pred.Some? && d + Nest(pred.value) > b.maxNest
  }

  function WhereToks(b: Book, pred: Option<Expr>): seq<Tok> {
    match pred case Some(p) => [Ident("WHERE")] + Toks(b, p) case None => []
  }

  ghost predicate OverReads(b: Book, over: seq<Tok>, clause: Clause, d: nat) {
    forall tail: seq<Tok> :: Ends(b, IsOpen(clause), tail) ==>
      Reads(ParseOver(b, NO_CLAUSE, over + tail, d), Ok((clause.(into := []), tail)),
            PredFits(b, clause.pred, d), PredNested(b, clause.pred, d))
  }

  lemma EndOfClause(b: Book, open: bool, tail: seq<Tok>)
    requires Ends(b, open, tail)
    ensures !IsKeyword(tail, "WHERE") && !HeadIs(tail, Op(OpenBracket)) && (open ==> NoMore(b, tail))
  {
    assert |"INTO"| != |"WHERE"|;
  }

  /** An `OVER` clause is read once its condition is. */
  lemma {:induction false} StepOver(b: Book, clause: Clause, tail: seq<Tok>, d: nat)
    requires FindsClause(b, clause) && Ends(b, IsOpen(clause), tail)
    requires clause.pred.Some? ==>
               Reads(ParseAt(b, 1, Toks(b, clause.pred.value) + tail, d), Ok((clause.pred.value, tail)),
                     PredFits(b, clause.pred, d), PredNested(b, clause.pred, d))
    ensures Reads(ParseOver(b, NO_CLAUSE, OverToks(b, clause) + WhereToks(b, clause.pred) + tail, d),
                  Ok((clause.(into := []), tail)), PredFits(b, clause.pred, d), PredNested(b, clause.pred, d))
  {
    EndOfClause(b, IsOpen(clause), tail);
    if clause.pred.None? {
      StepPlainOver(b, clause, tail, d);
    } else {
      StepOverWhere(b, clause, clause.pred.value, tail, d);
    }
  }

  lemma EndStops(b: Book, open: bool, tail: seq<Tok>)
    requires Ends(b, open, tail)
    ensures Stops(tail, 1)
  {
    assert |"INTO"| != |"OR"| && |"INTO"| != |"AND"|;
  }

  /** The condition is read, whatever ends it. */
  ghost predicate PredReads(b: Book, p: Expr, open: bool, d: nat) {
    forall tail: seq<Tok> :: Ends(b, open, tail) ==>
      ReadsBack(b, 1, p, tail, d)
  }

  lemma OverIsRead(b: Book, clause: Clause, d: nat)
    requires FindsClause(b, clause) && (clause.pred.Some? ==> PredReads(b, clause.pred.value, IsOpen(clause), d))
    ensures OverReads(b, OverToks(b, clause) + WhereToks(b, clause.pred), clause, d)
  {
    forall tail: seq<Tok> | Ends(b, IsOpen(clause), tail)
      ensures Reads(ParseOver(b, NO_CLAUSE, OverToks(b, clause) + WhereToks(b, clause.pred) + tail, d),
                    Ok((clause.(into := []), tail)), PredFits(b, clause.pred, d), PredNested(b, clause.pred, d))
    {
      StepOver(b, clause, tail, d);
    }
  }

  lemma {:induction false} StepPlainOver(b: Book, clause: Clause, tail: seq<Tok>, d: nat)
    requires FindsClause(b, clause) && clause.pred.None? && tail != [] && !IsKeyword(tail, "WHERE")
    requires !HeadIs(tail, Op(OpenBracket)) && (clause.window.None? ==> NoMore(b, tail))
    ensures ParseOver(b, NO_CLAUSE, OverToks(b, clause) + WhereToks(b, clause.pred) + tail, d) == Ok((clause.(into := []), tail))
  {
    assert OverToks(b, clause) + WhereToks(b, clause.pred) == OverToks(b, clause);
    var first := ReductionRead(b, clause, tail);
    OverIs(b, OverToks(b, clause) + tail, d, first, clause, tail);
  }

  lemma {:induction false} StepOverWhere(b: Book, clause: Clause, p: Expr, tail: seq<Tok>, d: nat)
    requires FindsClause(b, clause) && clause.pred == Some(p)
    ensures var q := ParseAt(b, 1, Toks(b, p) + tail, d);
            var r := ParseOver(b, NO_CLAUSE, OverToks(b, clause) + WhereToks(b, clause.pred) + tail, d);
            (q.Err? ==> r.Err?) && (q.Ok? ==> r == Ok((clause.(pred := Some(q.value.0), into := []), q.value.1)))
  {
    var after := WhereToks(b, clause.pred) + tail;
    WhereSpelled(b, p, tail);
    assert OverToks(b, clause) + WhereToks(b, clause.pred) + tail == OverToks(b, clause) + after;
    var first := ReductionRead(b, clause, after);
    OverIs(b, OverToks(b, clause) + after, d, first, clause, after);
  }

  lemma WhereSpelled(b: Book, p: Expr, tail: seq<Tok>)
    ensures var after := WhereToks(b, Some(p)) + tail;
            && after != [] && IsKeyword(after, "WHERE") && after[1..] == Toks(b, p) + tail
            && !HeadIs(after, Op(OpenBracket)) && NoMore(b, after)
  {
    assert EqIgnoreAsciiCase("WHERE", "WHERE");
    assert WhereToks(b, Some(p)) + tail == [Ident("WHERE")] + (Toks(b, p) + tail);
  }

  // ----- INTO -----

  lemma {:induction false} IntoRead(b: Book, clause: Clause, cats: seq<CategoryId>, rest: seq<Tok>)
    requires clause.into == [] && (cats == [] || FindsList(b, cats)) && HeadIs(rest, Op(Close))
    ensures ParseInto(b, clause, IntoToks(b, cats) + rest) == Ok((clause.(into := cats), rest))
  {
    if cats == [] {
      assert IntoToks(b, cats) + rest == rest;
    } else {
      var toks := IntoToks(b, cats) + rest;
      assert toks[0] == Ident("INTO") && toks[1..] == CategoryToks(b, cats) + rest;
      var more := ListRead(b, cats, rest);
      assert [cats[0]] + cats[1..] == cats;
    }
  }

  // ----- one part of a list, given that its pieces are read -----

  /** A list of arguments by its first one and what follows. */
  lemma ArgsFromIs(b: Book, kinds: nat -> ParamKind, i: nat, clause: Clause, toks: seq<Tok>, d: nat)
    requires kinds(i) == TakesValue
    ensures var first, r := ParseAt(b, 1, toks, d), ParseArgsFrom(b, kinds, i, clause, toks, d);
            && (first.Err? ==> r.Err?)
            && (first.Ok? ==>
                  var over := ParseOver(b, clause, first.value.1, d);
                  && (over.Err? ==> r.Err?)
                  && (over.Ok? ==>
                        var into := ParseInto(b, over.value.0, over.value.1);
                        into.Ok? ==>
                          && (!HeadIs(into.value.1, Op(Close)) && !HeadIs(into.value.1, Op(Comma)) ==> r.Err?)
                          && (HeadIs(into.value.1, Op(Close)) ==>
                                r == Ok(Args([first.value.0], into.value.0, into.value.1[1..])))
                          && (HeadIs(into.value.1, Op(Comma)) ==>
                                var more := ParseArgsFrom(b, kinds, i + 1, into.value.0, into.value.1[1..], d);
                                && (more.Err? ==> r.Err?)
                                && (more.Ok? ==> r == Ok(Args([first.value.0] + more.value.exprs, more.value.clause, more.value.rest))))))
  {
  }

  lemma LastOutcome(first: Parsed, over: Result<(Clause, seq<Tok>), ParseError>, r: Result<Args, ParseError>,
                    part: (Expr, seq<Tok>), clause: (Clause, seq<Tok>), goal: Args,
                    fits: bool, nested: bool, fits': bool, nested': bool)
    requires Reads(first, Ok(part), fits, nested) && Reads(over, Ok(clause), fits', nested')
    requires (first.Err? ==> r.Err?) && (first == Ok(part) && over.Err? ==> r.Err?)
    requires first == Ok(part) && over == Ok(clause) ==> r == Ok(goal)
    ensures Reads(r, Ok(goal), fits && fits', nested || nested')
  {
  }

  /** A part is read, its `OVER`, and the parts after the comma. */
  lemma MorePartsRead(b: Book, kinds: nat -> ParamKind, i: nat, clause: Clause, toks: seq<Tok>, d: nat,
                      part: (Expr, seq<Tok>), over: (Clause, seq<Tok>), goal: Args,
                      fits: bool, nested: bool, fits': bool, nested': bool, fits'': bool, nested'': bool)
    requires kinds(i) == TakesValue && HeadIs(over.1, Op(Comma))
    requires Reads(ParseAt(b, 1, toks, d), Ok(part), fits, nested)
    requires Reads(ParseOver(b, clause, part.1, d), Ok(over), fits', nested')
    requires Reads(ParseArgsFrom(b, kinds, i + 1, over.0, over.1[1..], d), Ok(goal), fits'', nested'')
    ensures Reads(ParseArgsFrom(b, kinds, i, clause, toks, d), Ok(Args([part.0] + goal.exprs, goal.clause, goal.rest)),
                  fits && fits' && fits'', nested || nested' || nested'')
  {
    ArgsFromIs(b, kinds, i, clause, toks, d);
    assert ParseInto(b, over.0, over.1) == Ok(over);
  }

  // ----- what a list of parts starts with -----

  lemma AheadStays(b: Book, toks: seq<Tok>, rest: seq<Tok>)
    requires toks != [] && !HeadIs(rest, Op(Open)) && !HeadIs(rest, Op(Dot))
    ensures CategoryAhead(b, toks + rest) == CategoryAhead(b, toks)
  {
    if |toks| == 1 {
      assert (toks + rest)[1..] == rest;
    } else {
      assert (toks + rest)[1..][0] == toks[1..][0];
    }
  }

  predicate StartsClause(toks: seq<Tok>, word: string) {
    toks == [] || toks[0] == Ident(word)
  }

  /** The first part, and what comes after it. */
  lemma {:induction false} FirstPart(b: Book, args: seq<Expr>, i: nat, at: nat, over: seq<Tok>, into: seq<Tok>) returns (more: seq<Tok>)
    requires Parts(args) != [] && StartsClause(over, "OVER") && StartsClause(into, "INTO")
    ensures PartToks(b, args, i, at, over, into) == Toks(b, Parts(args)[0]) + more
    ensures more != [] && more[0] in {Op(Comma), Op(Close), Ident("OVER"), Ident("INTO")}
  {
    if IsMarker(args[0]) {
      more := FirstPart(b, args[1..], i, at, over, into);
    } else {
      var tail := if Parts(args[1..]) == [] then into + [Op(Close)] else [Op(Comma)] + PartToks(b, args[1..], i + 1, at, over, into);
      more := OverHere(i, at, over) + tail;
      assert tail != [] && tail[0] in {Op(Comma), Op(Close), Ident("INTO")};
      assert over == [] || i != at ==> more == tail;
    }
  }

  // ----- one part and its clauses -----

  /** What has been read of the clauses before part `i`. */
  function ClauseSoFar(clause: Clause, i: nat, at: nat): Clause {
    if i <= at then NO_CLAUSE else clause.(into := [])
  }

  function OverHere(i: nat, at: nat, over: seq<Tok>): seq<Tok> {
    if i == at then over else []
  }

  /** What follows part `i` and its `OVER`. */
  function PartTail(b: Book, args: seq<Expr>, i: nat, at: nat, over: seq<Tok>, into: seq<Tok>): seq<Tok>
    requires args != []
  {
    if Parts(args[1..]) == [] then into + [Op(Close)] else [Op(Comma)] + PartToks(b, args[1..], i + 1, at, over, into)
  }

  lemma PartSpelled(b: Book, args: seq<Expr>, i: nat, at: nat, over: seq<Tok>, into: seq<Tok>, rest: seq<Tok>)
    requires args != [] && !IsMarker(args[0])
    ensures PartToks(b, args, i, at, over, into) + rest ==
            Toks(b, args[0]) + (OverHere(i, at, over) + (PartTail(b, args, i, at, over, into) + rest))
  {
    FourPieces(Toks(b, args[0]), OverHere(i, at, over), PartTail(b, args, i, at, over, into), rest);
  }

  /** No operator follows a part. */
  lemma AfterPart(b: Book, args: seq<Expr>, i: nat, at: nat, over: seq<Tok>, into: seq<Tok>, rest: seq<Tok>)
    requires args != [] && StartsClause(over, "OVER") && StartsClause(into, "INTO")
    ensures Stops(OverHere(i, at, over) + (PartTail(b, args, i, at, over, into) + rest), 1)
  {
    assert |"INTO"| == |"OVER"| && |"OVER"| != |"OR"| && |"OVER"| != |"AND"|;
    var here, tail := OverHere(i, at, over), PartTail(b, args, i, at, over, into);
    assert tail[0] in {Op(Comma), Op(Close), Ident("INTO")};
    assert (here + (tail + rest))[0] == if here == [] then tail[0] else here[0];
  }

  lemma FourPieces(a: seq<Tok>, b: seq<Tok>, c: seq<Tok>, d: seq<Tok>)
    ensures a + (b + c) + d == a + (b + (c + d))
  {
  }

  /** The `OVER` after part `i`, if that is where it stands. */
  lemma StepPartOver(b: Book, clause: Clause, i: nat, at: nat, over: seq<Tok>, tail: seq<Tok>, d: nat)
    requires OverReads(b, over, clause, d) && Ends(b, i == at && IsOpen(clause), tail)
    ensures Reads(ParseOver(b, ClauseSoFar(clause, i, at), OverHere(i, at, over) + tail, d),
                  Ok((ClauseSoFar(clause, i + 1, at), tail)),
                  i == at ==> PredFits(b, clause.pred, d), i == at && PredNested(b, clause.pred, d))
  {
    if i != at {
      assert [] + tail == tail;
      assert |"INTO"| == |"OVER"| && Lower("INTO"[0]) != Lower("OVER"[0]);
    }
  }

  lemma LastTail(b: Book, open: bool, cats: seq<CategoryId>, rest: seq<Tok>)
    ensures var into := IntoToks(b, cats); var tail := into + [Op(Close)] + rest;
            Ends(b, open, tail) && Stops(tail, 1) && tail == into + ([Op(Close)] + rest)
  {
    var into := IntoToks(b, cats);
    assert into + [Op(Close)] + rest == into + ([Op(Close)] + rest);
    assert into != [] ==> into[0] == Ident("INTO");
    assert |"INTO"| != |"OR"| && |"INTO"| != |"AND"|;
  }

  /** The parts, and the condition if it is still to come, are within the limits. */
  predicate PartsFit(b: Book, parts: seq<Expr>, pred: Option<Expr>, coming: bool, d: nat) {
    d + NestAll(parts) <= b.maxNest && DepthAll(parts) <= b.maxDepth && (coming ==> PredFits(b, pred, d))
  }

  predicate PartsNested(b: Book, parts: seq<Expr>, pred: Option<Expr>, coming: bool, d: nat) {
    d + NestAll(parts) > b.maxNest || (coming && PredNested(b, pred, d))
  }

  /** A part is read as its bare form. */
  ghost predicate PartReads(b: Book, a: Expr, reduced: bool, rest: seq<Tok>, d: nat) {
    Reads(ParseAt(b, 1, Toks(b, a) + rest, d), Ok((Bare(a, reduced), rest)), HasRoom(b, a, d, Nest(a)), d + Nest(a) > b.maxNest)
  }

  /** The parts from the `i`-th on are read as their bare forms, and the clauses among them. */
  ghost predicate PartsRead(b: Book, def: FnDef, args: seq<Expr>, i: nat, at: nat, over: seq<Tok>, clause: Clause,
                            kinds: nat -> ParamKind, rest: seq<Tok>, d: nat) {
    var toks := PartToks(b, args, i, at, over, IntoToks(b, clause.into)) + rest;
    Reads(ParseArgsFrom(b, kinds, i, ClauseSoFar(clause, i, at), toks, d), Ok(Args(BareParts(def, args, i), clause, rest)),
          PartsFit(b, Parts(args), clause.pred, i <= at, d), PartsNested(b, Parts(args), clause.pred, i <= at, d))
  }

  lemma {:induction false} StepLastPart(b: Book, def: FnDef, args: seq<Expr>, i: nat, at: nat, over: seq<Tok>, clause: Clause,
                     kinds: nat -> ParamKind, rest: seq<Tok>, d: nat)
    requires args != [] && !IsMarker(args[0]) && !args[0].Category? && Parts(args[1..]) == [] && at <= i
    requires OverReads(b, over, clause, d) && FindsClause(b, clause) && kinds(i) == TakesValue
    requires var a := args[0];
             var after := OverHere(i, at, over) + (PartTail(b, args, i, at, over, IntoToks(b, clause.into)) + rest);
             PartReads(b, a, def.Reduced(i, a), after, d)
    ensures PartsRead(b, def, args, i, at, over, clause, kinds, rest, d)
  {
    var into, a, close := IntoToks(b, clause.into), args[0], [Op(Close)] + rest;
    var tail := PartTail(b, args, i, at, over, into) + rest;
    var after := OverHere(i, at, over) + tail;
    PartSpelled(b, args, i, at, over, into, rest);
    LastTail(b, i == at && IsOpen(clause), clause.into, rest);
    StepPartOver(b, clause, i, at, over, tail, d);
    IntoRead(b, clause.(into := []), clause.into, close);
    ArgsFromIs(b, kinds, i, ClauseSoFar(clause, i, at), Toks(b, a) + after, d);
    assert close[1..] == rest;
    LastOutcome(ParseAt(b, 1, Toks(b, a) + after, d), ParseOver(b, ClauseSoFar(clause, i, at), after, d),
                ParseArgsFrom(b, kinds, i, ClauseSoFar(clause, i, at), Toks(b, a) + after, d),
                (Bare(a, def.Reduced(i, a)), after), (clause.(into := []), tail),
                Args([Bare(a, def.Reduced(i, a))], clause, rest),
                HasRoom(b, a, d, Nest(a)), d + Nest(a) > b.maxNest,
                i == at ==> PredFits(b, clause.pred, d), i == at && PredNested(b, clause.pred, d));
    OnlyPart(def, args, i);
  }

  lemma OnlyPart(def: FnDef, args: seq<Expr>, i: nat)
    requires args != [] && !IsMarker(args[0]) && !args[0].Category? && Parts(args[1..]) == []
    ensures Parts(args) == [args[0]] && BareParts(def, args, i) == [Bare(args[0], def.Reduced(i, args[0]))]
    ensures NestAll(Parts(args)) == Nest(args[0]) && DepthAll(Parts(args)) == Depth(args[0])
  {
    NoMoreParts(def, args[1..], i + 1);
    OnePart(args[0], []);
  }

  lemma {:induction false} NoMoreParts(def: FnDef, args: seq<Expr>, i: nat)
    requires Parts(args) == []
    ensures BareParts(def, args, i) == []
  {
    if args != [] && IsMarker(args[0]) {
      NoMoreParts(def, args[1..], i);
    }
  }

  lemma OnePart(a: Expr, more: seq<Expr>)
    requires !IsMarker(a) && !a.Category?
    ensures NestAll([a] + more) == Max(Nest(a), NestAll(more)) && DepthAll([a] + more) == Max(Depth(a), DepthAll(more))
  {
    assert ([a] + more)[1..] == more;
  }

  lemma {:induction false} StepPart(b: Book, def: FnDef, args: seq<Expr>, i: nat, at: nat, over: seq<Tok>, clause: Clause,
                 kinds: nat -> ParamKind, rest: seq<Tok>, d: nat)
    requires args != [] && !IsMarker(args[0]) && !args[0].Category? && Parts(args[1..]) != []
    requires i == at && IsOpen(clause) ==> Toks(b, Parts(args[1..])[0]) != [] && !CategoryAhead(b, Toks(b, Parts(args[1..])[0]))
    requires OverReads(b, over, clause, d) && StartsClause(over, "OVER") && kinds(i) == TakesValue
    requires var a := args[0];
             var after := OverHere(i, at, over) + (PartTail(b, args, i, at, over, IntoToks(b, clause.into)) + rest);
             PartReads(b, a, def.Reduced(i, a), after, d)
    requires PartsRead(b, def, args[1..], i + 1, at, over, clause, kinds, rest, d)
    ensures PartsRead(b, def, args, i, at, over, clause, kinds, rest, d)
  {
    var into, a, parts := IntoToks(b, clause.into), args[0], Parts(args[1..]);
    var tail := PartTail(b, args, i, at, over, into) + rest;
    var after := OverHere(i, at, over) + tail;
    PartSpelled(b, args, i, at, over, into, rest);
    CommaTail(b, args, i, at, over, into, rest, i == at && IsOpen(clause));
    StepPartOver(b, clause, i, at, over, tail, d);
    MorePartsRead(b, kinds, i, ClauseSoFar(clause, i, at), Toks(b, a) + after, d,
                  (Bare(a, def.Reduced(i, a)), after), (ClauseSoFar(clause, i + 1, at), tail),
                  Args(BareParts(def, args[1..], i + 1), clause, rest),
                  HasRoom(b, a, d, Nest(a)), d + Nest(a) > b.maxNest,
                  i == at ==> PredFits(b, clause.pred, d), i == at && PredNested(b, clause.pred, d),
                  PartsFit(b, parts, clause.pred, i + 1 <= at, d), PartsNested(b, parts, clause.pred, i + 1 <= at, d));
    FirstFits(b, a, parts, clause.pred, i, at, d);
    FirstOfParts(def, args, i);
  }

  lemma FirstOfParts(def: FnDef, args: seq<Expr>, i: nat)
    requires args != [] && !IsMarker(args[0])
    ensures Parts(args) == [args[0]] + Parts(args[1..])
    ensures BareParts(def, args, i) == [Bare(args[0], def.Reduced(i, args[0]))] + BareParts(def, args[1..], i + 1)
  {
  }

  lemma FirstFits(b: Book, a: Expr, parts: seq<Expr>, pred: Option<Expr>, i: nat, at: nat, d: nat)
    requires !IsMarker(a) && !a.Category?
    ensures var more := [a] + parts;
            && (PartsFit(b, more, pred, i <= at, d) ==>
                  HasRoom(b, a, d, Nest(a)) && (i == at ==> PredFits(b, pred, d)) && PartsFit(b, parts, pred, i + 1 <= at, d))
            && (PartsNested(b, more, pred, i <= at, d) ==>
                  d + Nest(a) > b.maxNest || (i == at && PredNested(b, pred, d)) || PartsNested(b, parts, pred, i + 1 <= at, d))
  {
    OnePart(a, parts);
  }

  /** A comma and more parts, which no list of categories goes on with. */
  lemma {:induction false} CommaTail(b: Book, args: seq<Expr>, i: nat, at: nat, over: seq<Tok>, into: seq<Tok>, rest: seq<Tok>, open: bool)
    requires args != [] && Parts(args[1..]) != [] && StartsClause(over, "OVER") && StartsClause(into, "INTO")
    requires open ==> Toks(b, Parts(args[1..])[0]) != [] && !CategoryAhead(b, Toks(b, Parts(args[1..])[0]))
    ensures var tail := PartTail(b, args, i, at, over, into) + rest;
            && Ends(b, open, tail) && Stops(tail, 1) && HeadIs(tail, Op(Comma))
            && tail[1..] == PartToks(b, args[1..], i + 1, at, over, into) + rest
  {
    var tail := PartTail(b, args, i, at, over, into) + rest;
    var parts := PartToks(b, args[1..], i + 1, at, over, into);
    assert tail == [Op(Comma)] + (parts + rest);
    assert tail[1..] == parts + rest;
    if open {
      var more := FirstPart(b, args[1..], i + 1, at, over, into);
      var first := Toks(b, Parts(args[1..])[0]);
      assert parts + rest == first + (more + rest);
      AheadStays(b, first, more + rest);
    }
  }

  // ----- the whole call -----

  /** Which arguments an aggregation's name reads as categories: none. */
  function AggregationKinds(b: Book, def: FnDef): nat -> ParamKind {
    var plain := Callable(b.reader.functions, def.name);
    if plain.Some? then CallKinds(plain.value, Aggregation(b.reader.functions, def.name).Some?) else LambdaKinds([])
  }

  lemma AggregationSpelled(b: Book, def: FnDef, args: seq<Expr>)
    ensures var clause := ClauseOf(def, args);
            AggregationToks(b, def, args) ==
            PartToks(b, args, 0, PartAt(def, args), OverToks(b, clause) + WhereToks(b, clause.pred), IntoToks(b, clause.into))
  {
  }

  /** An aggregation's name calls it. */
  lemma AggregationIsCalled(b: Book, def: FnDef, toks: seq<Tok>, d: nat)
    requires CallsAggregation(b, def, true) && |toks| >= 2
    ensures ParseCalled(b, def.name, toks, d) == ParseCall(b, def.name, toks[2..], d)
  {
  }

  lemma CallIs(b: Book, def: FnDef, toks: seq<Tok>, d: nat, args: Args)
    requires CallsAggregation(b, def, false)
    ensures var r, call := ParseArgs(b, AggregationKinds(b, def), toks, d), ParseCall(b, def.name, toks, d);
            && (r.Err? ==> call.Err?)
            && (r == Ok(args) && args.clause.cats.Some? ==>
                  match FinishAggregation(def, args.exprs, args.clause)
                  case Err(_) => call.Err?
                  case Ok(e) => call == Ok((e, args.rest)))
  {
  }

  lemma StepAggregation(b: Book, def: FnDef, args: seq<Expr>, rest: seq<Tok>, d: nat)
    requires Reducing(b, def.id) == Some(def) && LegibleAggregation(b, def, args, true) && Stops(rest, 10) && d + 1 <= b.maxNest
    requires var clause, parts, toks := ClauseOf(def, args), Parts(args), AggregationToks(b, def, args) + rest;
             && !HeadIs(toks, Op(Close))
             && Reads(ParseArgsFrom(b, AggregationKinds(b, def), 0, NO_CLAUSE, toks, d + 1),
                      Ok(Args(BareParts(def, args, 0), clause, rest)),
                      PartsFit(b, parts, clause.pred, true, d + 1), PartsNested(b, parts, clause.pred, true, d + 1))
    ensures ReadsBack(b, 10, Call(def.id, args), rest, d)
  {
    var toks := [Ident(def.name), Op(Open)] + AggregationToks(b, def, args) + rest;
    var list := Args(BareParts(def, args, 0), ClauseOf(def, args), rest);
    AggregationCallToks(b, def, args);
    CallSpelled(def.name, AggregationToks(b, def, args), rest);
    AggregationRead(b, def, toks, d, list);
    ListStart(b, AggregationKinds(b, def), toks[2..], d + 1);
    ClausesNest(b, def, args, d + 1);
    AggregationOutcome(b, def, args, rest, d, list, ParseArgs(b, AggregationKinds(b, def), toks[2..], d + 1), ParseAt(b, 10, toks, d));
  }

  lemma AggregationCallToks(b: Book, def: FnDef, args: seq<Expr>)
    requires Reducing(b, def.id) == Some(def)
    ensures Toks(b, Call(def.id, args)) == [Ident(def.name), Op(Open)] + AggregationToks(b, def, args)
  {
  }

  lemma ListStart(b: Book, kinds: nat -> ParamKind, toks: seq<Tok>, d: nat)
    requires !HeadIs(toks, Op(Close))
    ensures ParseArgs(b, kinds, toks, d) == ParseArgsFrom(b, kinds, 0, NO_CLAUSE, toks, d)
  {
  }

  lemma AggregationRead(b: Book, def: FnDef, toks: seq<Tok>, d: nat, args: Args)
    requires |toks| >= 2 && toks[0] == Ident(def.name) && toks[1] == Op(Open) && d + 1 <= b.maxNest
    requires CallsAggregation(b, def, true) && args.clause.cats.Some? && FinishAggregation(def, args.exprs, args.clause).Ok?
    requires Stops(args.rest, 10)
    ensures var list, r := ParseArgs(b, AggregationKinds(b, def), toks[2..], d + 1), ParseAt(b, 10, toks, d);
            && (list.Err? ==> r.Err?)
            && (list == Ok(args) ==> r == Ok((FinishAggregation(def, args.exprs, args.clause).value, args.rest)))
  {
    CalledIsPrimary(b, def.name, toks, d);
    AggregationIsCalled(b, def, toks, d + 1);
    CallIs(b, def, toks[2..], d + 1, args);
    PrimaryStands(b, toks, d);
  }

  lemma AggregationOutcome(b: Book, def: FnDef, args: seq<Expr>, rest: seq<Tok>, d: nat, goal: Args,
                           list: Result<Args, ParseError>, r: Parsed)
    requires var pred := ClauseOf(def, args).pred;
             && Reads(list, Ok(goal), PartsFit(b, Parts(args), pred, true, d + 1), PartsNested(b, Parts(args), pred, true, d + 1))
             && (d + 1 + NestAll(args) <= b.maxNest && DepthAll(args) <= b.maxDepth ==> PartsFit(b, Parts(args), pred, true, d + 1))
             && (d + 1 + NestAll(args) > b.maxNest ==> PartsNested(b, Parts(args), pred, true, d + 1))
    requires (list.Err? ==> r.Err?) && (list == Ok(goal) ==> r == Ok((Expr.Call(def.id, args), rest)))
    ensures var e := Call(def.id, args); Reads(r, Ok((e, rest)), HasRoom(b, e, d, Nest(e)), d + Nest(e) > b.maxNest)
  {
  }

  // ----- the nesting of parts and clauses -----

  /** A call that the parser makes holds its parts and then its clauses. */
  lemma {:induction false} PartsThenMarkers(def: FnDef, args: seq<Expr>)
    requires FinishAggregation(def, BareParts(def, args, 0), ClauseOf(def, args)) == Ok(Expr.Call(def.id, args))
    ensures args == Parts(args) + Markers(ClauseOf(def, args))
  {
    var clause := ClauseOf(def, args);
    var parts := OverAll(def, BareParts(def, args, 0), clause);
    BareIsNoMarker(def, args, 0);
    PartsOf(parts, Markers(clause));
  }

  lemma {:induction false} BareIsNoMarker(def: FnDef, args: seq<Expr>, i: nat)
    ensures forall a :: a in BareParts(def, args, i) ==> !IsMarker(a)
  {
    if args != [] {
      BareIsNoMarker(def, args[1..], if IsMarker(args[0]) then i else i + 1);
    }
  }

  lemma {:induction false} PartsOf(parts: seq<Expr>, markers: seq<Expr>)
    requires (forall a :: a in parts ==> !IsMarker(a)) && (forall a :: a in markers ==> IsMarker(a))
    ensures Parts(parts + markers) == parts
  {
    if parts != [] {
      PartsOf(parts[1..], markers);
      assert (parts + markers)[1..] == parts[1..] + markers;
    } else if markers != [] {
      PartsOf([], markers[1..]);
      assert [] + markers == markers && [] + markers[1..] == markers[1..];
    }
  }

  lemma {:induction false} NestAllJoined(es: seq<Expr>, fs: seq<Expr>)
    ensures NestAll(es + fs) == Max(NestAll(es), NestAll(fs)) && DepthAll(es + fs) == Max(DepthAll(es), DepthAll(fs))
  {
    if es == [] {
      assert es + fs == fs;
    } else {
      NestAllJoined(es[1..], fs);
      assert (es + fs)[1..] == es[1..] + fs;
    }
  }

  lemma {:induction false} MarkersNest(clause: Clause)
    ensures NestAll(Markers(clause)) == match clause.pred case Some(p) => Nest(p) case None => 0
    ensures clause.pred.Some? ==> Depth(clause.pred.value) <= DepthAll(Markers(clause))
  {
    var pred := match clause.pred case Some(p) => [Expr.Call(WHERE, [p])] case None => [];
    var window := match clause.window case Some(w) => [Expr.Call(WINDOW, [w.0, w.1])] case None => [];
    var into := if clause.into == [] then [] else [Expr.Call(INTO, CategoryExprs(clause.into))];
    NestAllJoined(pred, window);
    NestAllJoined(pred + window, into);
    if clause.pred.Some? {
      assert [clause.pred.value][1..] == [];
      assert Depth(Expr.Call(WHERE, [clause.pred.value])) >= Depth(clause.pred.value);
    }
  }

  lemma ClausesNest(b: Book, def: FnDef, args: seq<Expr>, d: nat)
    requires FinishAggregation(def, BareParts(def, args, 0), ClauseOf(def, args)) == Ok(Expr.Call(def.id, args))
    ensures var pred := ClauseOf(def, args).pred;
            && (d + NestAll(args) <= b.maxNest && DepthAll(args) <= b.maxDepth ==> PartsFit(b, Parts(args), pred, true, d))
            && (d + NestAll(args) > b.maxNest ==> PartsNested(b, Parts(args), pred, true, d))
  {
    PartsThenMarkers(def, args);
    NestAllJoined(Parts(args), Markers(ClauseOf(def, args)));
    MarkersNest(ClauseOf(def, args));
  }

  lemma IntoMarker(def: FnDef, args: seq<Expr>)
    requires FinishAggregation(def, BareParts(def, args, 0), ClauseOf(def, args)) == Ok(Expr.Call(def.id, args))
    ensures var cats := ClauseOf(def, args).into; MarkerOf(args, INTO) == if cats == [] then None else Some(CategoryExprs(cats))
  {
    var clause := ClauseOf(def, args);
    PartsThenMarkers(def, args);
    PartsAreNoMarkers(args);
    MarkersAfter(Parts(args), Markers(clause), INTO);
    MarkersHold(clause);
  }

  lemma {:induction false} PartsAreNoMarkers(args: seq<Expr>)
    ensures forall a :: a in Parts(args) ==> !IsMarker(a)
  {
    if args != [] {
      PartsAreNoMarkers(args[1..]);
    }
  }

  lemma {:induction false} MarkersAfter(parts: seq<Expr>, markers: seq<Expr>, id: FuncId)
    requires IsReserved(id) && forall a :: a in parts ==> !IsMarker(a)
    ensures MarkerOf(parts + markers, id) == MarkerOf(markers, id)
  {
    if parts == [] {
      assert parts + markers == markers;
    } else {
      MarkersAfter(parts[1..], markers, id);
      assert !IsMarker(parts[0]);
      assert (parts + markers)[1..] == parts[1..] + markers;
    }
  }

  /** Each clause is in its own marker. */
  lemma MarkersHold(clause: Clause)
    ensures MarkerOf(Markers(clause), WHERE) == match clause.pred case Some(p) => Some([p]) case None => None
    ensures MarkerOf(Markers(clause), WINDOW) == match clause.window case Some(w) => Some([w.0, w.1]) case None => None
    ensures MarkerOf(Markers(clause), INTO) == if clause.into == [] then None else Some(CategoryExprs(clause.into))
  {
    MarkerAmong(clause, WHERE);
    MarkerAmong(clause, WINDOW);
    MarkerAmong(clause, INTO);
  }

  lemma MarkerAmong(clause: Clause, id: FuncId)
    ensures MarkerOf(Markers(clause), id) ==
            if id == INTO && clause.into != [] then Some(CategoryExprs(clause.into))
            else if id == WINDOW && clause.window.Some? then Some([clause.window.value.0, clause.window.value.1])
            else if id == WHERE && clause.pred.Some? then Some([clause.pred.value])
            else None
  {
    var pred := match clause.pred case Some(p) => [Expr.Call(WHERE, [p])] case None => [];
    var window := match clause.window case Some(w) => [Expr.Call(WINDOW, [w.0, w.1])] case None => [];
    var into := if clause.into == [] then [] else [Expr.Call(INTO, CategoryExprs(clause.into))];
    assert Markers(clause) == pred + (window + into);
    OneMarker(pred, window + into, id);
    OneMarker(window, into, id);
    OneMarker(into, [], id);
    assert into + [] == into;
  }

  lemma OneMarker(es: seq<Expr>, markers: seq<Expr>, id: FuncId)
    requires |es| <= 1 && forall a :: a in es ==> a.Call?
    ensures var more := MarkerOf(markers, id);
            MarkerOf(es + markers, id) ==
            if more.Some? || es == [] then more else if es[0].func == id then Some(es[0].args) else None
  {
    if es == [] {
      assert es + markers == markers;
    } else {
      assert (es + markers)[1..] == markers;
    }
  }
}
