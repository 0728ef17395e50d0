/** What each parameter of a named LAMBDA takes, read off its body, and when a
    call's arguments fit. */
module LambdaParams {
  import opened Results
  import opened Formulas
  import opened Placeholders
  import opened Lambdas

  datatype ParamKind = TakesValue | TakesReading | TakesCategory

  datatype ParamUse = ParamUse(value: bool, reduced: bool, category: bool)

  const UNUSED := ParamUse(false, false, false)

  // ----- how a body uses parameter `i` -----

  predicate NamesCategory(cs: seq<CategoryId>, i: nat) {
    cs != [] && (LambdaCategoryOf(cs[0]) == Some(i) || NamesCategory(cs[1..], i))
  }

  predicate SpecNamesCategory(s: DimensionSpec, i: nat) {
    NamesCategory(s.groupBy, i) || NamesCategory(s.over, i) || NamesCategory(s.except, i)
  }

  function Merged(a: ParamUse, b: ParamUse): ParamUse {
    ParamUse(a.value || b.value, a.reduced || b.reduced, a.category || b.category)
  }

  function UseOf(e: Expr, i: nat): ParamUse
    decreases e, 1
  {
    match e
    case Ref(m, s) =>
      var own := LambdaParamOf(m) == Some(i);
      ParamUse(own, own && s != PLAIN, SpecNamesCategory(s, i))
    case Category(c) => ParamUse(false, false, LambdaCategoryOf(c) == Some(i))
    case Unary(_, a) => UseOf(a, i)
    case Binary(_, a, b) => Merged(UseOf(a, i), UseOf(b, i))
    case Call(_, es) => UseOfAll(es, i)
    case Literal(_) => UNUSED
  }

  function UseOfAll(es: seq<Expr>, i: nat): ParamUse
    decreases es, 0
  {
    if es == [] then UNUSED else Merged(UseOf(es[0], i), UseOfAll(es[1..], i))
  }

  /** Marks in `uses` how `e` uses each parameter it has a slot for. */
  method MarkUses(e: Expr, uses: array<ParamUse>)
    modifies uses
    ensures forall i :: 0 <= i < uses.Length ==> uses[i] == Merged(old(uses[i]), UseOf(e, i))
    decreases e, 1
  {
    match e {
      case Ref(m, s) =>
        MarkCategories(s.groupBy, uses);
        MarkCategories(s.over, uses);
        MarkCategories(s.except, uses);
        var p := LambdaParamOf(m);
        if p.Some? && p.value < uses.Length {
          var u := uses[p.value];
          uses[p.value] := ParamUse(true, u.reduced || s != PLAIN, u.category);
        }
      case Category(c) =>
        MarkCategories([c], uses);
        assert forall i: nat :: NamesCategory([c], i) <==> LambdaCategoryOf(c) == Some(i);
      case Unary(_, a) =>
        MarkUses(a, uses);
      case Binary(_, a, b) =>
        MarkUses(a, uses);
        MarkUses(b, uses);
      case Call(_, es) =>
        MarkUsesAll(es, uses);
      case Literal(_) =>
    }
  }

  method MarkUsesAll(es: seq<Expr>, uses: array<ParamUse>)
    modifies uses
    ensures forall i :: 0 <= i < uses.Length ==> uses[i] == Merged(old(uses[i]), UseOfAll(es, i))
    decreases es, 0
  {
    if es != [] {
      MarkUses(es[0], uses);
      MarkUsesAll(es[1..], uses);
    }
  }

  method MarkCategories(cs: seq<CategoryId>, uses: array<ParamUse>)
    modifies uses
    ensures forall i :: 0 <= i < uses.Length ==>
              uses[i] == Merged(old(uses[i]), ParamUse(false, false, NamesCategory(cs, i)))
  {
    if cs != [] {
      var p := LambdaCategoryOf(cs[0]);
      if p.Some? && p.value < uses.Length {
        uses[p.value] := uses[p.value].(category := true);
      }
      MarkCategories(cs[1..], uses);
    }
  }

  datatype KindError = BothValueAndCategory(param: string)

  function KindOf(u: ParamUse): ParamKind {
    if u.category then TakesCategory else if u.reduced then TakesReading else TakesValue
  }

  ghost predicate Clashes(l: NamedLambda, i: nat) {
    UseOf(l.body, i).value && UseOf(l.body, i).category
  }

  /** Parameter `i` is the first used both as a value and as a category. */
  ghost predicate FirstClash(l: NamedLambda, i: nat) {
    Clashes(l, i) && forall j :: 0 <= j < i ==> !Clashes(l, j)
  }

  /** The first parameter used both ways is an error; else the kinds. */
  method ParamKinds(l: NamedLambda) returns (r: Result<seq<ParamKind>, KindError>)
    ensures r.Ok? <==> forall i :: 0 <= i < |l.params| ==> !Clashes(l, i)
    ensures r.Ok? ==> |r.value| == |l.params|
    ensures r.Ok? ==> forall i :: 0 <= i < |l.params| ==> r.value[i] == KindOf(UseOf(l.body, i))
    ensures r.Err? ==> exists i :: 0 <= i < |l.params| && r.error == BothValueAndCategory(l.params[i]) && FirstClash(l, i)
  {
    var uses := new ParamUse[|l.params|](_ => UNUSED);
    MarkUses(l.body, uses);
    var kinds := [];
    for i := 0 to |l.params|
      invariant |kinds| == i
      invariant forall j :: 0 <= j < |l.params| ==> uses[j] == UseOf(l.body, j)
      invariant forall j :: 0 <= j < i ==> !Clashes(l, j) && kinds[j] == KindOf(UseOf(l.body, j))
    {
      if uses[i].value && uses[i].category {
        assert FirstClash(l, i);
        return Err(BothValueAndCategory(l.params[i]));
      }
      kinds := kinds + [KindOf(uses[i])];
    }
    return Ok(kinds);
  }

  // ----- when arguments fit -----

  /** What substitution needs of the argument a body uses so. */
  predicate Fits(u: ParamUse, args: seq<Expr>, i: nat) {
    && (u.category ==> i < |args| && args[i].Category?)
    && (u.reduced && i < |args| ==> args[i].Ref?)
  }

  lemma {:induction false} CategoriesFit(cs: seq<CategoryId>, args: seq<Expr>, i: nat)
    requires SubstCategories(cs, args).Ok?
    ensures |SubstCategories(cs, args).value| == |cs|
    ensures NamesCategory(cs, i) ==> i < |args| && args[i].Category?
  {
    if cs != [] {
      CategoriesFit(cs[1..], args, i);
    }
  }

  lemma {:induction false} CategoriesMisfit(cs: seq<CategoryId>, args: seq<Expr>) returns (i: nat)
    requires SubstCategories(cs, args).Err?
    ensures NamesCategory(cs, i) && !(i < |args| && args[i].Category?)
  {
    if SubstCategory(cs[0], args).Err? {
      i := LambdaCategoryOf(cs[0]).value;
    } else {
      i := CategoriesMisfit(cs[1..], args);
    }
  }

  /** A substitution that succeeds had arguments that fit. */
  lemma {:induction false} SubstitutedArgumentFits(body: Expr, args: seq<Expr>, i: nat)
    requires Subst(body, args).Ok?
    ensures Fits(UseOf(body, i), args, i)
    decreases body, 1
  {
    match body
    case Literal(_) =>
    case Ref(m, s) =>
      CategoriesFit(s.groupBy, args, i);
      CategoriesFit(s.over, args, i);
      CategoriesFit(s.except, args, i);
      assert SubstSpec(s, args).value == PLAIN ==> s == PLAIN;
    case Category(c) => CategoriesFit([c], args, i);
    case Unary(_, a) => SubstitutedArgumentFits(a, args, i);
    case Binary(_, a, b) =>
      SubstitutedArgumentFits(a, args, i);
      SubstitutedArgumentFits(b, args, i);
    case Call(_, es) => SubstitutedArgumentFitsAll(es, args, i);
  }

  lemma {:induction false} SubstitutedArgumentFitsAll(es: seq<Expr>, args: seq<Expr>, i: nat)
    requires SubstAll(es, args).Ok?
    ensures Fits(UseOfAll(es, i), args, i)
    decreases es, 0
  {
    if es != [] {
      SubstitutedArgumentFits(es[0], args, i);
      SubstitutedArgumentFitsAll(es[1..], args, i);
    }
  }

  /** A substitution that fails names an argument that does not fit. */
  lemma {:induction false} FailedArgument(body: Expr, args: seq<Expr>) returns (i: nat)
    requires Subst(body, args).Err?
    ensures !Fits(UseOf(body, i), args, i)
    decreases body, 1
  {
    match body {
      case Ref(m, s) =>
        if SubstCategories(s.groupBy, args).Err? {
          i := CategoriesMisfit(s.groupBy, args);
        } else if SubstCategories(s.over, args).Err? {
          i := CategoriesMisfit(s.over, args);
        } else if SubstCategories(s.except, args).Err? {
          i := CategoriesMisfit(s.except, args);
        } else {
          i := LambdaParamOf(m).value;
        }
      case Category(c) =>
        i := LambdaCategoryOf(c).value;
      case Unary(_, a) =>
        i := FailedArgument(a, args);
      case Binary(_, a, b) =>
        if Subst(a, args).Err? {
          i := FailedArgument(a, args);
        } else {
          i := FailedArgument(b, args);
        }
      case Call(_, es) =>
        i := FailedArgumentAmong(es, args);
    }
  }

  lemma {:induction false} FailedArgumentAmong(es: seq<Expr>, args: seq<Expr>) returns (i: nat)
    requires SubstAll(es, args).Err?
    ensures !Fits(UseOfAll(es, i), args, i)
    decreases es, 0
  {
    if Subst(es[0], args).Err? {
      i := FailedArgument(es[0], args);
    } else {
      i := FailedArgumentAmong(es[1..], args);
    }
  }

  /** Substitution succeeds exactly when every argument fits how the body uses it. */
  lemma SubstSucceedsIffArgumentsFit(body: Expr, args: seq<Expr>)
    ensures Subst(body, args).Ok? <==> forall i: nat :: Fits(UseOf(body, i), args, i)
  {
    if Subst(body, args).Ok? {
      forall i: nat
        ensures Fits(UseOf(body, i), args, i)
      {
        SubstitutedArgumentFits(body, args, i);
      }
    } else {
      var i := FailedArgument(body, args);
    }
  }

  /** No parameter placeholder beyond the first `n`. */
  ghost predicate ScopedTo(e: Expr, n: nat) {
    forall i: nat :: i >= n ==> UseOf(e, i) == UNUSED
  }

  /** What the parser passes for a parameter of each kind. */
  predicate Matches(k: ParamKind, arg: Expr) {
    match k
    case TakesValue => true
    case TakesReading => arg.Ref?
    case TakesCategory => arg.Category?
  }

  /** A LAMBDA whose kinds are sound, called with arguments of those kinds,
      always substitutes. */
  lemma MatchingArgumentsSubstitute(l: NamedLambda, kinds: seq<ParamKind>, args: seq<Expr>)
    requires ScopedTo(l.body, |l.params|)
    requires |kinds| == |l.params| == |args|
    requires forall i :: 0 <= i < |kinds| ==>
               kinds[i] == KindOf(UseOf(l.body, i)) && !Clashes(l, i)
    requires forall i :: 0 <= i < |kinds| ==> Matches(kinds[i], args[i])
    ensures Subst(l.body, args).Ok?
  {
    SubstSucceedsIffArgumentsFit(l.body, args);
    forall i: nat
      ensures Fits(UseOf(l.body, i), args, i)
    {
      ReducedIsValue(l.body, i);
      if i < |kinds| {
        assert Matches(kinds[i], args[i]);
      }
    }
  }

  lemma {:induction false} ReducedIsValue(e: Expr, i: nat)
    ensures UseOf(e, i).reduced ==> UseOf(e, i).value
    decreases e, 1
  {
    match e
    case Unary(_, a) => ReducedIsValue(a, i);
    case Binary(_, a, b) =>
      ReducedIsValue(a, i);
      ReducedIsValue(b, i);
    case Call(_, es) => ReducedIsValueAll(es, i);
    case _ =>
  }

  lemma {:induction false} ReducedIsValueAll(es: seq<Expr>, i: nat)
    ensures UseOfAll(es, i).reduced ==> UseOfAll(es, i).value
    decreases es, 0
  {
    if es != [] {
      ReducedIsValue(es[0], i);
      ReducedIsValueAll(es[1..], i);
    }
  }

  // ----- no placeholder is left -----

  lemma {:induction false} SubstCategoriesLeavesNone(cs: seq<CategoryId>, args: seq<Expr>, i: nat)
    requires SubstCategories(cs, args).Ok?
    requires forall k :: 0 <= k < |args| ==> ScopedTo(args[k], 0)
    ensures !NamesCategory(SubstCategories(cs, args).value, i)
  {
    if cs != [] {
      SubstCategoriesLeavesNone(cs[1..], args, i);
      var p := LambdaCategoryOf(cs[0]);
      var r := SubstCategories(cs, args).value;
      assert r[1..] == SubstCategories(cs[1..], args).value;
      if p.Some? {
        assert UseOf(args[p.value], i) == UNUSED;
      }
    }
  }

  /** With placeholder-free arguments for every parameter, the substituted body
      holds no placeholder. */
  lemma {:induction false} SubstitutionLeavesNoPlaceholder(body: Expr, args: seq<Expr>, i: nat)
    requires Subst(body, args).Ok?
    requires ScopedTo(body, |args|)
    requires forall k :: 0 <= k < |args| ==> ScopedTo(args[k], 0)
    ensures UseOf(Subst(body, args).value, i) == UNUSED
    decreases body, 1
  {
    match body
    case Literal(_) =>
    case Ref(m, s) =>
      SubstCategoriesLeavesNone(s.groupBy, args, i);
      SubstCategoriesLeavesNone(s.over, args, i);
      SubstCategoriesLeavesNone(s.except, args, i);
      var p := LambdaParamOf(m);
      if p.Some? {
        assert UseOf(body, p.value).value;
        assert UseOf(args[p.value], i) == UNUSED;
      }
    case Category(c) =>
      SubstCategoriesLeavesNone([c], args, i);
      var p := LambdaCategoryOf(c);
      if p.Some? {
        assert UseOf(args[p.value], i) == UNUSED;
      }
    case Unary(_, a) =>
      assert forall j: nat :: UseOf(a, j) == UseOf(body, j);
      SubstitutionLeavesNoPlaceholder(a, args, i);
    case Binary(_, a, b) =>
      assert forall j: nat :: UseOf(body, j) == Merged(UseOf(a, j), UseOf(b, j));
      SubstitutionLeavesNoPlaceholder(a, args, i);
      SubstitutionLeavesNoPlaceholder(b, args, i);
    case Call(_, es) =>
      assert forall j: nat :: UseOfAll(es, j) == UseOf(body, j);
      SubstitutionLeavesNoPlaceholderAll(es, args, i);
  }

  lemma {:induction false} SubstitutionLeavesNoPlaceholderAll(es: seq<Expr>, args: seq<Expr>, i: nat)
    requires SubstAll(es, args).Ok?
    requires forall j: nat :: j >= |args| ==> UseOfAll(es, j) == UNUSED
    requires forall k :: 0 <= k < |args| ==> ScopedTo(args[k], 0)
    ensures UseOfAll(SubstAll(es, args).value, i) == UNUSED
    decreases es, 0
  {
    if es != [] {
      assert forall j: nat :: UseOfAll(es, j) == Merged(UseOf(es[0], j), UseOfAll(es[1..], j));
      SubstitutionLeavesNoPlaceholder(es[0], args, i);
      SubstitutionLeavesNoPlaceholderAll(es[1..], args, i);
      assert SubstAll(es, args).value[1..] == SubstAll(es[1..], args).value;
    }
  }
}
