/** What a formula means, by evaluation in an environment, and why expanding
    named LAMBDAs by substitution does not change it. */
module Meaning {
  import opened Results
  import opened Formulas
  import opened Placeholders
  import opened Lambdas

  /** What an expression denotes: a cube of values (`V` may be a function from
      coordinates to cells), a measure still to be read through a projection,
      or a category. */
  datatype Meant<V> = Cells(v: V) | Reading(measure: MeasureId, spec: DimensionSpec) | Dimension(category: CategoryId)

  /** The built-in operations over cubes. A built-in function sees what its
      arguments denote, so it can reduce a reading over its categories. */
  datatype Operations<!V> = Operations(
    literal: Value -> V,
    read: (MeasureId, DimensionSpec) -> V,
    operand: CategoryId -> V,
    unary: (UnaryOp, V) -> V,
    binary: (BinaryOp, V, V) -> V,
    builtin: (FuncId, seq<Meant<V>>) -> V)

  function Force<V>(ops: Operations<V>, m: Meant<V>): V {
    match m
    case Cells(v) => v
    case Reading(measure, spec) => ops.read(measure, spec)
    case Dimension(c) => ops.operand(c)
  }

  /** Outside a LAMBDA nothing is bound; inside one, its parameters are. */
  datatype Scope<V> = Formula | Body(bound: seq<Meant<V>>)

  function MeantCategory<V>(c: CategoryId, scope: Scope<V>): Result<CategoryId, Failure> {
    match LambdaCategoryOf(c)
    case None => Ok(c)
    case Some(i) =>
      match scope
      case Formula => Ok(c)
      case Body(bound) =>
        if i < |bound| && bound[i].Dimension? then Ok(bound[i].category) else Err(NeedsCategory(i))
  }

  function MeantCategories<V>(cs: seq<CategoryId>, scope: Scope<V>): Result<seq<CategoryId>, Failure> {
    if cs == [] then Ok([])
    else
      var c :- MeantCategory(cs[0], scope);
      var rest :- MeantCategories(cs[1..], scope);
      Ok([c] + rest)
  }

  function MeantSpec<V>(s: DimensionSpec, scope: Scope<V>): Result<DimensionSpec, Failure> {
    var groupBy :- MeantCategories(s.groupBy, scope);
    var over :- MeantCategories(s.over, scope);
    var except :- MeantCategories(s.except, scope);
    Ok(DimensionSpec(groupBy, over, except))
  }

  function MeantRef<V>(m: MeasureId, spec: DimensionSpec, scope: Scope<V>): Result<Meant<V>, Failure> {
    if scope.Body? && LambdaParamOf(m).Some? && LambdaParamOf(m).value < |scope.bound| then
      var i := LambdaParamOf(m).value;
      if spec == PLAIN then Ok(scope.bound[i])
      else if scope.bound[i].Reading? then Ok(Reading(scope.bound[i].measure, Merge(spec, scope.bound[i].spec)))
      else Err(NeedsMeasure(i))
    else
      Ok(Reading(m, spec))
  }

  /** Call-by-value evaluation: a call of a named LAMBDA evaluates its body
      with the parameters bound to what the arguments denote. No tree is
      substituted into another. */
  function Eval<V>(ops: Operations<V>, t: Table, e: Expr, scope: Scope<V>, depth: nat): Result<Meant<V>, Failure>
    decreases |t| + 2 - depth, e, 1
  {
    if depth > |t| + 1 then Err(CallCycle)
    else
      match e
      case Literal(v) => Ok(Cells(ops.literal(v)))
      case Ref(m, s) =>
        var spec :- MeantSpec(s, scope);
        MeantRef(m, spec, scope)
      case Category(c) =>
        var a :- MeantCategory(c, scope);
        Ok(Dimension(a))
      case Unary(op, a) =>
        var x :- Eval(ops, t, a, scope, depth);
        Ok(Cells(ops.unary(op, Force(ops, x))))
      case Binary(op, a, b) =>
        var x :- Eval(ops, t, a, scope, depth);
        var y :- Eval(ops, t, b, scope, depth);
        Ok(Cells(ops.binary(op, Force(ops, x), Force(ops, y))))
      case Call(f, es) =>
        var args :- EvalAll(ops, t, es, scope, depth);
        (match NamedLambdaOf(f)
         case None => Ok(Cells(ops.builtin(f, args)))
         case Some(id) =>
           if id !in t then Err(NoSuchLambda(id))
           else if |t[id].params| != |args| then Err(WrongArguments(t[id].name, |t[id].params|, |args|))
           else Eval(ops, t, t[id].body, Body(args), depth + 1))
  }

  function EvalAll<V>(ops: Operations<V>, t: Table, es: seq<Expr>, scope: Scope<V>, depth: nat)
    : (r: Result<seq<Meant<V>>, Failure>)
    requires depth <= |t| + 1
    ensures r.Ok? ==> |r.value| == |es|
    decreases |t| + 2 - depth, es, 0
  {
    if es == [] then Ok([])
    else
      var x :- Eval(ops, t, es[0], scope, depth);
      var xs :- EvalAll(ops, t, es[1..], scope, depth);
      Ok([x] + xs)
  }

  /** `bound` is what the call-free `args` denote outside any LAMBDA. */
  ghost predicate Denote<V>(ops: Operations<V>, t: Table, args: seq<Expr>, bound: seq<Meant<V>>) {
    && |bound| == |args|
    && forall i :: 0 <= i < |args| ==> Callees(args[i]) == {} && Eval(ops, t, args[i], Formula, 0) == Ok(bound[i])
  }

  lemma {:induction false} MeantCategoriesOutside<V>(cs: seq<CategoryId>)
    ensures MeantCategories<V>(cs, Formula) == Ok(cs)
  {
    if cs != [] {
      MeantCategoriesOutside<V>(cs[1..]);
      assert [cs[0]] + cs[1..] == cs;
    }
  }

  /** A call-free expression denotes the same at every depth the guard allows. */
  lemma {:induction false} CallFreeAtAnyDepth<V>(ops: Operations<V>, t: Table, e: Expr, d: nat)
    requires Callees(e) == {} && d <= |t| + 1
    ensures Eval(ops, t, e, Formula, d) == Eval(ops, t, e, Formula, 0)
    ensures Eval(ops, t, e, Formula, 0).Ok?
    ensures match Eval(ops, t, e, Formula, 0).value
            case Reading(m, s) => e == Ref(m, s)
            case Dimension(c) => e == Category(c)
            case Cells(_) => !e.Ref? && !e.Category?
    decreases e, 1
  {
    match e
    case Literal(_) =>
    case Ref(m, s) =>
      MeantCategoriesOutside<V>(s.groupBy);
      MeantCategoriesOutside<V>(s.over);
      MeantCategoriesOutside<V>(s.except);
    case Category(_) =>
    case Unary(_, a) => CallFreeAtAnyDepth(ops, t, a, d);
    case Binary(_, a, b) =>
      CallFreeAtAnyDepth(ops, t, a, d);
      CallFreeAtAnyDepth(ops, t, b, d);
    case Call(f, es) => CallFreeAllAtAnyDepth(ops, t, es, d);
  }

  lemma {:induction false} CallFreeAllAtAnyDepth<V>(ops: Operations<V>, t: Table, es: seq<Expr>, d: nat)
    requires CalleesAll(es) == {} && d <= |t| + 1
    ensures EvalAll(ops, t, es, Formula, d) == EvalAll(ops, t, es, Formula, 0)
    ensures EvalAll(ops, t, es, Formula, 0).Ok?
    ensures Denote(ops, t, es, EvalAll(ops, t, es, Formula, 0).value)
    decreases es, 0
  {
    if es != [] {
      CallFreeAtAnyDepth(ops, t, es[0], d);
      CallFreeAllAtAnyDepth(ops, t, es[1..], d);
    }
  }

  // ----- the substitution lemma -----

  lemma {:induction false} SubstCategoriesMeans<V>(ops: Operations<V>, t: Table, cs: seq<CategoryId>, args: seq<Expr>,
                                                   bound: seq<Meant<V>>)
    requires Denote(ops, t, args, bound)
    ensures SubstCategories(cs, args) == MeantCategories(cs, Body(bound))
  {
    if cs != [] {
      SubstCategoriesMeans(ops, t, cs[1..], args, bound);
      var i := LambdaCategoryOf(cs[0]);
      if i.Some? && i.value < |args| {
        CallFreeAtAnyDepth(ops, t, args[i.value], 0);
      }
    }
  }

  /** Substituting the arguments and evaluating outside any LAMBDA is
      evaluating with the parameters bound; and one fails when the other does. */
  lemma {:induction false} SubstitutionLemma<V>(ops: Operations<V>, t: Table, body: Expr, args: seq<Expr>,
                                                bound: seq<Meant<V>>, d: nat)
    requires Denote(ops, t, args, bound) && d <= |t| + 1
    ensures match Subst(body, args)
            case Ok(e) => Eval(ops, t, e, Formula, d) == Eval(ops, t, body, Body(bound), d)
            case Err(_) => Eval(ops, t, body, Body(bound), d).Err?
    decreases body, 1
  {
    match body
    case Literal(_) =>
    case Ref(m, s) => SubstRefMeans(ops, t, m, s, args, bound, d);
    case Category(c) => SubstCategoriesMeans(ops, t, [c], args, bound);
    case Unary(_, a) => SubstitutionLemma(ops, t, a, args, bound, d);
    case Binary(_, a, b) =>
      SubstitutionLemma(ops, t, a, args, bound, d);
      SubstitutionLemma(ops, t, b, args, bound, d);
    case Call(f, es) => SubstitutionLemmaAll(ops, t, es, args, bound, d);
  }

  lemma {:induction false} SubstRefMeans<V>(ops: Operations<V>, t: Table, m: MeasureId, s: DimensionSpec,
                                            args: seq<Expr>, bound: seq<Meant<V>>, d: nat)
    requires Denote(ops, t, args, bound) && d <= |t| + 1
    ensures match Subst(Ref(m, s), args)
            case Ok(e) => Eval(ops, t, e, Formula, d) == Eval(ops, t, Ref(m, s), Body(bound), d)
            case Err(_) => Eval(ops, t, Ref(m, s), Body(bound), d).Err?
  {
    SubstCategoriesMeans(ops, t, s.groupBy, args, bound);
    SubstCategoriesMeans(ops, t, s.over, args, bound);
    SubstCategoriesMeans(ops, t, s.except, args, bound);
    if SubstSpec(s, args).Ok? {
      var spec := SubstSpec(s, args).value;
      var p := LambdaParamOf(m);
      if p.Some? && p.value < |args| {
        CallFreeAtAnyDepth(ops, t, args[p.value], d);
      }
      if SubstRef(m, spec, args).Ok? && SubstRef(m, spec, args).value.Ref? {
        CallFreeAtAnyDepth(ops, t, SubstRef(m, spec, args).value, d);
      }
    }
  }

  lemma {:induction false} SubstitutionLemmaAll<V>(ops: Operations<V>, t: Table, es: seq<Expr>, args: seq<Expr>,
                                                   bound: seq<Meant<V>>, d: nat)
    requires Denote(ops, t, args, bound) && d <= |t| + 1
    ensures match SubstAll(es, args)
            case Ok(xs) => EvalAll(ops, t, xs, Formula, d) == EvalAll(ops, t, es, Body(bound), d)
            case Err(_) => EvalAll(ops, t, es, Body(bound), d).Err?
    decreases es, 0
  {
    if es != [] {
      SubstitutionLemma(ops, t, es[0], args, bound, d);
      SubstitutionLemmaAll(ops, t, es[1..], args, bound, d);
      if SubstAll(es, args).Ok? {
        assert SubstAll(es, args).value[1..] == SubstAll(es[1..], args).value;
      }
    }
  }

  // ----- expansion preserves meaning -----

  /** An expansion that succeeds denotes what the formula does, and one that
      fails for any reason but a size limit has no meaning to keep. */
  lemma {:induction false} ExpandAtMeans<V>(ops: Operations<V>, t: Table, e: Expr, depth: nat)
    ensures match ExpandAt(t, e, depth)
            case Ok(x) => Eval(ops, t, e, Formula, depth) == Eval(ops, t, x, Formula, 0)
            case Err(error) => error.IsLimit() || Eval(ops, t, e, Formula, depth).Err?
    decreases |t| + 2 - depth, e, 1
  {
    if depth <= |t| + 1 {
      match e
      case Unary(_, a) => ExpandAtMeans(ops, t, a, depth);
      case Binary(_, a, b) =>
        ExpandAtMeans(ops, t, a, depth);
        ExpandAtMeans(ops, t, b, depth);
      case Call(f, es) =>
        ExpandAllAtMeans(ops, t, es, depth);
        if ExpandAllAt(t, es, depth).Ok? && NamedLambdaOf(f).Some? {
          ExpandCallMeans(ops, t, f, es, depth);
        }
      case _ => CallFreeAtAnyDepth(ops, t, e, depth);
    }
  }

  lemma {:induction false} ExpandCallMeans<V>(ops: Operations<V>, t: Table, f: FuncId, es: seq<Expr>, depth: nat)
    requires depth <= |t| + 1 && NamedLambdaOf(f).Some?
    requires ExpandAllAt(t, es, depth).Ok?
    requires EvalAll(ops, t, es, Formula, depth) == EvalAll(ops, t, ExpandAllAt(t, es, depth).value, Formula, 0)
    ensures match ExpandAt(t, Call(f, es), depth)
            case Ok(x) => Eval(ops, t, Call(f, es), Formula, depth) == Eval(ops, t, x, Formula, 0)
            case Err(error) => error.IsLimit() || Eval(ops, t, Call(f, es), Formula, depth).Err?
    decreases |t| + 2 - depth, Call(f, es), 0
  {
    var id := NamedLambdaOf(f).value;
    var args := ExpandAllAt(t, es, depth).value;
    ExpansionCallsNothingAll(t, es, depth);
    CallFreeAllAtAnyDepth(ops, t, args, depth);
    var bound := EvalAll(ops, t, args, Formula, 0).value;
    if id in t && |t[id].params| == |args| && depth + 1 <= |t| + 1 {
      SubstitutionLemma(ops, t, t[id].body, args, bound, depth + 1);
      if BoundBody(t[id], args).Ok? {
        ExpandAtMeans(ops, t, BoundBody(t[id], args).value, depth + 1);
      }
    }
  }

  lemma {:induction false} ExpandAllAtMeans<V>(ops: Operations<V>, t: Table, es: seq<Expr>, depth: nat)
    requires depth <= |t| + 1
    ensures match ExpandAllAt(t, es, depth)
            case Ok(xs) => EvalAll(ops, t, es, Formula, depth) == EvalAll(ops, t, xs, Formula, 0)
            case Err(error) => error.IsLimit() || EvalAll(ops, t, es, Formula, depth).Err?
    decreases |t| + 2 - depth, es, 0
  {
    if es != [] {
      ExpandAtMeans(ops, t, es[0], depth);
      ExpandAllAtMeans(ops, t, es[1..], depth);
      if ExpandAllAt(t, es, depth).Ok? {
        assert ExpandAllAt(t, es, depth).value[1..] == ExpandAllAt(t, es[1..], depth).value;
      }
    }
  }

  /** Expansion keeps the meaning of every formula, whatever the built-in
      operations are: the expanded tree calls no LAMBDA, always has a meaning,
      and it is the formula's. An expansion refused for another reason than a
      size limit is of a formula without a meaning. */
  lemma ExpansionPreservesMeaning<V>(ops: Operations<V>, t: Table, e: Expr)
    ensures ExpandLambdas(t, e).Ok? ==>
              var expanded := ExpandLambdas(t, e).value;
              && Callees(expanded) == {}
              && Eval(ops, t, expanded, Formula, 0).Ok?
              && Eval(ops, t, e, Formula, 0) == Eval(ops, t, expanded, Formula, 0)
              && Size(expanded) <= MAX_FORMULA_NODES && Depth(expanded) <= MAX_STORED_FORMULA_DEPTH
    ensures ExpandLambdas(t, e).Err? ==>
              ExpandLambdas(t, e).error.IsLimit() || Eval(ops, t, e, Formula, 0).Err?
  {
    ExpandAtMeans(ops, t, e, 0);
    if ExpandLambdas(t, e).Ok? {
      ExpansionCallsNothing(t, e, 0);
      CallFreeAtAnyDepth(ops, t, ExpandLambdas(t, e).value, 0);
    }
  }

  /** A cell of the grid: which item of each category it stands at. */
  type Coordinate = map<CategoryId, U32>

  // A remark: with cubes for meanings, the equality holds cell by cell.
  lemma ExpansionPreservesEveryCell<C>(ops: Operations<Coordinate -> C>, t: Table, e: Expr, at: Coordinate)
    requires ExpandLambdas(t, e).Ok?
    ensures Eval(ops, t, e, Formula, 0).Ok?
    ensures Eval(ops, t, ExpandLambdas(t, e).value, Formula, 0).Ok?
    ensures Force(ops, Eval(ops, t, ExpandLambdas(t, e).value, Formula, 0).value)(at)
         == Force(ops, Eval(ops, t, e, Formula, 0).value)(at)
  {
    ExpansionPreservesMeaning(ops, t, e);
  }
}
