/** The reserved id ranges that stand for lambda parameters in formulas. */
module Placeholders {
  import opened Results
  import opened Formulas

  const NAMED_LAMBDA_BASE: U32 := 1_000_000
  const U32_MAX: U32 := 0xFFFF_FFFF
  /** The highest fold placeholder; 2048 ids below it are fold placeholders. */
  const LAMBDA_SLOTS: U32 := U32_MAX - 4096
  /** The highest parameter placeholder; 256 ids below it are parameters. */
  const LAMBDA_PARAMS: U32 := LAMBDA_SLOTS - 2048

  /** The function id a call of named LAMBDA `id` is stored as (saturating). */
  function NamedLambdaCall(id: U32): FuncId {
    if NAMED_LAMBDA_BASE + id > U32_MAX then U32_MAX else NAMED_LAMBDA_BASE + id
  }

  function NamedLambdaOf(f: FuncId): Option<U32> {
    if f < NAMED_LAMBDA_BASE then None else Some(f - NAMED_LAMBDA_BASE)
  }

  function LambdaParam(i: nat): MeasureId
    requires i < 256
  {
    LAMBDA_PARAMS - i
  }

  function LambdaParamOf(m: MeasureId): Option<nat> {
    if m <= LAMBDA_PARAMS && LAMBDA_PARAMS - m < 256 then Some(LAMBDA_PARAMS - m) else None
  }

  function LambdaCategory(i: nat): CategoryId
    requires i < 256
  {
    LAMBDA_PARAMS - i
  }

  function LambdaCategoryOf(c: CategoryId): Option<nat> {
    LambdaParamOf(c)
  }

  function LambdaSlot(k: nat, i: nat): MeasureId
    requires k < 1024 && i < 2
  {
    LAMBDA_SLOTS - 2 * k - i
  }

  function LambdaSlotOf(m: MeasureId): Option<(nat, nat)> {
    if m <= LAMBDA_SLOTS && LAMBDA_SLOTS - m < 2048 then Some(((LAMBDA_SLOTS - m) / 2, (LAMBDA_SLOTS - m) % 2)) else None
  }

  /** Each placeholder range is read back exactly, and no id is in two of them. */
  lemma PlaceholderRanges(m: MeasureId)
    ensures forall i: nat :: i < 256 ==> LambdaParamOf(LambdaParam(i)) == Some(i)
    ensures forall k: nat, i: nat :: k < 1024 && i < 2 ==> LambdaSlotOf(LambdaSlot(k, i)) == Some((k, i))
    ensures LambdaParamOf(m).Some? ==> LambdaParamOf(m).value < 256 && m == LambdaParam(LambdaParamOf(m).value)
    ensures LambdaSlotOf(m).Some? ==>
              LambdaSlotOf(m).value.0 < 1024 && m == LambdaSlot(LambdaSlotOf(m).value.0, LambdaSlotOf(m).value.1)
    ensures !(LambdaParamOf(m).Some? && LambdaSlotOf(m).Some?)
  {
    forall k: nat, i: nat | k < 1024 && i < 2
      ensures LambdaSlotOf(LambdaSlot(k, i)) == Some((k, i))
    {
      assert (2 * k + i) / 2 == k && (2 * k + i) % 2 == i;
    }
  }

  /** So is the category a parameter stands for. */
  lemma CategoryPlaceholderReadsBack(i: nat, c: CategoryId)
    requires i < 256
    ensures LambdaCategoryOf(LambdaCategory(i)) == Some(i)
    ensures LambdaCategoryOf(c) == Some(i) <==> c == LambdaCategory(i)
  {
  }

  /** A call id names its LAMBDA again exactly when the sum did not saturate. */
  lemma NamedLambdaReadsBack(id: U32)
    ensures NamedLambdaOf(NamedLambdaCall(id)) == Some(id) <==> id <= U32_MAX - NAMED_LAMBDA_BASE
  {
  }
}

/** Named LAMBDAs: substitution of parameters, and expansion of calls. */
module Lambdas {
  import opened Results
  import opened Formulas
  import opened Placeholders

  /** A named LAMBDA; parameter `i` is a placeholder in its body. */
  datatype NamedLambda = NamedLambda(name: string, params: seq<string>, body: Expr)

  type Table = map<U32, NamedLambda>

  datatype Failure =
    | NeedsCategory(argument: nat)
    | NeedsMeasure(argument: nat)
    | CallCycle
    | NoSuchLambda(id: U32)
    | WrongArguments(name: string, takes: nat, got: nat)
    | PastLimit(limit: LimitError)
    | Within(name: string, cause: Failure)
  {
    /** Whether this reports a size limit rather than a mistake in the formula. */
    predicate IsLimit() {
      match this
      case PastLimit(_) => true
      case Within(_, cause) => cause.IsLimit()
      case _ => false
    }
  }

  // ----- substitution -----

  function SubstCategory(c: CategoryId, args: seq<Expr>): Result<CategoryId, Failure> {
    match LambdaCategoryOf(c)
    case None => Ok(c)
    case Some(i) => if i < |args| && args[i].Category? then Ok(args[i].category) else Err(NeedsCategory(i))
  }

  function SubstCategories(cs: seq<CategoryId>, args: seq<Expr>): (r: Result<seq<CategoryId>, Failure>) {
    if cs == [] then Ok([])
    else
      var c :- SubstCategory(cs[0], args);
      var rest :- SubstCategories(cs[1..], args);
      Ok([c] + rest)
  }

  function SubstSpec(s: DimensionSpec, args: seq<Expr>): Result<DimensionSpec, Failure> {
    var groupBy :- SubstCategories(s.groupBy, args);
    var over :- SubstCategories(s.over, args);
    var except :- SubstCategories(s.except, args);
    Ok(DimensionSpec(groupBy, over, except))
  }

  function OrElse(b: seq<CategoryId>, a: seq<CategoryId>): seq<CategoryId> {
    if b == [] then a else b
  }

  /** The body's projection, and the argument's where the body gives none. */
  function Merge(body: DimensionSpec, arg: DimensionSpec): DimensionSpec {
    DimensionSpec(OrElse(body.groupBy, arg.groupBy), OrElse(body.over, arg.over), OrElse(body.except, arg.except))
  }

  function SubstRef(m: MeasureId, spec: DimensionSpec, args: seq<Expr>): Result<Expr, Failure> {
    match LambdaParamOf(m)
    case None => Ok(Ref(m, spec))
    case Some(i) =>
      if i >= |args| then Ok(Ref(m, spec))
      else if spec == PLAIN then Ok(args[i])
      else if args[i].Ref? then Ok(Ref(args[i].measure, Merge(spec, args[i].spec)))
      else Err(NeedsMeasure(i))
  }

  /** `body` with every parameter replaced by its argument, all at once. */
  function Subst(body: Expr, args: seq<Expr>): Result<Expr, Failure>
    decreases body, 1
  {
    match body
    case Literal(_) => Ok(body)
    case Ref(m, s) =>
      var spec :- SubstSpec(s, args);
      SubstRef(m, spec, args)
    case Category(c) =>
      var a :- SubstCategory(c, args);
      Ok(Category(a))
    case Unary(op, a) =>
      var x :- Subst(a, args);
      Ok(Unary(op, x))
    case Binary(op, a, b) =>
      var x :- Subst(a, args);
      var y :- Subst(b, args);
      Ok(Binary(op, x, y))
    case Call(f, es) =>
      var xs :- SubstAll(es, args);
      Ok(Call(f, xs))
  }

  function SubstAll(es: seq<Expr>, args: seq<Expr>): (r: Result<seq<Expr>, Failure>)
    ensures r.Ok? ==> |r.value| == |es|
    decreases es, 0
  {
    if es == [] then Ok([])
    else
      var x :- Subst(es[0], args);
      var xs :- SubstAll(es[1..], args);
      Ok([x] + xs)
  }

  // ----- expansion -----

  /** `e` with every named-LAMBDA call replaced by its body. `depth` counts the
      bodies being expanded around `e`; the guard catches a cyclic table. */
  function ExpandAt(t: Table, e: Expr, depth: nat): Result<Expr, Failure>
    decreases |t| + 2 - depth, e, 1
  {
    if depth > |t| + 1 then Err(CallCycle)
    else
      match e
      case Unary(op, a) =>
        var x :- ExpandAt(t, a, depth);
        Ok(Unary(op, x))
      case Binary(op, a, b) =>
        var x :- ExpandAt(t, a, depth);
        var y :- ExpandAt(t, b, depth);
        Ok(Binary(op, x, y))
      case Call(f, es) =>
        var args :- ExpandAllAt(t, es, depth);
        (match NamedLambdaOf(f)
         case None => Ok(Call(f, args))
         case Some(id) =>
           if id !in t then Err(NoSuchLambda(id))
           else if |t[id].params| != |args| then Err(WrongArguments(t[id].name, |t[id].params|, |args|))
           else
             match BoundBody(t[id], args)
             case Err(error) => Err(error)
             case Ok(body) => ExpandAt(t, body, depth + 1))
      case _ => Ok(e)
  }

  function ExpandAllAt(t: Table, es: seq<Expr>, depth: nat): (r: Result<seq<Expr>, Failure>)
    requires depth <= |t| + 1
    ensures r.Ok? ==> |r.value| == |es|
    decreases |t| + 2 - depth, es, 0
  {
    if es == [] then Ok([])
    else
      var x :- ExpandAt(t, es[0], depth);
      var xs :- ExpandAllAt(t, es[1..], depth);
      Ok([x] + xs)
  }

  /** A body with its arguments in place, held to the load bound. */
  function BoundBody(l: NamedLambda, args: seq<Expr>): Result<Expr, Failure> {
    match Subst(l.body, args)
    case Err(error) => Err(Within(l.name, error))
    case Ok(body) =>
      match CheckDepth(body, MAX_STORED_FORMULA_DEPTH)
      case Err(limit) => Err(Within(l.name, PastLimit(limit)))
      case Ok(_) => Ok(body)
  }

  function ExpandLambdas(t: Table, e: Expr): (r: Result<Expr, Failure>) {
    var x :- ExpandAt(t, e, 0);
    match CheckDepth(x, MAX_STORED_FORMULA_DEPTH)
    case Err(limit) => Err(PastLimit(limit))
    case Ok(_) => Ok(x)
  }

  // ----- which LAMBDAs a tree calls -----

  /** The named LAMBDAs `e` calls. */
  function Callees(e: Expr): set<U32>
    decreases e, 1
  {
    match e
    case Unary(_, a) => Callees(a)
    case Binary(_, a, b) => Callees(a) + Callees(b)
    case Call(f, es) =>
      CalleesAll(es) + (match NamedLambdaOf(f) case None => {} case Some(id) => {id})
    case _ => {}
  }

  function CalleesAll(es: seq<Expr>): set<U32>
    decreases es, 0
  {
    if es == [] then {} else Callees(es[0]) + CalleesAll(es[1..])
  }

  lemma {:induction false} CalleesOfOne(es: seq<Expr>, i: nat)
    requires i < |es|
    ensures Callees(es[i]) <= CalleesAll(es)
  {
    if i > 0 {
      CalleesOfOne(es[1..], i - 1);
    }
  }

  /** Substitution keeps the body's calls and adds only those of the arguments. */
  lemma {:induction false} SubstCallees(body: Expr, args: seq<Expr>)
    requires Subst(body, args).Ok?
    ensures Callees(body) <= Callees(Subst(body, args).value) <= Callees(body) + CalleesAll(args)
    decreases body, 1
  {
    match body
    case Unary(_, a) => SubstCallees(a, args);
    case Binary(_, a, b) =>
      SubstCallees(a, args);
      SubstCallees(b, args);
    case Call(_, es) => SubstCalleesAll(es, args);
    case Ref(m, s) =>
      var i := LambdaParamOf(m);
      if i.Some? && i.value < |args| {
        CalleesOfOne(args, i.value);
      }
    case _ =>
  }

  lemma {:induction false} SubstCalleesAll(es: seq<Expr>, args: seq<Expr>)
    requires SubstAll(es, args).Ok?
    ensures CalleesAll(es) <= CalleesAll(SubstAll(es, args).value) <= CalleesAll(es) + CalleesAll(args)
    decreases es, 0
  {
    if es != [] {
      SubstCallees(es[0], args);
      SubstCalleesAll(es[1..], args);
      assert SubstAll(es, args).value[1..] == SubstAll(es[1..], args).value;
    }
  }

  /** A successful expansion calls no named LAMBDA. */
  lemma {:induction false} ExpansionCallsNothing(t: Table, e: Expr, depth: nat)
    requires ExpandAt(t, e, depth).Ok?
    ensures Callees(ExpandAt(t, e, depth).value) == {}
    decreases |t| + 2 - depth, e, 1
  {
    match e
    case Unary(_, a) => ExpansionCallsNothing(t, a, depth);
    case Binary(_, a, b) =>
      ExpansionCallsNothing(t, a, depth);
      ExpansionCallsNothing(t, b, depth);
    case Call(f, es) =>
      ExpansionCallsNothingAll(t, es, depth);
      if NamedLambdaOf(f).Some? {
        var args := ExpandAllAt(t, es, depth).value;
        ExpansionCallsNothing(t, BoundBody(t[NamedLambdaOf(f).value], args).value, depth + 1);
      }
    case _ =>
  }

  lemma {:induction false} ExpansionCallsNothingAll(t: Table, es: seq<Expr>, depth: nat)
    requires depth <= |t| + 1
    requires ExpandAllAt(t, es, depth).Ok?
    ensures CalleesAll(ExpandAllAt(t, es, depth).value) == {}
    ensures forall i :: 0 <= i < |es| ==> Callees(ExpandAllAt(t, es, depth).value[i]) == {}
    decreases |t| + 2 - depth, es, 0
  {
    if es != [] {
      ExpansionCallsNothing(t, es[0], depth);
      ExpansionCallsNothingAll(t, es[1..], depth);
      assert ExpandAllAt(t, es, depth).value[1..] == ExpandAllAt(t, es[1..], depth).value;
    }
  }
}
