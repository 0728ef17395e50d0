/** Which measures a set of roots depends on, and why loading only their input
    cells gives the roots the same values. */
module Dependencies {
  import opened Formulas
  import opened Placeholders
  import opened Lambdas
  import opened LambdaTable
  import opened Meaning

  datatype ExternalCall = ExternalCall(func: string, argMeasures: seq<MeasureId>)

  datatype Model = Model(
    measures: Measures,
    externalCalls: map<MeasureId, ExternalCall>,
    lambdas: Table,
    inputs: map<(MeasureId, Coordinate), Value>)

  // ----- references -----

  /** The measures an expression references, in traversal order, with duplicates. */
  function References(e: Expr): seq<MeasureId>
    decreases e, 1
  {
    match e
    case Ref(m, _) => [m]
    case Unary(_, a) => References(a)
    case Binary(_, a, b) => References(a) + References(b)
    case Call(_, es) => ReferencesAll(es)
    case _ => []
  }

  function ReferencesAll(es: seq<Expr>): seq<MeasureId>
    decreases es, 0
  {
    if es == [] then [] else References(es[0]) + ReferencesAll(es[1..])
  }

  /** Pushes the references onto an accumulator. */
  method CollectRefs(e: Expr, acc: seq<MeasureId>) returns (out: seq<MeasureId>)
    ensures out == acc + References(e)
    decreases e, 1
  {
    out := acc;
    match e {
      case Ref(m, _) =>
        out := out + [m];
      case Unary(_, a) =>
        out := CollectRefs(a, out);
      case Binary(_, a, b) =>
        out := CollectRefs(a, out);
        out := CollectRefs(b, out);
      case Call(_, es) =>
        for i := 0 to |es|
          invariant out == acc + ReferencesAll(es[..i])
        {
          ReferencesAllSnoc(es, i);
          out := CollectRefs(es[i], out);
        }
        assert es[..|es|] == es;
      case _ =>
    }
  }

  lemma {:induction false} ReferencesAllSnoc(es: seq<Expr>, i: nat)
    requires i < |es|
    ensures ReferencesAll(es[..i + 1]) == ReferencesAll(es[..i]) + References(es[i])
  {
    if i > 0 {
      ReferencesAllSnoc(es[1..], i - 1);
      assert es[1..][..i] == es[..i + 1][1..] && es[1..][..i - 1] == es[..i][1..];
    } else {
      assert es[..1][1..] == [];
    }
  }

  /** What measure `m` is computed from, directly. */
  function DirectDeps(model: Model, m: MeasureId): seq<MeasureId> {
    (if m in model.measures && model.measures[m].Derived? then References(model.measures[m].formula) else [])
    + (if m in model.externalCalls then model.externalCalls[m].argMeasures else [])
  }

  // ----- the closure -----

  /** A dependency graph: what each measure is computed from, directly. */
  type Graph = MeasureId -> seq<MeasureId>

  function DepsOf(model: Model): Graph {
    m => DirectDeps(model, m)
  }

  ghost predicate Closed(graph: Graph, s: set<MeasureId>) {
    forall m, d :: m in s && d in graph(m) ==> d in s
  }

  ghost predicate Holds(s: set<MeasureId>, roots: seq<MeasureId>) {
    forall r :: r in roots ==> r in s
  }

  /** `m` is in every closed set that holds the roots. */
  ghost predicate Needed(graph: Graph, roots: seq<MeasureId>, m: MeasureId) {
    forall s: set<MeasureId> :: Closed(graph, s) && Holds(s, roots) ==> m in s
  }

  lemma DependenciesAreNeeded(graph: Graph, roots: seq<MeasureId>, m: MeasureId)
    requires Needed(graph, roots, m)
    ensures forall d :: d in graph(m) ==> Needed(graph, roots, d)
  {
  }

  /** The queue holds every seen measure whose dependencies may be unseen. */
  ghost predicate Explored(graph: Graph, seen: set<MeasureId>, frontier: seq<MeasureId>) {
    forall m, d :: m in seen && m !in frontier && d in graph(m) ==> d in seen
  }

  /** The least set that holds the roots and is closed under dependency. */
  method DependencyClosure(model: Model, roots: seq<MeasureId>) returns (seen: set<MeasureId>)
    ensures Holds(seen, roots) && Closed(DepsOf(model), seen)
    ensures forall s: set<MeasureId> :: Closed(DepsOf(model), s) && Holds(s, roots) ==> seen <= s
  {
    ghost var universe := Universe(model, roots);
    seen := Search(DepsOf(model), roots, universe);
    NeededIsLeast(DepsOf(model), roots, seen);
  }

  /** The worklist search: `universe` is only there to bound it. */
  method Search(graph: Graph, roots: seq<MeasureId>, ghost universe: set<MeasureId>) returns (seen: set<MeasureId>)
    requires Holds(universe, roots) && forall m, d :: d in graph(m) ==> d in universe
    ensures Holds(seen, roots) && Closed(graph, seen)
    ensures forall m :: m in seen ==> Needed(graph, roots, m)
  {
    seen := set r | r in roots;
    var frontier := roots;
    while frontier != []
      invariant forall m :: m in frontier ==> m in seen
      invariant Holds(seen, roots)
      invariant Explored(graph, seen, frontier)
      invariant forall m :: m in seen ==> Needed(graph, roots, m)
      invariant seen <= universe
      decreases |universe - seen|, |frontier|
    {
      var m := frontier[|frontier| - 1];
      var rest := frontier[..|frontier| - 1];
      assert frontier == rest + [m];
      ghost var seen0 := seen;
      seen, frontier := Insert(graph(m), seen, rest);
      DependenciesAreNeeded(graph, roots, m);
      ExploredStep(graph, seen0, rest, m, seen, frontier);
      Shrinks(universe, seen0, seen);
    }
  }

  lemma ExploredStep(graph: Graph, seen0: set<MeasureId>, rest: seq<MeasureId>, m: MeasureId,
                     seen: set<MeasureId>, frontier: seq<MeasureId>)
    requires Explored(graph, seen0, rest + [m])
    requires forall k :: k in seen <==> k in seen0 || k in graph(m)
    requires forall k :: k in frontier <==> k in rest || (k in seen && k !in seen0)
    ensures Explored(graph, seen, frontier)
  {
    forall k, d | k in seen && k !in frontier && d in graph(k)
      ensures d in seen
    {
      if k != m {
        assert k in seen0 && k !in rest + [m];
      }
    }
  }

  lemma NeededIsLeast(graph: Graph, roots: seq<MeasureId>, seen: set<MeasureId>)
    requires forall m :: m in seen ==> Needed(graph, roots, m)
    ensures forall s: set<MeasureId> :: Closed(graph, s) && Holds(s, roots) ==> seen <= s
  {
  }

  /** A finite set that holds everything the search can come upon. */
  lemma Universe(model: Model, roots: seq<MeasureId>) returns (u: set<MeasureId>)
    ensures Holds(u, roots)
    ensures forall m, d :: d in DepsOf(model)(m) ==> d in u
  {
    var keys := model.measures.Keys + model.externalCalls.Keys;
    u := (set r | r in roots) + (set m, d | m in keys && d in DirectDeps(model, m) :: d);
    forall m, d | d in DepsOf(model)(m)
      ensures d in u
    {
      assert m in keys;
    }
  }

  lemma Shrinks(universe: set<MeasureId>, less: set<MeasureId>, more: set<MeasureId>)
    requires less <= more <= universe
    ensures |universe - more| <= |universe - less|
    ensures less != more ==> |universe - more| < |universe - less|
  {
    SubsetSize(universe - more, universe - less);
    if less != more {
      var d :| d in more && d !in less;
      assert d in universe - less && d !in universe - more;
    }
  }

  /** Marks each of `deps` seen, and queues those that were not. */
  method Insert(deps: seq<MeasureId>, seen0: set<MeasureId>, frontier0: seq<MeasureId>)
    returns (seen: set<MeasureId>, frontier: seq<MeasureId>)
    requires forall k :: k in frontier0 ==> k in seen0
    ensures forall k :: k in seen <==> k in seen0 || k in deps
    ensures forall k :: k in frontier <==> k in frontier0 || (k in seen && k !in seen0)
    ensures seen == seen0 ==> frontier == frontier0
  {
    seen, frontier := seen0, frontier0;
    for i := 0 to |deps|
      invariant forall k :: k in seen <==> k in seen0 || k in deps[..i]
      invariant forall k :: k in frontier <==> k in frontier0 || (k in seen && k !in seen0)
      invariant seen0 <= seen
      invariant seen == seen0 ==> frontier == frontier0
    {
      var d := deps[i];
      assert deps[..i + 1] == deps[..i] + [d];
      if d !in seen {
        seen := seen + {d};
        frontier := frontier + [d];
      }
    }
    assert deps[..|deps|] == deps;
  }

  // ----- the value of a measure -----

  /** An argument as a built-in function sees it. */
  datatype Argument<V> = Cube(v: V) | Reduced(v: V, spec: DimensionSpec) | Axis(category: CategoryId)

  /** The engine's operations on cubes; `V` may itself depend on fold slots. */
  datatype Engine<!V> = Engine(
    input: map<Coordinate, Value> -> V,
    literal: Value -> V,
    project: (V, DimensionSpec) -> V,
    slot: MeasureId -> V,
    operand: CategoryId -> V,
    unary: (UnaryOp, V) -> V,
    binary: (BinaryOp, V, V) -> V,
    builtin: (FuncId, seq<Argument<V>>) -> V,
    external: (string, seq<V>) -> V,
    failed: Failure -> V,
    unknown: V)

  function InputCells(model: Model, m: MeasureId): map<Coordinate, Value> {
    var coords := set k | k in model.inputs.Keys && k.0 == m :: k.1;
    map c | c in coords :: model.inputs[(m, c)]
  }

  /** The recursive value of a measure, `fuel` levels of dependency deep. */
  function ValueOf<V>(engine: Engine<V>, model: Model, m: MeasureId, fuel: nat): V
    decreases fuel, 0
  {
    if fuel == 0 then engine.unknown
    else if m in model.measures && model.measures[m].Derived? then
      DerivedValue(engine, model, model.measures[m].formula, fuel - 1)
    else if m in model.externalCalls then
      var call := model.externalCalls[m];
      engine.external(call.func, ValuesOf(engine, model, call.argMeasures, fuel - 1))
    else
      engine.input(InputCells(model, m))
  }

  /** The formula's LAMBDAs are expanded, and the result is evaluated. */
  function DerivedValue<V>(engine: Engine<V>, model: Model, formula: Expr, fuel: nat): V
    decreases fuel, 5
  {
    match ExpandLambdas(model.lambdas, formula)
    case Err(error) => engine.failed(error)
    case Ok(e) =>
      match Eval(Operating(engine, model, fuel), model.lambdas, e, Formula, 0)
      case Err(error) => engine.failed(error)
      case Ok(meant) => Force(Operating(engine, model, fuel), meant)
  }

  function ValuesOf<V>(engine: Engine<V>, model: Model, ms: seq<MeasureId>, fuel: nat): seq<V>
    decreases fuel, 1, |ms|
  {
    if ms == [] then [] else [ValueOf(engine, model, ms[0], fuel)] + ValuesOf(engine, model, ms[1..], fuel)
  }

  /** A reference reads the measure's value; a fold slot is not a measure. */
  function ReadValue<V>(engine: Engine<V>, model: Model, m: MeasureId, fuel: nat): V
    decreases fuel, 1
  {
    if LambdaSlotOf(m).Some? then engine.slot(m) else ValueOf(engine, model, m, fuel)
  }

  function AsArgument<V>(engine: Engine<V>, model: Model, meant: Meant<V>, fuel: nat): Argument<V>
    decreases fuel, 2
  {
    match meant
    case Cells(v) => Cube(v)
    case Reading(m, spec) => Reduced(ReadValue(engine, model, m, fuel), spec)
    case Dimension(c) => Axis(c)
  }

  function AsArguments<V>(engine: Engine<V>, model: Model, args: seq<Meant<V>>, fuel: nat): seq<Argument<V>>
    decreases fuel, 3, |args|
  {
    if args == [] then [] else [AsArgument(engine, model, args[0], fuel)] + AsArguments(engine, model, args[1..], fuel)
  }

  /** The operations formulas are evaluated with, over this model's measures. */
  function Operating<V>(engine: Engine<V>, model: Model, fuel: nat): Operations<V>
    decreases fuel, 4
  {
    Operations(
      engine.literal,
      (m, spec) => engine.project(ReadValue(engine, model, m, fuel), spec),
      engine.operand,
      engine.unary,
      engine.binary,
      (f, args) => engine.builtin(f, AsArguments(engine, model, args, fuel)))
  }

  // ----- a LAMBDA's body reads no measure -----

  /** Every reference of a body stands for a parameter or a fold slot. */
  ghost predicate BodiesReadOnlyParameters(t: Table) {
    forall id, m :: id in t && m in References(t[id].body) ==>
      LambdaSlotOf(m).Some? || (LambdaParamOf(m).Some? && LambdaParamOf(m).value < |t[id].params|)
  }

  ghost predicate ReadsWithin(e: Expr, s: set<MeasureId>) {
    forall m :: m in References(e) ==> m in s || LambdaSlotOf(m).Some?
  }

  lemma SubstRefReadsWithin(body: Expr, args: seq<Expr>, s: set<MeasureId>)
    requires body.Ref? && Subst(body, args).Ok?
    requires forall m :: m in References(body) ==>
               LambdaSlotOf(m).Some? || (LambdaParamOf(m).Some? && LambdaParamOf(m).value < |args|)
    requires forall i :: 0 <= i < |args| ==> ReadsWithin(args[i], s)
    ensures ReadsWithin(Subst(body, args).value, s)
  {
    var m := body.measure;
    assert m in References(body);
    PlaceholderRanges(m);
    if LambdaParamOf(m).Some? && LambdaParamOf(m).value < |args| {
      var a := args[LambdaParamOf(m).value];
      assert ReadsWithin(a, s);
      if a.Ref? {
        assert a.measure in References(a);
      }
    }
  }

  lemma {:induction false} SubstReadsWithin(body: Expr, args: seq<Expr>, s: set<MeasureId>)
    requires Subst(body, args).Ok?
    requires forall m :: m in References(body) ==>
               LambdaSlotOf(m).Some? || (LambdaParamOf(m).Some? && LambdaParamOf(m).value < |args|)
    requires forall i :: 0 <= i < |args| ==> ReadsWithin(args[i], s)
    ensures ReadsWithin(Subst(body, args).value, s)
    decreases body, 1
  {
    match body
    case Ref(m, _) =>
      SubstRefReadsWithin(body, args, s);
    case Unary(_, a) =>
      assert References(a) == References(body);
      SubstReadsWithin(a, args, s);
    case Binary(_, a, b) =>
      assert forall m :: m in References(a) || m in References(b) ==> m in References(body);
      SubstReadsWithin(a, args, s);
      SubstReadsWithin(b, args, s);
    case Call(_, es) =>
      assert ReferencesAll(es) == References(body);
      SubstReadsWithinAll(es, args, s);
    case _ =>
  }

  lemma {:induction false} SubstReadsWithinAll(es: seq<Expr>, args: seq<Expr>, s: set<MeasureId>)
    requires SubstAll(es, args).Ok?
    requires forall m :: m in ReferencesAll(es) ==>
               LambdaSlotOf(m).Some? || (LambdaParamOf(m).Some? && LambdaParamOf(m).value < |args|)
    requires forall i :: 0 <= i < |args| ==> ReadsWithin(args[i], s)
    ensures forall m :: m in ReferencesAll(SubstAll(es, args).value) ==> m in s || LambdaSlotOf(m).Some?
    decreases es, 0
  {
    if es != [] {
      assert forall m :: m in References(es[0]) || m in ReferencesAll(es[1..]) ==> m in ReferencesAll(es);
      SubstReadsWithin(es[0], args, s);
      SubstReadsWithinAll(es[1..], args, s);
      assert SubstAll(es, args).value[1..] == SubstAll(es[1..], args).value;
    }
  }

  /** Expanding a formula adds no measure to what it reads. */
  lemma {:induction false} ExpansionReadsWithin(t: Table, e: Expr, depth: nat, s: set<MeasureId>)
    requires BodiesReadOnlyParameters(t) && ReadsWithin(e, s)
    requires ExpandAt(t, e, depth).Ok?
    ensures ReadsWithin(ExpandAt(t, e, depth).value, s)
    decreases |t| + 2 - depth, e, 1
  {
    match e
    case Unary(_, a) =>
      assert References(a) == References(e);
      ExpansionReadsWithin(t, a, depth, s);
    case Binary(_, a, b) =>
      assert forall m :: m in References(a) || m in References(b) ==> m in References(e);
      ExpansionReadsWithin(t, a, depth, s);
      ExpansionReadsWithin(t, b, depth, s);
    case Call(f, es) =>
      assert ReferencesAll(es) == References(e);
      ExpansionReadsWithinAll(t, es, depth, s);
      if NamedLambdaOf(f).Some? {
        var id := NamedLambdaOf(f).value;
        var args := ExpandAllAt(t, es, depth).value;
        SubstReadsWithin(t[id].body, args, s);
        ExpansionReadsWithin(t, BoundBody(t[id], args).value, depth + 1, s);
      }
    case _ =>
  }

  lemma {:induction false} ExpansionReadsWithinAll(t: Table, es: seq<Expr>, depth: nat, s: set<MeasureId>)
    requires BodiesReadOnlyParameters(t) && depth <= |t| + 1
    requires forall m :: m in ReferencesAll(es) ==> m in s || LambdaSlotOf(m).Some?
    requires ExpandAllAt(t, es, depth).Ok?
    ensures forall i :: 0 <= i < |es| ==> ReadsWithin(ExpandAllAt(t, es, depth).value[i], s)
    ensures forall m :: m in ReferencesAll(ExpandAllAt(t, es, depth).value) ==> m in s || LambdaSlotOf(m).Some?
    decreases |t| + 2 - depth, es, 0
  {
    if es != [] {
      assert forall m :: m in References(es[0]) || m in ReferencesAll(es[1..]) ==> m in ReferencesAll(es);
      ExpansionReadsWithin(t, es[0], depth, s);
      ExpansionReadsWithinAll(t, es[1..], depth, s);
      assert ExpandAllAt(t, es, depth).value[1..] == ExpandAllAt(t, es[1..], depth).value;
    }
  }

  // ----- evaluation reads only what is referenced -----

  /** Two runs of the engine that give the measures in `s` the same values. */
  ghost predicate Agree<V>(engine: Engine<V>, a: Model, fa: nat, b: Model, fb: nat, s: set<MeasureId>) {
    forall m :: m in s ==> ValueOf(engine, a, m, fa) == ValueOf(engine, b, m, fb)
  }

  ghost predicate MeantWithin<V>(meant: Meant<V>, s: set<MeasureId>) {
    meant.Reading? ==> meant.measure in s || LambdaSlotOf(meant.measure).Some?
  }

  lemma ForceAgrees<V>(engine: Engine<V>, a: Model, fa: nat, b: Model, fb: nat, s: set<MeasureId>, meant: Meant<V>)
    requires Agree(engine, a, fa, b, fb, s) && MeantWithin(meant, s)
    ensures Force(Operating(engine, a, fa), meant) == Force(Operating(engine, b, fb), meant)
    ensures AsArgument(engine, a, meant, fa) == AsArgument(engine, b, meant, fb)
  {
    if meant.Reading? {
      var m := meant.measure;
      assert ReadValue(engine, a, m, fa) == ReadValue(engine, b, m, fb);
      assert Operating(engine, a, fa).read(m, meant.spec) == engine.project(ReadValue(engine, a, m, fa), meant.spec);
      assert Operating(engine, b, fb).read(m, meant.spec) == engine.project(ReadValue(engine, b, m, fb), meant.spec);
    }
  }

  lemma {:induction false} EvalAgrees<V>(engine: Engine<V>, a: Model, fa: nat, b: Model, fb: nat, s: set<MeasureId>,
                                         t: Table, e: Expr)
    requires Agree(engine, a, fa, b, fb, s)
    requires Callees(e) == {} && ReadsWithin(e, s)
    ensures Eval(Operating(engine, a, fa), t, e, Formula, 0).Ok?
    ensures Eval(Operating(engine, a, fa), t, e, Formula, 0) == Eval(Operating(engine, b, fb), t, e, Formula, 0)
    ensures MeantWithin(Eval(Operating(engine, a, fa), t, e, Formula, 0).value, s)
    decreases e, 1
  {
    var opsA, opsB := Operating(engine, a, fa), Operating(engine, b, fb);
    match e
    case Literal(_) =>
    case Ref(m, spec) =>
      assert m in References(e);
      CallFreeAtAnyDepth(opsA, t, e, 0);
      CallFreeAtAnyDepth(opsB, t, e, 0);
    case Category(_) =>
    case Unary(_, x) =>
      assert References(x) == References(e);
      EvalAgrees(engine, a, fa, b, fb, s, t, x);
      ForceAgrees(engine, a, fa, b, fb, s, Eval(opsA, t, x, Formula, 0).value);
    case Binary(_, x, y) =>
      assert forall m :: m in References(x) || m in References(y) ==> m in References(e);
      EvalAgrees(engine, a, fa, b, fb, s, t, x);
      EvalAgrees(engine, a, fa, b, fb, s, t, y);
      ForceAgrees(engine, a, fa, b, fb, s, Eval(opsA, t, x, Formula, 0).value);
      ForceAgrees(engine, a, fa, b, fb, s, Eval(opsA, t, y, Formula, 0).value);
    case Call(f, es) =>
      assert ReferencesAll(es) == References(e);
      EvalAllAgrees(engine, a, fa, b, fb, s, t, es);
      BuiltinAgrees(engine, a, fa, b, fb, s, f, EvalAll(opsA, t, es, Formula, 0).value);
  }

  lemma {:induction false} EvalAllAgrees<V>(engine: Engine<V>, a: Model, fa: nat, b: Model, fb: nat, s: set<MeasureId>,
                                            t: Table, es: seq<Expr>)
    requires Agree(engine, a, fa, b, fb, s)
    requires CalleesAll(es) == {}
    requires forall m :: m in ReferencesAll(es) ==> m in s || LambdaSlotOf(m).Some?
    ensures EvalAll(Operating(engine, a, fa), t, es, Formula, 0).Ok?
    ensures EvalAll(Operating(engine, a, fa), t, es, Formula, 0) == EvalAll(Operating(engine, b, fb), t, es, Formula, 0)
    ensures forall i :: 0 <= i < |es| ==> MeantWithin(EvalAll(Operating(engine, a, fa), t, es, Formula, 0).value[i], s)
    decreases es, 0
  {
    if es != [] {
      assert forall m :: m in References(es[0]) || m in ReferencesAll(es[1..]) ==> m in ReferencesAll(es);
      EvalAgrees(engine, a, fa, b, fb, s, t, es[0]);
      EvalAllAgrees(engine, a, fa, b, fb, s, t, es[1..]);
    }
  }

  lemma BuiltinAgrees<V>(engine: Engine<V>, a: Model, fa: nat, b: Model, fb: nat, s: set<MeasureId>, f: FuncId,
                         args: seq<Meant<V>>)
    requires Agree(engine, a, fa, b, fb, s)
    requires forall i :: 0 <= i < |args| ==> MeantWithin(args[i], s)
    ensures Operating(engine, a, fa).builtin(f, args) == Operating(engine, b, fb).builtin(f, args)
  {
    ArgumentsAgree(engine, a, fa, b, fb, s, args);
  }

  lemma {:induction false} ArgumentsAgree<V>(engine: Engine<V>, a: Model, fa: nat, b: Model, fb: nat, s: set<MeasureId>,
                                             args: seq<Meant<V>>)
    requires Agree(engine, a, fa, b, fb, s)
    requires forall i :: 0 <= i < |args| ==> MeantWithin(args[i], s)
    ensures AsArguments(engine, a, args, fa) == AsArguments(engine, b, args, fb)
  {
    if args != [] {
      ForceAgrees(engine, a, fa, b, fb, s, args[0]);
      ArgumentsAgree(engine, a, fa, b, fb, s, args[1..]);
    }
  }

  lemma {:induction false} ValuesAgree<V>(engine: Engine<V>, a: Model, fa: nat, b: Model, fb: nat, s: set<MeasureId>,
                                          ms: seq<MeasureId>)
    requires Agree(engine, a, fa, b, fb, s)
    requires forall m :: m in ms ==> m in s
    ensures ValuesOf(engine, a, ms, fa) == ValuesOf(engine, b, ms, fb)
  {
    if ms != [] {
      ValuesAgree(engine, a, fa, b, fb, s, ms[1..]);
    }
  }

  /** Models with the same formulas, external calls and LAMBDAs. */
  ghost predicate SameFormulas(a: Model, b: Model) {
    a.measures == b.measures && a.externalCalls == b.externalCalls && a.lambdas == b.lambdas
  }

  /** A measure's value is settled by those of what it directly depends on. */
  lemma ValueFromDeps<V>(engine: Engine<V>, a: Model, fa: nat, b: Model, fb: nat, s: set<MeasureId>, m: MeasureId)
    requires SameFormulas(a, b) && BodiesReadOnlyParameters(a.lambdas)
    requires Agree(engine, a, fa, b, fb, s)
    requires forall d :: d in DirectDeps(a, m) ==> d in s
    requires InputCells(a, m) == InputCells(b, m)
    ensures ValueOf(engine, a, m, fa + 1) == ValueOf(engine, b, m, fb + 1)
  {
    if m in a.measures && a.measures[m].Derived? {
      DerivedAgrees(engine, a, fa, b, fb, s, a.measures[m].formula);
    } else if m in a.externalCalls {
      ValuesAgree(engine, a, fa, b, fb, s, a.externalCalls[m].argMeasures);
    }
  }

  lemma DerivedAgrees<V>(engine: Engine<V>, a: Model, fa: nat, b: Model, fb: nat, s: set<MeasureId>, formula: Expr)
    requires SameFormulas(a, b) && BodiesReadOnlyParameters(a.lambdas)
    requires Agree(engine, a, fa, b, fb, s)
    requires ReadsWithin(formula, s)
    ensures DerivedValue(engine, a, formula, fa) == DerivedValue(engine, b, formula, fb)
  {
    if ExpandLambdas(a.lambdas, formula).Ok? {
      var e := ExpandLambdas(a.lambdas, formula).value;
      ExpansionReadsWithin(a.lambdas, formula, 0, s);
      ExpansionCallsNothing(a.lambdas, formula, 0);
      EvalAgrees(engine, a, fa, b, fb, s, a.lambdas, e);
      ForceAgrees(engine, a, fa, b, fb, s, Eval(Operating(engine, a, fa), a.lambdas, e, Formula, 0).value);
    }
  }

  // ----- loading part of a model -----

  /** The model with only the input cells of the measures in `keep`. */
  function PartialLoad(model: Model, keep: set<MeasureId>): Model {
    model.(inputs := map k | k in model.inputs && k.0 in keep :: model.inputs[k])
  }

  lemma {:induction false} PartialLoadAgrees<V>(engine: Engine<V>, model: Model, keep: set<MeasureId>, fuel: nat)
    requires BodiesReadOnlyParameters(model.lambdas) && Closed(DepsOf(model), keep)
    ensures Agree(engine, PartialLoad(model, keep), fuel, model, fuel, keep)
  {
    if fuel == 0 {
      AgreeAtZero(engine, PartialLoad(model, keep), model, keep);
    } else {
      PartialLoadAgrees(engine, model, keep, fuel - 1);
      PartialLoadStepAll(engine, model, keep, fuel - 1);
    }
  }

  lemma AgreeAtZero<V>(engine: Engine<V>, a: Model, b: Model, s: set<MeasureId>)
    ensures Agree(engine, a, 0, b, 0, s)
  {
  }

  lemma PartialLoadStepAll<V>(engine: Engine<V>, model: Model, keep: set<MeasureId>, fuel: nat)
    requires BodiesReadOnlyParameters(model.lambdas) && Closed(DepsOf(model), keep)
    requires Agree(engine, PartialLoad(model, keep), fuel, model, fuel, keep)
    ensures Agree(engine, PartialLoad(model, keep), fuel + 1, model, fuel + 1, keep)
  {
    forall m | m in keep
      ensures ValueOf(engine, PartialLoad(model, keep), m, fuel + 1) == ValueOf(engine, model, m, fuel + 1)
    {
      PartialLoadStep(engine, model, keep, m, fuel);
    }
  }

  lemma PartialLoadStep<V>(engine: Engine<V>, model: Model, keep: set<MeasureId>, m: MeasureId, fuel: nat)
    requires BodiesReadOnlyParameters(model.lambdas) && Closed(DepsOf(model), keep) && m in keep
    requires Agree(engine, PartialLoad(model, keep), fuel, model, fuel, keep)
    ensures ValueOf(engine, PartialLoad(model, keep), m, fuel + 1) == ValueOf(engine, model, m, fuel + 1)
  {
    SameInputCells(model, keep, m);
    forall d | d in DirectDeps(model, m)
      ensures d in keep
    {
      assert d in DepsOf(model)(m);
    }
    assert DirectDeps(PartialLoad(model, keep), m) == DirectDeps(model, m);
    ValueFromDeps(engine, PartialLoad(model, keep), fuel, model, fuel, keep, m);
  }

  /** With only the input cells of a dependency-closed set loaded, every measure
      of the set has the value it has in the whole model, at every depth of
      evaluation, so even where formulas are cyclic. */
  lemma PartialLoadIsSound<V>(engine: Engine<V>, model: Model, keep: set<MeasureId>, m: MeasureId, fuel: nat)
    requires BodiesReadOnlyParameters(model.lambdas)
    requires Closed(DepsOf(model), keep) && m in keep
    ensures ValueOf(engine, PartialLoad(model, keep), m, fuel) == ValueOf(engine, model, m, fuel)
  {
    PartialLoadAgrees(engine, model, keep, fuel);
  }

  lemma SameInputCells(model: Model, keep: set<MeasureId>, m: MeasureId)
    requires m in keep
    ensures InputCells(PartialLoad(model, keep), m) == InputCells(model, m)
  {
    var part := PartialLoad(model, keep);
    assert (set k | k in part.inputs.Keys && k.0 == m :: k.1) == (set k | k in model.inputs.Keys && k.0 == m :: k.1);
  }

  // ----- acyclic models -----

  /** Each measure on the path directly depends on the next. */
  ghost predicate DependencyPath(graph: Graph, path: seq<MeasureId>) {
    path != [] && forall i :: 0 <= i < |path| - 1 ==> path[i + 1] in graph(path[i])
  }

  /** No measure depends on itself, directly or through others. */
  ghost predicate AcyclicGraph(graph: Graph) {
    forall path :: DependencyPath(graph, path) && |path| > 1 ==> path[0] != path[|path| - 1]
  }

  /** The measures that may depend on others. */
  function Computed(model: Model): set<MeasureId> {
    model.measures.Keys + model.externalCalls.Keys
  }

  /** A path of an acyclic graph visits no measure twice, so there are no more
      measures on it than there are to visit. */
  lemma AcyclicDependenciesAreShort(graph: Graph, path: seq<MeasureId>, all: set<MeasureId>)
    requires AcyclicGraph(graph) && DependencyPath(graph, path)
    requires forall i :: 0 <= i < |path| ==> path[i] in all
    ensures |path| <= |all|
  {
    forall i, j | 0 <= i < j < |path|
      ensures path[i] != path[j]
    {
      PartOfPath(graph, path, i, j);
    }
    DistinctIsShort(path, all);
  }

  lemma PartOfPath(graph: Graph, path: seq<MeasureId>, i: nat, j: nat)
    requires AcyclicGraph(graph) && DependencyPath(graph, path) && i < j < |path|
    ensures path[i] != path[j]
  {
    var part := path[i..j + 1];
    forall k | 0 <= k < |part| - 1
      ensures part[k + 1] in graph(part[k])
    {
      assert path[i + k + 1] in graph(path[i + k]);
    }
    assert DependencyPath(graph, part) && part[0] == path[i] && part[|part| - 1] == path[j];
  }

  /** A dependency path of measures of `all` that ends in `m`. */
  ghost predicate PathTo(graph: Graph, all: set<MeasureId>, path: seq<MeasureId>, m: MeasureId) {
    DependencyPath(graph, path + [m]) && forall i :: 0 <= i < |path| ==> path[i] in all
  }

  lemma PathIsShort(graph: Graph, all: set<MeasureId>, path: seq<MeasureId>, m: MeasureId)
    requires AcyclicGraph(graph) && PathTo(graph, all, path, m)
    ensures |path| <= |all|
  {
    if path != [] {
      var whole := path + [m];
      forall i | 0 <= i < |path| - 1
        ensures path[i + 1] in graph(path[i])
      {
        assert whole[i + 1] in graph(whole[i]);
      }
      AcyclicDependenciesAreShort(graph, path, all);
    }
  }

  lemma ExtendsPath(graph: Graph, all: set<MeasureId>, path: seq<MeasureId>, m: MeasureId, d: MeasureId)
    requires PathTo(graph, all, path, m) && m in all && d in graph(m)
    ensures PathTo(graph, all, path + [m], d)
  {
    var whole, longer := path + [m], path + [m] + [d];
    forall i | 0 <= i < |longer| - 1
      ensures longer[i + 1] in graph(longer[i])
    {
      if i < |whole| - 1 {
        assert whole[i + 1] in graph(whole[i]);
      }
    }
  }

  /** Where `v` agrees at two fuels on what `m` depends on, it agrees on `m` with one more. */
  ghost predicate FollowsDeps<V>(v: (MeasureId, nat) -> V, graph: Graph, m: MeasureId, fa: nat, fb: nat) {
    (forall d :: d in graph(m) ==> v(d, fa) == v(d, fb)) ==> v(m, fa + 1) == v(m, fb + 1)
  }

  /** At the end of a dependency path the value is settled with more fuel than
      the path leaves of the measures that depend on others. */
  lemma {:induction false} SettlesAlong<V>(v: (MeasureId, nat) -> V, graph: Graph, all: set<MeasureId>,
                                           path: seq<MeasureId>, m: MeasureId, fa: nat, fb: nat)
    requires forall k, x: nat, y: nat :: FollowsDeps(v, graph, k, x, y)
    requires forall k :: k !in all ==> graph(k) == []
    requires AcyclicGraph(graph) && PathTo(graph, all, path, m)
    requires fa + |path| > |all| && fb + |path| > |all|
    ensures v(m, fa) == v(m, fb)
    decreases fa
  {
    PathIsShort(graph, all, path, m);
    forall d | d in graph(m)
      ensures v(d, fa - 1) == v(d, fb - 1)
    {
      ExtendsPath(graph, all, path, m, d);
      SettlesAlong(v, graph, all, path + [m], d, fa - 1, fb - 1);
    }
    assert FollowsDeps(v, graph, m, fa - 1, fb - 1);
  }

  lemma ValueFollowsDeps<V>(engine: Engine<V>, model: Model, m: MeasureId, fa: nat, fb: nat)
    requires BodiesReadOnlyParameters(model.lambdas)
    ensures FollowsDeps((k, fuel: nat) => ValueOf(engine, model, k, fuel), DepsOf(model), m, fa, fb)
  {
    var v := (k, fuel: nat) => ValueOf(engine, model, k, fuel);
    if forall d :: d in DepsOf(model)(m) ==> v(d, fa) == v(d, fb) {
      var deps := set d | d in DirectDeps(model, m);
      forall d | d in deps
        ensures ValueOf(engine, model, d, fa) == ValueOf(engine, model, d, fb)
      {
        assert d in DepsOf(model)(m) && v(d, fa) == v(d, fb);
      }
      ValueFromDeps(engine, model, fa, model, fb, deps, m);
    }
  }

  /** Where no measure depends on itself, every value is settled at one level more
      than there are computed measures: evaluating deeper changes nothing. */
  lemma AcyclicValueSettles<V>(engine: Engine<V>, model: Model, m: MeasureId, fa: nat, fb: nat)
    requires BodiesReadOnlyParameters(model.lambdas) && AcyclicGraph(DepsOf(model))
    requires fa > |Computed(model)| && fb > |Computed(model)|
    ensures ValueOf(engine, model, m, fa) == ValueOf(engine, model, m, fb)
  {
    var v := (k, fuel: nat) => ValueOf(engine, model, k, fuel);
    forall k, x: nat, y: nat
      ensures FollowsDeps(v, DepsOf(model), k, x, y)
    {
      ValueFollowsDeps(engine, model, k, x, y);
    }
    assert [] + [m] == [m];
    SettlesAlong(v, DepsOf(model), Computed(model), [], m, fa, fb);
    assert v(m, fa) == v(m, fb);
  }

  /** What the closure is for: the roots keep their values when only the input
      cells of the measures in their closure are loaded. */
  method LoadForRoots<V>(ghost engine: Engine<V>, model: Model, roots: seq<MeasureId>) returns (part: Model)
    requires BodiesReadOnlyParameters(model.lambdas)
    ensures SameFormulas(part, model)
    ensures forall k :: k in part.inputs ==> k in model.inputs && part.inputs[k] == model.inputs[k]
    ensures forall k :: k in part.inputs ==> Needed(DepsOf(model), roots, k.0)
    ensures forall r, fuel: nat :: r in roots ==> ValueOf(engine, part, r, fuel) == ValueOf(engine, model, r, fuel)
  {
    var keep := DependencyClosure(model, roots);
    part := PartialLoad(model, keep);
    forall r, fuel: nat | r in roots
      ensures ValueOf(engine, part, r, fuel) == ValueOf(engine, model, r, fuel)
    {
      PartialLoadIsSound(engine, model, keep, r, fuel);
    }
  }
}
