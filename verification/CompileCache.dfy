/** The cache of compiled formulas that threads fill outside its lock. */
module CompileCache {
  import opened Integers
  import opened Results
  import opened Formulas
  import opened Texts

  datatype CellValue = Num(bits: int) | Bool(flag: bool) | Text(text: string) | Date(ms: int) | Err(kind: int)

  /** An input value as the formula reads it; `None` is a missing input. */
  type Input = Option<CellValue>

  /** The inputs of one call, by name, in key order. */
  type Inputs = seq<(string, Input)>

  datatype ValueType = NumberType | BooleanType | TextType | DateTimeType | EnumType

  /** The type an input is declared with: a missing one, or an error, is a number. */
  function InputType(v: Input): ValueType {
    match v
    case Some(Bool(_)) => BooleanType
    case Some(Text(_)) => TextType
    case Some(Date(_)) => DateTimeType
    case _ => NumberType
  }

  function ValueTypeName(t: ValueType): string {
    match t
    case NumberType => "number"
    case BooleanType => "boolean"
    case TextType => "text"
    case DateTimeType => "datetime"
    case EnumType => "enum"
  }

  // ----- compiling -----

  /** A measure declared for an input: its id, name and type. */
  datatype Declared = Declared(id: nat, name: string, valueType: ValueType)

  datatype Compiled = Compiled(names: seq<string>, expr: Expr)

  /** The parser, checker, type inference and evaluator, which are not part of this model. */
  datatype Toolchain = Toolchain(
    parse: (seq<Declared>, string) -> Result<Expr, string>,
    check: Expr -> Result<(), string>,
    infer: (seq<Declared>, Expr) -> Result<(), string>,
    eval: (Expr, map<nat, CellValue>) -> Result<Option<CellValue>, string>)

  /** The measures the inputs from the `i`-th on are declared as; input `i` is measure `i + 1`. */
  function Declarations(inputs: Inputs, i: nat): seq<Declared>
    requires i <= |inputs|
  {
    if i == 0 then []
    else Declarations(inputs, i - 1) + [Declared(i, inputs[i - 1].0, InputType(inputs[i - 1].1))]
  }

  function Names(inputs: Inputs): seq<string> {
    if inputs == [] then [] else [inputs[0].0] + Names(inputs[1..])
  }

  function StripEquals(s: string): string {
    if s != [] && s[0] == '=' then s[1..] else s
  }

  /** What compiling `formula` against these inputs gives. */
  function CompileResult(tools: Toolchain, formula: string, inputs: Inputs): Result<Compiled, string> {
    var declared := Declarations(inputs, |inputs|);
    var expr :- tools.parse(declared, StripEquals(Trim(formula)));
    var _ :- tools.check(expr);
    var _ :- tools.infer(declared, expr);
    Ok(Compiled(Names(inputs), expr))
  }

  method Compile(tools: Toolchain, formula: string, inputs: Inputs) returns (r: Result<Compiled, string>)
    ensures r == CompileResult(tools, formula, inputs)
  {
    var declared := [];
    for i := 0 to |inputs|
      invariant declared == Declarations(inputs, i)
    {
      declared := declared + [Declared(i + 1, inputs[i].0, InputType(inputs[i].1))];
    }
    var expr :- tools.parse(declared, StripEquals(Trim(formula)));
    var _ :- tools.check(expr);
    var _ :- tools.infer(declared, expr);
    r := Ok(Compiled(Names(inputs), expr));
  }

  /** The values present, by measure id. */
  function Environment(inputs: Inputs): map<nat, CellValue> {
    var ids := set j: nat | j < |inputs| && inputs[j].1.Some? :: j + 1;
    map i | i in ids :: inputs[i - 1].1.value
  }

  function Eval(tools: Toolchain, c: Compiled, inputs: Inputs): Result<Option<CellValue>, string> {
    tools.eval(c.expr, Environment(inputs))
  }

  /** Compiling and evaluating, without a cache. */
  function Calc(tools: Toolchain, formula: string, inputs: Inputs): Result<Option<CellValue>, string> {
    var c :- CompileResult(tools, formula, inputs);
    Eval(tools, c, inputs)
  }

  lemma {:induction false} NamesLength(inputs: Inputs)
    ensures |Names(inputs)| == |inputs|
  {
    if inputs != [] {
      NamesLength(inputs[1..]);
    }
  }

  // ----- the key -----

  /** The cache key: formula text, then each input's name and the name of its type. */
  type Key = (string, seq<(string, string)>)

  function Shape(inputs: Inputs): seq<(string, string)> {
    if inputs == [] then [] else [(inputs[0].0, ValueTypeName(InputType(inputs[0].1)))] + Shape(inputs[1..])
  }

  function KeyOf(formula: string, inputs: Inputs): Key {
    (formula, Shape(inputs))
  }

  lemma TypeNamesAreDistinct(a: ValueType, b: ValueType)
    requires ValueTypeName(a) == ValueTypeName(b)
    ensures a == b
  {
    assert ValueTypeName(a)[0] == ValueTypeName(b)[0];
  }

  lemma {:induction false} ShapeAt(inputs: Inputs, i: nat)
    requires i < |inputs|
    ensures |Shape(inputs)| == |inputs| && Shape(inputs)[i] == (inputs[i].0, ValueTypeName(InputType(inputs[i].1)))
  {
    if i > 0 {
      ShapeAt(inputs[1..], i - 1);
    } else {
      ShapeLength(inputs);
    }
  }

  lemma {:induction false} ShapeLength(inputs: Inputs)
    ensures |Shape(inputs)| == |inputs|
  {
    if inputs != [] {
      ShapeLength(inputs[1..]);
    }
  }

  lemma {:induction false} SameShapeSameDeclarations(a: Inputs, b: Inputs, i: nat)
    requires Shape(a) == Shape(b) && i <= |a| && i <= |b|
    ensures Declarations(a, i) == Declarations(b, i)
  {
    if i > 0 {
      SameShapeSameDeclarations(a, b, i - 1);
      ShapeAt(a, i - 1);
      ShapeAt(b, i - 1);
      TypeNamesAreDistinct(InputType(a[i - 1].1), InputType(b[i - 1].1));
    }
  }

  lemma {:induction false} SameShapeSameNames(a: Inputs, b: Inputs)
    requires Shape(a) == Shape(b)
    ensures Names(a) == Names(b)
  {
    ShapeLength(a);
    ShapeLength(b);
    if a != [] {
      assert Shape(a)[0] == Shape(b)[0] && Shape(a)[1..] == Shape(b)[1..];
      assert Shape(a)[1..] == Shape(a[1..]) && Shape(b)[1..] == Shape(b[1..]);
      SameShapeSameNames(a[1..], b[1..]);
    }
  }

  /** What is compiled depends on nothing but the key: not on the inputs' values. */
  lemma CompileDependsOnKey(tools: Toolchain, f: string, a: Inputs, g: string, b: Inputs)
    requires KeyOf(f, a) == KeyOf(g, b)
    ensures CompileResult(tools, f, a) == CompileResult(tools, g, b)
  {
    ShapeLength(a);
    ShapeLength(b);
    SameShapeSameDeclarations(a, b, |a|);
    SameShapeSameNames(a, b);
  }

  // ----- the cache, as a state machine over every interleaving -----

  type Thread = nat

  /** Where a thread stands in `get`. */
  datatype At =
    | Idle
    | Asked(formula: string, inputs: Inputs)                       // about to look the key up
    | Missed(formula: string, inputs: Inputs)                      // compiling, outside the lock
    | Built(formula: string, inputs: Inputs, compiled: Compiled)   // about to insert
    | Answered(formula: string, inputs: Inputs, result: Result<Compiled, string>)

  datatype State = State(cached: map<Key, Compiled>, threads: map<Thread, At>)

  /** Each event is one thread's step; looking up and inserting are atomic under the lock. */
  datatype Event =
    | Ask(t: Thread, formula: string, inputs: Inputs)
    | LookUp(t: Thread)
    | Finish(t: Thread)
    | Insert(t: Thread)
    | Forget(t: Thread)

  predicate Enabled(s: State, e: Event) {
    e.t in s.threads &&
    match e
    case Ask(t, _, _) => s.threads[t].Idle?
    case LookUp(t) => s.threads[t].Asked?
    case Finish(t) => s.threads[t].Missed?
    case Insert(t) => s.threads[t].Built?
    case Forget(t) => s.threads[t].Answered?
  }

  /** A full cache is emptied before the new entry goes in. */
  function Inserted(cached: map<Key, Compiled>, max: nat, key: Key, c: Compiled): map<Key, Compiled> {
    (if |cached| >= max then map[] else cached)[key := c]
  }

  function After(tools: Toolchain, max: nat, s: State, e: Event): State
    requires Enabled(s, e)
  {
    var at := s.threads[e.t];
    match e
    case Ask(t, f, i) => s.(threads := s.threads[t := Asked(f, i)])
    case LookUp(t) =>
      var key := KeyOf(at.formula, at.inputs);
      if key in s.cached then s.(threads := s.threads[t := Answered(at.formula, at.inputs, Ok(s.cached[key]))])
      else s.(threads := s.threads[t := Missed(at.formula, at.inputs)])
    case Finish(t) =>
      (match CompileResult(tools, at.formula, at.inputs)
       case Ok(c) => s.(threads := s.threads[t := Built(at.formula, at.inputs, c)])
       case Err(error) => s.(threads := s.threads[t := Answered(at.formula, at.inputs, Results.Err(error))]))
    case Insert(t) =>
      State(Inserted(s.cached, max, KeyOf(at.formula, at.inputs), at.compiled),
            s.threads[t := Answered(at.formula, at.inputs, Ok(at.compiled))])
    case Forget(t) => s.(threads := s.threads[t := Idle])
  }

  function Run(tools: Toolchain, max: nat, s: State, events: seq<Event>): Option<State>
    decreases |events|
  {
    if events == [] then Some(s)
    else if !Enabled(s, events[0]) then None
    else Run(tools, max, After(tools, max, s, events[0]), events[1..])
  }

  /** Every entry is what compiling any formula and inputs of its key gives. */
  ghost predicate CacheIsTrue(tools: Toolchain, cached: map<Key, Compiled>) {
    forall f: string, i: Inputs :: KeyOf(f, i) in cached ==> CompileResult(tools, f, i) == Ok(cached[KeyOf(f, i)])
  }

  ghost predicate ThreadIsTrue(tools: Toolchain, at: At) {
    match at
    case Built(f, i, c) => CompileResult(tools, f, i) == Ok(c)
    case Answered(f, i, r) => CompileResult(tools, f, i) == r
    case _ => true
  }

  ghost predicate Inv(tools: Toolchain, max: nat, s: State) {
    && CacheIsTrue(tools, s.cached)
    && (forall t :: t in s.threads ==> ThreadIsTrue(tools, s.threads[t]))
    && |s.cached| <= Max(1, max)
  }

  lemma InsertKeepsTrue(tools: Toolchain, max: nat, cached: map<Key, Compiled>, f: string, i: Inputs, c: Compiled)
    requires CacheIsTrue(tools, cached) && |cached| <= Max(1, max)
    requires CompileResult(tools, f, i) == Ok(c)
    ensures CacheIsTrue(tools, Inserted(cached, max, KeyOf(f, i), c))
    ensures |Inserted(cached, max, KeyOf(f, i), c)| <= Max(1, max)
  {
    var base := if |cached| >= max then map[] else cached;
    var now := Inserted(cached, max, KeyOf(f, i), c);
    forall g: string, j: Inputs | KeyOf(g, j) in now
      ensures CompileResult(tools, g, j) == Ok(now[KeyOf(g, j)])
    {
      if KeyOf(g, j) == KeyOf(f, i) {
        CompileDependsOnKey(tools, g, j, f, i);
      } else {
        assert KeyOf(g, j) in base;
      }
    }
    assert now.Keys == base.Keys + {KeyOf(f, i)};
    assert |now.Keys| == |now| && |base.Keys| == |base|;
  }

  /** The cache as one thread uses it. */
  class Cache {
    const max: nat
    var cached: map<Key, Compiled>

    ghost predicate Valid(tools: Toolchain)
      reads this
    {
      CacheIsTrue(tools, cached) && |cached| <= Max(1, max)
    }

    constructor (max: nat)
      ensures this.max == max && cached == map[] && forall tools :: Valid(tools)
    {
      this.max := max;
      cached := map[];
    }

    /** The compiled formula, compiling it on a miss; an error is not cached. */
    method Get(tools: Toolchain, formula: string, inputs: Inputs) returns (r: Result<Compiled, string>)
      requires Valid(tools)
      modifies this`cached
      ensures Valid(tools) && r == CompileResult(tools, formula, inputs)
      ensures cached == if KeyOf(formula, inputs) in old(cached) || r.Err? then old(cached)
                        else Inserted(old(cached), max, KeyOf(formula, inputs), r.value)
    {
      var key := KeyOf(formula, inputs);
      if key in cached {
        return Ok(cached[key]);
      }
      var c :- Compile(tools, formula, inputs);
      InsertKeepsTrue(tools, max, cached, formula, inputs, c);
      if |cached| >= max {
        cached := map[];
      }
      cached := cached[key := c];
      r := Ok(c);
    }

    /** Getting and evaluating is compiling and evaluating without a cache. */
    method CalcCached(tools: Toolchain, formula: string, inputs: Inputs) returns (r: Result<Option<CellValue>, string>)
      requires Valid(tools)
      modifies this`cached
      ensures Valid(tools) && r == Calc(tools, formula, inputs)
    {
      var c :- Get(tools, formula, inputs);
      r := Eval(tools, c, inputs);
    }
  }

  lemma InvKept(tools: Toolchain, max: nat, s: State, e: Event)
    requires Inv(tools, max, s) && Enabled(s, e)
    ensures Inv(tools, max, After(tools, max, s, e))
  {
    if e.Insert? {
      var at := s.threads[e.t];
      InsertKeepsTrue(tools, max, s.cached, at.formula, at.inputs, at.compiled);
    }
  }

  lemma {:induction false} InvAlways(tools: Toolchain, max: nat, s: State, events: seq<Event>)
    requires Inv(tools, max, s) && Run(tools, max, s, events).Some?
    ensures Inv(tools, max, Run(tools, max, s, events).value)
    decreases |events|
  {
    if events != [] {
      InvKept(tools, max, s, events[0]);
      InvAlways(tools, max, After(tools, max, s, events[0]), events[1..]);
    }
  }

  /** What `calc` answers once `get` has: its error, or the value of what it got. */
  function Answer(tools: Toolchain, got: Result<Compiled, string>, inputs: Inputs): Result<Option<CellValue>, string> {
    var c :- got;
    Eval(tools, c, inputs)
  }

  /** However threads interleave their misses, compiles, clears and inserts, what
      they get evaluates on their inputs to uncached compile-and-evaluate, has a
      name for every input, and the cache stays bounded. */
  lemma CacheNeverShows(tools: Toolchain, max: nat, threads: set<Thread>, events: seq<Event>)
    requires Run(tools, max, State(map[], map t | t in threads :: Idle), events).Some?
    ensures var r := Run(tools, max, State(map[], map t | t in threads :: Idle), events).value;
            && |r.cached| <= Max(1, max)
            && forall t :: t in r.threads && r.threads[t].Answered? ==>
                 var at := r.threads[t];
                 && CompileResult(tools, at.formula, at.inputs) == at.result
                 && Answer(tools, at.result, at.inputs) == Calc(tools, at.formula, at.inputs)
                 && (at.result.Ok? ==> |at.result.value.names| == |at.inputs|)
  {
    InvAlways(tools, max, State(map[], map t | t in threads :: Idle), events);
    var r := Run(tools, max, State(map[], map t | t in threads :: Idle), events).value;
    forall t | t in r.threads && r.threads[t].Answered?
      ensures r.threads[t].result.Ok? ==> |r.threads[t].result.value.names| == |r.threads[t].inputs|
    {
      NamesLength(r.threads[t].inputs);
    }
  }

  // ----- the bound is reached -----

  /** One thread asks for one formula after another. */
  function OneByOne(t: Thread, formulas: seq<string>, inputs: Inputs): seq<Event> {
    if formulas == [] then []
    else Once(t, formulas[0], inputs) + OneByOne(t, formulas[1..], inputs)
  }

  function Once(t: Thread, formula: string, inputs: Inputs): seq<Event> {
    [Ask(t, formula, inputs), LookUp(t), Finish(t), Insert(t), Forget(t)]
  }

  lemma {:induction false} RunConcat(tools: Toolchain, max: nat, s: State, first: seq<Event>, later: seq<Event>)
    requires Run(tools, max, s, first).Some?
    ensures Run(tools, max, s, first + later) == Run(tools, max, Run(tools, max, s, first).value, later)
    decreases |first|
  {
    if first == [] {
      assert first + later == later;
    } else {
      RunConcat(tools, max, After(tools, max, s, first[0]), first[1..], later);
      assert (first + later)[1..] == first[1..] + later;
    }
  }

  lemma AskedOnce(tools: Toolchain, max: nat, cached: map<Key, Compiled>, t: Thread, f: string, inputs: Inputs)
    requires KeyOf(f, inputs) !in cached && CompileResult(tools, f, inputs).Ok?
    ensures Run(tools, max, State(cached, map[t := Idle]), Once(t, f, inputs))
         == Some(State(Inserted(cached, max, KeyOf(f, inputs), CompileResult(tools, f, inputs).value), map[t := Idle]))
  {
    var events := Once(t, f, inputs);
    assert events[..2] == [Ask(t, f, inputs), LookUp(t)] && events[2..] == [Finish(t), Insert(t), Forget(t)];
    Misses(tools, max, cached, t, f, inputs);
    Inserts(tools, max, cached, t, f, inputs);
    assert events == events[..2] + events[2..];
    RunConcat(tools, max, State(cached, map[t := Idle]), events[..2], events[2..]);
  }

  lemma Misses(tools: Toolchain, max: nat, cached: map<Key, Compiled>, t: Thread, f: string, inputs: Inputs)
    requires KeyOf(f, inputs) !in cached
    ensures Run(tools, max, State(cached, map[t := Idle]), [Ask(t, f, inputs), LookUp(t)])
         == Some(State(cached, map[t := Missed(f, inputs)]))
  {
    var events := [Ask(t, f, inputs), LookUp(t)];
    var asked := map[t := Asked(f, inputs)];
    assert map[t := Idle][t := Asked(f, inputs)] == asked && asked[t := Missed(f, inputs)] == map[t := Missed(f, inputs)];
    Step(tools, max, State(cached, map[t := Idle]), events, State(cached, asked));
    Step(tools, max, State(cached, asked), events[1..], State(cached, map[t := Missed(f, inputs)]));
  }

  lemma Inserts(tools: Toolchain, max: nat, cached: map<Key, Compiled>, t: Thread, f: string, inputs: Inputs)
    requires CompileResult(tools, f, inputs).Ok?
    ensures Run(tools, max, State(cached, map[t := Missed(f, inputs)]), [Finish(t), Insert(t), Forget(t)])
         == Some(State(Inserted(cached, max, KeyOf(f, inputs), CompileResult(tools, f, inputs).value), map[t := Idle]))
  {
    var c := CompileResult(tools, f, inputs).value;
    var events, now := [Finish(t), Insert(t), Forget(t)], Inserted(cached, max, KeyOf(f, inputs), c);
    var missed, built := map[t := Missed(f, inputs)], map[t := Built(f, inputs, c)];
    var answered := map[t := Answered(f, inputs, Ok(c))];
    assert missed[t := built[t]] == built && built[t := answered[t]] == answered && answered[t := Idle] == map[t := Idle];
    Step(tools, max, State(cached, missed), events, State(cached, built));
    Step(tools, max, State(cached, built), events[1..], State(now, answered));
    Step(tools, max, State(now, answered), events[1..][1..], State(now, map[t := Idle]));
  }

  lemma Step(tools: Toolchain, max: nat, s: State, events: seq<Event>, next: State)
    requires events != [] && Enabled(s, events[0]) && After(tools, max, s, events[0]) == next
    ensures Run(tools, max, s, events) == Run(tools, max, next, events[1..])
    ensures |events| == 1 ==> Run(tools, max, s, events) == Some(next)
  {
  }

  lemma {:induction false} FillsUp(tools: Toolchain, max: nat, cached: map<Key, Compiled>, t: Thread,
                                   formulas: seq<string>, inputs: Inputs)
    requires forall i, j :: 0 <= i < j < |formulas| ==> formulas[i] != formulas[j]
    requires forall i :: 0 <= i < |formulas| ==>
               KeyOf(formulas[i], inputs) !in cached && CompileResult(tools, formulas[i], inputs).Ok?
    requires |cached| + |formulas| <= Max(1, max)
    ensures var r := Run(tools, max, State(cached, map[t := Idle]), OneByOne(t, formulas, inputs));
            r.Some? && |r.value.cached| == |cached| + |formulas|
    decreases |formulas|
  {
    if formulas != [] {
      var f, key := formulas[0], KeyOf(formulas[0], inputs);
      AskedOnce(tools, max, cached, t, f, inputs);
      var now := Inserted(cached, max, key, CompileResult(tools, f, inputs).value);
      assert |cached| == 0 ==> cached == map[];
      assert now == cached[key := CompileResult(tools, f, inputs).value];
      assert now.Keys == cached.Keys + {key};
      assert |now.Keys| == |now| && |cached.Keys| == |cached|;
      FillsUp(tools, max, now, t, formulas[1..], inputs);
      RunConcat(tools, max, State(cached, map[t := Idle]), Once(t, f, inputs), OneByOne(t, formulas[1..], inputs));
    }
  }

  /** A run reaches the bound: `max` formulas that compile, or one where `max` is
      0, asked for one after another, are all held at the end. */
  lemma BoundIsReached(tools: Toolchain, max: nat, t: Thread, formulas: seq<string>, inputs: Inputs)
    requires forall i, j :: 0 <= i < j < |formulas| ==> formulas[i] != formulas[j]
    requires forall i :: 0 <= i < |formulas| ==> CompileResult(tools, formulas[i], inputs).Ok?
    requires |formulas| == Max(1, max)
    ensures var r := Run(tools, max, State(map[], map[t := Idle]), OneByOne(t, formulas, inputs));
            r.Some? && |r.value.cached| == Max(1, max)
  {
    FillsUp(tools, max, map[], t, formulas, inputs);
  }
}
