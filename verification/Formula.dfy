/** Results that carry an error, and values that may be missing. */
module Results {
  datatype Result<+T, +E> = Ok(value: T) | Err(error: E) {
    predicate IsFailure() {
      Err?
    }

    function PropagateFailure<U>(): Result<U, E>
      requires Err?
    {
      Err(error)
    }

    function Extract(): T
      requires Ok?
    {
      value
    }
  }

  datatype Option<+T> = None | Some(value: T) {
    predicate IsFailure() {
      None?
    }

    function PropagateFailure<U>(): Option<U>
      requires None?
    {
      None
    }

    function Extract(): T
      requires Some?
    {
      value
    }
  }
}

/** The dimension-aware formula tree and the limits on its size. */
module Formulas {
  import opened Integers
  import opened Results

  /** Ids are `u32`s. */
  type U32 = n: int | 0 <= n < 0x1_0000_0000

  type MeasureId = U32
  type CategoryId = U32
  type FuncId = U32

  datatype DimensionSpec = DimensionSpec(groupBy: seq<CategoryId>, over: seq<CategoryId>, except: seq<CategoryId>)

  const PLAIN := DimensionSpec([], [], [])

  datatype UnaryOp = Neg | Not

  datatype BinaryOp = Add | Sub | Mul | Div | And | Or | Eq | Ne | Lt | Le | Gt | Ge | Pow | Concat

  /** A finite number is kept as the text that prints it (see the README). */
  datatype Value =
    | Number(numeral: string)
    | Boolean(flag: bool)
    | Text(text: string)
    | DateTime(stamp: string)
    | EnumIndex(index: U32)
    | Error(code: string)

  datatype Expr =
    | Literal(value: Value)
    | Ref(measure: MeasureId, spec: DimensionSpec)
    | Unary(uop: UnaryOp, arg: Expr)
    | Binary(bop: BinaryOp, left: Expr, right: Expr)
    | Call(func: FuncId, args: seq<Expr>)
    | Category(category: CategoryId)

  const MAX_FORMULA_DEPTH: nat := 256
  const MAX_STORED_FORMULA_DEPTH: nat := MAX_FORMULA_DEPTH
  const MAX_FORMULA_NODES: nat := 100_000

  const IF: FuncId := 30
  const IFS: FuncId := 31
  const SWITCH: FuncId := 32
  const CHOOSE: FuncId := 33
  const IFERROR: FuncId := 34
  const IFNA: FuncId := 35
  const CLEARERROR: FuncId := 36
  const CLEARZERO: FuncId := 37
  const ISERROR: FuncId := 50
  const ISNA: FuncId := 52
  const NA: FuncId := 53
  const ERROR_VALUE: FuncId := 54
  const INT: FuncId := 204

  /** The levels a lazy call adds, beyond its own, when it becomes nested `IF`s. */
  function LazyLevels(f: FuncId, args: nat): nat {
    if f == IFS then SaturatingSub(args / 2, 1)
    else if f == SWITCH then SaturatingSub(args, 1) / 2
    else if f == CHOOSE then args
    else if (f == CLEARERROR || f == CLEARZERO) && args < 2 then 2
    else if IFERROR <= f <= CLEARZERO then 1
    else 0
  }

  // ----- depth and size, by recursion -----

  /** The tree's depth as the engine walks it; a leaf is 1. */
  function Depth(e: Expr): (d: nat)
    ensures d >= 1
    decreases e, 1
  {
    match e
    case Literal(_) => 1
    case Ref(_, _) => 1
    case Category(_) => 1
    case Unary(_, a) => 1 + Depth(a)
    case Binary(_, a, b) => 1 + Max(Depth(a), Depth(b))
    case Call(f, args) => if args == [] then 1 else 1 + LazyLevels(f, |args|) + DepthAll(args)
  }

  /** The depth of the deepest of `es`; 0 for none. */
  function DepthAll(es: seq<Expr>): (d: nat)
    ensures es != [] ==> d >= 1
    decreases es, 0
  {
    if es == [] then 0 else Max(Depth(es[0]), DepthAll(es[1..]))
  }

  function Size(e: Expr): (n: nat)
    ensures n >= 1
    decreases e, 1
  {
    match e
    case Literal(_) => 1
    case Ref(_, _) => 1
    case Category(_) => 1
    case Unary(_, a) => 1 + Size(a)
    case Binary(_, a, b) => 1 + Size(a) + Size(b)
    case Call(_, args) => 1 + SizeAll(args)
  }

  function SizeAll(es: seq<Expr>): nat
    decreases es, 0
  {
    if es == [] then 0 else Size(es[0]) + SizeAll(es[1..])
  }

  lemma {:induction false} DepthAllBounds(es: seq<Expr>, i: nat)
    requires i < |es|
    ensures Depth(es[i]) <= DepthAll(es)
  {
    if i > 0 {
      DepthAllBounds(es[1..], i - 1);
    }
  }

  lemma {:induction false} DepthAllWithin(es: seq<Expr>, bound: nat)
    requires forall i :: 0 <= i < |es| ==> Depth(es[i]) <= bound
    ensures DepthAll(es) <= bound
  {
    if es != [] {
      DepthAllWithin(es[1..], bound);
    }
  }

  // ----- depth and size, with an explicit stack -----

  /** A tree still to be walked and the level it stands on. */
  type Pending = (Expr, nat)

  ghost function PendingSize(todo: seq<Pending>): nat {
    if todo == [] then 0 else PendingSize(todo[..|todo| - 1]) + Size(todo[|todo| - 1].0)
  }

  ghost function PendingDepth(todo: seq<Pending>): int {
    if todo == [] then 0
    else Max(PendingDepth(todo[..|todo| - 1]), todo[|todo| - 1].1 + Depth(todo[|todo| - 1].0) - 1)
  }

  function PushAll(todo: seq<Pending>, args: seq<Expr>, level: nat): seq<Pending>
    decreases |args|
  {
    if args == [] then todo else PushAll(todo + [(args[0], level)], args[1..], level)
  }

  lemma {:induction false} PushOne(todo: seq<Pending>, e: Expr, level: nat)
    ensures PendingSize(todo + [(e, level)]) == PendingSize(todo) + Size(e)
    ensures PendingDepth(todo + [(e, level)]) == Max(PendingDepth(todo), level + Depth(e) - 1)
  {
    var more := todo + [(e, level)];
    assert more[..|more| - 1] == todo;
  }

  lemma {:induction false} PushAllCounts(todo: seq<Pending>, args: seq<Expr>, level: nat)
    ensures PendingSize(PushAll(todo, args, level)) == PendingSize(todo) + SizeAll(args)
    ensures PendingDepth(PushAll(todo, args, level))
         == if args == [] then PendingDepth(todo) else Max(PendingDepth(todo), level + DepthAll(args) - 1)
    decreases args
  {
    if args != [] {
      PushOne(todo, args[0], level);
      PushAllCounts(todo + [(args[0], level)], args[1..], level);
    }
  }

  /** The trees a visit of `e` on level `d` leaves to be walked. */
  function PushChildren(todo: seq<Pending>, e: Expr, d: nat): seq<Pending> {
    match e
    case Unary(_, a) => todo + [(a, d + 1)]
    case Binary(_, a, b) => todo + [(a, d + 1)] + [(b, d + 1)]
    case Call(f, args) => PushAll(todo, args, d + 1 + LazyLevels(f, |args|))
    case _ => todo
  }

  /** A visit takes one node off what is pending, and nothing off its depth. */
  lemma {:induction false} Visit(todo: seq<Pending>, e: Expr, d: nat)
    ensures PendingSize(PushChildren(todo, e, d)) == PendingSize(todo) + Size(e) - 1
    ensures Max(d, PendingDepth(PushChildren(todo, e, d))) == Max(PendingDepth(todo), d + Depth(e) - 1)
  {
    match e
    case Unary(_, a) =>
      PushOne(todo, a, d + 1);
    case Binary(_, a, b) =>
      VisitBinary(todo, a, b, d + 1);
    case Call(f, args) =>
      VisitCall(todo, f, args, d);
    case _ =>
  }

  lemma {:induction false} VisitCall(todo: seq<Pending>, f: FuncId, args: seq<Expr>, d: nat)
    ensures PendingSize(PushChildren(todo, Call(f, args), d)) == PendingSize(todo) + Size(Call(f, args)) - 1
    ensures Max(d, PendingDepth(PushChildren(todo, Call(f, args), d))) == Max(PendingDepth(todo), d + Depth(Call(f, args)) - 1)
  {
    var below := d + 1 + LazyLevels(f, |args|);
    PushAllCounts(todo, args, below);
    assert PushChildren(todo, Call(f, args), d) == PushAll(todo, args, below);
  }

  lemma {:induction false} VisitBinary(todo: seq<Pending>, a: Expr, b: Expr, d: nat)
    ensures PendingSize(todo + [(a, d)] + [(b, d)]) == PendingSize(todo) + Size(a) + Size(b)
    ensures PendingDepth(todo + [(a, d)] + [(b, d)]) == Max(PendingDepth(todo), Max(d + Depth(a) - 1, d + Depth(b) - 1))
  {
    PushOne(todo, a, d);
    PushOne(todo + [(a, d)], b, d);
  }

  /** The walk stops once it has counted more than `MAX_FORMULA_NODES`. */
  method DepthAndNodes(e: Expr) returns (depth: nat, nodes: nat)
    ensures Size(e) <= MAX_FORMULA_NODES ==> nodes == Size(e) && depth == Depth(e)
    ensures Size(e) > MAX_FORMULA_NODES ==> nodes == MAX_FORMULA_NODES + 1 && depth <= Depth(e)
  {
    depth, nodes := 0, 0;
    var todo: seq<Pending> := [(e, 1)];
    assert todo == [] + [(e, 1)];
    PushOne([], e, 1);
    while todo != []
      invariant nodes + PendingSize(todo) == Size(e)
      invariant Max(depth, PendingDepth(todo)) == Depth(e)
      invariant nodes <= MAX_FORMULA_NODES
      decreases PendingSize(todo)
    {
      var (top, d) := todo[|todo| - 1];
      todo := todo[..|todo| - 1];
      nodes := nodes + 1;
      depth := Max(depth, d);
      if nodes > MAX_FORMULA_NODES {
        break;
      }
      Visit(todo, top, d);
      todo := PushChildren(todo, top, d);
    }
  }

  datatype LimitError = TooLarge | TooDeep(depth: nat, max: nat)

  /** Whether a tree is within the limits, and which one it passes first. */
  function CheckDepth(e: Expr, max: nat): (r: Result<(), LimitError>)
    ensures r.Ok? <==> Size(e) <= MAX_FORMULA_NODES && Depth(e) <= max
  {
    if Size(e) > MAX_FORMULA_NODES then Err(TooLarge)
    else if Depth(e) > max then Err(TooDeep(Depth(e), max))
    else Ok(())
  }

  method CheckDepthByWalk(e: Expr, max: nat) returns (r: Result<(), LimitError>)
    ensures r.Ok? <==> Size(e) <= MAX_FORMULA_NODES && Depth(e) <= max
    ensures r == CheckDepth(e, max)
  {
    var depth, nodes := DepthAndNodes(e);
    if nodes > MAX_FORMULA_NODES {
      return Err(TooLarge);
    }
    if depth > max {
      return Err(TooDeep(depth, max));
    }
    return Ok(());
  }

  // ----- lazy calls as nested IFs -----

  function If(test: Expr, a: Expr, b: Expr): Expr {
    Call(IF, [test, a, b])
  }

  const NOT_AVAILABLE := Call(NA, [])
  const VALUE_ERROR := Call(ERROR_VALUE, [Literal(Text("#VALUE!"))])

  /** `IFS`: an IF per test/value pair, NA at the end. */
  function NestPairs(args: seq<Expr>): Expr
    requires |args| % 2 == 0
  {
    if args == [] then NOT_AVAILABLE else If(args[0], args[1], NestPairs(args[2..]))
  }

  /** `SWITCH`: an IF per case, comparing with `subject`. */
  function NestCases(subject: Expr, cases: seq<Expr>, default: Expr): Expr
    requires |cases| % 2 == 0
  {
    if cases == [] then default
    else If(Binary(Eq, subject, cases[0]), cases[1], NestCases(subject, cases[2..], default))
  }

  /** What a `SWITCH` over `subject` with these cases becomes. */
  function Cases(subject: Expr, rest: seq<Expr>): Expr
    requires |rest| >= 2
  {
    if |rest| % 2 == 1 then NestCases(subject, rest[..|rest| - 1], rest[|rest| - 1])
    else NestCases(subject, rest, NOT_AVAILABLE)
  }

  /** `CHOOSE`: an IF per value, comparing with its 1-based number. */
  function NestChoices(index: Expr, vals: seq<Expr>, k: nat): Expr
    decreases |vals|
  {
    if vals == [] then VALUE_ERROR
    else If(Binary(Eq, Call(INT, [index]), Literal(Number(Digits(k + 1)))), vals[0], NestChoices(index, vals[1..], k + 1))
  }

  function Digits(n: nat): string {
    if n < 10 then [('0' as int + n) as char] else Digits(n / 10) + [('0' as int + n % 10) as char]
  }

  datatype DesugarError = NotPairs | NotLazy

  /** Whether a lazy call has the arguments the function table demands. */
  predicate LazyArity(f: FuncId, n: nat) {
    if f == IFS then n >= 2
    else if f == SWITCH then n >= 3
    else if f == CHOOSE then n >= 2
    else if f == IFERROR || f == IFNA then n == 2
    else 1 <= n <= 2
  }

  predicate IsRewritten(f: FuncId) {
    IFS <= f <= CLEARZERO
  }

  /** A lazy call other than `IF` as nested `IF`s. */
  function DesugarLazy(f: FuncId, args: seq<Expr>): (r: Result<Expr, DesugarError>)
    requires IsRewritten(f) ==> LazyArity(f, |args|)
    ensures r.Ok? <==> IsRewritten(f) && (f == IFS ==> |args| % 2 == 0)
  {
    if f == IFS then
      if |args| % 2 != 0 then Err(NotPairs) else Ok(NestPairs(args))
    else if f == SWITCH then
      Ok(Cases(args[0], args[1..]))
    else if f == CHOOSE then
      Ok(NestChoices(args[0], args[1..], 0))
    else if f == IFERROR || f == IFNA then
      var test := Call(if f == IFERROR then ISERROR else ISNA, [args[0]]);
      Ok(If(test, args[1], args[0]))
    else if f == CLEARERROR || f == CLEARZERO then
      var test := if f == CLEARERROR then Call(ISERROR, [args[0]]) else Binary(Eq, args[0], Literal(Number("0")));
      if |args| == 2 then Ok(If(test, args[1], args[0]))
      else Ok(Call(IF, [Unary(Not, test), args[0]]))
    else
      Err(NotLazy)
  }

  /** Every lazy call carries the arguments the function table demands. */
  predicate LazyCallsComplete(e: Expr)
    decreases e, 1
  {
    match e
    case Unary(_, a) => LazyCallsComplete(a)
    case Binary(_, a, b) => LazyCallsComplete(a) && LazyCallsComplete(b)
    case Call(f, args) =>
      LazyCallsCompleteAll(args) && (IsRewritten(f) ==> LazyArity(f, |args|) && (f == IFS ==> |args| % 2 == 0))
    case _ => true
  }

  predicate LazyCallsCompleteAll(es: seq<Expr>)
    decreases es, 0
  {
    es == [] || (LazyCallsComplete(es[0]) && LazyCallsCompleteAll(es[1..]))
  }

  /** The tree the engine walks: every lazy call rewritten, innermost first. */
  function Desugared(e: Expr): Expr
    requires LazyCallsComplete(e)
    decreases e, 1
  {
    match e
    case Unary(op, a) => Unary(op, Desugared(a))
    case Binary(op, a, b) => Binary(op, Desugared(a), Desugared(b))
    case Call(f, args) =>
      var inner := DesugaredAll(args);
      if IsRewritten(f) then DesugarLazy(f, inner).value else Call(f, inner)
    case _ => e
  }

  function DesugaredAll(es: seq<Expr>): (r: seq<Expr>)
    requires LazyCallsCompleteAll(es)
    ensures |r| == |es|
    decreases es, 0
  {
    if es == [] then [] else [Desugared(es[0])] + DesugaredAll(es[1..])
  }

  /** The plain height of a tree: one level a node. */
  function Height(e: Expr): (h: nat)
    ensures h >= 1
    decreases e, 1
  {
    match e
    case Unary(_, a) => 1 + Height(a)
    case Binary(_, a, b) => 1 + Max(Height(a), Height(b))
    case Call(_, args) => 1 + HeightAll(args)
    case _ => 1
  }

  function HeightAll(es: seq<Expr>): nat
    decreases es, 0
  {
    if es == [] then 0 else Max(Height(es[0]), HeightAll(es[1..]))
  }

  /** Whether no call is left for the engine to rewrite. */
  predicate NoLazyCalls(e: Expr)
    decreases e, 1
  {
    match e
    case Unary(_, a) => NoLazyCalls(a)
    case Binary(_, a, b) => NoLazyCalls(a) && NoLazyCalls(b)
    case Call(f, args) => !IsRewritten(f) && NoLazyCallsAll(args)
    case _ => true
  }

  predicate NoLazyCallsAll(es: seq<Expr>)
    decreases es, 0
  {
    es == [] || (NoLazyCalls(es[0]) && NoLazyCallsAll(es[1..]))
  }

  lemma {:induction false} HeightOfIf(test: Expr, a: Expr, b: Expr)
    ensures Height(If(test, a, b)) == 1 + Max(Height(test), Max(Height(a), Height(b)))
    ensures NoLazyCalls(If(test, a, b)) == (NoLazyCalls(test) && NoLazyCalls(a) && NoLazyCalls(b))
  {
    assert [test, a, b][1..] == [a, b] && [a, b][1..] == [b] && [b][1..] == [];
    assert HeightAll([b]) == Height(b);
    assert HeightAll([a, b]) == Max(Height(a), Height(b));
    assert NoLazyCallsAll([b]) == NoLazyCalls(b);
    assert NoLazyCallsAll([a, b]) == (NoLazyCalls(a) && NoLazyCalls(b));
  }

  lemma {:induction false} HeightOfCall1(f: FuncId, a: Expr)
    ensures Height(Call(f, [a])) == 1 + Height(a)
    ensures NoLazyCalls(Call(f, [a])) == (!IsRewritten(f) && NoLazyCalls(a))
  {
    assert [a][1..] == [];
    assert HeightAll([a]) == Height(a);
    assert NoLazyCallsAll([a]) == NoLazyCalls(a);
  }

  lemma {:induction false} HeightAllAt(es: seq<Expr>, i: nat)
    requires i < |es|
    ensures Height(es[i]) <= HeightAll(es)
    ensures NoLazyCallsAll(es) ==> NoLazyCalls(es[i])
  {
    if i > 0 {
      HeightAllAt(es[1..], i - 1);
    }
  }

  lemma {:induction false} HeightAllTail(es: seq<Expr>, k: nat)
    requires k <= |es|
    ensures HeightAll(es[k..]) <= HeightAll(es)
    ensures NoLazyCallsAll(es) ==> NoLazyCallsAll(es[k..])
  {
    if k == 0 {
      assert es[0..] == es;
    } else {
      HeightAllTail(es[1..], k - 1);
      assert es[1..][k - 1..] == es[k..];
    }
  }

  lemma {:induction false} HeightAllInit(es: seq<Expr>)
    requires es != []
    ensures HeightAll(es[..|es| - 1]) <= HeightAll(es)
    ensures NoLazyCallsAll(es) ==> NoLazyCallsAll(es[..|es| - 1])
  {
    if |es| > 1 {
      HeightAllInit(es[1..]);
      assert es[..|es| - 1][1..] == es[1..][..|es[1..]| - 1];
    }
  }

  lemma {:induction false} PairsHeight(args: seq<Expr>)
    requires |args| % 2 == 0 && NoLazyCallsAll(args)
    ensures Height(NestPairs(args)) <= if args == [] then 1 else |args| / 2 + HeightAll(args)
    ensures NoLazyCalls(NestPairs(args))
    decreases |args|
  {
    if args != [] {
      HeightAllAt(args, 0);
      HeightAllAt(args, 1);
      HeightAllTail(args, 2);
      PairsHeight(args[2..]);
      HeightOfIf(args[0], args[1], NestPairs(args[2..]));
    }
  }

  lemma {:induction false} CasesHeight(subject: Expr, cases: seq<Expr>, default: Expr, h: nat)
    requires |cases| % 2 == 0 && NoLazyCallsAll(cases) && NoLazyCalls(subject) && NoLazyCalls(default)
    requires HeightAll(cases) <= h && Height(subject) <= h && Height(default) <= h
    ensures Height(NestCases(subject, cases, default)) <= if cases == [] then h else |cases| / 2 + 1 + h
    ensures NoLazyCalls(NestCases(subject, cases, default))
    decreases |cases|
  {
    if cases != [] {
      HeightAllAt(cases, 0);
      HeightAllAt(cases, 1);
      HeightAllTail(cases, 2);
      CasesHeight(subject, cases[2..], default, h);
      HeightOfIf(Binary(Eq, subject, cases[0]), cases[1], NestCases(subject, cases[2..], default));
    }
  }

  lemma {:induction false} ChoicesHeight(index: Expr, vals: seq<Expr>, k: nat, h: nat)
    requires NoLazyCallsAll(vals) && NoLazyCalls(index)
    requires HeightAll(vals) <= h && Height(index) <= h
    ensures Height(NestChoices(index, vals, k)) <= |vals| + 2 + h
    ensures NoLazyCalls(NestChoices(index, vals, k))
    decreases |vals|
  {
    if vals == [] {
      HeightOfCall1(ERROR_VALUE, Literal(Text("#VALUE!")));
    } else {
      HeightAllAt(vals, 0);
      HeightAllTail(vals, 1);
      ChoicesHeight(index, vals[1..], k + 1, h);
      HeightOfCall1(INT, index);
      HeightOfIf(Binary(Eq, Call(INT, [index]), Literal(Number(Digits(k + 1)))), vals[0],
                 NestChoices(index, vals[1..], k + 1));
    }
  }

  /** What one rewritten call keeps: its height within what `LazyLevels` says, and no lazy call. */
  ghost predicate KeepsHeight(f: FuncId, args: seq<Expr>)
    requires IsRewritten(f) ==> LazyArity(f, |args|)
  {
    var r := DesugarLazy(f, args);
    r.Ok? && Height(r.value) <= 1 + LazyLevels(f, |args|) + HeightAll(args) && NoLazyCalls(r.value)
  }

  /** One rewritten call is no higher than `LazyLevels` says. */
  lemma DesugarLazyHeight(f: FuncId, args: seq<Expr>)
    requires IsRewritten(f) && LazyArity(f, |args|) && (f == IFS ==> |args| % 2 == 0)
    requires NoLazyCallsAll(args)
    ensures KeepsHeight(f, args)
  {
    if f == IFS {
      PairsHeight(args);
    } else if f == SWITCH {
      SwitchHeight(args);
    } else if f == CHOOSE {
      HeightAllAt(args, 0);
      HeightAllTail(args, 1);
      ChoicesHeight(args[0], args[1..], 0, HeightAll(args));
    } else if |args| == 2 {
      AlternativeHeight(f, args);
    } else {
      ClearedHeight(f, args);
    }
  }

  lemma SwitchHeight(args: seq<Expr>)
    requires LazyArity(SWITCH, |args|) && NoLazyCallsAll(args)
    ensures KeepsHeight(SWITCH, args)
  {
    HeightAllAt(args, 0);
    HeightAllTail(args, 1);
    assert LazyLevels(SWITCH, |args|) == |args[1..]| / 2;
    CasesKeepHeight(args[0], args[1..], HeightAll(args));
  }

  lemma CasesKeepHeight(subject: Expr, rest: seq<Expr>, bound: nat)
    requires |rest| >= 2 && 1 <= Height(subject) <= bound && HeightAll(rest) <= bound
    requires NoLazyCalls(subject) && NoLazyCallsAll(rest)
    ensures Height(Cases(subject, rest)) <= 1 + |rest| / 2 + bound && NoLazyCalls(Cases(subject, rest))
  {
    if |rest| % 2 == 1 {
      HeightAllAt(rest, |rest| - 1);
      HeightAllInit(rest);
      CasesHeight(subject, rest[..|rest| - 1], rest[|rest| - 1], bound);
    } else {
      CasesHeight(subject, rest, NOT_AVAILABLE, bound);
    }
  }

  /** `IFERROR`, `IFNA`, and the like of `CLEARERROR` with an alternative: one IF. */
  lemma AlternativeHeight(f: FuncId, args: seq<Expr>)
    requires IsRewritten(f) && f != IFS && f != SWITCH && f != CHOOSE && |args| == 2 && NoLazyCallsAll(args)
    ensures KeepsHeight(f, args)
  {
    HeightAllAt(args, 0);
    HeightAllAt(args, 1);
    if f == CLEARZERO {
      HeightOfIf(Binary(Eq, args[0], Literal(Number("0"))), args[1], args[0]);
    } else {
      ErrorTestHeight(f, args[0], args[1], HeightAll(args));
    }
  }

  lemma ErrorTestHeight(f: FuncId, value: Expr, alternative: Expr, bound: nat)
    requires Height(value) <= bound && Height(alternative) <= bound && NoLazyCalls(value) && NoLazyCalls(alternative)
    ensures var e := If(Call(if f == IFNA then ISNA else ISERROR, [value]), alternative, value);
            Height(e) <= 2 + bound && NoLazyCalls(e)
  {
    HeightOfCall1(if f == IFNA then ISNA else ISERROR, value);
    HeightOfIf(Call(if f == IFNA then ISNA else ISERROR, [value]), alternative, value);
  }

  /** `CLEARERROR` and `CLEARZERO` without an alternative: an IF of two parts, its test negated. */
  lemma ClearedHeight(f: FuncId, args: seq<Expr>)
    requires (f == CLEARERROR || f == CLEARZERO) && |args| == 1 && NoLazyCallsAll(args)
    ensures KeepsHeight(f, args)
  {
    HeightAllAt(args, 0);
    HeightOfCall1(ISERROR, args[0]);
    var test := if f == CLEARZERO then Binary(Eq, args[0], Literal(Number("0"))) else Call(ISERROR, [args[0]]);
    var two := [Unary(Not, test), args[0]];
    assert two[1..] == [args[0]] && [args[0]][1..] == [];
    assert HeightAll([args[0]]) == Height(args[0]);
    assert NoLazyCallsAll([args[0]]) == NoLazyCalls(args[0]);
    assert HeightAll(two) == Max(1 + Height(test), Height(args[0]));
    assert NoLazyCallsAll(two) == (NoLazyCalls(test) && NoLazyCalls(args[0]));
  }

  /** The depth limit covers the tree the engine really walks: rewriting every
      lazy call leaves none, and never makes the tree higher than `Depth` reports. */
  lemma {:induction false} DepthCoversDesugaredTree(e: Expr)
    requires LazyCallsComplete(e)
    ensures Height(Desugared(e)) <= Depth(e)
    ensures NoLazyCalls(Desugared(e))
    decreases e, 1
  {
    match e
    case Unary(_, a) => DepthCoversDesugaredTree(a);
    case Binary(_, a, b) =>
      DepthCoversDesugaredTree(a);
      DepthCoversDesugaredTree(b);
    case Call(f, args) =>
      DepthCoversDesugaredAll(args);
      if IsRewritten(f) {
        DesugarLazyHeight(f, DesugaredAll(args));
      }
    case _ =>
  }

  lemma {:induction false} DepthCoversDesugaredAll(es: seq<Expr>)
    requires LazyCallsCompleteAll(es)
    ensures HeightAll(DesugaredAll(es)) <= DepthAll(es)
    ensures NoLazyCallsAll(DesugaredAll(es))
    decreases es, 0
  {
    if es != [] {
      DepthCoversDesugaredTree(es[0]);
      DepthCoversDesugaredAll(es[1..]);
      assert DesugaredAll(es)[1..] == DesugaredAll(es[1..]);
    }
  }
}
