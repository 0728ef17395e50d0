/** Formulas printed as the text the parser reads, with the fewest parentheses. */
module Printer {
  import opened Results
  import opened Formulas
  import opened Texts
  import opened Placeholders
  import opened Functions
  import opened Tokenizer
  import opened Parser

  /** How tightly `e` binds, by the grammar's levels. */
  function Prec(e: Expr): (p: nat)
    ensures 1 <= p <= 10
  {
    match e
    case Binary(Or, _, _) => 1
    case Binary(And, _, _) => 2
    case Binary(Concat, _, _) => 5
    case Binary(Add, _, _) => 6
    case Binary(Sub, _, _) => 6
    case Binary(Mul, _, _) => 7
    case Binary(Div, _, _) => 7
    case Binary(Pow, _, _) => 9
    case Binary(_, _, _) => 4
    case Unary(Not, _) => 3
    case Unary(Neg, _) => 8
    case _ => 10
  }

  /** How tightly an operator's left child must bind to go without parentheses. */
  function LeftMin(op: BinaryOp, p: nat): nat {
    if op == Pow then p + 1 else if p == 4 then 5 else p
  }

  function RightMin(op: BinaryOp, p: nat): nat {
    if op == Pow then 8 else if p == 4 then 5 else p + 1
  }

  function Symbol(op: BinaryOp): string {
    match op
    case Add => "+" case Sub => "-" case Mul => "*" case Div => "/" case And => "AND" case Or => "OR"
    case Eq => "==" case Ne => "<>" case Lt => "<" case Le => "<=" case Gt => ">" case Ge => ">="
    case Pow => "^" case Concat => "&"
  }

  const KEYWORDS := ["NOT", "AND", "OR", "OVER", "TRUE", "FALSE", "WHERE", "INTO", "EXCEPT", "ALL"]

  /** Whether a name goes without quotes: one word, and not a keyword. */
  predicate IsBare(cls: CharClass, name: string) {
    && name != [] && StartsName(cls, name[0]) && NameRun(cls, name[1..]) == |name| - 1
    && forall i :: 0 <= i < |KEYWORDS| ==> !EqIgnoreAsciiCase(name, KEYWORDS[i])
  }

  /** `s` with every `q` doubled. */
  function Doubled(s: string, q: char): string {
    if s == [] then [] else (if s[0] == q then [q, q] else [s[0]]) + Doubled(s[1..], q)
  }

  function PrintName(cls: CharClass, name: string): Option<string> {
    if IsBare(cls, name) then Some(name)
    else if name == [] then None
    else Some("'" + Doubled(name, '\'') + "'")
  }

  predicate IsControl(c: char) {
    c < ' ' || '\U{7F}' <= c <= '\U{9F}'
  }

  /** A mantissa, maybe followed by an exponent: how a finite number that is
      not negative is written. */
  predicate IsNumeral(s: string) {
    exists k :: 0 < k <= |s| && IsMantissa(s[..k]) && (k == |s| || (s[k] == 'e' && IsExponent(s[k + 1..])))
  }

  /** Digits, maybe a point and more digits. */
  predicate IsMantissa(s: string) {
    var i := DigitRun(s);
    i > 0 && (i == |s| || (s[i] == '.' && i + 1 < |s| && DigitRun(s[i + 1..]) == |s| - i - 1))
  }

  predicate IsExponent(s: string) {
    var digits := if s != [] && s[0] == '-' then s[1..] else s;
    digits != [] && DigitRun(digits) == |digits|
  }

  function PrintLiteral(v: Value): Option<string> {
    match v
    case Number(n) => if IsNumeral(n) then Some(n) else None
    case Boolean(b) => Some(if b then "TRUE" else "FALSE")
    case Text(t) =>
      if '\\' in t || exists i :: 0 <= i < |t| && IsControl(t[i]) then None else Some("\"" + Doubled(t, '"') + "\"")
    case DateTime(stamp) => Some("#" + stamp + "#")
    case EnumIndex(_) => None
    case Error(_) => None
  }

  function PrintCategory(b: Book, c: CategoryId): Option<string> {
    if c in b.categories then PrintName(b.reader.cls, b.categories[c]) else None
  }

  function PrintCategories(b: Book, cs: seq<CategoryId>): Option<string>
    requires cs != []
  {
    var first :- PrintCategory(b, cs[0]);
    if |cs| == 1 then Some(first)
    else
      var more :- PrintCategories(b, cs[1..]);
      Some(first + ", " + more)
  }

  function PrintReference(b: Book, m: MeasureId, groupBy: seq<CategoryId>): Option<string> {
    if m !in b.measures then None
    else
      var name :- PrintName(b.reader.cls, b.measures[m]);
      if groupBy == [] then Some(name)
      else
        var cats :- PrintCategories(b, groupBy);
        Some(name + "[" + cats + "]")
  }

  // ----- the parts and clauses of an aggregation -----

  /** Whether an aggregation's argument stands for a clause. */
  predicate IsMarker(a: Expr) {
    a.Call? && IsReserved(a.func)
  }

  /** The arguments that stand for no clause. */
  function Parts(args: seq<Expr>): seq<Expr> {
    if args == [] then [] else if IsMarker(args[0]) then Parts(args[1..]) else [args[0]] + Parts(args[1..])
  }

  /** What the last marker with the id holds. */
  function MarkerOf(args: seq<Expr>, id: FuncId): (r: Option<seq<Expr>>)
    ensures r.Some? ==> exists i :: 0 <= i < |args| && args[i] == Expr.Call(id, r.value)
  {
    if args == [] then None
    else
      var more := MarkerOf(args[1..], id);
      if more.Some? then more
      else if args[0].Call? && args[0].func == id then Some(args[0].args)
      else None
  }

  /** The condition of a `WHERE`. */
  function Condition(args: seq<Expr>): (r: Option<Expr>)
    ensures r.Some? ==> exists i :: 0 <= i < |args| && args[i].Call? && r.value in args[i].args
  {
    match MarkerOf(args, WHERE)
    case Some(ps) => if ps == [] then None else Some(ps[0])
    case None => None
  }

  function OverOf(e: Expr): seq<CategoryId> {
    if e.Ref? then e.spec.over else []
  }

  function FirstReduced(def: FnDef, parts: seq<Expr>, i: nat): (r: Option<nat>)
    requires i <= |parts|
    ensures r.Some? ==> r.value < |parts| && def.Reduced(r.value, parts[r.value])
    decreases |parts| - i
  {
    if i == |parts| then None else if def.Reduced(i, parts[i]) then Some(i) else FirstReduced(def, parts, i + 1)
  }

  function LastReduced(def: FnDef, parts: seq<Expr>): (r: Option<nat>)
    ensures r.Some? ==> r.value < |parts| && def.Reduced(r.value, parts[r.value])
  {
    if parts == [] then None
    else if def.Reduced(|parts| - 1, parts[|parts| - 1]) then Some(|parts| - 1)
    else LastReduced(def, parts[..|parts| - 1])
  }

  /** The part that the `OVER` clause follows: the first that is reduced, the
      last where the leading references are. */
  function OverAt(def: FnDef, parts: seq<Expr>): (r: Option<nat>)
    ensures r.Some? ==> r.value < |parts| && def.Reduced(r.value, parts[r.value])
  {
    if def.over.Leading? then LastReduced(def, parts) else FirstReduced(def, parts, 0)
  }

  /** The categories that everything reduced is reduced over. */
  function SharedOver(def: FnDef, parts: seq<Expr>): (r: Option<seq<CategoryId>>)
    ensures r.Some? ==> r.value != [] && OverAt(def, parts).Some? && OverOf(parts[OverAt(def, parts).value]) == r.value
  {
    var at :- OverAt(def, parts);
    var cats := OverOf(parts[at]);
    if cats != [] && forall i :: 0 <= i < |parts| && def.Reduced(i, parts[i]) ==> OverOf(parts[i]) == cats
    then Some(cats) else None
  }

  /** A window's bound. */
  function PrintBound(e: Expr): Option<string> {
    match e
    case Literal(Text(t)) => if t == "FIRST" || t == "LAST" then Some(t) else None
    case Literal(Number(n)) =>
      if n == "0" || n == "-0" then Some("THIS")
      else if IsWhole(n) then Some("THIS+" + n)
      else if n != [] && n[0] == '-' && IsWhole(n[1..]) then Some("THIS-" + n[1..])
      else None
    case _ => None
  }

  /** A window, which only a single category takes. */
  function PrintWindow(cats: seq<CategoryId>, window: Option<seq<Expr>>): Option<string> {
    match window
    case None => Some("")
    case Some(bounds) =>
      if |bounds| != 2 || |cats| != 1 then None
      else
        var lo :- PrintBound(bounds[0]);
        var hi :- PrintBound(bounds[1]);
        Some("[" + lo + ".." + hi + "]")
  }

  // ----- formulas -----

  /** A formula's text, or none where the grammar has no exact spelling. Folds
      are not part of this model, and print as nothing. */
  function Print(b: Book, e: Expr): Option<string>
    decreases e, 1
  {
    match e
    case Literal(v) => PrintLiteral(v)
    case Ref(m, spec) =>
      (match LambdaSlotOf(m)
       case Some(slot) => Some((if slot.1 == 0 then "acc" else "val") + Digits(slot.0))
       case None => if spec.over == [] && spec.except == [] then PrintReference(b, m, spec.groupBy) else None)
    case Unary(op, a) =>
      var s :- Child(b, a, Prec(e));
      Some(if op == Neg then "-" + s else "NOT " + s)
    case Binary(op, l, r) =>
      var left :- Child(b, l, LeftMin(op, Prec(e)));
      var right :- Child(b, r, RightMin(op, Prec(e)));
      Some(left + (" " + Symbol(op) + " ") + right)
    case Call(f, args) =>
      (match NamedLambdaOf(f)
       case Some(id) =>
         if id !in b.lambdas then None
         else
           var name :- PrintName(b.reader.cls, b.lambdas[id].name);
           var list :- PrintList(b, args);
           Some(name + "(" + list + ")")
       case None =>
         var def :- ById(b.reader.functions, f);
         if IsFold(def.name) then None
         else if def.reduces then PrintAggregation(b, def, args)
         else
           var list :- PrintList(b, args);
           Some(def.name + "(" + list + ")"))
    case Category(c) => PrintCategory(b, c)
  }

  predicate IsFold(name: string) {
    name == "SCAN" || name == "REDUCE" || name == "FIXPOINT"
  }

  /** `e`, in parentheses when it binds more loosely than `min`. */
  function Child(b: Book, e: Expr, min: nat): Option<string>
    decreases e, 2
  {
    var s :- Print(b, e);
    Some(if Prec(e) < min then "(" + s + ")" else s)
  }

  function PrintList(b: Book, args: seq<Expr>): Option<string>
    decreases args, 0
  {
    if args == [] then Some("")
    else
      var first :- Print(b, args[0]);
      if |args| == 1 then Some(first)
      else
        var more :- PrintList(b, args[1..]);
        Some(first + ", " + more)
  }

  /** An aggregation: its `OVER` clause, window and condition after one part, `INTO` after the last. */
  function PrintAggregation(b: Book, def: FnDef, args: seq<Expr>): Option<string>
    decreases args, 3
  {
    var cats :- SharedOver(def, Parts(args));
    var over :- PrintOver(b, cats, args);
    var into :- PrintInto(b, args);
    var list :- PrintParts(b, def, args, 0, OverAt(def, Parts(args)).value, over, into);
    Some(def.name + "(" + list + ")")
  }

  function PrintOver(b: Book, cats: seq<CategoryId>, args: seq<Expr>): Option<string>
    requires cats != []
    decreases args, 2
  {
    var names :- PrintCategories(b, cats);
    var window :- PrintWindow(cats, MarkerOf(args, WINDOW));
    match Condition(args)
    case None => Some(" OVER " + (names + window))
    case Some(p) =>
      var pred :- Print(b, p);
      Some(" OVER " + (names + window + (" WHERE " + pred)))
  }

  function PrintInto(b: Book, args: seq<Expr>): Option<string>
    decreases args, 2
  {
    match MarkerOf(args, INTO)
    case None => Some("")
    case Some(cats) =>
      var list :- PrintList(b, cats);
      Some(" INTO " + list)
  }

  /** The parts from the `i`-th on, `over` after the one at `at` and `into` after the last. */
  function PrintParts(b: Book, def: FnDef, args: seq<Expr>, i: nat, at: nat, over: string, into: string): Option<string>
    decreases args, 0
  {
    if args == [] then Some("")
    else if IsMarker(args[0]) then PrintParts(b, def, args[1..], i, at, over, into)
    else
      var part :- PrintPart(b, args[0], def.Reduced(i, args[0]));
      var clause := part + if i == at then over else "";
      if Parts(args[1..]) == [] then Some(clause + into)
      else
        var more :- PrintParts(b, def, args[1..], i + 1, at, over, into);
        Some(clause + ", " + more)
  }

  function PrintPart(b: Book, a: Expr, reduced: bool): Option<string>
    decreases a, 2
  {
    if !reduced then Print(b, a)
    else if a.Ref? && a.spec.except == [] then PrintReference(b, a.measure, a.spec.groupBy)
    else None
  }
}
