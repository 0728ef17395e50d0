/** The table of built-in functions, as the parser and the printer consult it. */
module Functions {
  import opened Results
  import opened Formulas
  import opened Texts

  /** The reserved ids of an aggregation's trailing arguments. */
  const WHERE: FuncId := 990
  const WINDOW: FuncId := 991
  const INTO: FuncId := 992

  predicate IsReserved(f: FuncId) {
    f == WHERE || f == WINDOW || f == INTO
  }

  predicate IsMultiple(a: nat, b: nat) {
    if b == 0 then a == 0 else a % b == 0
  }

  /** Which arguments of an aggregation are reduced over the `OVER` categories. */
  datatype Over =
    | At(positions: seq<nat>)
    | Every(start: nat, step: nat)
    | AtEvery(positions: seq<nat>, start: nat, step: nat)
    | Leading(min: nat)
  {
    predicate Contains(i: nat) {
      match this
      case At(positions) => i in positions
      case Every(start, step) => i >= start && IsMultiple(i - start, step)
      case AtEvery(positions, start, step) => i in positions || (i >= start && IsMultiple(i - start, step))
      case Leading(min) => i < min
    }
  }

  /** A built-in: which of its parameters take a category, how many it needs,
      whether it reduces, per item or not, and which of its arguments. */
  datatype FnDef = FnDef(id: FuncId, name: string, aliases: seq<string>, categoryParams: seq<bool>,
                         required: nat, variadic: bool, reduces: bool, perItem: bool, over: Over)
  {
    /** Whether argument `i`, as parsed, is reduced; the parser marked leading ones with their `over`. */
    predicate Reduced(i: nat, arg: Expr) {
      if over.Leading? then arg.Ref? && arg.spec.over != [] else over.Contains(i)
    }

    predicate Accepts(n: nat) {
      n >= required && (variadic || n <= |categoryParams|)
    }

    /** Whether argument `i` is a category; a variadic tail repeats the last parameter. */
    predicate TakesCategoryAt(i: nat) {
      if i < |categoryParams| then categoryParams[i]
      else categoryParams != [] && categoryParams[|categoryParams| - 1]
    }

    predicate IsCalled(word: string) {
      EqIgnoreAsciiCase(name, word) || exists i :: 0 <= i < |aliases| && EqIgnoreAsciiCase(aliases[i], word)
    }
  }

  function ById(fs: seq<FnDef>, id: FuncId): (r: Option<FnDef>)
    ensures r.Some? ==> r.value.id == id
  {
    if fs == [] then None else if fs[0].id == id then Some(fs[0]) else ById(fs[1..], id)
  }

  /** The first function `word` means, among those that reduce or those that do not. */
  function Meant(fs: seq<FnDef>, word: string, reduces: bool): (r: Option<FnDef>)
    ensures r.Some? ==> r.value.IsCalled(word) && r.value.reduces == reduces
  {
    if fs == [] then None
    else if fs[0].IsCalled(word) && fs[0].reduces == reduces then Some(fs[0])
    else Meant(fs[1..], word, reduces)
  }

  function Aggregation(fs: seq<FnDef>, word: string): Option<FnDef> {
    Meant(fs, word, true)
  }

  function Callable(fs: seq<FnDef>, word: string): Option<FnDef> {
    Meant(fs, word, false)
  }

  predicate IsFunction(fs: seq<FnDef>, word: string) {
    Aggregation(fs, word).Some? || Callable(fs, word).Some?
  }
}

/** Formula text as tokens. */
module Tokenizer {
  import opened Results
  import opened Texts
  import opened Functions

  /** The operators and punctuation marks. */
  datatype Sym =
    | Plus | Minus | Times | Divide | Power | Ampersand | Percent
    | Equal | Differs | BangEqual | Less | LessEq | Greater | GreaterEq | Assign | Arrow
    | Open | Close | OpenBracket | CloseBracket | Comma | Dot

  datatype Tok =
    | Ident(word: string)
    | Quoted(name: string)
    | Num(numeral: string)
    | Str(text: string)
    | Date(stamp: string)
    | Op(sym: Sym)

  datatype LexError =
    | UnterminatedText
    | UnterminatedDate
    | InvalidDate(raw: string)
    | ExponentWithoutDigits
    | InvalidNumber(raw: string)
    | UnterminatedName
    | EmptyName
    | UnexpectedCharacter(c: char)

  /** What reading text depends on: the character tables, the functions, and
      what a number's or a date's text stands for, if anything. */
  datatype Reader = Reader(cls: CharClass, functions: seq<FnDef>,
                           number: string -> Option<string>, date: string -> Option<string>)

  predicate InName(cls: CharClass, c: char) {
    cls.alphanumeric(c) || c == '_'
  }

  function NameRun(cls: CharClass, t: string): (n: nat)
    ensures n <= |t| && (n < |t| ==> !InName(cls, t[n]))
  {
    if t == [] || !InName(cls, t[0]) then 0 else 1 + NameRun(cls, t[1..])
  }

  /** What stands before the closing `q`, a doubled `q` being one, and where it ends. */
  function Unquote(t: string, q: char): (r: Option<(string, nat)>)
    ensures r.Some? ==> 0 < r.value.1 <= |t|
  {
    if t == [] then None
    else if t[0] != q then
      var r :- Unquote(t[1..], q);
      Some(([t[0]] + r.0, r.1 + 1))
    else if |t| > 1 && t[1] == q then
      var r :- Unquote(t[2..], q);
      Some(([q] + r.0, r.1 + 2))
    else Some(([], 1))
  }

  function IndexOf(t: string, c: char): (r: Option<nat>)
    ensures r.Some? ==> r.value < |t|
  {
    if t == [] then None
    else if t[0] == c then Some(0)
    else
      var r :- IndexOf(t[1..], c);
      Some(r + 1)
  }

  /** Digits, and dots that a digit follows. */
  function DottedDigits(t: string): (n: nat)
    ensures n <= |t|
  {
    if t != [] && (IsAsciiDigit(t[0]) || (t[0] == '.' && |t| > 1 && IsAsciiDigit(t[1]))) then 1 + DottedDigits(t[1..])
    else 0
  }

  /** Where the exponent after the `e` at `i` ends, if it has digits. */
  function ExponentEnd(t: string, i: nat): (r: Option<nat>)
    requires i < |t|
    ensures r.Some? ==> i < r.value <= |t|
  {
    var j := if i + 1 < |t| && (t[i + 1] == '+' || t[i + 1] == '-') then i + 2 else i + 1;
    var digits := DigitRun(t[j..]);
    if digits == 0 then None else Some(j + digits)
  }

  /** Where a number ends, an exponent included. */
  function NumberEnd(t: string): (r: Option<nat>)
    requires t != [] && IsAsciiDigit(t[0])
    ensures r.Some? ==> 0 < r.value <= |t|
  {
    var i := DottedDigits(t);
    if i < |t| && (t[i] == 'e' || t[i] == 'E') then ExponentEnd(t, i) else Some(i)
  }

  /** Whether the text up to `k` names a function and a parenthesis follows. */
  predicate CalledAt(r: Reader, t: string, k: nat)
    requires k <= |t|
  {
    var next := TrimStart(t[k..]);
    next != [] && next[0] == '(' && IsFunction(r.functions, t[..k])
  }

  /** Where the `.part` at `j` ends, if there is one. */
  function NextPart(cls: CharClass, t: string, j: nat): (k: Option<nat>)
    requires j <= |t|
    ensures k.Some? ==> j < k.value <= |t|
  {
    if j + 1 < |t| && t[j] == '.' && InName(cls, t[j + 1]) then Some(j + 1 + NameRun(cls, t[j + 1..])) else None
  }

  /** The longest run of up to three `.part`s from `j` on that names a function
      and stands before a parenthesis. */
  function LongestCall(r: Reader, t: string, j: nat, parts: nat, best: nat): (k: nat)
    requires best <= j <= |t| && parts <= 3
    ensures best <= k <= |t|
    decreases 3 - parts
  {
    if parts == 3 then best
    else
      match NextPart(r.cls, t, j)
      case None => best
      case Some(k) => LongestCall(r, t, k, parts + 1, if CalledAt(r, t, k) then k else best)
  }

  function TwoCharSym(c: char, d: char): Option<Sym> {
    if c == '<' && d == '=' then Some(LessEq)
    else if c == '>' && d == '=' then Some(GreaterEq)
    else if c == '<' && d == '>' then Some(Differs)
    else if c == '=' && d == '=' then Some(Equal)
    else if c == '!' && d == '=' then Some(BangEqual)
    else if c == '=' && d == '>' then Some(Arrow)
    else None
  }

  function OneCharSym(c: char): Option<Sym> {
    match c
    case '+' => Some(Plus) case '-' => Some(Minus) case '*' => Some(Times) case '/' => Some(Divide)
    case '^' => Some(Power) case '=' => Some(Assign) case '<' => Some(Less) case '>' => Some(Greater)
    case '(' => Some(Open) case ')' => Some(Close) case '[' => Some(OpenBracket) case ']' => Some(CloseBracket)
    case ',' => Some(Comma) case '.' => Some(Dot) case '&' => Some(Ampersand) case '%' => Some(Percent)
    case _ => None
  }

  /** The token at the start of `t` and how many characters it takes. */
  function NextTok(r: Reader, t: string): (next: Result<(Tok, nat), LexError>)
    requires t != []
    ensures next.Ok? ==> 0 < next.value.1 <= |t|
  {
    var c := t[0];
    if c == '"' then
      match Unquote(t[1..], c)
      case None => Err(UnterminatedText)
      case Some(s) => Ok((Str(s.0), s.1 + 1))
    else if c == '#' then
      match IndexOf(t[1..], c)
      case None => Err(UnterminatedDate)
      case Some(k) =>
        var raw := t[1..k + 1];
        match r.date(raw)
        case None => Err(InvalidDate(raw))
        case Some(stamp) => Ok((Date(stamp), k + 2))
    else if IsAsciiDigit(c) then
      match NumberEnd(t)
      case None => Err(ExponentWithoutDigits)
      case Some(n) =>
        match r.number(t[..n])
        case None => Err(InvalidNumber(t[..n]))
        case Some(numeral) => Ok((Num(numeral), n))
    else if c == '\'' then
      match Unquote(t[1..], c)
      case None => Err(UnterminatedName)
      case Some(s) => if s.0 == [] then Err(EmptyName) else Ok((Quoted(s.0), s.1 + 1))
    else if StartsName(r.cls, c) || (c == '@' && |t| > 1 && r.cls.alphabetic(t[1])) then
      var i := 1 + NameRun(r.cls, t[1..]);
      var n := LongestCall(r, t, i, 0, i);
      Ok((Ident(t[..n]), n))
    else if |t| > 1 && TwoCharSym(c, t[1]).Some? then Ok((Op(TwoCharSym(c, t[1]).value), 2))
    else
      match OneCharSym(c)
      case Some(sym) => Ok((Op(sym), 1))
      case None => Err(UnexpectedCharacter(c))
  }

  /** Everything after the first token, or the first error. */
  function Tokenize(r: Reader, t: string): Result<seq<Tok>, LexError>
    decreases |t|
  {
    if t == [] then Ok([])
    else if IsWhitespace(t[0]) then Tokenize(r, t[1..])
    else
      match NextTok(r, t)
      case Err(error) => Err(error)
      case Ok(next) =>
        match Tokenize(r, t[next.1..])
        case Err(error) => Err(error)
        case Ok(toks) => Ok([next.0] + toks)
  }
}
