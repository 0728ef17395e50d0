/** The JSON reader's nesting guard: a byte scanner that must agree with the
    structure of whatever was serialized. */
module JsonNesting {
  import opened Integers
  import opened Formulas

  type Byte = n: int | 0 <= n < 256

  const QUOTE: Byte := 0x22
  const BACKSLASH: Byte := 0x5C
  const OPEN_ARRAY: Byte := 0x5B
  const CLOSE_ARRAY: Byte := 0x5D
  const OPEN_OBJECT: Byte := 0x7B
  const CLOSE_OBJECT: Byte := 0x7D
  const COMMA: Byte := 0x2C
  const COLON: Byte := 0x3A
  const NEWLINE: Byte := 0x0A
  const SPACE: Byte := 0x20

  const MAX_DEPTH: nat := 3 * MAX_STORED_FORMULA_DEPTH + 16

  // ----- the scanner -----

  /** The scanner's registers. */
  datatype Scanner = Scanner(depth: nat, deepest: nat, inString: bool, escaped: bool)

  const START := Scanner(0, 0, false, false)

  function Step(s: Scanner, b: Byte): Scanner {
    if s.inString then
      if s.escaped then s.(escaped := false)
      else if b == BACKSLASH then s.(escaped := true)
      else if b == QUOTE then s.(inString := false)
      else s
    else if b == QUOTE then s.(inString := true)
    else if b == OPEN_ARRAY || b == OPEN_OBJECT then
      s.(depth := s.depth + 1, deepest := Max(s.deepest, s.depth + 1))
    else if b == CLOSE_ARRAY || b == CLOSE_OBJECT then s.(depth := SaturatingSub(s.depth, 1))
    else s
  }

  function Scan(s: Scanner, text: seq<Byte>): Scanner
    decreases |text|
  {
    if text == [] then s else Scan(Step(s, text[0]), text[1..])
  }

  lemma {:induction false} ScanConcat(s: Scanner, a: seq<Byte>, b: seq<Byte>)
    ensures Scan(s, a + b) == Scan(Scan(s, a), b)
    decreases |a|
  {
    if a == [] {
      assert a + b == b;
    } else {
      ScanConcat(Step(s, a[0]), a[1..], b);
      assert (a + b)[1..] == a[1..] + b;
    }
  }

  lemma {:induction false} ScanNeverForgets(s: Scanner, text: seq<Byte>)
    ensures Scan(s, text).deepest >= s.deepest
    decreases |text|
  {
    if text != [] {
      ScanNeverForgets(Step(s, text[0]), text[1..]);
    }
  }

  /** How deeply `text` nests arrays and objects; counting stops once past `MAX_DEPTH`. */
  method Nesting(text: seq<Byte>) returns (deepest: nat)
    ensures Scan(START, text).deepest <= MAX_DEPTH ==> deepest == Scan(START, text).deepest
    ensures Scan(START, text).deepest > MAX_DEPTH ==> deepest == MAX_DEPTH + 1
  {
    var depth: nat, inString, escaped := 0, false, false;
    deepest := 0;
    for i := 0 to |text|
      invariant depth <= deepest <= MAX_DEPTH
      invariant Scan(Scanner(depth, deepest, inString, escaped), text[i..]) == Scan(START, text)
    {
      var b := text[i];
      ghost var before := Scanner(depth, deepest, inString, escaped);
      assert text[i..][0] == b && text[i..][1..] == text[i + 1..];
      assert Scan(before, text[i..]) == Scan(Step(before, b), text[i + 1..]);
      if inString {
        if escaped {
          escaped := false;
        } else if b == BACKSLASH {
          escaped := true;
        } else if b == QUOTE {
          inString := false;
        }
        assert Step(before, b) == Scanner(depth, deepest, inString, escaped);
        continue;
      }
      if b == QUOTE {
        inString := true;
      } else if b == OPEN_ARRAY || b == OPEN_OBJECT {
        depth := depth + 1;
        deepest := Max(deepest, depth);
        assert Step(before, b) == Scanner(depth, deepest, inString, escaped);
        if deepest > MAX_DEPTH {
          ScanNeverForgets(Scanner(depth, deepest, inString, escaped), text[i + 1..]);
          return;
        }
      } else if b == CLOSE_ARRAY || b == CLOSE_OBJECT {
        depth := SaturatingSub(depth, 1);
      }
      assert Step(before, b) == Scanner(depth, deepest, inString, escaped);
    }
  }

  // ----- JSON values and their text -----

  datatype Json =
    | Atom(text: seq<Byte>)
    | Str(content: string)
    | Arr(items: seq<Json>)
    | Obj(fields: seq<Field>)

  datatype Field = Field(key: string, value: Json)

  /** A byte that neither opens, closes nor quotes anything. */
  predicate Inert(b: Byte) {
    b !in {QUOTE, BACKSLASH, OPEN_ARRAY, CLOSE_ARRAY, OPEN_OBJECT, CLOSE_OBJECT}
  }

  predicate AllInert(text: seq<Byte>) {
    forall i :: 0 <= i < |text| ==> Inert(text[i])
  }

  /** Numbers, booleans and null are written without brackets or quotes. */
  predicate WellFormed(v: Json)
    decreases v, 1
  {
    match v
    case Atom(text) => AllInert(text)
    case Str(_) => true
    case Arr(items) => WellFormedAll(items)
    case Obj(fields) => WellFormedFields(fields)
  }

  predicate WellFormedAll(vs: seq<Json>)
    decreases vs, 0
  {
    vs == [] || (WellFormed(vs[0]) && WellFormedAll(vs[1..]))
  }

  predicate WellFormedFields(fs: seq<Field>)
    decreases fs, 0
  {
    fs == [] || (WellFormed(fs[0].value) && WellFormedFields(fs[1..]))
  }

  /** How many arrays and objects stand inside one another. */
  function JsonDepth(v: Json): nat
    decreases v, 1
  {
    match v
    case Atom(_) => 0
    case Str(_) => 0
    case Arr(items) => 1 + JsonDepthAll(items)
    case Obj(fields) => 1 + JsonDepthFields(fields)
  }

  function JsonDepthAll(vs: seq<Json>): nat
    decreases vs, 0
  {
    if vs == [] then 0 else Max(JsonDepth(vs[0]), JsonDepthAll(vs[1..]))
  }

  function JsonDepthFields(fs: seq<Field>): nat
    decreases fs, 0
  {
    if fs == [] then 0 else Max(JsonDepth(fs[0].value), JsonDepthFields(fs[1..]))
  }

  /** One character as UTF-8. */
  function Utf8Char(c: char): seq<Byte> {
    var n := c as int;
    if n < 0x80 then [n]
    else if n < 0x800 then [0xC0 + n / 0x40, 0x80 + n % 0x40]
    else if n < 0x1_0000 then [0xE0 + n / 0x1000, 0x80 + n / 0x40 % 0x40, 0x80 + n % 0x40]
    else [0xF0 + n / 0x4_0000, 0x80 + n / 0x1000 % 0x40, 0x80 + n / 0x40 % 0x40, 0x80 + n % 0x40]
  }

  function Utf8(s: string): seq<Byte> {
    if s == [] then [] else Utf8Char(s[0]) + Utf8(s[1..])
  }

  function HexDigit(n: int): Byte
    requires 0 <= n < 16
  {
    if n < 10 then 0x30 + n else 0x57 + n
  }

  /** One byte of a string as it is written (section 7 of RFC 8259). */
  function Escape(b: Byte): seq<Byte> {
    if b == QUOTE || b == BACKSLASH then [BACKSLASH, b]
    else if b == 0x08 then [BACKSLASH, 0x62]
    else if b == 0x09 then [BACKSLASH, 0x74]
    else if b == 0x0A then [BACKSLASH, 0x6E]
    else if b == 0x0C then [BACKSLASH, 0x66]
    else if b == 0x0D then [BACKSLASH, 0x72]
    else if b < 0x20 then [BACKSLASH, 0x75, 0x30, 0x30, HexDigit(b / 16), HexDigit(b % 16)]
    else [b]
  }

  function EscapeAll(s: seq<Byte>): seq<Byte> {
    if s == [] then [] else Escape(s[0]) + EscapeAll(s[1..])
  }

  function Quoted(s: string): seq<Byte> {
    [QUOTE] + EscapeAll(Utf8(s)) + [QUOTE]
  }

  function Spaces(n: nat): seq<Byte> {
    if n == 0 then [] else [SPACE] + Spaces(n - 1)
  }

  /** Where a new line starts in the pretty form; nothing in the compact form. */
  function Break(pretty: bool, indent: nat): seq<Byte> {
    if pretty then [NEWLINE] + Spaces(2 * indent) else []
  }

  /** The text of a value, compact or pretty-printed. */
  function Serialize(v: Json, pretty: bool, indent: nat): seq<Byte>
    decreases v, 1
  {
    match v
    case Atom(text) => text
    case Str(s) => Quoted(s)
    case Arr(items) =>
      if items == [] then [OPEN_ARRAY, CLOSE_ARRAY]
      else [OPEN_ARRAY] + SerializeAll(items, pretty, indent + 1) + (Break(pretty, indent) + [CLOSE_ARRAY])
    case Obj(fields) =>
      if fields == [] then [OPEN_OBJECT, CLOSE_OBJECT]
      else [OPEN_OBJECT] + SerializeFields(fields, pretty, indent + 1) + (Break(pretty, indent) + [CLOSE_OBJECT])
  }

  function SerializeAll(vs: seq<Json>, pretty: bool, indent: nat): seq<Byte>
    decreases vs, 0
  {
    if vs == [] then []
    else
      Break(pretty, indent) + Serialize(vs[0], pretty, indent)
      + ((if |vs| > 1 then [COMMA] else []) + SerializeAll(vs[1..], pretty, indent))
  }

  function SerializeFields(fs: seq<Field>, pretty: bool, indent: nat): seq<Byte>
    decreases fs, 0
  {
    if fs == [] then []
    else
      (Break(pretty, indent) + Quoted(fs[0].key) + ([COLON] + (if pretty then [SPACE] else [])))
      + Serialize(fs[0].value, pretty, indent)
      + ((if |fs| > 1 then [COMMA] else []) + SerializeFields(fs[1..], pretty, indent))
  }

  // ----- the scanner agrees with the structure -----

  lemma {:induction false} ScanInert(s: Scanner, text: seq<Byte>)
    requires AllInert(text) && !s.inString && !s.escaped
    ensures Scan(s, text) == s
  {
    if text != [] {
      assert Step(s, text[0]) == s;
      ScanInert(s, text[1..]);
    }
  }

  lemma {:induction false} SpacesInert(n: nat)
    ensures AllInert(Spaces(n))
  {
    if n > 0 {
      SpacesInert(n - 1);
    }
  }

  lemma ScanBreak(s: Scanner, pretty: bool, indent: nat)
    requires !s.inString && !s.escaped
    ensures Scan(s, Break(pretty, indent)) == s
  {
    SpacesInert(2 * indent);
    ScanInert(s, Break(pretty, indent));
  }

  /** Whatever a string holds, its escaped bytes leave the scanner inside it. */
  lemma ScanEscape(s: Scanner, b: Byte)
    requires s.inString && !s.escaped
    ensures Scan(s, Escape(b)) == s
  {
    var e := Escape(b);
    if e[0] == BACKSLASH {
      ScanConcat(s, [BACKSLASH, e[1]], e[2..]);
      assert e == [BACKSLASH, e[1]] + e[2..];
      ScanPair(s, e[1]);
      if |e| > 2 {
        assert e[2..] == [0x30, 0x30, e[4], e[5]];
        ScanInsideString(s, e[2..]);
      }
    } else {
      ScanInsideString(s, e);
    }
  }

  lemma ScanPair(s: Scanner, b: Byte)
    requires s.inString && !s.escaped
    ensures Scan(s, [BACKSLASH, b]) == s
  {
    assert [BACKSLASH, b][1..] == [b] && [b][1..] == [];
    assert Step(Step(s, BACKSLASH), b) == s;
    assert Scan(s, [BACKSLASH, b]) == Scan(Step(s, BACKSLASH), [b]);
  }

  lemma {:induction false} ScanInsideString(s: Scanner, text: seq<Byte>)
    requires s.inString && !s.escaped
    requires forall i :: 0 <= i < |text| ==> text[i] != BACKSLASH && text[i] != QUOTE
    ensures Scan(s, text) == s
  {
    if text != [] {
      assert Step(s, text[0]) == s;
      ScanInsideString(s, text[1..]);
    }
  }

  lemma {:induction false} ScanEscapeAll(s: Scanner, content: seq<Byte>)
    requires s.inString && !s.escaped
    ensures Scan(s, EscapeAll(content)) == s
  {
    if content != [] {
      ScanEscape(s, content[0]);
      ScanEscapeAll(s, content[1..]);
      ScanConcat(s, Escape(content[0]), EscapeAll(content[1..]));
    }
  }

  lemma ScanOne(s: Scanner, b: Byte)
    ensures Scan(s, [b]) == Step(s, b)
  {
    assert [b][1..] == [];
  }

  lemma ScanQuoted(s: Scanner, content: string)
    requires !s.inString && !s.escaped
    ensures Scan(s, Quoted(content)) == s
  {
    var inside := s.(inString := true);
    ScanConcat(s, [QUOTE] + EscapeAll(Utf8(content)), [QUOTE]);
    ScanConcat(s, [QUOTE], EscapeAll(Utf8(content)));
    ScanOne(s, QUOTE);
    ScanEscapeAll(inside, Utf8(content));
    ScanOne(inside, QUOTE);
  }

  /** The scanner after a value: back where it was, its record raised. */
  function After(s: Scanner, below: nat): Scanner {
    s.(deepest := Max(s.deepest, s.depth + below))
  }

  predicate Ready(s: Scanner) {
    !s.inString && !s.escaped && s.depth <= s.deepest
  }

  lemma {:induction false} ScanValue(s: Scanner, v: Json, pretty: bool, indent: nat)
    requires Ready(s) && WellFormed(v)
    ensures Scan(s, Serialize(v, pretty, indent)) == After(s, JsonDepth(v))
    decreases v, 1
  {
    match v
    case Atom(text) => ScanInert(s, text);
    case Str(content) => ScanQuoted(s, content);
    case Arr(items) =>
      if items == [] {
        ScanEmpty(s, OPEN_ARRAY, CLOSE_ARRAY);
      } else {
        ScanAll(Opened(s), items, pretty, indent + 1);
        ScanBracketed(s, OPEN_ARRAY, SerializeAll(items, pretty, indent + 1), JsonDepthAll(items), CLOSE_ARRAY, pretty, indent);
      }
    case Obj(fields) =>
      if fields == [] {
        ScanEmpty(s, OPEN_OBJECT, CLOSE_OBJECT);
      } else {
        ScanFields(Opened(s), fields, pretty, indent + 1);
        ScanBracketed(s, OPEN_OBJECT, SerializeFields(fields, pretty, indent + 1), JsonDepthFields(fields), CLOSE_OBJECT, pretty, indent);
      }
  }

  /** The scanner just inside a bracket. */
  function Opened(s: Scanner): Scanner {
    Scanner(s.depth + 1, Max(s.deepest, s.depth + 1), false, false)
  }

  lemma ScanEmpty(s: Scanner, open: Byte, close: Byte)
    requires Ready(s)
    requires (open == OPEN_ARRAY && close == CLOSE_ARRAY) || (open == OPEN_OBJECT && close == CLOSE_OBJECT)
    ensures Scan(s, [open, close]) == After(s, 1)
  {
    assert [open, close] == [open] + [close];
    ScanConcat(s, [open], [close]);
    ScanOne(s, open);
    ScanOne(Opened(s), close);
  }

  lemma ScanBracketed(s: Scanner, open: Byte, inner: seq<Byte>, below: nat, close: Byte, pretty: bool, indent: nat)
    requires Ready(s)
    requires (open == OPEN_ARRAY && close == CLOSE_ARRAY) || (open == OPEN_OBJECT && close == CLOSE_OBJECT)
    requires Scan(Opened(s), inner) == After(Opened(s), below)
    ensures Scan(s, [open] + inner + (Break(pretty, indent) + [close])) == After(s, 1 + below)
  {
    var end := After(Opened(s), below);
    ScanConcat(s, [open] + inner, Break(pretty, indent) + [close]);
    ScanConcat(s, [open], inner);
    ScanOne(s, open);
    ScanConcat(end, Break(pretty, indent), [close]);
    ScanBreak(end, pretty, indent);
    ScanOne(end, close);
  }

  lemma {:induction false} ScanAll(s: Scanner, vs: seq<Json>, pretty: bool, indent: nat)
    requires Ready(s) && WellFormedAll(vs)
    ensures Scan(s, SerializeAll(vs, pretty, indent)) == After(s, JsonDepthAll(vs))
    decreases vs, 0
  {
    if vs != [] {
      ScanValue(s, vs[0], pretty, indent);
      var mid := After(s, JsonDepth(vs[0]));
      ScanAll(mid, vs[1..], pretty, indent);
      ScanBreak(s, pretty, indent);
      ScanElement(s, Break(pretty, indent), Serialize(vs[0], pretty, indent), mid, if |vs| > 1 then [COMMA] else [],
                  SerializeAll(vs[1..], pretty, indent));
    }
  }

  lemma ScanElement(s: Scanner, before: seq<Byte>, value: seq<Byte>, mid: Scanner, comma: seq<Byte>, rest: seq<Byte>)
    requires Scan(s, before) == s && Scan(s, value) == mid && Ready(mid) && AllInert(comma)
    ensures Scan(s, before + value + (comma + rest)) == Scan(mid, rest)
  {
    ScanConcat(s, before + value, comma + rest);
    ScanConcat(s, before, value);
    ScanConcat(mid, comma, rest);
    ScanInert(mid, comma);
  }

  lemma {:induction false} ScanFields(s: Scanner, fs: seq<Field>, pretty: bool, indent: nat)
    requires Ready(s) && WellFormedFields(fs)
    ensures Scan(s, SerializeFields(fs, pretty, indent)) == After(s, JsonDepthFields(fs))
    decreases fs, 0
  {
    if fs != [] {
      ScanValue(s, fs[0].value, pretty, indent);
      var mid := After(s, JsonDepth(fs[0].value));
      ScanFields(mid, fs[1..], pretty, indent);
      var colon := [COLON] + (if pretty then [SPACE] else []);
      ScanKey(s, Break(pretty, indent), fs[0].key, colon, pretty, indent);
      ScanElement(s, Break(pretty, indent) + Quoted(fs[0].key) + colon, Serialize(fs[0].value, pretty, indent), mid,
                  if |fs| > 1 then [COMMA] else [], SerializeFields(fs[1..], pretty, indent));
    }
  }

  lemma ScanKey(s: Scanner, line: seq<Byte>, key: string, colon: seq<Byte>, pretty: bool, indent: nat)
    requires Ready(s) && line == Break(pretty, indent) && AllInert(colon)
    ensures Scan(s, line + Quoted(key) + colon) == s
  {
    ScanConcat(s, line + Quoted(key), colon);
    ScanConcat(s, line, Quoted(key));
    ScanBreak(s, pretty, indent);
    ScanQuoted(s, key);
    ScanInert(s, colon);
  }

  /** On the text of any JSON value the scanner finds its structural depth,
      whatever brackets, quotes and backslashes its strings hold. */
  lemma ScanFindsDepth(v: Json, pretty: bool)
    requires WellFormed(v)
    ensures Scan(START, Serialize(v, pretty, 0)) == Scanner(0, JsonDepth(v), false, false)
  {
    ScanValue(START, v, pretty, 0);
  }

  /** The guard passes a serialized value exactly when it nests at most `MAX_DEPTH` levels. */
  method Guard(v: Json, pretty: bool) returns (passes: bool)
    requires WellFormed(v)
    ensures passes <==> JsonDepth(v) <= MAX_DEPTH
  {
    var deepest := Nesting(Serialize(v, pretty, 0));
    ScanFindsDepth(v, pretty);
    passes := !(deepest > MAX_DEPTH);
  }
}

/** The JSON of formulas and of the models that hold them, and why every formula
    within the depth limit passes the reader's guard. */
module FormulaJson {
  import opened Integers
  import opened Formulas
  import opened JsonNesting

  /** An externally tagged variant: an object with the one field. */
  function Tagged(tag: string, v: Json): Json {
    Obj([Field(tag, v)])
  }

  function DecimalBytes(n: nat): (r: seq<Byte>)
    ensures AllInert(r)
  {
    if n < 10 then [0x30 + n] else DecimalBytes(n / 10) + [0x30 + n % 10]
  }

  function IdJson(id: U32): Json {
    Atom(DecimalBytes(id))
  }

  function IdsJson(ids: seq<U32>): (r: seq<Json>)
    ensures |r| == |ids| && WellFormedAll(r) && JsonDepthAll(r) == 0
  {
    if ids == [] then [] else [IdJson(ids[0])] + IdsJson(ids[1..])
  }

  function UnaryName(op: UnaryOp): string {
    match op case Neg => "Neg" case Not => "Not"
  }

  function BinaryName(op: BinaryOp): string {
    match op
    case Add => "Add" case Sub => "Sub" case Mul => "Mul" case Div => "Div"
    case And => "And" case Or => "Or" case Eq => "Eq" case Ne => "Ne"
    case Lt => "Lt" case Le => "Le" case Gt => "Gt" case Ge => "Ge"
    case Pow => "Pow" case Concat => "Concat"
  }

  /** Numerals that stand for a JSON number, and words for the other finite atoms. */
  function NumeralJson(numeral: string): Json {
    if AllInert(Utf8(numeral)) then Atom(Utf8(numeral)) else Atom(Utf8("null"))
  }

  /** An error literal's kind is a name, or an object for a custom kind; beside
      it stands the measure it came from, or null. */
  function ErrorJson(code: string): Json {
    Obj([Field("kind", Tagged("Custom", Str(code))), Field("source_measure", Atom(Utf8("null")))])
  }

  function ValueJson(v: Value): Json {
    match v
    case Number(numeral) => Tagged("Number", NumeralJson(numeral))
    case Boolean(b) => Tagged("Boolean", Atom(Utf8(if b then "true" else "false")))
    case Text(t) => Tagged("Text", Str(t))
    case DateTime(stamp) => Tagged("DateTime", Str(stamp))
    case EnumIndex(i) => Tagged("Enum", IdJson(i))
    case Error(code) => Tagged("Error", ErrorJson(code))
  }

  function SpecJson(s: DimensionSpec): Json {
    Obj([Field("by", Arr(IdsJson(s.groupBy))), Field("over", Arr(IdsJson(s.over))),
         Field("except", Arr(IdsJson(s.except)))])
  }

  function ExprJson(e: Expr): Json
    decreases e, 1
  {
    match e
    case Literal(v) => Tagged("Literal", ValueJson(v))
    case Ref(m, s) => Tagged("Ref", Arr([IdJson(m), SpecJson(s)]))
    case Unary(op, a) => Tagged("UnaryOp", Arr([Str(UnaryName(op)), ExprJson(a)]))
    case Binary(op, a, b) => Tagged("BinaryOp", Arr([Str(BinaryName(op)), ExprJson(a), ExprJson(b)]))
    case Call(f, args) => Tagged("Call", Arr([IdJson(f), Arr(ArgsJson(args))]))
    case Category(c) => Tagged("Category", IdJson(c))
  }

  function ArgsJson(es: seq<Expr>): seq<Json>
    decreases es, 0
  {
    if es == [] then [] else [ExprJson(es[0])] + ArgsJson(es[1..])
  }

  lemma TaggedDepth(tag: string, v: Json)
    ensures JsonDepth(Tagged(tag, v)) == 1 + JsonDepth(v)
    ensures WellFormed(Tagged(tag, v)) == WellFormed(v)
  {
    SingleField(Field(tag, v));
  }

  lemma ArrDepth2(a: Json, b: Json)
    ensures JsonDepth(Arr([a, b])) == 1 + Max(JsonDepth(a), JsonDepth(b))
    ensures WellFormed(Arr([a, b])) == (WellFormed(a) && WellFormed(b))
  {
    assert [a, b][1..] == [b] && [b][1..] == [];
    assert JsonDepthAll([b]) == JsonDepth(b) && WellFormedAll([b]) == WellFormed(b);
  }

  lemma ArrDepth3(a: Json, b: Json, c: Json)
    ensures JsonDepth(Arr([a, b, c])) == 1 + Max(JsonDepth(a), Max(JsonDepth(b), JsonDepth(c)))
    ensures WellFormed(Arr([a, b, c])) == (WellFormed(a) && WellFormed(b) && WellFormed(c))
  {
    ArrDepth2(b, c);
    assert [a, b, c][1..] == [b, c];
  }

  lemma Words()
    ensures AllInert(Utf8("null")) && AllInert(Utf8("true")) && AllInert(Utf8("false"))
  {
    AsciiInert("null");
    AsciiInert("true");
    AsciiInert("false");
  }

  lemma {:induction false} AsciiInert(s: string)
    requires forall i :: 0 <= i < |s| ==> 'a' <= s[i] <= 'z'
    ensures AllInert(Utf8(s))
  {
    if s != [] {
      AsciiInert(s[1..]);
    }
  }

  lemma FieldsDepth2(k: string, a: Json, l: string, b: Json)
    ensures JsonDepth(Obj([Field(k, a), Field(l, b)])) == 1 + Max(JsonDepth(a), JsonDepth(b))
    ensures WellFormed(Obj([Field(k, a), Field(l, b)])) == (WellFormed(a) && WellFormed(b))
  {
    var two := [Field(k, a), Field(l, b)];
    assert two[1..] == [Field(l, b)] && two[1..][1..] == [];
    assert JsonDepthFields(two[1..]) == JsonDepth(b) && WellFormedFields(two[1..]) == WellFormed(b);
  }

  lemma ValueDepth(v: Value)
    ensures JsonDepth(ValueJson(v)) <= 3 && WellFormed(ValueJson(v))
  {
    match v
    case Number(n) =>
      Words();
      TaggedDepth("Number", NumeralJson(n));
    case Boolean(b) =>
      Words();
      TaggedDepth("Boolean", Atom(Utf8(if b then "true" else "false")));
    case Text(t) => TaggedDepth("Text", Str(t));
    case DateTime(d) => TaggedDepth("DateTime", Str(d));
    case EnumIndex(i) => TaggedDepth("Enum", IdJson(i));
    case Error(c) =>
      Words();
      TaggedDepth("Error", ErrorJson(c));
      TaggedDepth("Custom", Str(c));
      FieldsDepth2("kind", Tagged("Custom", Str(c)), "source_measure", Atom(Utf8("null")));
  }

  lemma SingleField(f: Field)
    ensures JsonDepthFields([f]) == JsonDepth(f.value) && WellFormedFields([f]) == WellFormed(f.value)
  {
    assert [f][1..] == [];
  }

  lemma SpecDepth(s: DimensionSpec)
    ensures JsonDepth(SpecJson(s)) == 2 && WellFormed(SpecJson(s))
  {
    var a, b, c := Field("by", Arr(IdsJson(s.groupBy))), Field("over", Arr(IdsJson(s.over))),
                   Field("except", Arr(IdsJson(s.except)));
    FieldsDepthAround([a], b, [c]);
    assert [a] + [b] + [c] == [a, b, c];
    SingleField(a);
    SingleField(c);
  }

  /** A call level is three levels of JSON, an operator two, a leaf at most four. */
  lemma {:induction false} ExprJsonDepth(e: Expr)
    ensures WellFormed(ExprJson(e)) && JsonDepth(ExprJson(e)) <= 3 * Height(e) + 1
    decreases e, 1
  {
    match e
    case Literal(v) =>
      ValueDepth(v);
      TaggedDepth("Literal", ValueJson(v));
    case Ref(m, s) =>
      SpecDepth(s);
      ArrDepth2(IdJson(m), SpecJson(s));
      TaggedDepth("Ref", Arr([IdJson(m), SpecJson(s)]));
    case Unary(op, a) =>
      ExprJsonDepth(a);
      ArrDepth2(Str(UnaryName(op)), ExprJson(a));
      TaggedDepth("UnaryOp", Arr([Str(UnaryName(op)), ExprJson(a)]));
    case Binary(op, a, b) =>
      ExprJsonDepth(a);
      ExprJsonDepth(b);
      ArrDepth3(Str(BinaryName(op)), ExprJson(a), ExprJson(b));
      TaggedDepth("BinaryOp", Arr([Str(BinaryName(op)), ExprJson(a), ExprJson(b)]));
    case Call(f, args) =>
      ArgsJsonDepth(args);
      ArrDepth2(IdJson(f), Arr(ArgsJson(args)));
      TaggedDepth("Call", Arr([IdJson(f), Arr(ArgsJson(args))]));
    case Category(c) =>
      TaggedDepth("Category", IdJson(c));
  }

  lemma {:induction false} ArgsJsonDepth(es: seq<Expr>)
    ensures WellFormedAll(ArgsJson(es))
    ensures JsonDepthAll(ArgsJson(es)) <= if es == [] then 0 else 3 * HeightAll(es) + 1
    decreases es, 0
  {
    if es != [] {
      ExprJsonDepth(es[0]);
      ArgsJsonDepth(es[1..]);
      assert ArgsJson(es)[1..] == ArgsJson(es[1..]);
    }
  }

  lemma {:induction false} HeightWithinDepth(e: Expr)
    ensures Height(e) <= Depth(e)
    decreases e, 1
  {
    match e
    case Unary(_, a) => HeightWithinDepth(a);
    case Binary(_, a, b) =>
      HeightWithinDepth(a);
      HeightWithinDepth(b);
    case Call(_, args) => HeightAllWithinDepth(args);
    case _ =>
  }

  lemma {:induction false} HeightAllWithinDepth(es: seq<Expr>)
    ensures HeightAll(es) <= DepthAll(es)
    decreases es, 0
  {
    if es != [] {
      HeightWithinDepth(es[0]);
      HeightAllWithinDepth(es[1..]);
    }
  }

  function FormulaJson(e: Expr): Json {
    Obj([Field("expr", ExprJson(e))])
  }

  /** A derived measure among its other fields, none of which nests deeper than the room allows. */
  function MeasureJson(formula: Expr, before: seq<Field>, after: seq<Field>): Json {
    Obj(before + [Field("kind", Tagged("Derived", FormulaJson(formula)))] + after)
  }

  /** A measure as a model's `measures` map holds it: its fields around the formula. */
  datatype StoredMeasure = StoredMeasure(key: string, formula: Expr, before: seq<Field>, after: seq<Field>)

  function MeasuresJson(ms: seq<StoredMeasure>): seq<Field> {
    if ms == [] then []
    else [Field(ms[0].key, MeasureJson(ms[0].formula, ms[0].before, ms[0].after))] + MeasuresJson(ms[1..])
  }

  /** A named LAMBDA as a model's `lambdas` map holds it. */
  datatype StoredLambda = StoredLambda(key: string, name: string, params: seq<string>, body: Expr)

  function StringsJson(texts: seq<string>): (r: seq<Json>)
    ensures WellFormedAll(r) && JsonDepthAll(r) == 0
  {
    if texts == [] then [] else [Str(texts[0])] + StringsJson(texts[1..])
  }

  function LambdaJson(l: StoredLambda): Json {
    Obj([Field("name", Str(l.name))] + [Field("params", Arr(StringsJson(l.params)))] + [Field("body", ExprJson(l.body))])
  }

  function LambdasJson(ls: seq<StoredLambda>): seq<Field> {
    if ls == [] then [] else [Field(ls[0].key, LambdaJson(ls[0]))] + LambdasJson(ls[1..])
  }

  /** A part of a model, in whatever order they are written. */
  datatype ModelPart = Measures(measures: seq<StoredMeasure>) | NamedLambdas(lambdas: seq<StoredLambda>) | Other(field: Field)

  function PartJson(part: ModelPart): Field {
    match part
    case Measures(ms) => Field("measures", Obj(MeasuresJson(ms)))
    case NamedLambdas(ls) => Field("lambdas", Obj(LambdasJson(ls)))
    case Other(f) => f
  }

  function PartsJson(parts: seq<ModelPart>): seq<Field> {
    if parts == [] then [] else [PartJson(parts[0])] + PartsJson(parts[1..])
  }

  /** A whole model: its measures, its named LAMBDAs, and its other parts. */
  function ModelJson(parts: seq<ModelPart>): Json {
    Obj(PartsJson(parts))
  }

  lemma {:induction false} FieldsDepthConcat(a: seq<Field>, b: seq<Field>)
    ensures JsonDepthFields(a + b) == Max(JsonDepthFields(a), JsonDepthFields(b))
    ensures WellFormedFields(a + b) == (WellFormedFields(a) && WellFormedFields(b))
  {
    if a == [] {
      assert a + b == b;
    } else {
      FieldsDepthConcat(a[1..], b);
      assert (a + b)[1..] == a[1..] + b;
    }
  }

  lemma FieldsDepthAround(before: seq<Field>, f: Field, after: seq<Field>)
    ensures JsonDepthFields(before + [f] + after) == Max(Max(JsonDepthFields(before), JsonDepth(f.value)), JsonDepthFields(after))
    ensures WellFormedFields(before + [f] + after)
         == (WellFormedFields(before) && WellFormed(f.value) && WellFormedFields(after))
  {
    FieldsDepthConcat(before + [f], after);
    FieldsDepthConcat(before, [f]);
    SingleField(f);
  }

  /** A formula alone takes 3d + 2 levels. */
  lemma FormulaJsonDepth(e: Expr, d: nat)
    requires Depth(e) <= d
    ensures WellFormed(FormulaJson(e)) && JsonDepth(FormulaJson(e)) <= 3 * d + 2
  {
    ExprJsonDepth(e);
    HeightWithinDepth(e);
    TaggedDepth("expr", ExprJson(e));
  }

  ghost predicate RoomAround(fields: seq<Field>, room: nat) {
    WellFormedFields(fields) && JsonDepthFields(fields) <= room
  }

  lemma {:induction false} MeasuresJsonDepth(ms: seq<StoredMeasure>, d: nat)
    requires forall i :: 0 <= i < |ms| ==>
               Depth(ms[i].formula) <= d && RoomAround(ms[i].before, 3 * d + 3) && RoomAround(ms[i].after, 3 * d + 3)
    ensures WellFormedFields(MeasuresJson(ms)) && JsonDepthFields(MeasuresJson(ms)) <= 3 * d + 4
  {
    if ms != [] {
      var m := ms[0];
      FormulaJsonDepth(m.formula, d);
      TaggedDepth("Derived", FormulaJson(m.formula));
      FieldsDepthAround(m.before, Field("kind", Tagged("Derived", FormulaJson(m.formula))), m.after);
      MeasuresJsonDepth(ms[1..], d);
      assert MeasuresJson(ms)[1..] == MeasuresJson(ms[1..]);
    }
  }

  /** Named LAMBDAs whose bodies are at most `d` deep take 3d + 3 levels, so 3d + 4 in a model. */
  lemma {:induction false} LambdasJsonDepth(ls: seq<StoredLambda>, d: nat)
    requires forall i :: 0 <= i < |ls| ==> Depth(ls[i].body) <= d
    ensures WellFormedFields(LambdasJson(ls)) && JsonDepthFields(LambdasJson(ls)) <= 3 * d + 2
    ensures JsonDepth(Obj(LambdasJson(ls))) <= 3 * d + 3
  {
    if ls != [] {
      LambdaJsonDepth(ls[0], d);
      LambdasJsonDepth(ls[1..], d);
      assert LambdasJson(ls)[1..] == LambdasJson(ls[1..]);
    }
  }

  lemma LambdaJsonDepth(l: StoredLambda, d: nat)
    requires Depth(l.body) <= d
    ensures WellFormed(LambdaJson(l)) && JsonDepth(LambdaJson(l)) <= 3 * d + 2
  {
    var name, params, body := Field("name", Str(l.name)), Field("params", Arr(StringsJson(l.params))), Field("body", ExprJson(l.body));
    ExprJsonDepth(l.body);
    HeightWithinDepth(l.body);
    FieldsDepthAround([name], params, [body]);
    SingleField(name);
    SingleField(body);
  }

  /** The formulas of a part are at most `d` deep, and its other fields nest within the room they leave. */
  ghost predicate PartWithin(part: ModelPart, d: nat) {
    match part
    case Measures(ms) =>
      forall i :: 0 <= i < |ms| ==>
        Depth(ms[i].formula) <= d && RoomAround(ms[i].before, 3 * d + 3) && RoomAround(ms[i].after, 3 * d + 3)
    case NamedLambdas(ls) => forall i :: 0 <= i < |ls| ==> Depth(ls[i].body) <= d
    case Other(f) => WellFormed(f.value) && JsonDepth(f.value) <= 3 * d + 5
  }

  lemma PartJsonDepth(part: ModelPart, d: nat)
    requires PartWithin(part, d)
    ensures WellFormed(PartJson(part).value) && JsonDepth(PartJson(part).value) <= 3 * d + 5
  {
    match part
    case Measures(ms) => MeasuresJsonDepth(ms, d);
    case NamedLambdas(ls) => LambdasJsonDepth(ls, d);
    case Other(_) =>
  }

  /** A model whose formulas, LAMBDA bodies among them, are at most `d` deep is
      written in 3d + 6 levels, its other parts nesting no deeper. */
  lemma {:induction false} ModelJsonDepth(parts: seq<ModelPart>, d: nat)
    requires forall i :: 0 <= i < |parts| ==> PartWithin(parts[i], d)
    ensures WellFormed(ModelJson(parts)) && JsonDepth(ModelJson(parts)) <= 3 * d + 6
  {
    if parts != [] {
      PartJsonDepth(parts[0], d);
      ModelJsonDepth(parts[1..], d);
      assert PartsJson(parts)[1..] == PartsJson(parts[1..]);
      assert JsonDepth(ModelJson(parts[1..])) == 1 + JsonDepthFields(PartsJson(parts[1..]));
    }
  }

  /** The formulas of a part pass the depth check. */
  ghost predicate PartChecked(part: ModelPart) {
    match part
    case Measures(ms) => forall i :: 0 <= i < |ms| ==> CheckDepth(ms[i].formula, MAX_FORMULA_DEPTH).Ok?
    case NamedLambdas(ls) => forall i :: 0 <= i < |ls| ==> CheckDepth(ls[i].body, MAX_FORMULA_DEPTH).Ok?
    case Other(_) => true
  }

  /** A part's fields without formulas nest within the room a formula at the limit leaves. */
  ghost predicate PartHasRoom(part: ModelPart) {
    match part
    case Measures(ms) =>
      forall i :: 0 <= i < |ms| ==>
        RoomAround(ms[i].before, 3 * MAX_FORMULA_DEPTH + 3) && RoomAround(ms[i].after, 3 * MAX_FORMULA_DEPTH + 3)
    case NamedLambdas(_) => true
    case Other(f) => WellFormed(f.value) && JsonDepth(f.value) <= 3 * MAX_FORMULA_DEPTH + 5
  }

  /** The reader's guard never refuses a formula within the depth limit: not
      alone, and not in a model, compact or pretty-printed. */
  lemma FormulasWithinTheLimitPassTheGuard(parts: seq<ModelPart>, e: Expr, pretty: bool)
    requires forall i :: 0 <= i < |parts| ==> PartChecked(parts[i]) && PartHasRoom(parts[i])
    requires CheckDepth(e, MAX_FORMULA_DEPTH).Ok?
    ensures Scan(START, Serialize(ModelJson(parts), pretty, 0)).deepest <= 774 < MAX_DEPTH
    ensures Scan(START, Serialize(FormulaJson(e), pretty, 0)).deepest <= MAX_DEPTH
  {
    forall i | 0 <= i < |parts|
      ensures PartWithin(parts[i], MAX_FORMULA_DEPTH)
    {
      assert PartChecked(parts[i]) && PartHasRoom(parts[i]);
    }
    ModelJsonDepth(parts, MAX_FORMULA_DEPTH);
    ScanFindsDepth(ModelJson(parts), pretty);
    FormulaJsonDepth(e, MAX_FORMULA_DEPTH);
    ScanFindsDepth(FormulaJson(e), pretty);
  }
}
