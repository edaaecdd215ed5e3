/**
 * The values, tokens, syntax tree and errors of the JMESPath engine.
 *
 * The engine's own `ast.rs`, `variable.rs` and `lexer.rs` are not part of
 * this model: the variants below are the ones the parser builds and the
 * interpreter takes apart, and the value operations follow the JMESPath
 * Specification (truthiness table, comparisons, index and slice rules).
 * Numbers are integers.
 */
module JmesAst {
  import opened Wrappers
  import opened Json

  /** A JMESPath runtime value: a JSON value, or an expression reference. */
  datatype Variable =
    | Null
    | Bool(b: bool)
    | Number(n: int)
    | String(s: string)
    | Array(items: seq<Variable>)
    | Object(fields: map<string, Variable>)
    | Expref(ast: Ast)

  datatype Comparator = Equal | NotEqual | LessThan | LessThanEqual | GreaterThan | GreaterThanEqual

  datatype KeyValuePair = KeyValuePair(key: string, value: Ast)

  /** The syntax tree; every node carries the offset of the token it was built at. */
  datatype Ast =
    | Comparison(offset: nat, comparator: Comparator, lhs: Ast, rhs: Ast)
    | Condition(offset: nat, cond: Ast, thenNode: Ast)
    | Identity(offset: nat)
    | Expref(offset: nat, ast: Ast)
    | Flatten(offset: nat, node: Ast)
    | Function(offset: nat, name: string, args: seq<Ast>)
    | Field(offset: nat, name: string)
    | Index(offset: nat, idx: int)
    | Literal(offset: nat, value: Variable)
    | MultiList(offset: nat, elements: seq<Ast>)
    | MultiHash(offset: nat, pairs: seq<KeyValuePair>)
    | Not(offset: nat, node: Ast)
    | Projection(offset: nat, lhs: Ast, rhs: Ast)
    | ObjectValues(offset: nat, node: Ast)
    | And(offset: nat, lhs: Ast, rhs: Ast)
    | Or(offset: nat, lhs: Ast, rhs: Ast)
    | Slice(offset: nat, start: Option<int>, stop: Option<int>, step: int)
    | Subexpr(offset: nat, lhs: Ast, rhs: Ast)

  /** The lexer's tokens. */
  datatype Token =
    | Identifier(name: string)
    | QuotedIdentifier(name: string)
    | Number(n: int)
    | Literal(value: Variable)
    | Dot | Star | Flatten | And | Or | Pipe | Filter
    | Lbracket | Rbracket | Comma | Colon | Not
    | Ne | Eq | Gt | Gte | Lt | Lte
    | At | Ampersand | Lparen | Rparen | Lbrace | Rbrace
    | Eof

  /** The type a function signature asks of an argument. */
  datatype ArgumentType = AnyType | StringType | BoolType

  datatype RuntimeError =
    | UnknownFunction(name: string)
    | InvalidSlice
    | NotEnoughArguments(expected: nat, actual: nat)
    | TooManyArguments(expected: nat, actual: nat)
    | InvalidType(expectedType: ArgumentType, position: nat)

  /** A parse error keeps its message and the token it was found at (the source prints both). */
  datatype ErrorReason =
    | Parse(msg: string, found: Option<Token>)
    | Runtime(error: RuntimeError)

  /** `JmespathError`: what went wrong and at which offset of the expression. */
  datatype JmesError = JmesError(offset: nat, reason: ErrorReason)

  // ---- value operations ----

  /** The truthiness table: false, null, "", [] and {} are false; everything else, 0 included, is true. */
  predicate IsTruthy(v: Variable)
    ensures !IsTruthy(v) <==>
      v in {Variable.Null, Variable.Bool(false), Variable.String([]), Variable.Array([]), Variable.Object(map[])}
  {
    match v
    case Null => false
    case Bool(b) => b
    case Number(_) => true
    case String(s) => s != []
    case Array(a) => a != []
    case Object(m) => m != map[]
    case Expref(_) => true
  }

  /** A field of an object, `null` for a missing key or a non-object. */
  function GetField(v: Variable, name: string): Variable
  {
    if v.Object? && name in v.fields then v.fields[name] else Variable.Null
  }

  /** Element `i` of an array, `null` out of range or on a non-array. */
  function GetIndex(v: Variable, i: nat): Variable
  {
    if v.Array? && i < |v.items| then v.items[i] else Variable.Null
  }

  /** Element `i` from the end of an array (1 is the last one), `null` out of range. */
  function GetNegativeIndex(v: Variable, i: nat): Variable
  {
    if v.Array? && 0 < i <= |v.items| then v.items[|v.items| - i] else Variable.Null
  }

  /** Equality on any two values; the orderings only between two numbers, else no answer. */
  function Compare(a: Variable, cmp: Comparator, b: Variable): (r: Option<bool>)
    ensures r.None? <==> cmp != Equal && cmp != NotEqual && !(a.Number? && b.Number?)
    ensures cmp == Equal || cmp == NotEqual ==> r == Some((a == b) == (cmp == Equal))
  {
    if cmp == Equal then Some(a == b)
    else if cmp == NotEqual then Some(a != b)
    else if a.Number? && b.Number? then Some(Ordered(a.n, cmp, b.n))
    else None
  }

  /** An ordering comparator applied to two numbers. */
  function Ordered(x: int, cmp: Comparator, y: int): bool
  {
    match cmp
    case LessThan => x < y
    case LessThanEqual => x <= y
    case GreaterThan => x > y
    case GreaterThanEqual => x >= y
    case Equal => x == y
    case NotEqual => x != y
  }

  /** A slice bound made absolute and clamped into the array (to -1 or len - 1 when stepping backwards). */
  function AdjustEndpoint(len: int, endpoint: int, step: int): (r: int)
    requires len > 0
    ensures step > 0 ==> 0 <= r <= len
    ensures step < 0 ==> -1 <= r <= len - 1
  {
    if endpoint < 0 then
      if endpoint + len >= 0 then endpoint + len
      else if step < 0 then -1 else 0
    else if endpoint < len then endpoint
    else if step < 0 then len - 1 else len
  }

  /** The elements at `i`, `i + step`, … strictly before `stop`. */
  function SliceFrom(items: seq<Variable>, i: int, stop: int, step: int): seq<Variable>
    requires step != 0
    requires step > 0 ==> 0 <= i && stop <= |items|
    requires step < 0 ==> i < |items| && -1 <= stop
    decreases if step > 0 then stop - i else i - stop
  {
    if step > 0 then
      if i < stop then [items[i]] + SliceFrom(items, i + step, stop, step) else []
    else
      if i > stop then [items[i]] + SliceFrom(items, i + step, stop, step) else []
  }

  /** The JMESPath slice `[start:stop:step]` of an array, with the defaults filled in. */
  function SliceItems(items: seq<Variable>, start: Option<int>, stop: Option<int>, step: int): (r: seq<Variable>)
    requires step != 0
    ensures forall x :: x in r ==> x in items
  {
    if items == [] then []
    else
      var len := |items|;
      var a := match start
        case Some(s) => AdjustEndpoint(len, s, step)
        case None => if step < 0 then len - 1 else 0;
      var b := match stop
        case Some(s) => AdjustEndpoint(len, s, step)
        case None => if step < 0 then -1 else len;
      SliceFromElements(items, a, b, step);
      SliceFrom(items, a, b, step)
  }

  /** `slice`: no answer on a non-array. */
  function SliceOf(v: Variable, start: Option<int>, stop: Option<int>, step: int): (r: Option<seq<Variable>>)
    requires step != 0
    ensures r.Some? <==> v.Array?
    ensures r.Some? ==> forall x :: x in r.value ==> x in v.items
  {
    if v.Array? then Some(SliceItems(v.items, start, stop, step)) else None
  }

  function Reverse<T>(s: seq<T>): (r: seq<T>)
    ensures |r| == |s|
  {
    if s == [] then [] else Reverse(s[1..]) + [s[0]]
  }

  /** `[::1]` is the whole array. */
  lemma SliceWhole(items: seq<Variable>)
    ensures SliceItems(items, None, None, 1) == items
  {
    if items != [] {
      SliceForward(items, 0);
    }
  }

  lemma {:induction false} SliceForward(items: seq<Variable>, i: nat)
    requires i <= |items|
    ensures SliceFrom(items, i, |items|, 1) == items[i..]
    decreases |items| - i
  {
    if i < |items| {
      SliceForward(items, i + 1);
      assert items[i..] == [items[i]] + items[i + 1..];
    }
  }

  /** `[::-1]` is the array reversed. */
  lemma SliceReversed(items: seq<Variable>)
    ensures SliceItems(items, None, None, -1) == Reverse(items)
  {
    if items != [] {
      SliceBackward(items, |items| - 1);
      assert items[..|items|] == items;
    }
  }

  lemma {:induction false} SliceBackward(items: seq<Variable>, i: int)
    requires -1 <= i < |items|
    ensures SliceFrom(items, i, -1, -1) == Reverse(items[..i + 1])
    decreases i + 1
  {
    if i >= 0 {
      SliceBackward(items, i - 1);
      ReverseSnoc(items[..i], items[i]);
      assert items[..i + 1] == items[..i] + [items[i]];
    } else {
      assert items[..i + 1] == [];
    }
  }

  lemma {:induction false} ReverseSnoc<T>(s: seq<T>, x: T)
    ensures Reverse(s + [x]) == [x] + Reverse(s)
    decreases |s|
  {
    if s == [] {
      assert s + [x] == [x];
    } else {
      assert (s + [x])[1..] == s[1..] + [x];
      ReverseSnoc(s[1..], x);
    }
  }

  /** Every element a slice picks comes from the array. */
  lemma {:induction false} SliceFromElements(items: seq<Variable>, i: int, stop: int, step: int)
    requires step != 0
    requires step > 0 ==> 0 <= i && stop <= |items|
    requires step < 0 ==> i < |items| && -1 <= stop
    ensures forall x :: x in SliceFrom(items, i, stop, step) ==> x in items
    decreases if step > 0 then stop - i else i - stop
  {
    if (step > 0 && i < stop) || (step < 0 && i > stop) {
      SliceFromElements(items, i + step, stop, step);
    }
  }

  // ---- conversion from and to JSON ----

  /** A JSON document as a runtime value (`ToJmespath`). */
  function FromJson(j: Json): (r: Variable)
    ensures r.Null? <==> j.Null?
    ensures j.Arr? <==> r.Array?
    ensures j.Arr? ==> |r.items| == |j.items|
    ensures j.Obj? <==> r.Object?
    ensures j.Obj? ==> r.fields.Keys == j.fields.Keys
    ensures !r.Expref?
  {
    match j
    case Null => Variable.Null
    case Bool(b) => Variable.Bool(b)
    case Num(n) => Variable.Number(n)
    case Str(s) => Variable.String(s)
    case Arr(a) => Variable.Array(seq(|a|, i requires 0 <= i < |a| => FromJson(a[i])))
    case Obj(m) => Variable.Object(map k | k in m :: FromJson(m[k]))
  }

  /** The text an expression reference serialises to. */
  const ExprefText := "<expression>"

  /** A runtime value as a JSON document (`serde_json::to_value`). */
  function ToJson(v: Variable): (r: Json)
    ensures r.Null? <==> v.Null?
    ensures v.Array? <==> r.Arr?
    ensures v.Array? ==> |r.items| == |v.items|
    ensures v.Object? <==> r.Obj?
    ensures v.Object? ==> r.fields.Keys == v.fields.Keys
    ensures v.Expref? ==> r == Str(ExprefText)
  {
    match v
    case Null => Json.Null
    case Bool(b) => Json.Bool(b)
    case Number(n) => Num(n)
    case String(s) => Str(s)
    case Array(a) => Arr(seq(|a|, i requires 0 <= i < |a| => ToJson(a[i])))
    case Object(m) => Obj(map k | k in m :: ToJson(m[k]))
    case Expref(_) => Str(ExprefText)
  }

  /** Turning a JSON document into a value and back gives the document. */
  lemma {:induction false} JsonRoundTrip(j: Json)
    ensures ToJson(FromJson(j)) == j
  {
    match j
    case Arr(a) =>
      forall i | 0 <= i < |a| ensures ToJson(FromJson(a[i])) == a[i] {
        JsonRoundTrip(a[i]);
      }
    case Obj(m) =>
      forall k | k in m ensures ToJson(FromJson(m[k])) == m[k] {
        JsonRoundTrip(m[k]);
      }
    case _ =>
  }
}
