/**
 * The workflow's JMESPath runtime: the custom functions `uppercase`,
 * `split` and `concat` registered beside the builtins, the argument
 * signatures every call is checked against, and `compile_and_search`.
 *
 * The builtin function table is a parameter, and so are the lexer and the
 * binding powers the parser needs. The signature check follows the
 * JMESPath Specification's function-argument rules; the library module
 * that implements it is not part of this model.
 */
module JmesRuntime {
  import opened Wrappers
  import opened Strings
  import opened Json
  import opened JmesAst
  import opened JmesInterpreter
  import opened JmesParser

  // ---- signatures ----

  /** The argument types a function takes, and the type of any further arguments. */
  datatype Signature = Signature(inputs: seq<ArgumentType>, variadic: Option<ArgumentType>)

  predicate HasType(v: Variable, t: ArgumentType)
  {
    match t
    case AnyType => true
    case StringType => v.String?
    case BoolType => v.Bool?
  }

  /** The type argument `k` must have: its declared input, else the variadic one. */
  function ParamType(sig: Signature, k: nat): ArgumentType
    requires k < |sig.inputs| || sig.variadic.Some?
  {
    if k < |sig.inputs| then sig.inputs[k] else sig.variadic.value
  }

  predicate ArityOk(sig: Signature, n: nat)
  {
    n >= |sig.inputs| && (sig.variadic.None? ==> n == |sig.inputs|)
  }

  /** The check of a call's arguments: the arity first, then each argument from the left. */
  function Validate(sig: Signature, args: seq<Variable>): (r: Option<RuntimeError>)
    ensures r.None? <==>
      ArityOk(sig, |args|) && forall k :: 0 <= k < |args| ==> HasType(args[k], ParamType(sig, k))
    ensures r == Some(NotEnoughArguments(|sig.inputs|, |args|)) <==> |args| < |sig.inputs|
    ensures r.Some? && r.value.InvalidType? ==>
      ArityOk(sig, |args|) && r.value.position < |args|
      && r.value.expectedType == ParamType(sig, r.value.position)
      && !HasType(args[r.value.position], r.value.expectedType)
      && forall k :: 0 <= k < r.value.position ==> HasType(args[k], ParamType(sig, k))
  {
    if |args| < |sig.inputs| then Some(NotEnoughArguments(|sig.inputs|, |args|))
    else if sig.variadic.None? && |args| > |sig.inputs| then Some(TooManyArguments(|sig.inputs|, |args|))
    else FirstBadArgument(sig, args, 0)
  }

  function FirstBadArgument(sig: Signature, args: seq<Variable>, k: nat): (r: Option<RuntimeError>)
    requires ArityOk(sig, |args|) && k <= |args|
    ensures r.None? <==> forall j :: k <= j < |args| ==> HasType(args[j], ParamType(sig, j))
    ensures r.Some? ==>
      r.value.InvalidType? && k <= r.value.position < |args|
      && r.value.expectedType == ParamType(sig, r.value.position)
      && !HasType(args[r.value.position], r.value.expectedType)
      && forall j :: k <= j < r.value.position ==> HasType(args[j], ParamType(sig, j))
    decreases |args| - k
  {
    if k == |args| then None
    else if !HasType(args[k], ParamType(sig, k)) then Some(InvalidType(ParamType(sig, k), k))
    else FirstBadArgument(sig, args, k + 1)
  }

  /** A checked call: the signature error at the call's offset, or the body's value. */
  function Checked(sig: Signature, args: seq<Variable>, offset: nat, value: Variable): Result<Variable, JmesError>
  {
    match Validate(sig, args)
    case Some(e) => Err(JmesError(offset, Runtime(e)))
    case None => Ok(value)
  }

  /** Argument `k` as a string, `""` when it is missing or not a string. */
  function StringArg(args: seq<Variable>, k: nat): string
  {
    if k < |args| && args[k].String? then args[k].s else ""
  }

  // ---- uppercase ----

  const UppercaseSignature := Signature([StringType], None)

  predicate IsAsciiLower(c: char) { 'a' <= c <= 'z' }

  function UpperChar(c: char): char
  {
    if IsAsciiLower(c) then (c as int - 32) as char else c
  }

  /**
   * ASCII upper-casing: `a`–`z` become `A`–`Z`, every other char stays. It
   * leaves no ASCII lower-case letter, moves nothing else, and keeps the length.
   */
  function Uppercase(s: string): (r: string)
    ensures |r| == |s|
    ensures forall i :: 0 <= i < |s| ==> !IsAsciiLower(r[i])
    ensures forall i :: 0 <= i < |s| && !IsAsciiLower(s[i]) ==> r[i] == s[i]
    ensures forall i :: 0 <= i < |s| && IsAsciiLower(s[i]) ==> r[i] as int == s[i] as int - 32
  {
    seq(|s|, i requires 0 <= i < |s| => UpperChar(s[i]))
  }

  /** `uppercase(uppercase(x)) == uppercase(x)`. */
  lemma UppercaseIdempotent(s: string)
    ensures Uppercase(Uppercase(s)) == Uppercase(s)
  {
  }

  // ---- split ----

  const SplitSignature := Signature([StringType, StringType], None)

  /**
   * `split(delim, input)`: the pieces of `input` between the occurrences of
   * `delim`, as strings; joined by the delimiter they give the input back.
   */
  function SplitValue(delim: string, input: string): (r: Variable)
    ensures r.Array? && forall x :: x in r.items ==> x.String?
    ensures Join(Texts(r.items), delim) == input
  {
    var pieces := Split(input, delim);
    var r := Variable.Array(seq(|pieces|, i requires 0 <= i < |pieces| => Variable.String(pieces[i])));
    assert Texts(r.items) == pieces;
    JoinSplit(input, delim);
    r
  }

  /** The texts of a sequence of values, `""` for a non-string. */
  function Texts(items: seq<Variable>): (r: seq<string>)
    ensures |r| == |items|
  {
    seq(|items|, i requires 0 <= i < |items| => if items[i].String? then items[i].s else "")
  }

  // ---- concat ----

  const ConcatSignature := Signature([AnyType], Some(AnyType))

  /** JSON text with one pair of surrounding double quotes removed. */
  function StripQuotes(t: string): string
  {
    if |t| >= 2 && t[0] == '"' && t[|t| - 1] == '"' then t[1..|t| - 1] else t
  }

  /** What one argument contributes to `concat`: a string raw, anything else as JSON text unquoted. */
  function ArgText(v: Variable): string
  {
    if v.String? then v.s else StripQuotes(ToText(ToJson(v)))
  }

  /** `concat(a, b, …)`: the arguments' texts joined left to right; for strings, their concatenation. */
  function ConcatText(args: seq<Variable>): (r: string)
    ensures args == [] ==> r == ""
    ensures (forall i :: 0 <= i < |args| ==> args[i].String?) ==> r == Concat(Texts(args))
  {
    var ts := seq(|args|, i requires 0 <= i < |args| => ArgText(args[i]));
    JoinEmpty(ts);
    assert (forall i :: 0 <= i < |args| ==> args[i].String?) ==> ts == Texts(args);
    Join(ts, "")
  }

  /** Every non-string value except an expression reference contributes its JSON text unchanged. */
  lemma ArgTextJson(v: Variable)
    requires !v.String? && !v.Expref?
    ensures ArgText(v) == ToText(ToJson(v))
  {
    var t := ToText(ToJson(v));
    match v
    case Null =>
    case Bool(b) =>
    case Number(n) =>
      assert t == IntToDecimal(n);
      DecimalNoQuote(n);
    case Array(a) =>
      assert t[0] == '[';
    case Object(m) =>
      assert t[0] == '{';
  }

  lemma DecimalNoQuote(n: int)
    ensures |IntToDecimal(n)| > 0 && IntToDecimal(n)[0] != '"'
  {
    NatToDecimalDigits(if n < 0 then -n else n);
  }

  lemma {:induction false} NatToDecimalDigits(n: nat)
    ensures |NatToDecimal(n)| > 0 && IsAsciiDigit(NatToDecimal(n)[0])
  {
    if n >= 10 {
      NatToDecimalDigits(n / 10);
    }
  }

  /** `concat` of strings is their concatenation, and each argument adds its own text after the others. */
  lemma ConcatAppends(args: seq<Variable>, v: Variable)
    ensures ConcatText(args + [v]) == ConcatText(args) + ArgText(v)
  {
    var ts := seq(|args|, i requires 0 <= i < |args| => ArgText(args[i]));
    var ts2 := seq(|args| + 1, i requires 0 <= i < |args| + 1 => ArgText((args + [v])[i]));
    assert ts2 == ts + [ArgText(v)];
    JoinEmpty(ts2);
    JoinEmpty(ts);
    ConcatAppend(ts, [ArgText(v)]);
    assert Concat([ArgText(v)]) == ArgText(v);
  }

  /** A missing field is `null`, and `concat(p, null)` reads `p` followed by `null`. */
  lemma ConcatNull(p: string)
    ensures ConcatText([Variable.String(p), Variable.Null]) == p + "null"
  {
    ConcatAppends([Variable.String(p)], Variable.Null);
    ConcatAppends([], Variable.String(p));
    assert [] + [Variable.String(p)] == [Variable.String(p)];
    assert [Variable.String(p)] + [Variable.Null] == [Variable.String(p), Variable.Null];
    assert ConcatText([]) == "";
    assert ArgText(Variable.Null) == "null";
  }

  // ---- the runtime ----

  /**
   * The runtime the workflow searches with: the three custom functions,
   * checked against their signatures, and otherwise the builtins (`gt`
   * among them here).
   */
  function CustomCall(builtins: Runtime, name: string, args: seq<Variable>, offset: nat)
    : (r: Option<Result<Variable, JmesError>>)
    ensures name != "uppercase" && name != "split" && name != "concat" ==> r == builtins(name, args, offset)
    ensures name == "uppercase" ==>
      r.Some? && (r.value.Ok? <==> |args| == 1 && args[0].String?)
      && (r.value.Ok? ==> r.value.value == Variable.String(Uppercase(args[0].s)))
    ensures name == "split" ==>
      r.Some? && (r.value.Ok? <==> |args| == 2 && args[0].String? && args[1].String?)
      && (r.value.Ok? ==> r.value.value == SplitValue(args[0].s, args[1].s))
    ensures name == "concat" ==>
      r.Some? && (r.value.Ok? <==> |args| >= 1) && (r.value.Ok? ==> r.value.value == Variable.String(ConcatText(args)))
    ensures r.Some? && r.value.Err? && (name == "uppercase" || name == "split" || name == "concat") ==>
      r.value.error.offset == offset
  {
    if name == "uppercase" then
      Some(Checked(UppercaseSignature, args, offset, Variable.String(Uppercase(StringArg(args, 0)))))
    else if name == "split" then
      Some(Checked(SplitSignature, args, offset, SplitValue(StringArg(args, 0), StringArg(args, 1))))
    else if name == "concat" then
      Some(Checked(ConcatSignature, args, offset, Variable.String(ConcatText(args))))
    else builtins(name, args, offset)
  }

  function CustomRuntime(builtins: Runtime): Runtime
  {
    (name: string, args: seq<Variable>, offset: nat) => CustomCall(builtins, name, args, offset)
  }

  /** What each custom function answers for well-typed arguments, and that `concat` needs one. */
  lemma CustomFunctions(builtins: Runtime, args: seq<Variable>, offset: nat)
    ensures |args| == 1 && args[0].String? ==>
      CustomCall(builtins, "uppercase", args, offset) == Some(Ok(Variable.String(Uppercase(args[0].s))))
    ensures |args| == 2 && args[0].String? && args[1].String? ==>
      CustomCall(builtins, "split", args, offset) == Some(Ok(SplitValue(args[0].s, args[1].s)))
    ensures |args| >= 1 ==>
      CustomCall(builtins, "concat", args, offset) == Some(Ok(Variable.String(ConcatText(args))))
    ensures args == [] ==>
      CustomCall(builtins, "concat", args, offset) == Some(Err(JmesError(offset, Runtime(NotEnoughArguments(1, 0)))))
    ensures |args| == 1 && !args[0].String? ==>
      CustomCall(builtins, "uppercase", args, offset) == Some(Err(JmesError(offset, Runtime(InvalidType(StringType, 0)))))
  {
    if |args| >= 1 {
      assert Validate(ConcatSignature, args).None? by {
        forall k | 0 <= k < |args| ensures HasType(args[k], ParamType(ConcatSignature, k)) {
        }
      }
    }
  }

  /** `uppercase(uppercase(msg))` over a string equals `uppercase(msg)`, through the runtime. */
  lemma NestedUppercase(builtins: Runtime, msg: string, offset: nat)
    ensures var inner := CustomCall(builtins, "uppercase", [Variable.String(msg)], offset);
      inner.Some? && inner.value.Ok? &&
      CustomCall(builtins, "uppercase", [inner.value.value], offset) == inner
  {
    CustomFunctions(builtins, [Variable.String(msg)], offset);
    CustomFunctions(builtins, [Variable.String(Uppercase(msg))], offset);
    UppercaseIdempotent(msg);
  }

  // ---- compile and search ----

  /** Why a mapping expression failed. */
  datatype MappingError =
    | CompileError(cause: JmesError)
    | ExecutionError(cause: JmesError)
    | SerializationError(msg: string)

  /**
   * `compile_and_search`: parse the expression, evaluate it over the input
   * document, and turn the value back into JSON. `ast` is the parsed
   * expression when parsing succeeded.
   */
  method CompileAndSearch(text: string, input: Json, tokenize: string -> Result<seq<TokenTuple>, JmesError>,
                          lbp: Token -> nat, rt: Runtime)
    returns (r: Result<Json, MappingError>, ghost ast: Option<Ast>)
    ensures tokenize(text).Err? ==> r == Err(CompileError(tokenize(text).error))
    ensures ast.None? <==> r.Err? && r.error.CompileError?
    ensures ast.Some? ==>
      r == match Interpret(FromJson(input), ast.value, rt)
           case Ok(v) => Ok(ToJson(v))
           case Err(e) => Err(ExecutionError(e))
    ensures !(r.Err? && r.error.SerializationError?)
  {
    var parsed := ParseExpression(text, tokenize, lbp);
    if parsed.Err? {
      return Err(CompileError(parsed.error)), None;
    }
    ast := Some(parsed.value);
    var found := Interpret(FromJson(input), parsed.value, rt);
    if found.Err? {
      return Err(ExecutionError(found.error)), ast;
    }
    r := Ok(ToJson(found.value));
  }
}
