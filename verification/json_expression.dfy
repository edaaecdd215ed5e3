/**
 * Interpolation of `{{ … }}` placeholders inside JSON parameter strings.
 * A placeholder holds `$json["k"][0]…` (a path into the current input) or
 * `$node["X"].json["k"]…` (a path into the recorded result of node X); its
 * value, printed as text, replaces the placeholder. A placeholder that does
 * not evaluate is kept as written.
 *
 * The two regular expressions of the module are modelled as hand-written
 * matchers that scan leftmost-first, as the regex crate does: `PlaceholderEnd`
 * for `\{\{\s*(.*?)\s*\}\}` and `MatchKey` for `\[\s*(?:"([^"]+)"|(\d+))\s*\]`.
 * Both `\s` and `\d` are the crate's Unicode classes (`IsWhitespace`,
 * `IsDecimalDigit`); a digit key is then parsed by `parse::<usize>`, which
 * takes ASCII digits only, so a key of other digits reads an object field.
 */
module JsonExpression {
  import opened Wrappers
  import opened Strings
  import opened Json

  /** node name -> that node's output */
  type NodeResults = map<string, Json>

  /** Why an expression has no value; `Message` gives the text the source reports. */
  datatype ExprError =
    | Unsupported(expr: string)
    | MustStartJson(path: string)
    | NoBracket(rest: string)
    | MustStartNode(path: string)
    | NoClosingBracket
    | NoNodeName
    | MissingJson(path: string)
    | NodeNotFound(name: string)
    | NotAnArray(idx: nat)
    | OutOfRange(idx: nat)
    | KeyNotFound(key: string)

  function Message(e: ExprError): string
  {
    match e
    case Unsupported(x) => "Unsupported expr syntax: " + x
    case MustStartJson(p) => "Expression must start with $json: " + p
    case NoBracket(r) => "No [ found after $json: " + r
    case MustStartNode(p) => "Expression must start with $node[: " + p
    case NoClosingBracket => "No closing ] after $node["
    case NoNodeName => "No node name found"
    case MissingJson(p) => "missing .json[...] in expression: " + p
    case NodeNotFound(n) => "Node '" + n + "' not found in results"
    case NotAnArray(i) => "Current value is not an array, can't index " + NatToDecimal(i)
    case OutOfRange(i) => "Index " + NatToDecimal(i) + " out of range for array"
    case KeyNotFound(k) => "Key '" + k + "' not found in object"
  }

  // ---- the placeholder pattern ----

  /** Offset of the first "}}" at or after offset `j`. */
  function CloseFrom(s: string, j: nat): (r: Option<nat>)
    requires j <= |s|
    ensures r.Some? ==> j <= r.value && r.value + 2 <= |s|
    decreases |s| - j
  {
    if j + 2 > |s| then None
    else if s[j] == '}' && s[j + 1] == '}' then Some(j)
    else CloseFrom(s, j + 1)
  }

  /** Some character of `z` is not white space. */
  function HasText(z: string): bool
  {
    z != [] && (!IsWhitespace(z[0]) || HasText(z[1..]))
  }

  /** Some line break of `y` has a character that is not white space after it. */
  function BreakThenText(y: string): bool
  {
    y != [] && ((y[0] == '\n' && HasText(y[1..])) || BreakThenText(y[1..]))
  }

  /**
   * A line break lies between two characters of `x` that are not white
   * space: the break survives trimming (`BrokenBodyIsTrimmedBreak`).
   */
  function BrokenBody(x: string): bool
  {
    x != [] && (if IsWhitespace(x[0]) then BrokenBody(x[1..]) else BreakThenText(x[1..]))
  }

  /** A line break at `m` with characters that are not white space at `l` before it and `r` after it. */
  predicate BreakBetween(x: string, l: int, m: int, r: int)
  {
    0 <= l < m < r < |x| && !IsWhitespace(x[l]) && x[m] == '\n' && !IsWhitespace(x[r])
  }

  ghost predicate Sandwiched(x: string)
  {
    exists l, m, r :: BreakBetween(x, l, m, r)
  }

  lemma {:induction false} HasTextAt(z: string)
    ensures HasText(z) <==> exists r :: 0 <= r < |z| && !IsWhitespace(z[r])
  {
    if z != [] {
      HasTextAt(z[1..]);
      if HasText(z[1..]) {
        var r :| 0 <= r < |z[1..]| && !IsWhitespace(z[1..][r]);
        assert !IsWhitespace(z[r + 1]);
      }
      if exists r :: 0 <= r < |z| && !IsWhitespace(z[r]) {
        var r :| 0 <= r < |z| && !IsWhitespace(z[r]);
        if r > 0 {
          assert z[1..][r - 1] == z[r];
        }
      }
    }
  }

  /** `BreakThenText(y)`: a break at `m` and text at `r` after it. */
  lemma {:induction false} BreakThenTextAt(y: string)
    ensures BreakThenText(y) <==> exists m, r :: 0 <= m < r < |y| && y[m] == '\n' && !IsWhitespace(y[r])
  {
    if y != [] {
      var t := y[1..];
      BreakThenTextAt(t);
      HasTextAt(t);
      if BreakThenText(y) {
        if y[0] == '\n' && HasText(t) {
          var r :| 0 <= r < |t| && !IsWhitespace(t[r]);
          assert y[0] == '\n' && !IsWhitespace(y[r + 1]);
        } else {
          var m, r :| 0 <= m < r < |t| && t[m] == '\n' && !IsWhitespace(t[r]);
          assert y[m + 1] == '\n' && !IsWhitespace(y[r + 1]);
        }
      }
      if exists m, r :: 0 <= m < r < |y| && y[m] == '\n' && !IsWhitespace(y[r]) {
        var m, r :| 0 <= m < r < |y| && y[m] == '\n' && !IsWhitespace(y[r]);
        assert t[r - 1] == y[r];
        if m > 0 {
          assert t[m - 1] == y[m];
        }
      }
    }
  }

  lemma {:induction false} BrokenBodySandwiched(x: string)
    ensures BrokenBody(x) <==> Sandwiched(x)
  {
    if x != [] {
      var t := x[1..];
      if IsWhitespace(x[0]) {
        BrokenBodySandwiched(t);
        if Sandwiched(t) {
          var l, m, r :| BreakBetween(t, l, m, r);
          assert BreakBetween(x, l + 1, m + 1, r + 1);
        }
        if Sandwiched(x) {
          var l, m, r :| BreakBetween(x, l, m, r);
          assert BreakBetween(t, l - 1, m - 1, r - 1);
        }
      } else {
        BreakThenTextAt(t);
        if BreakThenText(t) {
          var m, r :| 0 <= m < r < |t| && t[m] == '\n' && !IsWhitespace(t[r]);
          assert BreakBetween(x, 0, m + 1, r + 1);
        }
        if Sandwiched(x) {
          var l, m, r :| BreakBetween(x, l, m, r);
          assert t[m - 1] == '\n' && !IsWhitespace(t[r - 1]);
        }
      }
    }
  }

  lemma TrimmedSandwiched(x: string)
    ensures '\n' in Trim(x) <==> Sandwiched(x)
  {
    var t := TrimStart(x);
    var p := |x| - |t|;
    TrimStartDrops(x);
    TrimEndDrops(t);
    if '\n' in Trim(x) {
      TrimmedBreakSandwiched(x, t, p);
    }
    TrimStartSuffix(x);
    TrimEndPrefix(t);
    if Sandwiched(x) {
      var l, m, r :| BreakBetween(x, l, m, r);
      assert x[r] == t[r - p];
      LeadingBound(x, p, l);
      TrailingBound(t, |TrimEnd(t)|, r - p);
      assert TrimEnd(t)[m - p] == t[m - p] == x[m];
    }
  }

  lemma TrimmedBreakSandwiched(x: string, t: string, p: nat)
    requires t == TrimStart(x) && p == |x| - |t| && '\n' in TrimEnd(t)
    ensures Sandwiched(x)
  {
    var u := TrimEnd(t);
    var j :| 0 <= j < |u| && u[j] == '\n';
    TrimStartSuffix(x);
    TrimEndPrefix(t);
    assert u[0] == t[0];
    BreakSandwiched(x, t, u, j);
  }

  lemma BreakSandwiched(x: string, t: string, u: string, j: nat)
    requires |t| <= |x| && t == x[|x| - |t|..] && |u| <= |t| && u == t[..|u|]
    requires j < |u| && u[j] == '\n' && !IsWhitespace(u[0]) && !IsWhitespace(u[|u| - 1])
    ensures Sandwiched(x)
  {
    var p := |x| - |t|;
    var q := |u|;
    assert x[p] == u[0] && x[p + j] == u[j] && x[p + q - 1] == u[q - 1];
    assert BreakBetween(x, p, p + j, p + q - 1);
  }

  /** Text that is not white space lies past the white space `TrimStart` drops. */
  lemma LeadingBound(x: string, p: nat, l: nat)
    requires p <= |x| && AllWhitespace(x[..p]) && l < |x| && !IsWhitespace(x[l])
    ensures p <= l
  {
  }

  /** Text that is not white space lies before the white space `TrimEnd` drops. */
  lemma TrailingBound(t: string, q: nat, c: nat)
    requires q <= |t| && AllWhitespace(t[q..]) && c < |t| && !IsWhitespace(t[c])
    ensures c < q
  {
  }

  /** `BrokenBody` is the regex's condition: a line break left after trimming. */
  lemma BrokenBodyIsTrimmedBreak(x: string)
    ensures BrokenBody(x) <==> '\n' in Trim(x)
  {
    BrokenBodySandwiched(x);
    TrimmedSandwiched(x);
  }

  /**
   * End offset of the placeholder match starting at offset `i`, if there is
   * one: "{{", then everything up to the first following "}}", provided the
   * body with its surrounding white space removed holds no line break (the
   * regex `.` does not match '\n'; `\s` on either side may).
   */
  function PlaceholderEnd(s: string, i: nat): (r: Option<nat>)
    requires i <= |s|
    ensures r.Some? ==> i + 4 <= r.value <= |s|
  {
    if i + 2 <= |s| && s[i] == '{' && s[i + 1] == '{' then
      match CloseFrom(s, i + 2)
      case Some(k) => if BrokenBody(s[i + 2..k]) then None else Some(k + 2)
      case None => None
    else None
  }

  /** The capture group of a placeholder: its body without the surrounding white space. */
  function Inner(whole: string): string
    requires |whole| >= 4
  {
    Trim(whole[2..|whole| - 2])
  }

  /** An expression evaluator; the model's is `Evaluation`, the lemmas below hold for any. */
  type Evaluator = string -> Result<string, ExprError>

  /** `evaluate_subexpr` against one input and one set of node results. */
  function Evaluation(input: Json, results: NodeResults): Evaluator
  {
    x => EvaluateSubexpr(x, input, results)
  }

  /** What replaces a matched placeholder: its value, or the placeholder itself when evaluation fails. */
  function Replacement(whole: string, eval: Evaluator): string
    requires |whole| >= 4
  {
    match eval(Inner(whole))
    case Ok(v) => v
    case Err(_) => whole
  }

  /** The interpolated form of `s` from offset `i`: placeholders replaced left to right, other text copied. */
  function InterpolatedFrom(s: string, i: nat, eval: Evaluator): string
    requires i <= |s|
    decreases |s| - i
  {
    if i == |s| then []
    else match PlaceholderEnd(s, i)
      case Some(e) => Replacement(s[i..e], eval) + InterpolatedFrom(s, e, eval)
      case None => [s[i]] + InterpolatedFrom(s, i + 1, eval)
  }

  /** The string case of `resolve_expressions`: every placeholder of `s` interpolated. */
  function Interpolated(s: string, input: Json, results: NodeResults): (r: string)
    ensures '{' !in s ==> r == s
  {
    var eval := Evaluation(input, results);
    if '{' !in s then
      LiteralRun(s, 0, |s|, eval);
      assert s[0..|s|] == s;
      InterpolatedFrom(s, 0, eval)
    else InterpolatedFrom(s, 0, eval)
  }

  lemma InterpolatedLiteral(s: string, i: nat, eval: Evaluator)
    requires i < |s| && PlaceholderEnd(s, i).None?
    ensures InterpolatedFrom(s, i, eval) == [s[i]] + InterpolatedFrom(s, i + 1, eval)
  {
  }

  lemma InterpolatedMatch(s: string, i: nat, eval: Evaluator)
    requires i < |s| && PlaceholderEnd(s, i).Some?
    ensures var e := PlaceholderEnd(s, i).value;
      InterpolatedFrom(s, i, eval) == Replacement(s[i..e], eval) + InterpolatedFrom(s, e, eval)
  {
  }

  lemma Regroup(a: string, b: string, c: string)
    ensures a + (b + c) == a + b + c
  {
  }

  lemma AppendEmptySlice(a: string, s: string, e: nat)
    requires e <= |s|
    ensures a + s[e..e] == a
  {
  }

  lemma EmptyPrefix(a: string)
    ensures "" + a == a
  {
  }

  lemma EmptySuffix(a: string)
    ensures a + [] == a
  {
  }

  lemma SliceSnoc(s: string, i: nat, j: nat)
    requires i <= j < |s|
    ensures s[i..j] + [s[j]] == s[i..j + 1]
  {
  }

  /** One literal character copied: the invariant of `ResolveString` carries over. */
  lemma LiteralStep(s: string, last: nat, i: nat, out: string, total: string, eval: Evaluator)
    requires last <= i < |s| && PlaceholderEnd(s, i).None?
    requires out + s[last..i] + InterpolatedFrom(s, i, eval) == total
    ensures out + s[last..i + 1] + InterpolatedFrom(s, i + 1, eval) == total
  {
    InterpolatedLiteral(s, i, eval);
    Regroup(out + s[last..i], [s[i]], InterpolatedFrom(s, i + 1, eval));
    Regroup(out, s[last..i], [s[i]]);
    SliceSnoc(s, last, i);
  }

  /** One placeholder replaced: the invariant of `ResolveString` carries over. */
  lemma PlaceholderStep(s: string, last: nat, i: nat, out: string, total: string, eval: Evaluator)
    requires last <= i < |s| && PlaceholderEnd(s, i).Some?
    requires out + s[last..i] + InterpolatedFrom(s, i, eval) == total
    ensures var e := PlaceholderEnd(s, i).value;
      out + s[last..i] + Replacement(s[i..e], eval) + s[e..e] + InterpolatedFrom(s, e, eval) == total
  {
    var e := PlaceholderEnd(s, i).value;
    var piece := Replacement(s[i..e], eval);
    InterpolatedMatch(s, i, eval);
    Regroup(out + s[last..i], piece, InterpolatedFrom(s, e, eval));
    AppendEmptySlice(out + s[last..i] + piece, s, e);
  }

  /** A placeholder at offset `i`: the text since `last` and the replacement are appended. */
  method CopyPlaceholder(s: string, last: nat, i: nat, out: string, ghost total: string, eval: Evaluator)
    returns (out': string, e: nat)
    requires last <= i < |s| && PlaceholderEnd(s, i).Some?
    requires out + s[last..i] + InterpolatedFrom(s, i, eval) == total
    ensures i < e <= |s|
    ensures out' + s[e..e] + InterpolatedFrom(s, e, eval) == total
  {
    PlaceholderStep(s, last, i, out, total, eval);
    e := PlaceholderEnd(s, i).value;
    var whole := s[i..e];
    var piece := match eval(Inner(whole))
      case Ok(v) => v
      case Err(_) => whole;
    out' := out + s[last..i] + piece;
  }

  /** One turn of the scan: a placeholder at offset `i`, or a plain character copied later with its neighbours. */
  method ScanStep(s: string, last: nat, i: nat, out: string, ghost total: string, eval: Evaluator)
    returns (out': string, last': nat, i': nat)
    requires last <= i < |s|
    requires out + s[last..i] + InterpolatedFrom(s, i, eval) == total
    ensures last' <= i' <= |s| && i < i'
    ensures out' + s[last'..i'] + InterpolatedFrom(s, i', eval) == total
  {
    if PlaceholderEnd(s, i).Some? {
      out', i' := CopyPlaceholder(s, last, i, out, total, eval);
      last' := i';
    } else {
      LiteralStep(s, last, i, out, total, eval);
      out', last', i' := out, last, i + 1;
    }
  }

  /** One pass over the matches of `s`, copying the text between them and evaluating each with `eval`. */
  method InterpolateWith(s: string, eval: Evaluator) returns (out: string)
    ensures out == InterpolatedFrom(s, 0, eval)
  {
    ghost var total := InterpolatedFrom(s, 0, eval);
    out := "";
    var last, i := 0, 0;
    AppendEmptySlice(out, s, 0);
    EmptyPrefix(total);
    while i < |s|
      invariant 0 <= last <= i <= |s|
      invariant out + s[last..i] + InterpolatedFrom(s, i, eval) == total
      decreases |s| - i
    {
      out, last, i := ScanStep(s, last, i, out, total, eval);
    }
    assert s[last..i] == s[last..];
    assert InterpolatedFrom(s, i, eval) == [];
    EmptySuffix(out + s[last..]);
    out := out + s[last..];
  }

  /** The string case of `resolve_expressions`: placeholders evaluated by `evaluate_subexpr`. */
  method ResolveString(s: string, input: Json, results: NodeResults) returns (out: string)
    ensures out == Interpolated(s, input, results)
  {
    out := InterpolateWith(s, Evaluation(input, results));
  }

  /**
   * `resolve_expressions`: strings are interpolated, arrays and objects are
   * resolved element by element, every other value is copied.
   */
  function Resolve(p: Json, input: Json, results: NodeResults): (r: Json)
    ensures p.Str? <==> r.Str?
    ensures p.Arr? <==> r.Arr?
    ensures p.Obj? <==> r.Obj?
    ensures p.Arr? ==> |r.items| == |p.items|
    ensures p.Obj? ==> r.fields.Keys == p.fields.Keys
    ensures !p.Str? && !p.Arr? && !p.Obj? ==> r == p
  {
    match p
    case Str(s) => Str(Interpolated(s, input, results))
    case Arr(items) => Arr(seq(|items|, i requires 0 <= i < |items| => Resolve(items[i], input, results)))
    case Obj(m) => Obj(map k | k in m.Keys :: Resolve(m[k], input, results))
    case _ => p
  }

  /** The recursive walk of `resolve_expressions`, rebuilding arrays and objects with loops. */
  method ResolveExpressions(p: Json, input: Json, results: NodeResults) returns (r: Json)
    ensures r == Resolve(p, input, results)
    decreases p
  {
    match p
    case Str(s) =>
      var o := ResolveString(s, input, results);
      r := Str(o);
    case Arr(items) =>
      var out: seq<Json> := [];
      var i := 0;
      while i < |items|
        invariant 0 <= i <= |items| && |out| == i
        invariant forall j :: 0 <= j < i ==> out[j] == Resolve(items[j], input, results)
      {
        var x := ResolveExpressions(items[i], input, results);
        out := out + [x];
        i := i + 1;
      }
      assert out == Resolve(p, input, results).items;
      r := Arr(out);
    case Obj(m) =>
      var acc: map<string, Json> := map[];
      var todo := m.Keys;
      while todo != {}
        invariant todo <= m.Keys
        invariant acc.Keys == m.Keys - todo
        invariant forall k :: k in acc ==> acc[k] == Resolve(m[k], input, results)
        decreases todo
      {
        var k :| k in todo;
        var x := ResolveExpressions(m[k], input, results);
        acc := acc[k := x];
        todo := todo - {k};
      }
      r := Obj(acc);
    case _ =>
      r := p;
  }

  // ---- evaluating one expression ----

  /** The leading `=` and one wrapping `{{ }}` taken off, with white space trimmed at each step. */
  function Stripped(expr: string): string
  {
    var t := Trim(expr);
    var u := if StartsWith(t, "=") then Trim(t[1..]) else t;
    StripBraces(u)
  }

  /** One wrapping `{{ }}` taken off (the two tests can only both hold on four characters or more). */
  function StripBraces(u: string): string
  {
    if |u| >= 4 && StartsWith(u, "{{") && EndsWith(u, "}}") then Trim(u[2..|u| - 2]) else u
  }

  /** `evaluate_subexpr`: the value of a `$json` or `$node` path, as text. */
  function EvaluateSubexpr(expr: string, input: Json, results: NodeResults): (r: Result<string, ExprError>)
    ensures !StartsWith(Stripped(expr), "$json") && !StartsWith(Stripped(expr), "$node") ==>
              r == Err(Unsupported(Stripped(expr)))
    ensures r.Ok? ==> StartsWith(Stripped(expr), "$json") || StartsWith(Stripped(expr), "$node")
  {
    var e := Stripped(expr);
    if StartsWith(e, "$json") then
      match ParseJsonPath(e, input)
      case Ok(v) => Ok(ValueToString(v))
      case Err(m) => Err(m)
    else if StartsWith(e, "$node") then
      match ParseNodePath(e, results)
      case Ok(v) => Ok(ValueToString(v))
      case Err(m) => Err(m)
    else Err(Unsupported(e))
  }

  /** The errors a walk along keys can end with. */
  predicate LookupError(e: ExprError)
  {
    e.NotAnArray? || e.OutOfRange? || e.KeyNotFound?
  }

  /** `parse_json_path`: the keys after `$json` applied to the input. */
  function ParseJsonPath(path: string, input: Json): (r: Result<Json, ExprError>)
    ensures !StartsWith(path, "$json") ==> r == Err(MustStartJson(path))
    ensures r.Err? ==> r.error.MustStartJson? || r.error.NoBracket? || LookupError(r.error)
  {
    if !StartsWith(path, "$json") then Err(MustStartJson(path))
    else
      var rest := path[5..];
      if !StartsWith(TrimStart(rest), "[") then Err(NoBracket(rest))
      else Lookup(input, KeysIn(rest))
  }

  /**
   * `parse_node_path`: the quoted name between `$node[` and the first `]`,
   * then `.json`, then the keys applied to that node's result. The first `]`
   * of the path is searched after the `$node[` prefix, which holds none.
   */
  function ParseNodePath(path: string, results: NodeResults): (r: Result<Json, ExprError>)
    ensures !StartsWith(path, "$node[") ==> r == Err(MustStartNode(path))
    ensures r.Ok? ==> ']' in path
  {
    if !StartsWith(path, "$node[") then Err(MustStartNode(path))
    else match IndexOfChar(path[6..], ']')
      case None => Err(NoClosingBracket)
      case Some(q) =>
        var end := 6 + q;
        assert path[end] == path[6..][q];
        var name := TrimChar(Trim(path[6..end]), '"');
        if name == [] then Err(NoNodeName)
        else if !StartsWith(path[end..], "].json[") then Err(MissingJson(path))
        else if name !in results then Err(NodeNotFound(name))
        else Lookup(results[name], KeysIn(path[end + 6..]))
  }

  // ---- the key pattern ----

  /** Number of leading white-space characters. */
  function WsRun(t: string): (n: nat)
    ensures n <= |t| && AllWhitespace(t[..n]) && (n == |t| || !IsWhitespace(t[n]))
  {
    if t != [] && IsWhitespace(t[0]) then
      var n := 1 + WsRun(t[1..]);
      assert t[..n] == [t[0]] + t[1..][..n - 1];
      n
    else 0
  }

  /** Number of leading decimal digits, in the Unicode sense of `\d`. */
  function DigitRun(t: string): (n: nat)
    ensures n <= |t| && AllDecimalDigits(t[..n]) && (n == |t| || !IsDecimalDigit(t[n]))
  {
    if t != [] && IsDecimalDigit(t[0]) then
      var n := 1 + DigitRun(t[1..]);
      assert t[..n] == [t[0]] + t[1..][..n - 1];
      n
    else 0
  }

  /** White space from offset `b`, then `]`: the offset just past the bracket. */
  function CloseAt(t: string, b: nat): (r: Option<nat>)
    requires b <= |t|
    ensures r.Some? ==> b < r.value <= |t|
  {
    var c := b + WsRun(t[b..]);
    if c < |t| && t[c] == ']' then Some(c + 1) else None
  }

  /** A quoted name opening at offset `a`: at least one character, none of them `"`. */
  function QuotedKey(t: string, a: nat): (r: Option<(string, nat)>)
    requires a < |t| && t[a] == '"'
    ensures r.Some? ==> a < r.value.1 <= |t| && ValidKey(r.value.0)
  {
    match IndexOfChar(t[a + 1..], '"')
    case None => None
    case Some(q) =>
      if q == 0 then None
      else match CloseAt(t, a + q + 2)
        case None => None
        case Some(e) => Some((t[a + 1..a + 1 + q], e))
  }

  /** A run of digits starting at offset `a`. */
  function DigitKey(t: string, a: nat): (r: Option<(string, nat)>)
    requires a < |t| && IsDecimalDigit(t[a])
    ensures r.Some? ==> a < r.value.1 <= |t| && ValidKey(r.value.0)
  {
    var d := a + DigitRun(t[a..]);
    assert t[a..][0] == t[a];
    assert t[a..d] == t[a..][..d - a];
    match CloseAt(t, d)
    case None => None
    case Some(e) => Some((t[a..d], e))
  }

  /**
   * The key match at the head of `t`, with its length: `[`, white space, then
   * a quoted non-empty name without `"` or a run of digits, white space, `]`.
   */
  function MatchKey(t: string): (r: Option<(string, nat)>)
    ensures r.Some? ==> 0 < r.value.1 <= |t| && ValidKey(r.value.0)
  {
    if t == [] || t[0] != '[' then None
    else
      var a := 1 + WsRun(t[1..]);
      if a >= |t| then None
      else if t[a] == '"' then QuotedKey(t, a)
      else if IsDecimalDigit(t[a]) then DigitKey(t, a)
      else None
  }

  /** `extract_keys`: the key of every non-overlapping key match, left to right. */
  function KeysIn(t: string): (r: seq<string>)
    decreases |t|
    ensures forall i :: 0 <= i < |r| ==> ValidKey(r[i])
  {
    if t == [] then []
    else match MatchKey(t)
      case Some((k, n)) => [k] + KeysIn(t[n..])
      case None => KeysIn(t[1..])
  }

  lemma KeysInSkip(t: string)
    requires t != [] && MatchKey(t).None?
    ensures KeysIn(t) == KeysIn(t[1..])
  {
  }

  lemma KeysInTake(t: string)
    requires MatchKey(t).Some?
    ensures KeysIn(t) == [MatchKey(t).value.0] + KeysIn(t[MatchKey(t).value.1..])
  {
  }

  /** `extract_keys` as the source writes it: a scan that pushes each captured key. */
  method ExtractKeys(s: string) returns (keys: seq<string>)
    ensures keys == KeysIn(s)
  {
    keys := [];
    var i := 0;
    assert s[i..] == s;
    while i < |s|
      invariant 0 <= i <= |s|
      invariant keys + KeysIn(s[i..]) == KeysIn(s)
    {
      var t := s[i..];
      var m := MatchKey(t);
      if m.Some? {
        KeysInTake(t);
        assert t[m.value.1..] == s[i + m.value.1..];
        keys := keys + [m.value.0];
        i := i + m.value.1;
      } else {
        KeysInSkip(t);
        assert t[1..] == s[i + 1..];
        i := i + 1;
      }
    }
    assert s[i..] == [];
  }

  // ---- walking a value by keys ----

  /**
   * `get_value_by_keys`: a key that parses as a usize indexes an array
   * (and fails on anything else, objects included); any other key reads an
   * object field.
   */
  function Lookup(v: Json, keys: seq<string>): (r: Result<Json, ExprError>)
    ensures r.Err? ==> LookupError(r.error)
    ensures r.Err? && r.error.KeyNotFound? ==> r.error.key in keys
  {
    if keys == [] then Ok(v)
    else match ParseUsize(keys[0])
      case Some(idx) =>
        if !v.Arr? then Err(NotAnArray(idx))
        else if idx >= |v.items| then Err(OutOfRange(idx))
        else Lookup(v.items[idx], keys[1..])
      case None =>
        match GetField(v, keys[0])
        case Some(x) => Lookup(x, keys[1..])
        case None => Err(KeyNotFound(keys[0]))
  }

  /** `get_value_by_keys` as the source writes it: a cursor advanced key by key. */
  method GetValueByKeys(v: Json, keys: seq<string>) returns (r: Result<Json, ExprError>)
    ensures r == Lookup(v, keys)
  {
    var cur := v;
    var i := 0;
    while i < |keys|
      invariant 0 <= i <= |keys|
      invariant Lookup(cur, keys[i..]) == Lookup(v, keys)
    {
      assert keys[i..][1..] == keys[i + 1..];
      var idx := ParseUsize(keys[i]);
      if idx.Some? {
        if !cur.Arr? {
          return Err(NotAnArray(idx.value));
        }
        if idx.value >= |cur.items| {
          return Err(OutOfRange(idx.value));
        }
        cur := cur.items[idx.value];
      } else {
        var f := GetField(cur, keys[i]);
        if f.None? {
          return Err(KeyNotFound(keys[i]));
        }
        cur := f.value;
      }
      i := i + 1;
    }
    return Ok(cur);
  }

  /** `value_to_string`: strings without quotes, null as nothing, everything else as its JSON text. */
  function ValueToString(v: Json): (r: string)
    ensures v.Str? ==> ToText(v) == Quote(r)
    ensures v.Null? ==> r == ""
    ensures !v.Str? && !v.Null? ==> r == ToText(v)
  {
    match v
    case Null => ""
    case Str(s) => s
    case _ => ToText(v)
  }

  // ---- properties ----

  /** A key `extract_keys` can read back from its quoted form: not empty, no `"` inside. */
  predicate ValidKey(k: string) { k != [] && '"' !in k }

  /** `["k"]`, the quoted key form. */
  function RenderKey(k: string): string { "[\"" + k + "\"]" }

  function RenderKeys(keys: seq<string>): string
  {
    if keys == [] then "" else RenderKey(keys[0]) + RenderKeys(keys[1..])
  }

  /** The first `c` of `k + [c] + …` is the one right after `k` when `k` holds none. */
  lemma FirstChar(t: string, k: string, c: char)
    requires c !in k && |t| > |k| && t[..|k|] == k && t[|k|] == c
    ensures IndexOfChar(t, c) == Some(|k|)
  {
    assert c in t by { assert t[|k|] == c; }
    assert forall j :: 0 <= j < |k| ==> t[j] == k[j];
  }

  lemma WsRunZero(x: string)
    requires x != [] && !IsWhitespace(x[0])
    ensures WsRun(x) == 0
  {
  }

  lemma CloseRendered(t: string, b: nat)
    requires b < |t| && t[b] == ']'
    ensures CloseAt(t, b) == Some(b + 1)
  {
    var x := t[b..];
    assert x[0] == ']';
    WsRunZero(x);
  }

  lemma MatchQuoted(t: string)
    requires |t| >= 2 && t[0] == '[' && t[1] == '"'
    ensures MatchKey(t) == QuotedKey(t, 1)
  {
    var x := t[1..];
    assert x[0] == '"';
    WsRunZero(x);
  }

  lemma QuotedRendered(t: string, k: string)
    requires ValidKey(k) && |t| >= |k| + 4 && t[1] == '"'
    requires t[2..][..|k|] == k && t[2 + |k|] == '"' && t[3 + |k|] == ']'
    ensures QuotedKey(t, 1) == Some((k, |k| + 4))
  {
    var x := t[2..];
    assert x[|k|] == '"';
    FirstChar(x, k, '"');
    CloseRendered(t, |k| + 3);
    assert t[2..2 + |k|] == k;
  }

  lemma MatchRenderedKey(k: string, rest: string)
    requires ValidKey(k)
    ensures MatchKey(RenderKey(k) + rest) == Some((k, |k| + 4))
  {
    var t := RenderKey(k) + rest;
    assert t == "[\"" + k + "\"]" + rest;
    assert t[0] == '[' && t[1] == '"';
    assert t[2..][..|k|] == k;
    assert t[2 + |k|] == '"' && t[3 + |k|] == ']';
    MatchQuoted(t);
    QuotedRendered(t, k);
  }

  /** `extract_keys` reads back every key of a quoted path, in order. */
  lemma {:induction false} KeysOfRendered(keys: seq<string>)
    requires forall i :: 0 <= i < |keys| ==> ValidKey(keys[i])
    ensures KeysIn(RenderKeys(keys)) == keys
  {
    if keys != [] {
      var k := keys[0];
      var rest := RenderKeys(keys[1..]);
      MatchRenderedKey(k, rest);
      var t := RenderKey(k) + rest;
      assert t[|k| + 4..] == rest;
      KeysOfRendered(keys[1..]);
    }
  }

  /** Walking `a + b` is walking `a`, then walking `b` from where `a` ended; a failure stops the walk. */
  lemma {:induction false} LookupAppend(v: Json, a: seq<string>, b: seq<string>)
    ensures Lookup(v, a + b) ==
      match Lookup(v, a) case Ok(x) => Lookup(x, b) case Err(e) => Err(e)
  {
    if a != [] {
      assert (a + b)[0] == a[0] && (a + b)[1..] == a[1..] + b;
      match ParseUsize(a[0])
      case Some(idx) =>
        if v.Arr? && idx < |v.items| { LookupAppend(v.items[idx], a[1..], b); }
      case None =>
        if GetField(v, a[0]).Some? { LookupAppend(GetField(v, a[0]).value, a[1..], b); }
    } else {
      assert a + b == b;
    }
  }

  /** A key that parses as an index never reads an object field, even a field named like it. */
  lemma IndexKeyOnObject(m: map<string, Json>, k: string, rest: seq<string>)
    requires ParseUsize(k).Some?
    ensures Lookup(Obj(m), [k] + rest) == Err(NotAnArray(ParseUsize(k).value))
  {
    assert ([k] + rest)[0] == k;
  }

  /** A run of decimal digits ends where the first non-digit stands. */
  lemma {:induction false} DigitRunOver(d: string, rest: string)
    requires AllDecimalDigits(d) && (rest == [] || !IsDecimalDigit(rest[0]))
    ensures DigitRun(d + rest) == |d|
  {
    if d != [] {
      assert (d + rest)[0] == d[0] && (d + rest)[1..] == d[1..] + rest;
      DigitRunOver(d[1..], rest);
    } else {
      assert d + rest == rest;
    }
  }

  /** No decimal digit is white space, and `]` is no decimal digit. */
  lemma DigitNotSpace(c: char)
    requires IsDecimalDigit(c)
    ensures !IsWhitespace(c) && !IsDecimalDigit(']')
  {
  }

  /** A bracketed run of decimal digits is a key match spanning the brackets. */
  lemma MatchDigits(d: string)
    requires d != [] && AllDecimalDigits(d)
    ensures MatchKey("[" + d + "]") == Some((d, |d| + 2))
  {
    var t := "[" + d + "]";
    var x := t[1..];
    assert x == d + "]" && x[0] == d[0];
    DigitNotSpace(d[0]);
    WsRunZero(x);
    DigitRunOver(d, "]");
    assert t[1..1 + |d|] == d;
    CloseRendered(t, 1 + |d|);
  }

  /**
   * `\d` takes any Unicode decimal digit while `parse::<usize>` takes ASCII
   * digits only: `[١]` is matched as a key that reads the object field "١".
   */
  lemma OtherDigitsKey(d: string, m: map<string, Json>)
    requires d != [] && AllDecimalDigits(d) && !IsAsciiDigit(d[0])
    ensures MatchKey("[" + d + "]") == Some((d, |d| + 2))
    ensures ParseJsonPath("$json[" + d + "]", Obj(m)) == if d in m then Ok(m[d]) else Err(KeyNotFound(d))
  {
    var t := "[" + d + "]";
    MatchDigits(d);
    assert t[|d| + 2..] == [];
    assert KeysIn(t) == [d];
    var path := "$json[" + d + "]";
    assert path[..5] == "$json" && path[5..] == t;
    TrimStartBracket(t);
    assert StartsWith(TrimStart(t), "[");
    DigitNotSpace(d[0]);
    ParseUsizeRejects(d, 0);
    assert [d][0] == d && [d][1..] == [];
    if d in m {
      assert Lookup(m[d], []) == Ok(m[d]);
    }
    assert ParseJsonPath(path, Obj(m)) == Lookup(Obj(m), [d]);
  }

  lemma TrimStartBracket(r: string)
    requires r != [] && r[0] == '['
    ensures TrimStart(r) == r
  {
  }

  /** A `$json` path written as quoted keys reads back those keys and walks the input along them. */
  lemma JsonPathRendered(keys: seq<string>, input: Json)
    requires keys != [] && forall i :: 0 <= i < |keys| ==> ValidKey(keys[i])
    ensures ParseJsonPath("$json" + RenderKeys(keys), input) == Lookup(input, keys)
  {
    var r := RenderKeys(keys);
    var path := "$json" + r;
    assert path[..5] == "$json" && path[5..] == r;
    assert r[0] == '[';
    TrimStartBracket(r);
    KeysOfRendered(keys);
  }

  /** `trim_matches('"')` takes exactly the surrounding quotes off a name that holds none. */
  lemma UnquoteName(n: string)
    requires n != [] && '"' !in n
    ensures TrimChar(Quoted(n), '"') == n
  {
    var q := Quoted(n);
    assert q[1..] == n + "\"";
    var u := n + "\"";
    assert u[..|u| - 1] == n;
    assert n[0] != '"' && n[|n| - 1] != '"';
    assert TrimChar(n, '"') == n;
    assert u[0] == n[0] && u[|u| - 1] == '"';
    assert TrimChar(u, '"') == TrimChar(n, '"');
    assert q[0] == '"';
    assert TrimChar(q, '"') == TrimChar(u, '"');
  }

  /** `"name"`, a node name in quotes. */
  function Quoted(n: string): string { "\"" + n + "\"" }

  /** `$node["name"].json["k1"]["k2"]…` */
  function NodePath(n: string, keys: seq<string>): string
  {
    "$node[" + Quoted(n) + "].json" + RenderKeys(keys)
  }

  /**
   * A `$node["name"].json` path followed by quoted keys walks that node's
   * result along the keys, and fails with "not found" for an unknown node.
   */
  lemma NodePathRendered(n: string, keys: seq<string>, results: NodeResults)
    requires n != [] && '"' !in n && ']' !in n
    requires keys != [] && forall i :: 0 <= i < |keys| ==> ValidKey(keys[i])
    ensures ParseNodePath(NodePath(n, keys), results) ==
      if n in results then Lookup(results[n], keys) else Err(NodeNotFound(n))
  {
    var r := RenderKeys(keys);
    var q := Quoted(n);
    var path := NodePath(n, keys);
    QuotedName(n);
    NodeNameAt(path, q, r);
    RenderKeysHead(keys);
    NodeKeysAt(path, 6 + |q|, r);
    NodePathSteps(path, results, |q|, n);
    KeysOfRendered(keys);
  }

  lemma QuotedName(n: string)
    requires n != [] && '"' !in n && ']' !in n
    ensures ']' !in Quoted(n) && TrimChar(Trim(Quoted(n)), '"') == n
  {
    TrimFixed(Quoted(n));
    UnquoteName(n);
  }

  lemma RenderKeysHead(keys: seq<string>)
    requires keys != []
    ensures RenderKeys(keys) != [] && RenderKeys(keys)[0] == '['
  {
  }

  /** `parse_node_path` once the bracket, the name and the `.json[` are found. */
  lemma NodePathSteps(path: string, results: NodeResults, q: nat, name: string)
    requires StartsWith(path, "$node[") && IndexOfChar(path[6..], ']') == Some(q)
    requires name != [] && TrimChar(Trim(path[6..6 + q]), '"') == name
    requires StartsWith(path[6 + q..], "].json[")
    ensures ParseNodePath(path, results) ==
      if name in results then Lookup(results[name], KeysIn(path[6 + q + 6..])) else Err(NodeNotFound(name))
  {
  }

  lemma NodeNameAt(path: string, q: string, r: string)
    requires ']' !in q && path == "$node[" + q + "].json" + r
    ensures StartsWith(path, "$node[") && IndexOfChar(path[6..], ']') == Some(|q|)
    ensures path[6..6 + |q|] == q && path[6 + |q|..] == "].json" + r
  {
    assert path[..6] == "$node[";
    var t := path[6..];
    assert t == q + ("].json" + r);
    assert t[..|q|] == q && t[|q|] == ']';
    FirstChar(t, q, ']');
  }

  lemma NodeKeysAt(path: string, end: nat, r: string)
    requires end <= |path| && path[end..] == "].json" + r && r != [] && r[0] == '['
    ensures StartsWith(path[end..], "].json[") && path[end + 6..] == r
  {
    assert path[end..][..7] == "].json[";
  }


  // ---- interpolation properties ----

  /** Nothing is substituted at offset `i`: no placeholder starts there, or its expression fails. */
  predicate FailsAt(s: string, i: nat, eval: Evaluator)
    requires i <= |s|
  {
    match PlaceholderEnd(s, i)
    case None => true
    case Some(e) => eval(Inner(s[i..e])).Err?
  }

  /** Where no placeholder evaluates, the text is copied unchanged, failed placeholders included. */
  lemma {:induction false} FailuresKeepText(s: string, i: nat, eval: Evaluator)
    requires i <= |s|
    requires forall j :: i <= j < |s| ==> FailsAt(s, j, eval)
    ensures InterpolatedFrom(s, i, eval) == s[i..]
    decreases |s| - i
  {
    if i < |s| {
      match PlaceholderEnd(s, i)
      case None =>
        FailuresKeepText(s, i + 1, eval);
        InterpolatedLiteral(s, i, eval);
        ConsSlice(s, i);
      case Some(e) =>
        FailuresKeepText(s, e, eval);
        InterpolatedMatch(s, i, eval);
        FailedReplacement(s, i, eval);
        SliceJoin(s, i, e);
    }
  }

  lemma FailedReplacement(s: string, i: nat, eval: Evaluator)
    requires i <= |s| && PlaceholderEnd(s, i).Some? && FailsAt(s, i, eval)
    ensures var e := PlaceholderEnd(s, i).value; Replacement(s[i..e], eval) == s[i..e]
  {
  }

  lemma ConsSlice(s: string, i: nat)
    requires i < |s|
    ensures [s[i]] + s[i + 1..] == s[i..]
  {
  }

  lemma SliceJoin(s: string, i: nat, e: nat)
    requires i <= e <= |s|
    ensures s[i..e] + s[e..] == s[i..]
  {
  }

  /** A string without `{{` is returned unchanged. */
  lemma NoPlaceholderKeepsText(s: string, input: Json, results: NodeResults)
    requires forall j :: 0 <= j < |s| - 1 ==> !(s[j] == '{' && s[j + 1] == '{')
    ensures Interpolated(s, input, results) == s
  {
    var eval := Evaluation(input, results);
    forall j | 0 <= j < |s|
      ensures FailsAt(s, j, eval)
    {
      assert PlaceholderEnd(s, j).None?;
    }
    FailuresKeepText(s, 0, eval);
    assert s[0..] == s;
  }

  /** A run of text without `{` is copied verbatim, ahead of what follows it. */
  lemma {:induction false} LiteralRun(s: string, i: nat, j: nat, eval: Evaluator)
    requires i <= j <= |s| && '{' !in s[i..j]
    ensures InterpolatedFrom(s, i, eval) == s[i..j] + InterpolatedFrom(s, j, eval)
    decreases j - i
  {
    if i < j {
      assert s[i + 1..j] == s[i..j][1..];
      LiteralRun(s, i + 1, j, eval);
      assert s[i] == s[i..j][0];
      LiteralRunStep(s, i, j, eval);
    } else {
      EmptyPrefix(InterpolatedFrom(s, j, eval));
    }
  }

  lemma LiteralRunStep(s: string, i: nat, j: nat, eval: Evaluator)
    requires i < j <= |s| && s[i] != '{'
    requires InterpolatedFrom(s, i + 1, eval) == s[i + 1..j] + InterpolatedFrom(s, j, eval)
    ensures InterpolatedFrom(s, i, eval) == s[i..j] + InterpolatedFrom(s, j, eval)
  {
    InterpolatedLiteral(s, i, eval);
    Regroup([s[i]], s[i + 1..j], InterpolatedFrom(s, j, eval));
    ConsSliceTo(s, i, j);
  }

  lemma ConsSliceTo(s: string, i: nat, j: nat)
    requires i < j <= |s|
    ensures [s[i]] + s[i + 1..j] == s[i..j]
  {
  }

  /** The first `}}` at or after `j` is the one at `k` when none of `s[j..k]` is `}`. */
  lemma {:induction false} CloseFromFirst(s: string, j: nat, k: nat)
    requires j <= k && k + 2 <= |s| && s[k] == '}' && s[k + 1] == '}'
    requires forall p :: j <= p < k ==> s[p] != '}'
    ensures CloseFrom(s, j) == Some(k)
    decreases k - j
  {
    if j < k {
      CloseFromFirst(s, j + 1, k);
    }
  }

  /** `{{e}}`, a placeholder around the expression text `e`. */
  function Placeholder(e: string): string { "{{" + e + "}}" }

  /** What a placeholder becomes: the value of its trimmed body, or itself when that fails. */
  function Substituted(e: string, input: Json, results: NodeResults): string
  {
    match EvaluateSubexpr(Trim(e), input, results)
    case Ok(v) => v
    case Err(_) => Placeholder(e)
  }

  lemma PlaceholderParts(e: string)
    ensures |Placeholder(e)| == |e| + 4
    ensures Placeholder(e)[0] == '{' && Placeholder(e)[1] == '{'
    ensures Placeholder(e)[|e| + 2] == '}' && Placeholder(e)[|e| + 3] == '}'
    ensures Placeholder(e)[2..|e| + 2] == e
  {
  }

  lemma PlaceholderEndAt(s: string, i: nat, k: nat)
    requires i + 2 <= |s| && s[i] == '{' && s[i + 1] == '{' && CloseFrom(s, i + 2) == Some(k)
    requires !BrokenBody(s[i + 2..k])
    ensures PlaceholderEnd(s, i) == Some(k + 2)
  {
  }

  /** The text of `s` from `i` to `m` is `{{e}}`. */
  predicate PlaceholderWritten(s: string, i: nat, e: string)
  {
    i + |e| + 4 <= |s| && s[i] == '{' && s[i + 1] == '{' && s[i + 2..i + |e| + 2] == e
    && s[i + |e| + 2] == '}' && s[i + |e| + 3] == '}'
  }

  /** A placeholder `{{e}}` written at offset `i` of `s` is matched there, whole. */
  lemma PlaceholderSpan(s: string, i: nat, e: string)
    requires PlaceholderWritten(s, i, e) && '}' !in e && !BrokenBody(e)
    ensures PlaceholderEnd(s, i) == Some(i + |e| + 4)
  {
    forall p | i + 2 <= p < i + |e| + 2
      ensures s[p] != '}'
    {
      assert s[p] == s[i + 2..i + |e| + 2][p - i - 2];
    }
    CloseFromFirst(s, i + 2, i + |e| + 2);
    PlaceholderEndAt(s, i, i + |e| + 2);
  }

  /** Interpolating `s` with a placeholder `{{e}}` at `i` and no `{` elsewhere. */
  lemma FillSpan(s: string, i: nat, e: string, eval: Evaluator)
    requires PlaceholderWritten(s, i, e) && '}' !in e && !BrokenBody(e)
    requires '{' !in s[0..i] && '{' !in s[i + |e| + 4..|s|]
    ensures InterpolatedFrom(s, 0, eval) ==
      s[0..i] + Replacement(s[i..i + |e| + 4], eval) + s[i + |e| + 4..|s|]
  {
    var m := i + |e| + 4;
    assert PlaceholderEnd(s, i) == Some(m) by {
      PlaceholderSpan(s, i, e);
    }
    SpanParts(s, i, m, eval);
  }

  lemma SpanParts(s: string, i: nat, m: nat, eval: Evaluator)
    requires i < m <= |s| && PlaceholderEnd(s, i) == Some(m)
    requires '{' !in s[0..i] && '{' !in s[m..|s|]
    ensures InterpolatedFrom(s, 0, eval) == s[0..i] + Replacement(s[i..m], eval) + s[m..|s|]
  {
    LiteralRun(s, 0, i, eval);
    InterpolatedMatch(s, i, eval);
    LiteralRun(s, m, |s|, eval);
    InterpolatedEnd(s, eval);
    EmptySuffix(s[m..|s|]);
    Regroup(s[0..i], Replacement(s[i..m], eval), s[m..|s|]);
  }

  lemma InterpolatedEnd(s: string, eval: Evaluator)
    ensures InterpolatedFrom(s, |s|, eval) == []
  {
  }

  lemma ReplacePlaceholder(e: string, input: Json, results: NodeResults)
    ensures Replacement(Placeholder(e), Evaluation(input, results)) == Substituted(e, input, results)
  {
    PlaceholderParts(e);
    assert Inner(Placeholder(e)) == Trim(e);
  }

  lemma TemplateWritten(a: string, e: string, b: string)
    ensures var s := a + Placeholder(e) + b;
      PlaceholderWritten(s, |a|, e) && s[0..|a|] == a && s[|a|..|a| + |e| + 4] == Placeholder(e)
      && s[|a| + |e| + 4..|s|] == b
  {
    var s := a + Placeholder(e) + b;
    PlaceholderParts(e);
    assert s[|a|..|a| + |e| + 4] == Placeholder(e);
    assert s[|a| + 2..|a| + |e| + 2] == Placeholder(e)[2..|e| + 2];
  }

  /** `FillTemplate` for any evaluator. */
  lemma FillTemplateWith(a: string, e: string, b: string, eval: Evaluator)
    requires '{' !in a && '{' !in b && '}' !in e && !BrokenBody(e)
    ensures InterpolatedFrom(a + Placeholder(e) + b, 0, eval) == a + Replacement(Placeholder(e), eval) + b
  {
    TemplateWritten(a, e, b);
    FillSpan(a + Placeholder(e) + b, |a|, e, eval);
  }

  /**
   * A placeholder between two runs of text without `{`: the text on either
   * side is copied verbatim, in order, around the placeholder's value, or
   * around the placeholder itself when its expression fails.
   */
  lemma FillTemplate(a: string, e: string, b: string, input: Json, results: NodeResults)
    requires '{' !in a && '{' !in b && '}' !in e && '\n' !in Trim(e)
    ensures Interpolated(a + Placeholder(e) + b, input, results) == a + Substituted(e, input, results) + b
  {
    BrokenBodyIsTrimmedBreak(e);
    FillTemplateWith(a, e, b, Evaluation(input, results));
    ReplacePlaceholder(e, input, results);
  }

  // ---- expression forms ----

  /** A path needs no stripping: it starts with `$` and does not end in white space. */
  predicate BarePath(p: string)
  {
    p != [] && p[0] == '$' && !IsWhitespace(p[|p| - 1])
  }

  /** A leading `=`, a wrapping `{{ }}` and both together all reduce to the bare path. */
  lemma StrippedForms(p: string)
    requires BarePath(p)
    ensures Stripped(p) == p
    ensures Stripped("=" + p) == p
    ensures Stripped(Placeholder(p)) == p
    ensures Stripped("=" + Placeholder(p)) == p
  {
    TrimFixed(p);
    PlaceholderParts(p);
    var w := Placeholder(p);
    TrimFixed(w);
    assert StripBraces(w) == p by {
      assert w[2..|w| - 2] == p;
    }
    var q := "=" + p;
    TrimFixed(q);
    assert q[1..] == p;
    var v := "=" + w;
    TrimFixed(v);
    assert v[1..] == w;
  }

  /** A `$json` placeholder, padded by one space each side, is replaced by the text of the looked-up value or kept. */
  lemma JsonPlaceholder(keys: seq<string>, input: Json, results: NodeResults)
    requires keys != [] && forall i :: 0 <= i < |keys| ==> ValidKey(keys[i])
    requires BarePath("$json" + RenderKeys(keys))
    ensures Substituted(" " + ("$json" + RenderKeys(keys)) + " ", input, results)
      == match Lookup(input, keys)
         case Ok(v) => ValueToString(v)
         case Err(_) => Placeholder(" " + ("$json" + RenderKeys(keys)) + " ")
  {
    var path := "$json" + RenderKeys(keys);
    TrimSpaced(path);
    StrippedForms(path);
    assert StartsWith(path, "$json");
    JsonPathRendered(keys, input);
  }

  /** The padded placeholder body of one `$json` field: what the template lemmas ask of it. */
  lemma FieldPath(key: string)
    requires ValidKey(key) && '}' !in key && '\n' !in key
    ensures RenderKeys([key]) == RenderKey(key)
    ensures BarePath("$json" + RenderKey(key))
    ensures Trim(" $json" + RenderKey(key) + " ") == "$json" + RenderKey(key)
    ensures " $json" + RenderKey(key) + " " == " " + ("$json" + RenderKey(key)) + " "
    ensures '}' !in " $json" + RenderKey(key) + " "
    ensures '\n' !in "$json" + RenderKey(key)
  {
    var path := "$json" + RenderKey(key);
    assert RenderKeys([key]) == RenderKey(key);
    assert " $json" + RenderKey(key) + " " == " " + path + " ";
    TrimSpaced(path);
  }

  /**
   * The interpolation example of the module's tests, for any field name and
   * any text value: `Hello, {{ $json["city"] }} is cool` over `{"city": "Berlin"}`.
   */
  lemma FieldExample(key: string, city: string)
    requires ValidKey(key) && '}' !in key && '\n' !in key && ParseUsize(key).None?
    ensures Interpolated("Hello, " + Placeholder(" $json" + RenderKey(key) + " ") + " is cool", Obj(map[key := Str(city)]), map[])
      == "Hello, " + city + " is cool"
  {
    FieldBetween("Hello, ", key, " is cool", city);
  }

  /** A `$json` field placeholder between two runs of text without `{`. */
  lemma FieldBetween(a: string, key: string, b: string, city: string)
    requires ValidKey(key) && '}' !in key && '\n' !in key && ParseUsize(key).None?
    requires '{' !in a && '{' !in b
    ensures Interpolated(a + Placeholder(" $json" + RenderKey(key) + " ") + b, Obj(map[key := Str(city)]), map[])
      == a + city + b
  {
    var input := Obj(map[key := Str(city)]);
    FieldPath(key);
    FillTemplate(a, " $json" + RenderKey(key) + " ", b, input, map[]);
    JsonPlaceholder([key], input, map[]);
    assert Lookup(input, [key]) == Ok(Str(city));
  }
}
