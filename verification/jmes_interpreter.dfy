/**
 * The tree-walking JMESPath interpreter: the value an expression selects
 * from a document. The loops that collect projection, flatten, multi-select
 * and argument results are recursive functions over the sequences here.
 *
 * The function table is a parameter (`Runtime`): it answers a call by name,
 * or says the name is not registered.
 */
module JmesInterpreter {
  import opened Wrappers
  import opened Strings
  import opened JmesAst

  /** A call of a registered function on evaluated arguments at an offset; `None` when no such function. */
  type Runtime = (string, seq<Variable>, nat) -> Option<Result<Variable, JmesError>>

  type SearchResult = Result<Variable, JmesError>

  /** `interpret`: the value `node` selects from `data`. */
  function Interpret(data: Variable, node: Ast, rt: Runtime): (r: SearchResult)
    decreases node, 1, 0
    ensures r.Ok? && node.Not? ==> r.value.Bool?
    ensures r.Ok? && node.Comparison? ==> r.value.Bool? || r.value.Null?
    ensures r.Ok? && (node.Projection? || node.Flatten? || node.ObjectValues? || node.Slice? || node.MultiList?) ==>
              r.value.Array? || r.value.Null?
    ensures r.Ok? && node.MultiHash? ==> r.value.Object? || r.value.Null?
    ensures r.Ok? && node.Expref? ==> r.value.Expref?
  {
    match node
    case Field(_, name) => Ok(GetField(data, name))
    case Subexpr(_, lhs, rhs) =>
      (match Interpret(data, lhs, rt)
      case Err(e) => Err(e)
      case Ok(left) => Interpret(left, rhs, rt))
    case Identity(_) => Ok(data)
    case Literal(_, value) => Ok(value)
    case Index(_, idx) =>
      if idx >= 0 then Ok(GetIndex(data, idx)) else Ok(GetNegativeIndex(data, -idx))
    case Or(_, lhs, rhs) =>
      (match Interpret(data, lhs, rt)
      case Err(e) => Err(e)
      case Ok(left) => if IsTruthy(left) then Ok(left) else Interpret(data, rhs, rt))
    case And(_, lhs, rhs) =>
      (match Interpret(data, lhs, rt)
      case Err(e) => Err(e)
      case Ok(left) => if !IsTruthy(left) then Ok(left) else Interpret(data, rhs, rt))
    case Not(_, n) =>
      (match Interpret(data, n, rt)
      case Err(e) => Err(e)
      case Ok(v) => Ok(Variable.Bool(!IsTruthy(v))))
    case Condition(_, cond, thenNode) =>
      (match Interpret(data, cond, rt)
      case Err(e) => Err(e)
      case Ok(c) => if IsTruthy(c) then Interpret(data, thenNode, rt) else Ok(Variable.Null))
    case Comparison(_, cmp, lhs, rhs) =>
      (match Interpret(data, lhs, rt)
      case Err(e) => Err(e)
      case Ok(left) =>
        match Interpret(data, rhs, rt)
        case Err(e) => Err(e)
        case Ok(right) =>
          match Compare(left, cmp, right)
          case None => Ok(Variable.Null)
          case Some(b) => Ok(Variable.Bool(b)))
    case ObjectValues(_, n) =>
      (match Interpret(data, n, rt)
      case Err(e) => Err(e)
      case Ok(subject) => if subject.Object? then Ok(Variable.Array(Values(subject.fields))) else Ok(Variable.Null))
    case Projection(_, lhs, _) =>
      (match Interpret(data, lhs, rt)
      case Err(e) => Err(e)
      case Ok(left) =>
        if !left.Array? then Ok(Variable.Null)
        else
          match Projected(left.items, 0, node, rt)
          case Err(e) => Err(e)
          case Ok(collected) => Ok(Variable.Array(collected)))
    case Flatten(_, n) =>
      (match Interpret(data, n, rt)
      case Err(e) => Err(e)
      case Ok(v) => if v.Array? then Ok(Variable.Array(Flattened(v.items))) else Ok(Variable.Null))
    case MultiList(_, elements) =>
      (if data.Null? then Ok(Variable.Null)
      else
        match Listed(data, 0, node, rt)
        case Err(e) => Err(e)
        case Ok(collected) => Ok(Variable.Array(collected)))
    case MultiHash(_, _) =>
      (if data.Null? then Ok(Variable.Null)
      else
        match Hashed(data, 0, node, map[], rt)
        case Err(e) => Err(e)
        case Ok(collected) => Ok(Variable.Object(collected)))
    case Function(offset, name, _) =>
      (match Listed(data, 0, node, rt)
      case Err(e) => Err(e)
      case Ok(args) =>
        match rt(name, args, offset)
        case Some(r) => r
        case None => Err(JmesError(offset, Runtime(UnknownFunction(name)))))
    case Expref(_, ast) => Ok(Variable.Expref(ast))
    case Slice(offset, start, stop, step) =>
      (if step == 0 then Err(JmesError(offset, Runtime(InvalidSlice)))
      else
        match SliceOf(data, start, stop, step)
        case Some(a) => Ok(Variable.Array(a))
        case None => Ok(Variable.Null))
  }

  /** An object's values in key order (`BTreeMap::values`). */
  function Values(m: map<string, Variable>): (r: seq<Variable>)
    ensures |r| == |m|
    ensures forall k :: k in m ==> m[k] in r
  {
    var ks := SortedKeys(m.Keys);
    var r := seq(|ks|, i requires 0 <= i < |ks| => m[ks[i]]);
    assert forall k :: k in m ==> m[k] in r by {
      forall k | k in m ensures m[k] in r {
        var i :| 0 <= i < |ks| && ks[i] == k;
        assert r[i] == m[k];
      }
    }
    r
  }

  /** The projection's right-hand side over `items[i..]`, in order, dropping `null`s; the first error wins. */
  function Projected(items: seq<Variable>, i: nat, node: Ast, rt: Runtime): (r: Result<seq<Variable>, JmesError>)
    requires node.Projection? && i <= |items|
    decreases node, 0, |items| - i
    ensures r.Ok? ==> forall j :: i <= j < |items| ==> Interpret(items[j], node.rhs, rt).Ok?
  {
    if i == |items| then Ok([])
    else
      match Interpret(items[i], node.rhs, rt)
      case Err(e) => Err(e)
      case Ok(v) =>
        match Projected(items, i + 1, node, rt)
        case Err(e) => Err(e)
        case Ok(rest) => Ok(if v.Null? then rest else [v] + rest)
  }

  /** One level of nesting removed: arrays are spliced in, other values kept, order preserved. */
  function Flattened(items: seq<Variable>): (r: seq<Variable>)
    ensures forall x :: x in items && !x.Array? ==> x in r
    ensures forall x, y :: x in items && x.Array? && y in x.items ==> y in r
  {
    if items == [] then []
    else
      assert forall x :: x in items ==> x == items[0] || x in items[1..];
      (if items[0].Array? then items[0].items else [items[0]]) + Flattened(items[1..])
  }

  /** The sub-expressions of a multi-select list or of a call's arguments, each over the same data. */
  function Listed(data: Variable, i: nat, node: Ast, rt: Runtime): (r: Result<seq<Variable>, JmesError>)
    requires node.MultiList? || node.Function?
    requires i <= |SubNodes(node)|
    decreases node, 0, |SubNodes(node)| - i
    ensures r.Ok? ==> |r.value| == |SubNodes(node)| - i
  {
    if i == |SubNodes(node)| then Ok([])
    else
      match Interpret(data, SubNodes(node)[i], rt)
      case Err(e) => Err(e)
      case Ok(v) =>
        match Listed(data, i + 1, node, rt)
        case Err(e) => Err(e)
        case Ok(rest) => Ok([v] + rest)
  }

  function SubNodes(node: Ast): seq<Ast>
    requires node.MultiList? || node.Function?
  {
    if node.MultiList? then node.elements else node.args
  }

  /** The key-value pairs of a multi-select hash inserted in order; a later key replaces an earlier one. */
  function Hashed(data: Variable, i: nat, node: Ast, acc: map<string, Variable>, rt: Runtime): (r: Result<map<string, Variable>, JmesError>)
    requires node.MultiHash? && i <= |node.pairs|
    decreases node, 0, |node.pairs| - i
    ensures r.Ok? ==> acc.Keys <= r.value.Keys
    ensures r.Ok? ==> forall j :: i <= j < |node.pairs| ==> Interpret(data, node.pairs[j].value, rt).Ok?
  {
    if i == |node.pairs| then Ok(acc)
    else
      match Interpret(data, node.pairs[i].value, rt)
      case Err(e) => Err(e)
      case Ok(v) => Hashed(data, i + 1, node, acc[node.pairs[i].key := v], rt)
  }

  // ---- properties ----

  /** `a || b` is truthy exactly when `a` or `b` is. */
  lemma OrTruthy(o: nat, a: Ast, b: Ast, data: Variable, rt: Runtime)
    requires Interpret(data, a, rt).Ok? && Interpret(data, b, rt).Ok?
    ensures Interpret(data, Ast.Or(o, a, b), rt).Ok?
    ensures IsTruthy(Interpret(data, Ast.Or(o, a, b), rt).value)
      <==> IsTruthy(Interpret(data, a, rt).value) || IsTruthy(Interpret(data, b, rt).value)
  {
  }

  /** `a && b` is truthy exactly when both are. */
  lemma AndTruthy(o: nat, a: Ast, b: Ast, data: Variable, rt: Runtime)
    requires Interpret(data, a, rt).Ok? && Interpret(data, b, rt).Ok?
    ensures Interpret(data, Ast.And(o, a, b), rt).Ok?
    ensures IsTruthy(Interpret(data, Ast.And(o, a, b), rt).value)
      <==> IsTruthy(Interpret(data, a, rt).value) && IsTruthy(Interpret(data, b, rt).value)
  {
  }

  /** `!!a` is the truthiness of `a` as a boolean. */
  lemma DoubleNegation(o1: nat, o2: nat, a: Ast, data: Variable, rt: Runtime)
    requires Interpret(data, a, rt).Ok?
    ensures Interpret(data, Ast.Not(o1, Ast.Not(o2, a)), rt) == Ok(Variable.Bool(IsTruthy(Interpret(data, a, rt).value)))
  {
  }

  /** Piping is associative: `(a | b) | c` and `a | (b | c)` select the same. */
  lemma SubexprAssociative(o1: nat, o2: nat, o3: nat, o4: nat, a: Ast, b: Ast, c: Ast, data: Variable, rt: Runtime)
    ensures Interpret(data, Subexpr(o1, Subexpr(o2, a, b), c), rt) == Interpret(data, Subexpr(o3, a, Subexpr(o4, b, c)), rt)
  {
  }

  /** `@` is neutral on either side of a pipe. */
  lemma IdentityNeutral(o1: nat, o2: nat, a: Ast, data: Variable, rt: Runtime)
    ensures Interpret(data, Subexpr(o1, Identity(o2), a), rt) == Interpret(data, a, rt)
    ensures Interpret(data, Subexpr(o1, a, Identity(o2)), rt) == Interpret(data, a, rt)
  {
  }

  /** The elements a filter keeps: those whose condition is truthy, in order, except `null`s. */
  function Selected(items: seq<Variable>, p: Ast, rt: Runtime): seq<Variable>
  {
    if items == [] then []
    else
      var c := Interpret(items[0], p, rt);
      (if c.Ok? && IsTruthy(c.value) && !items[0].Null? then [items[0]] else []) + Selected(items[1..], p, rt)
  }

  /** `lhs[? p]` over an array keeps exactly the elements `p` holds for, when `p` evaluates everywhere. */
  lemma {:induction false} FilterSelects(items: seq<Variable>, i: nat, node: Ast, rt: Runtime)
    requires node.Projection? && node.rhs.Condition? && node.rhs.thenNode.Identity?
    requires i <= |items|
    requires forall j :: i <= j < |items| ==> Interpret(items[j], node.rhs.cond, rt).Ok?
    ensures Projected(items, i, node, rt) == Ok(Selected(items[i..], node.rhs.cond, rt))
    decreases |items| - i
  {
    if i < |items| {
      FilterSelects(items, i + 1, node, rt);
      var c := Interpret(items[i], node.rhs.cond, rt);
      assert Interpret(items[i], node.rhs, rt) == if IsTruthy(c.value) then Ok(items[i]) else Ok(Variable.Null);
      var t := items[i..];
      assert t[0] == items[i] && t[1..] == items[i + 1..];
      var rest := Selected(items[i + 1..], node.rhs.cond, rt);
      assert Selected(t, node.rhs.cond, rt) == (if IsTruthy(c.value) && !items[i].Null? then [items[i]] else []) + rest;
      var v := Interpret(items[i], node.rhs, rt).value;
      assert Projected(items, i + 1, node, rt) == Ok(rest);
      assert Projected(items, i, node, rt) == Ok(if v.Null? then rest else [v] + rest);
      if IsTruthy(c.value) && !items[i].Null? {
        assert v == items[i];
      } else {
        assert v.Null?;
        assert [] + rest == rest;
      }
    } else {
      assert items[i..] == [];
    }
  }

  /** A projection never yields `null` elements, and yields at most one per input element. */
  lemma {:induction false} ProjectedNoNull(items: seq<Variable>, i: nat, node: Ast, rt: Runtime)
    requires node.Projection? && i <= |items|
    requires Projected(items, i, node, rt).Ok?
    ensures forall x :: x in Projected(items, i, node, rt).value ==> !x.Null?
    ensures |Projected(items, i, node, rt).value| <= |items| - i
    decreases |items| - i
  {
    if i < |items| {
      ProjectedNoNull(items, i + 1, node, rt);
    }
  }

  /** Flattening distributes over concatenation. */
  lemma {:induction false} FlattenedAppend(a: seq<Variable>, b: seq<Variable>)
    ensures Flattened(a + b) == Flattened(a) + Flattened(b)
    decreases |a|
  {
    if a == [] {
      assert a + b == b;
    } else {
      assert (a + b)[1..] == a[1..] + b;
      FlattenedAppend(a[1..], b);
    }
  }

  /** An array without nested arrays is already flat. */
  lemma {:induction false} FlattenedFlat(a: seq<Variable>)
    requires forall x :: x in a ==> !x.Array?
    ensures Flattened(a) == a
    decreases |a|
  {
    if a != [] {
      FlattenedFlat(a[1..]);
    }
  }

  /** A multi-select list yields one value per element, each the element's own result. */
  lemma {:induction false} ListedEach(data: Variable, i: nat, node: Ast, rt: Runtime)
    requires node.MultiList? || node.Function?
    requires i <= |SubNodes(node)|
    requires Listed(data, i, node, rt).Ok?
    ensures |Listed(data, i, node, rt).value| == |SubNodes(node)| - i
    ensures forall j :: i <= j < |SubNodes(node)| ==>
              Interpret(data, SubNodes(node)[j], rt) == Ok(Listed(data, i, node, rt).value[j - i])
    decreases |SubNodes(node)| - i
  {
    if i < |SubNodes(node)| {
      ListedEach(data, i + 1, node, rt);
    }
  }

  /** The keys of a multi-select hash are its pairs' keys. */
  lemma {:induction false} HashedKeys(data: Variable, i: nat, node: Ast, acc: map<string, Variable>, rt: Runtime)
    requires node.MultiHash? && i <= |node.pairs|
    requires Hashed(data, i, node, acc, rt).Ok?
    ensures Hashed(data, i, node, acc, rt).value.Keys == acc.Keys + set j | i <= j < |node.pairs| :: node.pairs[j].key
    decreases |node.pairs| - i
  {
    if i < |node.pairs| {
      var v := Interpret(data, node.pairs[i].value, rt).value;
      HashedKeys(data, i + 1, node, acc[node.pairs[i].key := v], rt);
      assert (set j | i <= j < |node.pairs| :: node.pairs[j].key)
        == {node.pairs[i].key} + set j | i + 1 <= j < |node.pairs| :: node.pairs[j].key;
    }
  }

  /** No pair after the `j`-th has its key. */
  predicate LastWithKey(pairs: seq<KeyValuePair>, j: int)
    requires 0 <= j < |pairs|
  {
    forall l :: j < l < |pairs| ==> pairs[l].key != pairs[j].key
  }

  /** Each key holds the result of the last pair with that key; earlier ones are replaced. */
  lemma {:induction false} HashedLast(data: Variable, i: nat, node: Ast, acc: map<string, Variable>, rt: Runtime, j: nat)
    requires node.MultiHash? && i <= j < |node.pairs|
    requires Hashed(data, i, node, acc, rt).Ok?
    requires LastWithKey(node.pairs, j)
    ensures node.pairs[j].key in Hashed(data, i, node, acc, rt).value
    ensures Interpret(data, node.pairs[j].value, rt) == Ok(Hashed(data, i, node, acc, rt).value[node.pairs[j].key])
    decreases |node.pairs| - i
  {
    var v := Interpret(data, node.pairs[i].value, rt).value;
    if i < j {
      HashedLast(data, i + 1, node, acc[node.pairs[i].key := v], rt, j);
    } else {
      HashedKeeps(data, i + 1, node, acc[node.pairs[i].key := v], rt, node.pairs[j].key);
    }
  }

  /** A key that no later pair mentions keeps its accumulated value. */
  lemma {:induction false} HashedKeeps(data: Variable, i: nat, node: Ast, acc: map<string, Variable>, rt: Runtime, k: string)
    requires node.MultiHash? && i <= |node.pairs|
    requires Hashed(data, i, node, acc, rt).Ok?
    requires k in acc && forall l :: i <= l < |node.pairs| ==> node.pairs[l].key != k
    ensures k in Hashed(data, i, node, acc, rt).value && Hashed(data, i, node, acc, rt).value[k] == acc[k]
    decreases |node.pairs| - i
  {
    if i < |node.pairs| {
      var v := Interpret(data, node.pairs[i].value, rt).value;
      HashedKeeps(data, i + 1, node, acc[node.pairs[i].key := v], rt, k);
    }
  }

  /** A slice with step 0 is an error at the slice's offset. */
  lemma ZeroStepFails(o: nat, start: Option<int>, stop: Option<int>, data: Variable, rt: Runtime)
    ensures Interpret(data, Slice(o, start, stop, 0), rt) == Err(JmesError(o, Runtime(InvalidSlice)))
  {
  }

  /** Calling an unregistered function is an error at the call's offset, once its arguments evaluate. */
  lemma UnknownFunctionFails(o: nat, name: string, args: seq<Ast>, data: Variable, rt: Runtime)
    requires Listed(data, 0, Function(o, name, args), rt).Ok?
    requires rt(name, Listed(data, 0, Function(o, name, args), rt).value, o).None?
    ensures Interpret(data, Function(o, name, args), rt) == Err(JmesError(o, Runtime(UnknownFunction(name))))
  {
  }

  /** Multi-selects over `null` are `null`, whatever they hold. */
  lemma MultiSelectNull(o: nat, elements: seq<Ast>, pairs: seq<KeyValuePair>, rt: Runtime)
    ensures Interpret(Variable.Null, MultiList(o, elements), rt) == Ok(Variable.Null)
    ensures Interpret(Variable.Null, MultiHash(o, pairs), rt) == Ok(Variable.Null)
  {
  }

  /** The runtime tests' truthiness cases: `0` is truthy, so `!0` is false; `![]` is true; `1 && []` is `[]`. */
  lemma TruthinessExamples(o: nat, rt: Runtime, data: Variable)
    ensures Interpret(data, Ast.Not(o, Ast.Literal(o, Variable.Number(0))), rt) == Ok(Variable.Bool(false))
    ensures Interpret(data, Ast.Not(o, Ast.Literal(o, Variable.Array([]))), rt) == Ok(Variable.Bool(true))
    ensures Interpret(data, Ast.And(o, Ast.Literal(o, Variable.Number(1)), Ast.Literal(o, Variable.Array([]))), rt) == Ok(Variable.Array([]))
  {
  }
}
