/**
 * Mapping templates: a JSON document whose strings that mention `(` or `@`
 * are JMESPath expressions, evaluated against a context document.
 *
 * The search is a parameter: in the workflow it is `compile_and_search`
 * (`JmesRuntime.CompileAndSearch`), which runs the parser object and so is
 * a method, while the template walk is a function of it.
 */
module JmesExpression {
  import opened Wrappers
  import opened Strings
  import opened Json
  import opened JmesRuntime

  /** Evaluate an expression's text over a context document. */
  type Search = (string, Json) -> Result<Json, MappingError>

  /** `Mapping failed: …`, with the search's error as its cause. */
  datatype TemplateError = MappingFailed(cause: MappingError)

  /** A template string is an expression when it mentions `(` or `@`. */
  predicate IsDynamic(s: string) { '(' in s || '@' in s }

  /**
   * `apply_template`: expressions replaced by their values, objects field
   * by field in key order, arrays element by element; the first failure
   * aborts the whole template.
   */
  function ApplyTemplate(t: Json, ctx: Json, search: Search): (r: Result<Json, TemplateError>)
    ensures t.Str? && !IsDynamic(t.s) ==> r == Ok(t)
    ensures !t.Str? && !t.Obj? && !t.Arr? ==> r == Ok(t)
    decreases t, 1, 0
  {
    match t
    case Str(s) =>
      if IsDynamic(s) then
        (match search(s, ctx)
        case Ok(v) => Ok(v)
        case Err(e) => Err(MappingFailed(e)))
      else Ok(t)
    case Obj(m) =>
      (match TemplateFields(t, SortedKeys(m.Keys), 0, ctx, search)
      case Ok(fields) => Ok(Obj(fields))
      case Err(e) => Err(e))
    case Arr(a) =>
      (match TemplateItems(t, 0, ctx, search)
      case Ok(items) => Ok(Arr(items))
      case Err(e) => Err(e))
    case _ => Ok(t)
  }

  /** The fields `ks[i..]` of object `t`, each applied. */
  function TemplateFields(t: Json, ks: seq<string>, i: nat, ctx: Json, search: Search): (r: Result<map<string, Json>, TemplateError>)
    requires t.Obj? && i <= |ks| && forall k :: k in ks ==> k in t.fields
    ensures r.Ok? ==> forall j :: i <= j < |ks| ==> ks[j] in r.value
    ensures r.Ok? ==> forall k :: k in r.value ==> k in ks
    decreases t, 0, |ks| - i
  {
    if i == |ks| then Ok(map[])
    else
      match ApplyTemplate(t.fields[ks[i]], ctx, search)
      case Err(e) => Err(e)
      case Ok(v) =>
        match TemplateFields(t, ks, i + 1, ctx, search)
        case Err(e) => Err(e)
        case Ok(rest) => Ok(rest[ks[i] := v])
  }

  /** The elements `i..` of array `t`, each applied. */
  function TemplateItems(t: Json, i: nat, ctx: Json, search: Search): (r: Result<seq<Json>, TemplateError>)
    requires t.Arr? && i <= |t.items|
    ensures r.Ok? ==> |r.value| == |t.items| - i
    decreases t, 0, |t.items| - i
  {
    if i == |t.items| then Ok([])
    else
      match ApplyTemplate(t.items[i], ctx, search)
      case Err(e) => Err(e)
      case Ok(v) =>
        match TemplateItems(t, i + 1, ctx, search)
        case Err(e) => Err(e)
        case Ok(rest) => Ok([v] + rest)
  }

  // ---- what a template does field by field ----

  /** An object template that succeeds gives an object with the same keys. */
  lemma ObjectShape(t: Json, ctx: Json, search: Search)
    requires t.Obj?
    ensures ApplyTemplate(t, ctx, search).Ok? ==>
      ApplyTemplate(t, ctx, search).value.Obj? && ApplyTemplate(t, ctx, search).value.fields.Keys == t.fields.Keys
  {
    var ks := SortedKeys(t.fields.Keys);
    var r := TemplateFields(t, ks, 0, ctx, search);
    assert ApplyTemplate(t, ctx, search) == if r.Ok? then Ok(Obj(r.value)) else Err(r.error);
    if r.Ok? {
      forall k | k in t.fields ensures k in r.value {
        var j :| 0 <= j < |ks| && ks[j] == k;
      }
    }
  }

  /** An object template succeeds exactly when every field does, and each field holds its own result. */
  lemma FieldsApplied(t: Json, ctx: Json, search: Search)
    requires t.Obj?
    ensures ApplyTemplate(t, ctx, search).Ok? ==>
      ApplyTemplate(t, ctx, search).value.Obj? && ApplyTemplate(t, ctx, search).value.fields.Keys == t.fields.Keys
    ensures ApplyTemplate(t, ctx, search).Ok? <==> forall k :: k in t.fields ==> ApplyTemplate(t.fields[k], ctx, search).Ok?
    ensures ApplyTemplate(t, ctx, search).Ok? ==>
      forall k :: k in t.fields ==> ApplyTemplate(t.fields[k], ctx, search) == Ok(ApplyTemplate(t, ctx, search).value.fields[k])
  {
    ObjectShape(t, ctx, search);
    var ks := SortedKeys(t.fields.Keys);
    SortedKeysDistinct(t.fields.Keys);
    FieldsFrom(t, ks, 0, ctx, search);
    var r := TemplateFields(t, ks, 0, ctx, search);
    assert ApplyTemplate(t, ctx, search) == if r.Ok? then Ok(Obj(r.value)) else Err(r.error);
  }

  lemma FieldsFrom(t: Json, ks: seq<string>, i: nat, ctx: Json, search: Search)
    requires t.Obj? && i <= |ks| && forall k :: k in ks ==> k in t.fields
    requires forall a, b :: 0 <= a < b < |ks| ==> ks[a] != ks[b]
    ensures TemplateFields(t, ks, i, ctx, search).Ok? <==>
      forall j :: i <= j < |ks| ==> ApplyTemplate(t.fields[ks[j]], ctx, search).Ok?
    ensures TemplateFields(t, ks, i, ctx, search).Ok? ==>
      forall j :: i <= j < |ks| ==> ApplyTemplate(t.fields[ks[j]], ctx, search) == Ok(TemplateFields(t, ks, i, ctx, search).value[ks[j]])
  {
    FieldsSucceed(t, ks, i, ctx, search);
    if TemplateFields(t, ks, i, ctx, search).Ok? {
      FieldValues(t, ks, i, ctx, search);
    }
  }

  lemma {:induction false} FieldsSucceed(t: Json, ks: seq<string>, i: nat, ctx: Json, search: Search)
    requires t.Obj? && i <= |ks| && forall k :: k in ks ==> k in t.fields
    ensures TemplateFields(t, ks, i, ctx, search).Ok? <==>
      forall j :: i <= j < |ks| ==> ApplyTemplate(t.fields[ks[j]], ctx, search).Ok?
    decreases |ks| - i
  {
    if i < |ks| {
      FieldsSucceed(t, ks, i + 1, ctx, search);
    }
  }

  lemma {:induction false} FieldValues(t: Json, ks: seq<string>, i: nat, ctx: Json, search: Search)
    requires t.Obj? && i <= |ks| && forall k :: k in ks ==> k in t.fields
    requires forall a, b :: 0 <= a < b < |ks| ==> ks[a] != ks[b]
    requires TemplateFields(t, ks, i, ctx, search).Ok?
    ensures forall j :: i <= j < |ks| ==>
      ApplyTemplate(t.fields[ks[j]], ctx, search) == Ok(TemplateFields(t, ks, i, ctx, search).value[ks[j]])
    decreases |ks| - i
  {
    if i < |ks| {
      var head := ApplyTemplate(t.fields[ks[i]], ctx, search);
      var tail := TemplateFields(t, ks, i + 1, ctx, search);
      FieldValues(t, ks, i + 1, ctx, search);
      var whole := TemplateFields(t, ks, i, ctx, search).value;
      assert whole == tail.value[ks[i] := head.value];
      forall j | i < j < |ks|
        ensures ApplyTemplate(t.fields[ks[j]], ctx, search) == Ok(whole[ks[j]])
      {
        assert ks[j] != ks[i];
      }
    }
  }

  /** An array template succeeds exactly when every element does, and keeps their order. */
  lemma ItemsApplied(t: Json, ctx: Json, search: Search)
    requires t.Arr?
    ensures ApplyTemplate(t, ctx, search).Ok? ==>
      ApplyTemplate(t, ctx, search).value.Arr? && |ApplyTemplate(t, ctx, search).value.items| == |t.items|
    ensures ApplyTemplate(t, ctx, search).Ok? <==> forall i :: 0 <= i < |t.items| ==> ApplyTemplate(t.items[i], ctx, search).Ok?
    ensures ApplyTemplate(t, ctx, search).Ok? ==>
      forall i :: 0 <= i < |t.items| ==> ApplyTemplate(t.items[i], ctx, search) == Ok(ApplyTemplate(t, ctx, search).value.items[i])
  {
    ItemsFrom(t, 0, ctx, search);
    var items := TemplateItems(t, 0, ctx, search);
    assert ApplyTemplate(t, ctx, search) == if items.Ok? then Ok(Arr(items.value)) else Err(items.error);
  }

  lemma ItemsFrom(t: Json, i: nat, ctx: Json, search: Search)
    requires t.Arr? && i <= |t.items|
    ensures TemplateItems(t, i, ctx, search).Ok? <==>
      forall j :: i <= j < |t.items| ==> ApplyTemplate(t.items[j], ctx, search).Ok?
    ensures TemplateItems(t, i, ctx, search).Ok? ==>
      forall j :: i <= j < |t.items| ==> ApplyTemplate(t.items[j], ctx, search) == Ok(TemplateItems(t, i, ctx, search).value[j - i])
  {
    ItemsSucceed(t, i, ctx, search);
    if TemplateItems(t, i, ctx, search).Ok? {
      ItemValues(t, i, ctx, search);
    }
  }

  lemma {:induction false} ItemsSucceed(t: Json, i: nat, ctx: Json, search: Search)
    requires t.Arr? && i <= |t.items|
    ensures TemplateItems(t, i, ctx, search).Ok? <==>
      forall j :: i <= j < |t.items| ==> ApplyTemplate(t.items[j], ctx, search).Ok?
    decreases |t.items| - i
  {
    if i < |t.items| {
      ItemsSucceed(t, i + 1, ctx, search);
    }
  }

  lemma {:induction false} ItemValues(t: Json, i: nat, ctx: Json, search: Search)
    requires t.Arr? && i <= |t.items|
    requires TemplateItems(t, i, ctx, search).Ok?
    ensures forall j :: i <= j < |t.items| ==> ApplyTemplate(t.items[j], ctx, search) == Ok(TemplateItems(t, i, ctx, search).value[j - i])
    decreases |t.items| - i
  {
    if i < |t.items| {
      var head := ApplyTemplate(t.items[i], ctx, search);
      var tail := TemplateItems(t, i + 1, ctx, search);
      assert head.Ok? && tail.Ok?;
      ItemValues(t, i + 1, ctx, search);
      var whole := TemplateItems(t, i, ctx, search).value;
      assert whole == [head.value] + tail.value;
      forall j | i < j < |t.items|
        ensures ApplyTemplate(t.items[j], ctx, search) == Ok(whole[j - i])
      {
        assert whole[j - i] == tail.value[j - (i + 1)];
      }
    }
  }

  /** The first element, in key order, that fails makes the whole template fail with its error. */
  lemma FirstFailureAborts(t: Json, ctx: Json, search: Search, k: string)
    requires t.Obj? && k in t.fields && ApplyTemplate(t.fields[k], ctx, search).Err?
    requires forall k' :: k' in t.fields && StrLe(k', k) && k' != k ==> ApplyTemplate(t.fields[k'], ctx, search).Ok?
    ensures ApplyTemplate(t, ctx, search) == Err(ApplyTemplate(t.fields[k], ctx, search).error)
  {
    var ks := SortedKeys(t.fields.Keys);
    SortedKeysAscending(t.fields.Keys);
    SortedKeysDistinct(t.fields.Keys);
    var n :| 0 <= n < |ks| && ks[n] == k;
    forall j | 0 <= j < n ensures ApplyTemplate(t.fields[ks[j]], ctx, search).Ok? {
      assert StrLe(ks[j], ks[n]) && ks[j] != ks[n];
    }
    FailureAt(t, ks, 0, n, ctx, search);
  }

  lemma {:induction false} FailureAt(t: Json, ks: seq<string>, i: nat, n: nat, ctx: Json, search: Search)
    requires t.Obj? && i <= n < |ks| && forall k :: k in ks ==> k in t.fields
    requires ApplyTemplate(t.fields[ks[n]], ctx, search).Err?
    requires forall j :: i <= j < n ==> ApplyTemplate(t.fields[ks[j]], ctx, search).Ok?
    ensures TemplateFields(t, ks, i, ctx, search) == Err(ApplyTemplate(t.fields[ks[n]], ctx, search).error)
    decreases n - i
  {
    if i < n {
      FailureAt(t, ks, i + 1, n, ctx, search);
    }
  }

  // ---- templates without expressions ----

  /** No string anywhere in the template is an expression. */
  predicate Static(t: Json)
  {
    match t
    case Str(s) => !IsDynamic(s)
    case Arr(a) => forall i :: 0 <= i < |a| ==> Static(a[i])
    case Obj(m) => forall k :: k in m ==> Static(m[k])
    case _ => true
  }

  /** A template without expressions is returned as it is. */
  lemma {:induction false} StaticUnchanged(t: Json, ctx: Json, search: Search)
    requires Static(t)
    ensures ApplyTemplate(t, ctx, search) == Ok(t)
  {
    match t
    case Obj(m) =>
      forall k | k in m ensures ApplyTemplate(m[k], ctx, search) == Ok(m[k]) {
        StaticUnchanged(m[k], ctx, search);
      }
      FieldsApplied(t, ctx, search);
      var r := ApplyTemplate(t, ctx, search).value;
      assert r.fields == m;
    case Arr(a) =>
      forall i | 0 <= i < |a| ensures ApplyTemplate(a[i], ctx, search) == Ok(a[i]) {
        StaticUnchanged(a[i], ctx, search);
      }
      ItemsApplied(t, ctx, search);
      var r := ApplyTemplate(t, ctx, search).value;
      assert r.items == a;
    case _ =>
  }

  /** `{"a": 12, "b": e}`: the number stays and the expression's value takes its place. */
  lemma SimpleMapping(e: string, ctx: Json, search: Search, v: Json)
    requires IsDynamic(e) && search(e, ctx) == Ok(v)
    ensures ApplyTemplate(Obj(map["a" := Num(12), "b" := Str(e)]), ctx, search) == Ok(Obj(map["a" := Num(12), "b" := v]))
  {
    ConstantAndExpression("a", 12, "b", e, ctx, search, v);
  }

  /** A number field and an expression field, under any two distinct keys. */
  lemma ConstantAndExpression(a: string, n: int, b: string, e: string, ctx: Json, search: Search, v: Json)
    requires a != b && IsDynamic(e) && search(e, ctx) == Ok(v)
    ensures ApplyTemplate(Obj(map[a := Num(n), b := Str(e)]), ctx, search) == Ok(Obj(map[a := Num(n), b := v]))
  {
    var m := map[a := Num(n), b := Str(e)];
    var out := map[a := Num(n), b := v];
    forall k | k in m ensures ApplyTemplate(m[k], ctx, search) == Ok(out[k]) {
      if k == a {
        assert m[k] == Num(n);
      } else {
        assert m[k] == Str(e);
      }
    }
    ObjectFromFields(Obj(m), ctx, search, out);
  }

  /** When every field gives a value, the object template gives the object of those values. */
  lemma ObjectFromFields(t: Json, ctx: Json, search: Search, out: map<string, Json>)
    requires t.Obj? && forall k :: k in t.fields <==> k in out
    requires forall k :: k in t.fields ==> ApplyTemplate(t.fields[k], ctx, search) == Ok(out[k])
    ensures ApplyTemplate(t, ctx, search) == Ok(Obj(out))
  {
    FieldsApplied(t, ctx, search);
    var fields := ApplyTemplate(t, ctx, search).value.fields;
    assert fields == out;
  }

  // ---- apply_mapping_template ----

  function ObjFields(j: Json): map<string, Json>
  {
    if j.Obj? then j.fields else map[]
  }

  /**
   * The context a mapping template is evaluated in: the upstream document
   * with each parameter set on it; indexing a `null` turns it into an
   * object first.
   */
  function MappingContext(mergedInput: Json, parameters: Json): (ctx: Json)
    requires parameters.Obj? && parameters.fields != map[] ==> mergedInput.Obj? || mergedInput.Null?
    ensures !parameters.Obj? || parameters.fields == map[] ==> ctx == mergedInput
    ensures parameters.Obj? && parameters.fields != map[] ==>
      ctx.Obj?
      && (forall k :: k in ctx.fields <==> k in ObjFields(mergedInput) || k in parameters.fields)
      && (forall k :: k in parameters.fields ==> ctx.fields[k] == parameters.fields[k])
      && (forall k :: k in ObjFields(mergedInput) && k !in parameters.fields ==> ctx.fields[k] == mergedInput.fields[k])
  {
    if parameters.Obj? && parameters.fields != map[] then Obj(ObjFields(mergedInput) + parameters.fields)
    else mergedInput
  }

  /**
   * `apply_mapping_template`: set every parameter on the upstream document,
   * then apply the template over it. Setting a key on anything but an
   * object or `null` panics in the source, hence the precondition.
   */
  method ApplyMappingTemplate(mergedInput: Json, parameters: Json, template: Json, search: Search)
    returns (r: Result<Json, TemplateError>)
    requires parameters.Obj? && parameters.fields != map[] ==> mergedInput.Obj? || mergedInput.Null?
    ensures r == ApplyTemplate(template, MappingContext(mergedInput, parameters), search)
  {
    var ctx := mergedInput;
    if parameters.Obj? {
      var params := parameters.fields;
      var keys := SortedKeys(params.Keys);
      var i := 0;
      while i < |keys|
        invariant 0 <= i <= |keys|
        invariant ctx == SetKeys(mergedInput, params, keys[..i])
      {
        SetKeysStep(mergedInput, params, keys, i);
        ctx := Obj(ObjFields(ctx)[keys[i] := params[keys[i]]]);
        i := i + 1;
      }
      SetKeysContext(mergedInput, parameters, keys);
    }
    r := ApplyTemplate(template, ctx, search);
  }

  /** `ctx[key] = value` for each key of `ks` in turn, each value taken from `m`. */
  function SetKeys(j: Json, m: map<string, Json>, ks: seq<string>): Json
    requires forall k :: k in ks ==> k in m
  {
    if ks == [] then j
    else
      var last := ks[|ks| - 1];
      Obj(ObjFields(SetKeys(j, m, ks[..|ks| - 1]))[last := m[last]])
  }

  lemma SetKeysStep(j: Json, m: map<string, Json>, ks: seq<string>, i: nat)
    requires i < |ks| && forall k :: k in ks ==> k in m
    ensures SetKeys(j, m, ks[..i + 1]) == Obj(ObjFields(SetKeys(j, m, ks[..i]))[ks[i] := m[ks[i]]])
  {
    assert ks[..i + 1][..i] == ks[..i];
  }

  /** Setting every parameter in turn gives the merged context, whatever the order of the keys. */
  lemma SetKeysContext(mergedInput: Json, parameters: Json, ks: seq<string>)
    requires parameters.Obj? && forall k :: k in ks <==> k in parameters.fields
    requires parameters.fields != map[] ==> mergedInput.Obj? || mergedInput.Null?
    ensures SetKeys(mergedInput, parameters.fields, ks[..|ks|]) == MappingContext(mergedInput, parameters)
  {
    assert ks[..|ks|] == ks;
    if ks == [] {
      assert parameters.fields.Keys == {};
    } else {
      SetKeysFields(mergedInput, parameters.fields, ks);
      var fields := SetKeys(mergedInput, parameters.fields, ks).fields;
      var merged := ObjFields(mergedInput) + parameters.fields;
      forall k | k in merged ensures k in fields && fields[k] == merged[k] {
      }
      assert fields == merged;
    }
  }

  /** After setting the keys `ks`, an object holding the old fields and the set ones, the set ones winning. */
  lemma {:induction false} SetKeysFields(j: Json, m: map<string, Json>, ks: seq<string>)
    requires ks != [] && forall k :: k in ks ==> k in m
    ensures SetKeys(j, m, ks).Obj?
    ensures forall k :: k in SetKeys(j, m, ks).fields <==> k in ObjFields(j) || k in ks
    ensures forall k :: k in SetKeys(j, m, ks).fields ==>
      SetKeys(j, m, ks).fields[k] == if k in ks then m[k] else ObjFields(j)[k]
    decreases |ks|
  {
    var init := ks[..|ks| - 1];
    var last := ks[|ks| - 1];
    assert ks == init + [last];
    if init != [] {
      SetKeysFields(j, m, init);
    }
  }
}
