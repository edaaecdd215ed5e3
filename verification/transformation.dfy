/**
 * The data transformation a node applies around its work, in the manner of
 * Step Functions' InputPath, Parameters, ResultPath and OutputPath: filter
 * the input by a query, shallow-merge fixed parameters into the result,
 * embed the result into the original input at a dotted path, and filter
 * the final value by one more query.
 *
 * The query language itself is a parameter here (`Query`): the JMESPath
 * engine that answers it is modelled on its own in `JmesInterpreter`.
 */
module Transformation {
  import opened Wrappers
  import opened Strings
  import opened Json

  /** `query_json`: the value `query` selects from the input, or the failure to compile or run it. */
  type Query = (Json, string) -> Result<Json, string>

  /** `TransformationConfig`: each of the four steps is optional. */
  datatype Config = Config(
    inputPath: Option<string>,
    parameters: Option<Json>,
    resultPath: Option<string>,
    outputPath: Option<string>)

  // ---- merge_json_objects ----

  /** `merge_json_objects`: every overlay entry is inserted into the base, replacing what was there. */
  method MergeObjects(base: map<string, Json>, overlay: map<string, Json>) returns (r: map<string, Json>)
    ensures r.Keys == base.Keys + overlay.Keys
    ensures forall k :: k in overlay ==> r[k] == overlay[k]
    ensures forall k :: k in base && k !in overlay ==> r[k] == base[k]
  {
    r := base;
    var todo := overlay.Keys;
    while todo != {}
      invariant todo <= overlay.Keys
      invariant forall k :: k in r <==> k in base || (k in overlay && k !in todo)
      invariant forall k :: k in overlay && k !in todo ==> r[k] == overlay[k]
      invariant forall k :: k in base && (k !in overlay || k in todo) ==> r[k] == base[k]
      decreases |todo|
    {
      var k :| k in todo;
      r := r[k := overlay[k]];
      todo := todo - {k};
    }
    assert r.Keys == base.Keys + overlay.Keys;
  }

  // ---- set_nested_value ----

  /**
   * What `set_nested_value` leaves in `obj` for the path `parts`: missing
   * intermediate keys become empty objects, the last key is set to `v`, and
   * the walk stops, changing nothing further, at the first value on the way
   * that is not an object.
   */
  function SetNested(obj: Json, parts: seq<string>, v: Json): (r: Json)
    decreases |parts|
    ensures r.Obj? <==> obj.Obj?
    ensures parts == [] || !obj.Obj? ==> r == obj
    ensures obj.Obj? && parts != [] ==> r.fields.Keys == obj.fields.Keys + {parts[0]}
  {
    if parts == [] || !obj.Obj? then obj
    else if |parts| == 1 then Obj(obj.fields[parts[0] := v])
    else
      var child := if parts[0] in obj.fields then obj.fields[parts[0]] else Obj(map[]);
      Obj(obj.fields[parts[0] := SetNested(child, parts[1..], v)])
  }

  /** The value at a path of object keys, if every step finds its key. */
  function PathGet(j: Json, parts: seq<string>): Option<Json>
    decreases |parts|
  {
    if parts == [] then Some(j)
    else match GetField(j, parts[0])
      case Some(c) => PathGet(c, parts[1..])
      case None => None
  }

  /**
   * The walk reaches the last key: every value met on the way is an object,
   * or a key is missing (from there on only fresh empty objects are met).
   */
  predicate PathClear(obj: Json, parts: seq<string>)
    decreases |parts|
  {
    obj.Obj? && (|parts| <= 1 || parts[0] !in obj.fields || PathClear(obj.fields[parts[0]], parts[1..]))
  }

  /** One ancestor met on the way down: its fields (after any fresh empty object was added) and the key taken. */
  datatype Frame = Frame(fields: map<string, Json>, key: string)

  /** Puts `x` back under the ancestors `frames`, innermost last. */
  function Plug(frames: seq<Frame>, x: Json): Json
    decreases |frames|
  {
    if frames == [] then x
    else
      var f := frames[|frames| - 1];
      Plug(frames[..|frames| - 1], Obj(f.fields[f.key := x]))
  }

  /**
   * `set_nested_value`: splits the path at `.` and walks down with a cursor,
   * as the source does; the ancestors it passes are kept as frames, and the
   * value it leaves behind is rebuilt from them at the end.
   */
  method SetNestedValue(obj: Json, path: string, newValue: Json) returns (r: Json)
    ensures r == SetNested(obj, Split(path, "."), newValue)
  {
    var parts := Split(path, ".");
    if |parts| == 0 {
      return obj;
    }
    ghost var target := SetNested(obj, parts, newValue);
    var frames: seq<Frame> := [];
    var current := obj;
    var i := 0;
    while i < |parts|
      invariant 0 <= i <= |parts|
      invariant i < |parts| ==> Plug(frames, SetNested(current, parts[i..], newValue)) == target
      invariant i == |parts| ==> Plug(frames, current) == target
    {
      var key := parts[i];
      if i == |parts| - 1 {
        if current.Obj? {
          current := Obj(current.fields[key := newValue]);
        }
      } else {
        if current.Obj? {
          var m := current.fields;
          if key !in m {
            m := m[key := Obj(map[])];
          }
          Descend(frames, current, parts[i..], newValue, m);
          assert parts[i..][1..] == parts[i + 1..];
          frames := frames + [Frame(m, key)];
          current := m[key];
        } else {
          assert Plug(frames, current) == target;
          break;
        }
      }
      i := i + 1;
    }
    r := current;
    while frames != []
      invariant Plug(frames, r) == target
      decreases |frames|
    {
      var f := frames[|frames| - 1];
      r := Obj(f.fields[f.key := r]);
      frames := frames[..|frames| - 1];
    }
  }

  /** One step down: the ancestor's fields, with any fresh empty object, become a new frame. */
  lemma Descend(frames: seq<Frame>, current: Json, parts: seq<string>, v: Json, m: map<string, Json>)
    requires current.Obj? && |parts| > 1
    requires m == if parts[0] in current.fields then current.fields else current.fields[parts[0] := Obj(map[])]
    ensures parts[0] in m
    ensures Plug(frames + [Frame(m, parts[0])], SetNested(m[parts[0]], parts[1..], v))
      == Plug(frames, SetNested(current, parts, v))
  {
    var child := m[parts[0]];
    assert SetNested(current, parts, v) == Obj(m[parts[0] := SetNested(child, parts[1..], v)]);
    var fs := frames + [Frame(m, parts[0])];
    assert fs[..|fs| - 1] == frames;
  }

  /** When the walk reaches the last key, the new value can be read back at the path. */
  lemma {:induction false} SetNestedGet(obj: Json, parts: seq<string>, v: Json)
    requires parts != [] && PathClear(obj, parts)
    ensures PathGet(SetNested(obj, parts, v), parts) == Some(v)
    decreases |parts|
  {
    if |parts| > 1 {
      var child := if parts[0] in obj.fields then obj.fields[parts[0]] else Obj(map[]);
      assert PathClear(child, parts[1..]);
      SetNestedGet(child, parts[1..], v);
    }
  }

  /** When the walk meets a non-object before the last key, nothing changes at all. */
  lemma {:induction false} SetNestedBlocked(obj: Json, parts: seq<string>, v: Json)
    requires !PathClear(obj, parts)
    ensures SetNested(obj, parts, v) == obj
    decreases |parts|
  {
    if obj.Obj? && parts != [] {
      assert |parts| > 1 && parts[0] in obj.fields;
      var child := obj.fields[parts[0]];
      SetNestedBlocked(child, parts[1..], v);
      assert obj.fields[parts[0] := child] == obj.fields;
    }
  }

  /** At the top level only the first key of the path may change; an object stays an object. */
  lemma SetNestedTop(obj: Json, parts: seq<string>, v: Json)
    requires obj.Obj? && parts != []
    ensures SetNested(obj, parts, v).Obj?
    ensures SetNested(obj, parts, v).fields.Keys == obj.fields.Keys + {parts[0]}
    ensures forall k :: k in obj.fields && k != parts[0] ==> SetNested(obj, parts, v).fields[k] == obj.fields[k]
  {
  }

  // ---- transform_data ----

  /** Step 2: parameters are merged in only when both they and the filtered data are objects. */
  function Reshaped(t: Json, parameters: Option<Json>): (r: Json)
    ensures parameters.Some? && parameters.value.Obj? && t.Obj? ==>
              r.Obj? && r.fields.Keys == t.fields.Keys + parameters.value.fields.Keys &&
              (forall k :: k in parameters.value.fields ==> r.fields[k] == parameters.value.fields[k]) &&
              (forall k :: k in t.fields && k !in parameters.value.fields ==> r.fields[k] == t.fields[k])
    ensures !(parameters.Some? && parameters.value.Obj? && t.Obj?) ==> r == t
  {
    if parameters.Some? && parameters.value.Obj? && t.Obj? then Obj(t.fields + parameters.value.fields) else t
  }

  /** The four steps of `transform_data` in order; a failing query ends it with that failure. */
  function Transform(input: Json, config: Config, query: Query): (r: Result<Json, string>)
    ensures config.outputPath.None? ==>
              (r.Ok? <==> config.inputPath.None? || query(input, config.inputPath.value).Ok?)
    ensures config.inputPath.Some? && query(input, config.inputPath.value).Err? ==>
              r == query(input, config.inputPath.value)
  {
    var filtered := if config.inputPath.Some? then query(input, config.inputPath.value) else Ok(input);
    match filtered
    case Err(e) => Err(e)
    case Ok(f) =>
      var t := Reshaped(f, config.parameters);
      var placed := if config.resultPath.Some? then SetNested(input, Split(config.resultPath.value, "."), t) else t;
      if config.outputPath.None? then Ok(placed)
      else if config.resultPath.Some? && '.' !in config.outputPath.value then Ok(t)
      else query(placed, config.outputPath.value)
  }

  /** `transform_data`, step by step as the source writes it. */
  method TransformData(input: Json, config: Config, query: Query) returns (r: Result<Json, string>)
    ensures r == Transform(input, config, query)
  {
    var transformed := input;
    if config.inputPath.Some? {
      var q := query(input, config.inputPath.value);
      if q.Err? {
        return Err(q.error);
      }
      transformed := q.value;
    }
    if config.parameters.Some? && config.parameters.value.Obj? && transformed.Obj? {
      var merged := MergeObjects(transformed.fields, config.parameters.value.fields);
      assert merged == transformed.fields + config.parameters.value.fields;
      transformed := Obj(merged);
    }
    var finalResult := input;
    if config.resultPath.Some? {
      finalResult := SetNestedValue(finalResult, config.resultPath.value, transformed);
    } else {
      finalResult := transformed;
    }
    if config.outputPath.Some? {
      if config.resultPath.Some? && '.' !in config.outputPath.value {
        finalResult := transformed;
      } else {
        var q := query(finalResult, config.outputPath.value);
        if q.Err? {
          return Err(q.error);
        }
        finalResult := q.value;
      }
    }
    r := Ok(finalResult);
  }

  // ---- properties ----

  /** With no step configured, the input comes back unchanged. */
  lemma TransformIdentity(input: Json, query: Query)
    ensures Transform(input, Config(None, None, None, None), query) == Ok(input)
  {
  }

  /** A failing input query is the result. */
  lemma InputQueryFails(input: Json, config: Config, query: Query)
    requires config.inputPath.Some? && query(input, config.inputPath.value).Err?
    ensures Transform(input, config, query) == query(input, config.inputPath.value)
  {
  }

  /**
   * With a result path the walk can complete and no output path, the
   * result is the original input holding the reshaped value at that path.
   */
  lemma ResultPathEmbeds(input: Json, config: Config, query: Query)
    requires config.resultPath.Some? && config.outputPath.None?
    requires PathClear(input, Split(config.resultPath.value, "."))
    requires config.inputPath.None? || query(input, config.inputPath.value).Ok?
    ensures Transform(input, config, query).Ok?
    ensures var f := if config.inputPath.Some? then query(input, config.inputPath.value).value else input;
            PathGet(Transform(input, config, query).value, Split(config.resultPath.value, "."))
              == Some(Reshaped(f, config.parameters))
  {
    var f := if config.inputPath.Some? then query(input, config.inputPath.value).value else input;
    SplitNonEmpty(config.resultPath.value, ".");
    SetNestedGet(input, Split(config.resultPath.value, "."), Reshaped(f, config.parameters));
  }

  /** With a result path, an output path without a dot returns the reshaped value itself. */
  lemma OutputPathDirect(input: Json, config: Config, query: Query)
    requires config.resultPath.Some? && config.outputPath.Some? && '.' !in config.outputPath.value
    requires config.inputPath.None? || query(input, config.inputPath.value).Ok?
    ensures var f := if config.inputPath.Some? then query(input, config.inputPath.value).value else input;
            Transform(input, config, query) == Ok(Reshaped(f, config.parameters))
  {
  }

  /**
   * The result-path example of the module's tests: the body is filtered,
   * a note is merged in, and the merged body is stored back under
   * `body.transformed`, next to the original fields.
   */
  lemma ResultPathExample(body: map<string, Json>, note: map<string, Json>, query: Query, path: string)
    requires Split(path, ".") == ["body", "transformed"]
    requires query(Obj(map["body" := Obj(body)]), "body") == Ok(Obj(body))
    ensures Transform(Obj(map["body" := Obj(body)]), Config(Some("body"), Some(Obj(note)), Some(path), None), query)
      == Ok(Obj(map["body" := Obj(body["transformed" := Obj(body + note)])]))
  {
    var input := Obj(map["body" := Obj(body)]);
    assert ["body", "transformed"][1..] == ["transformed"];
    assert SetNested(input, ["body", "transformed"], Obj(body + note))
      == Obj(map["body" := SetNested(Obj(body), ["transformed"], Obj(body + note))]);
  }
}
