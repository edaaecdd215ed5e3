/**
 * The `#[pb(...)]` attributes: on a struct or enum they name the
 * protobuf type, on a field they give its index, the `one_of` and `skip`
 * flags and custom (de)serialisers. Each attribute value goes into a
 * slot that reports a duplicate when it is filled twice.
 */
module PbAttrs {
  import opened Wrappers
  import opened Strings
  import opened Ctxt
  import opened Syn

  // ---- slots ----

  function DuplicateMessage(name: string): string
  {
    "duplicate attribute `" + name + "`"
  }

  /** The duplicate error for slot `name` when `filled`, else nothing. */
  function DupIf(filled: bool, name: string): (r: seq<SynError>)
    ensures |r| == if filled then 1 else 0
  {
    if filled then [SynError(DuplicateMessage(name))] else []
  }

  /** What setting a slot does: an empty slot takes the value; a full one keeps its first value and reports a duplicate. */
  function SetSlot<T>(name: string, slot: Option<T>, v: T): (r: Logged<Option<T>>)
    ensures r.value.Some?
    ensures r.pushed == DupIf(slot.Some?, name)
    ensures r.value == if slot.Some? then slot else Some(v)
  {
    if slot.Some? then Logged(slot, [SynError(DuplicateMessage(name))]) else Logged(Some(v), [])
  }

  /** A slot for one attribute value, reporting to a shared collector. */
  class AstAttr<T> {
    const result: ASTResult
    const name: string
    /** The text of the attribute that set the value (spans are not modelled). */
    var tokens: string
    var value: Option<T>

    constructor (result: ASTResult, name: string)
      ensures this.result == result && this.name == name
      ensures tokens == [] && value == None
    {
      this.result := result;
      this.name := name;
      tokens := [];
      value := None;
    }

    /** Fills an empty slot; on a full slot, reports `duplicate attribute` and keeps the first value and its tokens. */
    method Set(obj: string, v: T)
      modifies this, result
      ensures value == SetSlot(name, old(value), v).value
      ensures tokens == if old(value).Some? then old(tokens) else obj
      ensures result.errors == old(result.errors) + SetSlot(name, old(value), v).pushed
      ensures result.isChecked == old(result.isChecked)
    {
      if value.Some? {
        result.ErrorSpannedBy(DuplicateMessage(name));
      } else {
        tokens := obj;
        value := Some(v);
      }
    }

    /** `Set` when a value is given; nothing otherwise. */
    method SetOpt(obj: string, v: Option<T>)
      modifies this, result
      ensures v.None? ==> value == old(value) && tokens == old(tokens) && result.errors == old(result.errors)
      ensures v.Some? ==> value == SetSlot(name, old(value), v.value).value
      ensures v.Some? ==> result.errors == old(result.errors) + SetSlot(name, old(value), v.value).pushed
      ensures v.Some? ==> tokens == if old(value).Some? then old(tokens) else obj
      ensures result.isChecked == old(result.isChecked)
    {
      if v.Some? {
        Set(obj, v.value);
      }
    }

    /** Fills the slot only when it is empty, silently. */
    method SetIfNone(v: T)
      modifies this
      ensures value == IfNone(old(value), v)
      ensures tokens == old(tokens)
    {
      if value.None? {
        value := Some(v);
      }
    }

    /** The value, if any was set. */
    function Get(): Option<T>
      reads this
    {
      value
    }
  }

  /** An option filled with `v` when empty. */
  function IfNone<T>(o: Option<T>, v: T): (r: Option<T>)
    ensures r.Some? && (o.Some? ==> r == o) && (o.None? ==> r == Some(v))
  {
    if o.None? then Some(v) else o
  }

  /** A flag attribute: a slot holding no value, only whether it was set. */
  class BoolAttr {
    const inner: AstAttr<()>

    constructor (result: ASTResult, name: string)
      ensures fresh(inner) && inner.result == result && inner.name == name
      ensures inner.value == None && inner.tokens == []
    {
      inner := new AstAttr<()>(result, name);
    }

    /** Sets the flag; setting it a second time reports a duplicate. */
    method SetTrue(obj: string)
      modifies inner, inner.result
      ensures Get()
      ensures inner.result.errors == old(inner.result.errors) + DupIf(old(Get()), inner.name)
      ensures inner.result.isChecked == old(inner.result.isChecked)
    {
      inner.Set(obj, ());
    }

    predicate Get()
      reads this, inner
    {
      inner.value.Some?
    }
  }

  // ---- reading attribute values ----

  /** An attribute value that must be a string literal: its value, or an error naming the attribute. */
  function LitStr(attrName: string, lit: Lit): (r: Logged<Result<string, ()>>)
    ensures r.value.Ok? <==> lit.StrLit?
    ensures r.value.Ok? ==> r.value.value == lit.value && r.pushed == []
    ensures r.value.Err? ==> |r.pushed| == 1
  {
    if lit.StrLit? then Logged(Ok(lit.value), [])
    else Logged(Err(()), [SynError("expected pb " + attrName + " attribute to be a string: `" + attrName + " = \"...\"`")])
  }

  /** A string literal holding a path expression: the path's text, or an error. */
  function LitExprPath(P: Parsers, attrName: string, lit: Lit): (r: Logged<Result<string, ()>>)
    ensures r.value.Ok? <==> lit.StrLit? && P.parsesAsExprPath(lit.value)
    ensures r.value.Ok? ==> r.value.value == lit.value && r.pushed == []
    ensures r.value.Err? ==> |r.pushed| == 1
  {
    var s := LitStr(attrName, lit);
    if s.value.Err? then Logged(Err(()), s.pushed)
    else if P.parsesAsExprPath(s.value.value) then Logged(Ok(s.value.value), [])
    else Logged(Err(()), [SynError("failed to parse path: " + DebugStr(s.value.value))])
  }

  /** A string literal holding a type: the type's text, or an error. */
  function LitTy(P: Parsers, attrName: string, lit: Lit): (r: Logged<Result<string, ()>>)
    ensures r.value.Ok? <==> lit.StrLit? && P.parsesAsType(lit.value)
    ensures r.value.Ok? ==> r.value.value == lit.value && r.pushed == []
    ensures r.value.Err? ==> |r.pushed| == 1
  {
    var s := LitStr(attrName, lit);
    if s.value.Err? then Logged(Err(()), s.pushed)
    else if P.parsesAsType(s.value.value) then Logged(Ok(s.value.value), [])
    else Logged(Err(()), [SynError("failed to parse type: " + attrName + " = " + DebugStr(s.value.value))])
  }

  method GetLitStr(cx: ASTResult, attrName: string, lit: Lit) returns (r: Result<string, ()>)
    modifies cx
    ensures r == LitStr(attrName, lit).value
    ensures cx.errors == old(cx.errors) + LitStr(attrName, lit).pushed
    ensures cx.isChecked == old(cx.isChecked)
  {
    if lit.StrLit? {
      r := Ok(lit.value);
    } else {
      cx.ErrorSpannedBy("expected pb " + attrName + " attribute to be a string: `" + attrName + " = \"...\"`");
      r := Err(());
    }
  }

  method ParseLitIntoExprPath(cx: ASTResult, P: Parsers, attrName: string, lit: Lit) returns (r: Result<string, ()>)
    modifies cx
    ensures r == LitExprPath(P, attrName, lit).value
    ensures cx.errors == old(cx.errors) + LitExprPath(P, attrName, lit).pushed
    ensures cx.isChecked == old(cx.isChecked)
  {
    var s := GetLitStr(cx, attrName, lit);
    if s.Err? {
      return Err(());
    }
    if P.parsesAsExprPath(s.value) {
      r := Ok(s.value);
    } else {
      cx.ErrorSpannedBy("failed to parse path: " + DebugStr(s.value));
      r := Err(());
    }
  }

  method ParseLitIntoTy(cx: ASTResult, P: Parsers, attrName: string, lit: Lit) returns (r: Result<string, ()>)
    modifies cx
    ensures r == LitTy(P, attrName, lit).value
    ensures cx.errors == old(cx.errors) + LitTy(P, attrName, lit).pushed
    ensures cx.isChecked == old(cx.isChecked)
  {
    var s := GetLitStr(cx, attrName, lit);
    if s.Err? {
      return Err(());
    }
    if P.parsesAsType(s.value) {
      r := Ok(s.value);
    } else {
      cx.ErrorSpannedBy("failed to parse type: " + attrName + " = " + DebugStr(s.value));
      r := Err(());
    }
  }

  // ---- meta items ----

  const EXPECTED_PB_LIST := "expected #[pb(...)]"
  const PB_MUST_BE_STR := "attribute must be str, e.g. #[pb(xx = \"xxx\")]"
  const NODE_MUST_BE_STR := "attribute must be str, e.g. #[node(xx = \"...\")]"

  /**
   * The entries of a `#[pb(...)]` attribute. Other attributes have none;
   * a `pb` attribute that is not a list, or does not parse, is an error.
   */
  function PbMetaItems(attr: Attribute): (r: Logged<Result<seq<NestedMeta>, ()>>)
    ensures !IsIdent(attr.path, PB_ATTRS) ==> r == Logged(Ok([]), [])
    ensures r.value.Ok? <==> !IsIdent(attr.path, PB_ATTRS) || (attr.parsed.Ok? && attr.parsed.value.ListMeta?)
    ensures r.value.Ok? ==> r.pushed == []
    ensures r.value.Err? ==> 1 <= |r.pushed| <= 2
  {
    if !IsIdent(attr.path, PB_ATTRS) then Logged(Ok([]), [])
    else match attr.parsed
      case Ok(ListMeta(_, nested)) => Logged(Ok(nested), [])
      case Ok(_) => Logged(Err(()), [SynError(EXPECTED_PB_LIST)])
      case Err(e) => Logged(Err(()), [SynError(PB_MUST_BE_STR), SynError(e)])
  }

  /**
   * The entries of a `#[node(...)]` or `#[nodes(...)]` attribute. A
   * `node` attribute that is not a list has none, silently; one that
   * does not parse is an error.
   */
  function NodeMetaItems(attr: Attribute): (r: Logged<Result<seq<NestedMeta>, ()>>)
    ensures !IsIdent(attr.path, NODE_ATTRS) && !IsIdent(attr.path, NODES_ATTRS) ==> r == Logged(Ok([]), [])
    ensures r.value.Err? <==> (IsIdent(attr.path, NODE_ATTRS) || IsIdent(attr.path, NODES_ATTRS)) && attr.parsed.Err?
    ensures r.value.Ok? ==> r.pushed == []
    ensures r.value.Err? ==> |r.pushed| == 2
  {
    if !IsIdent(attr.path, NODE_ATTRS) && !IsIdent(attr.path, NODES_ATTRS) then Logged(Ok([]), [])
    else match attr.parsed
      case Ok(ListMeta(_, nested)) => Logged(Ok(nested), [])
      case Ok(_) => Logged(Ok([]), [])
      case Err(e) => Logged(Err(()), [SynError(NODE_MUST_BE_STR), SynError(e)])
  }

  method GetPbMetaItems(cx: ASTResult, attr: Attribute) returns (r: Result<seq<NestedMeta>, ()>)
    modifies cx
    ensures r == PbMetaItems(attr).value
    ensures cx.errors == old(cx.errors) + PbMetaItems(attr).pushed
    ensures cx.isChecked == old(cx.isChecked)
  {
    if !IsIdent(attr.path, PB_ATTRS) {
      return Ok([]);
    }
    match attr.parsed
    case Ok(m) =>
      if m.ListMeta? {
        r := Ok(m.nested);
      } else {
        cx.ErrorSpannedBy(EXPECTED_PB_LIST);
        r := Err(());
      }
    case Err(e) =>
      cx.ErrorSpannedBy(PB_MUST_BE_STR);
      cx.PushSynError(SynError(e));
      r := Err(());
  }

  method GetNodeMetaItems(cx: ASTResult, attr: Attribute) returns (r: Result<seq<NestedMeta>, ()>)
    modifies cx
    ensures r == NodeMetaItems(attr).value
    ensures cx.errors == old(cx.errors) + NodeMetaItems(attr).pushed
    ensures cx.isChecked == old(cx.isChecked)
  {
    if !IsIdent(attr.path, NODE_ATTRS) && !IsIdent(attr.path, NODES_ATTRS) {
      return Ok([]);
    }
    match attr.parsed
    case Ok(m) =>
      r := if m.ListMeta? then Ok(m.nested) else Ok([]);
    case Err(e) =>
      cx.ErrorSpannedBy(NODE_MUST_BE_STR);
      cx.PushSynError(SynError(e));
      r := Err(());
  }

  /** The result of applying `step` to each entry in turn, with the errors each step pushes. */
  function FoldItems<S>(step: (S, NestedMeta) -> Logged<S>, s: S, items: seq<NestedMeta>): Logged<S>
    decreases |items|
  {
    if items == [] then Logged(s, [])
    else
      var prev := FoldItems(step, s, items[..|items| - 1]);
      var last := step(prev.value, items[|items| - 1]);
      Logged(last.value, prev.pushed + last.pushed)
  }

  /**
   * The entries of every attribute, in order, fed to `step`: each
   * attribute's own errors come just before its entries are processed,
   * and an attribute that is an error contributes no entries.
   */
  function FoldAttrs<S>(items: Attribute -> Logged<Result<seq<NestedMeta>, ()>>, step: (S, NestedMeta) -> Logged<S>,
                        s: S, attrs: seq<Attribute>): Logged<S>
    decreases |attrs|
  {
    if attrs == [] then Logged(s, [])
    else
      var prev := FoldAttrs(items, step, s, attrs[..|attrs| - 1]);
      var last := FoldAttr(items, step, prev.value, attrs[|attrs| - 1]);
      Logged(last.value, prev.pushed + last.pushed)
  }

  /** One attribute fed to `step`: its own errors, then its entries in order. */
  function FoldAttr<S>(items: Attribute -> Logged<Result<seq<NestedMeta>, ()>>, step: (S, NestedMeta) -> Logged<S>,
                       s: S, a: Attribute): (r: Logged<S>)
    ensures |items(a).pushed| <= |r.pushed| && r.pushed[..|items(a).pushed|] == items(a).pushed
    ensures items(a).value.Err? ==> r == Logged(s, items(a).pushed)
  {
    var m := items(a);
    var r := FoldItems(step, s, if m.value.Ok? then m.value.value else []);
    Logged(r.value, m.pushed + r.pushed)
  }

  lemma AppendAssoc<T>(a: seq<T>, b: seq<T>, c: seq<T>)
    ensures (a + b) + c == a + (b + c)
  {
  }

  /** Two entries fed to `step`: the first, then the second. */
  lemma FoldItemsTwo<S>(step: (S, NestedMeta) -> Logged<S>, s: S, a: NestedMeta, b: NestedMeta)
    ensures
      var x := step(s, a);
      var y := step(x.value, b);
      FoldItems(step, s, [a, b]) == Logged(y.value, x.pushed + y.pushed)
  {
    assert [a, b][..1] == [a];
    assert [a][..0] == [];
    var x := step(s, a);
    assert FoldItems(step, s, [a]) == Logged(x.value, [] + x.pushed);
    assert [] + x.pushed == x.pushed;
  }

  /** Attributes none of which belongs to `items` contribute nothing. */
  lemma {:induction false} FoldAttrsNone<S>(items: Attribute -> Logged<Result<seq<NestedMeta>, ()>>,
                                             step: (S, NestedMeta) -> Logged<S>, s: S, attrs: seq<Attribute>)
    requires forall i :: 0 <= i < |attrs| ==> items(attrs[i]) == Logged(Ok([]), [])
    ensures FoldAttrs(items, step, s, attrs) == Logged(s, [])
    decreases |attrs|
  {
    if attrs != [] {
      FoldAttrsNone(items, step, s, attrs[..|attrs| - 1]);
    }
  }

  /** One attribute fed to the whole fold is that attribute's step. */
  lemma FoldAttrsOne<S>(items: Attribute -> Logged<Result<seq<NestedMeta>, ()>>,
                        step: (S, NestedMeta) -> Logged<S>, s: S, a: Attribute)
    ensures FoldAttrs(items, step, s, [a]) == FoldAttr(items, step, s, a)
  {
    assert [a][..0] == [];
  }

  // ---- recognizable attributes ----

  /** An attribute any of the build tool's derives reads: `pb`, `event`, `node` or `nodes`. */
  predicate IsRecognizableAttribute(a: Attribute)
  {
    IsIdent(a.path, PB_ATTRS) || IsIdent(a.path, EVENT) || IsIdent(a.path, NODE_ATTRS) || IsIdent(a.path, NODES_ATTRS)
  }

  /** A field carrying at least one recognizable attribute. */
  predicate IsRecognizableField(f: Field)
  {
    exists i :: 0 <= i < |f.attrs| && IsRecognizableAttribute(f.attrs[i])
  }

  /** A field all of whose attributes are unrecognizable has no `pb` or `node` entries at all. */
  lemma UnrecognizableFieldHasNoItems(f: Field)
    requires !IsRecognizableField(f)
    ensures forall i :: 0 <= i < |f.attrs| ==> PbMetaItems(f.attrs[i]) == Logged(Ok([]), [])
    ensures forall i :: 0 <= i < |f.attrs| ==> NodeMetaItems(f.attrs[i]) == Logged(Ok([]), [])
  {
  }

  // ---- field attributes ----

  const PB_FIELD_LITERAL := "unexpected literal in #[pb(...)]"

  function UnknownPbFieldMessage(p: Path): string
  {
    "unknown pb field attribute `" + PathCompact(p) + "`"
  }

  /** The flags a field's `pb` attributes set. */
  datatype PbFlags = PbFlags(oneOf: bool, skipSerializing: bool, skipDeserializing: bool)

  /** The values a field's `pb` attributes set: the index digits and the (de)serialiser paths. */
  datatype PbValues = PbValues(index: Option<string>, serializeWith: Option<string>, deserializeWith: Option<string>)

  datatype PbFieldSlots = PbFieldSlots(flags: PbFlags, values: PbValues)

  const NO_PB_FIELD := PbFieldSlots(PbFlags(false, false, false), PbValues(None, None, None))

  /** `#[pb(one_of)]` sets `one_of`; `#[pb(skip)]` sets both skip flags; any other bare word is ignored. */
  function PbBoolAttrs(p: Path, f: PbFlags): (r: Logged<PbFlags>)
    ensures r.value.oneOf == (f.oneOf || IsIdent(p, PB_ONE_OF))
    ensures r.value.skipSerializing == (f.skipSerializing || IsIdent(p, SKIP))
    ensures r.value.skipDeserializing == (f.skipDeserializing || IsIdent(p, SKIP))
    ensures !IsIdent(p, PB_ONE_OF) && !IsIdent(p, SKIP) ==> r.pushed == []
  {
    if IsIdent(p, PB_ONE_OF) then Logged(f.(oneOf := true), DupIf(f.oneOf, PB_ONE_OF))
    else if IsIdent(p, SKIP) then
      Logged(f.(skipSerializing := true, skipDeserializing := true),
             DupIf(f.skipSerializing, SKIP_PB_SERIALIZING) + DupIf(f.skipDeserializing, SKIP_PB_DESERIALIZING))
    else Logged(f, [])
  }

  /**
   * `index` takes an integer literal and ignores any other literal; the
   * `*_pb_with` keys take a path; any other key is an error.
   */
  function PbKeyValue(P: Parsers, p: Path, lit: Lit, v: PbValues): Logged<PbValues>
  {
    if IsIdent(p, PB_INDEX) then
      if lit.IntLit? then
        var s := SetSlot(PB_INDEX, v.index, lit.digits);
        Logged(v.(index := s.value), s.pushed)
      else Logged(v, [])
    else if IsIdent(p, SERIALIZE_PB_WITH) then
      var e := LitExprPath(P, SERIALIZE_PB_WITH, lit);
      if e.value.Ok? then
        var s := SetSlot(SERIALIZE_PB_WITH, v.serializeWith, e.value.value);
        Logged(v.(serializeWith := s.value), e.pushed + s.pushed)
      else Logged(v, e.pushed)
    else if IsIdent(p, DESERIALIZE_PB_WITH) then
      var e := LitExprPath(P, DESERIALIZE_PB_WITH, lit);
      if e.value.Ok? then
        var s := SetSlot(DESERIALIZE_PB_WITH, v.deserializeWith, e.value.value);
        Logged(v.(deserializeWith := s.value), e.pushed + s.pushed)
      else Logged(v, e.pushed)
    else Logged(v, [SynError(UnknownPbFieldMessage(p))])
  }

  /** One entry of a field's `#[pb(...)]`. */
  function PbFieldStep(P: Parsers, s: PbFieldSlots, item: NestedMeta): Logged<PbFieldSlots>
  {
    match item
    case MetaItem(PathMeta(p)) =>
      var r := PbBoolAttrs(p, s.flags);
      Logged(s.(flags := r.value), r.pushed)
    case MetaItem(NameValueMeta(p, lit)) =>
      var r := PbKeyValue(P, p, lit, s.values);
      Logged(s.(values := r.value), r.pushed)
    case MetaItem(ListMeta(p, _)) => Logged(s, [SynError(UnknownPbFieldMessage(p))])
    case LitItem(_) => Logged(s, [SynError(PB_FIELD_LITERAL)])
  }

  /** What a field's `pb` attributes say about it. */
  datatype PbStructAttrs = PbStructAttrs(name: string, index: Option<string>, isOneOf: bool,
                                         skipSerializing: bool, skipDeserializing: bool,
                                         serializeWith: Option<string>, deserializeWith: Option<string>)

  /** A field's name: its identifier, or its position for a tuple field. */
  function FieldName(field: Field, index: nat): string
  {
    if field.ident.Some? then field.ident.value else NatToDecimal(index)
  }

  /** The field's `pb` entries folded from the empty slots; other attributes contribute nothing. */
  function PbFieldFold(P: Parsers, attrs: seq<Attribute>): (r: Logged<PbFieldSlots>)
    ensures (forall i :: 0 <= i < |attrs| ==> !IsIdent(attrs[i].path, PB_ATTRS)) ==> r == Logged(NO_PB_FIELD, [])
  {
    if forall i :: 0 <= i < |attrs| ==> !IsIdent(attrs[i].path, PB_ATTRS) then
      FoldAttrsNone(PbMetaItems, (s, it) => PbFieldStep(P, s, it), NO_PB_FIELD, attrs);
      FoldAttrs(PbMetaItems, (s, it) => PbFieldStep(P, s, it), NO_PB_FIELD, attrs)
    else FoldAttrs(PbMetaItems, (s, it) => PbFieldStep(P, s, it), NO_PB_FIELD, attrs)
  }

  /** `PBStructAttrs::from_ast`, as a value. */
  function PbStructSpec(P: Parsers, index: nat, field: Field): (r: Logged<PbStructAttrs>)
    ensures field.ident.Some? ==> r.value.name == field.ident.value
    ensures field.ident.None? ==> r.value.name == NatToDecimal(index)
    ensures r.pushed == PbFieldFold(P, field.attrs).pushed
    ensures (forall i :: 0 <= i < |field.attrs| ==> !IsIdent(field.attrs[i].path, PB_ATTRS))
            ==> r.value == PbStructAttrs(r.value.name, None, false, false, false, None, None) && r.pushed == []
  {
    var f := PbFieldFold(P, field.attrs);
    Logged(PbStructAttrs(FieldName(field, index), f.value.values.index, f.value.flags.oneOf,
                         f.value.flags.skipSerializing, f.value.flags.skipDeserializing,
                         f.value.values.serializeWith, f.value.values.deserializeWith),
           f.pushed)
  }

  ghost function Flags(oneOf: BoolAttr, skipSer: BoolAttr, skipDe: BoolAttr): PbFlags
    reads oneOf, oneOf.inner, skipSer, skipSer.inner, skipDe, skipDe.inner
  {
    PbFlags(oneOf.Get(), skipSer.Get(), skipDe.Get())
  }

  ghost function Values(index: AstAttr<string>, ser: AstAttr<string>, de: AstAttr<string>): PbValues
    reads index, ser, de
  {
    PbValues(index.value, ser.value, de.value)
  }

  /** Three flags reporting to `cx`, none sharing its slot with another. */
  ghost predicate FlagsFor(cx: ASTResult, oneOf: BoolAttr, skipSer: BoolAttr, skipDe: BoolAttr)
  {
    oneOf.inner.result == cx && skipSer.inner.result == cx && skipDe.inner.result == cx
    && oneOf.inner.name == PB_ONE_OF && skipSer.inner.name == SKIP_PB_SERIALIZING && skipDe.inner.name == SKIP_PB_DESERIALIZING
    && oneOf.inner != skipSer.inner && oneOf.inner != skipDe.inner && skipSer.inner != skipDe.inner
  }

  /** Three value slots reporting to `cx`, all distinct. */
  ghost predicate ValuesFor(cx: ASTResult, index: AstAttr<string>, ser: AstAttr<string>, de: AstAttr<string>)
  {
    index.result == cx && ser.result == cx && de.result == cx
    && index.name == PB_INDEX && ser.name == SERIALIZE_PB_WITH && de.name == DESERIALIZE_PB_WITH
    && index != ser && index != de && ser != de
  }

  /** `parse_pb_bool_attrs`. */
  method ParsePbBoolAttrs(cx: ASTResult, p: Path, oneOf: BoolAttr, skipSer: BoolAttr, skipDe: BoolAttr)
    requires FlagsFor(cx, oneOf, skipSer, skipDe)
    modifies oneOf.inner, skipSer.inner, skipDe.inner, cx
    ensures Flags(oneOf, skipSer, skipDe) == PbBoolAttrs(p, old(Flags(oneOf, skipSer, skipDe))).value
    ensures cx.errors == old(cx.errors) + PbBoolAttrs(p, old(Flags(oneOf, skipSer, skipDe))).pushed
    ensures cx.isChecked == old(cx.isChecked)
  {
    if IsIdent(p, PB_ONE_OF) {
      oneOf.SetTrue(PathTokens(p));
    } else if IsIdent(p, SKIP) {
      skipSer.SetTrue(PathTokens(p));
      skipDe.SetTrue(PathTokens(p));
    }
  }

  /** `parse_pb_keyvalue`. */
  method ParsePbKeyValue(cx: ASTResult, P: Parsers, p: Path, lit: Lit, index: AstAttr<string>, ser: AstAttr<string>, de: AstAttr<string>)
    requires ValuesFor(cx, index, ser, de)
    modifies index, ser, de, cx
    ensures Values(index, ser, de) == PbKeyValue(P, p, lit, old(Values(index, ser, de))).value
    ensures cx.errors == old(cx.errors) + PbKeyValue(P, p, lit, old(Values(index, ser, de))).pushed
    ensures cx.isChecked == old(cx.isChecked)
  {
    if IsIdent(p, PB_INDEX) {
      if lit.IntLit? {
        index.Set(PathTokens(p), lit.digits);
      }
    } else if IsIdent(p, SERIALIZE_PB_WITH) {
      var e := ParseLitIntoExprPath(cx, P, SERIALIZE_PB_WITH, lit);
      if e.Ok? {
        ser.Set(PathTokens(p), e.value);
      }
    } else if IsIdent(p, DESERIALIZE_PB_WITH) {
      var e := ParseLitIntoExprPath(cx, P, DESERIALIZE_PB_WITH, lit);
      if e.Ok? {
        de.Set(PathTokens(p), e.value);
      }
    } else {
      cx.ErrorSpannedBy(UnknownPbFieldMessage(p));
    }
  }

  /** One entry of a field's `#[pb(...)]`, applied to the slots. */
  method PbFieldItem(cx: ASTResult, P: Parsers, item: NestedMeta,
                     index: AstAttr<string>, oneOf: BoolAttr, skipSer: BoolAttr, skipDe: BoolAttr,
                     ser: AstAttr<string>, de: AstAttr<string>)
    requires FlagsFor(cx, oneOf, skipSer, skipDe) && ValuesFor(cx, index, ser, de)
    modifies index, ser, de, oneOf.inner, skipSer.inner, skipDe.inner, cx
    ensures PbFieldSlots(Flags(oneOf, skipSer, skipDe), Values(index, ser, de))
         == PbFieldStep(P, old(PbFieldSlots(Flags(oneOf, skipSer, skipDe), Values(index, ser, de))), item).value
    ensures cx.errors == old(cx.errors)
         + PbFieldStep(P, old(PbFieldSlots(Flags(oneOf, skipSer, skipDe), Values(index, ser, de))), item).pushed
    ensures cx.isChecked == old(cx.isChecked)
  {
    match item
    case MetaItem(m) =>
      match m {
        case PathMeta(p) => ParsePbBoolAttrs(cx, p, oneOf, skipSer, skipDe);
        case NameValueMeta(p, lit) => ParsePbKeyValue(cx, P, p, lit, index, ser, de);
        case ListMeta(p, _) => cx.ErrorSpannedBy(UnknownPbFieldMessage(p));
      }
    case LitItem(_) =>
      cx.ErrorSpannedBy(PB_FIELD_LITERAL);
  }

  /** The entries of one `#[pb(...)]` attribute, applied to a field's slots in order. */
  method PbFieldItems(cx: ASTResult, P: Parsers, items: seq<NestedMeta>,
                      index: AstAttr<string>, oneOf: BoolAttr, skipSer: BoolAttr, skipDe: BoolAttr,
                      ser: AstAttr<string>, de: AstAttr<string>)
    requires FlagsFor(cx, oneOf, skipSer, skipDe) && ValuesFor(cx, index, ser, de)
    modifies index, ser, de, oneOf.inner, skipSer.inner, skipDe.inner, cx
    ensures PbFieldSlots(Flags(oneOf, skipSer, skipDe), Values(index, ser, de))
         == FoldItems((s, it) => PbFieldStep(P, s, it), old(PbFieldSlots(Flags(oneOf, skipSer, skipDe), Values(index, ser, de))), items).value
    ensures cx.errors == old(cx.errors)
         + FoldItems((s, it) => PbFieldStep(P, s, it), old(PbFieldSlots(Flags(oneOf, skipSer, skipDe), Values(index, ser, de))), items).pushed
    ensures cx.isChecked == old(cx.isChecked)
  {
    ghost var step := (s, it) => PbFieldStep(P, s, it);
    ghost var s0 := PbFieldSlots(Flags(oneOf, skipSer, skipDe), Values(index, ser, de));
    var j := 0;
    while j < |items|
      invariant 0 <= j <= |items|
      invariant PbFieldSlots(Flags(oneOf, skipSer, skipDe), Values(index, ser, de)) == FoldItems(step, s0, items[..j]).value
      invariant cx.errors == old(cx.errors) + FoldItems(step, s0, items[..j]).pushed
      invariant cx.isChecked == old(cx.isChecked)
    {
      ghost var prev := FoldItems(step, s0, items[..j]);
      PbFieldItem(cx, P, items[j], index, oneOf, skipSer, skipDe, ser, de);
      ghost var last := PbFieldStep(P, prev.value, items[j]);
      assert items[..j + 1][..j] == items[..j];
      assert FoldItems(step, s0, items[..j + 1]) == Logged(last.value, prev.pushed + last.pushed);
      AppendAssoc(old(cx.errors), prev.pushed, last.pushed);
      j := j + 1;
    }
    assert items[..j] == items;
  }

  /** One attribute of a field: its `pb` entries, if any, applied to the slots. */
  method PbFieldAttribute(cx: ASTResult, P: Parsers, a: Attribute,
                          index: AstAttr<string>, oneOf: BoolAttr, skipSer: BoolAttr, skipDe: BoolAttr,
                          ser: AstAttr<string>, de: AstAttr<string>)
    requires FlagsFor(cx, oneOf, skipSer, skipDe) && ValuesFor(cx, index, ser, de)
    modifies index, ser, de, oneOf.inner, skipSer.inner, skipDe.inner, cx
    ensures PbFieldSlots(Flags(oneOf, skipSer, skipDe), Values(index, ser, de))
         == FoldAttr(PbMetaItems, (s, it) => PbFieldStep(P, s, it), old(PbFieldSlots(Flags(oneOf, skipSer, skipDe), Values(index, ser, de))), a).value
    ensures cx.errors == old(cx.errors)
         + FoldAttr(PbMetaItems, (s, it) => PbFieldStep(P, s, it), old(PbFieldSlots(Flags(oneOf, skipSer, skipDe), Values(index, ser, de))), a).pushed
    ensures cx.isChecked == old(cx.isChecked)
  {
    var m := GetPbMetaItems(cx, a);
    PbFieldItems(cx, P, if m.Ok? then m.value else [], index, oneOf, skipSer, skipDe, ser, de);
  }

  /** One more attribute of the field folded onto the slots of those before it. */
  lemma PbFieldFoldStep(P: Parsers, attrs: seq<Attribute>, i: nat)
    requires i < |attrs|
    ensures
      var prev := PbFieldFold(P, attrs[..i]);
      var last := FoldAttr(PbMetaItems, (s, it) => PbFieldStep(P, s, it), prev.value, attrs[i]);
      PbFieldFold(P, attrs[..i + 1]) == Logged(last.value, prev.pushed + last.pushed)
  {
    assert attrs[..i + 1][..i] == attrs[..i];
  }

  /** A field's attributes, in order, applied to its slots. */
  method PbFieldAttributes(cx: ASTResult, P: Parsers, attrs: seq<Attribute>,
                           index: AstAttr<string>, oneOf: BoolAttr, skipSer: BoolAttr, skipDe: BoolAttr,
                           ser: AstAttr<string>, de: AstAttr<string>)
    requires FlagsFor(cx, oneOf, skipSer, skipDe) && ValuesFor(cx, index, ser, de)
    requires PbFieldSlots(Flags(oneOf, skipSer, skipDe), Values(index, ser, de)) == NO_PB_FIELD
    modifies index, ser, de, oneOf.inner, skipSer.inner, skipDe.inner, cx
    ensures PbFieldSlots(Flags(oneOf, skipSer, skipDe), Values(index, ser, de)) == PbFieldFold(P, attrs).value
    ensures cx.errors == old(cx.errors) + PbFieldFold(P, attrs).pushed
    ensures cx.isChecked == old(cx.isChecked)
  {
    var i := 0;
    while i < |attrs|
      invariant 0 <= i <= |attrs|
      invariant PbFieldSlots(Flags(oneOf, skipSer, skipDe), Values(index, ser, de)) == PbFieldFold(P, attrs[..i]).value
      invariant cx.errors == old(cx.errors) + PbFieldFold(P, attrs[..i]).pushed
      invariant cx.isChecked == old(cx.isChecked)
    {
      ghost var prev := PbFieldFold(P, attrs[..i]);
      PbFieldAttribute(cx, P, attrs[i], index, oneOf, skipSer, skipDe, ser, de);
      ghost var last := FoldAttr(PbMetaItems, (s, it) => PbFieldStep(P, s, it), prev.value, attrs[i]);
      PbFieldFoldStep(P, attrs, i);
      AppendAssoc(old(cx.errors), prev.pushed, last.pushed);
      i := i + 1;
    }
    assert attrs[..i] == attrs;
  }

  /** `PBStructAttrs::from_ast`: reads every `#[pb(...)]` entry of a field, in order, pushing errors as they occur. */
  method PbStructFromAst(cx: ASTResult, P: Parsers, position: nat, field: Field) returns (r: PbStructAttrs)
    modifies cx
    ensures r == PbStructSpec(P, position, field).value
    ensures cx.errors == old(cx.errors) + PbStructSpec(P, position, field).pushed
    ensures cx.isChecked == old(cx.isChecked)
  {
    var index := new AstAttr<string>(cx, PB_INDEX);
    var oneOf := new BoolAttr(cx, PB_ONE_OF);
    var ser := new AstAttr<string>(cx, SERIALIZE_PB_WITH);
    var skipSer := new BoolAttr(cx, SKIP_PB_SERIALIZING);
    var de := new AstAttr<string>(cx, DESERIALIZE_PB_WITH);
    var skipDe := new BoolAttr(cx, SKIP_PB_DESERIALIZING);
    var name := FieldName(field, position);
    PbFieldAttributes(cx, P, field.attrs, index, oneOf, skipSer, skipDe, ser, de);
    r := PbStructAttrs(name, index.Get(), oneOf.Get(), skipSer.Get(), skipDe.Get(), ser.Get(), de.Get());
  }

  // ---- container attributes ----

  const CONTAINER_LITERAL := "unexpected literal in container attribute"

  function UnknownContainerMessage(p: Path): string
  {
    "unknown container attribute `" + PathCompact(p) + "`"
  }

  /** The protobuf type names given for a struct and for an enum. */
  datatype PbContainerSlots = PbContainerSlots(structType: Option<string>, enumType: Option<string>)

  /** One entry of a container's `#[pb(...)]`: `struct = "T"` or `enum = "T"`; anything else is an error. */
  function PbContainerStep(P: Parsers, s: PbContainerSlots, item: NestedMeta): Logged<PbContainerSlots>
  {
    match item
    case MetaItem(m) =>
      if m.NameValueMeta? && IsIdent(m.path, PB_STRUCT) then
        var t := LitTy(P, PB_STRUCT, m.lit);
        if t.value.Ok? then
          var r := SetSlot(PB_STRUCT, s.structType, t.value.value);
          Logged(s.(structType := r.value), t.pushed + r.pushed)
        else Logged(s, t.pushed)
      else if m.NameValueMeta? && IsIdent(m.path, PB_ENUM) then
        var t := LitTy(P, PB_ENUM, m.lit);
        if t.value.Ok? then
          var r := SetSlot(PB_ENUM, s.enumType, t.value.value);
          Logged(s.(enumType := r.value), t.pushed + r.pushed)
        else Logged(s, t.pushed)
      else Logged(s, [SynError(UnknownContainerMessage(m.path))])
    case LitItem(_) => Logged(s, [SynError(CONTAINER_LITERAL)])
  }

  /** What a struct's or enum's `pb` attributes say about it. */
  datatype PbContainer = PbContainer(name: string, structType: Option<string>, enumType: Option<string>)

  /** The protobuf type a Rust identifier stands for by default: the identifier itself. */
  function DefaultPbType(ident: string): string
  {
    ident
  }

  function PbContainerFold(P: Parsers, attrs: seq<Attribute>): Logged<PbContainerSlots>
  {
    FoldAttrs(PbMetaItems, (s, it) => PbContainerStep(P, s, it), PbContainerSlots(None, None), attrs)
  }

  /** `PBAttrsContainer::from_ast`, as a value. */
  function PbContainerSpec(P: Parsers, item: DeriveInput): (r: Logged<PbContainer>)
    ensures r.value.name == item.ident
    ensures item.data.StructData? ==> r.value.structType.Some?
    ensures item.data.EnumData? ==> r.value.enumType.Some?
    ensures item.data.UnionData? ==> r.value.structType == PbContainerFold(P, item.attrs).value.structType
                                     && r.value.enumType == PbContainerFold(P, item.attrs).value.enumType
    ensures r.pushed == PbContainerFold(P, item.attrs).pushed
  {
    var f := PbContainerFold(P, item.attrs);
    var s := f.value;
    var structType := if item.data.StructData? then IfNone(s.structType, DefaultPbType(item.ident)) else s.structType;
    var enumType := if item.data.EnumData? then IfNone(s.enumType, DefaultPbType(item.ident)) else s.enumType;
    Logged(PbContainer(item.ident, structType, enumType), f.pushed)
  }

  /** One entry of a container's `#[pb(...)]`, applied to the slots. */
  method PbContainerItem(cx: ASTResult, P: Parsers, item: NestedMeta, structType: AstAttr<string>, enumType: AstAttr<string>)
    requires structType.result == cx && enumType.result == cx && structType != enumType
    requires structType.name == PB_STRUCT && enumType.name == PB_ENUM
    modifies structType, enumType, cx
    ensures PbContainerSlots(structType.value, enumType.value)
         == PbContainerStep(P, old(PbContainerSlots(structType.value, enumType.value)), item).value
    ensures cx.errors == old(cx.errors) + PbContainerStep(P, old(PbContainerSlots(structType.value, enumType.value)), item).pushed
    ensures cx.isChecked == old(cx.isChecked)
  {
    match item
    case MetaItem(m) =>
      if m.NameValueMeta? && IsIdent(m.path, PB_STRUCT) {
        var t := ParseLitIntoTy(cx, P, PB_STRUCT, m.lit);
        if t.Ok? {
          structType.SetOpt(PathTokens(m.path), Some(t.value));
        }
      } else if m.NameValueMeta? && IsIdent(m.path, PB_ENUM) {
        var t := ParseLitIntoTy(cx, P, PB_ENUM, m.lit);
        if t.Ok? {
          enumType.SetOpt(PathTokens(m.path), Some(t.value));
        }
      } else {
        cx.ErrorSpannedBy(UnknownContainerMessage(m.path));
      }
    case LitItem(_) =>
      cx.ErrorSpannedBy(CONTAINER_LITERAL);
  }

  /** The entries of one `#[pb(...)]` attribute, applied to a container's slots in order. */
  method PbContainerItems(cx: ASTResult, P: Parsers, items: seq<NestedMeta>, structType: AstAttr<string>, enumType: AstAttr<string>)
    requires structType.result == cx && enumType.result == cx && structType != enumType
    requires structType.name == PB_STRUCT && enumType.name == PB_ENUM
    modifies structType, enumType, cx
    ensures PbContainerSlots(structType.value, enumType.value)
         == FoldItems((s, it) => PbContainerStep(P, s, it), old(PbContainerSlots(structType.value, enumType.value)), items).value
    ensures cx.errors == old(cx.errors)
         + FoldItems((s, it) => PbContainerStep(P, s, it), old(PbContainerSlots(structType.value, enumType.value)), items).pushed
    ensures cx.isChecked == old(cx.isChecked)
  {
    ghost var step := (s, it) => PbContainerStep(P, s, it);
    ghost var s0 := PbContainerSlots(structType.value, enumType.value);
    var j := 0;
    while j < |items|
      invariant 0 <= j <= |items|
      invariant PbContainerSlots(structType.value, enumType.value) == FoldItems(step, s0, items[..j]).value
      invariant cx.errors == old(cx.errors) + FoldItems(step, s0, items[..j]).pushed
      invariant cx.isChecked == old(cx.isChecked)
    {
      ghost var prev := FoldItems(step, s0, items[..j]);
      PbContainerItem(cx, P, items[j], structType, enumType);
      ghost var last := PbContainerStep(P, prev.value, items[j]);
      assert items[..j + 1][..j] == items[..j];
      assert FoldItems(step, s0, items[..j + 1]) == Logged(last.value, prev.pushed + last.pushed);
      AppendAssoc(old(cx.errors), prev.pushed, last.pushed);
      j := j + 1;
    }
    assert items[..j] == items;
  }

  /** One attribute of a container: its `pb` entries, if any, applied to the slots. */
  method PbContainerAttribute(cx: ASTResult, P: Parsers, a: Attribute, structType: AstAttr<string>, enumType: AstAttr<string>)
    requires structType.result == cx && enumType.result == cx && structType != enumType
    requires structType.name == PB_STRUCT && enumType.name == PB_ENUM
    modifies structType, enumType, cx
    ensures PbContainerSlots(structType.value, enumType.value)
         == FoldAttr(PbMetaItems, (s, it) => PbContainerStep(P, s, it), old(PbContainerSlots(structType.value, enumType.value)), a).value
    ensures cx.errors == old(cx.errors)
         + FoldAttr(PbMetaItems, (s, it) => PbContainerStep(P, s, it), old(PbContainerSlots(structType.value, enumType.value)), a).pushed
    ensures cx.isChecked == old(cx.isChecked)
  {
    var m := GetPbMetaItems(cx, a);
    PbContainerItems(cx, P, if m.Ok? then m.value else [], structType, enumType);
  }

  /**
   * `PBAttrsContainer::from_ast`: reads the container's `#[pb(...)]`
   * entries, then defaults a struct's struct type, or an enum's enum
   * type, to its own name.
   */
  method PbContainerFromAst(cx: ASTResult, P: Parsers, item: DeriveInput) returns (r: PbContainer)
    modifies cx
    ensures r == PbContainerSpec(P, item).value
    ensures cx.errors == old(cx.errors) + PbContainerSpec(P, item).pushed
    ensures cx.isChecked == old(cx.isChecked)
  {
    var structType := new AstAttr<string>(cx, PB_STRUCT);
    var enumType := new AstAttr<string>(cx, PB_ENUM);
    var attrs := item.attrs;
    var i := 0;
    while i < |attrs|
      invariant 0 <= i <= |attrs|
      invariant PbContainerSlots(structType.value, enumType.value) == PbContainerFold(P, attrs[..i]).value
      invariant cx.errors == old(cx.errors) + PbContainerFold(P, attrs[..i]).pushed
      invariant cx.isChecked == old(cx.isChecked)
    {
      ghost var prev := PbContainerFold(P, attrs[..i]);
      PbContainerAttribute(cx, P, attrs[i], structType, enumType);
      ghost var last := FoldAttr(PbMetaItems, (s, it) => PbContainerStep(P, s, it), prev.value, attrs[i]);
      assert attrs[..i + 1][..i] == attrs[..i];
      assert PbContainerFold(P, attrs[..i + 1]) == Logged(last.value, prev.pushed + last.pushed);
      AppendAssoc(old(cx.errors), prev.pushed, last.pushed);
      i := i + 1;
    }
    assert attrs[..i] == attrs;
    match item.data {
      case StructData(_) => structType.SetIfNone(DefaultPbType(item.ident));
      case EnumData(_) => enumType.SetIfNone(DefaultPbType(item.ident));
      case UnionData(_) =>
    }
    r := PbContainer(item.ident, structType.Get(), enumType.Get());
  }

  // ---- is_option / ungroup ----

  /** A type with its invisible groups removed. */
  function Ungrouped(t: Ty): (r: Ty)
    ensures !r.GroupTy?
    ensures !t.GroupTy? ==> r == t
  {
    if t.GroupTy? then Ungrouped(t.elem) else t
  }

  /** `ungroup`: strips groups one at a time. */
  method Ungroup(t: Ty) returns (r: Ty)
    ensures r == Ungrouped(t)
  {
    r := t;
    while r.GroupTy?
      invariant Ungrouped(r) == Ungrouped(t)
      decreases r
    {
      r := r.elem;
    }
  }

  /** `is_option`: once ungrouped, a path whose last segment is `Option` with exactly one `<...>` argument. */
  predicate IsOption(t: Ty)
  {
    var u := Ungrouped(t);
    u.PathTy? && |u.segments| > 0
    && var seg := u.segments[|u.segments| - 1];
    seg.arguments.AngleArgs? && seg.ident == "Option" && |seg.arguments.args| == 1
  }

  // ---- properties ----

  /** Grouping does not change whether a type is an option. */
  lemma IsOptionUngroups(t: Ty)
    ensures IsOption(GroupTy(t)) == IsOption(t)
  {
  }

  /** `a::b::Option<T>` is an option whatever the leading segments; a bare `Option` is not. */
  lemma {:induction false} IsOptionLastSegment(prefix: seq<Segment>, arg: GenericArg, a: PathArgs)
    requires !a.AngleArgs? || |a.args| != 1
    ensures IsOption(PathTy(prefix + [Segment("Option", AngleArgs([arg]))]))
    ensures !IsOption(PathTy(prefix + [Segment("Option", a)]))
  {
    var s1 := prefix + [Segment("Option", AngleArgs([arg]))];
    assert s1[|s1| - 1] == Segment("Option", AngleArgs([arg]));
    var s2 := prefix + [Segment("Option", a)];
    assert s2[|s2| - 1] == Segment("Option", a);
  }

  /** A field without `pb` attributes gets its name and nothing else, silently. */
  lemma NoPbAttributes(P: Parsers, position: nat, field: Field)
    requires forall i :: 0 <= i < |field.attrs| ==> !IsIdent(field.attrs[i].path, PB_ATTRS)
    ensures PbStructSpec(P, position, field)
         == Logged(PbStructAttrs(FieldName(field, position), None, false, false, false, None, None), [])
  {
    FoldAttrsNone(PbMetaItems, (s, it) => PbFieldStep(P, s, it), NO_PB_FIELD, field.attrs);
  }

  /** A field tuple's name is its position; a named field's is its identifier. */
  lemma FieldNames(P: Parsers, position: nat, field: Field)
    ensures field.ident.Some? ==> PbStructSpec(P, position, field).value.name == field.ident.value
    ensures field.ident.None? ==> PbStructSpec(P, position, field).value.name == NatToDecimal(position)
  {
  }

  /** The entries of a single `#[pb(...)]` on a field. */
  function PbField(entries: seq<NestedMeta>): Field
  {
    Field(Some("f"), [Attribute([PB_ATTRS], Ok(ListMeta([PB_ATTRS], entries)))], OtherTy("T"))
  }

  /** A single attribute's entries, folded from the empty field. */
  lemma PbFieldEntries(P: Parsers, entries: seq<NestedMeta>)
    ensures PbFieldFold(P, PbField(entries).attrs) == FoldItems((s, it) => PbFieldStep(P, s, it), NO_PB_FIELD, entries)
  {
    FoldAttrsOne(PbMetaItems, (s, it) => PbFieldStep(P, s, it), NO_PB_FIELD, PbField(entries).attrs[0]);
  }

  /** `#[pb(skip)]` sets both skip flags and nothing else. */
  lemma SkipSetsBoth(P: Parsers)
    ensures
      var r := PbStructSpec(P, 0, PbField([MetaItem(PathMeta([SKIP]))]));
      r.value.skipSerializing && r.value.skipDeserializing && !r.value.isOneOf && r.value.index.None? && r.pushed == []
  {
    var e := [MetaItem(PathMeta([SKIP]))];
    PbFieldEntries(P, e);
    assert e[..0] == [];
  }

  /** `#[pb(one_of)]` sets `one_of` only; an unknown bare word is ignored without an error. */
  lemma OneOfAndOtherWords(P: Parsers, word: string)
    requires word != PB_ONE_OF && word != SKIP
    ensures
      var r := PbStructSpec(P, 0, PbField([MetaItem(PathMeta([PB_ONE_OF])), MetaItem(PathMeta([word]))]));
      r.value.isOneOf && !r.value.skipSerializing && !r.value.skipDeserializing && r.pushed == []
  {
    var e := [MetaItem(PathMeta([PB_ONE_OF])), MetaItem(PathMeta([word]))];
    PbFieldEntries(P, e);
    FoldItemsTwo((s, it) => PbFieldStep(P, s, it), NO_PB_FIELD, e[0], e[1]);
  }

  /** A second `index` keeps the first and reports a duplicate. */
  lemma SecondIndexIsDuplicate(P: Parsers, d1: string, d2: string)
    ensures
      var r := PbStructSpec(P, 0, PbField([MetaItem(NameValueMeta([PB_INDEX], IntLit(d1))), MetaItem(NameValueMeta([PB_INDEX], IntLit(d2)))]));
      r.value.index == Some(d1) && r.pushed == [SynError(DuplicateMessage(PB_INDEX))]
  {
    var e := [MetaItem(NameValueMeta([PB_INDEX], IntLit(d1))), MetaItem(NameValueMeta([PB_INDEX], IntLit(d2)))];
    PbFieldEntries(P, e);
    FoldItemsTwo((s, it) => PbFieldStep(P, s, it), NO_PB_FIELD, e[0], e[1]);
  }

  /** An `index` that is not an integer literal is ignored without an error. */
  lemma IndexOnlyInteger(P: Parsers, lit: Lit)
    requires !lit.IntLit?
    ensures
      var r := PbStructSpec(P, 0, PbField([MetaItem(NameValueMeta([PB_INDEX], lit))]));
      r.value.index.None? && r.pushed == []
  {
    var e := [MetaItem(NameValueMeta([PB_INDEX], lit))];
    PbFieldEntries(P, e);
    assert e[..0] == [];
  }

  /** `serialize_pb_with = "f"` stores the path `f` when it parses, and reports a failure when it does not. */
  lemma SerializeWithPath(P: Parsers, f: string)
    ensures
      var r := PbStructSpec(P, 0, PbField([MetaItem(NameValueMeta([SERIALIZE_PB_WITH], StrLit(f)))]));
      (P.parsesAsExprPath(f) ==> r.value.serializeWith == Some(f) && r.pushed == [])
      && (!P.parsesAsExprPath(f) ==> r.value.serializeWith.None? && r.pushed == [SynError("failed to parse path: " + DebugStr(f))])
  {
    var e := [MetaItem(NameValueMeta([SERIALIZE_PB_WITH], StrLit(f)))];
    PbFieldEntries(P, e);
    assert e[..0] == [];
  }

  /** An unknown key is reported with its path, and changes nothing. */
  lemma UnknownFieldKey(P: Parsers, key: Path, lit: Lit)
    requires !IsIdent(key, PB_INDEX) && !IsIdent(key, SERIALIZE_PB_WITH) && !IsIdent(key, DESERIALIZE_PB_WITH)
    ensures
      var r := PbStructSpec(P, 0, PbField([MetaItem(NameValueMeta(key, lit))]));
      r.value == PbStructAttrs("f", None, false, false, false, None, None)
      && r.pushed == [SynError(UnknownPbFieldMessage(key))]
  {
    var e := [MetaItem(NameValueMeta(key, lit))];
    PbFieldEntries(P, e);
    assert e[..0] == [];
  }

  /**
   * The flags hold exactly when some entry set them: `one_of` when an
   * entry is the bare word `one_of`, each skip flag when one is `skip`.
   */
  lemma {:induction false} FlagsFromEntries(P: Parsers, s: PbFieldSlots, entries: seq<NestedMeta>)
    ensures
      var f := FoldItems((s, it) => PbFieldStep(P, s, it), s, entries).value.flags;
      f.oneOf == (s.flags.oneOf || MetaItem(PathMeta([PB_ONE_OF])) in entries)
      && f.skipSerializing == (s.flags.skipSerializing || MetaItem(PathMeta([SKIP])) in entries)
      && f.skipDeserializing == (s.flags.skipDeserializing || MetaItem(PathMeta([SKIP])) in entries)
    decreases |entries|
  {
    if entries != [] {
      var init := entries[..|entries| - 1];
      FlagsFromEntries(P, s, init);
      assert entries == init + [entries[|entries| - 1]];
    }
  }

  /** A container's type defaults: a struct without `struct = ...` is named after itself, and so is an enum without `enum = ...`. */
  lemma ContainerDefaults(P: Parsers, item: DeriveInput)
    requires forall i :: 0 <= i < |item.attrs| ==> !IsIdent(item.attrs[i].path, PB_ATTRS)
    ensures item.data.StructData? ==> PbContainerSpec(P, item) == Logged(PbContainer(item.ident, Some(item.ident), None), [])
    ensures item.data.EnumData? ==> PbContainerSpec(P, item) == Logged(PbContainer(item.ident, None, Some(item.ident)), [])
    ensures item.data.UnionData? ==> PbContainerSpec(P, item) == Logged(PbContainer(item.ident, None, None), [])
  {
    FoldAttrsNone(PbMetaItems, (s, it) => PbContainerStep(P, s, it), PbContainerSlots(None, None), item.attrs);
  }

  /** A container carrying a single `#[pb(...)]`. */
  function PbItem(entries: seq<NestedMeta>, ident: string, data: Data): DeriveInput
  {
    DeriveInput([Attribute([PB_ATTRS], Ok(ListMeta([PB_ATTRS], entries)))], ident, data)
  }

  lemma PbItemEntries(P: Parsers, entries: seq<NestedMeta>, ident: string, data: Data)
    ensures PbContainerFold(P, PbItem(entries, ident, data).attrs)
         == FoldItems((s, it) => PbContainerStep(P, s, it), PbContainerSlots(None, None), entries)
  {
    FoldAttrsOne(PbMetaItems, (s, it) => PbContainerStep(P, s, it), PbContainerSlots(None, None), PbItem(entries, ident, data).attrs[0]);
  }

  /** `#[pb(struct = "T")]` on a struct names its type `T` and leaves the enum type empty. */
  lemma ExplicitStructType(P: Parsers, t: string, ident: string, fields: Fields)
    requires P.parsesAsType(t)
    ensures PbContainerSpec(P, PbItem([MetaItem(NameValueMeta([PB_STRUCT], StrLit(t)))], ident, StructData(fields)))
         == Logged(PbContainer(ident, Some(t), None), [])
  {
    var e := [MetaItem(NameValueMeta([PB_STRUCT], StrLit(t)))];
    PbItemEntries(P, e, ident, StructData(fields));
    assert e[..0] == [];
  }

  /** `#[pb(enum = "T")]` on an enum names its type `T` and leaves the struct type empty. */
  lemma ExplicitEnumType(P: Parsers, t: string, ident: string, variants: seq<Variant>)
    requires P.parsesAsType(t)
    ensures PbContainerSpec(P, PbItem([MetaItem(NameValueMeta([PB_ENUM], StrLit(t)))], ident, EnumData(variants)))
         == Logged(PbContainer(ident, None, Some(t)), [])
  {
    var e := [MetaItem(NameValueMeta([PB_ENUM], StrLit(t)))];
    PbItemEntries(P, e, ident, EnumData(variants));
    assert e[..0] == [];
  }

  /** An unknown container key is reported with its path; the struct still gets its default type. */
  lemma UnknownContainerKey(P: Parsers, key: Path, lit: Lit, ident: string, fields: Fields)
    requires !IsIdent(key, PB_STRUCT) && !IsIdent(key, PB_ENUM)
    ensures PbContainerSpec(P, PbItem([MetaItem(NameValueMeta(key, lit))], ident, StructData(fields)))
         == Logged(PbContainer(ident, Some(ident), None), [SynError(UnknownContainerMessage(key))])
  {
    var e := [MetaItem(NameValueMeta(key, lit))];
    PbItemEntries(P, e, ident, StructData(fields));
    assert e[..0] == [];
  }

  /** A struct always ends with a struct type and an enum with an enum type, given or defaulted. */
  lemma ContainerAlwaysTyped(P: Parsers, item: DeriveInput)
    ensures item.data.StructData? ==> PbContainerSpec(P, item).value.structType.Some?
    ensures item.data.EnumData? ==> PbContainerSpec(P, item).value.enumType.Some?
    ensures PbContainerSpec(P, item).value.name == item.ident
  {
  }

  // ---- scenarios on the slots ----

  /** Setting a slot twice keeps the first value and its tokens, and reports one duplicate. */
  method SetTwice<T>(v1: T, v2: T) returns (value: Option<T>, tokens: string, errs: Result<(), seq<SynError>>)
    ensures value == Some(v1) && tokens == "first" && errs == Err([SynError(DuplicateMessage("index"))])
  {
    var cx := new ASTResult();
    var a := new AstAttr<T>(cx, "index");
    a.Set("first", v1);
    a.Set("second", v2);
    assert cx.errors == [SynError(DuplicateMessage("index"))];
    value := a.Get();
    tokens := a.tokens;
    errs := cx.Check();
  }

  /** `set_if_none` fills an empty slot, never overwrites a full one, and never reports. */
  method SetIfNoneTwice<T>(v1: T, v2: T) returns (value: Option<T>, errs: Result<(), seq<SynError>>)
    ensures value == Some(v1) && errs == Ok(())
  {
    var cx := new ASTResult();
    var a := new AstAttr<T>(cx, "struct");
    a.SetOpt("none", None);
    a.SetIfNone(v1);
    a.SetIfNone(v2);
    value := a.Get();
    errs := cx.Check();
  }

  /** A flag is set exactly when `set_true` was called. */
  method FlagLifecycle() returns (before: bool, after: bool)
    ensures !before && after
  {
    var cx := new ASTResult();
    var b := new BoolAttr(cx, PB_ONE_OF);
    before := b.Get();
    b.SetTrue(PB_ONE_OF);
    after := b.Get();
  }
}
