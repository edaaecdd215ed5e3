/**
 * The container a derive macro works on: a struct's fields or an enum's
 * variants, each with the protobuf, node and event attributes read from
 * them, the container's own protobuf attributes and its node type.
 */
module AstContainer {
  import opened Wrappers
  import opened Strings
  import opened Ctxt
  import opened Syn
  import opened TyExt
  import opened PbAttrs
  import opened NodeAttrs
  import opened EventAttrs

  /** What a field's outer type is, with a map's key and value identifiers. */
  datatype BracketCategory = OtherBracket | OptBracket | VecBracket | MapBracket(key: string, value: string)

  /** The shape of a struct body or a variant. */
  datatype ASTStyle = StyleStruct | StyleTuple | StyleNewType | StyleUnit

  /** How a field is addressed: by name, or by position in a tuple. */
  datatype Member = NamedMember(name: string) | UnnamedMember(index: nat)

  datatype ASTField = ASTField(
    member: Member,
    pbAttrs: PbStructAttrs,
    nodeAttrs: NodeStructAttrs,
    ty: Ty,
    bracketTy: Option<string>,
    bracketInnerTy: Option<string>,
    bracketCategory: Option<BracketCategory>)

  datatype ASTEnumVariant = ASTEnumVariant(ident: string, attrs: EventEnumAttrs, style: ASTStyle, fields: seq<ASTField>)

  datatype ASTData = StructBody(style: ASTStyle, fields: seq<ASTField>) | EnumBody(variants: seq<ASTEnumVariant>)

  datatype ASTContainer = ASTContainer(ident: string, nodeType: Option<string>, pbAttrs: PbContainer, data: ASTData)

  const UNRECOGNIZABLE := "unrecognizable"
  const UNRECOGNIZABLE_FIELD := UNRECOGNIZABLE + " field: no relevant annotation found"
  const UNION_UNSUPPORTED := "Does not support union"
  const DUPLICATE_NODE_TYPE := "Duplicate node_type definition"
  const UNKNOWN_TY := "UnknownTy"

  // ---- the views over a container's data ----

  /** Every field: a struct's own, or the fields of an enum's variants in order. */
  function AllFields(d: ASTData): (r: seq<ASTField>)
    ensures d.StructBody? ==> r == d.fields
  {
    match d
    case StructBody(_, fields) => fields
    case EnumBody(variants) => VariantFields(variants)
  }

  function VariantFields(vs: seq<ASTEnumVariant>): seq<ASTField>
    decreases |vs|
  {
    if vs == [] then [] else VariantFields(vs[..|vs| - 1]) + vs[|vs| - 1].fields
  }

  /** The event attributes of every variant, in order; a struct has none. */
  function AllVariants(d: ASTData): (r: seq<EventEnumAttrs>)
    ensures d.StructBody? ==> r == []
    ensures d.EnumBody? ==> |r| == |d.variants| && forall i :: 0 <= i < |r| ==> r[i] == d.variants[i].attrs
  {
    match d
    case StructBody(_, _) => []
    case EnumBody(variants) => seq(|variants|, i requires 0 <= i < |variants| => variants[i].attrs)
  }

  /** The names of a struct's named fields, or of an enum's variants. */
  function AllIdents(d: ASTData): (r: seq<string>)
    ensures d.EnumBody? ==> |r| == |d.variants| && forall i :: 0 <= i < |r| ==> r[i] == d.variants[i].ident
    ensures d.StructBody? ==> |r| <= |d.fields|
    ensures d.StructBody? ==> forall x :: x in r <==> NamedMember(x) in MemberList(d.fields)
  {
    match d
    case EnumBody(variants) => seq(|variants|, i requires 0 <= i < |variants| => variants[i].ident)
    case StructBody(_, fields) => NamedOnly(fields)
  }

  function MemberList(fields: seq<ASTField>): seq<Member>
  {
    seq(|fields|, i requires 0 <= i < |fields| => fields[i].member)
  }

  function NamedOnly(fields: seq<ASTField>): (r: seq<string>)
    ensures |r| <= |fields|
    ensures forall x :: x in r <==> NamedMember(x) in MemberList(fields)
    decreases |fields|
  {
    if fields == [] then []
    else
      var init := fields[..|fields| - 1];
      var last := fields[|fields| - 1];
      assert MemberList(fields) == MemberList(init) + [last.member];
      NamedOnly(init) + (if last.member.NamedMember? then [last.member.name] else [])
  }

  // ---- one field ----

  /** The field's attribute paths mention `pb`, `node` or `event` anywhere in their text. */
  predicate RecognizableByAnnotation(f: Field)
  {
    exists i :: 0 <= i < |f.attrs| && MentionsAnnotation(f.attrs[i].path)
  }

  predicate MentionsAnnotation(p: Path)
  {
    Contains(PathTokens(p), "pb") || Contains(PathTokens(p), "node") || Contains(PathTokens(p), "event")
  }

  /** The bracket category is the type's category; the inner type is given exactly when there is a bracketed type. */
  function BracketInfo(info: TyInfo): (r: (BracketCategory, Option<string>, Option<string>))
    ensures r.1 == Some(info.ident)
    ensures r.2.Some? <==> info.bracket.Some?
    ensures info.bracket.Some? ==> r.2 == Some(info.bracket.value.ident)
    ensures info.primitive.Map? <==> r.0.MapBracket?
    ensures info.primitive.Map? ==> r.0 == MapBracket(info.primitive.key, info.primitive.value)
    ensures info.primitive.Vec? <==> r.0 == VecBracket
    ensures info.primitive.Opt? <==> r.0 == OptBracket
    ensures info.primitive.Other? <==> r.0 == OtherBracket
  {
    var category := match info.primitive
      case Map(k, v) => MapBracket(k, v)
      case Vec => VecBracket
      case Opt => OptBracket
      case Other => OtherBracket;
    if info.bracket.Some? then (category, Some(info.ident), Some(info.bracket.value.ident))
    else (category, Some(info.ident), None)
  }

  /** The identifier a field's type is spelled with. */
  function TyAsStr(f: ASTField): (r: string)
    ensures f.bracketInnerTy.Some? ==> r == f.bracketInnerTy.value
    ensures f.bracketInnerTy.None? && f.bracketTy.Some? ==> r == f.bracketTy.value
    ensures f.bracketInnerTy.None? && f.bracketTy.None? ==> r == UNKNOWN_TY
  {
    if f.bracketInnerTy.Some? then f.bracketInnerTy.value
    else if f.bracketTy.Some? then f.bracketTy.value
    else UNKNOWN_TY
  }

  /** A field's debug rendering (approximated: the identifier only). */
  function DebugField(f: Field): string
  {
    "Field { ident: " + (if f.ident.Some? then "Some(" + f.ident.value + ")" else "None") + " }"
  }

  /** Reading a field's attributes cannot panic: its type, if it gets classified, classifies without panicking. */
  predicate FieldSafe(f: Field)
  {
    RecognizableByAnnotation(f) ==> !ParseTy(f.ty).outcome.Panicked?
  }

  predicate AllSafe(fs: seq<Field>)
  {
    forall i :: 0 <= i < |fs| ==> FieldSafe(fs[i])
  }

  function FieldList(fs: Fields): seq<Field>
  {
    match fs
    case Named(named) => named
    case Unnamed(unnamed) => unnamed
    case Unit => []
  }

  predicate VariantsSafe(vs: seq<Variant>)
  {
    forall i :: 0 <= i < |vs| ==> AllSafe(FieldList(vs[i].fields))
  }

  predicate InputSafe(d: DeriveInput)
  {
    match d.data
    case StructData(fs) => AllSafe(FieldList(fs))
    case EnumData(vs) => VariantsSafe(vs)
    case UnionData(_) => true
  }

  /**
   * `ASTField::new`, as a value: an unannotated field is rejected
   * without an error; a type that does not classify is rejected, a
   * failing one with its error recorded; otherwise the field's
   * protobuf and node attributes are read, in that order.
   */
  function FieldSpec(P: Parsers, field: Field, index: nat): (r: Logged<Result<ASTField, string>>)
    requires FieldSafe(field)
    ensures !RecognizableByAnnotation(field) ==> r == Logged(Err(UNRECOGNIZABLE_FIELD), [])
    ensures r.value.Ok? ==> r.value.value.member == (if field.ident.Some? then NamedMember(field.ident.value) else UnnamedMember(index))
    ensures r.value.Ok? ==> r.value.value.ty == field.ty && r.value.value.bracketCategory.Some?
  {
    if !RecognizableByAnnotation(field) then Logged(Err(UNRECOGNIZABLE_FIELD), [])
    else
      var p := ParseTy(field.ty);
      match p.outcome
      case Classified(Some(info)) =>
        var b := BracketInfo(info);
        var member := if field.ident.Some? then NamedMember(field.ident.value) else UnnamedMember(index);
        var pb := PbStructSpec(P, index, field);
        var node := NodeStructSpec(P, field);
        Logged(Ok(ASTField(member, pb.value, node.value, field.ty, b.1, b.2, Some(b.0))), p.pushed + pb.pushed + node.pushed)
      case Classified(None) => Logged(Err("Fail to get the ty inner type: " + DebugField(field)), p.pushed)
      case Failed(e) => Logged(Err(e), p.pushed + [SynError("Field parse_ty error: " + e)])
  }

  /** What `fields_from_ast` adds for a rejected field: nothing when the message says it is unrecognizable. */
  function RejectionError(r: Result<ASTField, string>): seq<SynError>
  {
    if r.Err? && !Contains(r.error, UNRECOGNIZABLE) then [SynError(r.error)] else []
  }

  /** `fields_from_ast`, as a value: the fields that build, in order, each numbered by its position. */
  function FieldsFold(P: Parsers, fields: seq<Field>): (r: Logged<seq<ASTField>>)
    requires AllSafe(fields)
    ensures |r.value| <= |fields|
    decreases |fields|
  {
    if fields == [] then Logged([], [])
    else
      var prev := FieldsFold(P, fields[..|fields| - 1]);
      var f := FieldSpec(P, fields[|fields| - 1], |fields| - 1);
      Logged(prev.value + (if f.value.Ok? then [f.value.value] else []), prev.pushed + f.pushed + RejectionError(f.value))
  }

  /** `parse_fields`, as a value: the style follows the kind of fields, one unnamed field making a newtype. */
  function ParseFieldsSpec(P: Parsers, fs: Fields): (r: Logged<(ASTStyle, seq<ASTField>)>)
    requires AllSafe(FieldList(fs))
    ensures fs.Named? <==> r.value.0 == StyleStruct
    ensures (fs.Unnamed? && |fs.unnamed| == 1) <==> r.value.0 == StyleNewType
    ensures (fs.Unnamed? && |fs.unnamed| != 1) <==> r.value.0 == StyleTuple
    ensures fs.Unit? <==> r.value.0 == StyleUnit
    ensures fs.Unit? ==> r == Logged((StyleUnit, []), [])
    ensures r.value.1 == FieldsFold(P, FieldList(fs)).value && r.pushed == FieldsFold(P, FieldList(fs)).pushed
  {
    match fs
    case Named(named) =>
      var l := FieldsFold(P, named);
      Logged((StyleStruct, l.value), l.pushed)
    case Unnamed(unnamed) =>
      var l := FieldsFold(P, unnamed);
      Logged((if |unnamed| == 1 then StyleNewType else StyleTuple, l.value), l.pushed)
    case Unit => Logged((StyleUnit, []), [])
  }

  /** `enum_from_ast`, as a value: one entry per variant, its event attributes read before its fields. */
  function VariantsFold(P: Parsers, enumIdent: string, vs: seq<Variant>, enumAttrs: seq<Attribute>): (r: Logged<seq<ASTEnumVariant>>)
    requires VariantsSafe(vs)
    ensures |r.value| == |vs|
    decreases |vs|
  {
    if vs == [] then Logged([], [])
    else
      var init := vs[..|vs| - 1];
      var v := vs[|vs| - 1];
      assert VariantsSafe(init);
      var prev := VariantsFold(P, enumIdent, init, enumAttrs);
      var ev := EventEnumSpec(P, enumIdent, v, enumAttrs);
      var pf := ParseFieldsSpec(P, v.fields);
      Logged(prev.value + [ASTEnumVariant(v.ident, ev.value, pf.value.0, pf.value.1)], prev.pushed + (ev.pushed + pf.pushed))
  }

  // ---- the node type ----

  /** One container attribute for `get_node_type`: any `node_type = literal` repeated is a duplicate; a string sets the type. */
  function NodeTypeStep(s: Option<string>, a: Attribute): Logged<Option<string>>
  {
    if NODE_TYPE in a.path && a.parsed.Ok? && a.parsed.value.NameValueMeta? then
      var dup := if s.Some? then [SynError(DUPLICATE_NODE_TYPE)] else [];
      var lit := a.parsed.value.lit;
      Logged(if lit.StrLit? then Some(lit.value) else s, dup)
    else Logged(s, [])
  }

  function NodeTypeFold(attrs: seq<Attribute>): (r: Logged<Option<string>>)
    ensures r.value.Some? <==> exists i :: 0 <= i < |attrs| && IsNodeTypeString(attrs[i])
    decreases |attrs|
  {
    if attrs == [] then Logged(None, [])
    else
      var prev := NodeTypeFold(attrs[..|attrs| - 1]);
      var last := NodeTypeStep(prev.value, attrs[|attrs| - 1]);
      Logged(last.value, prev.pushed + last.pushed)
  }

  /** The attribute is `#[node_type = "..."]` (in any segment), with its string. */
  predicate IsNodeTypeString(a: Attribute)
  {
    NODE_TYPE in a.path && a.parsed.Ok? && a.parsed.value.NameValueMeta? && a.parsed.value.lit.StrLit?
  }

  /** The last string `node_type` among the attributes, looked for from the end. */
  function LastNodeType(attrs: seq<Attribute>): (r: Option<string>)
    ensures r.Some? <==> exists i :: 0 <= i < |attrs| && IsNodeTypeString(attrs[i])
    decreases |attrs|
  {
    if attrs == [] then None
    else if IsNodeTypeString(attrs[|attrs| - 1]) then Some(attrs[|attrs| - 1].parsed.value.lit.value)
    else
      var r := LastNodeType(attrs[..|attrs| - 1]);
      assert forall i :: 0 <= i < |attrs| - 1 ==> attrs[..|attrs| - 1][i] == attrs[i];
      r
  }

  // ---- the container ----

  /** `ASTContainer::from_ast`, as a value: a union is refused; otherwise the protobuf attributes, the body, then the node type. */
  function ContainerSpec(P: Parsers, input: DeriveInput): (r: Logged<Option<ASTContainer>>)
    requires InputSafe(input)
    ensures r.value.None? <==> input.data.UnionData?
    ensures r.value.Some? ==> r.value.value.ident == input.ident && r.value.value.nodeType == NodeTypeFold(input.attrs).value
    ensures r.value.Some? ==> r.value.value.pbAttrs == PbContainerSpec(P, input).value
    ensures r.value.Some? ==> (input.data.StructData? <==> r.value.value.data.StructBody?)
  {
    var pb := PbContainerSpec(P, input);
    match input.data
    case UnionData(_) => Logged(None, pb.pushed + [SynError(UNION_UNSUPPORTED)])
    case StructData(fs) =>
      var pf := ParseFieldsSpec(P, fs);
      var nt := NodeTypeFold(input.attrs);
      Logged(Some(ASTContainer(input.ident, nt.value, pb.value, StructBody(pf.value.0, pf.value.1))), pb.pushed + pf.pushed + nt.pushed)
    case EnumData(vs) =>
      var ev := VariantsFold(P, input.ident, vs, input.attrs);
      var nt := NodeTypeFold(input.attrs);
      Logged(Some(ASTContainer(input.ident, nt.value, pb.value, EnumBody(ev.value))), pb.pushed + ev.pushed + nt.pushed)
  }

  // ---- the methods ----

  /** `ASTField::new`. */
  method NewField(cx: ASTResult, P: Parsers, field: Field, index: nat) returns (r: Result<ASTField, string>)
    requires FieldSafe(field)
    modifies cx
    ensures r == FieldSpec(P, field, index).value
    ensures cx.errors == old(cx.errors) + FieldSpec(P, field, index).pushed
    ensures cx.isChecked == old(cx.isChecked)
  {
    if !RecognizableByAnnotation(field) {
      return Err(UNRECOGNIZABLE_FIELD);
    }
    var outcome := ParseTyInto(cx, field.ty);
    ghost var afterTy := cx.errors;
    match outcome
    case Classified(info) =>
      if info.None? {
        return Err("Fail to get the ty inner type: " + DebugField(field));
      }
      var b := BracketInfo(info.value);
      var member := if field.ident.Some? then NamedMember(field.ident.value) else UnnamedMember(index);
      var pb := PbStructFromAst(cx, P, index, field);
      var node := NodeStructFromAst(cx, P, index, field);
      AppendAssoc(old(cx.errors) + ParseTy(field.ty).pushed, PbStructSpec(P, index, field).pushed, NodeStructSpec(P, field).pushed);
      AppendAssoc(old(cx.errors), ParseTy(field.ty).pushed, PbStructSpec(P, index, field).pushed + NodeStructSpec(P, field).pushed);
      AppendAssoc(ParseTy(field.ty).pushed, PbStructSpec(P, index, field).pushed, NodeStructSpec(P, field).pushed);
      r := Ok(ASTField(member, pb, node, field.ty, b.1, b.2, Some(b.0)));
    case Failed(e) =>
      cx.ErrorSpannedBy("Field parse_ty error: " + e);
      r := Err(e);
    case Panicked =>
      assert false;
  }

  /** One field of `fields_from_ast`: the field if it builds, otherwise nothing, its message recorded unless it says unrecognizable. */
  method FieldFromAst(cx: ASTResult, P: Parsers, field: Field, index: nat) returns (built: seq<ASTField>)
    requires FieldSafe(field)
    modifies cx
    ensures built == (if FieldSpec(P, field, index).value.Ok? then [FieldSpec(P, field, index).value.value] else [])
    ensures cx.errors == old(cx.errors) + (FieldSpec(P, field, index).pushed + RejectionError(FieldSpec(P, field, index).value))
    ensures cx.isChecked == old(cx.isChecked)
  {
    var f := NewField(cx, P, field, index);
    match f {
      case Ok(b) => built := [b];
      case Err(msg) =>
        built := [];
        if !Contains(msg, UNRECOGNIZABLE) {
          cx.ErrorSpannedBy(msg);
        }
    }
    ghost var fs := FieldSpec(P, field, index);
    AppendAssoc(old(cx.errors), fs.pushed, RejectionError(fs.value));
  }

  /** `fields_from_ast` one field further. */
  lemma FieldsFoldStep(P: Parsers, fields: seq<Field>, i: nat)
    requires AllSafe(fields) && i < |fields|
    ensures AllSafe(fields[..i]) && AllSafe(fields[..i + 1])
    ensures
      var prev := FieldsFold(P, fields[..i]);
      var f := FieldSpec(P, fields[i], i);
      FieldsFold(P, fields[..i + 1])
      == Logged(prev.value + (if f.value.Ok? then [f.value.value] else []), prev.pushed + (f.pushed + RejectionError(f.value)))
  {
    assert fields[..i + 1][..i] == fields[..i];
    var f := FieldSpec(P, fields[i], i);
    AppendAssoc(FieldsFold(P, fields[..i]).pushed, f.pushed, RejectionError(f.value));
  }

  /** `fields_from_ast`: every field in order, numbered by position. */
  method FieldsFromAst(cx: ASTResult, P: Parsers, fields: seq<Field>) returns (list: seq<ASTField>)
    requires AllSafe(fields)
    modifies cx
    ensures list == FieldsFold(P, fields).value
    ensures cx.errors == old(cx.errors) + FieldsFold(P, fields).pushed
    ensures cx.isChecked == old(cx.isChecked)
  {
    list := [];
    var i := 0;
    while i < |fields|
      invariant 0 <= i <= |fields|
      invariant AllSafe(fields[..i])
      invariant list == FieldsFold(P, fields[..i]).value
      invariant cx.errors == old(cx.errors) + FieldsFold(P, fields[..i]).pushed
      invariant cx.isChecked == old(cx.isChecked)
    {
      ghost var prev := FieldsFold(P, fields[..i]);
      ghost var fs := FieldSpec(P, fields[i], i);
      FieldsFoldStep(P, fields, i);
      var built := FieldFromAst(cx, P, fields[i], i);
      list := list + built;
      AppendAssoc(old(cx.errors), prev.pushed, fs.pushed + RejectionError(fs.value));
      i := i + 1;
    }
    assert fields[..i] == fields;
  }

  /** `parse_fields`. */
  method ParseFields(cx: ASTResult, P: Parsers, fs: Fields) returns (style: ASTStyle, list: seq<ASTField>)
    requires AllSafe(FieldList(fs))
    modifies cx
    ensures (style, list) == ParseFieldsSpec(P, fs).value
    ensures cx.errors == old(cx.errors) + ParseFieldsSpec(P, fs).pushed
    ensures cx.isChecked == old(cx.isChecked)
  {
    match fs
    case Named(named) =>
      list := FieldsFromAst(cx, P, named);
      style := StyleStruct;
    case Unnamed(unnamed) =>
      list := FieldsFromAst(cx, P, unnamed);
      style := if |unnamed| == 1 then StyleNewType else StyleTuple;
    case Unit =>
      style, list := StyleUnit, [];
  }

  /** One variant of `enum_from_ast`: its event attributes, then its fields. */
  method VariantFromAst(cx: ASTResult, P: Parsers, enumIdent: string, v: Variant, enumAttrs: seq<Attribute>) returns (r: ASTEnumVariant)
    requires AllSafe(FieldList(v.fields))
    modifies cx
    ensures r == ASTEnumVariant(v.ident, EventEnumSpec(P, enumIdent, v, enumAttrs).value,
                                ParseFieldsSpec(P, v.fields).value.0, ParseFieldsSpec(P, v.fields).value.1)
    ensures cx.errors == old(cx.errors) + (EventEnumSpec(P, enumIdent, v, enumAttrs).pushed + ParseFieldsSpec(P, v.fields).pushed)
    ensures cx.isChecked == old(cx.isChecked)
  {
    var attrs := EventEnumFromAst(cx, P, enumIdent, v, enumAttrs);
    var style, fields := ParseFields(cx, P, v.fields);
    AppendAssoc(old(cx.errors), EventEnumSpec(P, enumIdent, v, enumAttrs).pushed, ParseFieldsSpec(P, v.fields).pushed);
    r := ASTEnumVariant(v.ident, attrs, style, fields);
  }

  /** `enum_from_ast` one variant further. */
  lemma VariantsFoldStep(P: Parsers, enumIdent: string, vs: seq<Variant>, enumAttrs: seq<Attribute>, i: nat)
    requires VariantsSafe(vs) && i < |vs|
    ensures VariantsSafe(vs[..i]) && VariantsSafe(vs[..i + 1])
    ensures
      var prev := VariantsFold(P, enumIdent, vs[..i], enumAttrs);
      var ev := EventEnumSpec(P, enumIdent, vs[i], enumAttrs);
      var pf := ParseFieldsSpec(P, vs[i].fields);
      VariantsFold(P, enumIdent, vs[..i + 1], enumAttrs)
      == Logged(prev.value + [ASTEnumVariant(vs[i].ident, ev.value, pf.value.0, pf.value.1)], prev.pushed + (ev.pushed + pf.pushed))
  {
    assert vs[..i + 1][..i] == vs[..i];
  }

  /** `enum_from_ast`. */
  method EnumFromAst(cx: ASTResult, P: Parsers, enumIdent: string, vs: seq<Variant>, enumAttrs: seq<Attribute>)
    returns (list: seq<ASTEnumVariant>)
    requires VariantsSafe(vs)
    modifies cx
    ensures list == VariantsFold(P, enumIdent, vs, enumAttrs).value
    ensures cx.errors == old(cx.errors) + VariantsFold(P, enumIdent, vs, enumAttrs).pushed
    ensures cx.isChecked == old(cx.isChecked)
  {
    list := [];
    var i := 0;
    while i < |vs|
      invariant 0 <= i <= |vs|
      invariant VariantsSafe(vs[..i])
      invariant list == VariantsFold(P, enumIdent, vs[..i], enumAttrs).value
      invariant cx.errors == old(cx.errors) + VariantsFold(P, enumIdent, vs[..i], enumAttrs).pushed
      invariant cx.isChecked == old(cx.isChecked)
    {
      ghost var prev := VariantsFold(P, enumIdent, vs[..i], enumAttrs);
      var v := VariantFromAst(cx, P, enumIdent, vs[i], enumAttrs);
      list := list + [v];
      VariantsFoldStep(P, enumIdent, vs, enumAttrs, i);
      AppendAssoc(old(cx.errors), prev.pushed,
                  EventEnumSpec(P, enumIdent, vs[i], enumAttrs).pushed + ParseFieldsSpec(P, vs[i].fields).pushed);
      i := i + 1;
    }
    assert vs[..i] == vs;
  }

  /** `get_node_type`: the loop over the container's attributes. */
  method GetNodeType(cx: ASTResult, attrs: seq<Attribute>) returns (nodeType: Option<string>)
    modifies cx
    ensures nodeType == NodeTypeFold(attrs).value
    ensures cx.errors == old(cx.errors) + NodeTypeFold(attrs).pushed
    ensures cx.isChecked == old(cx.isChecked)
  {
    nodeType := None;
    var i := 0;
    while i < |attrs|
      invariant 0 <= i <= |attrs|
      invariant nodeType == NodeTypeFold(attrs[..i]).value
      invariant cx.errors == old(cx.errors) + NodeTypeFold(attrs[..i]).pushed
      invariant cx.isChecked == old(cx.isChecked)
    {
      ghost var prev := NodeTypeFold(attrs[..i]);
      var a := attrs[i];
      if NODE_TYPE in a.path && a.parsed.Ok? && a.parsed.value.NameValueMeta? {
        if nodeType.Some? {
          cx.ErrorSpannedBy(DUPLICATE_NODE_TYPE);
        }
        if a.parsed.value.lit.StrLit? {
          nodeType := Some(a.parsed.value.lit.value);
        }
      }
      assert attrs[..i + 1][..i] == attrs[..i];
      AppendAssoc(old(cx.errors), prev.pushed, NodeTypeStep(prev.value, a).pushed);
      i := i + 1;
    }
    assert attrs[..i] == attrs;
  }

  /** `ASTContainer::from_ast`. */
  method ContainerFromAst(cx: ASTResult, P: Parsers, input: DeriveInput) returns (r: Option<ASTContainer>)
    requires InputSafe(input)
    modifies cx
    ensures r == ContainerSpec(P, input).value
    ensures cx.errors == old(cx.errors) + ContainerSpec(P, input).pushed
    ensures cx.isChecked == old(cx.isChecked)
  {
    var pb := PbContainerFromAst(cx, P, input);
    ghost var pbErrs := PbContainerSpec(P, input).pushed;
    var data: ASTData;
    ghost var bodyErrs: seq<SynError>;
    match input.data {
      case StructData(fs) =>
        var style, fields := ParseFields(cx, P, fs);
        data := StructBody(style, fields);
        bodyErrs := ParseFieldsSpec(P, fs).pushed;
      case EnumData(vs) =>
        var variants := EnumFromAst(cx, P, input.ident, vs, input.attrs);
        data := EnumBody(variants);
        bodyErrs := VariantsFold(P, input.ident, vs, input.attrs).pushed;
      case UnionData(_) =>
        cx.ErrorSpannedBy(UNION_UNSUPPORTED);
        return None;
    }
    var nodeType := GetNodeType(cx, input.attrs);
    AppendAssoc(old(cx.errors) + pbErrs, bodyErrs, NodeTypeFold(input.attrs).pushed);
    AppendAssoc(old(cx.errors), pbErrs, bodyErrs);
    AppendAssoc(old(cx.errors), pbErrs + bodyErrs, NodeTypeFold(input.attrs).pushed);
    r := Some(ASTContainer(input.ident, nodeType, pb, data));
  }

  // ---- properties ----

  /** Each variant entry is the variant's name, its event attributes and its parsed fields. */
  lemma {:induction false} VariantsFoldEntries(P: Parsers, enumIdent: string, vs: seq<Variant>, enumAttrs: seq<Attribute>, i: nat)
    requires VariantsSafe(vs) && i < |vs|
    ensures
      var pf := ParseFieldsSpec(P, vs[i].fields).value;
      VariantsFold(P, enumIdent, vs, enumAttrs).value[i]
      == ASTEnumVariant(vs[i].ident, EventEnumSpec(P, enumIdent, vs[i], enumAttrs).value, pf.0, pf.1)
    decreases |vs|
  {
    var init := vs[..|vs| - 1];
    assert VariantsSafe(init);
    if i < |vs| - 1 {
      VariantsFoldEntries(P, enumIdent, init, enumAttrs, i);
      assert init[i] == vs[i];
    }
  }

  /** A field belongs to an enum's fields exactly when it belongs to one of its variants' fields. */
  lemma {:induction false} AllFieldsOfEnum(vs: seq<ASTEnumVariant>, f: ASTField)
    ensures f in AllFields(EnumBody(vs)) <==> exists i :: 0 <= i < |vs| && f in vs[i].fields
    decreases |vs|
  {
    if vs != [] {
      var init := vs[..|vs| - 1];
      AllFieldsOfEnum(init, f);
      assert forall i :: 0 <= i < |init| ==> init[i] == vs[i];
      if f in vs[|vs| - 1].fields {
        assert 0 <= |vs| - 1 < |vs| && f in vs[|vs| - 1].fields;
      }
    }
  }

  /** An enum's fields run variant by variant: a further variant appends its fields. */
  lemma AllFieldsAppend(vs: seq<ASTEnumVariant>, v: ASTEnumVariant)
    ensures AllFields(EnumBody(vs + [v])) == AllFields(EnumBody(vs)) + v.fields
  {
    assert (vs + [v])[..|vs|] == vs;
  }

  /** A union is refused: no container, and the union error recorded. */
  lemma UnionNotSupported(P: Parsers, ident: string, fields: seq<Field>)
    ensures ContainerSpec(P, DeriveInput([], ident, UnionData(fields))) == Logged(None, [SynError(UNION_UNSUPPORTED)])
  {
    ContainerDefaults(P, DeriveInput([], ident, UnionData(fields)));
  }

  /** Fields without a `pb`, `node` or `event` annotation are dropped, and nothing is recorded. */
  lemma {:induction false} UnannotatedFieldsDropped(P: Parsers, fields: seq<Field>)
    requires forall i :: 0 <= i < |fields| ==> !RecognizableByAnnotation(fields[i])
    ensures AllSafe(fields)
    ensures FieldsFold(P, fields) == Logged([], [])
    decreases |fields|
  {
    if fields != [] {
      UnannotatedFieldsDropped(P, fields[..|fields| - 1]);
      var last := fields[|fields| - 1];
      assert FieldSpec(P, last, |fields| - 1) == Logged(Err(UNRECOGNIZABLE_FIELD), []);
      assert UNRECOGNIZABLE_FIELD[0..][..|UNRECOGNIZABLE|] == UNRECOGNIZABLE;
      assert OccursAt(UNRECOGNIZABLE_FIELD, UNRECOGNIZABLE, 0);
      assert RejectionError(Err(UNRECOGNIZABLE_FIELD)) == [];
    }
  }

  /** An annotated field of a type that is not classified (a path of several segments) is dropped with its error recorded. */
  lemma UnclassifiedTypeReported(P: Parsers, field: Field)
    requires RecognizableByAnnotation(field)
    requires field.ty.PathTy? && |field.ty.segments| > 1
    requires !Contains("Fail to get the ty inner type: " + DebugField(field), UNRECOGNIZABLE)
    ensures FieldSafe(field) && AllSafe([field])
    ensures FieldsFold(P, [field]) == Logged([], [SynError("Fail to get the ty inner type: " + DebugField(field))])
  {
    MultiSegmentUnrecognised(field.ty.segments);
    assert [field][..0] == [];
  }

  /** A failing type costs an annotated field three errors: the type's, the field's, and the message again when it is dropped. */
  lemma FailedTypeReportedThrice(P: Parsers, field: Field, e: string)
    requires RecognizableByAnnotation(field)
    requires ParseTy(field.ty).outcome == Failed(e) && ParseTy(field.ty).pushed != []
    requires !Contains(e, UNRECOGNIZABLE)
    ensures FieldSafe(field) && AllSafe([field])
    ensures FieldsFold(P, [field]) == Logged([], [SynError(e), SynError("Field parse_ty error: " + e), SynError(e)])
  {
    PushedIsFailure(field.ty);
    assert [field][..0] == [];
  }

  /**
   * A field whose name contains "unrecognizable" and whose type is not
   * classified is dropped without any error: the rejection message
   * carries the field's rendering, and the filter only looks for that word.
   */
  lemma UnrecognizableNameHidesError(P: Parsers)
    ensures
      var field := Field(Some("unrecognizable_id"), [Attribute([PB_ATTRS], Ok(ListMeta([PB_ATTRS], [])))],
                         PathTy([Segment("std", NoArgs), Segment("String", NoArgs)]));
      FieldSafe(field) && AllSafe([field]) && FieldsFold(P, [field]) == Logged([], [])
  {
    var field := Field(Some("unrecognizable_id"), [Attribute([PB_ATTRS], Ok(ListMeta([PB_ATTRS], [])))],
                       PathTy([Segment("std", NoArgs), Segment("String", NoArgs)]));
    assert PathTokens([PB_ATTRS]) == "pb";
    assert OccursAt("pb", "pb", 0);
    assert MentionsAnnotation(field.attrs[0].path);
    MultiSegmentUnrecognised(field.ty.segments);
    var msg := "Fail to get the ty inner type: " + DebugField(field);
    assert msg[51..65] == UNRECOGNIZABLE;
    assert OccursAt(msg, UNRECOGNIZABLE, 51);
    assert [field][..0] == [];
  }

  /** Paths mentioning the words anywhere count: such as `nodes` and `event_err`. */
  lemma AnnotationWords()
    ensures MentionsAnnotation([NODES_ATTRS]) && MentionsAnnotation([EVENT_ERR])
  {
    assert PathTokens([NODES_ATTRS]) == "nodes";
    assert OccursAt("nodes", "node", 0);
    assert PathTokens([EVENT_ERR]) == "event_err";
    assert OccursAt("event_err", "event", 0);
  }

  /** The node type is the last string `node_type` attribute. */
  lemma {:induction false} NodeTypeIsLast(attrs: seq<Attribute>)
    ensures NodeTypeFold(attrs).value == LastNodeType(attrs)
    decreases |attrs|
  {
    if attrs != [] {
      NodeTypeIsLast(attrs[..|attrs| - 1]);
    }
  }

  /** A second `node_type` replaces the first and is reported as a duplicate. */
  lemma NodeTypeTwice(a: string, b: string)
    ensures
      var attr := (x: string) => Attribute([NODE_TYPE], Ok(NameValueMeta([NODE_TYPE], StrLit(x))));
      NodeTypeFold([attr(a)]) == Logged(Some(a), [])
      && NodeTypeFold([attr(a), attr(b)]) == Logged(Some(b), [SynError(DUPLICATE_NODE_TYPE)])
  {
    var attr := (x: string) => Attribute([NODE_TYPE], Ok(NameValueMeta([NODE_TYPE], StrLit(x))));
    assert [attr(a)][..0] == [];
    assert [attr(a), attr(b)][..1] == [attr(a)];
  }

  /** A built field's type name is its bracketed type's identifier when it has one, otherwise its own. */
  lemma BuiltFieldTyName(P: Parsers, field: Field, index: nat, info: TyInfo)
    requires RecognizableByAnnotation(field)
    requires ParseTy(field.ty).outcome == Classified(Some(info))
    ensures FieldSafe(field)
    ensures FieldSpec(P, field, index).value.Ok?
    ensures TyAsStr(FieldSpec(P, field, index).value.value) == if info.bracket.Some? then info.bracket.value.ident else info.ident
  {
  }
}
