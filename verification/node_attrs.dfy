/**
 * The `#[node(...)]` attributes on a field: a rename, the name and
 * index of its children, and the paths of the functions that read,
 * write and walk its value. Each goes into its own slot.
 */
module NodeAttrs {
  import opened Wrappers
  import opened Ctxt
  import opened Syn
  import opened PbAttrs

  const NODE_LITERAL := "unexpected literal in `#[node(...)]`"

  /** The error for an unknown key; a key/value's path is shown compact, any other entry's with spaces. */
  function UnknownNodeMessage(pathText: string): string
  {
    "unknown node field attribute `" + pathText + "`"
  }

  /** The values a field's `node` attributes set; names and indices as their literal text, functions as path text. */
  datatype NodeSlots = NodeSlots(rename: Option<string>, childName: Option<string>, childIndex: Option<string>,
                                 getValueWith: Option<string>, setValueWith: Option<string>, withChildren: Option<string>)

  const NO_NODE := NodeSlots(None, None, None, None, None, None)

  /** A path-valued key: the parsed path goes into `slot`, or the parse error is pushed. */
  function PathSlot(P: Parsers, key: string, lit: Lit, slot: Option<string>): (r: Logged<Option<string>>)
    ensures lit.StrLit? && P.parsesAsExprPath(lit.value) ==> r == SetSlot(key, slot, lit.value)
    ensures !(lit.StrLit? && P.parsesAsExprPath(lit.value)) ==> r.value == slot && |r.pushed| == 1
  {
    var e := LitExprPath(P, key, lit);
    if e.value.Ok? then SetSlot(key, slot, e.value.value) else Logged(slot, e.pushed)
  }

  /**
   * `rename` and `child_name` take a string literal and `child_index` an
   * integer literal, ignoring any other literal; the three `*_with` keys
   * take a path; any other key is an error.
   */
  function NodeKeyValue(P: Parsers, p: Path, lit: Lit, v: NodeSlots): Logged<NodeSlots>
  {
    if IsIdent(p, RENAME_NODE) then
      if lit.StrLit? then var s := SetSlot(RENAME_NODE, v.rename, lit.value); Logged(v.(rename := s.value), s.pushed)
      else Logged(v, [])
    else if IsIdent(p, CHILD_NODE_NAME) then
      if lit.StrLit? then var s := SetSlot(CHILD_NODE_NAME, v.childName, lit.value); Logged(v.(childName := s.value), s.pushed)
      else Logged(v, [])
    else if IsIdent(p, CHILD_NODE_INDEX) then
      if lit.IntLit? then var s := SetSlot(CHILD_NODE_INDEX, v.childIndex, lit.digits); Logged(v.(childIndex := s.value), s.pushed)
      else Logged(v, [])
    else if IsIdent(p, GET_NODE_VALUE_WITH) then
      var s := PathSlot(P, GET_NODE_VALUE_WITH, lit, v.getValueWith); Logged(v.(getValueWith := s.value), s.pushed)
    else if IsIdent(p, SET_NODE_VALUE_WITH) then
      var s := PathSlot(P, SET_NODE_VALUE_WITH, lit, v.setValueWith); Logged(v.(setValueWith := s.value), s.pushed)
    else if IsIdent(p, WITH_CHILDREN) then
      var s := PathSlot(P, WITH_CHILDREN, lit, v.withChildren); Logged(v.(withChildren := s.value), s.pushed)
    else Logged(v, [SynError(UnknownNodeMessage(PathCompact(p)))])
  }

  /** One entry of a field's `#[node(...)]`: only key/value entries are accepted. */
  function NodeStep(P: Parsers, s: NodeSlots, item: NestedMeta): Logged<NodeSlots>
  {
    match item
    case MetaItem(m) =>
      if m.NameValueMeta? then NodeKeyValue(P, m.path, m.lit, s)
      else Logged(s, [SynError(UnknownNodeMessage(PathTokens(m.path)))])
    case LitItem(_) => Logged(s, [SynError(NODE_LITERAL)])
  }

  function NodeFold(P: Parsers, attrs: seq<Attribute>): Logged<NodeSlots>
  {
    FoldAttrs(NodeMetaItems, (s, it) => NodeStep(P, s, it), NO_NODE, attrs)
  }

  /** What a field's `node` attributes say about it. */
  datatype NodeStructAttrs = NodeStructAttrs(rename: Option<string>, hasChild: bool, childName: Option<string>,
                                             childIndex: Option<string>, getValueWith: Option<string>,
                                             setValueWith: Option<string>, withChildren: Option<string>)

  /** `NodeStructAttrs::from_ast`, as a value: a field has children exactly when it names them. */
  function NodeStructSpec(P: Parsers, field: Field): (r: Logged<NodeStructAttrs>)
    ensures r.value.hasChild <==> r.value.childName.Some?
    ensures r.value.childName == NodeFold(P, field.attrs).value.childName
    ensures r.pushed == NodeFold(P, field.attrs).pushed
  {
    var f := NodeFold(P, field.attrs);
    var v := f.value;
    Logged(NodeStructAttrs(v.rename, v.childName.Some?, v.childName, v.childIndex, v.getValueWith, v.setValueWith, v.withChildren),
           f.pushed)
  }

  // ---- the slots as objects ----

  ghost function Slots(rename: AstAttr<string>, childName: AstAttr<string>, childIndex: AstAttr<string>,
                       getWith: AstAttr<string>, setWith: AstAttr<string>, withChildren: AstAttr<string>): NodeSlots
    reads rename, childName, childIndex, getWith, setWith, withChildren
  {
    NodeSlots(rename.value, childName.value, childIndex.value, getWith.value, setWith.value, withChildren.value)
  }

  /** Six slots, named for their keys, reporting to `cx`, no two the same. */
  ghost predicate SlotsFor(cx: ASTResult, rename: AstAttr<string>, childName: AstAttr<string>, childIndex: AstAttr<string>,
                           getWith: AstAttr<string>, setWith: AstAttr<string>, withChildren: AstAttr<string>)
  {
    rename.result == cx && childName.result == cx && childIndex.result == cx
    && getWith.result == cx && setWith.result == cx && withChildren.result == cx
    && rename.name == RENAME_NODE && childName.name == CHILD_NODE_NAME && childIndex.name == CHILD_NODE_INDEX
    && getWith.name == GET_NODE_VALUE_WITH && setWith.name == SET_NODE_VALUE_WITH && withChildren.name == WITH_CHILDREN
    && rename != childName && rename != childIndex && rename != getWith && rename != setWith && rename != withChildren
    && childName != childIndex && childName != getWith && childName != setWith && childName != withChildren
    && childIndex != getWith && childIndex != setWith && childIndex != withChildren
    && getWith != setWith && getWith != withChildren && setWith != withChildren
  }

  /** A path-valued key, applied to its slot. */
  method SetPath(cx: ASTResult, P: Parsers, p: Path, lit: Lit, slot: AstAttr<string>)
    requires slot.result == cx
    modifies slot, cx
    ensures slot.value == PathSlot(P, slot.name, lit, old(slot.value)).value
    ensures cx.errors == old(cx.errors) + PathSlot(P, slot.name, lit, old(slot.value)).pushed
    ensures cx.isChecked == old(cx.isChecked)
  {
    var e := ParseLitIntoExprPath(cx, P, slot.name, lit);
    if e.Ok? {
      slot.Set(PathTokens(p), e.value);
    }
  }

  /** `parse_node_keyvalue`. */
  method ParseNodeKeyValue(cx: ASTResult, P: Parsers, p: Path, lit: Lit,
                           rename: AstAttr<string>, childName: AstAttr<string>, childIndex: AstAttr<string>,
                           getWith: AstAttr<string>, setWith: AstAttr<string>, withChildren: AstAttr<string>)
    requires SlotsFor(cx, rename, childName, childIndex, getWith, setWith, withChildren)
    modifies rename, childName, childIndex, getWith, setWith, withChildren, cx
    ensures Slots(rename, childName, childIndex, getWith, setWith, withChildren)
         == NodeKeyValue(P, p, lit, old(Slots(rename, childName, childIndex, getWith, setWith, withChildren))).value
    ensures cx.errors == old(cx.errors)
         + NodeKeyValue(P, p, lit, old(Slots(rename, childName, childIndex, getWith, setWith, withChildren))).pushed
    ensures cx.isChecked == old(cx.isChecked)
  {
    if IsIdent(p, RENAME_NODE) {
      if lit.StrLit? {
        rename.Set(PathTokens(p), lit.value);
      }
    } else if IsIdent(p, CHILD_NODE_NAME) {
      if lit.StrLit? {
        childName.Set(PathTokens(p), lit.value);
      }
    } else if IsIdent(p, CHILD_NODE_INDEX) {
      if lit.IntLit? {
        childIndex.Set(PathTokens(p), lit.digits);
      }
    } else if IsIdent(p, GET_NODE_VALUE_WITH) {
      SetPath(cx, P, p, lit, getWith);
    } else if IsIdent(p, SET_NODE_VALUE_WITH) {
      SetPath(cx, P, p, lit, setWith);
    } else if IsIdent(p, WITH_CHILDREN) {
      SetPath(cx, P, p, lit, withChildren);
    } else {
      cx.ErrorSpannedBy(UnknownNodeMessage(PathCompact(p)));
    }
  }

  /** One entry of a field's `#[node(...)]`, applied to the slots. */
  method NodeItem(cx: ASTResult, P: Parsers, item: NestedMeta,
                  rename: AstAttr<string>, childName: AstAttr<string>, childIndex: AstAttr<string>,
                  getWith: AstAttr<string>, setWith: AstAttr<string>, withChildren: AstAttr<string>)
    requires SlotsFor(cx, rename, childName, childIndex, getWith, setWith, withChildren)
    modifies rename, childName, childIndex, getWith, setWith, withChildren, cx
    ensures Slots(rename, childName, childIndex, getWith, setWith, withChildren)
         == NodeStep(P, old(Slots(rename, childName, childIndex, getWith, setWith, withChildren)), item).value
    ensures cx.errors == old(cx.errors)
         + NodeStep(P, old(Slots(rename, childName, childIndex, getWith, setWith, withChildren)), item).pushed
    ensures cx.isChecked == old(cx.isChecked)
  {
    match item
    case MetaItem(m) =>
      if m.NameValueMeta? {
        ParseNodeKeyValue(cx, P, m.path, m.lit, rename, childName, childIndex, getWith, setWith, withChildren);
      } else {
        cx.ErrorSpannedBy(UnknownNodeMessage(PathTokens(m.path)));
      }
    case LitItem(_) =>
      cx.ErrorSpannedBy(NODE_LITERAL);
  }

  /** The entries of one `#[node(...)]` attribute, applied to the slots in order. */
  method NodeItems(cx: ASTResult, P: Parsers, items: seq<NestedMeta>,
                   rename: AstAttr<string>, childName: AstAttr<string>, childIndex: AstAttr<string>,
                   getWith: AstAttr<string>, setWith: AstAttr<string>, withChildren: AstAttr<string>)
    requires SlotsFor(cx, rename, childName, childIndex, getWith, setWith, withChildren)
    modifies rename, childName, childIndex, getWith, setWith, withChildren, cx
    ensures Slots(rename, childName, childIndex, getWith, setWith, withChildren)
         == FoldItems((s, it) => NodeStep(P, s, it), old(Slots(rename, childName, childIndex, getWith, setWith, withChildren)), items).value
    ensures cx.errors == old(cx.errors)
         + FoldItems((s, it) => NodeStep(P, s, it), old(Slots(rename, childName, childIndex, getWith, setWith, withChildren)), items).pushed
    ensures cx.isChecked == old(cx.isChecked)
  {
    ghost var step := (s, it) => NodeStep(P, s, it);
    ghost var s0 := Slots(rename, childName, childIndex, getWith, setWith, withChildren);
    var j := 0;
    while j < |items|
      invariant 0 <= j <= |items|
      invariant Slots(rename, childName, childIndex, getWith, setWith, withChildren) == FoldItems(step, s0, items[..j]).value
      invariant cx.errors == old(cx.errors) + FoldItems(step, s0, items[..j]).pushed
      invariant cx.isChecked == old(cx.isChecked)
    {
      ghost var prev := FoldItems(step, s0, items[..j]);
      NodeItem(cx, P, items[j], rename, childName, childIndex, getWith, setWith, withChildren);
      ghost var last := NodeStep(P, prev.value, items[j]);
      assert items[..j + 1][..j] == items[..j];
      assert FoldItems(step, s0, items[..j + 1]) == Logged(last.value, prev.pushed + last.pushed);
      AppendAssoc(old(cx.errors), prev.pushed, last.pushed);
      j := j + 1;
    }
    assert items[..j] == items;
  }

  /** One attribute of a field: its `node` entries, if any, applied to the slots. */
  method NodeAttribute(cx: ASTResult, P: Parsers, a: Attribute,
                       rename: AstAttr<string>, childName: AstAttr<string>, childIndex: AstAttr<string>,
                       getWith: AstAttr<string>, setWith: AstAttr<string>, withChildren: AstAttr<string>)
    requires SlotsFor(cx, rename, childName, childIndex, getWith, setWith, withChildren)
    modifies rename, childName, childIndex, getWith, setWith, withChildren, cx
    ensures Slots(rename, childName, childIndex, getWith, setWith, withChildren)
         == FoldAttr(NodeMetaItems, (s, it) => NodeStep(P, s, it), old(Slots(rename, childName, childIndex, getWith, setWith, withChildren)), a).value
    ensures cx.errors == old(cx.errors)
         + FoldAttr(NodeMetaItems, (s, it) => NodeStep(P, s, it), old(Slots(rename, childName, childIndex, getWith, setWith, withChildren)), a).pushed
    ensures cx.isChecked == old(cx.isChecked)
  {
    var m := GetNodeMetaItems(cx, a);
    NodeItems(cx, P, if m.Ok? then m.value else [], rename, childName, childIndex, getWith, setWith, withChildren);
  }

  /** A field's attributes, in order, applied to the slots. */
  method NodeAttributes(cx: ASTResult, P: Parsers, attrs: seq<Attribute>,
                        rename: AstAttr<string>, childName: AstAttr<string>, childIndex: AstAttr<string>,
                        getWith: AstAttr<string>, setWith: AstAttr<string>, withChildren: AstAttr<string>)
    requires SlotsFor(cx, rename, childName, childIndex, getWith, setWith, withChildren)
    requires Slots(rename, childName, childIndex, getWith, setWith, withChildren) == NO_NODE
    modifies rename, childName, childIndex, getWith, setWith, withChildren, cx
    ensures Slots(rename, childName, childIndex, getWith, setWith, withChildren) == NodeFold(P, attrs).value
    ensures cx.errors == old(cx.errors) + NodeFold(P, attrs).pushed
    ensures cx.isChecked == old(cx.isChecked)
  {
    var i := 0;
    while i < |attrs|
      invariant 0 <= i <= |attrs|
      invariant Slots(rename, childName, childIndex, getWith, setWith, withChildren) == NodeFold(P, attrs[..i]).value
      invariant cx.errors == old(cx.errors) + NodeFold(P, attrs[..i]).pushed
      invariant cx.isChecked == old(cx.isChecked)
    {
      ghost var prev := NodeFold(P, attrs[..i]);
      NodeAttribute(cx, P, attrs[i], rename, childName, childIndex, getWith, setWith, withChildren);
      ghost var last := FoldAttr(NodeMetaItems, (s, it) => NodeStep(P, s, it), prev.value, attrs[i]);
      assert attrs[..i + 1][..i] == attrs[..i];
      assert NodeFold(P, attrs[..i + 1]) == Logged(last.value, prev.pushed + last.pushed);
      AppendAssoc(old(cx.errors), prev.pushed, last.pushed);
      i := i + 1;
    }
    assert attrs[..i] == attrs;
  }

  /** `NodeStructAttrs::from_ast`: reads every `#[node(...)]` entry of a field, in order, pushing errors as they occur. */
  method NodeStructFromAst(cx: ASTResult, P: Parsers, position: nat, field: Field) returns (r: NodeStructAttrs)
    modifies cx
    ensures r == NodeStructSpec(P, field).value
    ensures cx.errors == old(cx.errors) + NodeStructSpec(P, field).pushed
    ensures cx.isChecked == old(cx.isChecked)
  {
    var rename := new AstAttr<string>(cx, RENAME_NODE);
    var childName := new AstAttr<string>(cx, CHILD_NODE_NAME);
    var childIndex := new AstAttr<string>(cx, CHILD_NODE_INDEX);
    var getWith := new AstAttr<string>(cx, GET_NODE_VALUE_WITH);
    var setWith := new AstAttr<string>(cx, SET_NODE_VALUE_WITH);
    var withChildren := new AstAttr<string>(cx, WITH_CHILDREN);
    NodeAttributes(cx, P, field.attrs, rename, childName, childIndex, getWith, setWith, withChildren);
    var childNameValue := childName.Get();
    r := NodeStructAttrs(rename.Get(), childNameValue.Some?, childNameValue, childIndex.Get(),
                         getWith.Get(), setWith.Get(), withChildren.Get());
  }

  // ---- properties ----

  /** A `child_name = "..."` entry. */
  predicate IsChildNameEntry(item: NestedMeta)
  {
    item.MetaItem? && item.meta.NameValueMeta? && IsIdent(item.meta.path, CHILD_NODE_NAME) && item.meta.lit.StrLit?
  }

  /** The value of the first `child_name = "..."` entry, if any. */
  function FirstChildName(items: seq<NestedMeta>): (r: Option<string>)
    ensures r.Some? <==> exists i :: 0 <= i < |items| && IsChildNameEntry(items[i])
    decreases |items|
  {
    if items == [] then None
    else
      var init := items[..|items| - 1];
      var first := FirstChildName(init);
      assert forall i :: 0 <= i < |init| ==> init[i] == items[i];
      if first.Some? then first
      else if IsChildNameEntry(items[|items| - 1]) then Some(items[|items| - 1].meta.lit.value)
      else None
  }

  /**
   * The child name is the one given by the first `child_name = "..."`
   * entry (a later one is a duplicate and is dropped), unless it was
   * already set.
   */
  lemma {:induction false} ChildNameIsFirst(P: Parsers, s: NodeSlots, items: seq<NestedMeta>)
    ensures FoldItems((s, it) => NodeStep(P, s, it), s, items).value.childName
         == if s.childName.Some? then s.childName else FirstChildName(items)
    decreases |items|
  {
    if items != [] {
      ChildNameIsFirst(P, s, items[..|items| - 1]);
    }
  }

  /** The entries of a single `#[node(...)]` on a field. */
  function NodeField(entries: seq<NestedMeta>): Field
  {
    Field(Some("f"), [Attribute([NODE_ATTRS], Ok(ListMeta([NODE_ATTRS], entries)))], OtherTy("T"))
  }

  lemma NodeFieldEntries(P: Parsers, entries: seq<NestedMeta>)
    ensures NodeFold(P, NodeField(entries).attrs) == FoldItems((s, it) => NodeStep(P, s, it), NO_NODE, entries)
  {
    FoldAttrsOne(NodeMetaItems, (s, it) => NodeStep(P, s, it), NO_NODE, NodeField(entries).attrs[0]);
  }

  /** A field has children exactly when one of its `#[node(...)]` entries is `child_name = "..."`. */
  lemma HasChildIffChildName(P: Parsers, entries: seq<NestedMeta>)
    ensures NodeStructSpec(P, NodeField(entries)).value.hasChild <==> exists i :: 0 <= i < |entries| && IsChildNameEntry(entries[i])
    ensures NodeStructSpec(P, NodeField(entries)).value.childName == FirstChildName(entries)
  {
    NodeFieldEntries(P, entries);
    ChildNameIsFirst(P, NO_NODE, entries);
  }

  /** Repeating `rename` keeps the first name and reports a duplicate. */
  lemma RenameTwice(P: Parsers, a: string, b: string)
    ensures
      var r := NodeStructSpec(P, NodeField([MetaItem(NameValueMeta([RENAME_NODE], StrLit(a))), MetaItem(NameValueMeta([RENAME_NODE], StrLit(b)))]));
      r.value.rename == Some(a) && r.pushed == [SynError(DuplicateMessage(RENAME_NODE))]
  {
    var e := [MetaItem(NameValueMeta([RENAME_NODE], StrLit(a))), MetaItem(NameValueMeta([RENAME_NODE], StrLit(b)))];
    NodeFieldEntries(P, e);
    FoldItemsTwo((s, it) => NodeStep(P, s, it), NO_NODE, e[0], e[1]);
  }

  /** `rename` and `child_name` ignore a non-string literal, and `child_index` a non-integer one, without an error. */
  lemma WrongLiteralsIgnored(P: Parsers, notStr: Lit, notInt: Lit)
    requires !notStr.StrLit? && !notInt.IntLit?
    ensures NodeStep(P, NO_NODE, MetaItem(NameValueMeta([RENAME_NODE], notStr))) == Logged(NO_NODE, [])
    ensures NodeStep(P, NO_NODE, MetaItem(NameValueMeta([CHILD_NODE_NAME], notStr))) == Logged(NO_NODE, [])
    ensures NodeStep(P, NO_NODE, MetaItem(NameValueMeta([CHILD_NODE_INDEX], notInt))) == Logged(NO_NODE, [])
  {
  }

  /** `child_index = N` records the digits, and `with_children = "f"` the path when it parses. */
  lemma IndexAndChildren(P: Parsers, digits: string, f: string)
    requires P.parsesAsExprPath(f)
    ensures NodeStep(P, NO_NODE, MetaItem(NameValueMeta([CHILD_NODE_INDEX], IntLit(digits)))) == Logged(NO_NODE.(childIndex := Some(digits)), [])
    ensures NodeStep(P, NO_NODE, MetaItem(NameValueMeta([WITH_CHILDREN], StrLit(f)))) == Logged(NO_NODE.(withChildren := Some(f)), [])
  {
  }

  /** An unknown key is reported with its compact path and changes nothing. */
  lemma UnknownNodeKey(P: Parsers, key: Path, lit: Lit)
    requires !IsIdent(key, RENAME_NODE) && !IsIdent(key, CHILD_NODE_NAME) && !IsIdent(key, CHILD_NODE_INDEX)
    requires !IsIdent(key, GET_NODE_VALUE_WITH) && !IsIdent(key, SET_NODE_VALUE_WITH) && !IsIdent(key, WITH_CHILDREN)
    ensures NodeStep(P, NO_NODE, MetaItem(NameValueMeta(key, lit))) == Logged(NO_NODE, [SynError(UnknownNodeMessage(PathCompact(key)))])
  {
  }

  /** A bare word is an unknown attribute; a bare literal is unexpected. */
  lemma WordsAndLiterals(P: Parsers, word: Path, nested: seq<NestedMeta>, lit: Lit)
    ensures NodeStep(P, NO_NODE, MetaItem(PathMeta(word))) == Logged(NO_NODE, [SynError(UnknownNodeMessage(PathTokens(word)))])
    ensures NodeStep(P, NO_NODE, MetaItem(ListMeta(word, nested))) == Logged(NO_NODE, [SynError(UnknownNodeMessage(PathTokens(word)))])
    ensures NodeStep(P, NO_NODE, LitItem(lit)) == Logged(NO_NODE, [SynError(NODE_LITERAL)])
  {
  }

  /** A `#[node]` or `#[node = ...]` that is not a list contributes nothing and reports nothing. */
  lemma NonListNodeIsSilent(P: Parsers, m: Meta)
    requires !m.ListMeta?
    ensures NodeStructSpec(P, Field(Some("f"), [Attribute([NODE_ATTRS], Ok(m))], OtherTy("T")))
         == Logged(NodeStructAttrs(None, false, None, None, None, None, None), [])
  {
    FoldAttrsOne(NodeMetaItems, (s, it) => NodeStep(P, s, it), NO_NODE, Attribute([NODE_ATTRS], Ok(m)));
  }

  /**
   * The keys `get_node_value_with` and `set_node_value_with` are not the
   * keys the attribute reads (`get_value_with` and `set_value_with`):
   * they are reported as unknown and set nothing.
   */
  lemma LongValueKeysUnknown(P: Parsers, f: string)
    ensures
      var r := NodeStructSpec(P, NodeField([MetaItem(NameValueMeta(["get_node_value_with"], StrLit(f)))]));
      r.value.getValueWith.None? && r.pushed == [SynError(UnknownNodeMessage("get_node_value_with"))]
    ensures
      var r := NodeStructSpec(P, NodeField([MetaItem(NameValueMeta(["set_node_value_with"], StrLit(f)))]));
      r.value.setValueWith.None? && r.pushed == [SynError(UnknownNodeMessage("set_node_value_with"))]
  {
    var e1 := [MetaItem(NameValueMeta(["get_node_value_with"], StrLit(f)))];
    NodeFieldEntries(P, e1);
    assert e1[..0] == [];
    var e2 := [MetaItem(NameValueMeta(["set_node_value_with"], StrLit(f)))];
    NodeFieldEntries(P, e2);
    assert e2[..0] == [];
    assert PathCompact(["get_node_value_with"]) == "get_node_value_with";
    assert PathCompact(["set_node_value_with"]) == "set_node_value_with";
  }
}
