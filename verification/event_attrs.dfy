/**
 * The event attributes of an enum: `#[event_err = "E"]` on the enum
 * names the error type of every variant, and `#[event(...)]` on a
 * variant gives its request and response types and whether it is
 * ignored. A variant's integer discriminant is its event value.
 */
module EventAttrs {
  import opened Wrappers
  import opened Ctxt
  import opened Syn
  import opened PbAttrs

  /** What a variant's event attributes say: request and response paths, error type, and whether it is ignored. */
  datatype EventAttrs = EventAttrs(input: Option<string>, output: Option<string>, errorTy: Option<string>, ignore: bool)

  const NO_EVENT := EventAttrs(None, None, None, false)

  /** A variant's event description: the enum's name, the variant's, its discriminant digits ("" if none) and its attributes. */
  datatype EventEnumAttrs = EventEnumAttrs(enumName: string, enumItemName: string, value: string, eventAttrs: EventAttrs)

  const ONLY_INT_DISCRIMINANT := "Only integer discriminant is supported for event variant"
  const CANNOT_PARSE_EVENT_ERR := "Cannot parse #[event_err=\"...\"] from this attribute"
  const EVENT_LITERAL := "Unexpected literal in #[event(...)]"
  const EVENT_ITEM := "Unexpected item in #[event(...)]"
  const EXPECTED_EVENT_LIST := "expected #[event(...)]"
  const EVENT_MUST_BE_STR := "attribute must be str, e.g. #[event(xx = \"...\")]"

  /** A path's debug rendering (approximated by its token text). */
  function PathDebug(p: Path): string
  {
    PathTokens(p)
  }

  // ---- the discriminant ----

  /** A variant's event value: the digits of an integer-literal discriminant; any other literal is an error. */
  function DiscriminantValue(d: Option<Expr>): (r: Logged<string>)
    ensures d == None ==> r == Logged("", [])
    ensures d.Some? && d.value.LitExpr? && d.value.lit.IntLit? ==> r == Logged(d.value.lit.digits, [])
    ensures d.Some? && d.value.LitExpr? && !d.value.lit.IntLit? ==> r == Logged("", [SynError(ONLY_INT_DISCRIMINANT)])
    ensures d.Some? && !d.value.LitExpr? ==> r == Logged("", [])
  {
    match d
    case None => Logged("", [])
    case Some(LitExpr(IntLit(digits))) => Logged(digits, [])
    case Some(LitExpr(_)) => Logged("", [SynError(ONLY_INT_DISCRIMINANT)])
    case Some(OtherExpr(_)) => Logged("", [])
  }

  // ---- enum-level #[event_err = "..."] ----

  /** An enum attribute any of whose path segments is `event_err`: a string value sets the error type, anything else is an error. */
  function EventErrStep(s: EventAttrs, a: Attribute): Logged<EventAttrs>
  {
    if EVENT_ERR !in a.path then Logged(s, [])
    else match a.parsed
      case Ok(NameValueMeta(_, StrLit(v))) => Logged(s.(errorTy := Some(v)), [])
      case Ok(NameValueMeta(_, lit)) => Logged(s, [SynError("#[event_err] must be string literal, found: " + DebugLit(lit))])
      case Err(e) => Logged(s, [SynError(e)])
      case Ok(_) => Logged(s, [SynError(CANNOT_PARSE_EVENT_ERR)])
  }

  function EventErrFold(s: EventAttrs, attrs: seq<Attribute>): Logged<EventAttrs>
    decreases |attrs|
  {
    if attrs == [] then Logged(s, [])
    else
      var prev := EventErrFold(s, attrs[..|attrs| - 1]);
      var last := EventErrStep(prev.value, attrs[|attrs| - 1]);
      Logged(last.value, prev.pushed + last.pushed)
  }

  // ---- variant-level #[event(...)] ----

  /** The entries of an `#[event(...)]` attribute; other attributes have none; an `event` that is not a list is an error. */
  function EventMetaItems(attr: Attribute): (r: Logged<Result<seq<NestedMeta>, ()>>)
    ensures !IsIdent(attr.path, EVENT) ==> r == Logged(Ok([]), [])
    ensures r.value.Ok? ==> r.pushed == []
    ensures r.value.Err? ==> 1 <= |r.pushed| <= 2
  {
    if !IsIdent(attr.path, EVENT) then Logged(Ok([]), [])
    else match attr.parsed
      case Ok(ListMeta(_, nested)) => Logged(Ok(nested), [])
      case Ok(_) => Logged(Err(()), [SynError(EXPECTED_EVENT_LIST)])
      case Err(e) => Logged(Err(()), [SynError(EVENT_MUST_BE_STR), SynError(e)])
  }

  /** Every variant attribute's entries, collected (all their errors first) with the attribute they came from. */
  function CollectEventItems(attrs: seq<Attribute>): (r: Logged<seq<(Attribute, seq<NestedMeta>)>>)
    ensures |r.value| <= |attrs|
    decreases |attrs|
  {
    if attrs == [] then Logged([], [])
    else
      var prev := CollectEventItems(attrs[..|attrs| - 1]);
      var a := attrs[|attrs| - 1];
      var m := EventMetaItems(a);
      Logged(prev.value + (if m.value.Ok? then [(a, m.value.value)] else []), prev.pushed + m.pushed)
  }

  /** `key = "..."`: the value must be a string; `input` and `output` take a path, replacing any earlier one; other keys are errors. */
  function EventKeyValue(P: Parsers, p: Path, lit: Lit, s: EventAttrs): Logged<EventAttrs>
  {
    if !lit.StrLit? then Logged(s, [SynError("Expected string literal, found: " + DebugLit(lit))])
    else if IsIdent(p, EVENT_INPUT) then
      if P.parsesAsPath(lit.value) then Logged(s.(input := Some(lit.value)), [])
      else Logged(s, [SynError("Failed to parse request path: " + DebugStr(lit.value))])
    else if IsIdent(p, EVENT_OUTPUT) then
      if P.parsesAsPath(lit.value) then Logged(s.(output := Some(lit.value)), [])
      else Logged(s, [SynError("Failed to parse response path: " + DebugStr(lit.value))])
    else Logged(s, [SynError("Unknown key in #[event(...)] : " + PathDebug(p))])
  }

  /** One entry of an `#[event(...)]` on attribute `a`. */
  function EventItemStep(P: Parsers, a: Attribute, s: EventAttrs, item: NestedMeta): Logged<EventAttrs>
  {
    match item
    case MetaItem(NameValueMeta(p, lit)) => EventKeyValue(P, p, lit, s)
    case MetaItem(PathMeta(p)) =>
      if IsIdent(p, EVENT_IGNORE) && IsIdent(a.path, EVENT) then Logged(s.(ignore := true), []) else Logged(s, [])
    case LitItem(_) => Logged(s, [SynError(EVENT_LITERAL)])
    case MetaItem(ListMeta(_, _)) => Logged(s, [SynError(EVENT_ITEM)])
  }

  /** The collected entries, attribute by attribute, in order. */
  function EventGroupsFold(P: Parsers, s: EventAttrs, groups: seq<(Attribute, seq<NestedMeta>)>): Logged<EventAttrs>
    decreases |groups|
  {
    if groups == [] then Logged(s, [])
    else
      var prev := EventGroupsFold(P, s, groups[..|groups| - 1]);
      var g := groups[|groups| - 1];
      var last := FoldItems((s, it) => EventItemStep(P, g.0, s, it), prev.value, g.1);
      Logged(last.value, prev.pushed + last.pushed)
  }

  /** `get_event_attrs_from`, as a value: the enum's `event_err`, then the variant's entries collected, then applied. */
  function EventAttrsSpec(P: Parsers, variantAttrs: seq<Attribute>, enumAttrs: seq<Attribute>): (r: Logged<EventAttrs>)
    ensures r.value.errorTy == EventErrFold(NO_EVENT, enumAttrs).value.errorTy
    ensures var e := EventErrFold(NO_EVENT, enumAttrs).pushed; |e| <= |r.pushed| && r.pushed[..|e|] == e
  {
    var err := EventErrFold(NO_EVENT, enumAttrs);
    var col := CollectEventItems(variantAttrs);
    GroupsKeepErrorTy(P, err.value, col.value);
    var items := EventGroupsFold(P, err.value, col.value);
    Logged(items.value, err.pushed + col.pushed + items.pushed)
  }

  /** `EventEnumAttrs::from_ast`, as a value: the discriminant's error, if any, comes before the attributes'. */
  function EventEnumSpec(P: Parsers, enumIdent: string, variant: Variant, enumAttrs: seq<Attribute>): (r: Logged<EventEnumAttrs>)
    ensures r.value.enumName == enumIdent && r.value.enumItemName == variant.ident
    ensures r.value.eventAttrs.errorTy == EventErrFold(NO_EVENT, enumAttrs).value.errorTy
    ensures var d := DiscriminantValue(variant.discriminant).pushed; |d| <= |r.pushed| && r.pushed[..|d|] == d
  {
    var v := DiscriminantValue(variant.discriminant);
    var ea := EventAttrsSpec(P, variant.attrs, enumAttrs);
    Logged(EventEnumAttrs(enumIdent, variant.ident, v.value, ea.value), v.pushed + ea.pushed)
  }

  /** `event_error`: the enum's error type, which must have been given. */
  function EventError(e: EventEnumAttrs): (r: string)
    requires e.eventAttrs.errorTy.Some?
    ensures Some(r) == e.eventAttrs.errorTy
  {
    e.eventAttrs.errorTy.value
  }

  // ---- the parsing methods ----

  /** The enum-level loop over `#[event_err]` attributes. */
  method ParseEventErr(cx: ASTResult, enumAttrs: seq<Attribute>, ea0: EventAttrs) returns (ea: EventAttrs)
    modifies cx
    ensures ea == EventErrFold(ea0, enumAttrs).value
    ensures cx.errors == old(cx.errors) + EventErrFold(ea0, enumAttrs).pushed
    ensures cx.isChecked == old(cx.isChecked)
  {
    ea := ea0;
    var i := 0;
    while i < |enumAttrs|
      invariant 0 <= i <= |enumAttrs|
      invariant ea == EventErrFold(ea0, enumAttrs[..i]).value
      invariant cx.errors == old(cx.errors) + EventErrFold(ea0, enumAttrs[..i]).pushed
      invariant cx.isChecked == old(cx.isChecked)
    {
      ghost var prev := EventErrFold(ea0, enumAttrs[..i]);
      var a := enumAttrs[i];
      if EVENT_ERR in a.path {
        match a.parsed {
          case Ok(m) =>
            if m.NameValueMeta? {
              if m.lit.StrLit? {
                ea := ea.(errorTy := Some(m.lit.value));
              } else {
                cx.PushSpanned("#[event_err] must be string literal, found: " + DebugLit(m.lit));
              }
            } else {
              cx.PushSpanned(CANNOT_PARSE_EVENT_ERR);
            }
          case Err(e) =>
            cx.PushError(SynError(e));
        }
      }
      ghost var last := EventErrStep(prev.value, a);
      assert enumAttrs[..i + 1][..i] == enumAttrs[..i];
      AppendAssoc(old(cx.errors), prev.pushed, last.pushed);
      i := i + 1;
    }
    assert enumAttrs[..i] == enumAttrs;
  }

  /** `get_event_meta_items`. */
  method GetEventMetaItems(cx: ASTResult, attr: Attribute) returns (r: Result<seq<NestedMeta>, ()>)
    modifies cx
    ensures r == EventMetaItems(attr).value
    ensures cx.errors == old(cx.errors) + EventMetaItems(attr).pushed
    ensures cx.isChecked == old(cx.isChecked)
  {
    if !IsIdent(attr.path, EVENT) {
      return Ok([]);
    }
    match attr.parsed
    case Ok(m) =>
      if m.ListMeta? {
        r := Ok(m.nested);
      } else {
        cx.PushSpanned(EXPECTED_EVENT_LIST);
        r := Err(());
      }
    case Err(e) =>
      cx.PushSpanned(EVENT_MUST_BE_STR);
      cx.PushSynError(SynError(e));
      r := Err(());
  }

  /** The collecting pass over the variant's attributes. */
  method CollectItems(cx: ASTResult, attrs: seq<Attribute>) returns (groups: seq<(Attribute, seq<NestedMeta>)>)
    modifies cx
    ensures groups == CollectEventItems(attrs).value
    ensures cx.errors == old(cx.errors) + CollectEventItems(attrs).pushed
    ensures cx.isChecked == old(cx.isChecked)
  {
    groups := [];
    var i := 0;
    while i < |attrs|
      invariant 0 <= i <= |attrs|
      invariant groups == CollectEventItems(attrs[..i]).value
      invariant cx.errors == old(cx.errors) + CollectEventItems(attrs[..i]).pushed
      invariant cx.isChecked == old(cx.isChecked)
    {
      ghost var prev := CollectEventItems(attrs[..i]);
      var m := GetEventMetaItems(cx, attrs[i]);
      if m.Ok? {
        groups := groups + [(attrs[i], m.value)];
      }
      assert attrs[..i + 1][..i] == attrs[..i];
      AppendAssoc(old(cx.errors), prev.pushed, EventMetaItems(attrs[i]).pushed);
      i := i + 1;
    }
    assert attrs[..i] == attrs;
  }

  /** `parse_event_keyvalue`. */
  method ParseEventKeyValue(cx: ASTResult, P: Parsers, p: Path, lit: Lit, ea0: EventAttrs) returns (ea: EventAttrs)
    modifies cx
    ensures ea == EventKeyValue(P, p, lit, ea0).value
    ensures cx.errors == old(cx.errors) + EventKeyValue(P, p, lit, ea0).pushed
    ensures cx.isChecked == old(cx.isChecked)
  {
    ea := ea0;
    if !lit.StrLit? {
      cx.PushSpanned("Expected string literal, found: " + DebugLit(lit));
      return;
    }
    if IsIdent(p, EVENT_INPUT) {
      if P.parsesAsPath(lit.value) {
        ea := ea.(input := Some(lit.value));
      } else {
        cx.PushSpanned("Failed to parse request path: " + DebugStr(lit.value));
      }
    } else if IsIdent(p, EVENT_OUTPUT) {
      if P.parsesAsPath(lit.value) {
        ea := ea.(output := Some(lit.value));
      } else {
        cx.PushSpanned("Failed to parse response path: " + DebugStr(lit.value));
      }
    } else {
      cx.PushSpanned("Unknown key in #[event(...)] : " + PathDebug(p));
    }
  }

  /** The entries of one collected attribute, applied in order. */
  method ApplyEventItems(cx: ASTResult, P: Parsers, a: Attribute, items: seq<NestedMeta>, ea0: EventAttrs) returns (ea: EventAttrs)
    modifies cx
    ensures ea == FoldItems((s, it) => EventItemStep(P, a, s, it), ea0, items).value
    ensures cx.errors == old(cx.errors) + FoldItems((s, it) => EventItemStep(P, a, s, it), ea0, items).pushed
    ensures cx.isChecked == old(cx.isChecked)
  {
    ghost var step := (s, it) => EventItemStep(P, a, s, it);
    ea := ea0;
    var j := 0;
    while j < |items|
      invariant 0 <= j <= |items|
      invariant ea == FoldItems(step, ea0, items[..j]).value
      invariant cx.errors == old(cx.errors) + FoldItems(step, ea0, items[..j]).pushed
      invariant cx.isChecked == old(cx.isChecked)
    {
      ghost var prev := FoldItems(step, ea0, items[..j]);
      match items[j] {
        case MetaItem(m) =>
          match m {
            case NameValueMeta(p, lit) => ea := ParseEventKeyValue(cx, P, p, lit, ea);
            case PathMeta(p) =>
              if IsIdent(p, EVENT_IGNORE) && IsIdent(a.path, EVENT) {
                ea := ea.(ignore := true);
              }
            case ListMeta(_, _) => cx.PushSpanned(EVENT_ITEM);
          }
        case LitItem(_) => cx.PushSpanned(EVENT_LITERAL);
      }
      ghost var last := EventItemStep(P, a, prev.value, items[j]);
      assert items[..j + 1][..j] == items[..j];
      assert FoldItems(step, ea0, items[..j + 1]) == Logged(last.value, prev.pushed + last.pushed);
      AppendAssoc(old(cx.errors), prev.pushed, last.pushed);
      j := j + 1;
    }
    assert items[..j] == items;
  }

  /** The collected attributes' entries, attribute by attribute. */
  method ApplyEventGroups(cx: ASTResult, P: Parsers, groups: seq<(Attribute, seq<NestedMeta>)>, ea0: EventAttrs) returns (ea: EventAttrs)
    modifies cx
    ensures ea == EventGroupsFold(P, ea0, groups).value
    ensures cx.errors == old(cx.errors) + EventGroupsFold(P, ea0, groups).pushed
    ensures cx.isChecked == old(cx.isChecked)
  {
    ea := ea0;
    var i := 0;
    while i < |groups|
      invariant 0 <= i <= |groups|
      invariant ea == EventGroupsFold(P, ea0, groups[..i]).value
      invariant cx.errors == old(cx.errors) + EventGroupsFold(P, ea0, groups[..i]).pushed
      invariant cx.isChecked == old(cx.isChecked)
    {
      ghost var prev := EventGroupsFold(P, ea0, groups[..i]);
      ea := ApplyEventItems(cx, P, groups[i].0, groups[i].1, ea);
      assert groups[..i + 1][..i] == groups[..i];
      AppendAssoc(old(cx.errors), prev.pushed, FoldItems((s, it) => EventItemStep(P, groups[i].0, s, it), prev.value, groups[i].1).pushed);
      i := i + 1;
    }
    assert groups[..i] == groups;
  }

  /** `get_event_attrs_from`: the enum's `event_err`, then the variant's `#[event(...)]` entries. */
  method GetEventAttrsFrom(cx: ASTResult, P: Parsers, variantAttrs: seq<Attribute>, enumAttrs: seq<Attribute>) returns (ea: EventAttrs)
    modifies cx
    ensures ea == EventAttrsSpec(P, variantAttrs, enumAttrs).value
    ensures cx.errors == old(cx.errors) + EventAttrsSpec(P, variantAttrs, enumAttrs).pushed
    ensures cx.isChecked == old(cx.isChecked)
  {
    ea := ParseEventErr(cx, enumAttrs, NO_EVENT);
    ghost var start := ea;
    var groups := CollectItems(cx, variantAttrs);
    ea := ApplyEventGroups(cx, P, groups, ea);
    AppendAssoc(old(cx.errors), EventErrFold(NO_EVENT, enumAttrs).pushed, CollectEventItems(variantAttrs).pushed);
    AppendAssoc(old(cx.errors) + EventErrFold(NO_EVENT, enumAttrs).pushed, CollectEventItems(variantAttrs).pushed,
                EventGroupsFold(P, start, groups).pushed);
  }

  /** `EventEnumAttrs::from_ast`. */
  method EventEnumFromAst(cx: ASTResult, P: Parsers, enumIdent: string, variant: Variant, enumAttrs: seq<Attribute>)
    returns (r: EventEnumAttrs)
    modifies cx
    ensures r == EventEnumSpec(P, enumIdent, variant, enumAttrs).value
    ensures cx.errors == old(cx.errors) + EventEnumSpec(P, enumIdent, variant, enumAttrs).pushed
    ensures cx.isChecked == old(cx.isChecked)
  {
    var value := "";
    if variant.discriminant.Some? && variant.discriminant.value.LitExpr? {
      var lit := variant.discriminant.value.lit;
      if lit.IntLit? {
        value := lit.digits;
      } else {
        cx.PushSpanned(ONLY_INT_DISCRIMINANT);
      }
    }
    ghost var mid := cx.errors;
    var ea := GetEventAttrsFrom(cx, P, variant.attrs, enumAttrs);
    AppendAssoc(old(cx.errors), DiscriminantValue(variant.discriminant).pushed, EventAttrsSpec(P, variant.attrs, enumAttrs).pushed);
    r := EventEnumAttrs(enumIdent, variant.ident, value, ea);
  }

  // ---- properties ----

  /** Variant entries never touch the error type. */
  lemma {:induction false} ItemsKeepErrorTy(P: Parsers, a: Attribute, s: EventAttrs, items: seq<NestedMeta>)
    ensures FoldItems((s, it) => EventItemStep(P, a, s, it), s, items).value.errorTy == s.errorTy
    decreases |items|
  {
    if items != [] {
      ItemsKeepErrorTy(P, a, s, items[..|items| - 1]);
    }
  }

  lemma {:induction false} GroupsKeepErrorTy(P: Parsers, s: EventAttrs, groups: seq<(Attribute, seq<NestedMeta>)>)
    ensures EventGroupsFold(P, s, groups).value.errorTy == s.errorTy
    decreases |groups|
  {
    if groups != [] {
      var prev := EventGroupsFold(P, s, groups[..|groups| - 1]);
      GroupsKeepErrorTy(P, s, groups[..|groups| - 1]);
      var g := groups[|groups| - 1];
      ItemsKeepErrorTy(P, g.0, prev.value, g.1);
    }
  }

  /** Every variant of an enum gets the same error type: the one the enum's attributes give, whatever the variant's own attributes. */
  lemma ErrorTyFromEnumOnly(P: Parsers, v1: Variant, v2: Variant, enumIdent: string, enumAttrs: seq<Attribute>)
    ensures EventEnumSpec(P, enumIdent, v1, enumAttrs).value.eventAttrs.errorTy
         == EventErrFold(NO_EVENT, enumAttrs).value.errorTy
         == EventEnumSpec(P, enumIdent, v2, enumAttrs).value.eventAttrs.errorTy
  {
    GroupsKeepErrorTy(P, EventErrFold(NO_EVENT, enumAttrs).value, CollectEventItems(v1.attrs).value);
    GroupsKeepErrorTy(P, EventErrFold(NO_EVENT, enumAttrs).value, CollectEventItems(v2.attrs).value);
  }

  /** `#[event_err = "E"]` gives error type `E`; a non-string value is reported and gives none. */
  lemma EventErrValue(e: string, lit: Lit)
    requires !lit.StrLit?
    ensures EventErrFold(NO_EVENT, [Attribute([EVENT_ERR], Ok(NameValueMeta([EVENT_ERR], StrLit(e))))]).value.errorTy == Some(e)
    ensures EventErrFold(NO_EVENT, [Attribute([EVENT_ERR], Ok(NameValueMeta([EVENT_ERR], lit)))])
         == Logged(NO_EVENT, [SynError("#[event_err] must be string literal, found: " + DebugLit(lit))])
  {
    var a1 := [Attribute([EVENT_ERR], Ok(NameValueMeta([EVENT_ERR], StrLit(e))))];
    assert a1[..0] == [];
    var a2 := [Attribute([EVENT_ERR], Ok(NameValueMeta([EVENT_ERR], lit)))];
    assert a2[..0] == [];
  }

  /** A variant carrying a single `#[event(...)]`. */
  function EventVariant(entries: seq<NestedMeta>, d: Option<Expr>): Variant
  {
    Variant("A", [Attribute([EVENT], Ok(ListMeta([EVENT], entries)))], Unit, d)
  }

  /** A single `#[event(...)]` on a variant of an enum without attributes is its entries, folded. */
  lemma EventVariantEntries(P: Parsers, entries: seq<NestedMeta>, d: Option<Expr>)
    ensures
      var a := Attribute([EVENT], Ok(ListMeta([EVENT], entries)));
      EventAttrsSpec(P, EventVariant(entries, d).attrs, []) == FoldItems((s, it) => EventItemStep(P, a, s, it), NO_EVENT, entries)
  {
    var a := Attribute([EVENT], Ok(ListMeta([EVENT], entries)));
    assert [a][..0] == [];
    assert EventMetaItems(a) == Logged(Ok(entries), []);
    assert CollectEventItems([a]) == Logged([] + [(a, entries)], [] + []);
    assert [(a, entries)][..0] == [];
    var f := FoldItems((s, it) => EventItemStep(P, a, s, it), NO_EVENT, entries);
    assert EventGroupsFold(P, NO_EVENT, [(a, entries)]) == Logged(f.value, [] + f.pushed);
    assert [] + f.pushed == f.pushed;
    assert EventErrFold(NO_EVENT, []) == Logged(NO_EVENT, []);
    assert [] + [] + f.pushed == f.pushed;
  }

  /** `#[event(ignore)]` marks the variant ignored; another bare word is ignored itself. */
  lemma IgnoreFlag(P: Parsers, word: string)
    requires word != EVENT_IGNORE
    ensures EventAttrsSpec(P, EventVariant([MetaItem(PathMeta([EVENT_IGNORE]))], None).attrs, []) == Logged(NO_EVENT.(ignore := true), [])
    ensures EventAttrsSpec(P, EventVariant([MetaItem(PathMeta([word]))], None).attrs, []) == Logged(NO_EVENT, [])
  {
    var e1 := [MetaItem(PathMeta([EVENT_IGNORE]))];
    EventVariantEntries(P, e1, None);
    assert e1[..0] == [];
    var e2 := [MetaItem(PathMeta([word]))];
    EventVariantEntries(P, e2, None);
    assert e2[..0] == [];
  }

  /** A second `input` replaces the first, silently. */
  lemma InputOverwrites(P: Parsers, x: string, y: string)
    requires P.parsesAsPath(x) && P.parsesAsPath(y)
    ensures
      var a := Attribute([EVENT], Ok(ListMeta([EVENT], [MetaItem(NameValueMeta([EVENT_INPUT], StrLit(x))), MetaItem(NameValueMeta([EVENT_INPUT], StrLit(y)))])));
      FoldItems((s, it) => EventItemStep(P, a, s, it), NO_EVENT,
                [MetaItem(NameValueMeta([EVENT_INPUT], StrLit(x))), MetaItem(NameValueMeta([EVENT_INPUT], StrLit(y)))])
      == Logged(NO_EVENT.(input := Some(y)), [])
  {
    var a := Attribute([EVENT], Ok(ListMeta([EVENT], [MetaItem(NameValueMeta([EVENT_INPUT], StrLit(x))), MetaItem(NameValueMeta([EVENT_INPUT], StrLit(y)))])));
    FoldItemsTwo((s, it) => EventItemStep(P, a, s, it), NO_EVENT,
                 MetaItem(NameValueMeta([EVENT_INPUT], StrLit(x))), MetaItem(NameValueMeta([EVENT_INPUT], StrLit(y))));
  }

  /** A non-string value is reported and sets nothing; an unknown key is reported. */
  lemma KeyValueErrors(P: Parsers, key: Path, lit: Lit, v: string)
    requires !lit.StrLit?
    requires !IsIdent(key, EVENT_INPUT) && !IsIdent(key, EVENT_OUTPUT)
    ensures EventKeyValue(P, [EVENT_INPUT], lit, NO_EVENT) == Logged(NO_EVENT, [SynError("Expected string literal, found: " + DebugLit(lit))])
    ensures EventKeyValue(P, key, StrLit(v), NO_EVENT) == Logged(NO_EVENT, [SynError("Unknown key in #[event(...)] : " + PathDebug(key))])
  {
  }

  /** A bare `#[event]` is reported as not being a list, and contributes no entries. */
  lemma BareEventReported(P: Parsers, enumAttrs: seq<Attribute>)
    requires forall i :: 0 <= i < |enumAttrs| ==> EVENT_ERR !in enumAttrs[i].path
    ensures
      var v := Variant("A", [Attribute([EVENT], Ok(PathMeta([EVENT])))], Unit, None);
      EventAttrsSpec(P, v.attrs, enumAttrs) == Logged(NO_EVENT, [SynError(EXPECTED_EVENT_LIST)])
  {
    NoEventErr(enumAttrs);
    var a := [Attribute([EVENT], Ok(PathMeta([EVENT])))];
    assert a[..0] == [];
    assert CollectEventItems(a) == Logged([], [] + [SynError(EXPECTED_EVENT_LIST)]);
    assert EventGroupsFold(P, NO_EVENT, []) == Logged(NO_EVENT, []);
    assert [] + [SynError(EXPECTED_EVENT_LIST)] + [] == [SynError(EXPECTED_EVENT_LIST)];
  }

  /** Enum attributes without `event_err` leave the attributes as they were. */
  lemma {:induction false} NoEventErr(enumAttrs: seq<Attribute>)
    requires forall i :: 0 <= i < |enumAttrs| ==> EVENT_ERR !in enumAttrs[i].path
    ensures EventErrFold(NO_EVENT, enumAttrs) == Logged(NO_EVENT, [])
    decreases |enumAttrs|
  {
    if enumAttrs != [] {
      NoEventErr(enumAttrs[..|enumAttrs| - 1]);
    }
  }

  /** An integer discriminant is the event value; no discriminant gives "". */
  lemma DiscriminantValues(P: Parsers, digits: string, enumAttrs: seq<Attribute>)
    ensures EventEnumSpec(P, "E", Variant("A", [], Unit, Some(LitExpr(IntLit(digits)))), enumAttrs).value.value == digits
    ensures EventEnumSpec(P, "E", Variant("B", [], Unit, None), enumAttrs).value.value == ""
  {
  }

  /**
   * A bare `#[event]` on a variant whose discriminant is a string gives
   * two errors, the discriminant's and then the attribute's, not one.
   */
  lemma NonIntDiscriminantWithBareEvent(P: Parsers, text: string)
    ensures
      var v := Variant("A", [Attribute([EVENT], Ok(PathMeta([EVENT])))], Unit, Some(LitExpr(StrLit(text))));
      var r := EventEnumSpec(P, "MyEvent", v, []);
      r.value.value == "" && r.pushed == [SynError(ONLY_INT_DISCRIMINANT), SynError(EXPECTED_EVENT_LIST)]
  {
    BareEventReported(P, []);
  }
}
