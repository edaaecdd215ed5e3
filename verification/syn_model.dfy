/**
 * The part of Rust's syntax tree the build tool reads: paths, literals,
 * attribute contents, types, fields, variants and derive inputs, and the
 * attribute keywords it looks for.
 */
module Syn {
  import opened Wrappers
  import opened Strings

  /** A path as the identifiers of its segments: `a::b` is `["a", "b"]`. */
  type Path = seq<string>

  /** A path compared with a keyword: equal only when it is that one identifier. */
  predicate IsIdent(p: Path, word: string)
  {
    p == [word]
  }

  /** A path's token text, segments separated by ` :: `. */
  function PathTokens(p: Path): string
  {
    Join(p, " :: ")
  }

  /** A path's token text with the spaces removed. */
  function PathCompact(p: Path): string
  {
    Join(p, "::")
  }

  /** A literal: a string (its value), an integer (its base-10 digits) or anything else. */
  datatype Lit = StrLit(value: string) | IntLit(digits: string) | OtherLit(text: string)

  /** The contents of an attribute: a bare path, a parenthesised list, or `path = literal`. */
  datatype Meta =
    | PathMeta(path: Path)
    | ListMeta(path: Path, nested: seq<NestedMeta>)
    | NameValueMeta(path: Path, lit: Lit)

  /** One entry of a parenthesised list. */
  datatype NestedMeta = MetaItem(meta: Meta) | LitItem(lit: Lit)

  /** An attribute: its path, and its contents or the parse error message when they do not parse. */
  datatype Attribute = Attribute(path: Path, parsed: Result<Meta, string>)

  datatype GenericArg = TypeArg(ty: Ty) | OtherArg(text: string)

  /** A path segment's arguments: none, `<...>`, or `(...)`. */
  datatype PathArgs = NoArgs | AngleArgs(args: seq<GenericArg>) | ParenArgs(text: string)

  datatype Segment = Segment(ident: string, arguments: PathArgs)

  /** A type: a path type, an invisible group around a type, or any other type. */
  datatype Ty = PathTy(segments: seq<Segment>) | GroupTy(elem: Ty) | OtherTy(text: string)

  datatype Field = Field(ident: Option<string>, attrs: seq<Attribute>, ty: Ty)

  datatype Fields = Named(named: seq<Field>) | Unnamed(unnamed: seq<Field>) | Unit

  datatype Expr = LitExpr(lit: Lit) | OtherExpr(text: string)

  datatype Variant = Variant(ident: string, attrs: seq<Attribute>, fields: Fields, discriminant: Option<Expr>)

  datatype Data = StructData(fields: Fields) | EnumData(variants: seq<Variant>) | UnionData(union: seq<Field>)

  /** A struct, enum or union a derive macro is applied to. */
  datatype DeriveInput = DeriveInput(attrs: seq<Attribute>, ident: string, data: Data)

  /**
   * Which strings syn parses as a type (`syn::Type`), as a path expression
   * (`syn::ExprPath`, which also takes qualified forms such as `<T as Tr>::f`)
   * and as a plain path (`syn::Path`).
   */
  datatype Parsers = Parsers(parsesAsType: string -> bool, parsesAsExprPath: string -> bool,
                             parsesAsPath: string -> bool)

  /** A string's debug form: the text in double quotes (escapes are not modelled). */
  function DebugStr(s: string): string
  {
    "\"" + s + "\""
  }

  /** A literal's debug form. */
  function DebugLit(l: Lit): string
  {
    match l
    case StrLit(v) => "Str(LitStr { token: " + DebugStr(v) + " })"
    case IntLit(d) => "Int(LitInt { token: " + d + " })"
    case OtherLit(t) => t
  }

  // Attribute keywords.
  const PB_ATTRS := "pb"
  const SKIP := "skip"
  const PB_INDEX := "index"
  const PB_ONE_OF := "one_of"
  const SKIP_PB_DESERIALIZING := "skip_pb_deserializing"
  const SKIP_PB_SERIALIZING := "skip_pb_serializing"
  const SERIALIZE_PB_WITH := "serialize_pb_with"
  const DESERIALIZE_PB_WITH := "deserialize_pb_with"
  const PB_STRUCT := "struct"
  const PB_ENUM := "enum"
  const EVENT := "event"
  const EVENT_INPUT := "input"
  const EVENT_OUTPUT := "output"
  const EVENT_IGNORE := "ignore"
  const EVENT_ERR := "event_err"
  const NODE_ATTRS := "node"
  const NODES_ATTRS := "nodes"
  const NODE_TYPE := "node_type"
  const RENAME_NODE := "rename"
  const CHILD_NODE_NAME := "child_name"
  const CHILD_NODE_INDEX := "child_index"
  const GET_NODE_VALUE_WITH := "get_value_with"
  const SET_NODE_VALUE_WITH := "set_value_with"
  const WITH_CHILDREN := "with_children"
}
