/**
 * The workflow node record, the input-mapping rule it may carry, and the
 * by-value builders that return an updated copy of a node.
 */
module Nodes {
  import opened Wrappers
  import opened Json

  /** How a node's input is extracted from upstream data. */
  datatype InputMapping =
    | Single(expr: string)
    | Multi(fields: map<string, string>, defaultValue: Option<Json>)

  /** The two ways a node execution or a node configuration can fail. */
  datatype NodeError =
    | InvalidConfig(msg: string)
    | ExecutionFailed(msg: string)

  /** What a node implementation receives when it runs. */
  datatype NodeExecutionContext = NodeExecutionContext(
    parameters: Json,
    inputData: Json,
    globals: Json,
    env: Json,
    pinData: Option<Json>)

  datatype Node = Node(
    name: string,
    nodeTypeName: string,
    disabled: bool,
    inputMapping: Option<InputMapping>,
    parameters: Json,
    displayName: Option<string>,
    description: Option<string>,
    customConfig: Option<Json>)

  /** A node with only its name and type set; everything else is at its default. */
  function NewNode(name: string, nodeTypeName: string): (n: Node)
    ensures n.name == name && n.nodeTypeName == nodeTypeName
    ensures !n.disabled && n.parameters == Null
    ensures n.inputMapping == None && n.displayName == None
    ensures n.description == None && n.customConfig == None
  {
    Node(name, nodeTypeName, false, None, Null, None, None, None)
  }

  function WithInputMapping(n: Node, m: InputMapping): (r: Node)
    ensures r.inputMapping == Some(m)
    ensures r == n.(inputMapping := r.inputMapping)
  {
    n.(inputMapping := Some(m))
  }

  function WithParameters(n: Node, p: Json): (r: Node)
    ensures r.parameters == p
    ensures r == n.(parameters := r.parameters)
  {
    n.(parameters := p)
  }

  function Disabled(n: Node): (r: Node)
    ensures r.disabled
    ensures r == n.(disabled := r.disabled)
  {
    n.(disabled := true)
  }

  function WithDisplayName(n: Node, s: string): (r: Node)
    ensures r.displayName == Some(s)
    ensures r == n.(displayName := r.displayName)
  {
    n.(displayName := Some(s))
  }

  function WithDescription(n: Node, s: string): (r: Node)
    ensures r.description == Some(s)
    ensures r == n.(description := r.description)
  {
    n.(description := Some(s))
  }

  function WithCustomConfig(n: Node, c: Json): (r: Node)
    ensures r.customConfig == Some(c)
    ensures r == n.(customConfig := r.customConfig)
  {
    n.(customConfig := Some(c))
  }

  /** Builders that set different fields can be applied in either order. */
  lemma BuildersCommute(n: Node, m: InputMapping, p: Json, d: string, e: string, c: Json)
    ensures WithParameters(WithInputMapping(n, m), p) == WithInputMapping(WithParameters(n, p), m)
    ensures Disabled(WithDisplayName(n, d)) == WithDisplayName(Disabled(n), d)
    ensures WithDescription(WithCustomConfig(n, c), e) == WithCustomConfig(WithDescription(n, e), c)
    ensures WithDisplayName(WithInputMapping(n, m), d) == WithInputMapping(WithDisplayName(n, d), m)
  {
  }

  /** Applying a builder twice with the same value is the same as applying it once. */
  lemma BuildersIdempotent(n: Node, m: InputMapping, d: string)
    ensures WithInputMapping(WithInputMapping(n, m), m) == WithInputMapping(n, m)
    ensures Disabled(Disabled(n)) == Disabled(n)
    ensures WithDisplayName(WithDisplayName(n, d), d) == WithDisplayName(n, d)
  {
  }

  /** The chain of builders used by the node creation test gives the fields it checks. */
  lemma ChainedBuild(name: string, ty: string, expr: string, d: string, e: string, c: Json)
    ensures var n := WithCustomConfig(WithDescription(WithDisplayName(
              WithInputMapping(NewNode(name, ty), Single(expr)), d), e), c);
      n.name == name && n.nodeTypeName == ty && !n.disabled &&
      n.inputMapping == Some(Single(expr)) && n.displayName == Some(d) &&
      n.description == Some(e) && n.customConfig == Some(c) && n.parameters == Null
  {
  }
}
