/**
 * The node registry: a table from a node implementation's name to the
 * implementation. Implementations are described by the names they report;
 * what they do when executed is outside this model.
 */
module Registry {
  import opened Wrappers

  /** A registered node implementation, known by the names it reports. */
  datatype NodeType = NodeType(name: string, displayName: string)

  class NodeRegistry {
    var handlers: map<string, NodeType>

    /** Every entry is stored under the name its implementation reports. */
    ghost predicate Valid()
      reads this
    {
      forall k :: k in handlers ==> handlers[k].name == k
    }

    constructor ()
      ensures handlers == map[] && Valid()
    {
      handlers := map[];
    }

    /** Stores `node` under its own name, replacing any earlier entry of that name. */
    method Register(node: NodeType)
      requires Valid()
      modifies this
      ensures Valid()
      ensures handlers == old(handlers)[node.name := node]
      ensures Get(node.name) == Some(node)
      ensures forall k :: k != node.name ==> Get(k) == old(Get(k))
    {
      handlers := handlers[node.name := node];
    }

    /** The implementation registered under `name`; it reports that name in a valid registry. */
    function Get(name: string): (r: Option<NodeType>)
      reads this
      ensures r.Some? <==> name in handlers
      ensures r.Some? ==> r.value == handlers[name]
      ensures Valid() && r.Some? ==> r.value.name == name
    {
      if name in handlers then Some(handlers[name]) else None
    }

    /** The registered names, each once, in no particular order. */
    method ListNodes() returns (names: seq<string>)
      ensures forall k :: k in names <==> k in handlers
      ensures |names| == |handlers.Keys|
      ensures forall i, j :: 0 <= i < j < |names| ==> names[i] != names[j]
    {
      names := [];
      var rest := handlers.Keys;
      while rest != {}
        invariant rest <= handlers.Keys
        invariant forall k :: k in names <==> k in handlers.Keys - rest
        invariant |names| + |rest| == |handlers.Keys|
        invariant forall i, j :: 0 <= i < j < |names| ==> names[i] != names[j]
        decreases |rest|
      {
        var k :| k in rest;
        assert k !in names;
        names := names + [k];
        rest := rest - {k};
      }
    }
  }

  /** A fresh registry lists no names and finds nothing. */
  method EmptyRegistry(name: string) returns (found: bool, listed: nat)
    ensures !found && listed == 0
  {
    var r := new NodeRegistry();
    var names := r.ListNodes();
    found := r.Get(name).Some?;
    listed := |names|;
  }

  /**
   * A registered implementation is found under its name; registering a
   * second one under the same name replaces the first, with no error.
   */
  method RegisterThenGet(first: NodeType, second: NodeType, other: string)
    returns (found: Option<NodeType>, replaced: Option<NodeType>, missing: Option<NodeType>)
    requires second.name == first.name && other != first.name
    ensures found == Some(first) && replaced == Some(second) && missing == None
  {
    var r := new NodeRegistry();
    r.Register(first);
    found := r.Get(first.name);
    r.Register(second);
    replaced := r.Get(first.name);
    missing := r.Get(other);
  }

  /** Registering one implementation and listing gives exactly its name. */
  method RegisterThenList(node: NodeType) returns (names: seq<string>)
    ensures names == [node.name]
  {
    var r := new NodeRegistry();
    r.Register(node);
    names := r.ListNodes();
    assert node.name in names;
  }
}
