/**
 * A workflow: a table of nodes and two connection indexes, one from each
 * source to its targets and one from each target to its sources, plus a
 * breadth-first run that executes nodes after their parents.
 *
 * Executing a node and evaluating a mapping expression are parameters of the
 * run (`execute` and `search`); a fuel bound stands in for the unbounded loop.
 */
module Workflow {
  import opened Wrappers
  import opened Strings
  import opened Json
  import opened Nodes
  import opened Registry

  type Index = map<string, seq<string>>

  /** The bucket of `k` in an index; no entry reads as an empty bucket. */
  function Bucket(m: Index, k: string): seq<string>
  {
    if k in m then m[k] else []
  }

  /** How often `x` occurs in the bucket of `k`. */
  function Count(m: Index, k: string, x: string): nat
  {
    multiset(Bucket(m, k))[x]
  }

  /** The two indexes record the same connections: t lists s exactly as often as s lists t. */
  ghost predicate Inverse(bySource: Index, byDest: Index)
  {
    forall s, t :: Count(byDest, t, s) == Count(bySource, s, t)
  }

  /** `s` with every occurrence of `x` removed (`Vec::retain(|e| e != x)`). */
  function Without(s: seq<string>, x: string): (r: seq<string>)
    ensures x !in r
    ensures forall y :: y != x ==> multiset(r)[y] == multiset(s)[y]
    ensures forall y :: y in r ==> y in s
    ensures |r| <= |s|
  {
    if s == [] then []
    else
      assert s == [s[0]] + s[1..];
      if s[0] == x then Without(s[1..], x) else [s[0]] + Without(s[1..], x)
  }

  /** Drops `x` from every bucket, keeping every key. */
  method RetainEverywhere(m: Index, x: string) returns (r: Index)
    ensures r.Keys == m.Keys
    ensures forall k :: k in m ==> r[k] == Without(m[k], x)
  {
    r := m;
    var todo := m.Keys;
    while todo != {}
      invariant todo <= m.Keys && r.Keys == m.Keys
      invariant forall k :: k in r ==> r[k] == (if k in todo then m[k] else Without(m[k], x))
      decreases |todo|
    {
      var k :| k in todo;
      r := r[k := Without(m[k], x)];
      todo := todo - {k};
    }
  }

  /** Every connection, in either direction, names known nodes. */
  ghost predicate Closed(m: Index, names: set<string>)
  {
    forall k :: k in m ==> k in names && forall x :: x in m[k] ==> x in names
  }

  /** The two indexes are mutually inverse and only mention the nodes `names`. */
  ghost predicate Consistent(src: Index, dst: Index, names: set<string>)
  {
    Inverse(src, dst) && Closed(src, names) && Closed(dst, names)
  }

  lemma ConsistentAfterAdd(src: Index, dst: Index, names: set<string>, names': set<string>)
    requires Consistent(src, dst, names) && names <= names'
    ensures Consistent(src, dst, names')
  {
  }

  lemma ConsistentAfterConnect(src: Index, dst: Index, names: set<string>, s: string, t: string)
    requires Consistent(src, dst, names) && s in names && t in names
    ensures Consistent(src[s := Bucket(src, s) + [t]], dst[t := Bucket(dst, t) + [s]], names)
  {
    var src', dst' := src[s := Bucket(src, s) + [t]], dst[t := Bucket(dst, t) + [s]];
    forall a, b
      ensures Count(dst', b, a) == Count(src', a, b)
    {
      CountAfterAppend(src, s, t, a, b);
      CountAfterAppend(dst, t, s, b, a);
    }
  }

  /** Appending `x` to the bucket of `k` adds one occurrence there and nowhere else. */
  lemma CountAfterAppend(m: Index, k: string, x: string, a: string, b: string)
    ensures Count(m[k := Bucket(m, k) + [x]], a, b) == Count(m, a, b) + (if a == k && b == x then 1 else 0)
  {
    if a == k {
      assert Bucket(m[k := Bucket(m, k) + [x]], a) == Bucket(m, k) + [x];
    } else {
      assert Bucket(m[k := Bucket(m, k) + [x]], a) == Bucket(m, a);
    }
  }

  lemma ConsistentAfterDisconnect(src: Index, dst: Index, names: set<string>, s: string, t: string)
    requires Consistent(src, dst, names)
    ensures Consistent(if s in src then src[s := Without(src[s], t)] else src,
                       if t in dst then dst[t := Without(dst[t], s)] else dst, names)
  {
    var src' := if s in src then src[s := Without(src[s], t)] else src;
    var dst' := if t in dst then dst[t := Without(dst[t], s)] else dst;
    forall a, b
      ensures Count(dst', b, a) == Count(src', a, b)
    {
      CountAfterWithout(src, s, t, a, b);
      CountAfterWithout(dst, t, s, b, a);
    }
  }

  /** Removing `x` from the bucket of `k` leaves no occurrence there and changes nothing else. */
  lemma CountAfterWithout(m: Index, k: string, x: string, a: string, b: string)
    ensures Count(if k in m then m[k := Without(m[k], x)] else m, a, b) ==
      if a == k && b == x then 0 else Count(m, a, b)
  {
    var m' := if k in m then m[k := Without(m[k], x)] else m;
    if a == k && k in m {
      assert Bucket(m', a) == Without(m[k], x);
    } else if a == k {
      assert Bucket(m', a) == [];
    } else {
      assert Bucket(m', a) == Bucket(m, a);
    }
  }

  /** `RemoveFromIndex(m, id)`: the index after deleting `id`'s bucket and every mention of `id`. */
  function RemoveFromIndex(m: Index, id: string): (r: Index)
    ensures r.Keys == m.Keys - {id}
  {
    map k | k in m && k != id :: Without(m[k], id)
  }

  lemma ConsistentAfterRemove(src: Index, dst: Index, names: set<string>, id: string)
    requires Consistent(src, dst, names)
    ensures Consistent(RemoveFromIndex(src, id), RemoveFromIndex(dst, id), names - {id})
  {
    var src', dst' := RemoveFromIndex(src, id), RemoveFromIndex(dst, id);
    forall a, b
      ensures Count(dst', b, a) == Count(src', a, b)
    {
      if a == id || b == id {
        assert Count(src', a, b) == 0 && Count(dst', b, a) == 0;
      } else {
        assert Count(src', a, b) == Count(src, a, b);
        assert Count(dst', b, a) == Count(dst, b, a);
      }
    }
  }

  /** Appends `s` to the bucket of each of `targets`, in order. */
  method PushSource(rev: Index, s: string, targets: seq<string>) returns (r: Index)
    requires forall t :: t in rev ==> rev[t] != []
    ensures forall a, b :: Count(r, b, a) == Count(rev, b, a) + (if a == s then multiset(targets)[b] else 0)
    ensures forall t :: t in r ==> r[t] != []
  {
    r := rev;
    var i := 0;
    while i < |targets|
      invariant 0 <= i <= |targets|
      invariant forall a, b :: Count(r, b, a) == Count(rev, b, a) + (if a == s then multiset(targets[..i])[b] else 0)
      invariant forall t :: t in r ==> r[t] != []
    {
      var t := targets[i];
      assert targets[..i + 1] == targets[..i] + [t];
      r := r[t := Bucket(r, t) + [s]];
      i := i + 1;
    }
    assert targets[..i] == targets;
  }

  /** The destination index built by walking every source bucket (`build_reverse_connections`). */
  method ReverseIndex(src: Index) returns (reverse: Index)
    ensures Inverse(src, reverse)
    ensures forall t :: t in reverse ==> reverse[t] != []
  {
    reverse := map[];
    var todo := src.Keys;
    while todo != {}
      invariant todo <= src.Keys
      invariant forall a, b :: Count(reverse, b, a) == (if a in src && a !in todo then Count(src, a, b) else 0)
      invariant forall t :: t in reverse ==> reverse[t] != []
      decreases |todo|
    {
      var s :| s in todo;
      reverse := PushSource(reverse, s, src[s]);
      todo := todo - {s};
    }
  }

  /** A destination index inverse to a closed source index, with no empty bucket, is closed too. */
  lemma ClosedReverse(src: Index, dst: Index, names: set<string>)
    requires Inverse(src, dst) && Closed(src, names)
    requires forall t :: t in dst ==> dst[t] != []
    ensures Closed(dst, names)
  {
    forall k | k in dst
      ensures k in names && forall x :: x in dst[k] ==> x in names
    {
      assert Count(dst, k, dst[k][0]) > 0;
      assert Count(src, dst[k][0], k) > 0;
      forall x | x in dst[k]
        ensures x in names
      {
        assert Count(dst, k, x) > 0;
        assert Count(src, x, k) > 0;
      }
    }
  }

  /** What one step of the run did with the node it took from the queue. */
  datatype Step = Skip | Fail(err: NodeError) | Ran(output: Json)

  /** The run's outcome: Some(result) when the queue emptied or a node failed within the fuel, else None. */
  type Outcome = Option<Result<map<string, Json>, NodeError>>

  /** The outputs of those parents that already have a result, in parent order. */
  function Available(parents: seq<string>, results: map<string, Json>): (r: seq<Json>)
    ensures |r| <= |parents|
  {
    if parents == [] then []
    else if parents[0] in results then [results[parents[0]]] + Available(parents[1..], results)
    else Available(parents[1..], results)
  }

  lemma {:induction false} AvailableAllPresent(parents: seq<string>, results: map<string, Json>)
    requires forall p :: p in parents ==> p in results
    ensures |Available(parents, results)| == |parents|
    ensures forall i :: 0 <= i < |parents| ==> Available(parents, results)[i] == results[parents[i]]
  {
    if parents != [] {
      AvailableAllPresent(parents[1..], results);
    }
  }

  lemma {:induction false} AvailableNonePresent(parents: seq<string>, results: map<string, Json>)
    requires forall p :: p in parents ==> p !in results
    ensures Available(parents, results) == []
  {
    if parents != [] {
      AvailableNonePresent(parents[1..], results);
    }
  }

  /** One available parent output is passed as it is, none gives `{}`, several give an array. */
  function MergeInputs(parents: seq<string>, results: map<string, Json>): (merged: Json)
    ensures |Available(parents, results)| == 1 ==> merged == Available(parents, results)[0]
    ensures Available(parents, results) == [] ==> merged == Obj(map[])
    ensures |Available(parents, results)| > 1 ==> merged == Arr(Available(parents, results))
  {
    var avail := Available(parents, results);
    if |avail| == 1 then avail[0] else if avail == [] then Obj(map[]) else Arr(avail)
  }

  /** A parent with a result is passed through unchanged when it is the only parent. */
  lemma SingleParentPassThrough(p: string, results: map<string, Json>)
    requires p in results
    ensures MergeInputs([p], results) == results[p]
  {
    AvailableAllPresent([p], results);
  }

  /** The text of a Debug-formatted string: quoted and escaped. */
  function DebugStr(s: string): string { Quote(s) }

  function SingleMappingError(id: string, expr: string, e: string): string
  {
    "Mapping error at node '" + id + "' (expr='" + DebugStr(expr) + "'): " + e
  }

  function FieldMappingError(id: string, field: string, expr: string, e: string): string
  {
    "Mapping error at node '" + id + "' for field '" + field + "' (expr='" + DebugStr(expr) + "'): " + e
  }

  function UnregisteredError(typeName: string, id: string): string
  {
    "NodeType '" + typeName + "' not registered for node '" + id + "'"
  }

  /**
   * Maps the fields `ks` (in key order) of a multi-field mapping over the context,
   * stopping at the first expression that fails.
   */
  function MapFields(id: string, ks: seq<string>, fields: map<string, string>, ctx: Json,
                     search: (string, Json) -> Result<Json, string>, acc: map<string, Json>)
    : (r: Result<Json, NodeError>)
    requires forall k :: k in ks ==> k in fields
    ensures r.Ok? ==> r.value.Obj? && forall k :: k in r.value.fields <==> k in acc || k in ks
    ensures r.Err? <==> exists i :: 0 <= i < |ks| && search(fields[ks[i]], ctx).Err?
  {
    if ks == [] then Ok(Obj(acc))
    else
      match search(fields[ks[0]], ctx)
      case Err(e) => Err(InvalidConfig(FieldMappingError(id, ks[0], fields[ks[0]], e)))
      case Ok(v) =>
        var r := MapFields(id, ks[1..], fields, ctx, search, acc[ks[0] := v]);
        assert forall i :: 1 <= i < |ks| ==> ks[i] == ks[1..][i - 1];
        r
  }

  /** The input a node receives: the merged parent outputs, mapped when the node has a mapping. */
  function MapInput(id: string, mapping: Option<InputMapping>, merged: Json,
                    search: (string, Json) -> Result<Json, string>): (r: Result<Json, NodeError>)
    ensures mapping.None? ==> r == Ok(merged)
    ensures mapping.Some? && mapping.value.Single? ==>
      var found := search(mapping.value.expr, Obj(map["$json" := merged]));
      (found.Ok? ==> r == Ok(found.value))
      && (found.Err? ==> r == Err(InvalidConfig(SingleMappingError(id, mapping.value.expr, found.error))))
    ensures mapping.Some? && mapping.value.Multi? ==>
      var fields := mapping.value.fields;
      (r.Err? <==> exists k :: k in fields && search(fields[k], Obj(map["$json" := merged])).Err?)
      && (r.Ok? ==> r.value.Obj? && r.value.fields.Keys == fields.Keys)
  {
    var ctx := Obj(map["$json" := merged]);
    match mapping
    case None => Ok(merged)
    case Some(Single(e)) =>
      (match search(e, ctx)
       case Ok(v) => Ok(v)
       case Err(msg) => Err(InvalidConfig(SingleMappingError(id, e, msg))))
    case Some(Multi(fields, _)) => MapFields(id, SortedKeys(fields.Keys), fields, ctx, search, map[])
  }

  /** Loops over the fields of a multi-field mapping in key order. */
  method MapMulti(id: string, fields: map<string, string>, ctx: Json,
                  search: (string, Json) -> Result<Json, string>) returns (r: Result<Json, NodeError>)
    ensures r == MapFields(id, SortedKeys(fields.Keys), fields, ctx, search, map[])
  {
    var ks := SortedKeys(fields.Keys);
    var acc: map<string, Json> := map[];
    var i := 0;
    while i < |ks|
      invariant 0 <= i <= |ks|
      invariant MapFields(id, ks[i..], fields, ctx, search, acc) == MapFields(id, ks, fields, ctx, search, map[])
    {
      match search(fields[ks[i]], ctx)
      case Err(e) =>
        return Err(InvalidConfig(FieldMappingError(id, ks[i], fields[ks[i]], e)));
      case Ok(v) =>
        assert ks[i..][1..] == ks[i + 1..];
        assert MapFields(id, ks[i..], fields, ctx, search, acc) == MapFields(id, ks[i + 1..], fields, ctx, search, acc[ks[i] := v]);
        acc := acc[ks[i] := v];
      i := i + 1;
    }
    return Ok(Obj(acc));
  }

  class Workflow {
    var id: Option<string>
    var nodes: map<string, Node>
    var bySource: Index
    var byDest: Index
    var active: bool
    var settings: Json

    /** The two indexes are mutually inverse and only mention known nodes. */
    ghost predicate Valid()
      reads this
    {
      Consistent(bySource, byDest, nodes.Keys)
    }

    constructor (id: Option<string>)
      ensures this.id == id && nodes == map[] && bySource == map[] && byDest == map[]
      ensures !active && settings == Obj(map[])
      ensures Valid()
    {
      this.id := id;
      nodes := map[];
      bySource := map[];
      byDest := map[];
      active := false;
      settings := Obj(map[]);
    }

    /** Stores `node` under its own name, replacing an earlier node of that name. */
    method AddNode(node: Node)
      modifies this
      ensures nodes == old(nodes)[node.name := node]
      ensures bySource == old(bySource) && byDest == old(byDest)
      ensures old(Valid()) ==> Valid()
    {
      if Valid() {
        ConsistentAfterAdd(bySource, byDest, nodes.Keys, nodes[node.name := node].Keys);
      }
      nodes := nodes[node.name := node];
    }

    /** Deletes the node, its own buckets, and every mention of it in other buckets. */
    method RemoveNode(nodeId: string)
      modifies this
      ensures nodes == old(nodes) - {nodeId}
      ensures bySource == RemoveFromIndex(old(bySource), nodeId)
      ensures byDest == RemoveFromIndex(old(byDest), nodeId)
      ensures nodeId !in nodes && nodeId !in bySource && nodeId !in byDest
      ensures forall k :: k in bySource ==> nodeId !in bySource[k]
      ensures forall k :: k in byDest ==> nodeId !in byDest[k]
      ensures old(Valid()) ==> Valid()
    {
      ghost var src0, dst0 := bySource, byDest;
      nodes := nodes - {nodeId};
      bySource := bySource - {nodeId};
      bySource := RetainEverywhere(bySource, nodeId);
      byDest := byDest - {nodeId};
      byDest := RetainEverywhere(byDest, nodeId);
      assert bySource == RemoveFromIndex(src0, nodeId);
      assert byDest == RemoveFromIndex(dst0, nodeId);
      if old(Valid()) {
        ConsistentAfterRemove(src0, dst0, old(nodes.Keys), nodeId);
      }
    }

    /** Connects source to target when both exist; otherwise reports the missing one and changes nothing. */
    method ConnectNodes(sourceId: string, targetId: string) returns (r: Result<(), string>)
      modifies this
      ensures sourceId !in old(nodes) ==> r == Err("Source node " + sourceId + " not found")
      ensures sourceId in old(nodes) && targetId !in old(nodes) ==> r == Err("Target node " + targetId + " not found")
      ensures r.Err? ==> bySource == old(bySource) && byDest == old(byDest)
      ensures r.Ok? <==> sourceId in old(nodes) && targetId in old(nodes)
      ensures r.Ok? ==> bySource == old(bySource)[sourceId := Bucket(old(bySource), sourceId) + [targetId]]
      ensures r.Ok? ==> byDest == old(byDest)[targetId := Bucket(old(byDest), targetId) + [sourceId]]
      ensures nodes == old(nodes)
      ensures old(Valid()) ==> Valid()
    {
      if sourceId !in nodes {
        return Err("Source node " + sourceId + " not found");
      }
      if targetId !in nodes {
        return Err("Target node " + targetId + " not found");
      }
      if Valid() {
        ConsistentAfterConnect(bySource, byDest, nodes.Keys, sourceId, targetId);
      }
      bySource := bySource[sourceId := Bucket(bySource, sourceId) + [targetId]];
      byDest := byDest[targetId := Bucket(byDest, targetId) + [sourceId]];
      r := Ok(());
    }

    /** Removes every target entry from the source's bucket and every source entry from the target's. */
    method DisconnectNodes(sourceId: string, targetId: string)
      modifies this
      ensures bySource == if sourceId in old(bySource)
                          then old(bySource)[sourceId := Without(old(bySource)[sourceId], targetId)]
                          else old(bySource)
      ensures byDest == if targetId in old(byDest)
                        then old(byDest)[targetId := Without(old(byDest)[targetId], sourceId)]
                        else old(byDest)
      ensures nodes == old(nodes)
      ensures old(Valid()) ==> Valid()
    {
      if Valid() {
        ConsistentAfterDisconnect(bySource, byDest, nodes.Keys, sourceId, targetId);
      }
      if sourceId in bySource {
        bySource := bySource[sourceId := Without(bySource[sourceId], targetId)];
      }
      if targetId in byDest {
        byDest := byDest[targetId := Without(byDest[targetId], sourceId)];
      }
    }

    /** Rebuilds the destination index from the source index. */
    method BuildReverseConnections()
      modifies this
      ensures Inverse(bySource, byDest)
      ensures forall t :: t in byDest ==> byDest[t] != []
      ensures bySource == old(bySource) && nodes == old(nodes)
      ensures old(Closed(bySource, nodes.Keys)) ==> Valid()
    {
      var reverse := ReverseIndex(bySource);
      byDest := reverse;
      if Closed(bySource, nodes.Keys) {
        ClosedReverse(bySource, byDest, nodes.Keys);
      }
    }

    /** The direct children of `nodeId`, in connection order; none for a node without connections. */
    function GetChildren(nodeId: string): (r: seq<string>)
      reads this
      ensures nodeId !in bySource ==> r == []
      ensures nodeId in bySource ==> r == bySource[nodeId]
      ensures Valid() ==> forall c :: c in r ==> c in nodes && nodeId in GetParents(c)
    {
      var r := Bucket(bySource, nodeId);
      assert Valid() ==> forall c :: c in r ==> c in nodes && nodeId in GetParents(c) by {
        if Valid() {
          forall c | c in r
            ensures c in nodes && nodeId in GetParents(c)
          {
            assert Count(byDest, c, nodeId) == Count(bySource, nodeId, c);
            assert multiset(r)[c] > 0;
          }
        }
      }
      r
    }

    /** The direct parents of `nodeId`, in connection order; none for a node without connections. */
    function GetParents(nodeId: string): (r: seq<string>)
      reads this
      ensures nodeId !in byDest ==> r == []
      ensures nodeId in byDest ==> r == byDest[nodeId]
      ensures Valid() ==> forall p :: p in r ==> p in nodes
    {
      Bucket(byDest, nodeId)
    }

    /** In a valid workflow, t lists s as a parent exactly as often as s lists t as a child. */
    lemma ParentsMirrorChildren(s: string, t: string)
      requires Valid()
      ensures multiset(GetParents(t))[s] == multiset(GetChildren(s))[t]
    {
      assert Count(byDest, t, s) == Count(bySource, s, t);
    }

    /** A run starts from the enabled nodes that have no parents. */
    predicate IsStart(nodeId: string)
      reads this
    {
      nodeId in nodes && !nodes[nodeId].disabled && GetParents(nodeId) == []
    }

    /** In a valid workflow a start node is an enabled node that no node lists as a child. */
    lemma StartIffNoIncoming(n: string)
      requires Valid()
      ensures IsStart(n) <==> n in nodes && !nodes[n].disabled && forall s :: n !in GetChildren(s)
    {
      if GetParents(n) != [] {
        var s := GetParents(n)[0];
        ParentsMirrorChildren(s, n);
        assert multiset(GetParents(n))[s] > 0;
        assert n in GetChildren(s);
      } else {
        forall s
          ensures n !in GetChildren(s)
        {
          ParentsMirrorChildren(s, n);
        }
      }
    }

    /** Collects the start nodes, each once, in no particular order. */
    method StartNodes() returns (start: seq<string>)
      ensures forall n :: n in start <==> IsStart(n)
      ensures forall i, j :: 0 <= i < j < |start| ==> start[i] != start[j]
    {
      start := [];
      var todo := nodes.Keys;
      while todo != {}
        invariant todo <= nodes.Keys
        invariant forall n :: n in start <==> n in nodes.Keys - todo && IsStart(n)
        invariant forall i, j :: 0 <= i < j < |start| ==> start[i] != start[j]
        decreases |todo|
      {
        var n :| n in todo;
        if !nodes[n].disabled && GetParents(n) == [] {
          assert n !in start;
          start := start + [n];
        }
        todo := todo - {n};
      }
    }

    /** What happens to the node `nodeId` when the run takes it from the queue. */
    function RunNode(nodeId: string, results: map<string, Json>, handlers: map<string, NodeType>,
                     execute: (NodeType, NodeExecutionContext) -> Result<Json, NodeError>,
                     search: (string, Json) -> Result<Json, string>): (r: Step)
      reads this
      ensures r.Skip? <==> nodeId !in nodes || nodes[nodeId].disabled
      ensures r.Ran? ==> nodeId in nodes && nodes[nodeId].nodeTypeName in handlers
      ensures nodeId in nodes && !nodes[nodeId].disabled && nodes[nodeId].nodeTypeName !in handlers ==>
                r == Fail(InvalidConfig(UnregisteredError(nodes[nodeId].nodeTypeName, nodeId)))
    {
      if nodeId !in nodes || nodes[nodeId].disabled then Skip
      else
        var n := nodes[nodeId];
        if n.nodeTypeName !in handlers then Fail(InvalidConfig(UnregisteredError(n.nodeTypeName, nodeId)))
        else
          match MapInput(nodeId, n.inputMapping, MergeInputs(GetParents(nodeId), results), search)
          case Err(e) => Fail(e)
          case Ok(input) =>
            var ctx := NodeExecutionContext(n.customConfig.GetOr(Null), input, Null, Null, None);
            match execute(handlers[n.nodeTypeName], ctx)
            case Err(e) => Fail(e)
            case Ok(out) => Ran(out)
    }

    /** The breadth-first run from `queue`, one node per unit of fuel. */
    function Bfs(queue: seq<string>, results: map<string, Json>, handlers: map<string, NodeType>,
                 execute: (NodeType, NodeExecutionContext) -> Result<Json, NodeError>,
                 search: (string, Json) -> Result<Json, string>, fuel: nat): (r: Outcome)
      reads this
      decreases fuel
      ensures r.Some? && r.value.Ok? ==> results.Keys <= r.value.value.Keys
      ensures r.Some? && r.value.Ok? ==> r.value.value.Keys <= results.Keys + nodes.Keys
      ensures queue != [] && fuel == 0 ==> r.None?
    {
      if queue == [] then Some(Ok(results))
      else if fuel == 0 then None
      else
        match RunNode(queue[0], results, handlers, execute, search)
        case Skip => Bfs(queue[1..], results, handlers, execute, search, fuel - 1)
        case Fail(e) => Some(Err(e))
        case Ran(out) =>
          Bfs(queue[1..] + GetChildren(queue[0]), results[queue[0] := out], handlers, execute, search, fuel - 1)
    }

    /** Merges the outputs of the parents that already ran, looping over the parents in order. */
    method MergeParentOutputs(nodeId: string, results: map<string, Json>) returns (merged: Json)
      ensures merged == MergeInputs(GetParents(nodeId), results)
    {
      var parents := GetParents(nodeId);
      var inputs: seq<Json> := [];
      var i := 0;
      while i < |parents|
        invariant 0 <= i <= |parents|
        invariant inputs + Available(parents[i..], results) == Available(parents, results)
      {
        assert parents[i..][1..] == parents[i + 1..];
        if parents[i] in results {
          inputs := inputs + [results[parents[i]]];
        }
        i := i + 1;
      }
      assert inputs == Available(parents, results);
      merged := if |inputs| == 1 then inputs[0] else if inputs == [] then Obj(map[]) else Arr(inputs);
    }

    /** Runs one node: looks up its implementation, builds its input and executes it. */
    method ExecuteNode(nodeId: string, results: map<string, Json>, reg: NodeRegistry,
                       execute: (NodeType, NodeExecutionContext) -> Result<Json, NodeError>,
                       search: (string, Json) -> Result<Json, string>) returns (step: Step)
      ensures step == RunNode(nodeId, results, reg.handlers, execute, search)
    {
      if nodeId !in nodes || nodes[nodeId].disabled {
        return Skip;
      }
      var n := nodes[nodeId];
      var impl := reg.Get(n.nodeTypeName);
      if impl.None? {
        return Fail(InvalidConfig(UnregisteredError(n.nodeTypeName, nodeId)));
      }
      var merged := MergeParentOutputs(nodeId, results);
      var input: Json;
      match n.inputMapping {
        case None =>
          input := merged;
        case Some(Single(e)) =>
          match search(e, Obj(map["$json" := merged])) {
            case Ok(v) => input := v;
            case Err(msg) => return Fail(InvalidConfig(SingleMappingError(nodeId, e, msg)));
          }
        case Some(Multi(fields, _)) =>
          var mapped := MapMulti(nodeId, fields, Obj(map["$json" := merged]), search);
          if mapped.Err? {
            return Fail(mapped.error);
          }
          input := mapped.value;
      }
      var ctx := NodeExecutionContext(n.customConfig.GetOr(Null), input, Null, Null, None);
      match execute(impl.value, ctx) {
        case Err(e) => step := Fail(e);
        case Ok(out) => step := Ran(out);
      }
    }

    /**
     * Runs the workflow breadth-first from its start nodes. The result is the
     * reference run `Bfs` from those start nodes (None when the fuel ran out).
     */
    method Run(reg: NodeRegistry, execute: (NodeType, NodeExecutionContext) -> Result<Json, NodeError>,
               search: (string, Json) -> Result<Json, string>, fuel: nat)
      returns (r: Outcome, start: seq<string>)
      ensures forall n :: n in start <==> IsStart(n)
      ensures forall i, j :: 0 <= i < j < |start| ==> start[i] != start[j]
      ensures r == Bfs(start, map[], reg.handlers, execute, search, fuel)
    {
      var startNodes := StartNodes();
      start := startNodes;
      if startNodes == [] {
        r := Some(Ok(map[]));
        return;
      }
      var queue := startNodes;
      var results: map<string, Json> := map[];
      var budget := fuel;
      while queue != []
        invariant Bfs(queue, results, reg.handlers, execute, search, budget) ==
                  Bfs(start, map[], reg.handlers, execute, search, fuel)
        decreases budget
      {
        if budget == 0 {
          r := None;
          return;
        }
        var current := queue[0];
        var step := ExecuteNode(current, results, reg, execute, search);
        match step {
          case Skip =>
            queue := queue[1..];
          case Fail(e) =>
            r := Some(Err(e));
            return;
          case Ran(out) =>
            results := results[current := out];
            queue := queue[1..] + GetChildren(current);
        }
        budget := budget - 1;
      }
      r := Some(Ok(results));
    }

    /** Every node with a result is an enabled node whose type is registered. */
    ghost predicate ResultsFromRunnable(results: map<string, Json>, handlers: map<string, NodeType>)
      reads this
    {
      forall k :: k in results ==> k in nodes && !nodes[k].disabled && nodes[k].nodeTypeName in handlers
    }

    /** A finished run keeps earlier results' names and only adds runnable nodes. */
    lemma {:induction false} BfsResultsRunnable(queue: seq<string>, results: map<string, Json>,
                                                handlers: map<string, NodeType>,
                                                execute: (NodeType, NodeExecutionContext) -> Result<Json, NodeError>,
                                                search: (string, Json) -> Result<Json, string>, fuel: nat)
      requires ResultsFromRunnable(results, handlers)
      requires Bfs(queue, results, handlers, execute, search, fuel).Some?
      requires Bfs(queue, results, handlers, execute, search, fuel).value.Ok?
      ensures var out := Bfs(queue, results, handlers, execute, search, fuel).value.value;
        ResultsFromRunnable(out, handlers) && results.Keys <= out.Keys
      decreases fuel
    {
      if queue != [] {
        match RunNode(queue[0], results, handlers, execute, search)
        case Skip =>
          BfsResultsRunnable(queue[1..], results, handlers, execute, search, fuel - 1);
        case Ran(out) =>
          BfsResultsRunnable(queue[1..] + GetChildren(queue[0]), results[queue[0] := out], handlers,
                             execute, search, fuel - 1);
      }
    }

    /** An enabled node whose type is not registered stops the run with an InvalidConfig error. */
    lemma UnregisteredStopsRun(queue: seq<string>, results: map<string, Json>, handlers: map<string, NodeType>,
                               execute: (NodeType, NodeExecutionContext) -> Result<Json, NodeError>,
                               search: (string, Json) -> Result<Json, string>, fuel: nat)
      requires fuel > 0 && queue != [] && queue[0] in nodes && !nodes[queue[0]].disabled
      requires nodes[queue[0]].nodeTypeName !in handlers
      ensures Bfs(queue, results, handlers, execute, search, fuel) ==
              Some(Err(InvalidConfig(UnregisteredError(nodes[queue[0]].nodeTypeName, queue[0]))))
    {
    }

    /** With no start node the run is an immediate success with no results. */
    lemma NoStartEmptyRun(handlers: map<string, NodeType>,
                          execute: (NodeType, NodeExecutionContext) -> Result<Json, NodeError>,
                          search: (string, Json) -> Result<Json, string>, fuel: nat)
      ensures Bfs([], map[], handlers, execute, search, fuel) == Some(Ok(map[]))
    {
    }
  }
}
