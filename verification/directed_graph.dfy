/**
 * The named directed graph used by the workflow editor: nodes carry a weight
 * and are looked up by name, edges may repeat, and a node whose name was
 * taken over by a later node stays in the graph without a name.
 *
 * Node ids are stable here: the graph library renumbers the last node into
 * the hole left by a removal and the source then repairs the name table,
 * which is invisible at the level of names, so the model never renumbers.
 */
module DirectedGraphs {
  import opened Wrappers
  import opened GraphPaths

  const CYCLE_ERROR: string := "Graph has a cycle"

  /** The name table and its reverse agree. */
  ghost predicate Inverse(names: map<string, nat>, nameOf: map<nat, string>)
  {
    (forall n :: n in names ==> names[n] in nameOf && nameOf[names[n]] == n) &&
    (forall x :: x in nameOf ==> nameOf[x] in names && names[nameOf[x]] == x)
  }

  /** The names of those ids that have one, in order (nameless ids are skipped). */
  function NamedOnly(ids: seq<nat>, nameOf: map<nat, string>): (r: seq<string>)
    ensures |r| <= |ids|
    decreases |ids|
  {
    if ids == [] then []
    else
      var x := ids[|ids| - 1];
      NamedOnly(ids[..|ids| - 1], nameOf) + (if x in nameOf then [nameOf[x]] else [])
  }

  /** Each named id contributes its name, and nothing else appears. */
  lemma {:induction false} NamedOnlyMembers(ids: seq<nat>, nameOf: map<nat, string>)
    ensures forall k :: 0 <= k < |ids| && ids[k] in nameOf ==> nameOf[ids[k]] in NamedOnly(ids, nameOf)
    ensures forall n :: n in NamedOnly(ids, nameOf) ==> exists k :: 0 <= k < |ids| && ids[k] in nameOf && nameOf[ids[k]] == n
    decreases |ids|
  {
    if ids != [] {
      NamedOnlyMembers(ids[..|ids| - 1], nameOf);
      assert forall k :: 0 <= k < |ids| - 1 ==> ids[..|ids| - 1][k] == ids[k];
    }
  }

  lemma {:induction false} NamedOnlyAppend(ids: seq<nat>, more: seq<nat>, nameOf: map<nat, string>)
    ensures NamedOnly(ids + more, nameOf) == NamedOnly(ids, nameOf) + NamedOnly(more, nameOf)
    decreases |more|
  {
    if more == [] {
      assert ids + more == ids;
    } else {
      var front := more[..|more| - 1];
      var x := more[|more| - 1];
      var tail := if x in nameOf then [nameOf[x]] else [];
      NamedOnlyAppend(ids, front, nameOf);
      assert (ids + more)[..|ids + more| - 1] == ids + front;
      assert NamedOnly(ids + more, nameOf) == NamedOnly(ids + front, nameOf) + tail;
      assert NamedOnly(more, nameOf) == NamedOnly(front, nameOf) + tail;
    }
  }

  /** The entries of `cs` that are known names, in order. */
  function Known(cs: seq<string>, known: set<string>): (r: seq<string>)
    ensures forall c :: c in r <==> c in cs && c in known
    decreases |cs|
  {
    if cs == [] then []
    else
      assert cs == cs[..|cs| - 1] + [cs[|cs| - 1]];
      Known(cs[..|cs| - 1], known) + (if cs[|cs| - 1] in known then [cs[|cs| - 1]] else [])
  }

  lemma KnownAll(cs: seq<string>, known: set<string>)
    requires forall c :: c in cs ==> c in known
    ensures Known(cs, known) == cs
    decreases |cs|
  {
    if cs != [] {
      assert cs == cs[..|cs| - 1] + [cs[|cs| - 1]];
      KnownAll(cs[..|cs| - 1], known);
    }
  }

  /** The edges `p -> c` for one parent and each child, where both are named. */
  function Row(p: string, cs: seq<string>, names: map<string, nat>): seq<Edge>
    decreases |cs|
  {
    if cs == [] then []
    else
      var c := cs[|cs| - 1];
      Row(p, cs[..|cs| - 1], names) + (if p in names && c in names then [(names[p], names[c])] else [])
  }

  lemma {:induction false} RowLinks(p: string, cs: seq<string>, names: map<string, nat>, e: Edge)
    ensures e in Row(p, cs, names) <==> exists c :: c in cs && p in names && c in names && e == (names[p], names[c])
    decreases |cs|
  {
    if cs != [] {
      var c := cs[|cs| - 1];
      assert cs == cs[..|cs| - 1] + [c];
      RowLinks(p, cs[..|cs| - 1], names, e);
    }
  }

  /** The edges from every named parent to every named child, parent by parent. */
  function Reconnect(ps: seq<string>, cs: seq<string>, names: map<string, nat>): (r: seq<Edge>)
    decreases |ps|
  {
    if ps == [] then []
    else Reconnect(ps[..|ps| - 1], cs, names) + Row(ps[|ps| - 1], cs, names)
  }

  /** Removing a node links each of its named parents to each of its named children, and adds nothing else. */
  lemma {:induction false} ReconnectLinks(ps: seq<string>, cs: seq<string>, names: map<string, nat>, e: Edge)
    ensures e in Reconnect(ps, cs, names) <==>
            exists p, c :: p in ps && c in cs && p in names && c in names && e == (names[p], names[c])
    decreases |ps|
  {
    if ps != [] {
      var last := ps[|ps| - 1];
      assert ps == ps[..|ps| - 1] + [last];
      ReconnectLinks(ps[..|ps| - 1], cs, names, e);
      RowLinks(last, cs, names, e);
      if e in Row(last, cs, names) {
        var c :| c in cs && last in names && c in names && e == (names[last], names[c]);
      }
    }
  }

  // ---- the phases of Kahn's algorithm ----

  /** In-degrees counted over edges between named nodes only. */
  method CountInDegrees(es: seq<Edge>, names: map<string, nat>, nameOf: map<nat, string>)
    returns (deg: map<string, nat>)
    requires Inverse(names, nameOf)
    ensures deg.Keys == names.Keys
    ensures forall n :: n in names ==> deg[n] == EdgesInto(es, names[n], nameOf.Keys)
  {
    deg := map[];
    var todo := names.Keys;
    while todo != {}
      invariant todo <= names.Keys
      invariant deg.Keys == names.Keys - todo
      invariant forall n :: n in deg ==> deg[n] == 0
      decreases todo
    {
      var n :| n in todo;
      deg := deg[n := 0];
      todo := todo - {n};
    }
    var j := 0;
    while j < |es|
      invariant 0 <= j <= |es|
      invariant deg.Keys == names.Keys
      invariant forall n :: n in names ==> deg[n] == EdgesInto(es[..j], names[n], nameOf.Keys)
    {
      var e := es[j];
      forall n | n in names
        ensures EdgesInto(es[..j + 1], names[n], nameOf.Keys) ==
                EdgesInto(es[..j], names[n], nameOf.Keys) + (if e.1 == names[n] && e.0 in nameOf then 1 else 0)
      {
        EdgesIntoStep(es, names[n], nameOf.Keys, j);
      }
      if e.0 in nameOf && e.1 in nameOf {
        var child := nameOf[e.1];
        deg := deg[child := deg[child] + 1];
      }
      j := j + 1;
    }
    assert es[..|es|] == es;
  }

  /** The names whose in-degree is zero, each once. */
  method ZeroDegreeQueue(deg: map<string, nat>) returns (queue: seq<string>)
    ensures Distinct(queue)
    ensures forall n :: n in queue <==> n in deg && deg[n] == 0
  {
    queue := [];
    var todo := deg.Keys;
    while todo != {}
      invariant todo <= deg.Keys
      invariant Distinct(queue)
      invariant forall n :: n in queue <==> n in deg && n !in todo && deg[n] == 0
      decreases todo
    {
      var n :| n in todo;
      if deg[n] == 0 {
        queue := queue + [n];
      }
      todo := todo - {n};
    }
  }

  /**
   * Takes the edges out of node `uid` off the in-degrees of its named
   * children, queueing each child whose in-degree drops to zero.
   */
  method ReleaseChildren(es: seq<Edge>, names: map<string, nat>, nameOf: map<nat, string>, uid: nat,
                         deg0: map<string, nat>, queue0: seq<string>)
    returns (deg: map<string, nat>, queue: seq<string>)
    requires Inverse(names, nameOf) && deg0.Keys == names.Keys
    requires forall n :: n in names ==> deg0[n] >= EdgesInto(es, names[n], {uid})
    ensures deg.Keys == deg0.Keys
    ensures forall n :: n in names ==> deg[n] + EdgesInto(es, names[n], {uid}) == deg0[n]
    ensures |queue| >= |queue0| && queue[..|queue0|] == queue0
    ensures forall n :: n in queue[|queue0|..] <==> n in names && deg0[n] > 0 && deg[n] == 0
    ensures Distinct(queue[|queue0|..])
  {
    deg, queue := deg0, queue0;
    var j := 0;
    while j < |es|
      invariant 0 <= j <= |es|
      invariant Released(es, names, uid, deg0, queue0, j, deg, queue)
    {
      deg, queue := ReleaseEdge(es, names, nameOf, uid, deg0, queue0, j, deg, queue);
      j := j + 1;
    }
    assert es[..|es|] == es;
  }

  /** What `ReleaseChildren` keeps true after looking at the first `j` edges. */
  ghost predicate Released(es: seq<Edge>, names: map<string, nat>, uid: nat, deg0: map<string, nat>,
                           queue0: seq<string>, j: nat, deg: map<string, nat>, queue: seq<string>)
    requires j <= |es| && deg0.Keys == names.Keys
  {
    deg.Keys == deg0.Keys &&
    (forall n :: n in names ==> deg[n] + EdgesInto(es[..j], names[n], {uid}) == deg0[n]) &&
    |queue| >= |queue0| && queue[..|queue0|] == queue0 &&
    (forall n :: n in queue[|queue0|..] <==> n in names && deg0[n] > 0 && deg[n] == 0) &&
    Distinct(queue[|queue0|..])
  }

  /** One step of `ReleaseChildren`: edge `j`. */
  method ReleaseEdge(es: seq<Edge>, names: map<string, nat>, nameOf: map<nat, string>, uid: nat,
                     deg0: map<string, nat>, queue0: seq<string>, j: nat, deg: map<string, nat>, queue: seq<string>)
    returns (deg': map<string, nat>, queue': seq<string>)
    requires Inverse(names, nameOf) && deg0.Keys == names.Keys && j < |es|
    requires forall n :: n in names ==> deg0[n] >= EdgesInto(es, names[n], {uid})
    requires Released(es, names, uid, deg0, queue0, j, deg, queue)
    ensures Released(es, names, uid, deg0, queue0, j + 1, deg', queue')
  {
    var e := es[j];
    forall n | n in names
      ensures EdgesInto(es[..j + 1], names[n], {uid}) ==
              EdgesInto(es[..j], names[n], {uid}) + (if e.1 == names[n] && e.0 == uid then 1 else 0)
    {
      EdgesIntoStep(es, names[n], {uid}, j);
    }
    deg', queue' := deg, queue;
    if e.0 == uid && e.1 in nameOf {
      var child := nameOf[e.1];
      EdgesIntoPrefix(es, names[child], {uid}, j + 1);
      assert child !in queue[|queue0|..];
      ghost var extra := queue[|queue0|..];
      deg' := deg[child := deg[child] - 1];
      if deg'[child] == 0 {
        queue' := queue + [child];
        assert queue'[|queue0|..] == extra + [child];
      }
    }
  }

  /** `a -> b` is an edge between two named nodes. */
  ghost predicate Linked(es: seq<Edge>, names: map<string, nat>, a: string, b: string)
  {
    a in names && b in names && (names[a], names[b]) in es
  }

  /** Emitted names, their set and the ids of the names still live agree. */
  ghost predicate KahnSets(names: map<string, nat>, nameOf: map<nat, string>,
                           result: seq<string>, done: set<string>, live: set<nat>)
  {
    Inverse(names, nameOf) &&
    done == (set x | x in result) && Distinct(result) && done <= names.Keys &&
    live <= nameOf.Keys && (forall n :: n in names ==> (names[n] in live <==> n !in done))
  }

  /** Each in-degree counts the edges from live nodes only; emitted names have none left. */
  ghost predicate KahnDegrees(es: seq<Edge>, names: map<string, nat>, deg: map<string, nat>,
                              done: set<string>, live: set<nat>)
  {
    deg.Keys == names.Keys && (forall n :: n in names ==> deg[n] == EdgesInto(es, names[n], live)) &&
    (forall n :: n in done ==> n in deg && deg[n] == 0)
  }

  /** The queue holds exactly the live names with in-degree zero, each once. */
  ghost predicate KahnQueue(names: map<string, nat>, deg: map<string, nat>, queue: seq<string>, done: set<string>)
    requires deg.Keys == names.Keys
  {
    Distinct(queue) && (forall n :: n in queue ==> n in names && n !in done && deg[n] == 0) &&
    (forall n :: n in names && n !in done && deg[n] == 0 ==> n in queue)
  }

  /** Every emitted name comes after all of its named parents. */
  ghost predicate KahnOrder(es: seq<Edge>, names: map<string, nat>, result: seq<string>,
                            done: set<string>, pos: map<string, nat>)
  {
    pos.Keys == done && (forall i :: 0 <= i < |result| ==> result[i] in pos && pos[result[i]] == i) &&
    (forall a, b :: Linked(es, names, a, b) && b in done ==> a in done && pos[a] < pos[b])
  }

  /**
   * The state of Kahn's main loop: `result` holds the names emitted so far
   * (`done` as a set, `pos` their positions) and `live` the ids of the named
   * nodes not yet emitted.
   */
  ghost predicate KahnInv(es: seq<Edge>, names: map<string, nat>, nameOf: map<nat, string>,
                          deg: map<string, nat>, queue: seq<string>, result: seq<string>,
                          done: set<string>, live: set<nat>, pos: map<string, nat>)
  {
    KahnSets(names, nameOf, result, done, live) && KahnDegrees(es, names, deg, done, live) &&
    KahnQueue(names, deg, queue, done) && KahnOrder(es, names, result, done, pos)
  }

  lemma KahnInit(es: seq<Edge>, names: map<string, nat>, nameOf: map<nat, string>,
                 deg: map<string, nat>, queue: seq<string>)
    requires Inverse(names, nameOf) && deg.Keys == names.Keys
    requires forall n :: n in names ==> deg[n] == EdgesInto(es, names[n], nameOf.Keys)
    requires Distinct(queue) && forall n :: n in queue <==> n in deg && deg[n] == 0
    ensures KahnInv(es, names, nameOf, deg, queue, [], {}, nameOf.Keys, map[])
  {
  }

  /** Taking the edges of one live node off the counts never goes below zero. */
  lemma KahnReleasable(es: seq<Edge>, names: map<string, nat>, nameOf: map<nat, string>,
                       deg: map<string, nat>, queue: seq<string>, result: seq<string>,
                       done: set<string>, live: set<nat>, pos: map<string, nat>)
    requires KahnInv(es, names, nameOf, deg, queue, result, done, live, pos) && queue != []
    ensures names[queue[0]] in live
    ensures forall n :: n in names ==> deg[n] >= EdgesInto(es, names[n], {names[queue[0]]})
    ensures forall n :: n in names ==>
              EdgesInto(es, names[n], live) == EdgesInto(es, names[n], live - {names[queue[0]]}) + EdgesInto(es, names[n], {names[queue[0]]})
  {
    assert queue[0] in queue;
    forall n | n in names
      ensures EdgesInto(es, names[n], live) == EdgesInto(es, names[n], live - {names[queue[0]]}) + EdgesInto(es, names[n], {names[queue[0]]})
    {
      EdgesIntoSplit(es, names[n], live, names[queue[0]]);
    }
  }

  lemma KahnStepSets(names: map<string, nat>, nameOf: map<nat, string>,
                     result: seq<string>, done: set<string>, live: set<nat>, u: string)
    requires KahnSets(names, nameOf, result, done, live) && u in names && u !in done
    ensures KahnSets(names, nameOf, result + [u], done + {u}, live - {names[u]})
  {
    assert done + {u} == (set x | x in result + [u]);
    assert u !in result;
  }

  lemma KahnStepDegrees(es: seq<Edge>, names: map<string, nat>, deg: map<string, nat>,
                        done: set<string>, live: set<nat>, u: string, deg': map<string, nat>)
    requires KahnDegrees(es, names, deg, done, live) && u in names && deg[u] == 0 && names[u] in live
    requires forall n :: n in names ==>
               EdgesInto(es, names[n], live) == EdgesInto(es, names[n], live - {names[u]}) + EdgesInto(es, names[n], {names[u]})
    requires deg'.Keys == deg.Keys
    requires forall n :: n in names ==> deg'[n] + EdgesInto(es, names[n], {names[u]}) == deg[n]
    ensures KahnDegrees(es, names, deg', done + {u}, live - {names[u]})
  {
  }

  lemma KahnStepQueue(names: map<string, nat>, deg: map<string, nat>, queue: seq<string>, done: set<string>,
                      deg': map<string, nat>, queue': seq<string>)
    requires deg.Keys == names.Keys && deg'.Keys == deg.Keys && KahnQueue(names, deg, queue, done) && queue != []
    requires forall n :: n in names ==> deg'[n] <= deg[n]
    requires |queue'| >= |queue| - 1 && queue'[..|queue| - 1] == queue[1..]
    requires forall n :: n in queue'[|queue| - 1..] <==> n in names && deg[n] > 0 && deg'[n] == 0
    requires Distinct(queue'[|queue| - 1..])
    requires forall n :: n in done ==> n in deg && deg[n] == 0
    ensures KahnQueue(names, deg', queue', done + {queue[0]})
  {
    var u := queue[0];
    assert u in queue;
    var rest := queue[1..];
    var extra := queue'[|queue| - 1..];
    assert queue' == rest + extra;
    forall n | n in rest
      ensures n in names && n != u && n !in done && deg'[n] == 0
    {
      var i :| 0 <= i < |rest| && rest[i] == n;
      assert queue[i + 1] == n;
    }
    assert Distinct(queue') by {
      forall i, j | 0 <= i < j < |queue'|
        ensures queue'[i] != queue'[j]
      {
        if j < |rest| {
          assert queue'[i] == queue[i + 1] && queue'[j] == queue[j + 1];
        } else if i >= |rest| {
          assert queue'[i] == extra[i - |rest|] && queue'[j] == extra[j - |rest|];
        } else {
          assert queue'[i] in rest && queue'[j] in extra;
        }
      }
    }
    forall n | n in names && n !in done + {u} && deg'[n] == 0
      ensures n in queue'
    {
      if deg[n] == 0 {
        var i :| 0 <= i < |queue| && queue[i] == n;
        assert i > 0;
        assert rest[i - 1] == n;
      } else {
        assert n in extra;
      }
    }
  }

  lemma KahnStepOrder(es: seq<Edge>, names: map<string, nat>, result: seq<string>, done: set<string>,
                      pos: map<string, nat>, live: set<nat>, u: string)
    requires KahnOrder(es, names, result, done, pos) && u in names && u !in done
    requires done == (set x | x in result)
    requires forall n :: n in names ==> (names[n] in live <==> n !in done)
    requires EdgesInto(es, names[u], live) == 0
    ensures KahnOrder(es, names, result + [u], done + {u}, pos[u := |result|])
  {
    var result' := result + [u];
    var pos' := pos[u := |result|];
    forall i | 0 <= i < |result'|
      ensures result'[i] in pos' && pos'[result'[i]] == i
    {
      if i < |result| {
        assert result'[i] == result[i] && result[i] in done;
      }
    }
    forall a, b | Linked(es, names, a, b) && b in done + {u}
      ensures a in done + {u} && pos'[a] < pos'[b]
    {
      if b == u && names[a] in live {
        EdgeInCounted(es, names[u], live, names[a]);
      }
    }
  }

  /** One round of the main loop keeps `KahnInv`. */
  lemma KahnStep(es: seq<Edge>, names: map<string, nat>, nameOf: map<nat, string>,
                 deg: map<string, nat>, queue: seq<string>, result: seq<string>,
                 done: set<string>, live: set<nat>, pos: map<string, nat>,
                 deg': map<string, nat>, queue': seq<string>)
    requires KahnInv(es, names, nameOf, deg, queue, result, done, live, pos) && queue != []
    requires names[queue[0]] in live
    requires forall n :: n in names ==>
               EdgesInto(es, names[n], live) == EdgesInto(es, names[n], live - {names[queue[0]]}) + EdgesInto(es, names[n], {names[queue[0]]})
    requires deg'.Keys == deg.Keys
    requires forall n :: n in names ==> deg'[n] + EdgesInto(es, names[n], {names[queue[0]]}) == deg[n]
    requires |queue'| >= |queue| - 1 && queue'[..|queue| - 1] == queue[1..]
    requires forall n :: n in queue'[|queue| - 1..] <==> n in names && deg[n] > 0 && deg'[n] == 0
    requires Distinct(queue'[|queue| - 1..])
    ensures KahnInv(es, names, nameOf, deg', queue', result + [queue[0]], done + {queue[0]},
                    live - {names[queue[0]]}, pos[queue[0] := |result|])
  {
    var u := queue[0];
    assert u in queue;
    KahnStepSets(names, nameOf, result, done, live, u);
    KahnStepDegrees(es, names, deg, done, live, u, deg');
    KahnStepQueue(names, deg, queue, done, deg', queue');
    KahnStepOrder(es, names, result, done, pos, live, u);
  }

  /** When the queue runs dry before every name is emitted, the names left over hold a cycle. */
  lemma KahnStuck(es: seq<Edge>, names: map<string, nat>, nameOf: map<nat, string>,
                  deg: map<string, nat>, result: seq<string>,
                  done: set<string>, live: set<nat>, pos: map<string, nat>)
    requires KahnInv(es, names, nameOf, deg, [], result, done, live, pos)
    requires done != names.Keys
    ensures HasCycleWithin(es, nameOf.Keys)
  {
    var n :| n in names && n !in done;
    assert names[n] in live;
    forall x | x in live
      ensures HasPredecessorIn(es, live, x)
    {
      var m := nameOf[x];
      assert names[m] == x && m !in done;
      var u := CountedEdge(es, x, live);
    }
    CycleFromPredecessors(es, live);
    CycleWithinMono(es, live, nameOf.Keys);
  }

  /** When every name is emitted, the order follows the edges and no cycle runs through named nodes. */
  lemma KahnFinished(es: seq<Edge>, names: map<string, nat>, nameOf: map<nat, string>,
                     deg: map<string, nat>, queue: seq<string>, result: seq<string>,
                     done: set<string>, live: set<nat>, pos: map<string, nat>)
    requires KahnInv(es, names, nameOf, deg, queue, result, done, live, pos)
    requires done == names.Keys
    ensures forall i, j :: 0 <= i < |result| && 0 <= j < |result| && (names[result[i]], names[result[j]]) in es ==> i < j
    ensures !HasCycleWithin(es, nameOf.Keys)
  {
    forall i, j | 0 <= i < |result| && 0 <= j < |result| && (names[result[i]], names[result[j]]) in es
      ensures i < j
    {
      assert result[i] in done && result[j] in done;
      assert Linked(es, names, result[i], result[j]);
    }
    if HasCycleWithin(es, nameOf.Keys) {
      var p :| IsCycle(es, p) && Within(p, nameOf.Keys);
      var rank := map x | x in nameOf :: pos[nameOf[x]];
      forall i | 0 <= i < |p| - 1
        ensures rank[p[i]] < rank[p[i + 1]]
      {
        assert Linked(es, names, nameOf[p[i]], nameOf[p[i + 1]]);
      }
      RankGrowsAlongPath(es, p, rank, |p| - 1);
      assert false;
    }
  }

  /** The names heading the entries of a workflow listing. */
  function Heads(w: seq<(string, seq<string>)>): (r: seq<string>)
    ensures |r| == |w| && forall i :: 0 <= i < |w| ==> r[i] == w[i].0
  {
    seq(|w|, i requires 0 <= i < |w| => w[i].0)
  }

  /** Every child list that `w` gives for `n`, in order, keeping only known names. */
  ghost function Listed(w: seq<(string, seq<string>)>, n: string, known: set<string>): seq<string>
    decreases |w|
  {
    if w == [] then []
    else Listed(w[..|w| - 1], n, known) + (if w[|w| - 1].0 == n then Known(w[|w| - 1].1, known) else [])
  }

  /** When `n` heads exactly one entry of `w`, its listed children are that entry's known children. */
  lemma {:induction false} ListedUnique(w: seq<(string, seq<string>)>, n: string, known: set<string>, i: nat)
    requires i < |w| && w[i].0 == n
    requires Distinct(Heads(w))
    ensures Listed(w, n, known) == Known(w[i].1, known)
    decreases |w|
  {
    var front := w[..|w| - 1];
    var last := w[|w| - 1];
    assert Listed(w, n, known) == Listed(front, n, known) + (if last.0 == n then Known(last.1, known) else []);
    if i < |w| - 1 {
      HeadsDistinct(w, i, |w| - 1);
      FrontDistinct(w);
      ListedUnique(front, n, known, i);
      assert Listed(front, n, known) + [] == Listed(front, n, known);
    } else {
      forall a | 0 <= a < |front| ensures front[a].0 != n {
        HeadsDistinct(w, a, i);
      }
      ListedAbsent(front, n, known);
      assert [] + Known(last.1, known) == Known(last.1, known);
    }
  }

  lemma HeadsDistinct(w: seq<(string, seq<string>)>, a: nat, b: nat)
    requires Distinct(Heads(w)) && a < b < |w|
    ensures w[a].0 != w[b].0
  {
    assert Heads(w)[a] == w[a].0 && Heads(w)[b] == w[b].0;
  }

  lemma FrontDistinct(w: seq<(string, seq<string>)>)
    requires Distinct(Heads(w)) && w != []
    ensures Distinct(Heads(w[..|w| - 1]))
  {
    var front := w[..|w| - 1];
    forall a, b | 0 <= a < b < |front|
      ensures Heads(front)[a] != Heads(front)[b]
    {
      HeadsDistinct(w, a, b);
    }
  }

  lemma {:induction false} ListedAbsent(w: seq<(string, seq<string>)>, n: string, known: set<string>)
    requires forall a :: 0 <= a < |w| ==> w[a].0 != n
    ensures Listed(w, n, known) == []
    decreases |w|
  {
    if w != [] {
      ListedAbsent(w[..|w| - 1], n, known);
    }
  }

  lemma ListedSnoc(w: seq<(string, seq<string>)>, i: nat, n: string, known: set<string>)
    requires i < |w|
    ensures Listed(w[..i + 1], n, known) == Listed(w[..i], n, known) + (if w[i].0 == n then Known(w[i].1, known) else [])
  {
    assert w[..i + 1][..i] == w[..i];
  }

  lemma KnownSnoc(cs: seq<string>, j: nat, known: set<string>)
    requires j < |cs|
    ensures Known(cs[..j + 1], known) == Known(cs[..j], known) + (if cs[j] in known then [cs[j]] else [])
  {
    assert cs[..j + 1][..j] == cs[..j];
  }

  /** The named children a row of edges `p -> c` gives to `n`: the known `cs` when `n` is `p`, none otherwise. */
  lemma {:induction false} RowOwnChildren(names: map<string, nat>, nameOf: map<nat, string>,
                                          p: string, cs: seq<string>, n: string)
    requires Inverse(names, nameOf) && p in names && n in names
    ensures NamedOnly(Adjacent(Row(p, cs, names), names[n], true), nameOf) == (if p == n then Known(cs, names.Keys) else [])
    decreases |cs|
  {
    if cs != [] {
      var front := cs[..|cs| - 1];
      var c := cs[|cs| - 1];
      RowOwnChildren(names, nameOf, p, front, n);
      KnownSnoc(cs, |cs| - 1, names.Keys);
      assert cs[..|cs| - 1] == front;
      var tail: seq<Edge> := if c in names then [(names[p], names[c])] else [];
      assert Row(p, cs, names) == Row(p, front, names) + tail;
      AdjacentAppend(Row(p, front, names), tail, names[n], true);
      var ids := Adjacent(Row(p, front, names), names[n], true);
      var more := Adjacent(tail, names[n], true);
      NamedOnlyAppend(ids, more, nameOf);
      if c in names {
        assert Ends((names[p], names[c]), true) == (names[p], names[c]);
        assert more == Adjacent([], names[n], true) + (if names[p] == names[n] then [names[c]] else []);
        if p != n {
          assert names[p] != names[n];
        }
      }
    }
  }

  lemma RowChildren(es: seq<Edge>, names: map<string, nat>, nameOf: map<nat, string>,
                    p: string, cs: seq<string>, n: string)
    requires Inverse(names, nameOf) && p in names && n in names
    ensures NamedOnly(Adjacent(es + Row(p, cs, names), names[n], true), nameOf) ==
            NamedOnly(Adjacent(es, names[n], true), nameOf) + (if p == n then Known(cs, names.Keys) else [])
  {
    AdjacentAppend(es, Row(p, cs, names), names[n], true);
    NamedOnlyAppend(Adjacent(es, names[n], true), Adjacent(Row(p, cs, names), names[n], true), nameOf);
    RowOwnChildren(names, nameOf, p, cs, n);
  }

  /**
   * A set of names that holds the named successors of `s` and is closed under
   * named successors holds every name reachable from `s`.
   */
  lemma SeenCoversReachable(es: seq<Edge>, names: map<string, nat>, nameOf: map<nat, string>, s: nat, seen: set<string>)
    requires Inverse(names, nameOf) && s in nameOf && seen <= names.Keys
    requires forall x :: x in nameOf && (s, x) in es ==> nameOf[x] in seen
    requires forall n, x :: n in seen && x in nameOf && (names[n], x) in es ==> nameOf[x] in seen
    ensures forall n :: n in names && ReachesWithin(es, nameOf.Keys, s, names[n]) ==> n in seen
  {
    var closed := set n | n in seen :: names[n];
    forall n | n in names && ReachesWithin(es, nameOf.Keys, s, names[n])
      ensures n in seen
    {
      var p :| |p| >= 2 && IsPath(es, p) && Within(p, nameOf.Keys) && p[0] == s && p[|p| - 1] == names[n];
      forall x | x in nameOf.Keys && (s, x) in es
        ensures x in closed
      {
        assert names[nameOf[x]] == x;
      }
      forall y, x | y in closed && x in nameOf.Keys && (y, x) in es
        ensures x in closed
      {
        var m :| m in seen && names[m] == y;
        assert names[nameOf[x]] == x;
      }
      ClosedContainsReachable(es, nameOf.Keys, closed, s, p);
      var m :| m in seen && names[m] == names[n];
    }
  }

  class DirectedGraph<T> {
    /** node id -> weight, nodes without a name included */
    var weight: map<nat, T>
    /** the edges in insertion order; the same pair may occur more than once */
    var edges: seq<Edge>
    /** node name -> node id */
    var names: map<string, nat>
    /** node id -> node name: the reverse lookup that the source does by searching `names` */
    var nameOf: map<nat, string>
    /** the id the next added node receives */
    var nextId: nat

    ghost predicate Valid()
      reads this
    {
      Inverse(names, nameOf) && nameOf.Keys <= weight.Keys &&
      (forall x :: x in weight ==> x < nextId) &&
      (forall e :: e in edges ==> e.0 in weight && e.1 in weight)
    }

    constructor ()
      ensures Valid()
      ensures weight == map[] && edges == [] && names == map[] && nameOf == map[] && nextId == 0
    {
      weight, edges, names, nameOf, nextId := map[], [], map[], map[], 0;
    }

    /** The name bound to node `idx`, if any. */
    function IndexToName(idx: nat): (r: Option<string>)
      reads this
      requires Valid()
      ensures forall n :: r == Some(n) <==> n in names && names[n] == idx
    {
      if idx in nameOf then Some(nameOf[idx]) else None
    }

    /**
     * Adds a node under `name`. A name already in use is rebound to the new
     * node; the old node stays in the graph, with its edges, but nameless.
     */
    method AddNode(name: string, data: T)
      requires Valid()
      modifies this
      ensures Valid()
      ensures old(nextId) !in old(weight)
      ensures weight == old(weight)[old(nextId) := data] && edges == old(edges)
      ensures names == old(names)[name := old(nextId)]
      ensures nextId == old(nextId) + 1
    {
      var id := nextId;
      if name in names {
        nameOf := nameOf - {names[name]};
      }
      names := names[name := id];
      nameOf := nameOf[id := name];
      weight := weight[id := data];
      nextId := nextId + 1;
    }

    /** Adds an edge between two named nodes; does nothing when either name is unknown. */
    method AddConnection(from: string, to: string)
      requires Valid()
      modifies this
      ensures Valid()
      ensures names == old(names) && nameOf == old(nameOf) && weight == old(weight) && nextId == old(nextId)
      ensures edges == old(edges) + (if from in names && to in names then [(names[from], names[to])] else [])
    {
      if from in names && to in names {
        edges := edges + [(names[from], names[to])];
      }
    }

    /** Removes one `from -> to` edge when both names are known and such an edge exists. */
    method RemoveConnection(from: string, to: string)
      requires Valid()
      modifies this
      ensures Valid()
      ensures names == old(names) && nameOf == old(nameOf) && weight == old(weight) && nextId == old(nextId)
      ensures edges == if from in names && to in names then RemoveOne(old(edges), (names[from], names[to])) else old(edges)
    {
      if from in names && to in names {
        edges := RemoveOne(edges, (names[from], names[to]));
      }
    }

    /** Removes the old connection, then adds the new one. */
    method UpdateConnection(oldFrom: string, oldTo: string, newFrom: string, newTo: string)
      requires Valid()
      modifies this
      ensures Valid()
      ensures names == old(names) && nameOf == old(nameOf) && weight == old(weight) && nextId == old(nextId)
      ensures var mid := if oldFrom in names && oldTo in names then RemoveOne(old(edges), (names[oldFrom], names[oldTo]))
                         else old(edges);
              edges == mid + (if newFrom in names && newTo in names then [(names[newFrom], names[newTo])] else [])
    {
      RemoveConnection(oldFrom, oldTo);
      AddConnection(newFrom, newTo);
    }

    /** The names of the named nodes at the far end of the edges leaving (or entering) `n`, one per edge. */
    function NeighbourNames(n: string, forward: bool): (r: seq<string>)
      reads this
      requires Valid() && n in names
      ensures forall m :: m in r <==> m in names && (names[n], names[m]) in Dir(edges, forward)
    {
      var ids := Adjacent(edges, names[n], forward);
      var r := NamedOnly(ids, nameOf);
      AdjacentMembers(edges, names[n], forward);
      NamedOnlyMembers(ids, nameOf);
      assert forall m :: m in names && (names[n], names[m]) in Dir(edges, forward) ==> m in r by {
        forall m | m in names && (names[n], names[m]) in Dir(edges, forward)
          ensures m in r
        {
          var k :| 0 <= k < |ids| && ids[k] == names[m];
        }
      }
      r
    }

    /** The weights at the far end of every edge leaving `name`; none for an unknown name. */
    function GetDirectChildren(name: string): (r: seq<T>)
      reads this
      requires Valid()
      ensures name !in names ==> r == []
      ensures name in names ==> |r| == |Adjacent(edges, names[name], true)|
      ensures name in names ==> forall k :: 0 <= k < |r| ==>
                exists x :: x in weight && (names[name], x) in edges && r[k] == weight[x]
      ensures name in names ==> forall x :: x in weight && (names[name], x) in edges ==> weight[x] in r
    {
      if name !in names then []
      else
        var ids := Adjacent(edges, names[name], true);
        DirForward(edges);
        AdjacentMembers(edges, names[name], true);
        assert forall k :: 0 <= k < |ids| ==> ids[k] in weight && (names[name], ids[k]) in edges by {
          forall k | 0 <= k < |ids|
            ensures ids[k] in weight && (names[name], ids[k]) in edges
          {
            assert ids[k] in ids;
          }
        }
        var wt := weight;
        var r := seq(|ids|, k requires 0 <= k < |ids| => wt[ids[k]]);
        assert forall x :: x in weight && (names[name], x) in edges ==> weight[x] in r by {
          forall x | x in weight && (names[name], x) in edges
            ensures weight[x] in r
          {
            var k :| 0 <= k < |ids| && ids[k] == x;
            assert r[k] == weight[x];
          }
        }
        r
    }

    /** The weights at the near end of every edge entering `name`; none for an unknown name. */
    function GetDirectParents(name: string): (r: seq<T>)
      reads this
      requires Valid()
      ensures name !in names ==> r == []
      ensures name in names ==> |r| == |Adjacent(edges, names[name], false)|
      ensures name in names ==> forall k :: 0 <= k < |r| ==>
                exists x :: x in weight && (x, names[name]) in edges && r[k] == weight[x]
      ensures name in names ==> forall x :: x in weight && (x, names[name]) in edges ==> weight[x] in r
    {
      if name !in names then []
      else
        var ids := Adjacent(edges, names[name], false);
        AdjacentMembers(edges, names[name], false);
        assert forall k :: 0 <= k < |ids| ==> ids[k] in weight && (ids[k], names[name]) in edges by {
          forall k | 0 <= k < |ids|
            ensures ids[k] in weight && (ids[k], names[name]) in edges
          {
            assert ids[k] in ids;
            var j :| 0 <= j < |edges| && Dir(edges, false)[j] == (names[name], ids[k]);
            assert edges[j] == (ids[k], names[name]);
          }
        }
        var wt := weight;
        var r := seq(|ids|, k requires 0 <= k < |ids| => wt[ids[k]]);
        assert forall x :: x in weight && (x, names[name]) in edges ==> weight[x] in r by {
          forall x | x in weight && (x, names[name]) in edges
            ensures weight[x] in r
          {
            var j :| 0 <= j < |edges| && edges[j] == (x, names[name]);
            assert Dir(edges, false)[j] == (names[name], x);
            var k :| 0 <= k < |ids| && ids[k] == x;
            assert r[k] == weight[x];
          }
        }
        r
    }

    /** Adds the edges `p -> c` for each `c` in `cs`, wherever both are named. */
    method ConnectRow(p: string, cs: seq<string>)
      requires Valid()
      modifies this
      ensures Valid()
      ensures names == old(names) && nameOf == old(nameOf) && weight == old(weight) && nextId == old(nextId)
      ensures edges == old(edges) + Row(p, cs, names)
    {
      var j := 0;
      while j < |cs|
        invariant 0 <= j <= |cs|
        invariant Valid()
        invariant names == old(names) && nameOf == old(nameOf) && weight == old(weight) && nextId == old(nextId)
        invariant edges == old(edges) + Row(p, cs[..j], names)
      {
        AddConnection(p, cs[j]);
        assert cs[..j + 1][..j] == cs[..j];
        j := j + 1;
      }
      assert cs[..|cs|] == cs;
    }

    /** Adds the edges `p -> c` for each `p` in `ps` and each `c` in `cs`, wherever both are named. */
    method ConnectAll(ps: seq<string>, cs: seq<string>)
      requires Valid()
      modifies this
      ensures Valid()
      ensures names == old(names) && nameOf == old(nameOf) && weight == old(weight) && nextId == old(nextId)
      ensures edges == old(edges) + Reconnect(ps, cs, names)
    {
      var i := 0;
      while i < |ps|
        invariant 0 <= i <= |ps|
        invariant Valid()
        invariant names == old(names) && nameOf == old(nameOf) && weight == old(weight) && nextId == old(nextId)
        invariant edges == old(edges) + Reconnect(ps[..i], cs, names)
      {
        ConnectRow(ps[i], cs);
        assert ps[..i + 1][..i] == ps[..i];
        i := i + 1;
      }
      assert ps[..|ps|] == ps;
    }

    /**
     * Removes `name` and its node with every edge touching it, then links each
     * former named parent to each former named child.
     */
    method RemoveNode(name: string)
      requires Valid()
      modifies this
      ensures Valid()
      ensures nextId == old(nextId)
      ensures name !in old(names) ==> names == old(names) && weight == old(weight) && edges == old(edges)
      ensures name in old(names) ==>
                names == old(names) - {name} && weight == old(weight) - {old(names)[name]} &&
                edges == Drop(old(edges), old(names)[name]) +
                         Reconnect(old(NeighbourNames(name, false)), old(NeighbourNames(name, true)), names)
    {
      if name in names {
        var idx := names[name];
        var parents := NeighbourNames(name, false);
        var children := NeighbourNames(name, true);
        weight := weight - {idx};
        edges := Drop(edges, idx);
        names := names - {name};
        nameOf := nameOf - {idx};
        assert Inverse(names, nameOf);
        ConnectAll(parents, children);
      }
    }

    /**
     * Rebinds the node of `oldName` to `newName`, keeping its edges and
     * weight; a node that `newName` named before loses its name. Nothing
     * happens when `oldName` is unknown.
     */
    method RenameNode(oldName: string, newName: string)
      requires Valid()
      modifies this
      ensures Valid()
      ensures weight == old(weight) && edges == old(edges) && nextId == old(nextId)
      ensures oldName !in old(names) ==> names == old(names)
      ensures oldName in old(names) ==> names == (old(names) - {oldName})[newName := old(names)[oldName]]
    {
      if oldName in names {
        var idx := names[oldName];
        if newName in names && names[newName] != idx {
          nameOf := nameOf - {names[newName]};
        }
        names := (names - {oldName})[newName := idx];
        nameOf := nameOf[idx := newName];
      }
    }

    /** The names with no edge on one side: no incoming edge when `forward` is false, no outgoing one otherwise. */
    method NamesWithoutEdges(forward: bool) returns (r: seq<string>)
      requires Valid()
      ensures Distinct(r)
      ensures forall n :: n in r <==> n in names && forall k :: 0 <= k < |edges| ==> Ends(edges[k], forward).0 != names[n]
    {
      r := [];
      var todo := names.Keys;
      while todo != {}
        invariant todo <= names.Keys
        invariant Distinct(r)
        invariant forall n :: n in r <==>
                    n in names && n !in todo && forall k :: 0 <= k < |edges| ==> Ends(edges[k], forward).0 != names[n]
        decreases todo
      {
        var n :| n in todo;
        AdjacentEmpty(edges, names[n], forward);
        if |Adjacent(edges, names[n], forward)| == 0 {
          r := r + [n];
        }
        todo := todo - {n};
      }
    }

    /** The names no edge enters, nameless parents counted too. */
    method GetRootNodes() returns (r: seq<string>)
      requires Valid()
      ensures Distinct(r)
      ensures forall n :: n in r <==> n in names && forall k :: 0 <= k < |edges| ==> edges[k].1 != names[n]
    {
      r := NamesWithoutEdges(false);
    }

    /** The names no edge leaves, nameless children counted too. */
    method GetLeafNodes() returns (r: seq<string>)
      requires Valid()
      ensures Distinct(r)
      ensures forall n :: n in r <==> n in names && forall k :: 0 <= k < |edges| ==> edges[k].0 != names[n]
    {
      r := NamesWithoutEdges(true);
    }

    /**
     * Depth-first search from node `cur` through named nodes, following
     * edges forwards or backwards; a name joins `seen` before its node is
     * searched, so every name is searched at most once.
     */
    method Dfs(cur: nat, forward: bool, visited: set<string>) returns (seen: set<string>)
      requires Valid() && cur in nameOf && visited <= names.Keys
      ensures visited <= seen <= names.Keys
      ensures forall x :: x in nameOf && (cur, x) in Dir(edges, forward) ==> nameOf[x] in seen
      ensures forall n, x :: n in seen - visited && x in nameOf && (names[n], x) in Dir(edges, forward) ==> nameOf[x] in seen
      ensures forall n :: n in seen - visited ==> ReachesWithin(Dir(edges, forward), nameOf.Keys, cur, names[n])
      decreases names.Keys - visited
    {
      seen := visited;
      var j := 0;
      while j < |edges|
        invariant 0 <= j <= |edges|
        invariant visited <= seen <= names.Keys
        invariant forall k :: 0 <= k < j && Ends(edges[k], forward).0 == cur && Ends(edges[k], forward).1 in nameOf ==>
                    nameOf[Ends(edges[k], forward).1] in seen
        invariant forall n, x :: n in seen - visited && names[n] != cur && x in nameOf && (names[n], x) in Dir(edges, forward) ==>
                    nameOf[x] in seen
        invariant forall n :: n in seen - visited ==> ReachesWithin(Dir(edges, forward), nameOf.Keys, cur, names[n])
      {
        var e := Ends(edges[j], forward);
        if e.0 == cur {
          match IndexToName(e.1)
          case Some(child) =>
            if child !in seen {
              assert Dir(edges, forward)[j] == (cur, e.1);
              ReachOneEdge(Dir(edges, forward), nameOf.Keys, cur, e.1);
              var before := seen + {child};
              seen := Dfs(e.1, forward, before);
              forall n | n in seen - visited
                ensures ReachesWithin(Dir(edges, forward), nameOf.Keys, cur, names[n])
              {
                if n !in before {
                  ReachPrepend(Dir(edges, forward), nameOf.Keys, cur, e.1, names[n]);
                }
              }
            }
          case None =>
        }
        j := j + 1;
      }
      forall x | x in nameOf && (cur, x) in Dir(edges, forward)
        ensures nameOf[x] in seen
      {
        var k :| 0 <= k < |edges| && Dir(edges, forward)[k] == (cur, x);
      }
    }

    /** Every name reachable from `name` by one or more edges through named nodes. */
    method GetAllChildren(name: string) returns (r: set<string>)
      requires Valid()
      ensures forall n :: n in r <==> name in names && n in names && ReachesWithin(edges, nameOf.Keys, names[name], names[n])
    {
      r := {};
      if name in names {
        DirForward(edges);
        r := Dfs(names[name], true, {});
        SeenCoversReachable(edges, names, nameOf, names[name], r);
      }
    }

    /** Every name from which `name` is reachable: the same search along edges read backwards. */
    method GetAllParents(name: string) returns (r: set<string>)
      requires Valid()
      ensures forall n :: n in r <==>
                name in names && n in names && ReachesWithin(Dir(edges, false), nameOf.Keys, names[name], names[n])
    {
      r := {};
      if name in names {
        r := Dfs(names[name], false, {});
        SeenCoversReachable(Dir(edges, false), names, nameOf, names[name], r);
      }
    }

    /**
     * Kahn's algorithm over the named nodes: either every name, each once,
     * with each edge between named nodes going forwards, or the cycle error
     * exactly when some cycle runs through named nodes only.
     */
    method TopologicalSort() returns (r: Result<seq<string>, string>)
      requires Valid()
      ensures r.Ok? ==> Distinct(r.value) && forall n :: n in r.value <==> n in names
      ensures r.Ok? ==> forall i, j ::
                          0 <= i < |r.value| && 0 <= j < |r.value| && (names[r.value[i]], names[r.value[j]]) in edges ==> i < j
      ensures r.Err? ==> r.error == CYCLE_ERROR
      ensures r.Err? <==> HasCycleWithin(edges, nameOf.Keys)
    {
      var deg := CountInDegrees(edges, names, nameOf);
      var queue := ZeroDegreeQueue(deg);
      var result: seq<string> := [];
      ghost var done: set<string> := {};
      ghost var live := nameOf.Keys;
      ghost var pos: map<string, nat> := map[];
      KahnInit(edges, names, nameOf, deg, queue);
      while queue != []
        invariant KahnInv(edges, names, nameOf, deg, queue, result, done, live, pos)
        decreases names.Keys - done
      {
        KahnReleasable(edges, names, nameOf, deg, queue, result, done, live, pos);
        var u := queue[0];
        var deg', queue' := ReleaseChildren(edges, names, nameOf, names[u], deg, queue[1..]);
        KahnStep(edges, names, nameOf, deg, queue, result, done, live, pos, deg', queue');
        result, done, live, pos := result + [u], done + {u}, live - {names[u]}, pos[u := |result|];
        deg, queue := deg', queue';
      }
      DistinctCard(result);
      assert |names| == |names.Keys|;
      if |result| < |names| {
        KahnStuck(edges, names, nameOf, deg, result, done, live, pos);
        r := Err(CYCLE_ERROR);
      } else {
        SubsetCardEq(done, names.Keys);
        KahnFinished(edges, names, nameOf, deg, queue, result, done, live, pos);
        r := Ok(result);
      }
    }

    /** Every name with its named children, each name once. */
    method ToWorkflow() returns (w: seq<(string, seq<string>)>)
      requires Valid()
      ensures Distinct(Heads(w))
      ensures forall n :: n in Heads(w) <==> n in names
      ensures forall i :: 0 <= i < |w| ==> w[i].0 in names && w[i].1 == NeighbourNames(w[i].0, true)
    {
      w := [];
      var todo := names.Keys;
      while todo != {}
        invariant todo <= names.Keys
        invariant Distinct(Heads(w))
        invariant forall n :: n in Heads(w) <==> n in names && n !in todo
        invariant forall i :: 0 <= i < |w| ==> w[i].0 in names && w[i].1 == NeighbourNames(w[i].0, true)
        decreases todo
      {
        var n :| n in todo;
        var entry := (n, NeighbourNames(n, true));
        assert Heads(w + [entry]) == Heads(w) + [n];
        w := w + [entry];
        todo := todo - {n};
      }
    }

    /**
     * Builds a graph from a list of names with their children: first a node
     * per entry, then an edge per listed child that names a node.
     */
    static method FromWorkflow(w: seq<(string, seq<string>)>, toT: string -> T) returns (g: DirectedGraph<T>)
      ensures fresh(g) && g.Valid()
      ensures forall n :: n in g.names <==> n in Heads(w)
      ensures forall n :: n in g.names ==> g.weight[g.names[n]] == toT(n)
      ensures forall n :: n in g.names ==> g.NeighbourNames(n, true) == Listed(w, n, g.names.Keys)
    {
      g := new DirectedGraph();
      var i := 0;
      while i < |w|
        invariant 0 <= i <= |w|
        invariant fresh(g) && g.Valid() && g.edges == []
        invariant forall n :: n in g.names <==> n in Heads(w[..i])
        invariant forall n :: n in g.names ==> g.weight[g.names[n]] == toT(n)
        modifies g
      {
        assert Heads(w[..i + 1]) == Heads(w[..i]) + [w[i].0];
        g.AddNode(w[i].0, toT(w[i].0));
        i := i + 1;
      }
      assert w[..|w|] == w;
      g.ConnectEntries(w);
    }

    /** The second half of `FromWorkflow`: the edges of every entry, entry by entry. */
    method ConnectEntries(w: seq<(string, seq<string>)>)
      requires Valid() && edges == [] && forall i :: 0 <= i < |w| ==> w[i].0 in names
      modifies this
      ensures Valid() && names == old(names) && weight == old(weight)
      ensures forall n :: n in names ==> NeighbourNames(n, true) == Listed(w, n, names.Keys)
    {
      var i := 0;
      while i < |w|
        invariant 0 <= i <= |w|
        invariant Valid() && names == old(names) && weight == old(weight)
        invariant forall n :: n in names ==> NeighbourNames(n, true) == Listed(w[..i], n, names.Keys)
      {
        ghost var es := edges;
        ConnectRow(w[i].0, w[i].1);
        forall n | n in names
          ensures NeighbourNames(n, true) == Listed(w[..i + 1], n, names.Keys)
        {
          ListedSnoc(w, i, n, names.Keys);
          RowChildren(es, names, nameOf, w[i].0, w[i].1, n);
        }
        i := i + 1;
      }
      assert w[..|w|] == w;
    }

    /** Graphs without cycles sort; with every node named, sorting succeeds exactly on acyclic graphs. */
    lemma SortAgreesWithIsDag()
      requires Valid()
      ensures IsDag() ==> !HasCycleWithin(edges, nameOf.Keys)
      ensures nameOf.Keys == weight.Keys ==> (IsDag() <==> !HasCycleWithin(edges, nameOf.Keys))
    {
      if HasCycleWithin(edges, nameOf.Keys) {
        CycleWithinMono(edges, nameOf.Keys, weight.Keys);
      }
    }

    /** Whether the graph, nameless nodes included, has no cycle. */
    ghost predicate IsDag()
      reads this
    {
      !HasCycleWithin(edges, weight.Keys)
    }
  }

  /** Exporting a graph and importing it again keeps every name and, per name, its named children. */
  method RoundTrip<T>(g: DirectedGraph<T>, toT: string -> T) returns (g2: DirectedGraph<T>)
    requires g.Valid()
    ensures g2.Valid() && g2.names.Keys == g.names.Keys
    ensures forall n :: n in g.names ==> g2.NeighbourNames(n, true) == g.NeighbourNames(n, true)
  {
    var w := g.ToWorkflow();
    g2 := DirectedGraph.FromWorkflow(w, toT);
    assert g2.names.Keys == g.names.Keys;
    forall n | n in g.names
      ensures g2.NeighbourNames(n, true) == g.NeighbourNames(n, true)
    {
      var i :| 0 <= i < |w| && Heads(w)[i] == n;
      ListedUnique(w, n, g2.names.Keys, i);
      KnownAll(w[i].1, g2.names.Keys);
    }
  }
}
