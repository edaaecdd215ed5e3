/**
 * Paths, cycles and edge counts over a directed multigraph whose nodes are
 * numbered and whose edges are kept as a sequence of (from, to) pairs.
 * These are the facts the directed-graph operations are proved with.
 */
module GraphPaths {
  type Edge = (nat, nat)

  /** `p` follows edges of `es` from its first node to its last. */
  ghost predicate IsPath(es: seq<Edge>, p: seq<nat>)
  {
    |p| >= 1 && forall i :: 0 <= i < |p| - 1 ==> (p[i], p[i + 1]) in es
  }

  /** A path of at least one edge that ends where it starts. */
  ghost predicate IsCycle(es: seq<Edge>, p: seq<nat>)
  {
    |p| >= 2 && IsPath(es, p) && p[0] == p[|p| - 1]
  }

  /** Some edge of `es` enters `x` from a node of `r`. */
  ghost predicate HasPredecessorIn(es: seq<Edge>, r: set<nat>, x: nat)
  {
    exists u :: u in r && (u, x) in es
  }

  /**
   * Every node of `r` has a predecessor in `r`. The trigger keeps the
   * solver from chasing predecessors of predecessors on its own.
   */
  ghost predicate AllHavePredecessor(es: seq<Edge>, r: set<nat>)
  {
    forall x {:trigger HasPredecessorIn(es, r, x)} :: x in r ==> HasPredecessorIn(es, r, x)
  }

  ghost predicate Within(p: seq<nat>, s: set<nat>)
  {
    forall i :: 0 <= i < |p| ==> p[i] in s
  }

  /** Some cycle of `es` visits only nodes of `s`. */
  ghost predicate HasCycleWithin(es: seq<Edge>, s: set<nat>)
  {
    exists p :: IsCycle(es, p) && Within(p, s)
  }

  /** `b` is reachable from `a` by one or more edges whose nodes all lie in `s`. */
  ghost predicate ReachesWithin(es: seq<Edge>, s: set<nat>, a: nat, b: nat)
  {
    exists p :: |p| >= 2 && IsPath(es, p) && Within(p, s) && p[0] == a && p[|p| - 1] == b
  }

  ghost predicate Distinct<T>(s: seq<T>)
  {
    forall i, j :: 0 <= i < j < |s| ==> s[i] != s[j]
  }

  lemma {:induction false} DistinctCard<T>(s: seq<T>)
    requires Distinct(s)
    ensures |set x | x in s| == |s|
  {
    if s != [] {
      var rest := s[1..];
      DistinctCard(rest);
      assert (set x | x in s) == (set x | x in rest) + {s[0]};
      assert s[0] !in rest;
    }
  }

  lemma SubsetCard<T>(a: set<T>, b: set<T>)
    requires a <= b
    ensures |a| <= |b|
  {
    assert b == a + (b - a);
  }

  /** A subset at least as large as its superset is the superset. */
  lemma SubsetCardEq<T>(a: set<T>, b: set<T>)
    requires a <= b && |a| >= |b|
    ensures a == b
  {
    if a != b {
      var x :| x in b && x !in a;
      SubsetCard(a, b - {x});
    }
  }

  /** A sequence longer than the set it draws from repeats an element. */
  lemma Pigeonhole<T>(w: seq<T>, s: set<T>) returns (i: nat, j: nat)
    requires forall k :: 0 <= k < |w| ==> w[k] in s
    requires |w| > |s|
    ensures i < j < |w| && w[i] == w[j]
  {
    if Distinct(w) {
      DistinctCard(w);
      SubsetCard((set x | x in w), s);
      assert false;
    }
    i, j :| 0 <= i < j < |w| && w[i] == w[j];
  }

  /** A predecessor of `x` inside `r`, which `AllHavePredecessor` promises. */
  ghost function SomePredecessor(es: seq<Edge>, r: set<nat>, x: nat): (u: nat)
    requires x in r && AllHavePredecessor(es, r)
    ensures u in r && (u, x) in es
  {
    assert HasPredecessorIn(es, r, x);
    var u :| u in r && (u, x) in es; u
  }

  /** A walk of `n` steps backwards along edges, staying inside `r`. */
  ghost function BackWalk(es: seq<Edge>, r: set<nat>, v: nat, n: nat): (w: seq<nat>)
    requires v in r && AllHavePredecessor(es, r)
    ensures |w| == n + 1 && w[0] == v
    ensures forall k :: 0 <= k < |w| ==> w[k] in r
    ensures forall k :: 0 <= k < n ==> (w[k + 1], w[k]) in es
    decreases n
  {
    if n == 0 then [v] else [v] + BackWalk(es, r, SomePredecessor(es, r, v), n - 1)
  }

  /** A repeated node on a backward walk closes a cycle: read the stretch between the repeats forwards. */
  lemma RepeatGivesCycle(es: seq<Edge>, r: set<nat>, w: seq<nat>, i: nat, j: nat)
    requires i < j < |w| && w[i] == w[j]
    requires forall k :: 0 <= k < |w| ==> w[k] in r
    requires forall k :: 0 <= k < |w| - 1 ==> (w[k + 1], w[k]) in es
    ensures HasCycleWithin(es, r)
  {
    var c := seq(j - i + 1, k requires 0 <= k <= j - i => w[j - k]);
    forall k | 0 <= k < |c| - 1
      ensures (c[k], c[k + 1]) in es
    {
      assert c[k] == w[j - k] && c[k + 1] == w[j - k - 1];
    }
    assert IsCycle(es, c) && Within(c, r);
  }

  /** When every node of a non-empty set has a predecessor in the set, the set holds a cycle. */
  lemma CycleFromPredecessors(es: seq<Edge>, r: set<nat>)
    requires r != {}
    requires AllHavePredecessor(es, r)
    ensures HasCycleWithin(es, r)
  {
    var v :| v in r;
    var w := BackWalk(es, r, v, |r|);
    var i, j := Pigeonhole(w, r);
    RepeatGivesCycle(es, r, w, i, j);
  }

  /** Along a path whose every edge goes forward in a ranking, the rank grows. */
  lemma {:induction false} RankGrowsAlongPath(es: seq<Edge>, p: seq<nat>, rank: map<nat, nat>, k: nat)
    requires IsPath(es, p) && 1 <= k < |p|
    requires forall i :: 0 <= i < |p| ==> p[i] in rank
    requires forall i :: 0 <= i < |p| - 1 ==> rank[p[i]] < rank[p[i + 1]]
    ensures rank[p[0]] < rank[p[k]]
  {
    if k > 1 {
      RankGrowsAlongPath(es, p, rank, k - 1);
    }
  }

  /** Shifting a path by one node keeps it a path. */
  lemma PathTail(es: seq<Edge>, p: seq<nat>)
    requires IsPath(es, p) && |p| >= 2
    ensures IsPath(es, p[1..])
  {
    forall i | 0 <= i < |p[1..]| - 1
      ensures (p[1..][i], p[1..][i + 1]) in es
    {
      assert p[1..][i] == p[i + 1] && p[1..][i + 1] == p[i + 2];
    }
  }

  /**
   * A set that contains the successors of `a` and is closed under successors
   * contains every node reachable from `a`.
   */
  lemma {:induction false} ClosedContainsReachable(es: seq<Edge>, s: set<nat>, closed: set<nat>, a: nat, p: seq<nat>)
    requires |p| >= 2 && IsPath(es, p) && Within(p, s) && p[0] == a
    requires forall x :: x in s && (a, x) in es ==> x in closed
    requires forall y, x :: y in closed && x in s && (y, x) in es ==> x in closed
    ensures p[|p| - 1] in closed
    decreases |p|
  {
    if |p| == 2 {
      assert (a, p[1]) in es;
    } else {
      var q := p[..|p| - 1];
      assert IsPath(es, q) by {
        forall i | 0 <= i < |q| - 1
          ensures (q[i], q[i + 1]) in es
        {
          assert q[i] == p[i] && q[i + 1] == p[i + 1];
        }
      }
      ClosedContainsReachable(es, s, closed, a, q);
      assert (p[|p| - 2], p[|p| - 1]) in es;
    }
  }

  // ---- counting edges ----

  /** The number of edges of `es` that end at `t` and start in `from`. */
  function EdgesInto(es: seq<Edge>, t: nat, from: set<nat>): nat
    decreases |es|
  {
    if es == [] then 0
    else EdgesInto(es[..|es| - 1], t, from) + (if es[|es| - 1].1 == t && es[|es| - 1].0 in from then 1 else 0)
  }

  lemma {:induction false} EdgesIntoSplit(es: seq<Edge>, t: nat, from: set<nat>, x: nat)
    requires x in from
    ensures EdgesInto(es, t, from) == EdgesInto(es, t, from - {x}) + EdgesInto(es, t, {x})
    decreases |es|
  {
    if es != [] {
      EdgesIntoSplit(es[..|es| - 1], t, from, x);
    }
  }

  lemma {:induction false} EdgesIntoPrefix(es: seq<Edge>, t: nat, from: set<nat>, j: nat)
    requires j <= |es|
    ensures EdgesInto(es[..j], t, from) <= EdgesInto(es, t, from)
    decreases |es|
  {
    if j < |es| {
      assert es[..|es| - 1][..j] == es[..j];
      EdgesIntoPrefix(es[..|es| - 1], t, from, j);
    } else {
      assert es[..j] == es;
    }
  }

  lemma {:induction false} EdgesIntoStep(es: seq<Edge>, t: nat, from: set<nat>, j: nat)
    requires j < |es|
    ensures EdgesInto(es[..j + 1], t, from) ==
            EdgesInto(es[..j], t, from) + (if es[j].1 == t && es[j].0 in from then 1 else 0)
  {
    assert es[..j + 1][..j] == es[..j];
  }

  /** An edge that ends at `t` and starts in `from` is counted. */
  lemma {:induction false} EdgeCounted(es: seq<Edge>, t: nat, from: set<nat>, k: nat)
    requires k < |es| && es[k].1 == t && es[k].0 in from
    ensures EdgesInto(es, t, from) >= 1
    decreases |es|
  {
    if k < |es| - 1 {
      EdgeCounted(es[..|es| - 1], t, from, k);
    }
  }

  lemma EdgeInCounted(es: seq<Edge>, t: nat, from: set<nat>, u: nat)
    requires u in from && (u, t) in es
    ensures EdgesInto(es, t, from) >= 1
  {
    var k :| 0 <= k < |es| && es[k] == (u, t);
    EdgeCounted(es, t, from, k);
  }

  /** A positive count is witnessed by an edge. */
  lemma {:induction false} CountedEdge(es: seq<Edge>, t: nat, from: set<nat>) returns (u: nat)
    requires EdgesInto(es, t, from) > 0
    ensures u in from && (u, t) in es
    decreases |es|
  {
    var last := es[|es| - 1];
    if last.1 == t && last.0 in from {
      u := last.0;
    } else {
      u := CountedEdge(es[..|es| - 1], t, from);
    }
  }

  // ---- edge lists ----

  /** An edge read forwards, or backwards when `forward` is false. */
  function Ends(e: Edge, forward: bool): Edge
  {
    if forward then e else (e.1, e.0)
  }

  /** The edges, each read in direction `forward`. */
  ghost function Dir(es: seq<Edge>, forward: bool): (r: seq<Edge>)
    ensures |r| == |es|
    ensures forall k :: 0 <= k < |es| ==> r[k] == Ends(es[k], forward)
  {
    seq(|es|, k requires 0 <= k < |es| => Ends(es[k], forward))
  }

  lemma DirForward(es: seq<Edge>)
    ensures Dir(es, true) == es
  {
  }

  lemma DirSnoc(es: seq<Edge>, forward: bool)
    requires es != []
    ensures Dir(es, forward) == Dir(es[..|es| - 1], forward) + [Ends(es[|es| - 1], forward)]
  {
  }

  /**
   * The nodes at the far end of the edges leaving `u` (or entering it when
   * `forward` is false), one entry per edge, in edge order.
   */
  function Adjacent(es: seq<Edge>, u: nat, forward: bool): (r: seq<nat>)
    ensures |r| <= |es|
    decreases |es|
  {
    if es == [] then []
    else
      var e := Ends(es[|es| - 1], forward);
      Adjacent(es[..|es| - 1], u, forward) + (if e.0 == u then [e.1] else [])
  }

  /** The adjacent nodes are exactly the far ends of the edges at `u`. */
  lemma {:induction false} AdjacentMembers(es: seq<Edge>, u: nat, forward: bool)
    ensures forall x :: x in Adjacent(es, u, forward) <==> (u, x) in Dir(es, forward)
    decreases |es|
  {
    if es != [] {
      DirSnoc(es, forward);
      AdjacentMembers(es[..|es| - 1], u, forward);
    }
  }

  lemma {:induction false} AdjacentAppend(es: seq<Edge>, more: seq<Edge>, u: nat, forward: bool)
    ensures Adjacent(es + more, u, forward) == Adjacent(es, u, forward) + Adjacent(more, u, forward)
    decreases |more|
  {
    if more == [] {
      assert es + more == es;
    } else {
      var front := more[..|more| - 1];
      AdjacentAppend(es, front, u, forward);
      assert (es + more)[..|es + more| - 1] == es + front;
    }
  }

  /** No adjacent node at all exactly when no edge touches `u` on that side. */
  lemma AdjacentEmpty(es: seq<Edge>, u: nat, forward: bool)
    ensures Adjacent(es, u, forward) == [] <==> forall k :: 0 <= k < |es| ==> Ends(es[k], forward).0 != u
  {
    var r := Adjacent(es, u, forward);
    AdjacentMembers(es, u, forward);
    if r != [] {
      assert r[0] in r;
      var k :| 0 <= k < |es| && Dir(es, forward)[k] == (u, r[0]);
    }
  }

  /** The edges that touch neither end at `x`, in their original order. */
  function Drop(es: seq<Edge>, x: nat): (r: seq<Edge>)
    ensures forall e :: e in r <==> e in es && e.0 != x && e.1 != x
    decreases |es|
  {
    if es == [] then []
    else
      var e := es[|es| - 1];
      assert es == es[..|es| - 1] + [e];
      Drop(es[..|es| - 1], x) + (if e.0 != x && e.1 != x then [e] else [])
  }

  /** Removes one occurrence of `e`, if there is any. */
  function RemoveOne(es: seq<Edge>, e: Edge): (r: seq<Edge>)
    ensures multiset(r) == multiset(es) - multiset{e}
    ensures e !in es ==> r == es
    ensures forall x :: x in r ==> x in es
    decreases |es|
  {
    if es == [] then []
    else
      assert es == [es[0]] + es[1..];
      if es[0] == e then es[1..]
      else [es[0]] + RemoveOne(es[1..], e)
  }

  /** A cycle inside a set is a cycle inside any larger set. */
  lemma CycleWithinMono(es: seq<Edge>, s: set<nat>, t: set<nat>)
    requires s <= t && HasCycleWithin(es, s)
    ensures HasCycleWithin(es, t)
  {
    var p :| IsCycle(es, p) && Within(p, s);
    assert Within(p, t);
  }

  /** An edge into the start of a path extends it. */
  lemma ReachPrepend(es: seq<Edge>, s: set<nat>, a: nat, b: nat, c: nat)
    requires a in s && (a, b) in es && ReachesWithin(es, s, b, c)
    ensures ReachesWithin(es, s, a, c)
  {
    var p :| |p| >= 2 && IsPath(es, p) && Within(p, s) && p[0] == b && p[|p| - 1] == c;
    var q := [a] + p;
    forall i | 0 <= i < |q| - 1
      ensures (q[i], q[i + 1]) in es
    {
      if i > 0 {
        assert q[i] == p[i - 1] && q[i + 1] == p[i];
      }
    }
    assert IsPath(es, q) && Within(q, s);
  }

  /** A single edge inside the set is a path. */
  lemma ReachOneEdge(es: seq<Edge>, s: set<nat>, a: nat, b: nat)
    requires a in s && b in s && (a, b) in es
    ensures ReachesWithin(es, s, a, b)
  {
    var p := [a, b];
    assert IsPath(es, p) && Within(p, s);
  }
}
