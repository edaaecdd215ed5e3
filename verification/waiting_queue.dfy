/**
 * The waiting queue collects, for one child node, the outputs of several
 * parent nodes until enough of them have arrived.
 */
module WaitingQueue {
  import opened Wrappers
  import opened Json

  class WaitingQueue {
    /** child name -> (parent name -> that parent's output) */
    var data: map<string, map<string, Json>>

    constructor ()
      ensures data == map[]
    {
      data := map[];
    }

    /** The outputs recorded so far for `child`, empty when it has no entry. */
    function Entry(child: string): map<string, Json>
      reads this
    {
      if child in data then data[child] else map[]
    }

    /** Records `output` from `parent` for `child`, replacing an earlier output of the same parent. */
    method Add(child: string, parent: string, output: Json)
      modifies this
      ensures child in data && data[child] == old(Entry(child))[parent := output]
      ensures forall c :: c != child ==> (c in data <==> c in old(data))
      ensures forall c :: c != child && c in data ==> data[c] == old(data)[c]
      ensures forall p :: p != parent && p in old(Entry(child)) ==> p in data[child] && data[child][p] == old(Entry(child))[p]
      ensures forall required: nat :: IsReady(child, required) <==> required <= |old(Entry(child)).Keys + {parent}|
    {
      ghost var before := Entry(child);
      data := data[child := Entry(child)[parent := output]];
      assert data[child].Keys == before.Keys + {parent};
    }

    /** Whether `child` has outputs from at least `required` distinct parents; never for an unknown child. */
    predicate IsReady(child: string, required: nat)
      reads this
    {
      child in data && |data[child].Keys| >= required
    }

    /** Takes `child`'s entry out of the queue as one object keyed by parent name. */
    method Merge(child: string) returns (merged: Option<Json>)
      modifies this
      ensures merged.None? <==> child !in old(data)
      ensures merged.Some? ==> merged.value == Obj(old(data)[child])
      ensures data == old(data) - {child}
      ensures forall required: nat :: !IsReady(child, required)
    {
      if child in data {
        merged := Some(Obj(data[child]));
        data := data - {child};
      } else {
        merged := None;
      }
    }
  }

  /** The threshold rule of `IsReady`, stated for one add: a first output makes the child ready for 1. */
  method AddThenReady(child: string, parent: string, v: Json) returns (ready: bool, merged: Option<Json>)
    ensures ready
    ensures merged == Some(Obj(map[parent := v]))
  {
    var q := new WaitingQueue();
    q.Add(child, parent, v);
    ready := q.IsReady(child, 1);
    merged := q.Merge(child);
  }

  /** Outputs from two different parents make the child ready for two, but not for three. */
  method TwoParents(child: string, p: string, q: string, v: Json, w: Json)
    returns (ready2: bool, ready3: bool, merged: Option<Json>)
    requires p != q
    ensures ready2 && !ready3
    ensures merged == Some(Obj(map[p := v, q := w]))
  {
    var qu := new WaitingQueue();
    qu.Add(child, p, v);
    qu.Add(child, q, w);
    assert qu.data[child].Keys == {p, q};
    ready2 := qu.IsReady(child, 2);
    ready3 := qu.IsReady(child, 3);
    merged := qu.Merge(child);
  }

  /** Two outputs from the same parent count once: the later one replaces the earlier. */
  method SameParentTwice(child: string, parent: string, v: Json, w: Json) returns (ready2: bool, merged: Option<Json>)
    ensures !ready2
    ensures merged == Some(Obj(map[parent := w]))
  {
    var q := new WaitingQueue();
    q.Add(child, parent, v);
    q.Add(child, parent, w);
    assert q.data[child] == map[parent := w];
    ready2 := q.IsReady(child, 2);
    merged := q.Merge(child);
  }
}
