/** Canonical order of a needs-DAG: nodes by id (internal/execir/interp.go canonicalRanks)
    and one sequential topological order over them. */
module GraphOrder {
  import opened Values
  import opened ExecIR

  /** Go's string order: lexicographic by character code. */
  predicate StrLess(a: string, b: string) {
    b != [] && (a == [] || a[0] < b[0] || (a[0] == b[0] && StrLess(a[1..], b[1..])))
  }

  function Insert(g: GraphNode, gs: seq<GraphNode>): (r: seq<GraphNode>)
    ensures |r| == |gs| + 1
  {
    if gs == [] || !StrLess(gs[0].id, g.id) then [g] + gs
    else [gs[0]] + Insert(g, gs[1..])
  }

  /** The nodes by id; position in the result is the node's canonical rank. */
  function Sorted(gs: seq<GraphNode>): (r: seq<GraphNode>)
    ensures |r| == |gs|
  {
    if gs == [] then [] else Insert(gs[0], Sorted(gs[1..]))
  }

  function IdsOf(gs: seq<GraphNode>): set<string> {
    set i | 0 <= i < |gs| :: gs[i].id
  }

  predicate Ready(gs: seq<GraphNode>, done: set<string>, i: nat)
    requires i < |gs|
  {
    gs[i].id !in done && forall d | d in gs[i].needs :: d in done
  }

  function FirstReady(gs: seq<GraphNode>, done: set<string>, i: nat): (r: Option<nat>)
    requires i <= |gs|
    ensures r.Some? ==> i <= r.value < |gs| && Ready(gs, done, r.value)
    ensures r.None? ==> forall k :: i <= k < |gs| ==> !Ready(gs, done, k)
    decreases |gs| - i
  {
    if i == |gs| then None
    else if Ready(gs, done, i) then Some(i)
    else FirstReady(gs, done, i + 1)
  }

  /** Repeatedly the first node whose needs are already placed. */
  function Topo(gs: seq<GraphNode>, done: set<string>): (r: seq<nat>)
    ensures forall k | 0 <= k < |r| :: r[k] < |gs| && gs[r[k]].id !in done
    ensures forall j, k :: 0 <= j < k < |r| ==> r[j] != r[k]
    decreases IdsOf(gs) - done
  {
    match FirstReady(gs, done, 0)
    case None => []
    case Some(i) => assert gs[i].id in IdsOf(gs) - done; [i] + Topo(gs, done + {gs[i].id})
  }
}
