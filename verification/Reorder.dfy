/** Reordering a needs-DAG (its steps, or the needs of a step) is neutral: the canonical order
    by id is the same, so every leaf keeps its address and the graph executes identically. */
module Reorder {
  import opened Values
  import opened ExecIR
  import opened Eval
  import opened GraphOrder
  import opened Interp

  // ----- Go's string order is a strict total order

  lemma {:induction false} StrIrreflexive(a: string)
    ensures !StrLess(a, a)
    decreases |a|
  {
    if a != [] { StrIrreflexive(a[1..]); }
  }

  lemma {:induction false} StrTrichotomy(a: string, b: string)
    ensures a != b ==> StrLess(a, b) || StrLess(b, a)
    ensures !(StrLess(a, b) && StrLess(b, a)) && !StrLess(a, a)
    decreases |a| + |b|
  {
    StrIrreflexive(a);
    if a != [] && b != [] {
      StrTrichotomy(a[1..], b[1..]);
      if a[0] == b[0] && a[1..] == b[1..] { assert a == [a[0]] + a[1..] && b == [b[0]] + b[1..]; }
    }
  }

  lemma {:induction false} StrTransitive(a: string, b: string, c: string)
    requires StrLess(a, b) && StrLess(b, c)
    ensures StrLess(a, c)
    decreases |a|
  {
    if a != [] && a[0] == b[0] && b[0] == c[0] { StrTransitive(a[1..], b[1..], c[1..]); }
  }

  /** a and b agree on their first n characters, where a ends or has the smaller one next. */
  ghost predicate SmallerAt(a: string, b: string, n: nat) {
    n <= |a| && n < |b| && a[..n] == b[..n] && (n == |a| || a[n] < b[n])
  }

  /** One text is less than another exactly when it is smaller where they first differ, or is a
      proper prefix. */
  lemma {:induction false} StrLessIff(a: string, b: string)
    ensures StrLess(a, b) <==> exists n: nat :: SmallerAt(a, b, n)
    decreases |a|
  {
    if a != [] && b != [] && a[0] == b[0] {
      StrLessIff(a[1..], b[1..]);
      if n: nat :| SmallerAt(a[1..], b[1..], n) {
        assert a[..n + 1] == [a[0]] + a[1..][..n] && b[..n + 1] == [b[0]] + b[1..][..n];
        assert SmallerAt(a, b, n + 1);
      }
      if n: nat :| SmallerAt(a, b, n) {
        assert n > 0;
        assert a[1..][..n - 1] == a[..n][1..] && b[1..][..n - 1] == b[..n][1..];
        assert SmallerAt(a[1..], b[1..], n - 1);
      }
    } else {
      assert StrLess(a, b) ==> SmallerAt(a, b, 0);
      if n: nat :| SmallerAt(a, b, n) { assert n > 0 ==> a[..n][0] == b[..n][0]; }
    }
  }

  // ----- sorted by id

  ghost predicate Ascending(gs: seq<GraphNode>) {
    forall i, j :: 0 <= i < j < |gs| ==> StrLess(gs[i].id, gs[j].id)
  }

  ghost predicate Unique(gs: seq<GraphNode>) {
    forall i, j :: 0 <= i < j < |gs| ==> gs[i].id != gs[j].id
  }

  lemma {:induction false} InsertMembers(g: GraphNode, gs: seq<GraphNode>)
    ensures multiset(Insert(g, gs)) == multiset(gs) + multiset{g}
    decreases |gs|
  {
    if gs == [] || !StrLess(gs[0].id, g.id) {
      assert multiset([g] + gs) == multiset{g} + multiset(gs);
    } else {
      InsertMembers(g, gs[1..]);
      assert gs == [gs[0]] + gs[1..];
    }
  }

  lemma {:induction false} SortedMembers(gs: seq<GraphNode>)
    ensures multiset(Sorted(gs)) == multiset(gs)
    decreases |gs|
  {
    if gs != [] {
      SortedMembers(gs[1..]);
      InsertMembers(gs[0], Sorted(gs[1..]));
      assert gs == [gs[0]] + gs[1..];
    }
  }

  lemma MemberBoth(gs: seq<GraphNode>, hs: seq<GraphNode>, g: GraphNode)
    requires multiset(gs) == multiset(hs)
    ensures g in gs <==> g in hs
  {
    assert (g in gs <==> g in multiset(gs)) && (g in hs <==> g in multiset(hs));
  }

  lemma {:induction false} InsertAbove(g: GraphNode, gs: seq<GraphNode>, low: string)
    requires StrLess(low, g.id) && forall j :: 0 <= j < |gs| ==> StrLess(low, gs[j].id)
    ensures forall j :: 0 <= j < |Insert(g, gs)| ==> StrLess(low, Insert(g, gs)[j].id)
    decreases |gs|
  {
    if gs != [] && StrLess(gs[0].id, g.id) { InsertAbove(g, gs[1..], low); }
  }

  lemma {:induction false} InsertAscending(g: GraphNode, gs: seq<GraphNode>)
    requires Ascending(gs) && forall h | h in gs :: h.id != g.id
    ensures Ascending(Insert(g, gs))
    decreases |gs|
  {
    if gs != [] {
      StrTrichotomy(g.id, gs[0].id);
      if StrLess(gs[0].id, g.id) {
        InsertAscending(g, gs[1..]);
        InsertAbove(g, gs[1..], gs[0].id);
      } else {
        forall j | 0 <= j < |gs| ensures StrLess(g.id, gs[j].id) {
          if j > 0 { StrTransitive(g.id, gs[0].id, gs[j].id); }
        }
      }
    }
  }

  lemma {:induction false} SortedAscending(gs: seq<GraphNode>)
    requires Unique(gs)
    ensures Ascending(Sorted(gs))
    decreases |gs|
  {
    if gs != [] {
      SortedAscending(gs[1..]);
      SortedMembers(gs[1..]);
      forall h | h in Sorted(gs[1..]) ensures h.id != gs[0].id {
        MemberBoth(Sorted(gs[1..]), gs[1..], h);
        var k :| 0 <= k < |gs[1..]| && gs[1..][k] == h;
        assert gs[k + 1] == h;
      }
      InsertAscending(gs[0], Sorted(gs[1..]));
    }
  }

  /** A set of steps has one ascending arrangement. */
  lemma {:induction false} AscendingUnique(gs: seq<GraphNode>, hs: seq<GraphNode>)
    requires Ascending(gs) && Ascending(hs) && multiset(gs) == multiset(hs)
    ensures gs == hs
    decreases |gs|
  {
    assert |gs| == |multiset(gs)| == |multiset(hs)| == |hs|;
    if gs != [] {
      SameLeast(gs, hs);
      assert gs == [gs[0]] + gs[1..] && hs == [hs[0]] + hs[1..];
      assert multiset(gs[1..]) == multiset(gs) - multiset{gs[0]};
      assert multiset(hs[1..]) == multiset(hs) - multiset{hs[0]};
      AscendingUnique(gs[1..], hs[1..]);
    }
  }

  lemma SameLeast(gs: seq<GraphNode>, hs: seq<GraphNode>)
    requires Ascending(gs) && Ascending(hs) && multiset(gs) == multiset(hs) && gs != [] && hs != []
    ensures gs[0] == hs[0]
  {
    MemberBoth(gs, hs, gs[0]);
    MemberBoth(gs, hs, hs[0]);
    assert gs[0] in gs && hs[0] in hs;
    var j :| 0 <= j < |hs| && hs[j] == gs[0];
    var k :| 0 <= k < |gs| && gs[k] == hs[0];
    StrTrichotomy(gs[0].id, hs[0].id);
  }

  // ----- ranks

  /** Index i put in its place by id; among equal ids the smaller index comes first. */
  function InsertIndex(nodes: seq<GraphNode>, i: nat, order: seq<nat>): seq<nat>
    requires i < |nodes| && forall k :: 0 <= k < |order| ==> order[k] < |nodes|
  {
    if order == [] || !StrLess(nodes[order[0]].id, nodes[i].id) then [i] + order
      else [order[0]] + InsertIndex(nodes, i, order[1..])
  }

  function IndexOrder(nodes: seq<GraphNode>, i: nat): (r: seq<nat>)
    requires i <= |nodes|
    ensures forall k :: 0 <= k < |r| ==> r[k] < |nodes|
    decreases |nodes| - i
  {
    if i == |nodes| then []
    else
      InsertIndexMembers(nodes, i, IndexOrder(nodes, i + 1));
      InsertIndex(nodes, i, IndexOrder(nodes, i + 1))
  }

  lemma {:induction false} InsertIndexMembers(nodes: seq<GraphNode>, i: nat, order: seq<nat>)
    requires i < |nodes| && forall k :: 0 <= k < |order| ==> order[k] < |nodes|
    ensures multiset(InsertIndex(nodes, i, order)) == multiset(order) + multiset{i}
    ensures forall k :: 0 <= k < |InsertIndex(nodes, i, order)| ==> InsertIndex(nodes, i, order)[k] < |nodes|
    decreases |order|
  {
    if order != [] && StrLess(nodes[order[0]].id, nodes[i].id) {
      InsertIndexMembers(nodes, i, order[1..]);
      assert order == [order[0]] + order[1..];
    }
  }

  ghost function Pick(nodes: seq<GraphNode>, order: seq<nat>): seq<GraphNode>
    requires forall k :: 0 <= k < |order| ==> order[k] < |nodes|
  {
    seq(|order|, k requires 0 <= k < |order| => nodes[order[k]])
  }

  lemma {:induction false} InsertIndexPicks(nodes: seq<GraphNode>, i: nat, order: seq<nat>)
    requires i < |nodes| && forall k :: 0 <= k < |order| ==> order[k] < |nodes|
    requires forall k :: 0 <= k < |InsertIndex(nodes, i, order)| ==> InsertIndex(nodes, i, order)[k] < |nodes|
    ensures Pick(nodes, InsertIndex(nodes, i, order)) == Insert(nodes[i], Pick(nodes, order))
    decreases |order|
  {
    if order != [] && StrLess(nodes[order[0]].id, nodes[i].id) {
      InsertIndexMembers(nodes, i, order[1..]);
      InsertIndexPicks(nodes, i, order[1..]);
      assert Pick(nodes, order)[1..] == Pick(nodes, order[1..]);
      assert Pick(nodes, InsertIndex(nodes, i, order)) ==
          [nodes[order[0]]] + Pick(nodes, InsertIndex(nodes, i, order[1..]));
    } else {
      assert Pick(nodes, [i] + order) == [nodes[i]] + Pick(nodes, order);
    }
  }

  /** Sorting indices picks the nodes in canonical order, each index once. */
  lemma {:induction false} IndexOrderIs(nodes: seq<GraphNode>, i: nat)
    requires i <= |nodes|
    ensures Pick(nodes, IndexOrder(nodes, i)) == Sorted(nodes[i..])
    ensures forall k: nat :: multiset(IndexOrder(nodes, i))[k] == if i <= k < |nodes| then 1 else 0
    decreases |nodes| - i
  {
    if i < |nodes| {
      var rest := IndexOrder(nodes, i + 1);
      IndexOrderIs(nodes, i + 1);
      InsertIndexMembers(nodes, i, rest);
      InsertIndexPicks(nodes, i, rest);
      assert nodes[i..][0] == nodes[i] && nodes[i..][1..] == nodes[i + 1..];
    }
  }

  /** canonicalRanks: each authored index's position in the canonical order. */
  method CanonicalRanks(nodes: seq<GraphNode>) returns (rank: array<nat>)
    ensures fresh(rank) && rank.Length == |nodes|
    ensures forall i :: 0 <= i < |nodes| ==> rank[i] < |nodes| && Sorted(nodes)[rank[i]] == nodes[i]
    ensures forall i, j :: 0 <= i < j < |nodes| ==> rank[i] != rank[j]
    ensures forall i: nat, j: nat :: i < |nodes| && j < |nodes| && Earlier(nodes, i, j) ==> rank[i] < rank[j]
  {
    hide Sorted, IndexOrder, Earlier;
    var order := IndexOrder(nodes, 0);
    OrderFacts(nodes);
    IndexOrderSorted(nodes, 0);
    rank := new nat[|nodes|];
    for pos := 0 to |order|
      invariant forall k :: 0 <= k < pos ==> rank[order[k]] == k
    {
      rank[order[pos]] := pos;
    }
    forall i | 0 <= i < |nodes| ensures rank[i] < |nodes| && order[rank[i]] == i && Sorted(nodes)[rank[i]] == nodes[i] {
      assert i in order;
      var k :| 0 <= k < |order| && order[k] == i;
    }
    forall i: nat, j: nat | i < |nodes| && j < |nodes| && Earlier(nodes, i, j) ensures rank[i] < rank[j] {
      PlacesAscend(nodes, order, rank[i], rank[j]);
    }
  }

  /** Node i comes before node j: by id, and by authored index where the ids are equal. */
  predicate Earlier(nodes: seq<GraphNode>, i: nat, j: nat)
    requires i < |nodes| && j < |nodes|
  {
    StrLess(nodes[i].id, nodes[j].id) || (nodes[i].id == nodes[j].id && i < j)
  }

  lemma NotBoth(nodes: seq<GraphNode>, i: nat, j: nat)
    requires i < |nodes| && j < |nodes| && Earlier(nodes, i, j)
    ensures !Earlier(nodes, j, i) && i != j
  {
    StrTrichotomy(nodes[i].id, nodes[j].id);
    StrTrichotomy(nodes[i].id, nodes[i].id);
  }

  lemma PlacesAscend(nodes: seq<GraphNode>, order: seq<nat>, a: nat, b: nat)
    requires (forall k :: 0 <= k < |order| ==> order[k] < |nodes|) && EarlierAll(nodes, order)
    requires a < |order| && b < |order| && Earlier(nodes, order[a], order[b])
    ensures a < b
  {
    NotBoth(nodes, order[a], order[b]);
    hide Earlier;
  }

  ghost predicate EarlierAll(nodes: seq<GraphNode>, order: seq<nat>)
    requires forall k :: 0 <= k < |order| ==> order[k] < |nodes|
  {
    forall j, k :: 0 <= j < k < |order| ==> Earlier(nodes, order[j], order[k])
  }

  lemma {:induction false} InsertIndexSorted(nodes: seq<GraphNode>, i: nat, order: seq<nat>)
    requires i < |nodes| && (forall k :: 0 <= k < |order| ==> i < order[k] < |nodes|) && EarlierAll(nodes, order)
    requires forall k :: 0 <= k < |InsertIndex(nodes, i, order)| ==> InsertIndex(nodes, i, order)[k] < |nodes|
    ensures EarlierAll(nodes, InsertIndex(nodes, i, order))
    decreases |order|
  {
    var r := InsertIndex(nodes, i, order);
    if order == [] {
    } else if !StrLess(nodes[order[0]].id, nodes[i].id) {
      forall k | 0 <= k < |order| ensures Earlier(nodes, i, order[k]) {
        StrTrichotomy(nodes[order[0]].id, nodes[i].id);
        if k > 0 {
          assert Earlier(nodes, order[0], order[k]);
          if StrLess(nodes[i].id, nodes[order[0]].id) && StrLess(nodes[order[0]].id, nodes[order[k]].id) {
            StrTransitive(nodes[i].id, nodes[order[0]].id, nodes[order[k]].id);
          }
        }
      }
    } else {
      var rest := InsertIndex(nodes, i, order[1..]);
      InsertIndexMembers(nodes, i, order[1..]);
      InsertIndexSorted(nodes, i, order[1..]);
      forall k | 0 <= k < |rest| ensures Earlier(nodes, order[0], rest[k]) {
        assert rest[k] in multiset(rest);
        assert rest[k] == i || rest[k] in order[1..];
      }
    }
  }

  lemma {:induction false} IndexOrderSorted(nodes: seq<GraphNode>, i: nat)
    requires i <= |nodes|
    ensures EarlierAll(nodes, IndexOrder(nodes, i)) && forall k | k in IndexOrder(nodes, i) :: i <= k
    decreases |nodes| - i
  {
    hide EarlierAll;
    if i < |nodes| {
      var rest := IndexOrder(nodes, i + 1);
      IndexOrderSorted(nodes, i + 1);
      assert forall k | 0 <= k < |rest| :: rest[k] in rest;
      InsertIndexMembers(nodes, i, rest);
      InsertIndexSorted(nodes, i, rest);
      forall k | k in IndexOrder(nodes, i) ensures i <= k {
        assert k in multiset(IndexOrder(nodes, i));
        assert k == i || k in rest;
      }
    } else {
      NoIndex(nodes);
    }
  }

  lemma NoIndex(nodes: seq<GraphNode>)
    ensures EarlierAll(nodes, [])
  {
  }

  /** The sorted indices are a permutation that lists the nodes in canonical order. */
  lemma OrderFacts(nodes: seq<GraphNode>)
    ensures var order := IndexOrder(nodes, 0);
            && |order| == |nodes|
            && (forall i :: 0 <= i < |nodes| ==> i in order)
            && (forall j, k :: 0 <= j < k < |order| ==> order[j] != order[k])
            && (forall k :: 0 <= k < |order| ==> Sorted(nodes)[k] == nodes[order[k]])
  {
    hide Sorted, IndexOrder;
    var order := IndexOrder(nodes, 0);
    IndexOrderIs(nodes, 0);
    assert nodes[0..] == nodes;
    assert |order| == |Pick(nodes, order)|;
    forall i | 0 <= i < |nodes| ensures i in order { assert multiset(order)[i] == 1; }
    forall j, k | 0 <= j < k < |order| ensures order[j] != order[k] {
      if order[j] == order[k] { IndexTwice(order, j, k); }
    }
    forall k | 0 <= k < |order| ensures Sorted(nodes)[k] == nodes[order[k]] {
      assert Pick(nodes, order)[k] == nodes[order[k]];
    }
  }

  lemma IndexTwice(order: seq<nat>, j: nat, k: nat)
    requires j < k < |order| && order[j] == order[k]
    ensures multiset(order)[order[j]] >= 2
  {
    assert order == order[..k] + [order[k]] + order[k + 1..];
    assert order[j] in order[..k];
    assert multiset(order) == multiset(order[..k]) + multiset{order[k]} + multiset(order[k + 1..]);
    assert order[j] in multiset(order[..k]);
  }

  // ----- needs in sorted order

  function InsertString(x: string, xs: seq<string>): (r: seq<string>)
    ensures |r| == |xs| + 1
  {
    if xs == [] || !StrLess(xs[0], x) then [x] + xs else [xs[0]] + InsertString(x, xs[1..])
  }

  /** sortedCopy. */
  function SortStrings(xs: seq<string>): (r: seq<string>)
    ensures |r| == |xs|
  {
    if xs == [] then [] else InsertString(xs[0], SortStrings(xs[1..]))
  }

  lemma {:induction false} InsertStringMembers(x: string, xs: seq<string>)
    ensures multiset(InsertString(x, xs)) == multiset(xs) + multiset{x}
    decreases |xs|
  {
    if xs == [] || !StrLess(xs[0], x) {
      assert multiset([x] + xs) == multiset{x} + multiset(xs);
    } else {
      InsertStringMembers(x, xs[1..]);
      assert xs == [xs[0]] + xs[1..];
    }
  }

  lemma {:induction false} SortStringsMembers(xs: seq<string>)
    ensures multiset(SortStrings(xs)) == multiset(xs)
    decreases |xs|
  {
    if xs != [] {
      SortStringsMembers(xs[1..]);
      InsertStringMembers(xs[0], SortStrings(xs[1..]));
      assert xs == [xs[0]] + xs[1..];
    }
  }

  /** A step with its needs in sorted order. */
  function Neat(g: GraphNode): GraphNode {
    g.(needs := SortStrings(g.needs))
  }

  function NeatAll(gs: seq<GraphNode>): (r: seq<GraphNode>)
    ensures |r| == |gs| && forall i | 0 <= i < |gs| :: r[i] == Neat(gs[i])
  {
    if gs == [] then [] else [Neat(gs[0])] + NeatAll(gs[1..])
  }

  lemma SameNeeds(g: GraphNode, d: string)
    ensures d in Neat(g).needs <==> d in g.needs
  {
    SortStringsMembers(g.needs);
    assert (d in Neat(g).needs <==> d in multiset(Neat(g).needs)) && (d in g.needs <==> d in multiset(g.needs));
  }

  /** hs is gs with its steps permuted and the needs of each step permuted. */
  ghost predicate Reordered(gs: seq<GraphNode>, hs: seq<GraphNode>) {
    multiset(NeatAll(gs)) == multiset(NeatAll(hs))
  }

  lemma {:induction false} InsertNeat(g: GraphNode, gs: seq<GraphNode>)
    ensures Insert(Neat(g), NeatAll(gs)) == NeatAll(Insert(g, gs))
    decreases |gs|
  {
    if gs != [] && StrLess(gs[0].id, g.id) {
      InsertNeat(g, gs[1..]);
      assert NeatAll(gs)[1..] == NeatAll(gs[1..]);
    }
  }

  lemma {:induction false} SortedNeat(gs: seq<GraphNode>)
    ensures Sorted(NeatAll(gs)) == NeatAll(Sorted(gs))
    decreases |gs|
  {
    if gs != [] {
      SortedNeat(gs[1..]);
      assert NeatAll(gs)[1..] == NeatAll(gs[1..]);
      InsertNeat(gs[0], Sorted(gs[1..]));
    }
  }

  /** The canonical arrangement, and with it every step's rank, ignores authored order. */
  lemma CanonicalOrderIsStable(gs: seq<GraphNode>, hs: seq<GraphNode>)
    requires Unique(gs) && Reordered(gs, hs)
    ensures NeatAll(Sorted(gs)) == NeatAll(Sorted(hs))
  {
    UniqueReordered(gs, hs);
    SortedNeat(gs);
    SortedNeat(hs);
    SortedAscending(NeatAll(gs));
    SortedAscending(NeatAll(hs));
    SortedMembers(NeatAll(gs));
    SortedMembers(NeatAll(hs));
    AscendingUnique(Sorted(NeatAll(gs)), Sorted(NeatAll(hs)));
  }

  lemma UniqueReordered(gs: seq<GraphNode>, hs: seq<GraphNode>)
    requires Unique(gs) && Reordered(gs, hs)
    ensures Unique(NeatAll(gs)) && Unique(NeatAll(hs))
  {
    var a, b := NeatAll(gs), NeatAll(hs);
    forall i, j | 0 <= i < j < |b| ensures b[i].id != b[j].id {
      if b[i].id == b[j].id {
        MemberBoth(a, b, b[i]);
        MemberBoth(a, b, b[j]);
        var m :| 0 <= m < |a| && a[m] == b[i];
        var n :| 0 <= n < |a| && a[n] == b[j];
        assert gs[m].id == gs[n].id && m == n && b[i] == b[j];
        CountTwice(b, i, j);
        CountOnce(a, m);
      }
    }
  }

  lemma CountTwice(b: seq<GraphNode>, i: nat, j: nat)
    requires i < j < |b| && b[i] == b[j]
    ensures multiset(b)[b[i]] >= 2
  {
    assert b == b[..j] + [b[j]] + b[j + 1..];
    assert b[i] in b[..j];
    assert multiset(b) == multiset(b[..j]) + multiset{b[j]} + multiset(b[j + 1..]);
    assert b[i] in multiset(b[..j]);
  }

  lemma CountOnce(a: seq<GraphNode>, m: nat)
    requires m < |a| && Unique(a)
    ensures multiset(a)[a[m]] == 1
  {
    assert a == a[..m] + [a[m]] + a[m + 1..];
    assert multiset(a) == multiset(a[..m]) + multiset{a[m]} + multiset(a[m + 1..]);
    assert a[m] !in a[..m] && a[m] !in a[m + 1..];
    assert a[m] !in multiset(a[..m]) && a[m] !in multiset(a[m + 1..]);
  }

  // ----- execution ignores the order of needs

  lemma ReadyNeat(gs: seq<GraphNode>, done: set<string>, i: nat)
    requires i < |gs|
    ensures Ready(NeatAll(gs), done, i) == Ready(gs, done, i)
    ensures (forall d | d in NeatAll(gs)[i].needs :: d in done) <==> (forall d | d in gs[i].needs :: d in done)
  {
    forall d ensures d in NeatAll(gs)[i].needs <==> d in gs[i].needs { SameNeeds(gs[i], d); }
  }

  lemma {:induction false} FirstReadyNeat(gs: seq<GraphNode>, done: set<string>, i: nat)
    requires i <= |gs|
    ensures FirstReady(NeatAll(gs), done, i) == FirstReady(gs, done, i)
    decreases |gs| - i
  {
    if i < |gs| {
      ReadyNeat(gs, done, i);
      FirstReadyNeat(gs, done, i + 1);
    }
  }

  lemma {:induction false} TopoNeat(gs: seq<GraphNode>, done: set<string>)
    ensures Topo(NeatAll(gs), done) == Topo(gs, done)
    decreases IdsOf(gs) - done
  {
    FirstReadyNeat(gs, done, 0);
    var f := FirstReady(gs, done, 0);
    if f.Some? {
      assert gs[f.value].id in IdsOf(gs) - done;
      TopoNeat(gs, done + {gs[f.value].id});
    }
  }

  lemma {:induction false} StepsNeat(w: World, gs: seq<GraphNode>, order: seq<nat>, p: seq<nat>, l: seq<nat>, s: Scope,
      done: set<string>)
    requires forall k | 0 <= k < |order| :: order[k] < |gs|
    ensures Steps(w, NeatAll(gs), order, p, l, s, done) == Steps(w, gs, order, p, l, s, done)
    decreases |order|
  {
    if order != [] {
      hide ExecCall;
      var i := order[0];
      ReadyNeat(gs, done, i);
      var e := ExecCall(w, gs[i].run, Addr(p + [i], l), s);
      StepsNeat(w, gs, order[1..], p, l, s, done);
      StepsNeat(w, gs, order[1..], p, l, StepScope(gs[i].id, s, e), StepDone(gs[i].id, done, e));
    }
  }

  /** Reordering a graph with unique ids changes nothing: same leaf addresses, same bindings,
      same status, same session operations, under every seed, invoker and interleaving. Memos
      taken before the edit therefore replay after it. */
  lemma ReorderingIsNeutral(w: World, gs: seq<GraphNode>, hs: seq<GraphNode>, p: seq<nat>, l: seq<nat>, s: Scope)
    requires Unique(gs) && Reordered(gs, hs)
    ensures Exec(w, Graph(gs), p, l, s) == Exec(w, Graph(hs), p, l, s)
  {
    CanonicalOrderIsStable(gs, hs);
    GraphNeat(w, Sorted(gs), p, l, s);
    GraphNeat(w, Sorted(hs), p, l, s);
  }

  lemma GraphNeat(w: World, gs: seq<GraphNode>, p: seq<nat>, l: seq<nat>, s: Scope)
    ensures ExecGraph(w, NeatAll(gs), p, l, s) == ExecGraph(w, gs, p, l, s)
  {
    TopoNeat(gs, {});
    StepsNeat(w, gs, Topo(gs, {}), p, l, s, {});
  }

  // ----- whole programs

  /** m is n with any of its graphs rearranged. */
  ghost predicate Rearranged(n: Node, m: Node)
    decreases n, 0
  {
    match (n, m)
    case (Branch(c, t, e), Branch(d, u, f)) => c == d && RearrangedAll(t, u) && RearrangedAll(e, f)
    case (Fork(bs), Fork(cs)) =>
      |bs| == |cs| && forall i :: 0 <= i < |bs| ==> bs[i].bind == cs[i].bind && RearrangedAll(bs[i].nodes, cs[i].nodes)
    case (Loop(v, c, b, q), Loop(w, d, r, k)) => v == w && c == d && q == k && RearrangedAll(b, r)
    case (While(c, k, b), While(d, h, r)) => c == d && k == h && RearrangedAll(b, r)
    case (Retry(c, k, b), Retry(d, h, r)) => c == d && k == h && RearrangedAll(b, r)
    case (Graph(gs), Graph(hs)) => gs == hs || (Unique(gs) && Reordered(gs, hs))
    case _ => n == m
  }

  ghost predicate RearrangedAll(ns: seq<Node>, ms: seq<Node>)
    decreases ns, 1
  {
    |ns| == |ms| && forall i :: 0 <= i < |ns| ==> Rearranged(ns[i], ms[i])
  }

  ghost predicate SameProgram(p: Program, q: Program) {
    p.workflow == q.workflow && p.params == q.params && RearrangedAll(p.body, q.body)
  }

  lemma {:induction false} RearrangedExec(w: World, n: Node, m: Node, p: seq<nat>, l: seq<nat>, s: Scope)
    requires Rearranged(n, m)
    ensures Exec(w, n, p, l, s) == Exec(w, m, p, l, s)
    decreases n, 2, 0
  {
    hide ExecFrom, Iterate, Threads, Decide, ExecGraph, EvalCollection, ExecCall, Unique, Reordered, RearrangedAll;
    match n
    case Branch(_, thn, els) =>
      RearrangedExecFrom(w, thn, m.thn, 0, p + [0], l, s);
      RearrangedExecFrom(w, els, m.els, 0, p + [1], l, s);
    case Fork(_) => RearrangedThreads(w, n, m, [], 0, p, l, s);
    case Loop(_, coll, _, par) =>
      var c := EvalCollection(w.render, s, coll);
      if c.Some? {
        if par {
          RearrangedThreads(w, n, m, c.value, 0, p, l, s);
        } else {
          RearrangedIterate(w, n, m, c.value, |c.value|, 0, p, l, s);
        }
      }
    case While(_, limit, _) => RearrangedIterate(w, n, m, [], w.Bound(limit), 0, p, l, s);
    case Retry(_, limit, _) => RearrangedIterate(w, n, m, [], w.Bound(limit), 0, p, l, s);
    case Graph(gs) => if gs != m.nodes { ReorderingIsNeutral(w, gs, m.nodes, p, l, s); }
    case _ =>
  }

  lemma {:induction false} RearrangedExecFrom(w: World, ns: seq<Node>, ms: seq<Node>, i: nat, p: seq<nat>, l: seq<nat>,
      s: Scope)
    requires RearrangedAll(ns, ms) && i <= |ns|
    ensures ExecFrom(w, ns, i, p, l, s) == ExecFrom(w, ms, i, p, l, s)
    decreases ns, 0, |ns| - i
  {
    if i < |ns| {
      hide Exec, Rearranged;
      RearrangedExec(w, ns[i], ms[i], p + [i], l, s);
      RearrangedExecFrom(w, ns, ms, i + 1, p, l, Exec(w, ns[i], p + [i], l, s).scope);
    }
  }

  lemma {:induction false} RearrangedIterate(w: World, n: Node, m: Node, items: seq<Val>, max: nat, i: nat,
      p: seq<nat>, l: seq<nat>, s: Scope)
    requires Rearranged(n, m) && IsLoop(n) && i <= max && (n.Loop? ==> max == |items|)
    ensures IsLoop(m) && Iterate(w, n, items, max, i, p, l, s) == Iterate(w, m, items, max, i, p, l, s)
    decreases n, 1, max - i
  {
    if i < max {
      hide ExecFrom, Decide, RearrangedAll;
      RearrangedExecFrom(w, n.body, m.body, 0, p, l + [i], IterScope(n, items, i, s));
      var f := ExecFrom(w, n.body, 0, p, l + [i], IterScope(n, items, i, s));
      RearrangedIterate(w, n, m, items, max, i + 1, p, l, f.scope);
    }
  }

  lemma SameThread(n: Node, m: Node, items: seq<Val>, i: nat, p: seq<nat>, l: seq<nat>, s: Scope)
    requires Rearranged(n, m) && IsParallel(n) && i < Width(n, items)
    ensures IsParallel(m) && Width(m, items) == Width(n, items) && (m.Fork? <==> n.Fork?)
    ensures ThreadAddr(m, i, p, l) == ThreadAddr(n, i, p, l)
            && ThreadScope(m, items, i, s) == ThreadScope(n, items, i, s)
    ensures RearrangedAll(ThreadNodes(n, i), ThreadNodes(m, i))
            && (n.Fork? ==> m.branches[i].bind == n.branches[i].bind)
  {
    hide RearrangedAll;
  }

  lemma SameWidth(n: Node, m: Node, items: seq<Val>)
    requires Rearranged(n, m) && IsParallel(n)
    ensures IsParallel(m) && Width(m, items) == Width(n, items)
  {
    hide RearrangedAll;
  }

  lemma {:induction false} RearrangedThreads(w: World, n: Node, m: Node, items: seq<Val>, i: nat, p: seq<nat>,
      l: seq<nat>, s: Scope)
    requires Rearranged(n, m) && IsParallel(n) && i <= Width(n, items)
    ensures IsParallel(m) && Width(m, items) == Width(n, items)
    ensures Threads(w, n, items, i, p, l, s) == Threads(w, m, items, i, p, l, s)
    decreases n, 1, Width(n, items) - i
  {
    hide ExecFrom, RearrangedAll, AddThread, Rearranged;
    SameWidth(n, m, items);
    if i < Width(n, items) {
      SameThread(n, m, items, i, p, l, s);
      var a := ThreadAddr(n, i, p, l);
      var e := ExecFrom(w, ThreadNodes(n, i), 0, a.path, a.loop, ThreadScope(n, items, i, s));
      RearrangedExecFrom(w, ThreadNodes(n, i), ThreadNodes(m, i), 0, a.path, a.loop, ThreadScope(n, items, i, s));
      RearrangedThreads(w, n, m, items, i + 1, p, l, s);
      SameJoin(n, m, i, e, Threads(w, n, items, i + 1, p, l, s), w.merge(a));
    }
  }

  lemma SameJoin(n: Node, m: Node, i: nat, e: Eff, r: Par, bits: seq<bool>)
    requires IsParallel(n) && IsParallel(m) && (n.Fork? <==> m.Fork?)
    requires n.Fork? ==> i < |n.branches| && i < |m.branches| && n.branches[i].bind == m.branches[i].bind
    ensures AddThread(n, i, e, r, bits) == AddThread(m, i, e, r, bits)
  {
    hide Shuffle;
  }

  /** Rearranging graphs anywhere in a program, under loops and branches too, leaves every run
      exactly as it was: result, bindings, and the address of every session operation. */
  lemma RearrangedRun(w: World, p: Program, q: Program, input: Val)
    requires SameProgram(p, q)
    ensures Run(w, p, input) == Run(w, q, input)
  {
    RearrangedExecFrom(w, p.body, q.body, 0, [], [], ParamScope(p.params, input));
  }
}
