/** Where the operations of a run come from: each look-up, call, record and gate in a trace
    belongs to a leaf of the program at its own address, the trace holds all that leaf did,
    and a leaf that failed has failed the run. */
module Accounting {
  import opened Values
  import opened ExecIR
  import opened Eval
  import opened GraphOrder
  import opened Interp
  import opened Addressing

  /** A node, or a list of nodes, of the program. */
  datatype Code = One(n: Node) | Many(ns: seq<Node>)

  /** The leaf at path q below a node or a list of nodes. */
  function LeafOf(n: Node, q: seq<nat>): Option<Call>
    decreases n, 0
  {
    match n
    case Invoke(call) => if q == [] then Some(call) else None
    case Branch(_, thn, els) => if q == [] then None else if q[0] == 0 then LeafAmong(thn, q[1..])
      else LeafAmong(els, q[1..])
    case Fork(branches) => if q == [] || q[0] >= |branches| then None else LeafAmong(branches[q[0]].nodes, q[1..])
    case Loop(_, _, body, _) => LeafAmong(body, q)
    case While(_, _, body) => LeafAmong(body, q)
    case Retry(_, _, body) => LeafAmong(body, q)
    case Graph(nodes) => if |q| == 1 && q[0] < |nodes| then Some(Sorted(nodes)[q[0]].run) else None
    case _ => None
  }

  function LeafAmong(ns: seq<Node>, q: seq<nat>): Option<Call>
    decreases ns, 1
  {
    if q == [] || q[0] >= |ns| then None else LeafOf(ns[q[0]], q[1..])
  }

  function Locate(c: Code, q: seq<nat>): Option<Call> {
    match c case One(n) => LeafOf(n, q) case Many(ns) => LeafAmong(ns, q)
  }

  /** The code at path p has this leaf at address a. */
  predicate Sits(c: Code, p: seq<nat>, call: Call, a: Addr) {
    p <= a.path && Locate(c, a.path[|p|..]) == Some(call)
  }

  ghost predicate Under(d: Code, q: seq<nat>, c: Code, p: seq<nat>) {
    forall call, a :: Sits(d, q, call, a) ==> Sits(c, p, call, a)
  }

  /** A failure of its own, not a cancellation. */
  predicate Broken(st: Status) {
    st.Failed? && st.e != Cancelled
  }

  /** x is an operation of this leaf, all of whose operations are in tr; bad if it broke. */
  ghost predicate LeafIn(w: World, tr: seq<Act>, bad: bool, x: Act, call: Call, a: Addr, s: Scope) {
    var f := ExecCall(w, call, a, s);
    x in f.tr && (forall y | y in f.tr :: y in tr) && (Broken(f.st) ==> bad)
  }

  ghost predicate HasLeaf(w: World, c: Code, p: seq<nat>, tr: seq<Act>, bad: bool, x: Act) {
    exists call, a, s :: Sits(c, p, call, a) && LeafIn(w, tr, bad, x, call, a, s)
  }

  ghost predicate Whole(w: World, c: Code, p: seq<nat>, tr: seq<Act>, bad: bool) {
    forall x | x in tr && !x.Ctl? :: HasLeaf(w, c, p, tr, bad, x)
  }

  /** Some leaf of the trace was cancelled. */
  ghost predicate Cut(w: World, tr: seq<Act>) {
    exists site: Site, call, args :: Called(site, call, args) in tr && w.oracle(call, site.at, args) == Fail(Cancelled)
  }

  ghost predicate Accounted(w: World, c: Code, p: seq<nat>, e: Eff) {
    (e.st == Failed(Cancelled) ==> Cut(w, e.tr)) && Whole(w, c, p, e.tr, Broken(e.st))
  }

  // ----- joining traces

  lemma WholeWider(w: World, d: Code, q: seq<nat>, t: seq<Act>, b: bool, c: Code, p: seq<nat>, tr: seq<Act>, bad: bool,
      x: Act)
    requires HasLeaf(w, d, q, t, b, x) && Under(d, q, c, p) && (forall y | y in t :: y in tr) && (b ==> bad)
    ensures HasLeaf(w, c, p, tr, bad, x)
  {
    hide Sits, ExecCall;
    var call, a, s :| Sits(d, q, call, a) && LeafIn(w, t, b, x, call, a, s);
    assert Sits(c, p, call, a) && LeafIn(w, tr, bad, x, call, a, s);
  }

  lemma WholeJoin(w: World, d1: Code, q1: seq<nat>, t1: seq<Act>, b1: bool, d2: Code, q2: seq<nat>, t2: seq<Act>,
      b2: bool,
                  c: Code, p: seq<nat>, tr: seq<Act>, bad: bool)
    requires Whole(w, d1, q1, t1, b1) && Whole(w, d2, q2, t2, b2) && Under(d1, q1, c, p) && Under(d2, q2, c, p)
    requires (forall x :: x in tr <==> x in t1 || x in t2) && (b1 || b2 ==> bad)
    ensures Whole(w, c, p, tr, bad)
  {
    hide Under, HasLeaf;
    forall x | x in tr && !x.Ctl? ensures HasLeaf(w, c, p, tr, bad, x) {
      if x in t1 {
        WholeWider(w, d1, q1, t1, b1, c, p, tr, bad, x);
      } else {
        WholeWider(w, d2, q2, t2, b2, c, p, tr, bad, x);
      }
    }
  }

  /** Decisions belong to no leaf. */
  lemma Decisions(w: World, c: Code, p: seq<nat>, tr: seq<Act>, bad: bool)
    requires forall x | x in tr :: x.Ctl?
    ensures Whole(w, c, p, tr, bad)
  {
  }

  lemma UnderSelf(c: Code, p: seq<nat>)
    ensures Under(c, p, c, p)
  {
  }

  lemma CutWider(w: World, t: seq<Act>, tr: seq<Act>)
    requires Cut(w, t) && forall x | x in t :: x in tr
    ensures Cut(w, tr)
  {
    var site: Site, call, args :| Called(site, call, args) in t && w.oracle(call, site.at, args) == Fail(Cancelled);
    assert Called(site, call, args) in tr;
  }

  /** Decisions before the rest. */
  lemma AfterDecisions(w: World, d: Code, q: seq<nat>, ctl: seq<Act>, e: Eff, c: Code, p: seq<nat>)
    requires (forall x | x in ctl :: x.Ctl?) && Accounted(w, d, q, e) && Under(d, q, c, p)
    ensures Accounted(w, c, p, Prefix(ctl, e))
  {
    hide Under, Whole, Cut;
    Decisions(w, c, p, ctl, false);
    UnderSelf(c, p);
    WholeJoin(w, c, p, ctl, false, d, q, e.tr, Broken(e.st), c, p, ctl + e.tr, Broken(e.st));
    if e.st == Failed(Cancelled) { CutWider(w, e.tr, ctl + e.tr); }
  }

  /** One piece of the code after another. */
  lemma InTurn(w: World, d1: Code, q1: seq<nat>, e: Eff, d2: Code, q2: seq<nat>, f: Eff, c: Code, p: seq<nat>)
    requires Accounted(w, d1, q1, e) && !Broken(e.st) && Accounted(w, d2, q2, f)
    requires Under(d1, q1, c, p) && Under(d2, q2, c, p)
    ensures Accounted(w, c, p, Prefix(e.tr, f))
  {
    hide Under, Whole, Cut;
    WholeJoin(w, d1, q1, e.tr, false, d2, q2, f.tr, Broken(f.st), c, p, e.tr + f.tr, Broken(f.st));
    if f.st == Failed(Cancelled) { CutWider(w, f.tr, e.tr + f.tr); }
  }

  lemma Placed(w: World, d: Code, q: seq<nat>, e: Eff, c: Code, p: seq<nat>)
    requires Accounted(w, d, q, e) && Under(d, q, c, p)
    ensures Accounted(w, c, p, e)
  {
    assert [] + e.tr == e.tr;
    AfterDecisions(w, d, q, [], e, c, p);
  }

  // ----- where code sits

  lemma UnderChild(ns: seq<Node>, i: nat, p: seq<nat>)
    requires i < |ns|
    ensures Under(One(ns[i]), p + [i], Many(ns), p)
  {
    forall call, a | Sits(One(ns[i]), p + [i], call, a) ensures Sits(Many(ns), p, call, a) {
      var q := a.path[|p|..];
      assert p <= a.path && q[0] == i && q[1..] == a.path[|p + [i]|..];
    }
  }

  lemma UnderArm(n: Node, b: nat, p: seq<nat>)
    requires n.Branch? && b < 2
    ensures Under(Many(if b == 0 then n.thn else n.els), p + [b], One(n), p)
  {
    var arm := if b == 0 then n.thn else n.els;
    forall call, a | Sits(Many(arm), p + [b], call, a) ensures Sits(One(n), p, call, a) {
      var q := a.path[|p|..];
      assert p <= a.path && q[0] == b && q[1..] == a.path[|p + [b]|..];
    }
  }

  lemma UnderThread(n: Node, i: nat, p: seq<nat>, l: seq<nat>)
    requires IsParallel(n) && (n.Fork? ==> i < |n.branches|)
    ensures Under(Many(ThreadNodes(n, i)), ThreadAddr(n, i, p, l).path, One(n), p)
  {
    if n.Fork? {
      forall call, a | Sits(Many(n.branches[i].nodes), p + [i], call, a) ensures Sits(One(n), p, call, a) {
        var q := a.path[|p|..];
        assert p <= a.path && q[0] == i && q[1..] == a.path[|p + [i]|..];
      }
    }
  }

  lemma UnderBody(n: Node, p: seq<nat>)
    requires IsLoop(n)
    ensures Under(Many(n.body), p, One(n), p)
  {
  }

  lemma UnderStep(nodes: seq<GraphNode>, i: nat, p: seq<nat>)
    requires i < |nodes|
    ensures Under(One(Invoke(Sorted(nodes)[i].run)), p + [i], One(Graph(nodes)), p)
  {
    hide Sorted;
    var run := Sorted(nodes)[i].run;
    forall call, a | Sits(One(Invoke(run)), p + [i], call, a) ensures Sits(One(Graph(nodes)), p, call, a) {
      LastPart(p, i, a.path);
      assert LeafOf(Graph(nodes), [i]) == Some(run);
    }
  }

  lemma LastPart(p: seq<nat>, i: nat, path: seq<nat>)
    requires p + [i] <= path && path[|p + [i]|..] == []
    ensures p <= path && path[|p|..] == [i]
  {
    assert |path| == |p| + 1 && path[|p|] == i;
  }

  // ----- the induction

  lemma CallAccounted(w: World, call: Call, a: Addr, s: Scope)
    ensures Accounted(w, One(Invoke(call)), a.path, ExecCall(w, call, a, s))
  {
    var f := ExecCall(w, call, a, s);
    if f.st == Failed(Cancelled) { CallCut(w, call, a, s); }
    forall x | x in f.tr && !x.Ctl? ensures HasLeaf(w, One(Invoke(call)), a.path, f.tr, Broken(f.st), x) {
      assert a.path[|a.path|..] == [];
      assert Sits(One(Invoke(call)), a.path, call, a) && LeafIn(w, f.tr, Broken(f.st), x, call, a, s);
    }
  }

  lemma CallCut(w: World, call: Call, a: Addr, s: Scope)
    requires ExecCall(w, call, a, s).st == Failed(Cancelled)
    ensures Cut(w, ExecCall(w, call, a, s).tr)
  {
    var f := ExecCall(w, call, a, s);
    assert |f.tr| == 2 && f.tr[1].Called?;
    assert Called(f.tr[1].site, f.tr[1].call, f.tr[1].args) in f.tr;
  }

  lemma DecideDecides(w: World, tag: Tag, cond: Expr, a: Addr, s: Scope)
    ensures var c := Decide(w, tag, cond, a, s);
            (forall x | x in c.tr :: x.Ctl?) && (c.verdict.Err? ==> c.verdict.e != Cancelled)
  {
  }

  lemma RecordDecides(w: World, k: CtlKey, val: int)
    ensures var c := Record(w, k, val);
            (forall x | x in c.tr :: x.Ctl?) && (c.verdict.Err? ==> c.verdict.e != Cancelled)
  {
  }

  lemma Quietly(w: World, c: Code, p: seq<nat>, e: Eff)
    requires e.st != Failed(Cancelled) && forall x | x in e.tr :: x.Ctl?
    ensures Accounted(w, c, p, e)
  {
  }

  lemma {:induction false} ExecAccounted(w: World, n: Node, p: seq<nat>, l: seq<nat>, s: Scope)
    ensures Accounted(w, One(n), p, Exec(w, n, p, l, s))
    decreases n, 2, 0
  {
    hide Accounted, Under, ExecFrom, Iterate, Threads, Steps, Decide, Record, ExecCall, Sorted, EvalCollection,
        EvalValue, ExecGraph, Join;
    var a := Addr(p, l);
    match n
    case Invoke(call) => CallAccounted(w, call, a, s);
    case Let(_, _) => Quietly(w, One(n), p, Exec(w, n, p, l, s));
    case Return(_) => Quietly(w, One(n), p, Exec(w, n, p, l, s));
    case Branch(cond, thn, els) => BranchAccounted(w, n, p, l, s);
    case Fork(_) =>
      ThreadsAccounted(w, n, [], 0, p, l, s);
      JoinAccounted(w, One(n), p, a, s, Threads(w, n, [], 0, p, l, s));
    case Loop(_, _, _, _) => LoopAccounted(w, n, p, l, s);
    case While(_, limit, _) => IterateAccounted(w, n, [], w.Bound(limit), 0, p, l, s);
    case Retry(_, limit, _) => IterateAccounted(w, n, [], w.Bound(limit), 0, p, l, s);
    case Graph(nodes) => GraphAccounted(w, nodes, p, l, s);
  }

  lemma {:induction false} BranchAccounted(w: World, n: Node, p: seq<nat>, l: seq<nat>, s: Scope)
    requires n.Branch?
    ensures Accounted(w, One(n), p, Exec(w, n, p, l, s))
    decreases n, 1, 0
  {
    hide Accounted, Under, ExecFrom, Decide;
    var c := Decide(w, Br, n.cond, Addr(p, l), s);
    DecideDecides(w, Br, n.cond, Addr(p, l), s);
    if c.verdict.Err? {
      Quietly(w, One(n), p, Exec(w, n, p, l, s));
    } else {
      var b: nat := if c.verdict.Yes? then 0 else 1;
      var arm := if b == 0 then n.thn else n.els;
      FromAccounted(w, arm, 0, p + [b], l, s);
      UnderArm(n, b, p);
      AfterDecisions(w, Many(arm), p + [b], c.tr, ExecFrom(w, arm, 0, p + [b], l, s), One(n), p);
    }
  }

  lemma {:induction false} LoopAccounted(w: World, n: Node, p: seq<nat>, l: seq<nat>, s: Scope)
    requires n.Loop?
    ensures Accounted(w, One(n), p, Exec(w, n, p, l, s))
    decreases n, 1, w.Cap() + 1
  {
    hide Accounted, Under, Iterate, Threads, Record, EvalCollection, Join;
    var got := EvalCollection(w.render, s, n.coll);
    if got.None? || |got.value| > w.Cap() {
      Quietly(w, One(n), p, Exec(w, n, p, l, s));
    } else {
      var items := got.value;
      var c := Record(w, CtlKey(Lp, Addr(p, l)), |items|);
      RecordDecides(w, CtlKey(Lp, Addr(p, l)), |items|);
      UnderSelf(One(n), p);
      if c.verdict.Err? {
        Quietly(w, One(n), p, Exec(w, n, p, l, s));
      } else if n.par {
        ThreadsAccounted(w, n, items, 0, p, l, s);
        var t := Threads(w, n, items, 0, p, l, s);
        JoinAccounted(w, One(n), p, Addr(p, l), s, t);
        AfterDecisions(w, One(n), p, c.tr, Join(w, Addr(p, l), s, t), One(n), p);
      } else {
        IterateAccounted(w, n, items, |items|, 0, p, l, s);
        AfterDecisions(w, One(n), p, c.tr, Iterate(w, n, items, |items|, 0, p, l, s), One(n), p);
      }
    }
  }

  lemma {:induction false} FromAccounted(w: World, ns: seq<Node>, i: nat, p: seq<nat>, l: seq<nat>, s: Scope)
    requires i <= |ns|
    ensures Accounted(w, Many(ns), p, ExecFrom(w, ns, i, p, l, s))
    decreases ns, 0, |ns| - i
  {
    hide Accounted, Under, Exec;
    if i == |ns| {
      Quietly(w, Many(ns), p, ExecFrom(w, ns, i, p, l, s));
    } else {
      var e := Exec(w, ns[i], p + [i], l, s);
      ExecAccounted(w, ns[i], p + [i], l, s);
      UnderChild(ns, i, p);
      if e.st.Running? {
        FromAccounted(w, ns, i + 1, p, l, e.scope);
        UnderSelf(Many(ns), p);
        InTurn(w, One(ns[i]), p + [i], e, Many(ns), p, ExecFrom(w, ns, i + 1, p, l, e.scope), Many(ns), p);
      } else {
        Placed(w, One(ns[i]), p + [i], e, Many(ns), p);
      }
    }
  }

  lemma AroundAccounted(w: World, n: Node, i: nat, p: seq<nat>, l: seq<nat>, s: Scope)
    requires IsLoop(n)
    ensures var b := Before(w, n, i, p, l, s);
            (forall x | x in b.tr :: x.Ctl?) && (b.verdict.Err? ==> b.verdict.e != Cancelled)
    ensures var c := After(w, n, i, p, l, s);
            (forall x | x in c.tr :: x.Ctl?) && (c.verdict.Err? ==> c.verdict.e != Cancelled)
  {
    hide Decide;
    if n.While? { DecideDecides(w, Wh, n.cond, Addr(p, l + [i]), s); }
    if n.Retry? { DecideDecides(w, Rt, n.cond, Addr(p, l + [i]), s); }
  }

  lemma {:induction false} IterateAccounted(w: World, n: Node, items: seq<Val>, max: nat, i: nat, p: seq<nat>,
      l: seq<nat>, s: Scope)
    requires IsLoop(n) && i <= max && (n.Loop? ==> max == |items|)
    ensures Accounted(w, One(n), p, Iterate(w, n, items, max, i, p, l, s))
    decreases n, 1, max - i
  {
    hide Accounted, Under, ExecFrom, Before, After;
    var b := Before(w, n, i, p, l, s);
    AroundAccounted(w, n, i, p, l, s);
    if i == max || !b.verdict.Yes? {
      Quietly(w, One(n), p, Iterate(w, n, items, max, i, p, l, s));
    } else {
      var f := ExecFrom(w, n.body, 0, p, l + [i], IterScope(n, items, i, s));
      FromAccounted(w, n.body, 0, p, l + [i], IterScope(n, items, i, s));
      UnderBody(n, p);
      UnderSelf(One(n), p);
      AfterDecisions(w, Many(n.body), p, b.tr, f, One(n), p);
      if f.st.Running? {
        var c := After(w, n, i, p, l, f.scope);
        AroundAccounted(w, n, i, p, l, f.scope);
        var t := Split(w, n, items, max, i, p, l, s);
        if c.verdict.No? {
          IterateAccounted(w, n, items, max, i + 1, p, l, f.scope);
        } else {
          Quietly(w, One(n), p, t.rest);
        }
        AfterDecisions(w, One(n), p, c.tr, t.rest, One(n), p);
        InTurn(w, One(n), p, Prefix(b.tr, f), One(n), p, Prefix(c.tr, t.rest), One(n), p);
        SplitWhole(w, n, items, max, i, p, l, s);
      }
    }
  }

  ghost predicate ParAccounted(w: World, c: Code, p: seq<nat>, t: Par) {
    (t.err.Some? ==> t.err.value != Cancelled) && Whole(w, c, p, t.tr, t.err.Some?)
  }

  lemma JoinAccounted(w: World, c: Code, p: seq<nat>, a: Addr, s: Scope, t: Par)
    requires ParAccounted(w, c, p, t)
    ensures Accounted(w, c, p, Join(w, a, s, t))
  {
    hide Whole;
  }

  lemma {:induction false} ThreadsAccounted(w: World, n: Node, items: seq<Val>, i: nat, p: seq<nat>, l: seq<nat>,
      s: Scope)
    requires IsParallel(n) && i <= Width(n, items)
    ensures ParAccounted(w, One(n), p, Threads(w, n, items, i, p, l, s))
    decreases n, 1, Width(n, items) - i
  {
    hide Under, Whole, ExecFrom;
    if i == Width(n, items) {
      Decisions(w, One(n), p, [], false);
    } else {
      var a := ThreadAddr(n, i, p, l);
      var e := ExecFrom(w, ThreadNodes(n, i), 0, a.path, a.loop, ThreadScope(n, items, i, s));
      FromAccounted(w, ThreadNodes(n, i), 0, a.path, a.loop, ThreadScope(n, items, i, s));
      ThreadsAccounted(w, n, items, i + 1, p, l, s);
      var r := Threads(w, n, items, i + 1, p, l, s);
      ShuffleMembers(e.tr, r.tr, w.merge(a));
      UnderThread(n, i, p, l);
      UnderSelf(One(n), p);
      var t := AddThread(n, i, e, r, w.merge(a));
      WholeJoin(w, Many(ThreadNodes(n, i)), a.path, e.tr, Broken(e.st), One(n), p, r.tr, r.err.Some?, One(n), p, t.tr,
          t.err.Some?);
    }
  }

  ghost predicate StepsWhole(w: World, c: Code, p: seq<nat>, r: GraphRun) {
    && (r.cut ==> Cut(w, r.tr))
    && (r.err.Some? ==> r.err.value != Cancelled)
    && Whole(w, c, p, r.tr, r.err.Some?)
  }

  lemma {:induction false} StepsAccounted(w: World, nodes: seq<GraphNode>, order: seq<nat>, p: seq<nat>, l: seq<nat>,
      s: Scope, done: set<string>)
    requires (forall k | 0 <= k < |order| :: order[k] < |nodes|)
    ensures StepsWhole(w, One(Graph(nodes)), p, Steps(w, Sorted(nodes), order, p, l, s, done))
    decreases |order|
  {
    hide Under, Whole, ExecCall, Sorted, Cut;
    var gs, c := Sorted(nodes), One(Graph(nodes));
    if order == [] {
      Decisions(w, c, p, [], false);
    } else {
      var i := order[0];
      var a := Addr(p + [i], l);
      StepsAccounted(w, nodes, order[1..], p, l, s, done);
      if (forall d | d in gs[i].needs :: d in done) && !w.halt(a) {
        var e := ExecCall(w, gs[i].run, a, s);
        CallAccounted(w, gs[i].run, a, s);
        var s', done' := StepScope(gs[i].id, s, e), StepDone(gs[i].id, done, e);
        StepsAccounted(w, nodes, order[1..], p, l, s', done');
        var r := Steps(w, gs, order[1..], p, l, s', done');
        ShuffleMembers(e.tr, r.tr, w.merge(a));
        UnderStep(nodes, i, p);
        UnderSelf(c, p);
        var t := AddStep(e, r, w.merge(a));
        if e.st == Failed(Cancelled) { CutWider(w, e.tr, t.tr); }
        if r.cut { CutWider(w, r.tr, t.tr); }
        WholeJoin(w, One(Invoke(gs[i].run)), p + [i], e.tr, Broken(e.st), c, p, r.tr, r.err.Some?, c, p, t.tr,
            t.err.Some?);
      }
    }
  }

  lemma GraphAccounted(w: World, nodes: seq<GraphNode>, p: seq<nat>, l: seq<nat>, s: Scope)
    ensures Accounted(w, One(Graph(nodes)), p, Exec(w, Graph(nodes), p, l, s))
  {
    hide Steps, Sorted, Cut, Whole;
    StepsAccounted(w, nodes, Topo(Sorted(nodes), {}), p, l, s, {});
    GraphWhole(w, One(Graph(nodes)), p, Steps(w, Sorted(nodes), Topo(Sorted(nodes), {}), p, l, s, {}),
        ExecGraph(w, Sorted(nodes), p, l, s));
  }

  lemma GraphWhole(w: World, c: Code, p: seq<nat>, r: GraphRun, e: Eff)
    requires StepsWhole(w, c, p, r) && e.tr == r.tr
    requires (e.st == Failed(Cancelled) ==> r.cut) && (r.err.Some? ==> Broken(e.st))
    ensures Accounted(w, c, p, e)
  {
    hide Under;
    UnderSelf(c, p);
    forall x | x in e.tr && !x.Ctl? ensures HasLeaf(w, c, p, e.tr, Broken(e.st), x) {
      WholeWider(w, c, p, r.tr, r.err.Some?, c, p, e.tr, Broken(e.st), x);
    }
  }

  lemma RunAccounted(w: World, prog: Program, input: Val)
    ensures Accounted(w, Many(prog.body), [], Run(w, prog, input))
  {
    FromAccounted(w, prog.body, 0, [], [], ParamScope(prog.params, input));
  }

  // ----- what a trace says of one leaf

  /** A called leaf was not seeded, is the program's leaf at that address, and, unless the run
      broke, ended in a pause or a recorded result or was cancelled. */
  lemma CalledLeaf(w: World, prog: Program, input: Val, site: Site, call: Call, args: Scope)
    requires Called(site, call, args) in Run(w, prog, input).tr
    ensures site !in w.memo && LeafAmong(prog.body, site.at.path) == Some(call)
    ensures site == Site(call.bind, site.at)
    ensures var e := Run(w, prog, input);
            !Broken(e.st) ==>
              match w.oracle(call, site.at, args)
              case Fail(x) => x == Cancelled
              case Suspend => Gate(site) in e.tr
              case Ok(_) => exists v :: Put(site, v) in e.tr
  {
    hide Run, ExecCall, LeafAmong;
    var e, x := Run(w, prog, input), Called(site, call, args);
    RunAccounted(w, prog, input);
    assert HasLeaf(w, Many(prog.body), [], e.tr, Broken(e.st), x);
    var c, a, s :| Sits(Many(prog.body), [], c, a) && LeafIn(w, e.tr, Broken(e.st), x, c, a, s);
    assert a.path[0..] == a.path;
    CallOf(w, c, a, s, site, call, args);
  }

  lemma CallOf(w: World, c: Call, a: Addr, s: Scope, site: Site, call: Call, args: Scope)
    requires Called(site, call, args) in ExecCall(w, c, a, s).tr
    ensures call == c && site == Site(c.bind, a) && site !in w.memo
    ensures var f := ExecCall(w, c, a, s);
            match w.oracle(call, site.at, args)
            case Fail(x) => f.st == Failed(x)
            case Suspend => Gate(site) in f.tr
            case Ok(_) => Broken(f.st) || exists v :: Put(site, v) in f.tr
  {
    var f := ExecCall(w, c, a, s);
    if w.oracle(c, a, args).Suspend? { assert f.tr[2] == Gate(site); }
    if w.oracle(c, a, args).Ok? && !Broken(f.st) { assert f.tr[2].Put?; }
  }

  /** Only a leaf that was called, and answered, records a result. */
  lemma RecordedWasCalled(w: World, prog: Program, input: Val, site: Site, v: Val) returns (call: Call, args: Scope)
    requires Put(site, v) in Run(w, prog, input).tr
    ensures Called(site, call, args) in Run(w, prog, input).tr && w.oracle(call, site.at, args).Ok?
  {
    hide Run, ExecCall, LeafAmong;
    var e, x := Run(w, prog, input), Put(site, v);
    RunAccounted(w, prog, input);
    assert HasLeaf(w, Many(prog.body), [], e.tr, Broken(e.st), x);
    var c, a, s :| Sits(Many(prog.body), [], c, a) && LeafIn(w, e.tr, Broken(e.st), x, c, a, s);
    call := c;
    args := PutOf(w, c, a, s, site, v);
  }

  lemma PutOf(w: World, c: Call, a: Addr, s: Scope, site: Site, v: Val) returns (args: Scope)
    requires Put(site, v) in ExecCall(w, c, a, s).tr
    ensures Called(site, c, args) in ExecCall(w, c, a, s).tr && w.oracle(c, site.at, args).Ok?
  {
    var f := ExecCall(w, c, a, s);
    assert |f.tr| == 3 && f.tr[1].Called? && f.tr[1].site == site;
    args := f.tr[1].args;
  }

  /** A leaf that paused had no memo entry and was told to pause. */
  lemma GateWasCalled(w: World, prog: Program, input: Val, site: Site) returns (call: Call, args: Scope)
    requires Gate(site) in Run(w, prog, input).tr
    ensures site !in w.memo && Called(site, call, args) in Run(w, prog, input).tr
            && w.oracle(call, site.at, args).Suspend?
  {
    hide Run, ExecCall, LeafAmong;
    var e, x := Run(w, prog, input), Gate(site);
    RunAccounted(w, prog, input);
    assert HasLeaf(w, Many(prog.body), [], e.tr, Broken(e.st), x);
    var c, a, s :| Sits(Many(prog.body), [], c, a) && LeafIn(w, e.tr, Broken(e.st), x, c, a, s);
    call := c;
    args := GateOf(w, c, a, s, site);
  }

  lemma GateOf(w: World, c: Call, a: Addr, s: Scope, site: Site) returns (args: Scope)
    requires Gate(site) in ExecCall(w, c, a, s).tr
    ensures site == Site(c.bind, a) && site !in w.memo
    ensures Called(site, c, args) in ExecCall(w, c, a, s).tr && w.oracle(c, a, args).Suspend?
  {
    var f := ExecCall(w, c, a, s);
    assert |f.tr| == 3 && f.tr[1].Called? && f.tr[1].site == site;
    args := f.tr[1].args;
  }

  /** A leaf is called once in a run. */
  lemma CalledOnce(w: World, prog: Program, input: Val, a: Site, c: Call, x: Scope, b: Site, d: Call, y: Scope)
    requires Called(a, c, x) in Run(w, prog, input).tr && Called(b, d, y) in Run(w, prog, input).tr && a.at == b.at
    ensures a == b && c == d && x == y
  {
    hide Run, Once;
    AddressesIdentifyLeaves(w, prog, input);
    if Called(a, c, x) != Called(b, d, y) { Unclashed(Run(w, prog, input).tr, Called(a, c, x), Called(b, d, y)); }
  }

  /** A leaf that paused recorded nothing. */
  lemma PausedLeaf(w: World, prog: Program, input: Val, site: Site, v: Val)
    requires Gate(site) in Run(w, prog, input).tr
    ensures Put(site, v) !in Run(w, prog, input).tr
  {
    hide Run, Once;
    AddressesIdentifyLeaves(w, prog, input);
    if Put(site, v) in Run(w, prog, input).tr { Unclashed(Run(w, prog, input).tr, Put(site, v), Gate(site)); }
  }
}
