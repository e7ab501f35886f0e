/** The static invocation bound is no smaller than it has to be: programs that skip nothing
    call each callee exactly as often as it says, whatever their nesting. */
module Tight {
  import opened Values
  import opened Common
  import opened ExecIR
  import opened Eval
  import opened Interp
  import opened Bounds
  import Control

  /** The constant condition. */
  function Constant(b: bool): Expr {
    Leaf(Lit(Bool(b)))
  }

  /** Code that skips no call of k: every branch takes its costlier arm, every while goes on for
      ever and every loop has as many items as the interpreter allows. */
  predicate Full(n: Node, k: Callee, cap: nat)
    decreases n, 1
  {
    match n
    case Invoke(call) => call.args == map[] && !(call.Workflow? && call.project)
    case Let(_, value) => value.Lit?
    case Branch(cond, thn, els) =>
      || (cond == Constant(true) && FullAll(thn, k, cap) && CountAll(els, k, cap) <= CountAll(thn, k, cap))
      || (cond == Constant(false) && FullAll(els, k, cap) && CountAll(thn, k, cap) <= CountAll(els, k, cap))
    case Fork(brs) => forall i | 0 <= i < |brs| :: FullAll(brs[i].nodes, k, cap)
    case Loop(_, coll, body, _) => coll.Lit? && coll.v.Arr? && |coll.v.xs| == cap && FullAll(body, k, cap)
    case While(cond, _, body) => cond == Constant(true) && FullAll(body, k, cap)
    case _ => false
  }

  predicate FullAll(ns: seq<Node>, k: Callee, cap: nat)
    decreases ns, 0
  {
    forall i | 0 <= i < |ns| :: Full(ns[i], k, cap)
  }

  /** A fresh run in which every call answers at once. */
  ghost predicate Willing(w: World) {
    && w.memo == map[] && w.ctl == map[]
    && (forall a :: !w.halt(a))
    && (forall call, a, args :: w.oracle(call, a, args) == Ok(Null))
  }

  lemma CallTight(w: World, call: Call, a: Addr, s: Scope, k: Callee)
    requires Willing(w) && Full(Invoke(call), k, w.Cap())
    ensures ExecCall(w, call, a, s).st.Running? && Calls(ExecCall(w, call, a, s).tr, k) == CallCount(call, k)
  {
    hide Calls;
    var site := Site(call.bind, a);
    var none: Scope := map[];
    assert EvalArgs(w.render, s, call.args) == Some(none);
    var x, y, z := Get(site, None), Called(site, call, none), Put(site, Null);
    assert ExecCall(w, call, a, s).tr == [x] + ([y] + [z]);
    CallsConcat([x], [y] + [z], k);
    CallsConcat([y], [z], k);
    OneAct(x, k);
    OneAct(y, k);
    OneAct(z, k);
  }

  lemma ConstantDecided(w: World, tag: Tag, b: bool, a: Addr, s: Scope, k: Callee)
    requires Willing(w)
    ensures var c := Decide(w, tag, Constant(b), a, s);
            c.verdict == (if b then Yes else No) && Calls(c.tr, k) == 0
  {
    hide Calls;
    ControlOnly(Decide(w, tag, Constant(b), a, s).tr, k);
  }

  lemma {:induction false} NodeTight(w: World, n: Node, p: seq<nat>, l: seq<nat>, s: Scope, k: Callee)
    requires Willing(w) && Full(n, k, w.Cap())
    ensures Exec(w, n, p, l, s).st.Running? && Calls(Exec(w, n, p, l, s).tr, k) == Count(n, k, w.Cap())
    decreases n, 2, 0
  {
    hide Calls, Iterate, Threads, ExecFrom, ExecCall, Decide;
    ControlOnly([], k);
    match n
    case Invoke(call) => CallTight(w, call, Interp.Addr(p, l), s, k);
    case Let(_, _) =>
    case Branch(cond, thn, els) =>
      var b := cond == Constant(true);
      ConstantDecided(w, Br, b, Interp.Addr(p, l), s, k);
      var arm, q := if b then thn else els, p + [if b then 0 else 1];
      SequenceTight(w, arm, 0, q, l, s, k);
      assert arm[..0] == [];
      CallsConcat(Decide(w, Br, cond, Interp.Addr(p, l), s).tr, ExecFrom(w, arm, 0, q, l, s).tr, k);
    case Fork(brs) =>
      ThreadsTight(w, n, [], 0, p, l, s, k);
      assert brs[..0] == [];
    case Loop(_, _, _, _) => CollectionTight(w, n, p, l, s, k);
    case While(_, limit, body) =>
      IterateTight(w, n, [], w.Bound(limit), 0, p, l, s, k);
      TimesIs(w.Bound(limit), w.Bound(limit), CountAll(body, k, w.Cap()));
  }

  lemma {:induction false} CollectionTight(w: World, n: Node, p: seq<nat>, l: seq<nat>, s: Scope, k: Callee)
    requires Willing(w) && n.Loop? && Full(n, k, w.Cap())
    ensures Exec(w, n, p, l, s).st.Running? && Calls(Exec(w, n, p, l, s).tr, k) == Count(n, k, w.Cap())
    decreases n, 1, w.Cap() + 1
  {
    hide Calls, Iterate, Threads;
    var items := n.coll.v.xs;
    var c := Record(w, CtlKey(Lp, Interp.Addr(p, l)), |items|);
    ControlOnly(c.tr, k);
    TimesIs(|items|, w.Cap(), CountAll(n.body, k, w.Cap()));
    if n.par {
      ThreadsTight(w, n, items, 0, p, l, s, k);
      CallsConcat(c.tr, Threads(w, n, items, 0, p, l, s).tr, k);
    } else {
      IterateTight(w, n, items, |items|, 0, p, l, s, k);
      CallsConcat(c.tr, Iterate(w, n, items, |items|, 0, p, l, s).tr, k);
    }
  }

  lemma {:induction false} SequenceTight(w: World, ns: seq<Node>, i: nat, p: seq<nat>, l: seq<nat>, s: Scope, k: Callee)
    requires Willing(w) && i <= |ns| && FullAll(ns, k, w.Cap())
    ensures var e := ExecFrom(w, ns, i, p, l, s);
            e.st.Running? && CountAll(ns[..i], k, w.Cap()) + Calls(e.tr, k) == CountAll(ns, k, w.Cap())
    decreases ns, 0, |ns| - i
  {
    hide Calls, Full, Exec;
    ControlOnly([], k);
    if i == |ns| {
      assert ns[..i] == ns;
    } else {
      var e := Exec(w, ns[i], p + [i], l, s);
      NodeTight(w, ns[i], p + [i], l, s, k);
      SequenceTight(w, ns, i + 1, p, l, e.scope, k);
      assert ns[..i + 1][..i] == ns[..i];
      CallsConcat(e.tr, ExecFrom(w, ns, i + 1, p, l, e.scope).tr, k);
    }
  }

  /** Turns of a loop that goes on: all of them are taken. A retry whose condition never holds
      takes them all too, and then fails. */
  predicate GoesOn(n: Node) {
    IsLoop(n) && (n.While? ==> n.cond == Constant(true)) && (n.Retry? ==> n.cond == Constant(false))
  }

  lemma {:induction false} IterateTight(w: World, n: Node, items: seq<Val>, max: nat, i: nat, p: seq<nat>, l: seq<nat>,
      s: Scope, k: Callee)
    requires Willing(w) && GoesOn(n) && i <= max && (n.Loop? ==> max == |items|) && FullAll(n.body, k, w.Cap())
    ensures var e := Iterate(w, n, items, max, i, p, l, s);
            && Calls(e.tr, k) == Times(max - i, CountAll(n.body, k, w.Cap()))
            && (if n.Retry? then e.st == Failed(RetryExhausted(n.limit)) else e.st.Running?)
    decreases n, 1, max - i
  {
    hide Calls, ExecFrom, FullAll, Decide;
    ControlOnly([], k);
    if i < max {
      var f := ExecFrom(w, n.body, 0, p, l + [i], IterScope(n, items, i, s));
      ConstantDecided(w, Wh, true, Interp.Addr(p, l + [i]), s, k);
      ConstantDecided(w, Rt, false, Interp.Addr(p, l + [i]), f.scope, k);
      ChecksAreQuiet(w, n, i, p, l, s, f.scope, k);
      SequenceTight(w, n.body, 0, p, l + [i], IterScope(n, items, i, s), k);
      assert n.body[..0] == [];
      IterateTight(w, n, items, max, i + 1, p, l, f.scope, k);
      SplitWhole(w, n, items, max, i, p, l, s);
      var t := Split(w, n, items, max, i, p, l, s);
      CallsConcat(t.before.tr, t.body.tr, k);
      CallsConcat(t.after.tr, t.rest.tr, k);
      CallsConcat(t.before.tr + t.body.tr, t.after.tr + t.rest.tr, k);
    }
  }

  lemma {:induction false} ThreadsTight(w: World, n: Node, items: seq<Val>, i: nat, p: seq<nat>, l: seq<nat>, s: Scope,
      k: Callee)
    requires Willing(w) && IsParallel(n) && i <= Width(n, items)
    requires if n.Fork? then Full(n, k, w.Cap()) else FullAll(n.body, k, w.Cap())
    ensures var t := Threads(w, n, items, i, p, l, s);
            && t.err.None? && !t.susp
            && if n.Fork? then CountForks(n.branches[..i], k, w.Cap()) + Calls(t.tr, k) ==
                CountForks(n.branches, k, w.Cap())
               else Calls(t.tr, k) == Times(|items| - i, CountAll(n.body, k, w.Cap()))
    decreases n, 1, Width(n, items) - i
  {
    hide Calls, ExecFrom, CountAll, Shuffle, FullAll, Full, CountForks;
    ControlOnly([], k);
    if i == Width(n, items) {
      if n.Fork? { assert n.branches[..i] == n.branches; }
    } else {
      var a := ThreadAddr(n, i, p, l);
      var ns, s' := ThreadNodes(n, i), ThreadScope(n, items, i, s);
      var e := ExecFrom(w, ns, 0, a.path, a.loop, s');
      if n.Fork? { ForkParts(n, i, k, w.Cap()); }
      SequenceTight(w, ns, 0, a.path, a.loop, s', k);
      NoNodes(ns, k, w.Cap());
      ThreadsTight(w, n, items, i + 1, p, l, s, k);
      CallsShuffle(e.tr, Threads(w, n, items, i + 1, p, l, s).tr, w.merge(a), k);
    }
  }

  lemma ForkParts(n: Node, i: nat, k: Callee, cap: nat)
    requires n.Fork? && i < |n.branches| && Full(n, k, cap)
    ensures FullAll(n.branches[i].nodes, k, cap)
    ensures CountForks(n.branches[..i + 1], k, cap) ==
        CountForks(n.branches[..i], k, cap) + CountAll(n.branches[i].nodes, k, cap)
  {
    hide FullAll, CountAll;
    assert n.branches[..i + 1][..i] == n.branches[..i];
  }

  lemma NoNodes(ns: seq<Node>, k: Callee, cap: nat)
    ensures CountAll(ns[..0], k, cap) == 0
  {
  }

  /** The bound is attained: for every limit there is a run in which code that skips nothing calls
      k exactly as often as counted. */
  lemma BoundIsAttained(prog: Program, input: Val, k: Callee, maxLoop: int)
    requires FullAll(prog.body, k, if maxLoop > 0 then maxLoop else 1000)
    ensures exists w: World ::
              w.maxLoop == maxLoop && Calls(Run(w, prog, input).tr, k) == CountAll(prog.body, k, w.Cap())
  {
    hide Calls;
    var w := World(maxLoop, (v: Val) => "", (c: Call, a: Addr, s: Scope) => Ok(Null), map[], map[], (a: Addr) => false,
                   (a: Addr) => []);
    SequenceTight(w, prog.body, 0, [], [], ParamScope(prog.params, input), k);
    NoNodes(prog.body, k, w.Cap());
  }

  /** A while whose condition never fails, and a retry whose condition never holds, make every
      call of their bodies once for each turn within their limit and the interpreter's. */
  lemma TurnsAreExact(w: World, n: Node, p: seq<nat>, l: seq<nat>, s: Scope, k: Callee, turns: nat)
    requires Willing(w) && GoesOn(n) && !n.Loop? && FullAll(n.body, k, w.Cap())
    requires Control.Within(w, n.limit, turns) && !Control.Within(w, n.limit, turns + 1)
    ensures Calls(Exec(w, n, p, l, s).tr, k) == turns * CountAll(n.body, k, w.Cap()) == Count(n, k, w.Cap())
  {
    hide Calls;
    Control.BoundIs(w, n.limit, turns);
    Control.BoundIs(w, n.limit, turns + 1);
    IterateTight(w, n, [], w.Bound(n.limit), 0, p, l, s, k);
    TimesIs(turns, turns, CountAll(n.body, k, w.Cap()));
  }

  // ----- what depends on data

  /** The count when every loop has this many items. */
  function Grown(n: Node, k: Callee, cap: nat, items: nat): nat
    decreases n, 1
  {
    match n
    case Invoke(call) => CallCount(call, k)
    case Branch(_, thn, els) => Max(GrownAll(thn, k, cap, items), GrownAll(els, k, cap, items))
    case Fork(brs) => GrownForks(brs, k, cap, items)
    case Loop(_, _, body, _) => items * GrownAll(body, k, cap, items)
    case While(_, limit, body) => Factor(limit, cap) * GrownAll(body, k, cap, items)
    case Retry(_, limit, body) => Factor(limit, cap) * GrownAll(body, k, cap, items)
    case Graph(nodes) => CountSteps(nodes, k)
    case _ => 0
  }

  function GrownAll(ns: seq<Node>, k: Callee, cap: nat, items: nat): nat
    decreases ns, 0
  {
    if ns == [] then 0 else GrownAll(ns[..|ns| - 1], k, cap, items) + Grown(ns[|ns| - 1], k, cap, items)
  }

  function GrownForks(brs: seq<ForkBranch>, k: Callee, cap: nat, items: nat): nat
    decreases brs, 0
  {
    if brs == [] then 0
    else GrownForks(brs[..|brs| - 1], k, cap, items) + GrownAll(brs[|brs| - 1].nodes, k, cap, items)
  }

  /** What loops of this size make of a part: something of nothing never, at least their size
      where the part depends on data, and where it does not, what loops of one item make. */
  predicate Growth(occurs: bool, data: bool, items: nat, grown: nat, one: nat) {
    && (occurs <==> grown > 0) && (occurs <==> one > 0)
    && (data ==> grown >= items) && (!data ==> grown == one)
  }

  lemma GrowthTimes(f: nat, occurs: bool, data: bool, items: nat, grown: nat, one: nat)
    requires f > 0 && Growth(occurs, data, items, grown, one)
    ensures Growth(occurs, data, items, f * grown, f * one)
  {
    assert f * grown >= grown && f * one >= one;
    assert grown == 0 ==> f * grown == 0;
    assert one == 0 ==> f * one == 0;
  }

  lemma {:induction false} NodeGrowth(n: Node, k: Callee, cap: nat, items: nat)
    requires cap > 0 && items > 0
    ensures Growth(DataBound(n, k, true), DataBound(n, k, false), items, Grown(n, k, cap, items), Grown(n, k, cap, 1))
    decreases n, 1
  {
    hide Growth;
    match n
    case Branch(_, thn, els) =>
      AllGrowth(thn, k, cap, items);
      AllGrowth(els, k, cap, items);
      GrowthMax(n, k, cap, items);
    case Fork(brs) => ForksGrowth(brs, k, cap, items);
    case Loop(_, _, body, _) =>
      AllGrowth(body, k, cap, items);
      GrowthLoop(DataBoundAll(body, k, true), DataBoundAll(body, k, false), items, GrownAll(body, k, cap, items),
          GrownAll(body, k, cap, 1));
    case While(_, limit, body) =>
      AllGrowth(body, k, cap, items);
      GrowthTimes(Factor(limit, cap), DataBoundAll(body, k, true), DataBoundAll(body, k, false), items,
          GrownAll(body, k, cap, items), GrownAll(body, k, cap, 1));
    case Retry(_, limit, body) =>
      AllGrowth(body, k, cap, items);
      GrowthTimes(Factor(limit, cap), DataBoundAll(body, k, true), DataBoundAll(body, k, false), items,
          GrownAll(body, k, cap, items), GrownAll(body, k, cap, 1));
    case Graph(nodes) =>
      StepsGrowth(nodes, k);
      Constant0(CountSteps(nodes, k), items);
    case Invoke(call) => Constant0(CallCount(call, k), items);
    case _ => Constant0(0, items);
  }

  lemma Constant0(c: nat, items: nat)
    ensures Growth(c > 0, false, items, c, c)
  {
  }

  lemma GrowthMax(n: Node, k: Callee, cap: nat, items: nat)
    requires n.Branch?
    requires Growth(DataBoundAll(n.thn, k, true), DataBoundAll(n.thn, k, false), items, GrownAll(n.thn, k, cap, items),
                 GrownAll(n.thn, k, cap, 1))
    requires Growth(DataBoundAll(n.els, k, true), DataBoundAll(n.els, k, false), items, GrownAll(n.els, k, cap, items),
                 GrownAll(n.els, k, cap, 1))
    ensures Growth(DataBound(n, k, true), DataBound(n, k, false), items, Grown(n, k, cap, items), Grown(n, k, cap, 1))
  {
  }

  lemma GrowthLoop(occurs: bool, data: bool, items: nat, grown: nat, one: nat)
    requires items > 0 && Growth(occurs, data, items, grown, one)
    ensures Growth(occurs, occurs, items, items * grown, 1 * one)
  {
    assert grown > 0 ==> items * grown >= items;
    assert grown == 0 ==> items * grown == 0;
  }

  lemma GrowthSum(occurs: bool, data: bool, items: nat, grown: nat, one: nat, occurs': bool, data': bool, grown': nat,
      one': nat)
    requires Growth(occurs, data, items, grown, one) && Growth(occurs', data', items, grown', one')
    ensures Growth(occurs || occurs', data || data', items, grown + grown', one + one')
  {
  }

  lemma {:induction false} AllGrowth(ns: seq<Node>, k: Callee, cap: nat, items: nat)
    requires cap > 0 && items > 0
    ensures Growth(DataBoundAll(ns, k, true), DataBoundAll(ns, k, false), items, GrownAll(ns, k, cap, items),
                GrownAll(ns, k, cap, 1))
    decreases ns, 0
  {
    hide Growth, DataBound;
    if ns == [] {
      Constant0(0, items);
    } else {
      var n := |ns| - 1;
      AllGrowth(ns[..n], k, cap, items);
      NodeGrowth(ns[n], k, cap, items);
      DataBoundSnoc(ns, n, k, true);
      DataBoundSnoc(ns, n, k, false);
      assert ns[..n + 1] == ns;
      GrowthSum(DataBoundAll(ns[..n], k, true), DataBoundAll(ns[..n], k, false), items,
          GrownAll(ns[..n], k, cap, items), GrownAll(ns[..n], k, cap, 1),
          DataBound(ns[n], k, true), DataBound(ns[n], k, false), Grown(ns[n], k, cap, items), Grown(ns[n], k, cap, 1));
    }
  }

  lemma {:induction false} ForksGrowth(brs: seq<ForkBranch>, k: Callee, cap: nat, items: nat)
    requires cap > 0 && items > 0
    ensures Growth(DataBound(Fork(brs), k, true), DataBound(Fork(brs), k, false), items,
                GrownForks(brs, k, cap, items), GrownForks(brs, k, cap, 1))
    decreases brs, 0
  {
    hide Growth, DataBoundAll;
    if brs == [] {
      Constant0(0, items);
    } else {
      var n := |brs| - 1;
      var last := brs[n].nodes;
      ForksGrowth(brs[..n], k, cap, items);
      AllGrowth(last, k, cap, items);
      ForkSnoc(brs, n, k, true);
      ForkSnoc(brs, n, k, false);
      GrowthSum(DataBound(Fork(brs[..n]), k, true), DataBound(Fork(brs[..n]), k, false), items,
          GrownForks(brs[..n], k, cap, items), GrownForks(brs[..n], k, cap, 1),
          DataBoundAll(last, k, true), DataBoundAll(last, k, false), GrownAll(last, k, cap, items),
          GrownAll(last, k, cap, 1));
    }
  }

  lemma ForkSnoc(brs: seq<ForkBranch>, n: nat, k: Callee, data: bool)
    requires |brs| == n + 1
    ensures DataBound(Fork(brs), k, data) <==>
            DataBound(Fork(brs[..n]), k, data) || DataBoundAll(brs[n].nodes, k, data)
  {
    hide DataBoundAll;
    if DataBound(Fork(brs), k, data) && !DataBoundAll(brs[n].nodes, k, data) {
      var i :| 0 <= i < |brs| && DataBoundAll(brs[i].nodes, k, data);
      assert DataBoundAll(brs[..n][i].nodes, k, data);
    }
    if DataBound(Fork(brs[..n]), k, data) {
      var i :| 0 <= i < n && DataBoundAll(brs[..n][i].nodes, k, data);
      assert DataBoundAll(brs[i].nodes, k, data);
    }
  }

  lemma {:induction false} StepsGrowth(gs: seq<GraphNode>, k: Callee)
    ensures DataBound(Graph(gs), k, true) <==> CountSteps(gs, k) > 0
    decreases |gs|
  {
    hide CallCount;
    if gs != [] {
      var n := |gs| - 1;
      StepsGrowth(gs[..n], k);
      if i :| 0 <= i < |gs| && CallCount(gs[i].run, k) > 0 {
        assert i < n ==> CallCount(gs[..n][i].run, k) > 0;
      }
      if i :| 0 <= i < n && CallCount(gs[..n][i].run, k) > 0 { assert CallCount(gs[i].run, k) > 0; }
    }
  }

  lemma {:induction false} GrownIsCount(ns: seq<Node>, k: Callee, cap: nat)
    ensures GrownAll(ns, k, cap, cap) == CountAll(ns, k, cap)
    decreases ns, 0
  {
    if ns != [] {
      GrownIsCount(ns[..|ns| - 1], k, cap);
      GrownNodeIsCount(ns[|ns| - 1], k, cap);
    }
  }

  lemma {:induction false} GrownNodeIsCount(n: Node, k: Callee, cap: nat)
    ensures Grown(n, k, cap, cap) == Count(n, k, cap)
    decreases n, 1
  {
    match n
    case Branch(_, thn, els) =>
      GrownIsCount(thn, k, cap);
      GrownIsCount(els, k, cap);
    case Fork(brs) => GrownForksAreCount(brs, k, cap);
    case Loop(_, _, body, _) => GrownIsCount(body, k, cap);
    case While(_, _, body) => GrownIsCount(body, k, cap);
    case Retry(_, _, body) => GrownIsCount(body, k, cap);
    case _ =>
  }

  lemma {:induction false} GrownForksAreCount(brs: seq<ForkBranch>, k: Callee, cap: nat)
    ensures GrownForks(brs, k, cap, cap) == CountForks(brs, k, cap)
    decreases brs, 0
  {
    if brs != [] {
      GrownForksAreCount(brs[..|brs| - 1], k, cap);
      GrownIsCount(brs[|brs| - 1].nodes, k, cap);
    }
  }

  /** With large enough collections k is called more often than the limit. */
  ghost predicate Exceeds(ns: seq<Node>, k: Callee, cap: nat, limit: nat) {
    exists items: nat :: GrownAll(ns, k, cap, items) > limit
  }

  /** A callee is reported as depending on data exactly when longer collections alone let its
      calls pass every limit; otherwise the size of collections makes no difference. */
  lemma DataBoundIffGrows(ns: seq<Node>, k: Callee, cap: nat)
    requires cap > 0
    ensures DataBoundAll(ns, k, false) <==> forall limit: nat :: Exceeds(ns, k, cap, limit)
    ensures !DataBoundAll(ns, k, false) ==>
              forall items :: items > 0 ==> GrownAll(ns, k, cap, items) == CountAll(ns, k, cap)
  {
    hide DataBoundAll, GrownAll;
    GrownIsCount(ns, k, cap);
    forall items: nat | items > 0
      ensures Growth(DataBoundAll(ns, k, true), DataBoundAll(ns, k, false), items, GrownAll(ns, k, cap, items),
                  GrownAll(ns, k, cap, 1))
    {
      AllGrowth(ns, k, cap, items);
    }
    if DataBoundAll(ns, k, false) {
      forall limit: nat ensures Exceeds(ns, k, cap, limit) {
        var items: nat := limit + 1;
        assert Growth(DataBoundAll(ns, k, true), true, items, GrownAll(ns, k, cap, items), GrownAll(ns, k, cap, 1));
      }
    } else {
      var limit := GrownAll(ns, k, cap, 1) + GrownAll(ns, k, cap, 0);
      assert forall items: nat :: GrownAll(ns, k, cap, items) <= limit;
      assert !Exceeds(ns, k, cap, limit);
    }
  }
}
