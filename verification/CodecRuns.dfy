/** A decoded program runs as the one that was encoded: decoding turns absent values into null
    literals (`Codec.ProgramRoundTrip`), and no run can tell them apart. */
module CodecRuns {
  import opened Values
  import opened ExecIR
  import opened Eval
  import opened GraphOrder
  import opened Interp
  import opened Codec
  import JsonNum

  /** The invoker does not tell an absent argument value from a null literal: it is given the
      evaluated arguments. */
  ghost predicate Blind(w: World) {
    forall c: Call, a, x :: w.oracle(NormCall(c), a, x) == w.oracle(c, a, x)
  }

  /** The same operation, the leaf being the decoded one. */
  function NormAct(x: Act): Act {
    if x.Called? then x.(call := NormCall(x.call)) else x
  }

  function NormTrace(tr: seq<Act>): (r: seq<Act>)
    ensures |r| == |tr|
  {
    seq(|tr|, i requires 0 <= i < |tr| => NormAct(tr[i]))
  }

  function NormEff(e: Eff): Eff {
    e.(tr := NormTrace(e.tr))
  }

  lemma NormConcat(a: seq<Act>, b: seq<Act>)
    ensures NormTrace(a + b) == NormTrace(a) + NormTrace(b)
  {
    hide NormAct;
  }

  lemma NormPrefix(a: seq<Act>, e: Eff)
    ensures NormEff(Prefix(a, e)) == Prefix(NormTrace(a), NormEff(e))
  {
    hide NormTrace;
    NormConcat(a, e.tr);
  }

  lemma NormDecisions(tr: seq<Act>)
    requires forall x | x in tr :: x.Ctl?
    ensures NormTrace(tr) == tr
  {
    forall i | 0 <= i < |tr| ensures NormTrace(tr)[i] == tr[i] { assert tr[i] in tr; }
  }

  lemma {:induction false} NormShuffle(x: seq<Act>, y: seq<Act>, bits: seq<bool>)
    ensures Shuffle(NormTrace(x), NormTrace(y), bits) == NormTrace(Shuffle(x, y, bits))
    decreases |x| + |y|
  {
    if x != [] && y != [] {
      if bits != [] && !bits[0] {
        NormShuffle(x, y[1..], bits[1..]);
        assert NormTrace(y)[1..] == NormTrace(y[1..]);
        NormConcat([y[0]], Shuffle(x, y[1..], bits[1..]));
        assert NormTrace([y[0]]) == [NormTrace(y)[0]];
      } else {
        var rest := if bits == [] then [] else bits[1..];
        NormShuffle(x[1..], y, rest);
        assert NormTrace(x)[1..] == NormTrace(x[1..]);
        NormConcat([x[0]], Shuffle(x[1..], y, rest));
        assert NormTrace([x[0]]) == [NormTrace(x)[0]];
      }
    }
  }

  // ----- leaves and decisions

  lemma NormSnoc(tr: seq<Act>, x: Act)
    ensures NormTrace(tr + [x]) == NormTrace(tr) + [NormAct(x)]
  {
    hide NormAct;
    NormConcat(tr, [x]);
    assert NormTrace([x]) == [NormAct(x)];
  }

  lemma PublishNorm(c: Call, s: Scope, v: Val, tr: seq<Act>)
    ensures Publish(NormCall(c), s, v, NormTrace(tr)) == NormEff(Publish(c, s, v, tr))
  {
    hide NormArgs, NormTrace;
  }

  lemma CallNorm(w: World, c: Call, a: Addr, s: Scope)
    requires Blind(w)
    ensures ExecCall(w, NormCall(c), a, s) == NormEff(ExecCall(w, c, a, s))
  {
    NormArgsEvaluate(w.render, s, c.args);
    NormCallIs(c);
    assert forall x :: w.oracle(NormCall(c), a, x) == w.oracle(c, a, x);
    hide EvalArgs, NormArgs, NormTrace, NormCall, Publish, Blind, NormAct;
    var site := Site(c.bind, a);
    NormOne(site, c);
    if site in w.memo {
      PublishNorm(c, s, w.memo[site], [Get(site, Some(w.memo[site]))]);
    } else {
      var args := EvalArgs(w.render, s, c.args);
      if args.Some? {
        var called := [Get(site, None)] + [Called(site, c, args.value)];
        NormSnoc([Get(site, None)], Called(site, c, args.value));
        NormSnoc(called, Gate(site));
        match w.oracle(c, a, args.value)
        case Ok(raw) =>
          var v := JsonNum.Canonical(raw);
          if v.Some? {
            NormSnoc(called, Put(site, v.value));
            PublishNorm(c, s, v.value, called + [Put(site, v.value)]);
          }
        case _ =>
      }
    }
  }

  lemma NormCallIs(c: Call)
    ensures NormCall(c).bind == c.bind && NormCall(c).args == NormArgs(c.args)
  {
  }

  lemma NormOne(site: Site, c: Call)
    ensures forall hit :: NormTrace([Get(site, hit)]) == [Get(site, hit)]
    ensures forall args :: NormAct(Called(site, c, args)) == Called(site, NormCall(c), args)
    ensures NormAct(Gate(site)) == Gate(site) && forall v :: NormAct(Put(site, v)) == Put(site, v)
  {
    hide NormCall;
    forall hit ensures NormTrace([Get(site, hit)]) == [Get(site, hit)] {
      assert NormTrace([Get(site, hit)])[0] == Get(site, hit);
    }
  }

  lemma DecideNorm(w: World, tag: Tag, cond: Expr, a: Addr, s: Scope)
    ensures Decide(w, tag, NormExpr(cond), a, s) == Decide(w, tag, cond, a, s)
    ensures NormTrace(Decide(w, tag, cond, a, s).tr) == Decide(w, tag, cond, a, s).tr
  {
    hide EvalExpr;
    NormExprEvaluates(w.render, s, cond);
    NormDecisions(Decide(w, tag, cond, a, s).tr);
  }

  // ----- nodes

  lemma {:induction false} NormNodesAt(ns: seq<Node>, i: nat)
    requires i < |ns|
    ensures |NormNodes(ns)| == |ns| && NormNodes(ns)[i] == NormNode(ns[i])
    decreases |ns|
  {
    hide NormNode;
    if i > 0 { NormNodesAt(ns[1..], i - 1); } else { NormNodesSize(ns); }
  }

  lemma {:induction false} NormNodesSize(ns: seq<Node>)
    ensures |NormNodes(ns)| == |ns|
    decreases |ns|
  {
    if ns != [] { NormNodesSize(ns[1..]); }
  }

  lemma {:induction false} NormBranchesAt(bs: seq<ForkBranch>, i: nat)
    requires i < |bs|
    ensures |NormBranches(bs)| == |bs| && NormBranches(bs)[i] == ForkBranch(bs[i].bind, NormNodes(bs[i].nodes))
    decreases |bs|
  {
    hide NormNodes;
    if i > 0 { NormBranchesAt(bs[1..], i - 1); } else { NormBranchesSize(bs); }
  }

  lemma {:induction false} NormBranchesSize(bs: seq<ForkBranch>)
    ensures |NormBranches(bs)| == |bs|
    decreases |bs|
  {
    if bs != [] { NormBranchesSize(bs[1..]); }
  }

  /** A decoded node runs as the one encoded. */
  lemma {:induction false} ExecNorm(w: World, n: Node, p: seq<nat>, l: seq<nat>, s: Scope)
    requires Blind(w)
    ensures Exec(w, NormNode(n), p, l, s) == NormEff(Exec(w, n, p, l, s))
    decreases n, 2, 0
  {
    hide Blind, ExecCall, ExecFrom, Iterate, Threads, ExecGraph, Decide, NormTrace, NormVal, NormExpr, NormCall,
        NormNodes, NormBranches, NormSteps, EvalValue, Join, Sorted;
    NormDecisions([]);
    match n
    case Invoke(c) => CallNorm(w, c, Addr(p, l), s);
    case Let(_, v) => NormValEvaluates(w.render, s, v);
    case Return(v) => NormValEvaluates(w.render, s, v);
    case Branch(cond, thn, els) =>
      var c := Decide(w, Br, cond, Addr(p, l), s);
      DecideNorm(w, Br, cond, Addr(p, l), s);
      FromNorm(w, thn, 0, p + [0], l, s);
      FromNorm(w, els, 0, p + [1], l, s);
      NormPrefix(c.tr, ExecFrom(w, thn, 0, p + [0], l, s));
      NormPrefix(c.tr, ExecFrom(w, els, 0, p + [1], l, s));
    case Fork(_) =>
      ThreadsNorm(w, n, [], 0, p, l, s);
      JoinNorm(w, Addr(p, l), s, Threads(w, n, [], 0, p, l, s));
    case Loop(_, _, _, _) => LoopNorm(w, n, p, l, s);
    case While(_, limit, _) => IterateNorm(w, n, [], w.Bound(limit), 0, p, l, s);
    case Retry(_, limit, _) => IterateNorm(w, n, [], w.Bound(limit), 0, p, l, s);
    case Graph(nodes) => GraphNorm(w, nodes, p, l, s);
  }

  lemma {:induction false} LoopNorm(w: World, n: Node, p: seq<nat>, l: seq<nat>, s: Scope)
    requires Blind(w) && n.Loop?
    ensures Exec(w, NormNode(n), p, l, s) == NormEff(Exec(w, n, p, l, s))
    decreases n, 1, w.Cap() + 1
  {
    hide Blind, Iterate, Threads, NormTrace, NormVal, NormNodes, EvalValue, Join;
    NormDecisions([]);
    NormValEvaluates(w.render, s, n.coll);
    var got := EvalCollection(w.render, s, n.coll);
    if got.Some? && |got.value| <= w.Cap() {
      var items, c := got.value, Record(w, CtlKey(Lp, Addr(p, l)), |got.value|);
      NormDecisions(c.tr);
      if n.par {
        var t := Threads(w, n, items, 0, p, l, s);
        ThreadsNorm(w, n, items, 0, p, l, s);
        JoinNorm(w, Addr(p, l), s, t);
        NormPrefix(c.tr, Join(w, Addr(p, l), s, t));
      } else {
        IterateNorm(w, n, items, |items|, 0, p, l, s);
        NormPrefix(c.tr, Iterate(w, n, items, |items|, 0, p, l, s));
      }
    }
  }

  lemma {:induction false} FromNorm(w: World, ns: seq<Node>, i: nat, p: seq<nat>, l: seq<nat>, s: Scope)
    requires Blind(w) && i <= |ns|
    ensures i <= |NormNodes(ns)| && ExecFrom(w, NormNodes(ns), i, p, l, s) == NormEff(ExecFrom(w, ns, i, p, l, s))
    decreases ns, 0, |ns| - i
  {
    hide Blind, Exec, NormTrace, NormNode, NormNodes;
    NormNodesSize(ns);
    if i < |ns| {
      NormNodesAt(ns, i);
      ExecNorm(w, ns[i], p + [i], l, s);
      var e := Exec(w, ns[i], p + [i], l, s);
      if e.st.Running? {
        FromNorm(w, ns, i + 1, p, l, e.scope);
        NormPrefix(e.tr, ExecFrom(w, ns, i + 1, p, l, e.scope));
      }
    } else {
      NormDecisions([]);
    }
  }

  lemma AroundNorm(w: World, n: Node, i: nat, p: seq<nat>, l: seq<nat>, s: Scope)
    requires IsLoop(n)
    ensures IsLoop(NormNode(n))
    ensures Before(w, NormNode(n), i, p, l, s) == Before(w, n, i, p, l, s)
            && NormTrace(Before(w, n, i, p, l, s).tr) == Before(w, n, i, p, l, s).tr
    ensures Interp.After(w, NormNode(n), i, p, l, s) == Interp.After(w, n, i, p, l, s)
    ensures NormTrace(Interp.After(w, n, i, p, l, s).tr) == Interp.After(w, n, i, p, l, s).tr
  {
    hide Decide, NormTrace, NormVal, NormExpr, NormNodes;
    NormDecisions([]);
    if n.While? { DecideNorm(w, Wh, n.cond, Addr(p, l + [i]), s); }
    if n.Retry? { DecideNorm(w, Rt, n.cond, Addr(p, l + [i]), s); }
  }

  lemma {:induction false} IterateNorm(w: World, n: Node, items: seq<Val>, max: nat, i: nat, p: seq<nat>, l: seq<nat>,
      s: Scope)
    requires Blind(w) && IsLoop(n) && i <= max && (n.Loop? ==> max == |items|)
    ensures IsLoop(NormNode(n)) && Iterate(w, NormNode(n), items, max, i, p, l, s) ==
        NormEff(Iterate(w, n, items, max, i, p, l, s))
    decreases n, 1, max - i
  {
    hide Blind, ExecFrom, Before, Interp.After, NormTrace, NormVal, NormExpr, NormNodes;
    NormDecisions([]);
    AroundNorm(w, n, i, p, l, s);
    if i < max {
      var b, m := Before(w, n, i, p, l, s), NormNode(n);
      if b.verdict.Yes? {
        var at := IterScope(n, items, i, s);
        var f := ExecFrom(w, n.body, 0, p, l + [i], at);
        FromNorm(w, n.body, 0, p, l + [i], at);
        NormPrefix(b.tr, f);
        if f.st.Running? {
          var c := Interp.After(w, n, i, p, l, f.scope);
          AroundNorm(w, n, i, p, l, f.scope);
          NormConcat(b.tr + f.tr, c.tr);
          if c.verdict.No? {
            IterateNorm(w, n, items, max, i + 1, p, l, f.scope);
            NormPrefix(b.tr + f.tr + c.tr, Iterate(w, n, items, max, i + 1, p, l, f.scope));
          }
        }
      }
    }
  }

  function NormPar(t: Par): Par {
    t.(tr := NormTrace(t.tr))
  }

  lemma JoinNorm(w: World, a: Addr, s: Scope, t: Par)
    ensures Join(w, a, s, NormPar(t)) == NormEff(Join(w, a, s, t))
  {
    hide NormTrace;
  }

  lemma ThreadNorm(n: Node, i: nat, p: seq<nat>, l: seq<nat>)
    requires IsParallel(n) && (n.Fork? ==> i < |n.branches|)
    ensures IsParallel(NormNode(n))
    ensures n.Fork? ==> NormNode(n).Fork? && |NormNode(n).branches| == |n.branches|
    ensures n.Fork? ==> NormNode(n).branches[i].bind == n.branches[i].bind
    ensures ThreadNodes(NormNode(n), i) == NormNodes(ThreadNodes(n, i))
            && ThreadAddr(NormNode(n), i, p, l) == ThreadAddr(n, i, p, l)
    ensures !n.Fork? ==> NormNode(n).Loop? && NormNode(n).vr == n.vr
  {
    hide NormNodes, NormBranches, NormVal;
    if n.Fork? { NormBranchesAt(n.branches, i); }
  }

  lemma {:induction false} ThreadsNorm(w: World, n: Node, items: seq<Val>, i: nat, p: seq<nat>, l: seq<nat>, s: Scope)
    requires Blind(w) && IsParallel(n) && i <= Width(n, items)
    ensures IsParallel(NormNode(n)) && i <= Width(NormNode(n), items)
    ensures Threads(w, NormNode(n), items, i, p, l, s) == NormPar(Threads(w, n, items, i, p, l, s))
    decreases n, 1, Width(n, items) - i
  {
    hide Blind, ExecFrom, NormTrace, NormNodes, NormBranches, NormVal;
    if n.Fork? { NormBranchesSize(n.branches); }
    if i < Width(n, items) {
      var a := ThreadAddr(n, i, p, l);
      var at := ThreadScope(n, items, i, s);
      ThreadNorm(n, i, p, l);
      FromNorm(w, ThreadNodes(n, i), 0, a.path, a.loop, at);
      ThreadsNorm(w, n, items, i + 1, p, l, s);
      hide NormNode;
      NormShuffle(ExecFrom(w, ThreadNodes(n, i), 0, a.path, a.loop, at).tr, Threads(w, n, items, i + 1, p, l, s).tr,
          w.merge(a));
    } else {
      NormDecisions([]);
    }
  }

  // ----- graphs

  lemma {:induction false} NormStepsAt(gs: seq<GraphNode>, i: nat)
    requires i < |gs|
    ensures |NormSteps(gs)| == |gs| && NormSteps(gs)[i] == gs[i].(run := NormCall(gs[i].run))
    decreases |gs|
  {
    hide NormCall;
    if i > 0 { NormStepsAt(gs[1..], i - 1); } else { NormStepsSize(gs); }
  }

  lemma {:induction false} NormStepsSize(gs: seq<GraphNode>)
    ensures |NormSteps(gs)| == |gs|
    decreases |gs|
  {
    if gs != [] { NormStepsSize(gs[1..]); }
  }

  lemma {:induction false} InsertNorm(g: GraphNode, gs: seq<GraphNode>)
    ensures Insert(g.(run := NormCall(g.run)), NormSteps(gs)) == NormSteps(Insert(g, gs))
    decreases |gs|
  {
    hide NormCall;
    if gs != [] && StrLess(gs[0].id, g.id) {
      InsertNorm(g, gs[1..]);
      assert NormSteps(gs)[1..] == NormSteps(gs[1..]);
    }
  }

  lemma {:induction false} SortedNorm(gs: seq<GraphNode>)
    ensures Sorted(NormSteps(gs)) == NormSteps(Sorted(gs))
    decreases |gs|
  {
    hide NormCall;
    if gs != [] {
      SortedNorm(gs[1..]);
      assert NormSteps(gs)[1..] == NormSteps(gs[1..]);
      InsertNorm(gs[0], Sorted(gs[1..]));
    }
  }

  lemma {:induction false} FirstReadyNorm(gs: seq<GraphNode>, done: set<string>, i: nat)
    requires i <= |gs|
    ensures i <= |NormSteps(gs)| && FirstReady(NormSteps(gs), done, i) == FirstReady(gs, done, i)
    decreases |gs| - i
  {
    hide NormCall, NormSteps;
    NormStepsSize(gs);
    if i < |gs| {
      NormStepsAt(gs, i);
      FirstReadyNorm(gs, done, i + 1);
    }
  }

  lemma {:induction false} TopoNorm(gs: seq<GraphNode>, done: set<string>)
    ensures Topo(NormSteps(gs), done) == Topo(gs, done)
    decreases IdsOf(gs) - done
  {
    hide NormCall, NormSteps;
    FirstReadyNorm(gs, done, 0);
    var f := FirstReady(gs, done, 0);
    if f.Some? {
      assert gs[f.value].id in IdsOf(gs) - done;
      NormStepsAt(gs, f.value);
      TopoNorm(gs, done + {gs[f.value].id});
    }
  }

  function NormRun(r: GraphRun): GraphRun {
    r.(tr := NormTrace(r.tr))
  }

  lemma AddStepNorm(e: Eff, r: GraphRun, bits: seq<bool>)
    ensures AddStep(NormEff(e), NormRun(r), bits) == NormRun(AddStep(e, r, bits))
  {
    hide NormTrace, Shuffle;
    NormShuffle(e.tr, r.tr, bits);
  }

  lemma {:induction false} StepsNorm(w: World, gs: seq<GraphNode>, order: seq<nat>, p: seq<nat>, l: seq<nat>, s: Scope,
      done: set<string>)
    requires Blind(w) && (forall k | 0 <= k < |order| :: order[k] < |gs|)
    ensures |NormSteps(gs)| == |gs| && Steps(w, NormSteps(gs), order, p, l, s, done) ==
        NormRun(Steps(w, gs, order, p, l, s, done))
    decreases |order|
  {
    hide Blind, ExecCall, NormTrace, NormCall, NormSteps, AddStep, StepScope, StepDone;
    NormStepsSize(gs);
    if order == [] {
      NormDecisions([]);
    } else {
      var i := order[0];
      var a := Addr(p + [i], l);
      NormStepsAt(gs, i);
      var g, h := gs[i], NormSteps(gs)[i];
      assert h.needs == g.needs && h.id == g.id && h.run == NormCall(g.run);
      var e := ExecCall(w, g.run, a, s);
      CallNorm(w, g.run, a, s);
      StepsNorm(w, gs, order[1..], p, l, s, done);
      StepsAlike(g.id, s, done, e);
      StepsNorm(w, gs, order[1..], p, l, StepScope(g.id, s, e), StepDone(g.id, done, e));
      AddStepNorm(e, Steps(w, gs, order[1..], p, l, StepScope(g.id, s, e), StepDone(g.id, done, e)), w.merge(a));
    }
  }

  lemma StepsAlike(id: string, s: Scope, done: set<string>, e: Eff)
    ensures StepScope(id, s, NormEff(e)) == StepScope(id, s, e)
            && StepDone(id, done, NormEff(e)) == StepDone(id, done, e)
  {
    hide NormTrace;
  }

  lemma GraphNorm(w: World, nodes: seq<GraphNode>, p: seq<nat>, l: seq<nat>, s: Scope)
    requires Blind(w)
    ensures ExecGraph(w, Sorted(NormSteps(nodes)), p, l, s) == NormEff(ExecGraph(w, Sorted(nodes), p, l, s))
  {
    hide Blind, Steps, NormTrace, NormSteps, Sorted;
    var gs := Sorted(nodes);
    SortedNorm(nodes);
    TopoNorm(gs, {});
    StepsNorm(w, gs, Topo(gs, {}), p, l, s, {});
  }

  // ----- whole runs

  /** The program that comes back from its encoding runs as the one that went in, under every
      seed, invoker, pause and interleaving: same result, same bindings, and the same session
      operations in the same order, the leaves in them being the decoded ones. */
  lemma DecodedProgramRunsAlike(w: World, p: Program, input: Val)
    requires Blind(w)
    ensures Run(w, NormProgram(p), input) == NormEff(Run(w, p, input))
  {
    FromNorm(w, p.body, 0, [], [], ParamScope(p.params, input));
  }
}
