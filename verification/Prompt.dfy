/** Which programs reach their subworkflows again in every resume. Two things can keep a resumed
    run from a leaf it reached before: a graph holds back a step whose siblings paused, and a
    join inside a concurrent thread reports the pause of another thread. */
module Prompt {
  import opened Values
  import opened ExecIR
  import opened Eval
  import opened GraphOrder
  import opened Interp
  import opened Addressing
  import opened Scoping
  import opened Accounting
  import opened Progress
  import GraphScheduler
  import JsonNum

  // ----- what the code can hold back

  /** Where the run may find itself held back at address a, in a node at path p. Outside
      threads a join is never held; a graph step is held only if it has needs and a step of its
      graph is among the gates of the run. */
  ghost predicate Holds(gates: set<Site>, n: Node, top: bool, p: seq<nat>, a: Addr)
    decreases n, 0
  {
    match n
    case Branch(_, thn, els) =>
      |a.path| > |p| ==> HoldsAmong(gates, if a.path[|p|] == 0 then thn else els, top, p + [a.path[|p|]], a)
    case Fork(bs) =>
      if a.path == p then !top
      else
        |a.path| > |p| && a.path[|p|] < |bs| ==>
          HoldsAmong(gates, bs[a.path[|p|]].nodes, false, p + [a.path[|p|]], a)
    case Loop(_, _, body, par) =>
      if a.path == p then par ==> !top else HoldsAmong(gates, body, top && !par, p, a)
    case While(_, _, body) => HoldsAmong(gates, body, top, p, a)
    case Retry(_, _, body) => HoldsAmong(gates, body, top, p, a)
    case Graph(nodes) =>
      |a.path| == |p| + 1 && a.path[|p|] < |nodes| ==>
        Sorted(nodes)[a.path[|p|]].needs != [] && SiblingPaused(gates, Sorted(nodes), p, a.loop)
    case _ => true
  }

  ghost predicate HoldsAmong(gates: set<Site>, ns: seq<Node>, top: bool, p: seq<nat>, a: Addr)
    decreases ns, 1
  {
    |a.path| > |p| && a.path[|p|] < |ns| ==> Holds(gates, ns[a.path[|p|]], top, p + [a.path[|p|]], a)
  }

  ghost predicate SiblingPaused(gates: set<Site>, gs: seq<GraphNode>, p: seq<nat>, l: seq<nat>) {
    exists j: nat :: j < |gs| && Site(gs[j].run.bind, Addr(p + [j], l)) in gates
  }

  ghost predicate HoldsIn(gates: set<Site>, c: Code, top: bool, p: seq<nat>, a: Addr) {
    match c case One(n) => Holds(gates, n, top, p, a) case Many(ns) => HoldsAmong(gates, ns, top, p, a)
  }

  /** v holds back only what the code can, and its gates have no result. */
  ghost predicate Lawful(v: World, gates: set<Site>, c: Code, top: bool, p: seq<nat>) {
    && (forall a: Addr | p <= a.path && v.halt(a) :: HoldsIn(gates, c, top, p, a))
    && (forall site | site in gates :: site !in v.memo)
  }

  lemma LawfulChild(v: World, gates: set<Site>, ns: seq<Node>, top: bool, p: seq<nat>, i: nat)
    requires Lawful(v, gates, Many(ns), top, p) && i < |ns|
    ensures Lawful(v, gates, One(ns[i]), top, p + [i])
  {
    hide Holds;
    forall a: Addr | p + [i] <= a.path && v.halt(a) ensures Holds(gates, ns[i], top, p + [i], a) {
      assert a.path[|p|] == i && p <= a.path;
      assert HoldsIn(gates, Many(ns), top, p, a);
    }
  }

  lemma LawfulArm(v: World, gates: set<Site>, n: Node, top: bool, p: seq<nat>, b: nat)
    requires n.Branch? && b < 2 && Lawful(v, gates, One(n), top, p)
    ensures Lawful(v, gates, Many(if b == 0 then n.thn else n.els), top, p + [b])
  {
    hide HoldsAmong;
    var arm := if b == 0 then n.thn else n.els;
    forall a: Addr | p + [b] <= a.path && v.halt(a) ensures HoldsAmong(gates, arm, top, p + [b], a) {
      assert a.path[|p|] == b && p <= a.path;
      assert HoldsIn(gates, One(n), top, p, a);
    }
  }

  /** Inside a thread every join may be held. */
  lemma LawfulThread(v: World, gates: set<Site>, n: Node, top: bool, p: seq<nat>, i: nat)
    requires IsParallel(n) && (n.Fork? ==> i < |n.branches|) && Lawful(v, gates, One(n), top, p)
    ensures Lawful(v, gates, Many(ThreadNodes(n, i)), false, ThreadAddr(n, i, p, []).path)
  {
    hide HoldsAmong;
    var q := ThreadAddr(n, i, p, []).path;
    forall a: Addr | q <= a.path && v.halt(a) ensures HoldsAmong(gates, ThreadNodes(n, i), false, q, a) {
      assert p <= a.path;
      assert HoldsIn(gates, One(n), top, p, a);
      if n.Fork? {
        assert a.path[|p|] == i;
      } else if a.path == p {
        NothingAt(gates, n.body, false, p, a);
      }
    }
  }

  lemma NothingAt(gates: set<Site>, ns: seq<Node>, top: bool, p: seq<nat>, a: Addr)
    requires a.path == p
    ensures HoldsAmong(gates, ns, top, p, a)
  {
  }

  lemma LawfulBody(v: World, gates: set<Site>, n: Node, top: bool, p: seq<nat>)
    requires IsLoop(n) && Lawful(v, gates, One(n), top, p)
    ensures Lawful(v, gates, Many(n.body), top, p)
  {
    hide HoldsAmong;
    forall a: Addr | p <= a.path && v.halt(a) ensures HoldsAmong(gates, n.body, top, p, a) {
      assert HoldsIn(gates, One(n), top, p, a);
      if a.path == p { NothingAt(gates, n.body, top, p, a); }
    }
  }

  // ----- code that completes again

  /** No join inside a thread; graphs with one step per id. */
  ghost predicate Steady(top: bool, n: Node)
    decreases n, 0
  {
    match n
    case Branch(_, thn, els) => SteadyAll(top, thn) && SteadyAll(top, els)
    case Fork(bs) => top && forall i :: 0 <= i < |bs| ==> SteadyAll(false, bs[i].nodes)
    case Loop(_, _, body, par) => (par ==> top) && SteadyAll(top && !par, body)
    case While(_, _, body) => SteadyAll(top, body)
    case Retry(_, _, body) => SteadyAll(top, body)
    case Graph(nodes) => OneStepPerId(Sorted(nodes))
    case _ => true
  }

  ghost predicate SteadyAll(top: bool, ns: seq<Node>)
    decreases ns, 1
  {
    forall i :: 0 <= i < |ns| ==> Steady(top, ns[i])
  }

  ghost predicate OneStepPerId(gs: seq<GraphNode>) {
    forall i, j :: 0 <= i < j < |gs| ==> gs[i].id != gs[j].id
  }

  predicate Done(st: Status) {
    st.Running? || st.Returned?
  }

  /** What completed before completes again, the same way. */
  ghost predicate Repeats(e1: Eff, e2: Eff) {
    Done(e1.st) ==> e2.st == e1.st && e2.scope == e1.scope
  }

  /** v goes on from w's trace, in which nothing was cancelled. */
  ghost predicate Onwards(v: World, w: World, tr: seq<Act>) {
    Continues(v, w, tr) && !Cut(w, tr)
  }

  lemma OnwardsPart(v: World, w: World, whole: seq<Act>, part: seq<Act>)
    requires Onwards(v, w, whole) && forall x | x in part :: x in whole
    ensures Onwards(v, w, part)
  {
    hide Continues, Cut;
    ContinuesPart(v, w, whole, part);
    if Cut(w, part) { CutWider(w, part, whole); }
  }

  lemma OnwardsSame(v: World, w: World, tr: seq<Act>)
    requires Onwards(v, w, tr)
    ensures v.maxLoop == w.maxLoop && v.render == w.render
    ensures forall k, val :: Ctl(k, val, true) in tr && k in v.ctl ==> v.ctl[k] == val
  {
  }

  lemma CallRepeats(v: World, w: World, call: Call, a: Addr, s: Scope)
    requires Onwards(v, w, ExecCall(w, call, a, s).tr)
    ensures Repeats(ExecCall(w, call, a, s), ExecCall(v, call, a, s))
  {
    hide ExecCall, Continues;
    PassCall(v, w, call, a, s);
  }

  lemma DecideRepeats(v: World, w: World, tag: Tag, cond: Expr, a: Addr, s: Scope)
    requires Onwards(v, w, Decide(w, tag, cond, a, s).tr) && !Decide(w, tag, cond, a, s).verdict.Err?
    ensures Decide(v, tag, cond, a, s) == Decide(w, tag, cond, a, s)
  {
    hide Decide, Continues;
    PassDecide(v, w, tag, cond, a, s);
  }

  lemma {:induction false} NodeRepeats(v: World, w: World, gates: set<Site>, top: bool, n: Node, p: seq<nat>,
      l: seq<nat>, s: Scope)
    requires Steady(top, n) && Lawful(v, gates, One(n), top, p) && Onwards(v, w, Exec(w, n, p, l, s).tr)
    ensures Repeats(Exec(w, n, p, l, s), Exec(v, n, p, l, s))
    decreases n, 2, 0
  {
    hide Lawful, Onwards, ExecCall, ExecFrom, Iterate, Threads, ExecGraph, Decide, EvalCollection, EvalValue,
        SteadyAll, Sorted, Join;
    var e := Exec(w, n, p, l, s);
    OnwardsSame(v, w, e.tr);
    match n
    case Invoke(call) => CallRepeats(v, w, call, Addr(p, l), s);
    case Let(_, _) =>
    case Return(_) =>
    case Branch(cond, thn, els) =>
      var c := Decide(w, Br, cond, Addr(p, l), s);
      if !c.verdict.Err? {
        var b: nat := if c.verdict.Yes? then 0 else 1;
        var arm := if b == 0 then thn else els;
        OnwardsPart(v, w, e.tr, c.tr);
        OnwardsPart(v, w, e.tr, ExecFrom(w, arm, 0, p + [b], l, s).tr);
        DecideRepeats(v, w, Br, cond, Addr(p, l), s);
        LawfulArm(v, gates, n, top, p, b);
        FromRepeats(v, w, gates, top, arm, 0, p + [b], l, s);
      }
    case Fork(_) =>
      ForkTrace(w, n, p, l, s);
      ThreadsRepeat(v, w, gates, n, [], 0, p, l, s);
      TopJoin(v, gates, n, p, l);
      JoinRepeats(v, w, Addr(p, l), s, Threads(w, n, [], 0, p, l, s), Threads(v, n, [], 0, p, l, s));
    case Loop(_, _, _, _) => LoopRepeats(v, w, gates, top, n, p, l, s);
    case While(_, limit, _) => IterateRepeats(v, w, gates, top, n, [], w.Bound(limit), 0, p, l, s);
    case Retry(_, limit, _) => IterateRepeats(v, w, gates, top, n, [], w.Bound(limit), 0, p, l, s);
    case Graph(nodes) => GraphRepeats(v, w, gates, top, nodes, p, l, s);
  }

  lemma ForkTrace(w: World, n: Node, p: seq<nat>, l: seq<nat>, s: Scope)
    requires n.Fork?
    ensures Exec(w, n, p, l, s) == Join(w, Addr(p, l), s, Threads(w, n, [], 0, p, l, s))
    ensures Exec(w, n, p, l, s).tr == Threads(w, n, [], 0, p, l, s).tr
  {
  }

  /** Outside threads no join is held. */
  lemma TopJoin(v: World, gates: set<Site>, n: Node, p: seq<nat>, l: seq<nat>)
    requires IsParallel(n) && Lawful(v, gates, One(n), true, p)
    ensures !v.halt(Addr(p, l))
  {
    hide HoldsAmong;
    assert !HoldsIn(gates, One(n), true, p, Addr(p, l));
  }

  ghost predicate ParRepeats(t1: Par, t2: Par) {
    t1.err.None? && !t1.susp ==> t2.err.None? && !t2.susp && t2.pub == t1.pub
  }

  lemma JoinRepeats(v: World, w: World, a: Addr, s: Scope, t1: Par, t2: Par)
    requires ParRepeats(t1, t2) && !v.halt(a)
    ensures Repeats(Join(w, a, s, t1), Join(v, a, s, t2))
  {
  }

  lemma {:induction false} LoopRepeats(v: World, w: World, gates: set<Site>, top: bool, n: Node, p: seq<nat>,
      l: seq<nat>, s: Scope)
    requires n.Loop? && Steady(top, n) && Lawful(v, gates, One(n), top, p) && Onwards(v, w, Exec(w, n, p, l, s).tr)
    ensures Repeats(Exec(w, n, p, l, s), Exec(v, n, p, l, s))
    decreases n, 1, w.Cap() + 1
  {
    hide Lawful, Onwards, Iterate, Threads, EvalCollection, SteadyAll, Join;
    var e := Exec(w, n, p, l, s);
    OnwardsSame(v, w, e.tr);
    var got := EvalCollection(w.render, s, n.coll);
    if got.Some? && |got.value| <= w.Cap() {
      var items, c := got.value, Record(w, CtlKey(Lp, Addr(p, l)), |got.value|);
      if c.verdict.Yes? {
        assert Ctl(CtlKey(Lp, Addr(p, l)), |items|, true) in e.tr;
        if n.par {
          var t := Threads(w, n, items, 0, p, l, s);
          JoinTrace(w, Addr(p, l), s, t);
          OnwardsPart(v, w, e.tr, t.tr);
          ThreadsRepeat(v, w, gates, n, items, 0, p, l, s);
          TopJoin(v, gates, n, p, l);
          JoinRepeats(v, w, Addr(p, l), s, t, Threads(v, n, items, 0, p, l, s));
        } else {
          OnwardsPart(v, w, e.tr, Iterate(w, n, items, |items|, 0, p, l, s).tr);
          IterateRepeats(v, w, gates, top, n, items, |items|, 0, p, l, s);
        }
      }
    }
  }

  lemma JoinTrace(w: World, a: Addr, s: Scope, t: Par)
    ensures Join(w, a, s, t).tr == t.tr
  {
  }

  lemma {:induction false} FromRepeats(v: World, w: World, gates: set<Site>, top: bool, ns: seq<Node>, i: nat,
      p: seq<nat>, l: seq<nat>, s: Scope)
    requires i <= |ns| && SteadyAll(top, ns) && Lawful(v, gates, Many(ns), top, p)
             && Onwards(v, w, ExecFrom(w, ns, i, p, l, s).tr)
    ensures Repeats(ExecFrom(w, ns, i, p, l, s), ExecFrom(v, ns, i, p, l, s))
    decreases ns, 0, |ns| - i
  {
    hide Lawful, Onwards, Exec, Steady;
    if i < |ns| {
      var e := Exec(w, ns[i], p + [i], l, s);
      OnwardsPart(v, w, ExecFrom(w, ns, i, p, l, s).tr, e.tr);
      LawfulChild(v, gates, ns, top, p, i);
      NodeRepeats(v, w, gates, top, ns[i], p + [i], l, s);
      if e.st.Running? {
        OnwardsPart(v, w, ExecFrom(w, ns, i, p, l, s).tr, ExecFrom(w, ns, i + 1, p, l, e.scope).tr);
        FromRepeats(v, w, gates, top, ns, i + 1, p, l, e.scope);
      }
    }
  }

  lemma {:induction false} IterateRepeats(v: World, w: World, gates: set<Site>, top: bool, n: Node, items: seq<Val>,
      max: nat, i: nat,
                                          p: seq<nat>, l: seq<nat>, s: Scope)
    requires IsLoop(n) && i <= max && (n.Loop? ==> max == |items|) && SteadyAll(top, n.body)
             && Lawful(v, gates, One(n), top, p)
    requires Onwards(v, w, Iterate(w, n, items, max, i, p, l, s).tr)
    ensures Repeats(Iterate(w, n, items, max, i, p, l, s), Iterate(v, n, items, max, i, p, l, s))
    decreases n, 1, max - i
  {
    hide Lawful, Onwards, ExecFrom, Decide, SteadyAll;
    if i < max {
      var b := Before(w, n, i, p, l, s);
      var whole := Iterate(w, n, items, max, i, p, l, s);
      if !b.verdict.Err? {
        OnwardsPart(v, w, whole.tr, b.tr);
        if n.While? { DecideRepeats(v, w, Wh, n.cond, Addr(p, l + [i]), s); }
      }
      if b.verdict.Yes? { IterationRepeats(v, w, gates, top, n, items, max, i, p, l, s); }
    }
  }

  lemma {:induction false} IterationRepeats(v: World, w: World, gates: set<Site>, top: bool, n: Node, items: seq<Val>,
      max: nat, i: nat,
                                            p: seq<nat>, l: seq<nat>, s: Scope)
    requires IsLoop(n) && i < max && (n.Loop? ==> max == |items|) && SteadyAll(top, n.body)
             && Lawful(v, gates, One(n), top, p)
    requires Onwards(v, w, Iterate(w, n, items, max, i, p, l, s).tr)
    requires Before(w, n, i, p, l, s).verdict.Yes? && Before(v, n, i, p, l, s) == Before(w, n, i, p, l, s)
    ensures Repeats(Iterate(w, n, items, max, i, p, l, s), Iterate(v, n, items, max, i, p, l, s))
    decreases n, 1, max - i, 0
  {
    hide Lawful, Onwards, ExecFrom, Iterate, Decide, SteadyAll, Before;
    var t, u := Split(w, n, items, max, i, p, l, s), Split(v, n, items, max, i, p, l, s);
    var whole := Iterate(w, n, items, max, i, p, l, s).tr;
    SplitWhole(w, n, items, max, i, p, l, s);
    SplitWhole(v, n, items, max, i, p, l, s);
    OnwardsPart(v, w, whole, t.body.tr);
    OnwardsPart(v, w, whole, t.after.tr);
    OnwardsPart(v, w, whole, t.rest.tr);
    LawfulBody(v, gates, n, top, p);
    FromRepeats(v, w, gates, top, n.body, 0, p, l + [i], IterScope(n, items, i, s));
    if t.body.st.Running? && !t.after.verdict.Err? {
      if n.Retry? { DecideRepeats(v, w, Rt, n.cond, Addr(p, l + [i]), t.body.scope); }
      if t.after.verdict.No? { IterateRepeats(v, w, gates, top, n, items, max, i + 1, p, l, t.body.scope); }
    } else if t.body.st.Returned? {
      StopEarly(w, n, items, max, i, p, l, s);
      StopEarly(v, n, items, max, i, p, l, s);
    }
  }

  lemma {:induction false} ThreadsRepeat(v: World, w: World, gates: set<Site>, n: Node, items: seq<Val>, i: nat,
      p: seq<nat>, l: seq<nat>, s: Scope)
    requires IsParallel(n) && i <= Width(n, items) && Steady(true, n) && Lawful(v, gates, One(n), true, p)
    requires Onwards(v, w, Threads(w, n, items, i, p, l, s).tr)
    ensures ParRepeats(Threads(w, n, items, i, p, l, s), Threads(v, n, items, i, p, l, s))
    decreases n, 1, Width(n, items) - i
  {
    hide Lawful, Onwards, ExecFrom, SteadyAll;
    if i < Width(n, items) {
      var a := ThreadAddr(n, i, p, l);
      var at := ThreadScope(n, items, i, s);
      var e := ExecFrom(w, ThreadNodes(n, i), 0, a.path, a.loop, at);
      var r := Threads(w, n, items, i + 1, p, l, s);
      ShuffleMembers(e.tr, r.tr, w.merge(a));
      OnwardsPart(v, w, Threads(w, n, items, i, p, l, s).tr, e.tr);
      OnwardsPart(v, w, Threads(w, n, items, i, p, l, s).tr, r.tr);
      LawfulThread(v, gates, n, true, p, i);
      SteadyThread(n, i);
      hide Steady, AddThread, ParRepeats, Repeats;
      FromRepeats(v, w, gates, false, ThreadNodes(n, i), 0, a.path, a.loop, at);
      ThreadsRepeat(v, w, gates, n, items, i + 1, p, l, s);
      ThreadUncut(v, w, ThreadNodes(n, i), a.path, a.loop, at);
      var f, q := ExecFrom(v, ThreadNodes(n, i), 0, a.path, a.loop, at), Threads(v, n, items, i + 1, p, l, s);
      AddRepeats(n, i, e, f, r, q, w.merge(a), v.merge(a));
    }
  }

  lemma AddRepeats(n: Node, i: nat, e: Eff, f: Eff, r: Par, q: Par, b: seq<bool>, d: seq<bool>)
    requires IsParallel(n) && (n.Fork? ==> i < |n.branches|) && Repeats(e, f) && e.st != Failed(Cancelled)
             && ParRepeats(r, q)
    ensures ParRepeats(AddThread(n, i, e, r, b), AddThread(n, i, f, q, d))
  {
    hide Shuffle;
  }

  lemma SteadyThread(n: Node, i: nat)
    requires IsParallel(n) && (n.Fork? ==> i < |n.branches|) && Steady(true, n)
    ensures SteadyAll(false, ThreadNodes(n, i))
  {
  }

  /** A thread does not end in a cancellation nobody saw. */
  lemma ThreadUncut(v: World, w: World, ns: seq<Node>, p: seq<nat>, l: seq<nat>, s: Scope)
    requires Onwards(v, w, ExecFrom(w, ns, 0, p, l, s).tr)
    ensures ExecFrom(w, ns, 0, p, l, s).st != Failed(Cancelled)
  {
    hide ExecFrom;
    FromAccounted(w, ns, 0, p, l, s);
  }

  // ----- graphs

  ghost predicate StepsRepeatTo(r1: GraphRun, r2: GraphRun) {
    r1.err.None? && !r1.cut && !r1.susp ==>
      r2.err.None? && !r2.cut && !r2.susp && r2.scope == r1.scope && r2.done == r1.done
  }

  /** Steps that all completed complete again: none of them can be held back. */
  lemma {:induction false} StepsRepeat(v: World, w: World, gs: seq<GraphNode>, order: seq<nat>, p: seq<nat>,
      l: seq<nat>, s: Scope, done: set<string>)
    requires (forall k | 0 <= k < |order| :: order[k] < |gs|) && Onwards(v, w, Steps(w, gs, order, p, l, s, done).tr)
    requires forall i: nat | i < |gs| :: !v.halt(Addr(p + [i], l))
    ensures StepsRepeatTo(Steps(w, gs, order, p, l, s, done), Steps(v, gs, order, p, l, s, done))
    decreases |order|
  {
    hide Onwards, ExecCall;
    if order != [] {
      var i := order[0];
      var a := Addr(p + [i], l);
      var whole := Steps(w, gs, order, p, l, s, done);
      if !(forall d | d in gs[i].needs :: d in done) {
        StepsRepeat(v, w, gs, order[1..], p, l, s, done);
      } else if !w.halt(a) {
        var e := ExecCall(w, gs[i].run, a, s);
        var s', done' := StepScope(gs[i].id, s, e), StepDone(gs[i].id, done, e);
        var r := Steps(w, gs, order[1..], p, l, s', done');
        ShuffleMembers(e.tr, r.tr, w.merge(a));
        OnwardsPart(v, w, whole.tr, e.tr);
        OnwardsPart(v, w, whole.tr, r.tr);
        CallRepeats(v, w, gs[i].run, a, s);
        NoReturn(w, gs[i].run, a, s);
        if e.st.Running? { StepsRepeat(v, w, gs, order[1..], p, l, s', done'); }
      }
    }
  }

  lemma NoReturn(w: World, call: Call, a: Addr, s: Scope)
    ensures !ExecCall(w, call, a, s).st.Returned?
  {
  }

  /** A step that completed has an entry for its leaf in the next memo. */
  lemma {:induction false} CompletedKnown(v: World, w: World, gs: seq<GraphNode>, order: seq<nat>, p: seq<nat>,
      l: seq<nat>, s: Scope, done: set<string>, d: string)
    requires (forall k | 0 <= k < |order| :: order[k] < |gs|) && Onwards(v, w, Steps(w, gs, order, p, l, s, done).tr)
    requires d in Steps(w, gs, order, p, l, s, done).done && d !in done
    ensures exists i: nat :: i < |gs| && gs[i].id == d && Site(gs[i].run.bind, Addr(p + [i], l)) in v.memo
    decreases |order|
  {
    hide Onwards, ExecCall;
    if order != [] {
      var i := order[0];
      var a := Addr(p + [i], l);
      var whole := Steps(w, gs, order, p, l, s, done);
      if !(forall d | d in gs[i].needs :: d in done) || w.halt(a) {
        CompletedKnown(v, w, gs, order[1..], p, l, s, done, d);
      } else {
        var e := ExecCall(w, gs[i].run, a, s);
        var s', done' := StepScope(gs[i].id, s, e), StepDone(gs[i].id, done, e);
        var r := Steps(w, gs, order[1..], p, l, s', done');
        ShuffleMembers(e.tr, r.tr, w.merge(a));
        OnwardsPart(v, w, whole.tr, e.tr);
        OnwardsPart(v, w, whole.tr, r.tr);
        if d in done' {
          RunningKnown(v, w, gs[i].run, a, s);
        } else {
          CompletedKnown(v, w, gs, order[1..], p, l, s', done', d);
        }
      }
    }
  }

  lemma RunningKnown(v: World, w: World, call: Call, a: Addr, s: Scope)
    requires Onwards(v, w, ExecCall(w, call, a, s).tr) && ExecCall(w, call, a, s).st.Running?
    ensures Site(call.bind, a) in v.memo
  {
    var e, site := ExecCall(w, call, a, s), Site(call.bind, a);
    if site in w.memo {
      assert e.tr[0] == Get(site, Some(w.memo[site])) && e.tr[0] in e.tr;
    } else {
      assert e.tr[2].Put? && e.tr[2].site == site && e.tr[2] in e.tr;
    }
  }

  lemma GraphRepeats(v: World, w: World, gates: set<Site>, top: bool, nodes: seq<GraphNode>, p: seq<nat>, l: seq<nat>,
      s: Scope)
    requires OneStepPerId(Sorted(nodes)) && Lawful(v, gates, One(Graph(nodes)), top, p)
    requires Onwards(v, w, ExecGraph(w, Sorted(nodes), p, l, s).tr)
    ensures Repeats(ExecGraph(w, Sorted(nodes), p, l, s), ExecGraph(v, Sorted(nodes), p, l, s))
  {
    hide Onwards, Steps, Sorted, Lawful, Topo;
    var gs := Sorted(nodes);
    var order := Topo(gs, {});
    var r := Steps(w, gs, order, p, l, s, {});
    if ExecGraph(w, gs, p, l, s).st.Running? {
      forall i: nat | i < |gs| ensures !v.halt(Addr(p + [i], l)) { NotHeld(v, w, gates, top, nodes, p, l, s, i); }
      StepsRepeat(v, w, gs, order, p, l, s, {});
    }
  }

  lemma NotHeld(v: World, w: World, gates: set<Site>, top: bool, nodes: seq<GraphNode>, p: seq<nat>, l: seq<nat>,
      s: Scope, i: nat)
    requires OneStepPerId(Sorted(nodes)) && Lawful(v, gates, One(Graph(nodes)), top, p) && i < |nodes|
    requires Onwards(v, w, ExecGraph(w, Sorted(nodes), p, l, s).tr) && ExecGraph(w, Sorted(nodes), p, l, s).st.Running?
    ensures !v.halt(Addr(p + [i], l))
  {
    hide Onwards, ExecGraph, Sorted, Lawful;
    var gs := Sorted(nodes);
    if v.halt(Addr(p + [i], l)) {
      HeldStep(v, gates, top, nodes, p, l, i);
      var j: nat :| j < |gs| && Site(gs[j].run.bind, Addr(p + [j], l)) in gates;
      AllKnown(v, w, gs, p, l, s, j);
    }
  }

  /** A held step has needs and a sibling among the gates, none of which has a result. */
  lemma HeldStep(v: World, gates: set<Site>, top: bool, nodes: seq<GraphNode>, p: seq<nat>, l: seq<nat>, i: nat)
    requires Lawful(v, gates, One(Graph(nodes)), top, p) && i < |nodes| && v.halt(Addr(p + [i], l))
    ensures Sorted(nodes)[i].needs != [] && SiblingPaused(gates, Sorted(nodes), p, l)
    ensures forall site | site in gates :: site !in v.memo
  {
    hide Sorted, SiblingPaused;
    var a := Addr(p + [i], l);
    assert a.path[|p|] == i && p <= a.path;
    assert HoldsIn(gates, One(Graph(nodes)), top, p, a);
  }

  lemma AllKnown(v: World, w: World, gs: seq<GraphNode>, p: seq<nat>, l: seq<nat>, s: Scope, j: nat)
    requires OneStepPerId(gs) && j < |gs| && Onwards(v, w, ExecGraph(w, gs, p, l, s).tr)
             && ExecGraph(w, gs, p, l, s).st.Running?
    ensures Site(gs[j].run.bind, Addr(p + [j], l)) in v.memo
  {
    hide Onwards, Steps, Topo;
    var order := Topo(gs, {});
    var r := Steps(w, gs, order, p, l, s, {});
    IdsCounted(w, gs, order, p, l, s, {});
    CompletedKnown(v, w, gs, order, p, l, s, {}, gs[j].id);
    var i: nat :| i < |gs| && gs[i].id == gs[j].id && Site(gs[i].run.bind, Addr(p + [i], l)) in v.memo;
    assert i == j;
  }

  /** Only ids of the graph complete; as many as there are steps means all. */
  lemma IdsCounted(w: World, gs: seq<GraphNode>, order: seq<nat>, p: seq<nat>, l: seq<nat>, s: Scope, done: set<string>)
    requires (forall k | 0 <= k < |order| :: order[k] < |gs|) && done <= IdsOf(gs)
    ensures Steps(w, gs, order, p, l, s, done).done <= IdsOf(gs)
    ensures |Steps(w, gs, order, p, l, s, done).done| == |gs|
            ==> forall j: nat | j < |gs| :: gs[j].id in Steps(w, gs, order, p, l, s, done).done
  {
    hide Steps;
    OnlyIds(w, gs, order, p, l, s, done);
    GraphScheduler.IdsAtMost(gs);
    var all := Steps(w, gs, order, p, l, s, done).done;
    if |all| == |gs| {
      assert |IdsOf(gs) - all| == |IdsOf(gs)| - |all|;
      assert IdsOf(gs) - all == {};
      forall j: nat | j < |gs| ensures gs[j].id in all { assert gs[j].id in IdsOf(gs); }
    }
  }

  lemma {:induction false} OnlyIds(w: World, gs: seq<GraphNode>, order: seq<nat>, p: seq<nat>, l: seq<nat>, s: Scope,
      done: set<string>)
    requires (forall k | 0 <= k < |order| :: order[k] < |gs|) && done <= IdsOf(gs)
    ensures Steps(w, gs, order, p, l, s, done).done <= IdsOf(gs)
    decreases |order|
  {
    hide ExecCall;
    if order != [] {
      var i := order[0];
      var e := ExecCall(w, gs[i].run, Addr(p + [i], l), s);
      OnlyIds(w, gs, order[1..], p, l, s, done);
      OnlyIds(w, gs, order[1..], p, l, StepScope(gs[i].id, s, e), StepDone(gs[i].id, done, e));
    }
  }

  // ----- code whose subworkflows are called again

  /** No InvokeWorkflow anywhere in the node. */
  ghost predicate Free(n: Node) {
    forall q :: LeafOf(n, q).Some? ==> !LeafOf(n, q).value.Workflow?
  }

  /** An InvokeWorkflow step has no needs and reads no step of its graph. */
  ghost predicate RootsOnly(gs: seq<GraphNode>) {
    forall i | 0 <= i < |gs| && gs[i].run.Workflow? :: gs[i].needs == [] && ReadsNoStep(gs, gs[i].run)
  }

  ghost predicate ReadsNoStep(gs: seq<GraphNode>, call: Call) {
    forall k, h | k in call.args && Reads(call.args[k], h) :: h !in IdsOf(gs)
  }

  /** InvokeWorkflow leaves sit in graph steps without needs, or with no join inside a thread
      before them. */
  ghost predicate Prompt(top: bool, n: Node)
    decreases n, 0
  {
    Free(n) ||
    match n
    case Branch(_, thn, els) => PromptAll(top, thn) && PromptAll(top, els)
    case Fork(bs) => forall i :: 0 <= i < |bs| ==> PromptAll(false, bs[i].nodes)
    case Loop(_, _, body, par) => PromptAll(top && !par, body) && (par || SteadyAll(top, body))
    case While(_, _, body) => PromptAll(top, body) && SteadyAll(top, body)
    case Retry(_, _, body) => PromptAll(top, body) && SteadyAll(top, body)
    case Graph(nodes) => RootsOnly(Sorted(nodes))
    case _ => true
  }

  ghost predicate PromptAll(top: bool, ns: seq<Node>)
    decreases ns, 1
  {
    forall i :: 0 <= i < |ns| ==> Prompt(top, ns[i]) && (Steady(top, ns[i]) || FreeFrom(ns, i + 1))
  }

  ghost predicate FreeFrom(ns: seq<Node>, i: nat) {
    forall j :: i <= j < |ns| ==> Free(ns[j])
  }

  /** Every subworkflow call of t1 that v has no result for is made in t2. */
  ghost predicate Recalls(v: World, t1: seq<Act>, t2: seq<Act>) {
    forall site, call, args ::
      Called(site, call, args) in t1 && call.Workflow? && site !in v.memo ==> Called(site, call, args) in t2
  }

  lemma RecallsJoin(v: World, x1: seq<Act>, y1: seq<Act>, t1: seq<Act>, x2: seq<Act>, y2: seq<Act>, t2: seq<Act>)
    requires Recalls(v, x1, x2) && Recalls(v, y1, y2) && (forall x | x in t1 :: x in x1 || x in y1)
             && (forall x | x in x2 || x in y2 :: x in t2)
    ensures Recalls(v, t1, t2)
  {
  }

  lemma NoCalls(v: World, t1: seq<Act>, t2: seq<Act>)
    requires forall x | x in t1 :: !(x.Called? && x.call.Workflow?)
    ensures Recalls(v, t1, t2)
  {
  }

  lemma RecallsWider(v: World, t1: seq<Act>, x2: seq<Act>, t2: seq<Act>)
    requires Recalls(v, t1, x2) && forall x | x in x2 :: x in t2
    ensures Recalls(v, t1, t2)
  {
  }

  /** Code without InvokeWorkflow calls none. */
  lemma FreeCalls(w: World, n: Node, p: seq<nat>, l: seq<nat>, s: Scope)
    requires Free(n)
    ensures forall x | x in Exec(w, n, p, l, s).tr :: !(x.Called? && x.call.Workflow?)
  {
    hide Exec, ExecCall, LeafOf;
    var e := Exec(w, n, p, l, s);
    ExecAccounted(w, n, p, l, s);
    forall x | x in e.tr && x.Called? ensures !x.call.Workflow? {
      assert HasLeaf(w, One(n), p, e.tr, Broken(e.st), x);
      var c, a, t :| Sits(One(n), p, c, a) && LeafIn(w, e.tr, Broken(e.st), x, c, a, t);
      CallOf(w, c, a, t, x.site, x.call, x.args);
      assert LeafOf(n, a.path[|p|..]).Some?;
    }
  }

  lemma {:induction false} FreeRest(w: World, ns: seq<Node>, i: nat, p: seq<nat>, l: seq<nat>, s: Scope)
    requires i <= |ns| && FreeFrom(ns, i)
    ensures forall x | x in ExecFrom(w, ns, i, p, l, s).tr :: !(x.Called? && x.call.Workflow?)
    decreases |ns| - i
  {
    hide Exec, Free;
    if i < |ns| {
      FreeCalls(w, ns[i], p + [i], l, s);
      var e := Exec(w, ns[i], p + [i], l, s);
      if e.st.Running? { FreeRest(w, ns, i + 1, p, l, e.scope); }
    }
  }

  lemma CallRecalls(v: World, w: World, call: Call, a: Addr, s: Scope, t: Scope)
    requires v.render == w.render && EvalArgs(w.render, s, call.args) == EvalArgs(v.render, t, call.args)
    ensures Recalls(v, ExecCall(w, call, a, s).tr, ExecCall(v, call, a, t).tr)
  {
    hide EvalArgs, JsonNum.Canonical;
    var e, f := ExecCall(w, call, a, s), ExecCall(v, call, a, t);
    forall site, k, args | Called(site, k, args) in e.tr && site !in v.memo ensures Called(site, k, args) in f.tr {
      CallOf(w, call, a, s, site, k, args);
      assert f.tr[1] == Called(site, k, args);
    }
  }

  lemma {:induction false} NodeRecalls(v: World, w: World, gates: set<Site>, top: bool, n: Node, p: seq<nat>,
      l: seq<nat>, s: Scope)
    requires Prompt(top, n) && Lawful(v, gates, One(n), top, p) && Onwards(v, w, Exec(w, n, p, l, s).tr)
    ensures Recalls(v, Exec(w, n, p, l, s).tr, Exec(v, n, p, l, s).tr)
    decreases n, 3, 0
  {
    if Free(n) {
      hide Exec, Lawful, Onwards, Prompt, Recalls, Free;
      FreeCalls(w, n, p, l, s);
      NoCalls(v, Exec(w, n, p, l, s).tr, Exec(v, n, p, l, s).tr);
    } else {
      BusyRecalls(v, w, gates, top, n, p, l, s);
    }
  }

  lemma {:induction false} BusyRecalls(v: World, w: World, gates: set<Site>, top: bool, n: Node, p: seq<nat>,
      l: seq<nat>, s: Scope)
    requires Prompt(top, n) && !Free(n) && Lawful(v, gates, One(n), top, p) && Onwards(v, w, Exec(w, n, p, l, s).tr)
    ensures Recalls(v, Exec(w, n, p, l, s).tr, Exec(v, n, p, l, s).tr)
    decreases n, 2, 0
  {
    hide Lawful, Onwards, ExecCall, ExecFrom, Iterate, Threads, ExecGraph, Decide, EvalCollection, EvalValue,
        PromptAll, SteadyAll, Sorted, Join, Recalls, Free;
    var e := Exec(w, n, p, l, s);
    OnwardsSame(v, w, e.tr);
    match n
    case Invoke(call) => CallRecalls(v, w, call, Addr(p, l), s, s);
    case Let(_, _) => NoCalls(v, e.tr, Exec(v, n, p, l, s).tr);
    case Return(_) => NoCalls(v, e.tr, Exec(v, n, p, l, s).tr);
    case Branch(cond, thn, els) => BranchRecalls(v, w, gates, top, n, p, l, s);
    case Fork(_) =>
      ForkTrace(w, n, p, l, s);
      ForkTrace(v, n, p, l, s);
      ThreadsRecall(v, w, gates, top, n, [], 0, p, l, s);
    case Loop(_, _, _, _) => LoopRecalls(v, w, gates, top, n, p, l, s);
    case While(_, limit, _) => IterateRecalls(v, w, gates, top, n, [], w.Bound(limit), 0, p, l, s);
    case Retry(_, limit, _) => IterateRecalls(v, w, gates, top, n, [], w.Bound(limit), 0, p, l, s);
    case Graph(nodes) => GraphRecalls(v, w, gates, top, nodes, p, l, s);
  }

  lemma {:induction false} BranchRecalls(v: World, w: World, gates: set<Site>, top: bool, n: Node, p: seq<nat>,
      l: seq<nat>, s: Scope)
    requires n.Branch? && PromptAll(top, n.thn) && PromptAll(top, n.els)
    requires Lawful(v, gates, One(n), top, p) && Onwards(v, w, Exec(w, n, p, l, s).tr)
    ensures Recalls(v, Exec(w, n, p, l, s).tr, Exec(v, n, p, l, s).tr)
    decreases n, 1, 0
  {
    hide Lawful, Onwards, ExecFrom, Decide, PromptAll, Recalls;
    var e := Exec(w, n, p, l, s);
    var c := Decide(w, Br, n.cond, Addr(p, l), s);
    DecideDecides(w, Br, n.cond, Addr(p, l), s);
    if c.verdict.Err? {
      NoCalls(v, e.tr, Exec(v, n, p, l, s).tr);
    } else {
      var b: nat := if c.verdict.Yes? then 0 else 1;
      var arm := if b == 0 then n.thn else n.els;
      var f := ExecFrom(w, arm, 0, p + [b], l, s);
      OnwardsPart(v, w, e.tr, c.tr);
      OnwardsPart(v, w, e.tr, f.tr);
      DecideRepeats(v, w, Br, n.cond, Addr(p, l), s);
      LawfulArm(v, gates, n, top, p, b);
      FromRecalls(v, w, gates, top, arm, 0, p + [b], l, s);
      NoCalls(v, c.tr, c.tr);
      RecallsJoin(v, c.tr, f.tr, e.tr, c.tr, ExecFrom(v, arm, 0, p + [b], l, s).tr, Exec(v, n, p, l, s).tr);
    }
  }

  lemma {:induction false} LoopRecalls(v: World, w: World, gates: set<Site>, top: bool, n: Node, p: seq<nat>,
      l: seq<nat>, s: Scope)
    requires n.Loop? && PromptAll(top && !n.par, n.body) && (n.par || SteadyAll(top, n.body))
    requires Lawful(v, gates, One(n), top, p) && Onwards(v, w, Exec(w, n, p, l, s).tr)
    ensures Recalls(v, Exec(w, n, p, l, s).tr, Exec(v, n, p, l, s).tr)
    decreases n, 1, w.Cap() + 1
  {
    hide Lawful, Onwards, Iterate, Threads, EvalCollection, PromptAll, SteadyAll, Join, Recalls;
    var e, e2 := Exec(w, n, p, l, s), Exec(v, n, p, l, s);
    OnwardsSame(v, w, e.tr);
    var got := EvalCollection(w.render, s, n.coll);
    if got.None? || |got.value| > w.Cap() {
      NoCalls(v, e.tr, e2.tr);
    } else {
      var items, c := got.value, Record(w, CtlKey(Lp, Addr(p, l)), |got.value|);
      if c.verdict.Err? {
        NoCalls(v, e.tr, e2.tr);
      } else {
        assert Ctl(CtlKey(Lp, Addr(p, l)), |items|, true) in e.tr;
        NoCalls(v, c.tr, c.tr);
        if n.par {
          var t, u := Threads(w, n, items, 0, p, l, s), Threads(v, n, items, 0, p, l, s);
          JoinTrace(w, Addr(p, l), s, t);
          JoinTrace(v, Addr(p, l), s, u);
          OnwardsPart(v, w, e.tr, t.tr);
          ThreadsRecall(v, w, gates, top, n, items, 0, p, l, s);
          RecallsJoin(v, c.tr, t.tr, e.tr, c.tr, u.tr, e2.tr);
        } else {
          var t, u := Iterate(w, n, items, |items|, 0, p, l, s), Iterate(v, n, items, |items|, 0, p, l, s);
          OnwardsPart(v, w, e.tr, t.tr);
          IterateRecalls(v, w, gates, top, n, items, |items|, 0, p, l, s);
          RecallsJoin(v, c.tr, t.tr, e.tr, c.tr, u.tr, e2.tr);
        }
      }
    }
  }

  lemma {:induction false} FromRecalls(v: World, w: World, gates: set<Site>, top: bool, ns: seq<Node>, i: nat,
      p: seq<nat>, l: seq<nat>, s: Scope)
    requires i <= |ns| && PromptAll(top, ns) && Lawful(v, gates, Many(ns), top, p)
             && Onwards(v, w, ExecFrom(w, ns, i, p, l, s).tr)
    ensures Recalls(v, ExecFrom(w, ns, i, p, l, s).tr, ExecFrom(v, ns, i, p, l, s).tr)
    decreases ns, 0, |ns| - i
  {
    hide Lawful, Onwards, Exec, Prompt, Steady, Recalls, FreeFrom;
    var e1, e2 := ExecFrom(w, ns, i, p, l, s), ExecFrom(v, ns, i, p, l, s);
    if i == |ns| {
      NoCalls(v, e1.tr, e2.tr);
    } else {
      var e, f := Exec(w, ns[i], p + [i], l, s), Exec(v, ns[i], p + [i], l, s);
      OnwardsPart(v, w, e1.tr, e.tr);
      LawfulChild(v, gates, ns, top, p, i);
      NodeRecalls(v, w, gates, top, ns[i], p + [i], l, s);
      if !e.st.Running? {
        RecallsWider(v, e.tr, f.tr, e2.tr);
      } else {
        var g := ExecFrom(w, ns, i + 1, p, l, e.scope);
        OnwardsPart(v, w, e1.tr, g.tr);
        if Steady(top, ns[i]) {
          NodeRepeats(v, w, gates, top, ns[i], p + [i], l, s);
          FromRecalls(v, w, gates, top, ns, i + 1, p, l, e.scope);
          RecallsJoin(v, e.tr, g.tr, e1.tr, f.tr, ExecFrom(v, ns, i + 1, p, l, e.scope).tr, e2.tr);
        } else {
          FreeRest(w, ns, i + 1, p, l, e.scope);
          NoCalls(v, g.tr, []);
          RecallsJoin(v, e.tr, g.tr, e1.tr, f.tr, [], e2.tr);
        }
      }
    }
  }

  lemma {:induction false} ThreadsRecall(v: World, w: World, gates: set<Site>, top: bool, n: Node, items: seq<Val>,
      i: nat,
                                         p: seq<nat>, l: seq<nat>, s: Scope)
    requires IsParallel(n) && i <= Width(n, items) && Lawful(v, gates, One(n), top, p)
    requires forall k: nat :: k < Width(n, items) ==> PromptAll(false, ThreadNodes(n, k))
    requires Onwards(v, w, Threads(w, n, items, i, p, l, s).tr)
    ensures Recalls(v, Threads(w, n, items, i, p, l, s).tr, Threads(v, n, items, i, p, l, s).tr)
    decreases n, 1, Width(n, items) - i
  {
    hide Lawful, Onwards, ExecFrom, PromptAll, Recalls, AddThread;
    if i == Width(n, items) {
      NoCalls(v, [], []);
    } else {
      var a := ThreadAddr(n, i, p, l);
      var at := ThreadScope(n, items, i, s);
      var e, f := ExecFrom(w, ThreadNodes(n, i), 0, a.path, a.loop, at),
          ExecFrom(v, ThreadNodes(n, i), 0, a.path, a.loop, at);
      var r, q := Threads(w, n, items, i + 1, p, l, s), Threads(v, n, items, i + 1, p, l, s);
      ThreadTrace(n, i, e, r, w.merge(a));
      ThreadTrace(n, i, f, q, v.merge(a));
      OnwardsPart(v, w, Threads(w, n, items, i, p, l, s).tr, e.tr);
      OnwardsPart(v, w, Threads(w, n, items, i, p, l, s).tr, r.tr);
      LawfulThread(v, gates, n, top, p, i);
      FromRecalls(v, w, gates, false, ThreadNodes(n, i), 0, a.path, a.loop, at);
      ThreadsRecall(v, w, gates, top, n, items, i + 1, p, l, s);
      RecallsJoin(v, e.tr, r.tr, Threads(w, n, items, i, p, l, s).tr, f.tr, q.tr, Threads(v, n, items, i, p, l, s).tr);
    }
  }

  lemma ThreadTrace(n: Node, i: nat, e: Eff, r: Par, bits: seq<bool>)
    requires IsParallel(n) && (n.Fork? ==> i < |n.branches|)
    ensures forall x :: x in AddThread(n, i, e, r, bits).tr <==> x in e.tr || x in r.tr
  {
    ShuffleMembers(e.tr, r.tr, bits);
  }

  lemma {:induction false} IterateRecalls(v: World, w: World, gates: set<Site>, top: bool, n: Node, items: seq<Val>,
      max: nat, i: nat,
                                          p: seq<nat>, l: seq<nat>, s: Scope)
    requires IsLoop(n) && i <= max && (n.Loop? ==> max == |items|) && PromptAll(top, n.body) && SteadyAll(top, n.body)
    requires Lawful(v, gates, One(n), top, p) && Onwards(v, w, Iterate(w, n, items, max, i, p, l, s).tr)
    ensures Recalls(v, Iterate(w, n, items, max, i, p, l, s).tr, Iterate(v, n, items, max, i, p, l, s).tr)
    decreases n, 1, max - i
  {
    hide Lawful, Onwards, ExecFrom, Decide, PromptAll, SteadyAll, Recalls;
    var e1, e2 := Iterate(w, n, items, max, i, p, l, s), Iterate(v, n, items, max, i, p, l, s);
    var b := if i < max then Before(w, n, i, p, l, s) else Check([], No);
    if i < max { AroundAccounted(w, n, i, p, l, s); }
    if !b.verdict.Yes? {
      NoCalls(v, e1.tr, e2.tr);
    } else {
      OnwardsPart(v, w, e1.tr, b.tr);
      if n.While? { DecideRepeats(v, w, Wh, n.cond, Addr(p, l + [i]), s); }
      IterationRecalls(v, w, gates, top, n, items, max, i, p, l, s);
    }
  }

  lemma {:induction false} IterationRecalls(v: World, w: World, gates: set<Site>, top: bool, n: Node, items: seq<Val>,
      max: nat, i: nat,
                                            p: seq<nat>, l: seq<nat>, s: Scope)
    requires IsLoop(n) && i < max && (n.Loop? ==> max == |items|) && PromptAll(top, n.body) && SteadyAll(top, n.body)
    requires Lawful(v, gates, One(n), top, p) && Onwards(v, w, Iterate(w, n, items, max, i, p, l, s).tr)
    requires Before(w, n, i, p, l, s).verdict.Yes? && Before(v, n, i, p, l, s) == Before(w, n, i, p, l, s)
    ensures Recalls(v, Iterate(w, n, items, max, i, p, l, s).tr, Iterate(v, n, items, max, i, p, l, s).tr)
    decreases n, 1, max - i, 0
  {
    hide Lawful, Onwards, ExecFrom, Iterate, Decide, PromptAll, SteadyAll, Before, Recalls;
    var t, u := Split(w, n, items, max, i, p, l, s), Split(v, n, items, max, i, p, l, s);
    var e1, e2 := Iterate(w, n, items, max, i, p, l, s), Iterate(v, n, items, max, i, p, l, s);
    SplitWhole(w, n, items, max, i, p, l, s);
    SplitWhole(v, n, items, max, i, p, l, s);
    OnwardsPart(v, w, e1.tr, t.body.tr);
    OnwardsPart(v, w, e1.tr, t.after.tr);
    OnwardsPart(v, w, e1.tr, t.rest.tr);
    LawfulBody(v, gates, n, top, p);
    FromRecalls(v, w, gates, top, n.body, 0, p, l + [i], IterScope(n, items, i, s));
    FromRepeats(v, w, gates, top, n.body, 0, p, l + [i], IterScope(n, items, i, s));
    AroundAccounted(w, n, i, p, l, s);
    AroundAccounted(w, n, i, p, l, t.body.scope);
    var decided := t.before.tr + t.after.tr;
    NoCalls(v, decided, []);
    RecallsJoin(v, decided, t.body.tr, decided + t.body.tr, [], u.body.tr, e2.tr);
    if t.body.st.Running? && t.after.verdict.No? {
      if n.Retry? { DecideRepeats(v, w, Rt, n.cond, Addr(p, l + [i]), t.body.scope); }
      IterateRecalls(v, w, gates, top, n, items, max, i + 1, p, l, t.body.scope);
      RecallsWider(v, t.rest.tr, u.rest.tr, e2.tr);
    } else {
      NoCalls(v, t.rest.tr, e2.tr);
    }
    RecallsJoin(v, decided + t.body.tr, t.rest.tr, e1.tr, e2.tr, e2.tr, e2.tr);
  }

  /** The scopes differ at most in what the graph's own steps bound. */
  ghost predicate Outside(gs: seq<GraphNode>, s: Scope, t: Scope) {
    forall h | h !in IdsOf(gs) :: AgreeOn(s, t, h)
  }

  lemma OutsideStays(gs: seq<GraphNode>, i: nat, s: Scope, t: Scope, e: Eff)
    requires i < |gs| && Outside(gs, s, t)
    ensures Outside(gs, StepScope(gs[i].id, s, e), t) && Outside(gs, s, StepScope(gs[i].id, t, e))
  {
    assert gs[i].id in IdsOf(gs);
  }

  lemma {:induction false} StepsRecall(v: World, w: World, gs: seq<GraphNode>, order: seq<nat>, p: seq<nat>,
      l: seq<nat>,
                                       s: Scope, t: Scope, done: set<string>, done': set<string>)
    requires (forall k | 0 <= k < |order| :: order[k] < |gs|) && RootsOnly(gs) && v.render == w.render
             && Outside(gs, s, t)
    requires forall i: nat | i < |gs| && gs[i].needs == [] :: !v.halt(Addr(p + [i], l))
    ensures Recalls(v, Steps(w, gs, order, p, l, s, done).tr, Steps(v, gs, order, p, l, t, done').tr)
    decreases |order|
  {
    hide ExecCall, Recalls, Outside, RootsOnly, StepScope, AddStep;
    var whole, whole' := Steps(w, gs, order, p, l, s, done), Steps(v, gs, order, p, l, t, done');
    if order == [] {
      NoCalls(v, [], []);
    } else {
      var i := order[0];
      var id, a := gs[i].id, Addr(p + [i], l);
      var runs := (forall d | d in gs[i].needs :: d in done) && !w.halt(a);
      var runs' := (forall d | d in gs[i].needs :: d in done') && !v.halt(a);
      var e, f := ExecCall(w, gs[i].run, a, s), ExecCall(v, gs[i].run, a, t);
      var s1, d1 := if runs then StepScope(id, s, e) else s, if runs then StepDone(id, done, e) else done;
      var t1, d2 := if runs' then StepScope(id, t, f) else t, if runs' then StepDone(id, done', f) else done';
      OutsideStays(gs, i, s, t, e);
      OutsideStays(gs, i, s1, t, f);
      StepsRecall(v, w, gs, order[1..], p, l, s1, t1, d1, d2);
      var r, q := Steps(w, gs, order[1..], p, l, s1, d1), Steps(v, gs, order[1..], p, l, t1, d2);
      var x: seq<Act> := if runs then e.tr else [];
      var y: seq<Act> := if runs' then f.tr else [];
      StepTrace(w, gs, order, p, l, s, done, runs);
      StepTrace(v, gs, order, p, l, t, done', runs');
      if runs { StepRecalls(v, w, gs, i, a, s, t, runs'); } else { NoCalls(v, x, y); }
      RecallsJoin(v, x, r.tr, whole.tr, y, q.tr, whole'.tr);
    }
  }

  /** One step's share of the trace. */
  lemma StepTrace(w: World, gs: seq<GraphNode>, order: seq<nat>, p: seq<nat>, l: seq<nat>, s: Scope, done: set<string>,
      runs: bool)
    requires order != [] && (forall k | 0 <= k < |order| :: order[k] < |gs|)
    requires runs == ((forall d | d in gs[order[0]].needs :: d in done) && !w.halt(Addr(p + [order[0]], l)))
    ensures var g, a := gs[order[0]], Addr(p + [order[0]], l);
            var e := ExecCall(w, g.run, a, s);
            var r := Steps(w, gs, order[1..], p, l, if runs then StepScope(g.id, s, e) else s, if runs
                           then StepDone(g.id, done, e) else done);
            forall x :: x in Steps(w, gs, order, p, l, s, done).tr <==> (runs && x in e.tr) || x in r.tr
  {
    hide ExecCall, StepScope, StepDone;
    var g, a := gs[order[0]], Addr(p + [order[0]], l);
    var e := ExecCall(w, g.run, a, s);
    if runs {
      ShuffleMembers(e.tr, Steps(w, gs, order[1..], p, l, StepScope(g.id, s, e), StepDone(g.id, done, e)).tr,
          w.merge(a));
    }
  }

  lemma StepRecalls(v: World, w: World, gs: seq<GraphNode>, i: nat, a: Addr, s: Scope, t: Scope, runs': bool)
    requires i < |gs| && RootsOnly(gs) && v.render == w.render && Outside(gs, s, t) && (gs[i].needs == [] ==> runs')
    ensures Recalls(v, ExecCall(w, gs[i].run, a, s).tr, if runs' then ExecCall(v, gs[i].run, a, t).tr else [])
  {
    hide ExecCall, Recalls;
    var call := gs[i].run;
    if call.Workflow? {
      assert ReadsNoStep(gs, call);
      EvalArgsAgree(w.render, s, t, call.args);
      CallRecalls(v, w, call, a, s, t);
    } else {
      OwnCalls(w, call, a, s);
      NoCalls(v, ExecCall(w, call, a, s).tr, if runs' then ExecCall(v, call, a, t).tr else []);
    }
  }

  lemma OwnCalls(w: World, call: Call, a: Addr, s: Scope)
    ensures forall x | x in ExecCall(w, call, a, s).tr :: x.Called? ==> x.call == call
  {
  }

  lemma GraphRecalls(v: World, w: World, gates: set<Site>, top: bool, nodes: seq<GraphNode>, p: seq<nat>, l: seq<nat>,
      s: Scope)
    requires RootsOnly(Sorted(nodes)) && Lawful(v, gates, One(Graph(nodes)), top, p) && v.render == w.render
    ensures Recalls(v, ExecGraph(w, Sorted(nodes), p, l, s).tr, ExecGraph(v, Sorted(nodes), p, l, s).tr)
  {
    hide Steps, Sorted, Lawful, Topo, Recalls, RootsOnly;
    var gs := Sorted(nodes);
    forall i: nat | i < |gs| && gs[i].needs == [] ensures !v.halt(Addr(p + [i], l)) {
      if v.halt(Addr(p + [i], l)) { HeldStep(v, gates, top, nodes, p, l, i); }
    }
    StepsRecall(v, w, gs, Topo(gs, {}), p, l, s, s, {}, {});
  }

  // ----- sequential code

  /** Sequential code is steady and prompt, and has nothing to hold back. */
  lemma {:induction false} SequentialNode(n: Node, top: bool)
    requires Sequential(n)
    ensures Steady(top, n) && Prompt(top, n)
    ensures forall gates, p, a :: Holds(gates, n, top, p, a)
    decreases n, 0
  {
    hide Free;
    match n
    case Branch(_, thn, els) =>
      SequentialNodes(thn, top);
      SequentialNodes(els, top);
    case Loop(_, _, body, _) => SequentialNodes(body, top);
    case While(_, _, body) => SequentialNodes(body, top);
    case Retry(_, _, body) => SequentialNodes(body, top);
    case _ =>
  }

  lemma {:induction false} SequentialNodes(ns: seq<Node>, top: bool)
    requires SequentialAll(ns)
    ensures SteadyAll(top, ns) && PromptAll(top, ns)
    ensures forall gates, p, a :: HoldsAmong(gates, ns, top, p, a)
    decreases ns, 1
  {
    hide Sequential, Steady, Prompt, Holds, FreeFrom;
    forall i | 0 <= i < |ns| ensures Steady(top, ns[i]) && Prompt(top, ns[i])
    && forall gates, p, a :: Holds(gates, ns[i], top, p, a) {
      assert Sequential(ns[i]);
      SequentialNode(ns[i], top);
    }
  }

  // ----- whole runs

  ghost function GatesOf(tr: seq<Act>): set<Site> {
    set x | x in tr && x.Gate? :: x.site
  }

  /** The run of v holds back only what the code can: a graph step with needs after a sibling
      paused, or a join inside a thread. */
  ghost predicate Plausible(v: World, prog: Program, input: Val) {
    forall a: Addr | v.halt(a) :: HoldsAmong(GatesOf(Run(v, prog, input).tr), prog.body, true, [], a)
  }

  /** A resume of a prompt program calls every subworkflow again that has no result yet. */
  lemma PromptResumeRecalls(w: World, v: World, prog: Program, input: Val)
    requires PromptAll(true, prog.body) && Plausible(v, prog, input) && Onwards(v, w, Run(w, prog, input).tr)
    ensures Recalls(v, Run(w, prog, input).tr, Run(v, prog, input).tr)
  {
    hide PromptAll, HoldsAmong, Onwards, ExecFrom, Recalls;
    var gates := GatesOf(Run(v, prog, input).tr);
    forall site | site in gates ensures site !in v.memo {
      var call, args := GateWasCalled(v, prog, input, site);
    }
    assert Lawful(v, gates, Many(prog.body), true, []);
    FromRecalls(v, w, gates, true, prog.body, 0, [], [], ParamScope(prog.params, input));
  }
}
