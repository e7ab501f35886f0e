/** A fork whose second cycle drops a frame and whose third repeats an inner call: one branch
    joins an inner fork before it invokes a subworkflow, the other waits at a gate. The inner
    join reads the suspension of the whole session (internal/execir/interp.go execFork), so when
    the gate pauses first the branch stops there and the subworkflow is not reached. */
module DroppedFork {
  import opened Values
  import opened ExecIR
  import opened Eval
  import opened Interp
  import opened Addressing
  import opened Engine
  import opened LostFrame
  import Prompt

  const Inner: Node := Node.Fork([ForkBranch("a", [Node.Invoke(CallA)])])
  const Left: seq<Node> := [Inner, Node.Invoke(CallS)]
  const Outer: Node := Node.Fork([ForkBranch("", Left), ForkBranch("", [Node.Invoke(CallG)])])
  const ForkProgram: Program := Program("main", [], [Outer])
  const AtJoin: Addr := Addr([0, 0, 0], [])
  const AtA: Addr := Addr([0, 0, 0, 0, 0], [])
  const AtS: Addr := Addr([0, 0, 1], [])
  const AtG: Addr := Addr([0, 1, 0], [])
  const ForkScene: Scene := Scene(ForkProgram, AtG, AtS, AtJoin)

  lemma OneLeaf(w: World, call: Call, p: seq<nat>, a: Addr, s: Scope)
    requires p + [0] == a.path && a.loop == []
    ensures var e, f := ExecCall(w, call, a, s), ExecFrom(w, [Node.Invoke(call)], 0, p, [], s);
            f.st == e.st && f.scope == e.scope && f.tr == e.tr
  {
    hide ExecCall;
    var e, ns := ExecCall(w, call, a, s), [Node.Invoke(call)];
    assert Exec(w, ns[0], p + [0], [], s) == e;
    assert ExecFrom(w, ns, 1, p, [], e.scope) == Eff(e.scope, Running, []);
    assert e.tr + [] == e.tr;
  }

  /** The inner fork: its one leaf, then the join, held or not. */
  lemma InnerRun(w: World, s: Scope, ea: Eff)
    requires ea == ExecCall(w, CallA, AtA, s) && ea.st.Running?
    ensures var f := Exec(w, Inner, AtJoin.path, [], s);
            f.tr == ea.tr && f.st == if w.halt(AtJoin) then Suspended else Running
  {
    hide ExecCall, ExecFrom;
    var p := AtJoin.path + [0];
    assert p + [0] == AtA.path;
    OneLeaf(w, CallA, p, AtA, s);
    var e := ExecFrom(w, Inner.branches[0].nodes, 0, p, [], s);
    var none := Par(None, false, map[], []);
    assert Threads(w, Inner, [], 1, AtJoin.path, [], s) == none;
    assert Threads(w, Inner, [], 0, AtJoin.path, [], s) == AddThread(Inner, 0, e, none, w.merge(Addr(p, [])));
    assert Shuffle(e.tr, [], w.merge(Addr(p, []))) == e.tr;
  }

  /** The left branch stops at the held join, or at the subworkflow. */
  lemma LeftRun(w: World, s: Scope, ea: Eff) returns (es: Eff)
    requires ea == ExecCall(w, CallA, AtA, s) && ea.st.Running?
    requires !w.halt(AtJoin) ==> forall t: Scope :: ExecCall(w, CallS, AtS, t).st.Suspended?
    ensures exists t: Scope :: es == ExecCall(w, CallS, AtS, t)
    ensures var f := ExecFrom(w, Left, 0, [0, 0], [], s);
            && f.st.Suspended?
            && forall x :: x in f.tr <==> x in ea.tr || (!w.halt(AtJoin) && x in es.tr)
  {
    hide ExecCall, Exec;
    InnerRun(w, s, ea);
    assert [0, 0] + [0] == AtJoin.path && [0, 0] + [1] == AtS.path;
    var f := Exec(w, Inner, AtJoin.path, [], s);
    es := ExecCall(w, CallS, AtS, f.scope);
    if !w.halt(AtJoin) { SecondLeaf(w, f.scope, es); }
  }

  lemma SecondLeaf(w: World, s: Scope, es: Eff)
    requires es == ExecCall(w, CallS, AtS, s) && es.st.Suspended?
    ensures ExecFrom(w, Left, 1, [0, 0], [], s) == es
  {
    hide ExecCall;
    assert [0, 0] + [1] == AtS.path;
    assert Exec(w, Left[1], AtS.path, [], s) == es;
  }

  lemma MainRun(w: World, s: Scope, ea: Eff, eg: Eff) returns (es: Eff)
    requires ea == ExecCall(w, CallA, AtA, s) && ea.st.Running?
    requires eg == ExecCall(w, CallG, AtG, s) && (eg.st.Running? || eg.st.Suspended?)
    requires !w.halt(AtJoin) ==> forall t: Scope :: ExecCall(w, CallS, AtS, t).st.Suspended?
    ensures exists t: Scope :: es == ExecCall(w, CallS, AtS, t)
    ensures var f := ExecFrom(w, ForkProgram.body, 0, [], [], s);
            && f.st.Suspended?
            && forall x :: x in f.tr <==> x in ea.tr || x in eg.tr || (!w.halt(AtJoin) && x in es.tr)
  {
    hide ExecCall;
    es := LeftRun(w, s, ea);
    assert [0] + [0] == [0, 0] && [0] + [1] == [0, 1] && [0, 1] + [0] == AtG.path && [] + [0] == [0];
    OneLeaf(w, CallG, [0, 1], AtG, s);
    hide ExecFrom, Exec;
    TwoThreads(w, s, ExecFrom(w, Left, 0, [0, 0], [], s), ExecFrom(w, [Node.Invoke(CallG)], 0, [0, 1], [], s));
  }

  lemma TwoThreads(w: World, s: Scope, e: Eff, f: Eff)
    requires e == ExecFrom(w, Left, 0, [0, 0], [], s) && e.st.Suspended?
    requires f == ExecFrom(w, [Node.Invoke(CallG)], 0, [0, 1], [], s) && (f.st.Running? || f.st.Suspended?)
    ensures var g := ExecFrom(w, ForkProgram.body, 0, [], [], s);
            g.st.Suspended? && forall x :: x in g.tr <==> x in e.tr || x in f.tr
  {
    assert [0] + [0] == [0, 0] && [0] + [1] == [0, 1] && [] + [0] == [0];
    var none := Par(None, false, map[], []);
    var r := AddThread(Outer, 1, f, none, w.merge(Addr([0, 1], [])));
    var t := AddThread(Outer, 0, e, r, w.merge(Addr([0, 0], [])));
    OuterThreads(w, s, e, f);
    ShuffleMembers(f.tr, [], w.merge(Addr([0, 1], [])));
    ShuffleMembers(e.tr, r.tr, w.merge(Addr([0, 0], [])));
    OuterJoin(w, s, t);
  }

  lemma OuterThreads(w: World, s: Scope, e: Eff, f: Eff)
    requires e == ExecFrom(w, Left, 0, [0, 0], [], s) && f == ExecFrom(w, [Node.Invoke(CallG)], 0, [0, 1], [], s)
    ensures var r := AddThread(Outer, 1, f, Par(None, false, map[], []), w.merge(Addr([0, 1], [])));
            Threads(w, Outer, [], 0, [0], [], s) == AddThread(Outer, 0, e, r, w.merge(Addr([0, 0], [])))
  {
    hide ExecFrom, AddThread;
    assert [0] + [0] == [0, 0] && [0] + [1] == [0, 1];
    assert Threads(w, Outer, [], 2, [0], [], s) == Par(None, false, map[], []);
    assert ThreadNodes(Outer, 1) == [Node.Invoke(CallG)] && ThreadNodes(Outer, 0) == Left;
  }

  lemma OuterJoin(w: World, s: Scope, t: Par)
    requires t == Threads(w, Outer, [], 0, [0], [], s) && t.err.None? && t.susp
    ensures ExecFrom(w, ForkProgram.body, 0, [], [], s) == Eff(s, Suspended, t.tr)
  {
    hide Threads;
    assert [] + [0] == [0];
    assert Exec(w, ForkProgram.body[0], [0], [], s) == Join(w, Addr([0], []), s, t);
  }

  lemma RootRun(approved: bool, late: bool, v: Level)
    requires Cold(ForkScene, v) && (late || v.frame.None?)
    ensures Pauses(ForkScene, approved, late, v)
  {
    hide ExecCall, ExecFrom, Answer, ParamScope;
    var c := CycleOf(ForkScene, approved, late);
    var w, s := WorldAt(Deployed(), c, v), ParamScope(v.prog.params, v.input);
    OwnLeaf(c, v, CallA, AtA);
    OwnLeaf(c, v, CallG, AtG);
    StepAnswers(w, CallA, AtA, s);
    var ea := ExecCall(w, CallA, AtA, s);
    if approved { StepAnswers(w, CallG, AtG, s); } else { LeafPauses(w, CallG, AtG, s); }
    var eg := ExecCall(w, CallG, AtG, s);
    if !late { EntersAfresh(ForkScene, approved, late, v); }
    forall t: Scope | !late ensures ExecCall(w, CallS, AtS, t).st.Suspended? { LeafPauses(w, CallS, AtS, t); }
    var es := MainRun(w, s, ea, eg);
    var t: Scope :| es == ExecCall(w, CallS, AtS, t);
    if !late {
      LeafPauses(w, CallS, AtS, t);
      assert es.tr[1] == Called(Site("s", AtS), CallS, map[]) && es.tr[2] == Gate(Site("s", AtS));
    }
    assert !approved ==> eg.st.Suspended? && eg.tr[2] == Gate(Site("g", AtG));
    CallFits(w, CallA, AtA, s);
    CallFits(w, CallG, AtG, s);
    assert AtA != AtS && AtG != AtS;
  }

  /** A subworkflow behind a join inside a thread loses its frame and repeats an inner effect. */
  lemma InnerEffectRepeated()
    ensures EffectRepeated(ForkScene)
  {
    hide Pauses, Cold;
    forall approved, late, v | Cold(ForkScene, v)
    && (late || v.frame.None?) ensures Pauses(ForkScene, approved, late, v) {
      RootRun(approved, late, v);
    }
    WorksRepeats(ForkScene);
  }

  /** The code can hold that join back: it is inside a thread. */
  lemma LateIsPlausible(v: Level)
    requires Cold(ForkScene, v)
    ensures Prompt.Plausible(WorldAt(Deployed(), CycleOf(ForkScene, false, true), v), v.prog, v.input)
  {
    hide Run, Answer;
    var w := WorldAt(Deployed(), CycleOf(ForkScene, false, true), v);
    var gates := Prompt.GatesOf(Run(w, v.prog, v.input).tr);
    forall a: Addr | w.halt(a) ensures Prompt.HoldsAmong(gates, ForkProgram.body, true, [], a) {
      assert a == AtJoin;
      assert [0] + [0] == [0, 0] && [0, 0] + [0] == AtJoin.path && [] + [0] == [0];
      assert Prompt.Holds(gates, Inner, false, AtJoin.path, a);
      assert Prompt.HoldsAmong(gates, Left, false, [0, 0], a);
      assert Prompt.Holds(gates, Outer, true, [0], a);
    }
  }
}
