/** A graph whose second cycle drops a frame and whose third repeats an inner call: step s
    invokes a subworkflow and needs step a, beside a gated step g. Scheduling stops at g's
    pause (internal/execir/interp.go trySchedule), so in the second cycle s is never started. */
module DroppedFrame {
  import opened Values
  import opened ExecIR
  import opened Eval
  import opened GraphOrder
  import opened Interp
  import opened Addressing
  import opened Engine
  import opened LostFrame
  import GraphScheduler
  import Prompt

  const Nodes: seq<GraphNode> := [GraphNode("a", [], CallA), GraphNode("g", [], CallG), GraphNode("s", ["a"], CallS)]
  const MainProgram: Program := Program("main", [], [Node.Graph(Nodes)])
  const AtA: Addr := Addr([0, 0], [])
  const AtG: Addr := Addr([0, 1], [])
  const AtS: Addr := Addr([0, 2], [])
  const GraphScene: Scene := Scene(MainProgram, AtG, AtS, AtS)

  // ----- the graph

  lemma SortedNodes()
    ensures Sorted(Nodes) == Nodes && Topo(Nodes, {}) == [0, 1, 2]
  {
    assert StrLess("a", "g") && StrLess("g", "s") && !StrLess("g", "a") && !StrLess("s", "g");
    assert Nodes[1..] == [Nodes[1], Nodes[2]] && Nodes[1..][1..] == [Nodes[2]] && Nodes[1..][1..][1..] == [];
    assert Sorted([Nodes[2]]) == [Nodes[2]];
    assert Sorted(Nodes[1..]) == [Nodes[1], Nodes[2]];
    TopoNodes();
  }

  lemma TopoNodes()
    ensures Topo(Nodes, {}) == [0, 1, 2]
  {
    hide IdsOf;
    var d1, d2, d3 := {"a"}, {"a", "g"}, {"a", "g", "s"};
    assert FirstReady(Nodes, {}, 0) == Some(0);
    assert FirstReady(Nodes, d1, 0) == FirstReady(Nodes, d1, 1) == Some(1);
    assert FirstReady(Nodes, d2, 0) == FirstReady(Nodes, d2, 1) == FirstReady(Nodes, d2, 2) == Some(2);
    assert FirstReady(Nodes, d3, 0).None?;
    hide FirstReady;
    assert {} + {"a"} == d1 && d1 + {"g"} == d2 && d2 + {"s"} == d3;
    assert Topo(Nodes, d3) == [];
    assert Topo(Nodes, d2) == [2] + Topo(Nodes, d3);
    assert Topo(Nodes, d1) == [1] + Topo(Nodes, d2);
    assert Topo(Nodes, {}) == [0] + Topo(Nodes, d1);
  }

  /** The graph when a answers: it pauses, and its operations are those of a, g and, unless s
      is held back, s. */
  ghost predicate GraphSteps(w: World, s: Scope, ea: Eff, eg: Eff, es: Eff) {
    var s1 := StepScope("a", s, ea);
    && ea == ExecCall(w, CallA, AtA, s) && ea.st.Running? && !w.halt(AtA) && !w.halt(AtG)
    && eg == ExecCall(w, CallG, AtG, s1) && (eg.st.Running? || eg.st.Suspended?)
    && es == ExecCall(w, CallS, AtS, StepScope("g", s1, eg)) && (w.halt(AtS) || es.st.Suspended?)
  }

  lemma StepS(w: World, s: Scope, done: set<string>, es: Eff)
    requires "a" in done && es == ExecCall(w, CallS, AtS, s) && (w.halt(AtS) || es.st.Suspended?)
    ensures var r := Steps(w, Nodes, [2], [0], [], s, done);
            r.err.None? && !r.cut && r.susp && r.tr == if w.halt(AtS) then [] else es.tr
  {
    hide ExecCall;
    assert [0] + [2] == AtS.path && [2][1..] == [];
    assert Nodes[2].needs == ["a"];
  }

  lemma StepG(w: World, s: Scope, done: set<string>, eg: Eff, es: Eff)
    requires "a" in done && !w.halt(AtG) && eg == ExecCall(w, CallG, AtG, s) && (eg.st.Running? || eg.st.Suspended?)
    requires es == ExecCall(w, CallS, AtS, StepScope("g", s, eg)) && (w.halt(AtS) || es.st.Suspended?)
    ensures var r := Steps(w, Nodes, [1, 2], [0], [], s, done);
            r.err.None? && !r.cut && r.susp && forall x :: x in r.tr <==> x in eg.tr || (!w.halt(AtS) && x in es.tr)
  {
    hide ExecCall, StepScope;
    assert [0] + [1] == AtG.path && [1, 2][1..] == [2];
    var s', done' := StepScope("g", s, eg), StepDone("g", done, eg);
    StepS(w, s', done', es);
    var r := Steps(w, Nodes, [2], [0], [], s', done');
    ShuffleMembers(eg.tr, r.tr, w.merge(AtG));
    assert Steps(w, Nodes, [1, 2], [0], [], s, done) == AddStep(eg, r, w.merge(AtG));
  }

  lemma GraphPauses(w: World, s: Scope, ea: Eff, eg: Eff, es: Eff)
    requires GraphSteps(w, s, ea, eg, es)
    ensures var r := Steps(w, Nodes, [0, 1, 2], [0], [], s, {});
            && r.err.None? && !r.cut && r.susp
            && forall x :: x in r.tr <==> x in ea.tr || x in eg.tr || (!w.halt(AtS) && x in es.tr)
  {
    hide ExecCall, StepScope;
    assert [0] + [0] == AtA.path && [0, 1, 2][1..] == [1, 2];
    var s', done' := StepScope("a", s, ea), StepDone("a", {}, ea);
    StepG(w, s', done', eg, es);
    var r := Steps(w, Nodes, [1, 2], [0], [], s', done');
    ShuffleMembers(ea.tr, r.tr, w.merge(AtA));
    assert Steps(w, Nodes, [0, 1, 2], [0], [], s, {}) == AddStep(ea, r, w.merge(AtA));
  }

  lemma MainPauses(w: World, s: Scope, ea: Eff, eg: Eff, es: Eff)
    requires GraphSteps(w, s, ea, eg, es)
    ensures var e := ExecFrom(w, MainProgram.body, 0, [], [], s);
            e.st.Suspended? && forall x :: x in e.tr <==> x in ea.tr || x in eg.tr || (!w.halt(AtS) && x in es.tr)
  {
    hide ExecCall, StepScope, Sorted, Topo, Steps, GraphSteps;
    SortedNodes();
    GraphPauses(w, s, ea, eg, es);
    assert [] + [0] == [0];
    assert Exec(w, MainProgram.body[0], [] + [0], [], s) == ExecGraph(w, Nodes, [0], [], s);
  }

  // ----- the cycles

  lemma RootRun(approved: bool, late: bool, v: Level)
    requires Cold(GraphScene, v) && (late || v.frame.None?)
    ensures Pauses(GraphScene, approved, late, v)
  {
    hide ExecCall, ExecFrom, Answer, ParamScope;
    var c := CycleOf(GraphScene, approved, late);
    var w, s := WorldAt(Deployed(), c, v), ParamScope(v.prog.params, v.input);
    OwnLeaf(c, v, CallA, AtA);
    OwnLeaf(c, v, CallG, AtG);
    StepAnswers(w, CallA, AtA, s);
    var ea := ExecCall(w, CallA, AtA, s);
    var s1 := StepScope("a", s, ea);
    if approved { StepAnswers(w, CallG, AtG, s1); } else { LeafPauses(w, CallG, AtG, s1); }
    var eg := ExecCall(w, CallG, AtG, s1);
    var es := ExecCall(w, CallS, AtS, StepScope("g", s1, eg));
    if !late {
      EntersAfresh(GraphScene, approved, late, v);
      LeafPauses(w, CallS, AtS, StepScope("g", s1, eg));
      assert es.tr[1] == Called(Site("s", AtS), CallS, map[]) && es.tr[2] == Gate(Site("s", AtS));
    }
    assert !approved ==> eg.st.Suspended? && eg.tr[2] == Gate(Site("g", AtG));
    MainPauses(w, s, ea, eg, es);
    CallFits(w, CallA, AtA, s);
    CallFits(w, CallG, AtG, s1);
    assert AtA != AtS && AtG != AtS;
  }

  /** The claim in `Engine.NoInnerEffectIsRepeated` is needed: a subworkflow in a graph step with
      needs loses its frame and repeats an inner effect. */
  lemma InnerEffectRepeated()
    ensures EffectRepeated(GraphScene)
  {
    hide Pauses, Cold;
    forall approved, late, v | Cold(GraphScene, v)
    && (late || v.frame.None?) ensures Pauses(GraphScene, approved, late, v) {
      RootRun(approved, late, v);
    }
    WorksRepeats(GraphScene);
  }

  /** The code can hold that step back: it has needs, and its sibling g paused. */
  lemma LateIsPlausible(v: Level)
    requires Cold(GraphScene, v)
    ensures Prompt.Plausible(WorldAt(Deployed(), CycleOf(GraphScene, false, true), v), v.prog, v.input)
  {
    hide Run, Answer, Sorted;
    var w := WorldAt(Deployed(), CycleOf(GraphScene, false, true), v);
    var gates := Prompt.GatesOf(Run(w, v.prog, v.input).tr);
    RootRun(false, true, v);
    SortedNodes();
    forall a: Addr | w.halt(a) ensures Prompt.HoldsAmong(gates, MainProgram.body, true, [], a) {
      assert a == AtS && [0] + [1] == AtG.path && [] + [0] == [0];
      assert Nodes[1].run.bind == "g" && Site("g", Addr([0] + [1], a.loop)) in gates;
      assert Prompt.SiblingPaused(gates, Nodes, [0], a.loop);
      assert Prompt.Holds(gates, Node.Graph(Nodes), true, [0], a);
    }
  }

  // ----- the scheduler does this

  function TheDag(w: World, s: Scope): GraphScheduler.Dag {
    GraphScheduler.Dag(w, Nodes, [0], [], s, 2)
  }

  const Held: seq<GraphScheduler.Event> :=
    [GraphScheduler.Begin(1), GraphScheduler.Finish(1), GraphScheduler.Wake, GraphScheduler.Begin(0),
        GraphScheduler.Finish(0)]

  lemma FirstLaunch(w: World, s: Scope)
    ensures var st := GraphScheduler.Init(TheDag(w, s));
            && st.running == map[0 := GraphScheduler.Queued, 1 := GraphScheduler.Queued] && st.launched == {0, 1}
            && st.scope == s && st.completed == {} && st.err.None? && !st.susp && !st.exited && st.tokens == 0
  {
    var g := TheDag(w, s);
    var none := GraphScheduler.State(s, {}, map[], None, false, false, 0, {}, [], map[], map[]);
    assert Nodes[2].needs[0] == "a" && Nodes[0].needs == [] && Nodes[1].needs == [];
    assert GraphScheduler.Runnable(g, none, 0) && GraphScheduler.Runnable(g, none, 1)
           && !GraphScheduler.Runnable(g, none, 2);
    var now := set i: nat | i < |g.gs| && GraphScheduler.Runnable(g, none, i);
    assert now == {0, 1};
    assert map[] + GraphScheduler.Launch(now) == map[0 := GraphScheduler.Queued, 1 := GraphScheduler.Queued];
    assert {} + now == {0, 1};
  }

  lemma OneEvent(g: GraphScheduler.Dag, evs: seq<GraphScheduler.Event>, ev: GraphScheduler.Event)
    requires GraphScheduler.After(g, evs).Some?
    ensures GraphScheduler.After(g, evs + [ev]) == GraphScheduler.Step(g, GraphScheduler.After(g, evs).value, ev)
  {
    assert (evs + [ev])[..|evs|] == evs;
  }

  lemma GPauses(w: World, s: Scope, st: GraphScheduler.State)
    requires ExecCall(w, CallG, AtG, s).st.Suspended? && st == GraphScheduler.Init(TheDag(w, s))
    ensures var g := TheDag(w, s);
            && GraphScheduler.Step(g, st, GraphScheduler.Begin(1)).Some?
            && var t := GraphScheduler.Step(g, st, GraphScheduler.Begin(1)).value;
               && GraphScheduler.Step(g, t, GraphScheduler.Finish(1)).Some?
               && var u := GraphScheduler.Step(g, t, GraphScheduler.Finish(1)).value;
                  && u.running == map[0 := GraphScheduler.Queued] && u.launched == {0, 1} && u.scope == s
                     && u.completed == {}
                  && u.err.None? && u.susp && !u.exited && u.tokens == 1
  {
    hide ExecCall, GraphScheduler.Init;
    FirstLaunch(w, s);
    assert GraphScheduler.Executors(st) == {};
    assert [0] + [1] == AtG.path;
    var t := GraphScheduler.Step(TheDag(w, s), st, GraphScheduler.Begin(1)).value;
    var u := GraphScheduler.Step(TheDag(w, s), t, GraphScheduler.Finish(1)).value;
    assert u.running == map[0 := GraphScheduler.Queued];
  }

  lemma LoopStops(w: World, s: Scope, st: GraphScheduler.State)
    requires st.running == map[0 := GraphScheduler.Queued] && st.launched == {0, 1} && st.scope == s && st.err.None?
             && st.susp && !st.exited && st.tokens == 1
    ensures GraphScheduler.Step(TheDag(w, s), st, GraphScheduler.Wake) == Some(st.(tokens := 0, exited := true))
  {
  }

  lemma AEnds(w: World, s: Scope, st: GraphScheduler.State)
    requires ExecCall(w, CallA, AtA, s).st.Running?
    requires st.running == map[0 := GraphScheduler.Queued] && st.scope == s && st.launched == {0, 1} && st.err.None?
             && st.susp && st.exited
    ensures var g := TheDag(w, s);
            && GraphScheduler.Step(g, st, GraphScheduler.Begin(0)).Some?
            && var t := GraphScheduler.Step(g, st, GraphScheduler.Begin(0)).value;
               && GraphScheduler.Step(g, t, GraphScheduler.Finish(0)).Some?
               && var u := GraphScheduler.Step(g, t, GraphScheduler.Finish(0)).value;
                  u.running == map[] && u.launched == {0, 1} && u.err.None? && u.susp && u.exited
  {
    hide ExecCall, StepScope;
    assert GraphScheduler.Executors(st) == {};
    assert [0] + [0] == AtA.path;
    var t := GraphScheduler.Step(TheDag(w, s), st, GraphScheduler.Begin(0)).value;
    var u := GraphScheduler.Step(TheDag(w, s), t, GraphScheduler.Finish(0)).value;
    assert u.running == map[];
  }

  /** g takes its slot and pauses, the loop stops scheduling, a ends: s was never launched. */
  lemma ScheduleHoldsBack(w: World, s: Scope)
    requires ExecCall(w, CallA, AtA, s).st.Running? && ExecCall(w, CallG, AtG, s).st.Suspended?
    ensures var g := TheDag(w, s);
            && GraphScheduler.After(g, Held).Some?
            && var st := GraphScheduler.After(g, Held).value;
               GraphScheduler.Final(st) && GraphScheduler.Result(g, st) == GraphScheduler.Paused
               && st.launched == {0, 1}
  {
    hide ExecCall, GraphScheduler.After, GraphScheduler.Init, GraphScheduler.Step;
    var g := TheDag(w, s);
    NoEvents(g);
    GPauses(w, s, GraphScheduler.Init(g));
    var e1, e2, e3, e4 := Held[..1], Held[..2], Held[..3], Held[..4];
    assert e1 == [] + [Held[0]] && e2 == e1 + [Held[1]] && e3 == e2 + [Held[2]] && e4 == e3 + [Held[3]]
           && Held == e4 + [Held[4]];
    OneEvent(g, [], Held[0]);
    OneEvent(g, e1, Held[1]);
    LoopStops(w, s, GraphScheduler.After(g, e2).value);
    OneEvent(g, e2, Held[2]);
    AEnds(w, s, GraphScheduler.After(g, e3).value);
    OneEvent(g, e3, Held[3]);
    OneEvent(g, e4, Held[4]);
  }

  /** So the second cycle is one the scheduler can take: under its world some schedule of the
      graph pauses without ever launching s. */
  lemma SecondCycleIsASchedule(v: Level, s: Scope)
    requires Cold(GraphScene, v)
    ensures var g := TheDag(WorldAt(Deployed(), CycleOf(GraphScene, false, true), v), s);
            && GraphScheduler.After(g, Held).Some?
            && var st := GraphScheduler.After(g, Held).value;
               GraphScheduler.Final(st) && GraphScheduler.Result(g, st) == GraphScheduler.Paused
               && st.launched == {0, 1}
  {
    hide ExecCall, Answer, GraphScheduler.After;
    var c := CycleOf(GraphScene, false, true);
    var w := WorldAt(Deployed(), c, v);
    OwnLeaf(c, v, CallA, AtA);
    OwnLeaf(c, v, CallG, AtG);
    StepAnswers(w, CallA, AtA, s);
    LeafPauses(w, CallG, AtG, s);
    ScheduleHoldsBack(w, s);
  }

  lemma NoEvents(g: GraphScheduler.Dag)
    ensures GraphScheduler.After(g, []) == Some(GraphScheduler.Init(g))
  {
  }
}
