/** How a frame is lost and an inner effect repeated, whatever keeps the resume from the leaf: in
    the first cycle a subworkflow s pauses with a result t inside, in the second a gate g pauses
    before s is reached again, in the third g is approved. */
module LostFrame {
  import opened Values
  import opened ExecIR
  import opened Eval
  import opened Interp
  import opened Engine
  import JsonNum

  /** A program with the gated leaf g and the subworkflow s at these addresses, and the address
      at which a late cycle is held back. */
  datatype Scene = Scene(prog: Program, atG: Addr, atS: Addr, held: Addr)
  {
    function SiteG(): Site { Site("g", atG) }

    function SiteS(): Site { Site("s", atS) }
  }

  const CallA: Call := Call.Tool("a", "tool.x.a", map[])
  const CallG: Call := Call.Tool("g", "tool.x.g", map[])
  const CallS: Call := Call.Workflow("s", "sub", map[], false, false)
  const CallT: Call := Call.Tool("t", "tool.x.t", map[])
  const CallH: Call := Call.Approval("h", "", [], map[])
  const SubProgram: Program := Program("sub", [], [Node.Invoke(CallT), Node.Invoke(CallH)])
  const SiteT: Site := Site("t", Addr([0], []))
  const SiteH: Site := Site("h", Addr([1], []))

  function Deployed(): Deployment {
    Deployment(map["sub" := SubProgram], (_, _) => true, (_, _) => Some(Obj(map[])), 0, _ => "")
  }

  /** g waits for its decision until it is approved, h waits for ever, the rest answer. Where
      `late`, g pauses before s is reached. */
  function CycleOf(sc: Scene, approved: bool, late: bool): Cycle {
    Cycle(
      (_, call: Call, _, _) => if call == CallH || (call == CallG && !approved) then Suspend else Ok(Null),
      (chain, a) => late && chain == [] && a == sc.held,
      (_, _) => [],
      chain => if chain == [] then Some(sc.SiteS()) else None,
      _ => None)
  }

  function Cycles(sc: Scene): seq<Cycle> {
    [CycleOf(sc, false, false), CycleOf(sc, false, true), CycleOf(sc, true, false)]
  }

  function TheJob(sc: Scene): Job {
    Job(sc.prog, Null, 1)
  }

  // ----- the subworkflow

  lemma NoArgs(rn: Render, s: Scope)
    ensures EvalArgs(rn, s, map[]) == Some(map[])
  {
    var none: Args := map[];
    assert EvalArgs(rn, s, none).value == map[];
  }

  /** A leaf that answers null, with no arguments. */
  lemma LeafAnswers(w: World, call: Call, a: Addr, s: Scope)
    requires call.args == map[] && !call.Workflow? && Site(call.bind, a) !in w.memo
             && w.oracle(call, a, map[]) == Ok(Null)
    ensures var site := Site(call.bind, a);
            ExecCall(w, call, a, s) == Eff(BindTo(s, call.bind, Null), Running,
                [Get(site, None), Called(site, call, map[]), Put(site, Null)])
  {
    NoArgs(w.render, s);
  }

  lemma LeafPauses(w: World, call: Call, a: Addr, s: Scope)
    requires call.args == map[] && Site(call.bind, a) !in w.memo && w.oracle(call, a, map[]) == Suspend
    ensures var site := Site(call.bind, a);
            ExecCall(w, call, a, s) == Eff(s, Suspended, [Get(site, None), Called(site, call, map[]), Gate(site)])
  {
    NoArgs(w.render, s);
  }

  lemma OwnLeaf(c: Cycle, v: Level, call: Call, a: Addr)
    requires !call.Workflow?
    ensures WorldAt(Deployed(), c, v).oracle(call, a, map[]) == c.leaf(v.chain, call, a, map[])
  {
  }

  lemma TwoLeaves(w: World, s: Scope)
    requires var e := ExecCall(w, CallT, SiteT.at, s);
             e.st.Running? && ExecCall(w, CallH, SiteH.at, e.scope).st.Suspended?
    ensures var e := ExecCall(w, CallT, SiteT.at, s);
            ExecFrom(w, SubProgram.body, 0, [], [], s) == Prefix(e.tr, ExecCall(w, CallH, SiteH.at, e.scope))
  {
    hide ExecCall;
    var e, body := ExecCall(w, CallT, SiteT.at, s), SubProgram.body;
    assert [] + [0] == SiteT.at.path && [] + [1] == SiteH.at.path;
    assert Exec(w, body[0], [] + [0], [], s) == e;
    assert Exec(w, body[1], [] + [1], [], e.scope) == ExecCall(w, CallH, SiteH.at, e.scope);
    assert ExecFrom(w, body, 1, [], [], e.scope) == ExecCall(w, CallH, SiteH.at, e.scope);
  }

  /** Unseeded, the subworkflow calls t and pauses at h. */
  lemma SubRun(c: Cycle, u: Level)
    requires u.prog == SubProgram && u.memo == map[]
    requires c.leaf(u.chain, CallT, SiteT.at, map[]) == Ok(Null) && c.leaf(u.chain, CallH, SiteH.at, map[]) == Suspend
    ensures var e := RunAt(Deployed(), c, u);
            e.st.Suspended? && Called(SiteT, CallT, map[]) in e.tr && Put(SiteT, Null) in e.tr
  {
    hide Answer, ExecCall, ParamScope, ExecFrom;
    var w, s := WorldAt(Deployed(), c, u), ParamScope(u.prog.params, u.input);
    OwnLeaf(c, u, CallT, SiteT.at);
    OwnLeaf(c, u, CallH, SiteH.at);
    LeafAnswers(w, CallT, SiteT.at, s);
    var e := ExecCall(w, CallT, SiteT.at, s);
    LeafPauses(w, CallH, SiteH.at, e.scope);
    TwoLeaves(w, s);
    assert e.tr[1] == Called(SiteT, CallT, map[]) && e.tr[2] == Put(SiteT, Null);
  }

  lemma StepAnswers(w: World, call: Call, a: Addr, s: Scope)
    requires call.args == map[] && !call.Workflow? && w.oracle(call, a, map[]) == Ok(Null)
    ensures ExecCall(w, call, a, s).st.Running?
  {
    NoArgs(w.render, s);
  }

  /** Unseeded, leaf s enters the subworkflow afresh and pauses. */
  lemma EntersAfresh(sc: Scene, approved: bool, late: bool, v: Level)
    requires v.chain == [] && v.depth == 1 && v.frame.None?
    ensures var d, c := Deployed(), CycleOf(sc, approved, late);
            && Enter(d, v, CallS, sc.atS, map[]).Some?
            && var u := Enter(d, v, CallS, sc.atS, map[]).value;
               && RunAt(d, c, u).st.Suspended?
               && Called(SiteT, CallT, map[]) in RunAt(d, c, u).tr && Put(SiteT, Null) in RunAt(d, c, u).tr
               && Answer(d, c, v, CallS, sc.atS, map[]) == Suspend
  {
    hide RunAt;
    var d, c := Deployed(), CycleOf(sc, approved, late);
    var none: map<string, Val> := map[];
    assert JsonNum.Canonical(Obj(none)) == Some(Obj(none)) by {
      assert JsonNum.CanonicalAt(Obj(none), 0).value.m == none;
    }
    assert InputOf(CallS, none) == Some(Obj(none));
    var u := Enter(d, v, CallS, sc.atS, none).value;
    SubRun(c, u);
  }

  // ----- the cycles

  ghost predicate Cold(sc: Scene, v: Level) {
    v.prog == sc.prog && v.chain == [] && v.depth == 1 && sc.SiteG() !in v.memo && sc.SiteS() !in v.memo
  }

  /** A cycle of the root: it pauses, and calls s exactly when it is not held back. */
  ghost predicate Pauses(sc: Scene, approved: bool, late: bool, v: Level) {
    var e := RunAt(Deployed(), CycleOf(sc, approved, late), v);
    && e.st.Suspended?
    && (!approved ==> Gate(sc.SiteG()) in e.tr)
    && (!late ==> Gate(sc.SiteS()) in e.tr && Called(sc.SiteS(), CallS, map[]) in e.tr)
    && (late ==> forall call, args :: Called(sc.SiteS(), call, args) !in e.tr)
  }

  ghost predicate Works(sc: Scene) {
    forall approved, late, v | Cold(sc, v) && (late || v.frame.None?) :: Pauses(sc, approved, late, v)
  }

  /** After a cycle in which g pauses, g and s still have no result. */
  lemma StaysCold(sc: Scene, late: bool, v: Level)
    requires Works(sc) && Cold(sc, v) && (late || v.frame.None?)
    ensures var k := Keep(Deployed(), CycleOf(sc, false, late), v);
            && Cold(sc, Root(TheJob(sc), k)) && (late ==> k.frame.None?)
  {
    hide RunAt, Keep;
    var d, c := Deployed(), CycleOf(sc, false, late);
    assert Pauses(sc, false, late, v);
    PausedUnrecorded(d, c, v, sc.SiteG());
    if late {
      NotReached(d, c, v, sc.SiteS());
      if Keep(d, c, v).frame.Some? { var site, call, args := FrameFrom(d, c, v); }
    } else {
      PausedUnrecorded(d, c, v, sc.SiteS());
    }
  }

  lemma CallsInner(sc: Scene, approved: bool, v: Level)
    requires Works(sc) && Cold(sc, v) && v.frame.None?
    ensures var d, c := Deployed(), CycleOf(sc, approved, false);
            && Calls(d, c, v, [sc.SiteS(), SiteT]) && Records(d, c, v, [sc.SiteS(), SiteT])
               && RunAt(d, c, v).st.Suspended?
  {
    hide RunAt, Enter;
    var d, c := Deployed(), CycleOf(sc, approved, false);
    assert Pauses(sc, approved, false, v);
    EntersAfresh(sc, approved, false, v);
    var u := Enter(d, v, CallS, sc.atS, map[]).value;
    var inner, chain := [SiteT], [sc.SiteS(), SiteT];
    assert inner[0] == SiteT && |inner| == 1 && chain[0] == sc.SiteS() && chain[1..] == inner;
    assert Called(inner[0], CallT, map[]) in RunAt(d, c, u).tr && Put(inner[0], Null) in RunAt(d, c, u).tr;
    assert Calls(d, c, u, inner) && Records(d, c, u, inner);
    assert Called(chain[0], CallS, map[]) in RunAt(d, c, v).tr;
  }

  /** t's result was recorded in the first of three paused cycles and left in a frame, the second
      does not claim the frame and loses it, and the third calls t again. */
  ghost predicate EffectRepeated(sc: Scene) {
    var d, job, cs := Deployed(), TheJob(sc), Cycles(sc);
    && Paused(d, job, cs, 3) && (forall i :: 0 <= i < 3 ==> Uncancelled(cs[i]))
    && Records(d, cs[0], LevelOf(d, job, cs, 0), [sc.SiteS(), SiteT])
    && LevelOf(d, job, cs, 1).frame.Some? && LevelOf(d, job, cs, 1).frame.value.key == sc.SiteS()
    && !AllClaimed(d, cs[1], LevelOf(d, job, cs, 1))
    && LevelOf(d, job, cs, 2).frame.None?
    && Calls(d, cs[2], LevelOf(d, job, cs, 2), [sc.SiteS(), SiteT])
  }

  lemma WorksRepeats(sc: Scene)
    requires Works(sc)
    ensures EffectRepeated(sc)
  {
    hide RunAt, Enter, Keep, CycleOf, Cold, Calls, Records, Works;
    var d, job, cs := Deployed(), TheJob(sc), Cycles(sc);
    var v0, v1, v2 := LevelOf(d, job, cs, 0), LevelOf(d, job, cs, 1), LevelOf(d, job, cs, 2);
    assert cs[..0] == [];
    StartsCold(sc);
    CallsInner(sc, false, v0);
    StaysCold(sc, false, v0);
    NextLevel(d, job, cs, 0);
    AnswersAll(sc, false, false);
    FrameLeft(sc, v0, v1);
    StaysCold(sc, true, v1);
    LatePauses(sc, v1);
    NextLevel(d, job, cs, 1);
    AnswersAll(sc, false, true);
    CallsInner(sc, true, v2);
    AnswersAll(sc, true, false);
  }

  lemma StartsCold(sc: Scene)
    ensures var v := LevelOf(Deployed(), TheJob(sc), Cycles(sc), 0); Cold(sc, v) && v.frame.None?
  {
    assert Cycles(sc)[..0] == [];
  }

  lemma AnswersAll(sc: Scene, approved: bool, late: bool)
    ensures Uncancelled(CycleOf(sc, approved, late))
  {
  }

  lemma LatePauses(sc: Scene, v: Level)
    requires Works(sc) && Cold(sc, v) && v.frame.Some? && v.frame.value.key == sc.SiteS()
    ensures RunAt(Deployed(), CycleOf(sc, false, true), v).st.Suspended?
            && !AllClaimed(Deployed(), CycleOf(sc, false, true), v)
  {
    hide RunAt, Enter;
    assert Pauses(sc, false, true, v);
  }

  lemma FrameLeft(sc: Scene, v0: Level, v1: Level)
    requires Works(sc) && Cold(sc, v0) && v0.frame.None? && Cold(sc, v1)
    requires v1 == Root(TheJob(sc), Keep(Deployed(), CycleOf(sc, false, false), v0))
    ensures v1.frame.Some? && v1.frame.value.key == sc.SiteS()
  {
    hide RunAt, Enter, Keep, Records, Works;
    CallsInner(sc, false, v0);
    AnswersAll(sc, false, false);
    UncancelledUncut(Deployed(), CycleOf(sc, false, false), v0, [sc.SiteS(), SiteT]);
    RecordedIsGuardedIff(Deployed(), CycleOf(sc, false, false), v0, [sc.SiteS(), SiteT]);
  }
}
