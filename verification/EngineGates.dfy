/** The checkpoints of engine cycles hold one gate: the frames and gates that a paused run leaves
    are those its leaves' slot operations leave, so `Slots.CheckpointHoldsOneGate` speaks of runs. */
module EngineGates {
  import opened Values
  import opened ExecIR
  import opened Eval
  import opened Interp
  import opened Accounting
  import opened Engine
  import Slots

  /** The leaf at this key, not an InvokeWorkflow, paused at this level. */
  ghost predicate PausedLeafAt(d: Deployment, c: Cycle, v: Level, site: Site) {
    Gate(site) in RunAt(d, c, v).tr && exists call, args ::
                                         Called(site, call, args) in RunAt(d, c, v).tr && !call.Workflow?
  }

  /** All slot operations of this level in the order they happened: frames as in `Performed`, one
      gate per leaf that paused, and `gate` names the first. */
  ghost predicate Recounts(d: Deployment, c: Cycle, v: Level, ops: seq<Slots.Op>) {
    && Performed(d, c, v, ops)
    && (forall op | op in ops && op.Raise? :: PausedLeafAt(d, c, v, op.gate.key))
    && (forall site | PausedLeafAt(d, c, v, site) :: exists g: Slots.Gate :: g.key == site && Slots.Raise(g) in ops)
    && c.gate(v.chain) == Slots.FirstRaise(ops)
  }

  /** At this level and in every subworkflow it enters, the cycle recounts its slot operations,
      and a pause has a leaf that paused. */
  ghost predicate Recounted(d: Deployment, c: Cycle, v: Level)
    decreases v.depth
  {
    && (exists ops :: Recounts(d, c, v, ops))
    && (RunAt(d, c, v).st.Suspended? ==> exists site :: Gate(site) in RunAt(d, c, v).tr)
    && forall site: Site, call, args |
         Called(site, call, args) in RunAt(d, c, v).tr && call.Workflow? && Enter(d, v, call, site.at, args).Some? ::
           Recounted(d, c, Enter(d, v, call, site.at, args).value)
  }

  /** The gate a level presents: none beside a frame. */
  function Presented(d: Deployment, c: Cycle, v: Level): Option<Slots.Gate> {
    if Keep(d, c, v).frame.None? then c.gate(v.chain) else None
  }

  lemma HasRaise(ops: seq<Slots.Op>, g: Slots.Gate)
    requires Slots.Raise(g) in ops
    ensures Slots.FirstRaise(ops).Some?
    decreases |ops|
  {
    if ops[|ops| - 1] != Slots.Raise(g) { HasRaise(ops[..|ops| - 1], g); }
  }

  /** A leaf that paused raised a gate or recorded a frame. */
  lemma PauseHasCause(d: Deployment, c: Cycle, v: Level, ops: seq<Slots.Op>, site: Site)
    requires Recounts(d, c, v, ops) && Gate(site) in RunAt(d, c, v).tr
    ensures Slots.FirstNest(ops).Some? || Slots.FirstRaise(ops).Some?
  {
    hide Run, FrameOf, Enter, Keep, Slots.FirstNest, Slots.FirstRaise, LeafAmong;
    var call, args := LevelGate(d, c, v, site);
    hide RunAt;
    LeafCalled(d, c, v, site, call, args);
    if call.Workflow? {
      var u := Enter(d, v, call, site.at, args).value;
      FrameKey(d, c, u, site, call.workflow);
      assert FrameOfLeaf(d, c, v, FrameOf(d, c, u, site, call.workflow));
      SomeNest(ops, FrameOf(d, c, u, site, call.workflow));
    } else {
      assert PausedLeafAt(d, c, v, site);
      var g: Slots.Gate :| g.key == site && Slots.Raise(g) in ops;
      HasRaise(ops, g);
    }
  }

  lemma LevelGate(d: Deployment, c: Cycle, v: Level, site: Site) returns (call: Call, args: Scope)
    requires Gate(site) in RunAt(d, c, v).tr
    ensures Called(site, call, args) in RunAt(d, c, v).tr && Answer(d, c, v, call, site.at, args).Suspend?
  {
    hide Run, Answer;
    var w := WorldAt(d, c, v);
    call, args := GateWasCalled(w, v.prog, v.input, site);
    assert w.oracle(call, site.at, args) == Answer(d, c, v, call, site.at, args);
  }

  /** A paused level leaves what its slots hold. */
  lemma LeavesItsSlots(d: Deployment, c: Cycle, v: Level, ops: seq<Slots.Op>)
    requires Recounts(d, c, v, ops) && RunAt(d, c, v).st.Suspended? && exists site :: Gate(site) in RunAt(d, c, v).tr
    ensures Slots.LeavesSlots(None, v.frame, ops, Presented(d, c, v), Keep(d, c, v).frame)
  {
    hide RunAt, Keep, Slots.After, Slots.FirstNest, Slots.FirstRaise, Slots.SuspendedCycle, Performed;
    var site :| Gate(site) in RunAt(d, c, v).tr;
    PauseHasCause(d, c, v, ops, site);
    Slots.CausesSuspend(None, v.frame, ops);
    Slots.FirstGateIsPresented(None, v.frame, ops);
    SlotsHoldTheFrame(d, c, v, None, ops);
  }

  /** The frame a paused level leaves is genuine, down to the innermost. */
  lemma {:induction false} FramesAreGenuine(d: Deployment, c: Cycle, v: Level)
    requires Recounted(d, c, v) && RunAt(d, c, v).st.Suspended? && Keep(d, c, v).frame.Some?
    ensures Slots.Genuine(Keep(d, c, v).frame.value)
    decreases v.depth
  {
    hide RunAt, Keep, Enter, FrameOf, Recounts, Slots.LeavesSlots;
    var site, call, args := FrameFrom(d, c, v);
    var u := Enter(d, v, call, site.at, args).value;
    assert Recounted(d, c, u);
    var ops :| Recounts(d, c, u, ops);
    LeavesItsSlots(d, c, u, ops);
    FrameHolds(d, c, u, site, call.workflow);
    if Keep(d, c, u).frame.Some? { FramesAreGenuine(d, c, u); }
  }

  lemma FrameHolds(d: Deployment, c: Cycle, u: Level, site: Site, callee: string)
    ensures FrameOf(d, c, u, site, callee).pending == Presented(d, c, u)
            && FrameOf(d, c, u, site, callee).child == Keep(d, c, u).frame
  {
    hide Keep;
  }

  /** The checkpoint a paused cycle of the root run writes is one that slots leave, and its chain
      of frames holds exactly one pending gate. */
  lemma CheckpointIsWritten(d: Deployment, c: Cycle, v: Level)
    requires Recounted(d, c, v) && RunAt(d, c, v).st.Suspended?
    ensures var point := Slots.Checkpoint(Presented(d, c, v), Keep(d, c, v).frame);
            Slots.Written(point) && |Slots.Gates(point)| == 1
  {
    hide RunAt, Keep, Enter, Recounts, Slots.LeavesSlots, Slots.Genuine;
    var ops :| Recounts(d, c, v, ops);
    LeavesItsSlots(d, c, v, ops);
    if Keep(d, c, v).frame.Some? { FramesAreGenuine(d, c, v); }
    Slots.CheckpointHoldsOneGate(Slots.Checkpoint(Presented(d, c, v), Keep(d, c, v).frame));
  }
}
