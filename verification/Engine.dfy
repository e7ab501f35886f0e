/** Run cycles of the engine with nested workflows (internal/engine/execir_invoker.go): an
    InvokeWorkflow leaf runs its callee as a run of its own, seeded from the frame it claims,
    and a callee that pauses leaves a frame with its memo for the next cycle. */
module Engine {
  import opened Values
  import opened ExecIR
  import opened Eval
  import opened Interp
  import opened Addressing
  import opened Session
  import opened Accounting
  import JsonNum
  import Slots

  /** The deployed workflows: their programs, the input schema check, and the output document
      a return value becomes (None: no object). */
  datatype Deployment = Deployment(
    programs: map<string, Program>,
    accepts: (string, Val) -> bool,
    document: (string, Val) -> Option<Val>,
    maxLoop: int,
    render: Render)

  /** Everything one cycle does not decide itself, at every nesting level. A level is named by
      the chain of call keys of the InvokeWorkflow leaves around it. `slot` is the leaf whose
      frame was recorded first, `gate` the gate presented there. */
  datatype Cycle = Cycle(
    leaf: (seq<Site>, Call, Addr, Scope) -> Outcome,
    halt: (seq<Site>, Addr) -> bool,
    merge: (seq<Site>, Addr) -> seq<bool>,
    slot: seq<Site> -> Option<Site>,
    gate: seq<Site> -> Option<Slots.Gate>)

  /** One workflow run within a cycle, with its seeds and the nesting still allowed below. */
  datatype Level = Level(
    chain: seq<Site>,
    prog: Program,
    input: Val,
    memo: Memo,
    ctl: Control,
    frame: Option<Slots.Frame>,
    depth: nat)

  const UNKNOWN_WORKFLOW: int := 1
  const SECOND_SUBWORKFLOW: int := 2
  const BAD_OUTPUT: int := 3

  // ----- entering a subworkflow

  /** The document the callee gets: the canonical argument map, or its only value. */
  function InputOf(call: Call, args: Scope): Option<Val>
    requires call.Workflow?
  {
    match JsonNum.Canonical(Obj(args))
    case Some(Obj(m)) =>
      if !call.whole then Some(Obj(m))
      else if exists k :: k in m && m.Keys == {k} then var k :| k in m && m.Keys == {k}; Some(m[k])
      else None
    case _ => None
  }

  /** claimNestedSeed, and the check that the frame is the callee's. */
  predicate Claims(v: Level, call: Call, a: Addr)
    requires call.Workflow?
  {
    v.frame.Some? && v.frame.value.key == Site(call.bind, a) && v.frame.value.callee == call.workflow
  }

  /** The callee's run: resumed from the claimed frame, else from nothing. None when it cannot
      start (unknown workflow, nesting too deep, unfit arguments). */
  function Enter(d: Deployment, v: Level, call: Call, a: Addr, args: Scope): (u: Option<Level>)
    requires call.Workflow?
    ensures u.Some? ==> u.value.depth < v.depth
  {
    if call.workflow !in d.programs || v.depth == 0 then None
    else
      match InputOf(call, args)
      case None => None
      case Some(doc) =>
        if !d.accepts(call.workflow, doc) then None
        else
          var chain := v.chain + [Site(call.bind, a)];
          var prog := d.programs[call.workflow];
          if Claims(v, call, a) then
            var f := v.frame.value;
            Some(Level(chain, prog, if f.input == Null then doc else f.input, f.memo, f.ctl, f.child, v.depth - 1))
          else
            Some(Level(chain, prog, doc, map[], map[], None, v.depth - 1))
  }

  // ----- one cycle

  function WorldAt(d: Deployment, c: Cycle, v: Level): World
    decreases v.depth, 1
  {
    World(d.maxLoop, d.render, (call: Call, a: Addr, args: Scope) => Answer(d, c, v, call, a, args), v.memo, v.ctl,
          (a: Addr) => c.halt(v.chain, a), (a: Addr) => c.merge(v.chain, a))
  }

  function RunAt(d: Deployment, c: Cycle, v: Level): Eff
    decreases v.depth, 2
  {
    Run(WorldAt(d, c, v), v.prog, v.input)
  }

  /** What a leaf of level v is told. A callee that pauses pauses its caller if its frame got
      the slot; a second one in the same cycle fails instead. */
  function Answer(d: Deployment, c: Cycle, v: Level, call: Call, a: Addr, args: Scope): Outcome
    decreases v.depth, 0
  {
    if !call.Workflow? then c.leaf(v.chain, call, a, args)
    else
      match Enter(d, v, call, a, args)
      case None => Fail(CallFailed(UNKNOWN_WORKFLOW))
      case Some(u) =>
        match RunAt(d, c, u).st
        case Failed(e) => Fail(e)
        case Suspended => if c.slot(v.chain) == Some(Site(call.bind, a)) then Suspend
          else Fail(CallFailed(SECOND_SUBWORKFLOW))
        case Running => Publish(d, call, Null)
        case Returned(r) => Publish(d, call, r)
  }

  function Publish(d: Deployment, call: Call, r: Val): (o: Outcome)
    requires call.Workflow?
    ensures o == Fail(CallFailed(BAD_OUTPUT)) || o.Ok?
  {
    match d.document(call.workflow, r) case None => Fail(CallFailed(BAD_OUTPUT)) case Some(doc) => Ok(doc)
  }

  /** The call made by the leaf at this key. */
  function FindCall(tr: seq<Act>, site: Site): Option<(Call, Scope)> {
    if tr == [] then None
    else if tr[0].Called? && tr[0].site == site then Some((tr[0].call, tr[0].args))
    else FindCall(tr[1..], site)
  }

  datatype Saved = Saved(memo: Memo, ctl: Control, frame: Option<Slots.Frame>)

  /** What a level that paused leaves for the next cycle. */
  function Keep(d: Deployment, c: Cycle, v: Level): Saved
    decreases v.depth, 4
  {
    var tr := RunAt(d, c, v).tr;
    Saved(MemoAfter(v.memo, tr), ControlAfter(v.ctl, tr), NextFrame(d, c, v))
  }

  /** The frame in the nested slot at the end of the cycle. */
  function NextFrame(d: Deployment, c: Cycle, v: Level): Option<Slots.Frame>
    decreases v.depth, 3
  {
    if c.slot(v.chain).None? then None
    else
      var site := c.slot(v.chain).value;
      match FindCall(RunAt(d, c, v).tr, site)
      case None => None
      case Some(q) =>
        if !q.0.Workflow? || Enter(d, v, q.0, site.at, q.1).None? then None
        else
          var u := Enter(d, v, q.0, site.at, q.1).value;
          if !RunAt(d, c, u).st.Suspended? then None else Some(FrameOf(d, c, u, site, q.0.workflow))
  }

  function FrameOf(d: Deployment, c: Cycle, u: Level, site: Site, callee: string): Slots.Frame
    decreases u.depth, 5
  {
    var k := Keep(d, c, u);
    Slots.Frame(site, callee, u.input, k.memo, k.ctl, if k.frame.None? then c.gate(u.chain) else None, k.frame)
  }

  // ----- no cancellation

  /** No leaf is cut short: the run was not cancelled from outside. */
  ghost predicate Uncancelled(c: Cycle) {
    forall chain, call, a, args :: c.leaf(chain, call, a, args) != Fail(Cancelled)
  }

  lemma {:induction false} NeverCut(d: Deployment, c: Cycle, v: Level)
    requires Uncancelled(c)
    ensures RunAt(d, c, v).st != Failed(Cancelled)
    decreases v.depth
  {
    hide Run;
    var w := WorldAt(d, c, v);
    forall call, a, args ensures w.oracle(call, a, args) != Fail(Cancelled) {
      assert w.oracle(call, a, args) == Answer(d, c, v, call, a, args);
      if call.Workflow? && Enter(d, v, call, a, args).Some? { NeverCut(d, c, Enter(d, v, call, a, args).value); }
    }
    RunAccounted(w, v.prog, v.input);
    assert !Cut(w, RunAt(d, c, v).tr);
  }

  // ----- what becomes of a leaf

  lemma {:induction false} FoundCall(tr: seq<Act>, site: Site)
    ensures FindCall(tr, site).Some? <==> exists call, args :: Called(site, call, args) in tr
    ensures FindCall(tr, site).Some? ==> Called(site, FindCall(tr, site).value.0, FindCall(tr, site).value.1) in tr
  {
    if tr != [] {
      FoundCall(tr[1..], site);
      if call, args :| Called(site, call, args) in tr && Called(site, call, args) !in tr[1..] {
        assert tr[0] == Called(site, call, args);
      }
      if call, args :| Called(site, call, args) in tr[1..] { assert Called(site, call, args) in tr; }
      if tr[0].Called? && tr[0].site == site { assert tr[0] == Called(site, tr[0].call, tr[0].args); }
    }
  }

  lemma FoundIs(d: Deployment, c: Cycle, v: Level, site: Site, call: Call, args: Scope)
    requires Called(site, call, args) in RunAt(d, c, v).tr
    ensures FindCall(RunAt(d, c, v).tr, site) == Some((call, args))
  {
    hide Run, WorldAt;
    var tr := RunAt(d, c, v).tr;
    FoundCall(tr, site);
    var q := FindCall(tr, site).value;
    CalledOnce(WorldAt(d, c, v), v.prog, v.input, site, call, args, site, q.0, q.1);
  }

  /** A called leaf was not seeded and is the program's leaf at its address; unless the level
      broke, it recorded a result, paused or was cancelled. */
  lemma LeafCalled(d: Deployment, c: Cycle, v: Level, site: Site, call: Call, args: Scope)
    requires Called(site, call, args) in RunAt(d, c, v).tr
    ensures site !in v.memo && LeafAmong(v.prog.body, site.at.path) == Some(call) && site == Site(call.bind, site.at)
    ensures !Broken(RunAt(d, c, v).st) ==>
              match Answer(d, c, v, call, site.at, args)
              case Fail(e) => e == Cancelled
              case Suspend => Gate(site) in RunAt(d, c, v).tr
              case Ok(_) => site in Keep(d, c, v).memo
  {
    hide Run, LeafAmong, Answer, NextFrame, MemoAfter, ControlAfter;
    var w, tr := WorldAt(d, c, v), RunAt(d, c, v).tr;
    assert w.oracle(call, site.at, args) == Answer(d, c, v, call, site.at, args);
    CalledLeaf(w, v.prog, v.input, site, call, args);
    AddressesIdentifyLeaves(w, v.prog, v.input);
    MemoAfterIs(v.memo, tr, site);
  }

  /** A called subworkflow ran, unless its caller broke: it was cancelled and leaves nothing, or
      its result is in the memo, or it paused and its frame, with all it recorded, goes on to
      the next cycle. */
  lemma SubworkflowKept(d: Deployment, c: Cycle, v: Level, site: Site, call: Call, args: Scope)
    requires Called(site, call, args) in RunAt(d, c, v).tr && call.Workflow? && !Broken(RunAt(d, c, v).st)
    ensures Enter(d, v, call, site.at, args).Some?
    ensures var u, k := Enter(d, v, call, site.at, args).value, Keep(d, c, v);
            match RunAt(d, c, u).st
            case Failed(e) => e == Cancelled && site !in k.memo && !(k.frame.Some? && k.frame.value.key == site)
            case Suspended => site !in k.memo && k.frame == Some(FrameOf(d, c, u, site, call.workflow))
            case _ => site in k.memo
  {
    hide Run, LeafAmong, MemoAfter, ControlAfter, FrameOf, Enter, RunAt, Keep;
    LeafCalled(d, c, v, site, call, args);
    var u := Enter(d, v, call, site.at, args).value;
    if RunAt(d, c, u).st.Suspended? {
      FoundIs(d, c, v, site, call, args);
      KeepsSlot(d, c, v, site, call, args);
      PausedUnrecorded(d, c, v, site);
    } else if RunAt(d, c, u).st.Failed? {
      CancelledLeavesNothing(d, c, v, site, call, args);
    }
  }

  lemma CancelledLeavesNothing(d: Deployment, c: Cycle, v: Level, site: Site, call: Call, args: Scope)
    requires Called(site, call, args) in RunAt(d, c, v).tr && call.Workflow? && Enter(d, v, call, site.at, args).Some?
    requires RunAt(d, c, Enter(d, v, call, site.at, args).value).st.Failed? && site == Site(call.bind, site.at)
    ensures site !in Keep(d, c, v).memo && !(Keep(d, c, v).frame.Some? && Keep(d, c, v).frame.value.key == site)
  {
    hide RunAt, Enter, Keep;
    LeafCalled(d, c, v, site, call, args);
    if site in Keep(d, c, v).memo {
      var k, x := MemoIsCalled(d, c, v, site);
      SameCall(d, c, v, site, call, args, k, x);
    }
    if Keep(d, c, v).frame.Some? && Keep(d, c, v).frame.value.key == site {
      var s, k, x := FrameFrom(d, c, v);
      SameCall(d, c, v, site, call, args, k, x);
    }
  }

  lemma PausedUnrecorded(d: Deployment, c: Cycle, v: Level, site: Site)
    requires Gate(site) in RunAt(d, c, v).tr && site !in v.memo
    ensures site !in Keep(d, c, v).memo
  {
    hide Run, MemoAfter, ControlAfter, NextFrame, WorldAt;
    var w, tr := WorldAt(d, c, v), RunAt(d, c, v).tr;
    AddressesIdentifyLeaves(w, v.prog, v.input);
    MemoAfterIs(v.memo, tr, site);
    forall x ensures Put(site, x) !in tr { PausedLeaf(w, v.prog, v.input, site, x); }
  }

  lemma MemoGrows(d: Deployment, c: Cycle, v: Level, site: Site)
    requires site in v.memo
    ensures site in Keep(d, c, v).memo
  {
    hide Run, MemoAfter, ControlAfter, NextFrame, WorldAt;
    AddressesIdentifyLeaves(WorldAt(d, c, v), v.prog, v.input);
    MemoAfterIs(v.memo, RunAt(d, c, v).tr, site);
  }

  /** What is in the memo was there, or was called and answered in this cycle. */
  lemma MemoIsCalled(d: Deployment, c: Cycle, v: Level, site: Site) returns (call: Call, args: Scope)
    requires site in Keep(d, c, v).memo && site !in v.memo
    ensures Called(site, call, args) in RunAt(d, c, v).tr && Answer(d, c, v, call, site.at, args).Ok?
  {
    hide Run, MemoAfter, ControlAfter, NextFrame, Answer;
    var w, tr := WorldAt(d, c, v), RunAt(d, c, v).tr;
    AddressesIdentifyLeaves(w, v.prog, v.input);
    MemoAfterIs(v.memo, tr, site);
    var x :| Put(site, x) in tr;
    call, args := RecordedWasCalled(w, v.prog, v.input, site, x);
    assert w.oracle(call, site.at, args) == Answer(d, c, v, call, site.at, args);
  }

  // ----- frames belong to the program

  /** The frame's leaf is an InvokeWorkflow of its callee that has no result yet, and so for
      the frames below. */
  ghost predicate Fits(d: Deployment, prog: Program, memo: Memo, frame: Option<Slots.Frame>)
    decreases frame
  {
    frame.Some? ==>
      var f := frame.value;
      var leaf := LeafAmong(prog.body, f.key.at.path);
      && f.key !in memo
      && leaf.Some? && leaf.value.Workflow? && leaf.value.workflow == f.callee && leaf.value.bind == f.key.bind
      && f.callee in d.programs && Fits(d, d.programs[f.callee], f.memo, f.child)
  }

  /** The leaf behind a level's next frame. */
  lemma FrameFrom(d: Deployment, c: Cycle, v: Level) returns (site: Site, call: Call, args: Scope)
    requires Keep(d, c, v).frame.Some?
    ensures c.slot(v.chain) == Some(site) && Called(site, call, args) in RunAt(d, c, v).tr && call.Workflow?
    ensures Enter(d, v, call, site.at, args).Some?
    ensures var u := Enter(d, v, call, site.at, args).value;
            RunAt(d, c, u).st.Suspended? && Keep(d, c, v).frame == Some(FrameOf(d, c, u, site, call.workflow))
    ensures Keep(d, c, v).frame.value.key == site
  {
    hide RunAt, Enter, MemoAfter, ControlAfter, FrameOf;
    assert NextFrame(d, c, v).Some?;
    site := c.slot(v.chain).value;
    FoundCall(RunAt(d, c, v).tr, site);
    var q := FindCall(RunAt(d, c, v).tr, site).value;
    call, args := q.0, q.1;
    FrameKey(d, c, Enter(d, v, call, site.at, args).value, site, call.workflow);
  }

  lemma {:induction false} FramesFit(d: Deployment, c: Cycle, v: Level)
    requires !Broken(RunAt(d, c, v).st)
    ensures Fits(d, v.prog, Keep(d, c, v).memo, Keep(d, c, v).frame)
    decreases v.depth
  {
    hide RunAt, LeafAmong, Enter, Keep;
    if Keep(d, c, v).frame.Some? {
      var site, call, args := FrameFrom(d, c, v);
      LeafCalled(d, c, v, site, call, args);
      SlotPauses(d, c, v, site, call, args);
      PausedUnrecorded(d, c, v, site);
      Entered(d, v, call, site.at, args);
      FramesFit(d, c, Enter(d, v, call, site.at, args).value);
    }
  }

  lemma Entered(d: Deployment, v: Level, call: Call, a: Addr, args: Scope)
    requires call.Workflow? && Enter(d, v, call, a, args).Some?
    ensures call.workflow in d.programs && Enter(d, v, call, a, args).value.prog == d.programs[call.workflow]
  {
  }

  lemma SlotPauses(d: Deployment, c: Cycle, v: Level, site: Site, call: Call, args: Scope)
    requires call.Workflow? && Enter(d, v, call, site.at, args).Some? && site == Site(call.bind, site.at)
             && c.slot(v.chain) == Some(site)
    requires RunAt(d, c, Enter(d, v, call, site.at, args).value).st.Suspended?
    ensures Answer(d, c, v, call, site.at, args).Suspend?
  {
    hide RunAt, Enter;
  }

  /** A seeded frame whose leaf is called is claimed. */
  lemma CalledClaims(d: Deployment, c: Cycle, v: Level, call: Call, args: Scope)
    requires v.frame.Some? && Fits(d, v.prog, v.memo, v.frame)
             && Called(v.frame.value.key, call, args) in RunAt(d, c, v).tr
    ensures call.Workflow? && Claims(v, call, v.frame.value.key.at)
    ensures var f, e := v.frame.value, Enter(d, v, call, v.frame.value.key.at, args);
            e.Some? ==> e.value.memo == f.memo && e.value.frame == f.child && e.value.prog == d.programs[f.callee]
  {
    hide Run, LeafAmong, RunAt;
    LeafCalled(d, c, v, v.frame.value.key, call, args);
  }

  // ----- leaves as chains of call keys

  /** In this cycle the leaf with this chain of keys is called. */
  ghost predicate Calls(d: Deployment, c: Cycle, v: Level, chain: seq<Site>)
    decreases |chain|
  {
    chain != [] && exists call, args ::
      && Called(chain[0], call, args) in RunAt(d, c, v).tr
      && (|chain| == 1 || (call.Workflow? && Enter(d, v, call, chain[0].at, args).Some?
                           && Calls(d, c, Enter(d, v, call, chain[0].at, args).value, chain[1..])))
  }

  /** In this cycle that leaf returns a result. */
  ghost predicate Records(d: Deployment, c: Cycle, v: Level, chain: seq<Site>)
    decreases |chain|
  {
    chain != [] &&
      if |chain| == 1 then exists x :: Put(chain[0], x) in RunAt(d, c, v).tr
      else exists call, args ::
        && Called(chain[0], call, args) in RunAt(d, c, v).tr && call.Workflow?
           && Enter(d, v, call, chain[0].at, args).Some?
        && Records(d, c, Enter(d, v, call, chain[0].at, args).value, chain[1..])
  }

  /** The seeds answer for the leaf: it, or a subworkflow around it, has a result, down the
      chain of frames. */
  ghost predicate Guarded(memo: Memo, frame: Option<Slots.Frame>, chain: seq<Site>)
    decreases |chain|
  {
    chain != [] && (chain[0] in memo ||
      (|chain| > 1 && frame.Some? && frame.value.key == chain[0]
       && Guarded(frame.value.memo, frame.value.child, chain[1..])))
  }

  /** Every seeded frame is claimed in the cycle by a subworkflow that is not cancelled, down
      the chain of frames. */
  ghost predicate AllClaimed(d: Deployment, c: Cycle, v: Level)
    decreases v.depth
  {
    v.frame.Some? ==> exists call, args ::
      && Called(v.frame.value.key, call, args) in RunAt(d, c, v).tr && call.Workflow?
         && Enter(d, v, call, v.frame.value.key.at, args).Some?
      && RunAt(d, c, Enter(d, v, call, v.frame.value.key.at, args).value).st != Failed(Cancelled)
      && AllClaimed(d, c, Enter(d, v, call, v.frame.value.key.at, args).value)
  }

  /** What the seeds answer for is not called. */
  lemma {:induction false} GuardedIsNotCalled(d: Deployment, c: Cycle, v: Level, chain: seq<Site>)
    requires Fits(d, v.prog, v.memo, v.frame) && Guarded(v.memo, v.frame, chain)
    ensures !Calls(d, c, v, chain)
    decreases |chain|
  {
    hide RunAt, LeafAmong, Enter;
    if Calls(d, c, v, chain) {
      var call, args :| Called(chain[0], call, args) in RunAt(d, c, v).tr
        && (|chain| == 1 || (call.Workflow? && Enter(d, v, call, chain[0].at, args).Some?
                             && Calls(d, c, Enter(d, v, call, chain[0].at, args).value, chain[1..])));
      LeafCalled(d, c, v, chain[0], call, args);
      CalledClaims(d, c, v, call, args);
      GuardedIsNotCalled(d, c, Enter(d, v, call, chain[0].at, args).value, chain[1..]);
    }
  }

  /** No subworkflow around the leaf was cancelled, down to one that has a result. */
  ghost predicate Uncut(d: Deployment, c: Cycle, v: Level, chain: seq<Site>)
    decreases |chain|
  {
    |chain| > 1 ==> forall call, args |
      Called(chain[0], call, args) in RunAt(d, c, v).tr && call.Workflow?
      && Enter(d, v, call, chain[0].at, args).Some? ::
        var u := Enter(d, v, call, chain[0].at, args).value;
        RunAt(d, c, u).st != Failed(Cancelled) && (RunAt(d, c, u).st.Suspended? ==> Uncut(d, c, u, chain[1..]))
  }

  /** A result recorded in a cycle that does not break is answered for from then on exactly when
      no subworkflow around it was cancelled. */
  lemma {:induction false} RecordedIsGuardedIff(d: Deployment, c: Cycle, v: Level, chain: seq<Site>)
    requires !Broken(RunAt(d, c, v).st) && Records(d, c, v, chain)
    ensures Guarded(Keep(d, c, v).memo, Keep(d, c, v).frame, chain) <==> Uncut(d, c, v, chain)
    decreases |chain|
  {
    hide RunAt, LeafAmong, Enter, Keep;
    if |chain| == 1 {
      var x :| Put(chain[0], x) in RunAt(d, c, v).tr;
      PutIsKept(d, c, v, chain[0], x);
    } else {
      var call, args :|
        Called(chain[0], call, args) in RunAt(d, c, v).tr && call.Workflow?
        && Enter(d, v, call, chain[0].at, args).Some?
        && Records(d, c, Enter(d, v, call, chain[0].at, args).value, chain[1..]);
      var u := Enter(d, v, call, chain[0].at, args).value;
      SubworkflowKept(d, c, v, chain[0], call, args);
      forall k, x | Called(chain[0], k, x) in RunAt(d, c, v).tr ensures k == call && x == args {
        SameCall(d, c, v, chain[0], call, args, k, x);
      }
      if RunAt(d, c, u).st.Suspended? { RecordedIsGuardedIff(d, c, u, chain[1..]); }
    }
  }

  /** Where nothing is cancelled from outside, no subworkflow is. */
  lemma {:induction false} UncancelledUncut(d: Deployment, c: Cycle, v: Level, chain: seq<Site>)
    requires Uncancelled(c)
    ensures Uncut(d, c, v, chain)
    decreases |chain|
  {
    hide RunAt, Enter, Uncancelled;
    if |chain| > 1 {
      forall call, args | Called(chain[0], call, args) in RunAt(d, c, v).tr && call.Workflow?
      && Enter(d, v, call, chain[0].at, args).Some?
        ensures RunAt(d, c, Enter(d, v, call, chain[0].at, args).value).st != Failed(Cancelled)
        ensures Uncut(d, c, Enter(d, v, call, chain[0].at, args).value, chain[1..])
      {
        NeverCut(d, c, Enter(d, v, call, chain[0].at, args).value);
        UncancelledUncut(d, c, Enter(d, v, call, chain[0].at, args).value, chain[1..]);
      }
    }
  }

  lemma PutIsKept(d: Deployment, c: Cycle, v: Level, site: Site, x: Val)
    requires Put(site, x) in RunAt(d, c, v).tr
    ensures site in Keep(d, c, v).memo
  {
    hide Run, MemoAfter, ControlAfter, NextFrame, WorldAt;
    AddressesIdentifyLeaves(WorldAt(d, c, v), v.prog, v.input);
    MemoAfterIs(v.memo, RunAt(d, c, v).tr, site);
  }

  /** The cycle reaches the leaf that guards the chain, uncancelled, at every level on the way. */
  ghost predicate Reaches(d: Deployment, c: Cycle, v: Level, chain: seq<Site>)
    decreases |chain|
  {
    chain != [] && (chain[0] in v.memo || (|chain| > 1 && exists call, args ::
      && Called(chain[0], call, args) in RunAt(d, c, v).tr && call.Workflow?
         && Enter(d, v, call, chain[0].at, args).Some?
      && RunAt(d, c, Enter(d, v, call, chain[0].at, args).value).st != Failed(Cancelled)
      && (chain[0] in Keep(d, c, v).memo || Reaches(d, c, Enter(d, v, call, chain[0].at, args).value, chain[1..]))))
  }

  /** Exactly when a cycle that pauses loses the guard of a chain: when it does not reach the
      leaf of a frame on it, or that is cancelled. */
  lemma {:induction false} GuardStaysIff(d: Deployment, c: Cycle, v: Level, chain: seq<Site>)
    requires !Broken(RunAt(d, c, v).st) && Fits(d, v.prog, v.memo, v.frame) && Guarded(v.memo, v.frame, chain)
    ensures Guarded(Keep(d, c, v).memo, Keep(d, c, v).frame, chain) <==> Reaches(d, c, v, chain)
    decreases |chain|
  {
    hide RunAt, LeafAmong, Enter, Keep;
    if chain[0] in v.memo {
      MemoGrows(d, c, v, chain[0]);
    } else if call, args :| Called(chain[0], call, args) in RunAt(d, c, v).tr {
      ReachedLeaf(d, c, v, chain, call, args);
    } else {
      NotReached(d, c, v, chain[0]);
    }
  }

  lemma {:induction false} ReachedLeaf(d: Deployment, c: Cycle, v: Level, chain: seq<Site>, call: Call, args: Scope)
    requires !Broken(RunAt(d, c, v).st) && Fits(d, v.prog, v.memo, v.frame) && Guarded(v.memo, v.frame, chain)
    requires chain[0] !in v.memo && Called(chain[0], call, args) in RunAt(d, c, v).tr
    ensures Guarded(Keep(d, c, v).memo, Keep(d, c, v).frame, chain) <==> Reaches(d, c, v, chain)
    decreases |chain|, 0
  {
    hide RunAt, LeafAmong, Enter, Keep;
    CalledClaims(d, c, v, call, args);
    SubworkflowKept(d, c, v, chain[0], call, args);
    var u := Enter(d, v, call, chain[0].at, args).value;
    forall k, x | Called(chain[0], k, x) in RunAt(d, c, v).tr ensures k == call && x == args {
      SameCall(d, c, v, chain[0], call, args, k, x);
    }
    if RunAt(d, c, u).st.Suspended? { GuardStaysIff(d, c, u, chain[1..]); }
  }

  lemma SameCall(d: Deployment, c: Cycle, v: Level, site: Site, call: Call, args: Scope, k: Call, x: Scope)
    requires Called(site, call, args) in RunAt(d, c, v).tr && Called(site, k, x) in RunAt(d, c, v).tr
    ensures k == call && x == args
  {
    hide Run, WorldAt;
    CalledOnce(WorldAt(d, c, v), v.prog, v.input, site, call, args, site, k, x);
  }

  /** A leaf that is not called gets neither a result nor a frame. */
  lemma NotReached(d: Deployment, c: Cycle, v: Level, site: Site)
    requires site !in v.memo && forall call, args :: Called(site, call, args) !in RunAt(d, c, v).tr
    ensures site !in Keep(d, c, v).memo && (Keep(d, c, v).frame.Some? ==> Keep(d, c, v).frame.value.key != site)
  {
    hide RunAt, LeafAmong, Enter, Keep;
    if site in Keep(d, c, v).memo { var call, args := MemoIsCalled(d, c, v, site); }
    if Keep(d, c, v).frame.Some? { var s, call, args := FrameFrom(d, c, v); }
  }

  /** Which seeded frames a paused cycle loses: exactly those whose leaf it did not call, or
      called and saw cancelled. Any other goes on, as a result or as a frame. */
  lemma FrameLostIff(d: Deployment, c: Cycle, v: Level)
    requires v.frame.Some? && Fits(d, v.prog, v.memo, v.frame) && RunAt(d, c, v).st.Suspended?
    ensures var k, key := Keep(d, c, v), v.frame.value.key;
            (key !in k.memo && !(k.frame.Some? && k.frame.value.key == key)) <==>
            forall call, args ::
              Called(key, call, args) in RunAt(d, c, v).tr ==> Answer(d, c, v, call, key.at, args) == Fail(Cancelled)
  {
    hide RunAt, LeafAmong, Enter, Keep, FrameOf;
    var key := v.frame.value.key;
    if call, args :| Called(key, call, args) in RunAt(d, c, v).tr {
      CalledClaims(d, c, v, call, args);
      LeafCalled(d, c, v, key, call, args);
      SubworkflowKept(d, c, v, key, call, args);
      FrameKey(d, c, Enter(d, v, call, key.at, args).value, key, call.workflow);
      forall k, x | Called(key, k, x) in RunAt(d, c, v).tr ensures k == call && x == args {
        SameCall(d, c, v, key, call, args, k, x);
      }
    } else {
      NotReached(d, c, v, key);
    }
  }

  lemma FrameKey(d: Deployment, c: Cycle, u: Level, site: Site, callee: string)
    ensures FrameOf(d, c, u, site, callee).key == site
  {
  }

  /** Where every seeded frame is claimed, the cycle reaches whatever they guard. */
  lemma {:induction false} ClaimedReaches(d: Deployment, c: Cycle, v: Level, chain: seq<Site>)
    requires AllClaimed(d, c, v) && Fits(d, v.prog, v.memo, v.frame) && Guarded(v.memo, v.frame, chain)
    ensures Reaches(d, c, v, chain)
    decreases |chain|
  {
    hide RunAt, LeafAmong, Enter, Keep;
    if chain[0] !in v.memo {
      var call, args :|
        Called(chain[0], call, args) in RunAt(d, c, v).tr && call.Workflow?
        && Enter(d, v, call, chain[0].at, args).Some?
        && RunAt(d, c, Enter(d, v, call, chain[0].at, args).value).st != Failed(Cancelled)
        && AllClaimed(d, c, Enter(d, v, call, chain[0].at, args).value);
      CalledClaims(d, c, v, call, args);
      ClaimedReaches(d, c, Enter(d, v, call, chain[0].at, args).value, chain[1..]);
    }
  }

  // ----- the slot decides the frame

  /** The frame is that of a subworkflow which a leaf of this level ran and which paused. */
  ghost predicate FrameOfLeaf(d: Deployment, c: Cycle, v: Level, f: Slots.Frame) {
    exists call, args ::
      && Called(f.key, call, args) in RunAt(d, c, v).tr && call.Workflow? && Enter(d, v, call, f.key.at, args).Some?
      && RunAt(d, c, Enter(d, v, call, f.key.at, args).value).st.Suspended?
      && f == FrameOf(d, c, Enter(d, v, call, f.key.at, args).value, f.key, call.workflow)
  }

  /** The slot operations of this level in the order they happened: each records the frame of a
      leaf that paused, and `slot` names the leaf that came first. */
  ghost predicate Performed(d: Deployment, c: Cycle, v: Level, ops: seq<Slots.Op>) {
    && (forall op | op in ops && op.Nest? :: FrameOfLeaf(d, c, v, op.frame))
    && (forall f | FrameOfLeaf(d, c, v, f) :: Slots.Nest(f) in ops)
    && (Slots.FirstNest(ops).Some? ==> c.slot(v.chain) == Some(Slots.FirstNest(ops).value.key))
  }

  /** The frame that goes on is the one the invoker's slots hold at the end of the cycle,
      whatever gates were raised and seeds claimed in between. */
  lemma SlotsHoldTheFrame(d: Deployment, c: Cycle, v: Level, gate: Option<Slots.Gate>, ops: seq<Slots.Op>)
    requires Performed(d, c, v, ops)
    ensures Slots.After(Slots.Start(gate, v.frame), ops).nested == Keep(d, c, v).frame
  {
    hide RunAt, Enter, FrameOf, Keep, Slots.FirstNest;
    Slots.OnlyRecordedFramesGoOn(gate, v.frame, ops);
    Slots.FirstNestIn(ops);
    var first := Slots.FirstNest(ops);
    if first.Some? {
      var f := first.value;
      assert FrameOfLeaf(d, c, v, f) by { assert Slots.Nest(f) in ops && Slots.Nest(f).Nest?; }
      var call, args :|
        Called(f.key, call, args) in RunAt(d, c, v).tr && call.Workflow? && Enter(d, v, call, f.key.at, args).Some?
        && RunAt(d, c, Enter(d, v, call, f.key.at, args).value).st.Suspended?
        && f == FrameOf(d, c, Enter(d, v, call, f.key.at, args).value, f.key, call.workflow);
      FoundIs(d, c, v, f.key, call, args);
      KeepsSlot(d, c, v, f.key, call, args);
    } else if Keep(d, c, v).frame.Some? {
      var site, call, args := FrameFrom(d, c, v);
      assert FrameOfLeaf(d, c, v, Keep(d, c, v).frame.value);
      SomeNest(ops, Keep(d, c, v).frame.value);
    }
  }

  lemma KeepsSlot(d: Deployment, c: Cycle, v: Level, site: Site, call: Call, args: Scope)
    requires c.slot(v.chain) == Some(site) && FindCall(RunAt(d, c, v).tr, site) == Some((call, args))
    requires call.Workflow? && Enter(d, v, call, site.at, args).Some?
             && RunAt(d, c, Enter(d, v, call, site.at, args).value).st.Suspended?
    ensures Keep(d, c, v).frame == Some(FrameOf(d, c, Enter(d, v, call, site.at, args).value, site, call.workflow))
  {
    hide RunAt, Enter, FrameOf, MemoAfter, ControlAfter;
  }

  lemma {:induction false} SomeNest(ops: seq<Slots.Op>, f: Slots.Frame)
    requires Slots.Nest(f) in ops
    ensures Slots.FirstNest(ops).Some?
    decreases |ops|
  {
    if ops[|ops| - 1] != Slots.Nest(f) { SomeNest(ops[..|ops| - 1], f); }
  }

  // ----- lifetimes

  /** The root run: its program, input and the nesting limit. */
  datatype Job = Job(prog: Program, input: Val, limit: nat)

  function Root(job: Job, k: Saved): Level {
    Level([], job.prog, job.input, k.memo, k.ctl, k.frame, job.limit)
  }

  /** What is in the checkpoint after these cycles, starting from nothing. */
  function SavedAfter(d: Deployment, job: Job, cs: seq<Cycle>): Saved
    decreases |cs|
  {
    if cs == [] then Saved(map[], map[], None)
    else Keep(d, cs[|cs| - 1], Root(job, SavedAfter(d, job, cs[..|cs| - 1])))
  }

  /** The root level of cycle k. */
  function LevelOf(d: Deployment, job: Job, cs: seq<Cycle>, k: nat): Level
    requires k <= |cs|
  {
    Root(job, SavedAfter(d, job, cs[..k]))
  }

  /** The first n cycles paused. */
  ghost predicate Paused(d: Deployment, job: Job, cs: seq<Cycle>, n: nat)
    requires n <= |cs|
  {
    forall i: nat | i < n :: RunAt(d, cs[i], LevelOf(d, job, cs, i)).st.Suspended?
  }

  lemma NextLevel(d: Deployment, job: Job, cs: seq<Cycle>, k: nat)
    requires k < |cs|
    ensures SavedAfter(d, job, cs[..k + 1]) == Keep(d, cs[k], LevelOf(d, job, cs, k))
  {
    hide Keep;
    assert cs[..k + 1][..k] == cs[..k] && cs[..k + 1][k] == cs[k];
  }

  lemma CheckpointFits(d: Deployment, job: Job, cs: seq<Cycle>, k: nat)
    requires k <= |cs| && Paused(d, job, cs, k)
    ensures var v := LevelOf(d, job, cs, k); Fits(d, job.prog, v.memo, v.frame)
  {
    hide Keep, RunAt, Fits;
    if k > 0 {
      NextLevel(d, job, cs, k - 1);
      FramesFit(d, cs[k - 1], LevelOf(d, job, cs, k - 1));
    } else {
      assert cs[..0] == [];
      NothingFits(d, job.prog);
    }
  }

  lemma NothingFits(d: Deployment, prog: Program)
    ensures Fits(d, prog, map[], None)
  {
  }

  /** The guard of a chain, once there, stays through cycles that claim their frames. */
  lemma {:induction false} GuardStays(d: Deployment, job: Job, cs: seq<Cycle>, j: nat, k: nat, chain: seq<Site>)
    requires j <= k <= |cs| && Paused(d, job, cs, k)
    requires forall i: nat | j <= i < k :: AllClaimed(d, cs[i], LevelOf(d, job, cs, i))
    requires var v := LevelOf(d, job, cs, j); Guarded(v.memo, v.frame, chain)
    ensures var v := LevelOf(d, job, cs, k); Guarded(v.memo, v.frame, chain)
    decreases k - j
  {
    hide Keep, RunAt, Fits, Guarded, AllClaimed, Reaches;
    if j < k {
      var v := LevelOf(d, job, cs, j);
      CheckpointFits(d, job, cs, j);
      assert AllClaimed(d, cs[j], v);
      ClaimedReaches(d, cs[j], v, chain);
      GuardStaysIff(d, cs[j], v, chain);
      NextLevel(d, job, cs, j);
      GuardStays(d, job, cs, j + 1, k, chain);
    }
  }

  /** At most once through every nesting level: a leaf that returned a result in one cycle,
      however deep in subworkflows, is called in no later one, provided no subworkflow around it
      was cancelled then and each seeded frame was claimed in the cycles between. */
  lemma NoInnerEffectIsRepeated(d: Deployment, job: Job, cs: seq<Cycle>, j: nat, k: nat, chain: seq<Site>)
    requires j < k < |cs| && Paused(d, job, cs, k)
    requires forall i: nat | j < i < k :: AllClaimed(d, cs[i], LevelOf(d, job, cs, i))
    requires Records(d, cs[j], LevelOf(d, job, cs, j), chain) && Uncut(d, cs[j], LevelOf(d, job, cs, j), chain)
    ensures !Calls(d, cs[k], LevelOf(d, job, cs, k), chain)
  {
    hide Keep, RunAt, Fits, Guarded, AllClaimed, Records, Calls, Uncut;
    RecordedIsGuardedIff(d, cs[j], LevelOf(d, job, cs, j), chain);
    NextLevel(d, job, cs, j);
    GuardStays(d, job, cs, j + 1, k, chain);
    CheckpointFits(d, job, cs, k);
    GuardedIsNotCalled(d, cs[k], LevelOf(d, job, cs, k), chain);
  }
}
