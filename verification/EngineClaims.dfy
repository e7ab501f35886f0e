/** Which deployments claim every frame. Where InvokeWorkflow leaves sit in graph steps without
    needs, or with no join inside a thread before them, a resume always enters a suspended
    subworkflow again, so no inner effect is ever repeated. */
module EngineClaims {
  import opened Values
  import opened ExecIR
  import opened Eval
  import opened Interp
  import opened Session
  import opened Accounting
  import opened Engine
  import Progress
  import Prompt

  /** v one cycle later. */
  function Resumed(d: Deployment, c: Cycle, v: Level): Level {
    var k := Keep(d, c, v);
    v.(memo := k.memo, ctl := k.ctl, frame := k.frame)
  }

  /** A subworkflow entered again with the frame it left goes on where it paused. */
  lemma EntersWhereItPaused(d: Deployment, c: Cycle, v: Level, call: Call, site: Site, args: Scope)
    requires call.Workflow? && site == Site(call.bind, site.at) && Enter(d, v, call, site.at, args).Some?
    requires Keep(d, c, v).frame == Some(FrameOf(d, c, Enter(d, v, call, site.at, args).value, site, call.workflow))
    ensures Enter(d, Resumed(d, c, v), call, site.at, args) ==
        Some(Resumed(d, c, Enter(d, v, call, site.at, args).value))
  {
    hide Keep, InputOf;
  }

  ghost predicate AllPrompt(d: Deployment) {
    forall name :: name in d.programs ==> Prompt.PromptAll(true, d.programs[name].body)
  }

  /** At this level and in every subworkflow it enters, the cycle holds back only what the code
      can: a graph step with needs after a sibling paused, or a join inside a thread. */
  ghost predicate Plausible(d: Deployment, c: Cycle, v: Level)
    decreases v.depth
  {
    && Prompt.Plausible(WorldAt(d, c, v), v.prog, v.input)
    && forall site: Site, call, args |
         Called(site, call, args) in RunAt(d, c, v).tr && call.Workflow? && Enter(d, v, call, site.at, args).Some? ::
           Plausible(d, c, Enter(d, v, call, site.at, args).value)
  }

  /** In a deployment of prompt workflows a resume claims every frame. */
  lemma {:induction false} PromptClaims(d: Deployment, c: Cycle, next: Cycle, v: Level)
    requires AllPrompt(d) && Prompt.PromptAll(true, v.prog.body) && Uncancelled(c) && Uncancelled(next)
    requires RunAt(d, c, v).st.Suspended? && Plausible(d, next, Resumed(d, c, v))
    ensures AllClaimed(d, next, Resumed(d, c, v))
    decreases v.depth
  {
    hide RunAt, Keep, FrameOf, LeafAmong, AllPrompt, Prompt.PromptAll, Enter, Uncancelled, Prompt.Plausible;
    if Keep(d, c, v).frame.Some? {
      var site, call, args := FrameFrom(d, c, v);
      LeafCalled(d, c, v, site, call, args);
      SlotPauses(d, c, v, site, call, args);
      PausedUnrecorded(d, c, v, site);
      CallsAgain(d, c, next, v, site, call, args);
      EntersWhereItPaused(d, c, v, call, site, args);
      var u := Enter(d, v, call, site.at, args).value;
      PromptCallee(d, v, call, site.at, args);
      PromptClaims(d, c, next, u);
      NeverCut(d, next, Resumed(d, c, u));
    }
  }

  lemma PromptCallee(d: Deployment, v: Level, call: Call, a: Addr, args: Scope)
    requires AllPrompt(d) && call.Workflow? && Enter(d, v, call, a, args).Some?
    ensures Prompt.PromptAll(true, Enter(d, v, call, a, args).value.prog.body)
  {
  }

  lemma CallsAgain(d: Deployment, c: Cycle, next: Cycle, v: Level, site: Site, call: Call, args: Scope)
    requires Prompt.PromptAll(true, v.prog.body) && Uncancelled(c) && Plausible(d, next, Resumed(d, c, v))
    requires Called(site, call, args) in RunAt(d, c, v).tr && call.Workflow? && site !in Keep(d, c, v).memo
    ensures Called(site, call, args) in RunAt(d, next, Resumed(d, c, v)).tr
  {
    hide Run, NextFrame, Answer, Prompt.PromptAll, MemoAfter, ControlAfter, Prompt.Plausible, Uncancelled;
    var w, w' := WorldAt(d, c, v), WorldAt(d, next, Resumed(d, c, v));
    NothingCut(d, c, v);
    Progress.ResumeContinues(w, w', v.prog, v.input);
    Prompt.PromptResumeRecalls(w, w', v.prog, v.input);
  }

  lemma NothingCut(d: Deployment, c: Cycle, v: Level)
    requires Uncancelled(c)
    ensures !Cut(WorldAt(d, c, v), RunAt(d, c, v).tr)
  {
    hide RunAt, Enter;
    var w := WorldAt(d, c, v);
    forall call, a, args ensures w.oracle(call, a, args) != Fail(Cancelled) {
      assert w.oracle(call, a, args) == Answer(d, c, v, call, a, args);
      if call.Workflow? && Enter(d, v, call, a, args).Some? { NeverCut(d, c, Enter(d, v, call, a, args).value); }
    }
  }

  /** So in a deployment of prompt workflows at most once holds through every nesting level and
      any number of cycles. */
  lemma PromptEffectsHappenOnce(d: Deployment, job: Job, cs: seq<Cycle>, j: nat, k: nat, chain: seq<Site>)
    requires AllPrompt(d) && Prompt.PromptAll(true, job.prog.body)
    requires j < k < |cs| && Paused(d, job, cs, k) && Records(d, cs[j], LevelOf(d, job, cs, j), chain)
    requires forall i: nat | i < k :: Uncancelled(cs[i])
    requires forall i: nat | i < k :: Plausible(d, cs[i], LevelOf(d, job, cs, i))
    ensures !Calls(d, cs[k], LevelOf(d, job, cs, k), chain)
  {
    hide Keep, RunAt, AllClaimed, Records, Calls, AllPrompt, Prompt.PromptAll, Uncancelled, Plausible, Uncut;
    forall i: nat | j < i < k ensures AllClaimed(d, cs[i], LevelOf(d, job, cs, i)) {
      NextLevel(d, job, cs, i - 1);
      PromptClaims(d, cs[i - 1], cs[i], LevelOf(d, job, cs, i - 1));
    }
    UncancelledUncut(d, cs[j], LevelOf(d, job, cs, j), chain);
    NoInnerEffectIsRepeated(d, job, cs, j, k, chain);
  }

  // ----- sequential workflows

  ghost predicate AllSequential(d: Deployment) {
    forall name :: name in d.programs ==> Progress.SequentialAll(d.programs[name].body)
  }

  lemma {:induction false} SequentialPlausible(d: Deployment, c: Cycle, v: Level)
    requires AllSequential(d) && Progress.SequentialAll(v.prog.body)
    ensures Plausible(d, c, v)
    decreases v.depth
  {
    hide RunAt, Enter, Progress.SequentialAll;
    Prompt.SequentialNodes(v.prog.body, true);
    hide Prompt.HoldsAmong;
    forall site: Site, call, args | Called(site, call, args) in RunAt(d, c, v).tr && call.Workflow?
    && Enter(d, v, call, site.at, args).Some?
      ensures Plausible(d, c, Enter(d, v, call, site.at, args).value)
    {
      Entered(d, v, call, site.at, args);
      SequentialPlausible(d, c, Enter(d, v, call, site.at, args).value);
    }
  }

  /** Sequential workflows need no word about timing. */
  lemma SequentialEffectsHappenOnce(d: Deployment, job: Job, cs: seq<Cycle>, j: nat, k: nat, chain: seq<Site>)
    requires AllSequential(d) && Progress.SequentialAll(job.prog.body)
    requires j < k < |cs| && Paused(d, job, cs, k) && Records(d, cs[j], LevelOf(d, job, cs, j), chain)
    requires forall i: nat | i < k :: Uncancelled(cs[i])
    ensures !Calls(d, cs[k], LevelOf(d, job, cs, k), chain)
  {
    hide Keep, RunAt, Records, Calls, Progress.SequentialAll, Prompt.PromptAll, Uncancelled, Plausible;
    forall name | name in d.programs ensures Prompt.PromptAll(true, d.programs[name].body) {
      Prompt.SequentialNodes(d.programs[name].body, true);
    }
    Prompt.SequentialNodes(job.prog.body, true);
    forall i: nat | i < k ensures Plausible(d, cs[i], LevelOf(d, job, cs, i)) {
      SequentialPlausible(d, cs[i], LevelOf(d, job, cs, i));
    }
    PromptEffectsHappenOnce(d, job, cs, j, k, chain);
  }
}
