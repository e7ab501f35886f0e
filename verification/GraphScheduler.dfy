/** The needs-DAG scheduler (internal/execir/interp.go execGraph) as a state machine over all
    interleavings of its goroutines: a main loop that launches every runnable step and waits
    for completions, and one goroutine per launched step that takes a slot, snapshots the
    scope, runs its leaf and publishes. */
module GraphScheduler {
  import opened Values
  import opened Common
  import opened ExecIR
  import opened Eval
  import opened GraphOrder
  import opened Interp
  import opened Scoping

  /** A launched step waits for a slot, then executes on its snapshot of the scope. */
  datatype Phase = Queued | Executing(local: Scope)

  /** `launched`, `finished`, `acts` and `stopped` are history: what was ever launched,
      completions in order, the session operations each completed step performed, and how the
      steps that did not complete ended. */
  datatype State = State(
    scope: Scope,
    completed: set<string>,
    running: map<nat, Phase>,
    err: Option<Error>,
    susp: bool,
    exited: bool,
    tokens: nat,
    launched: set<nat>,
    finished: seq<nat>,
    acts: map<nat, seq<Act>>,
    stopped: map<nat, Eff>)

  /** The graph, its surroundings, and the concurrency bound. */
  datatype Dag = Dag(w: World, gs: seq<GraphNode>, p: seq<nat>, l: seq<nat>, outer: Scope, conc: nat)
  {
    function Leaf(i: nat, s: Scope): Eff
      requires i < |gs|
    {
      ExecCall(w, gs[i].run, Addr(p + [i], l), s)
    }
  }

  /** A goroutine takes a slot; finishes; is cut short by a failure's cancel; the main loop wakes. */
  datatype Event = Begin(i: nat) | Finish(i: nat) | Abandon(i: nat) | Wake

  predicate Runnable(g: Dag, st: State, i: nat)
    requires i < |g.gs|
  {
    Ready(g.gs, st.completed, i) && i !in st.running
  }

  function Launch(now: set<nat>): map<nat, Phase> {
    map i | i in now :: Queued
  }

  /** trySchedule: launch every currently runnable step, unless the graph failed or paused. */
  function TrySchedule(g: Dag, st: State): State {
    if st.err.Some? || st.susp then st
    else
      var now := set i: nat | i < |g.gs| && Runnable(g, st, i);
      st.(running := st.running + Launch(now), launched := st.launched + now)
  }

  /** The main loop's exit test, right after scheduling. */
  function CheckExit(g: Dag, st: State): State {
    st.(exited := st.err.Some? || st.susp || |st.completed| == |g.gs| || st.running == map[])
  }

  function Init(g: Dag): State {
    CheckExit(g, TrySchedule(g, State(g.outer, {}, map[], None, false, false, 0, {}, [], map[], map[])))
  }

  function Executors(st: State): set<nat> {
    set i | i in st.running && st.running[i].Executing?
  }

  function Drop(st: State, i: nat): State {
    st.(running := map j | j in st.running && j != i :: st.running[j], tokens := st.tokens + 1)
  }

  /** The goroutine of step i ends with e: it publishes, pauses the graph, or fails it, unless
      it was cancelled after a pause. The first error stands. */
  function Collect(st: State, id: string, i: nat, e: Eff): State {
    match e.st
    case Running =>
      Drop(st, i).(scope := StepScope(id, st.scope, e), completed := st.completed + {id},
          finished := st.finished + [i], acts := st.acts[i := e.tr])
    case Suspended => Drop(st, i).(susp := true, stopped := st.stopped[i := e])
    case Failed(x) => Drop(st, i).(err := if st.err.Some?
                                   || (x == Cancelled && st.susp) then st.err
                                     else Some(x), stopped := st.stopped[i := e])
    case Returned(_) => Drop(st, i)
  }

  lemma DropIs(st: State, i: nat)
    ensures var t := Drop(st, i); t == st.(running := t.running, tokens := st.tokens + 1)
  {
  }

  lemma Collects(st: State, id: string, i: nat, e: Eff)
    requires !e.st.Returned?
    ensures var t := Collect(st, id, i, e);
            && t.running == Drop(st, i).running && t.tokens == st.tokens + 1 && t.launched == st.launched
               && t.exited == st.exited
            && (!e.st.Running? ==>
                  && t.scope == st.scope && t.completed == st.completed && t.finished == st.finished
                     && t.acts == st.acts
                  && t.susp == (st.susp || e.st.Suspended?) && t.stopped == st.stopped[i := e]
                  && t.err == (if st.err.Some? || e.st.Suspended?
                               || (e.st.e == Cancelled && st.susp) then st.err else Some(e.st.e)))
            && (e.st.Running? ==>
                  && t.scope == StepScope(id, st.scope, e) && t.completed == st.completed + {id}
                     && t.finished == st.finished + [i]
                  && t.acts == st.acts[i := e.tr] && t.susp == st.susp && t.err == st.err && t.stopped == st.stopped)
  {
    hide StepScope, Drop;
    DropIs(st, i);
  }

  /** One event, when it is enabled. */
  function Step(g: Dag, st: State, ev: Event): Option<State> {
    match ev
    case Begin(i) =>
      if i in st.running && st.running[i].Queued? && |Executors(st)| < g.conc
      then Some(st.(running := st.running[i := Executing(st.scope)]))
      else None
    case Finish(i) =>
      if i in st.running && st.running[i].Executing? && i < |g.gs| then
        Some(Collect(st, g.gs[i].id, i, g.Leaf(i, st.running[i].local)))
      else None
    case Abandon(i) =>
      if i in st.running && st.err.Some? then Some(Drop(st, i)) else None
    case Wake =>
      if !st.exited && st.tokens > 0 then Some(CheckExit(g, TrySchedule(g, st.(tokens := st.tokens - 1)))) else None
  }

  /** The state after a whole sequence of events, when each was enabled in turn. */
  function After(g: Dag, evs: seq<Event>): Option<State> {
    if evs == [] then Some(Init(g))
    else
      match After(g, evs[..|evs| - 1])
      case None => None
      case Some(st) => Step(g, st, evs[|evs| - 1])
  }

  /** The join: main loop over and every goroutine done. */
  predicate Final(st: State) {
    st.exited && st.running == map[]
  }

  datatype Verdict = Completed | Paused | Broke(e: Error) | NoRunnable

  function Result(g: Dag, st: State): Verdict {
    if st.err.Some? then Broke(st.err.value)
    else if st.susp then Paused
    else if |st.completed| == |g.gs| then Completed
    else NoRunnable
  }

  // ----- invariants of every reachable state

  ghost predicate Quiet(g: Dag, st: State) {
    forall i: nat | i < |g.gs| :: !Runnable(g, st, i)
  }

  predicate NeedOf(g: Dag, i: nat, d: string) {
    i < |g.gs| && d in g.gs[i].needs
  }

  predicate HasId(g: Dag, i: nat, d: string) {
    i < |g.gs| && g.gs[i].id == d
  }

  /** Steps completed once each, after their needs. */
  ghost predicate InNeedsOrder(g: Dag, fin: seq<nat>) {
    && (forall k, d | 0 <= k < |fin| && NeedOf(g, fin[k], d) :: exists j :: 0 <= j < k && HasId(g, fin[j], d))
    && (forall j, k :: 0 <= j < k < |fin| ==> fin[j] != fin[k])
  }

  ghost predicate Inv(g: Dag, st: State) {
    && (forall i | i in st.running :: i < |g.gs| && i in st.launched)
    && (forall i, d | i in st.running && d in g.gs[i].needs :: d in st.completed)
    && (forall i | i in st.launched ::
          i < |g.gs| && (i in st.running || g.gs[i].id in st.completed || st.err.Some? || st.susp))
    && (forall i | i in st.finished :: i < |g.gs| && i in st.launched && i !in st.running && g.gs[i].id in st.completed)
    && (forall d | d in st.completed :: exists i :: i in st.finished && i < |g.gs| && g.gs[i].id == d)
    && InNeedsOrder(g, st.finished)
    && (!st.exited ==> st.running != map[] || st.tokens > 0)
    && (st.exited && st.err.None? && !st.susp && st.running == map[] ==> |st.completed| == |g.gs| || Quiet(g, st))
    && (!st.exited && st.tokens == 0 && st.err.None? && !st.susp ==> Quiet(g, st))
    && (st.exited && st.err.None? && !st.susp && |st.completed| != |g.gs| ==> st.running == map[])
  }

  lemma ScheduleKeeps(g: Dag, st: State)
    requires forall i | i in st.running :: i < |g.gs| && i in st.launched
    ensures var t := TrySchedule(g, st);
            && t.scope == st.scope && t.completed == st.completed && t.err == st.err && t.susp == st.susp
            && t.finished == st.finished && t.acts == st.acts && t.stopped == st.stopped && t.tokens == st.tokens
               && t.exited == st.exited
            && st.launched <= t.launched
            && (forall i | i in t.running :: i < |g.gs| && (i in st.running || Runnable(g, st, i)))
            && (forall i | i in st.running :: i in t.running && t.running[i] == st.running[i])
            && (forall i | i in t.launched :: i in st.launched || (i < |g.gs| && Runnable(g, st, i) && i in t.running))
            && (forall i | i in t.running && i !in st.running :: t.running[i] == Queued)
            && (forall i | i in t.running :: i in t.launched)
            && (st.err.None? && !st.susp ==> Quiet(g, t))
  {
  }

  lemma InitInv(g: Dag)
    ensures Inv(g, Init(g))
  {
    ScheduleKeeps(g, State(g.outer, {}, map[], None, false, false, 0, {}, [], map[], map[]));
  }

  lemma StepInv(g: Dag, st: State, ev: Event)
    requires Inv(g, st) && Step(g, st, ev).Some?
    ensures Inv(g, Step(g, st, ev).value)
  {
    match ev
    case Begin(i) => BeginInv(g, st, i);
    case Finish(i) => FinishInv(g, st, i);
    case Abandon(i) => AbandonInv(g, st, i);
    case Wake => WakeInv(g, st);
  }

  lemma BeginInv(g: Dag, st: State, i: nat)
    requires Inv(g, st) && Step(g, st, Begin(i)).Some?
    ensures Inv(g, Step(g, st, Begin(i)).value)
  {
    var t := Step(g, st, Begin(i)).value;
    assert t.running.Keys == st.running.Keys;
    assert forall j: nat | j < |g.gs| :: Runnable(g, t, j) <==> Runnable(g, st, j);
  }

  lemma DropKeys(st: State, i: nat)
    ensures forall j :: j in Drop(st, i).running <==> j in st.running && j != i
    ensures forall j | j in Drop(st, i).running :: Drop(st, i).running[j] == st.running[j]
    ensures Drop(st, i).running.Keys == st.running.Keys - {i}
  {
  }

  lemma IdsSnoc(gs: seq<GraphNode>, n: nat)
    requires |gs| == n + 1
    ensures IdsOf(gs) == IdsOf(gs[..n]) + {gs[n].id}
  {
    forall d | d in IdsOf(gs) ensures d in IdsOf(gs[..n]) + {gs[n].id} {
      var i :| 0 <= i < |gs| && gs[i].id == d;
      if i < n { assert gs[..n][i].id == d; }
    }
    forall d | d in IdsOf(gs[..n]) ensures d in IdsOf(gs) {
      var i :| 0 <= i < n && gs[..n][i].id == d;
      assert gs[i].id == d;
    }
  }

  lemma {:induction false} IdsAtMost(gs: seq<GraphNode>)
    ensures |IdsOf(gs)| <= |gs|
    decreases |gs|
  {
    if gs != [] {
      var n := |gs| - 1;
      IdsAtMost(gs[..n]);
      IdsSnoc(gs, n);
    }
  }

  /** Once as many ids completed as there are steps, every id completed. */
  lemma AllCompleted(g: Dag, st: State)
    requires Inv(g, st) && |st.completed| == |g.gs|
    ensures st.completed == IdsOf(g.gs)
  {
    IdsAtMost(g.gs);
    forall d | d in st.completed ensures d in IdsOf(g.gs) {
      var i :| i in st.finished && i < |g.gs| && g.gs[i].id == d;
    }
    assert |IdsOf(g.gs) - st.completed| == |IdsOf(g.gs)| - |st.completed|;
    assert IdsOf(g.gs) - st.completed == {};
  }

  lemma FinishInv(g: Dag, st: State, i: nat)
    requires Inv(g, st) && Step(g, st, Finish(i)).Some?
    ensures Inv(g, Step(g, st, Finish(i)).value)
  {
    hide ExecCall, Collect, Inv;
    LeafNeverReturns(g, i, st.running[i].local);
    Collects(st, g.gs[i].id, i, g.Leaf(i, st.running[i].local));
    if g.Leaf(i, st.running[i].local).st.Running? {
      FinishRunning(g, st, i);
    } else {
      EndedInv(g, st, Step(g, st, Finish(i)).value, i);
    }
  }

  /** A step that pauses or fails leaves the graph and changes nothing else but its verdict. */
  lemma EndedInv(g: Dag, st: State, t: State, i: nat)
    requires Inv(g, st) && i in st.running
    requires t.running == Drop(st, i).running && t.tokens == st.tokens + 1 && t.launched == st.launched
             && t.exited == st.exited
    requires t.completed == st.completed && t.finished == st.finished
    requires t.susp || t.err.Some?
    ensures Inv(g, t)
  {
    hide Quiet, InNeedsOrder;
    DropKeys(st, i);
  }

  lemma FinishInOrder(g: Dag, st: State, i: nat)
    requires Inv(g, st) && i in st.running
    ensures InNeedsOrder(g, st.finished + [i])
  {
    var fin := st.finished + [i];
    forall k, d | 0 <= k < |fin| && NeedOf(g, fin[k], d) ensures exists j :: 0 <= j < k && HasId(g, fin[j], d) {
      if k < |st.finished| {
        assert NeedOf(g, st.finished[k], d);
        var j :| 0 <= j < k && HasId(g, st.finished[j], d);
        assert fin[j] == st.finished[j];
      } else {
        assert fin[k] == i && d in g.gs[i].needs && d in st.completed;
        var n :| n in st.finished && n < |g.gs| && g.gs[n].id == d;
        var j :| 0 <= j < |st.finished| && st.finished[j] == n;
        assert fin[j] == n && HasId(g, fin[j], d);
      }
    }
    forall j, k | 0 <= j < k < |fin| ensures fin[j] != fin[k] {
      assert fin[j] in st.finished;
    }
  }

  lemma FinishRunning(g: Dag, st: State, i: nat)
    requires Inv(g, st) && Step(g, st, Finish(i)).Some? && g.Leaf(i, st.running[i].local).st.Running?
    ensures Inv(g, Step(g, st, Finish(i)).value)
  {
    hide ExecCall, Quiet, InNeedsOrder, Collect, StepScope;
    var t := Step(g, st, Finish(i)).value;
    Collects(st, g.gs[i].id, i, g.Leaf(i, st.running[i].local));
    DropKeys(st, i);
    forall d | d in t.completed ensures exists k :: k in t.finished && k < |g.gs| && g.gs[k].id == d {
      if d in st.completed {
        var k :| k in st.finished && k < |g.gs| && g.gs[k].id == d;
        assert k in t.finished;
      } else {
        assert t.finished[|t.finished| - 1] == i;
      }
    }
    FinishInOrder(g, st, i);
    if |st.completed| == |g.gs| {
      AllCompleted(g, st);
      assert g.gs[i].id in IdsOf(g.gs);
      assert t.completed == st.completed;
    }
  }

  lemma LeafNeverReturns(g: Dag, i: nat, s: Scope)
    requires i < |g.gs|
    ensures !g.Leaf(i, s).st.Returned?
  {
  }

  lemma AbandonInv(g: Dag, st: State, i: nat)
    requires Inv(g, st) && Step(g, st, Abandon(i)).Some?
    ensures Inv(g, Step(g, st, Abandon(i)).value)
  {
    DropKeys(st, i);
  }

  lemma WakeInv(g: Dag, st: State)
    requires Inv(g, st) && Step(g, st, Wake).Some?
    ensures Inv(g, Step(g, st, Wake).value)
  {
    ScheduleKeeps(g, st.(tokens := st.tokens - 1));
    var t := Step(g, st, Wake).value;
    assert st.err.None? && !st.susp ==> Quiet(g, t);
  }

  lemma {:induction false} ReachableInv(g: Dag, evs: seq<Event>)
    requires After(g, evs).Some?
    ensures Inv(g, After(g, evs).value)
    decreases |evs|
  {
    if evs == [] {
      InitInv(g);
    } else {
      ReachableInv(g, evs[..|evs| - 1]);
      StepInv(g, After(g, evs[..|evs| - 1]).value, evs[|evs| - 1]);
    }
  }

  /** How steps that did not complete ended: nothing stops before a pause or an error, each
      pause and error is some step's, and without an error every launched step is accounted
      for and none failed but by a cancellation. */
  ghost predicate StopInv(g: Dag, st: State) {
    && (st.stopped != map[] ==> st.susp || st.err.Some?)
    && (forall i | i in st.stopped ::
          i < |g.gs| && i in st.launched && i !in st.running && i !in st.finished && Ends(st.stopped[i].st))
    && (forall i, d | i in st.stopped && d in g.gs[i].needs :: d in st.completed)
    && (st.susp ==> exists i :: i in st.stopped && st.stopped[i].st.Suspended?)
    && (st.err.Some? ==> exists i :: i in st.stopped && st.stopped[i].st == Failed(st.err.value))
    && (st.err.None? ==> forall i | i in st.launched :: i in st.running || i in st.finished || i in st.stopped)
    && (st.err.None? ==>
          forall i | i in st.stopped :: st.stopped[i].st.Suspended? || st.stopped[i].st == Failed(Cancelled))
  }

  predicate Ends(st: Status) {
    st.Suspended? || st.Failed?
  }

  lemma StopStep(g: Dag, st: State, ev: Event)
    requires Inv(g, st) && StopInv(g, st) && Step(g, st, ev).Some?
    ensures StopInv(g, Step(g, st, ev).value)
  {
    match ev
    case Begin(i) => StopBegin(g, st, i);
    case Wake => StopWake(g, st);
    case Abandon(i) => StopAbandon(g, st, i);
    case Finish(i) =>
      LeafNeverReturns(g, i, st.running[i].local);
      if g.Leaf(i, st.running[i].local).st.Running? { StopRunning(g, st, i); } else { StopEnds(g, st, i); }
  }

  lemma StopBegin(g: Dag, st: State, i: nat)
    requires StopInv(g, st) && Step(g, st, Begin(i)).Some?
    ensures StopInv(g, Step(g, st, Begin(i)).value)
  {
    var t := Step(g, st, Begin(i)).value;
    assert t.running.Keys == st.running.Keys;
  }

  lemma StopAbandon(g: Dag, st: State, i: nat)
    requires StopInv(g, st) && Step(g, st, Abandon(i)).Some?
    ensures StopInv(g, Step(g, st, Abandon(i)).value)
  {
    DropKeys(st, i);
  }

  lemma StopWake(g: Dag, st: State)
    requires Inv(g, st) && StopInv(g, st) && Step(g, st, Wake).Some?
    ensures StopInv(g, Step(g, st, Wake).value)
  {
    hide Quiet, InNeedsOrder;
    ScheduleKeeps(g, st.(tokens := st.tokens - 1));
  }

  lemma StopRunning(g: Dag, st: State, i: nat)
    requires Inv(g, st) && StopInv(g, st) && Step(g, st, Finish(i)).Some? && g.Leaf(i, st.running[i].local).st.Running?
    ensures StopInv(g, Step(g, st, Finish(i)).value)
  {
    hide ExecCall, Quiet, InNeedsOrder, StepScope, Collect;
    Collects(st, g.gs[i].id, i, g.Leaf(i, st.running[i].local));
    DropKeys(st, i);
    var t := Step(g, st, Finish(i)).value;
    assert forall j | j in st.finished :: j in t.finished;
    assert t.finished[|st.finished|] == i;
  }

  lemma StopEnds(g: Dag, st: State, i: nat)
    requires Inv(g, st) && StopInv(g, st) && Step(g, st, Finish(i)).Some? && Ends(g.Leaf(i, st.running[i].local).st)
    ensures StopInv(g, Step(g, st, Finish(i)).value)
  {
    hide ExecCall, Inv, StopInv, StepScope, Collect;
    Collects(st, g.gs[i].id, i, g.Leaf(i, st.running[i].local));
    DropKeys(st, i);
    RunningIs(g, st, i);
    StopAdds(g, st, Step(g, st, Finish(i)).value, i, g.Leaf(i, st.running[i].local));
  }

  lemma RunningIs(g: Dag, st: State, i: nat)
    requires Inv(g, st) && i in st.running
    ensures i < |g.gs| && i in st.launched && i !in st.finished && forall d | d in g.gs[i].needs :: d in st.completed
  {
    hide Quiet, InNeedsOrder;
  }

  lemma StopAdds(g: Dag, st: State, t: State, i: nat, e: Eff)
    requires StopInv(g, st) && i in st.running && Ends(e.st)
    requires i < |g.gs| && i in st.launched && i !in st.finished && forall d | d in g.gs[i].needs :: d in st.completed
    requires t.launched == st.launched && t.finished == st.finished && t.completed == st.completed
             && t.stopped == st.stopped[i := e]
    requires forall j :: j in t.running <==> j in st.running && j != i
    requires t.susp == (st.susp || e.st.Suspended?)
    requires t.err == (if st.err.Some? || e.st.Suspended?
                       || (e.st.e == Cancelled && st.susp) then st.err else Some(e.st.e))
    ensures StopInv(g, t)
  {
    assert i in t.stopped && t.stopped[i] == e;
    assert forall j | j in st.stopped :: j in t.stopped && t.stopped[j] == st.stopped[j];
  }

  lemma {:induction false} ReachableStop(g: Dag, evs: seq<Event>)
    requires After(g, evs).Some?
    ensures StopInv(g, After(g, evs).value)
    decreases |evs|
  {
    if evs == [] {
      ScheduleKeeps(g, State(g.outer, {}, map[], None, false, false, 0, {}, [], map[], map[]));
    } else {
      hide Inv, StopInv, Step;
      ReachableStop(g, evs[..|evs| - 1]);
      ReachableInv(g, evs[..|evs| - 1]);
      StopStep(g, After(g, evs[..|evs| - 1]).value, evs[|evs| - 1]);
    }
  }

  // ----- safety

  /** Over all interleavings: a step is launched only after all its needs completed, and is
      launched at most once (it enters the launched set only when it was not there). */
  lemma NeedsBeforeLaunch(g: Dag, evs: seq<Event>, ev: Event, i: nat)
    requires After(g, evs + [ev]).Some?
    requires i in After(g, evs + [ev]).value.running && (After(g, evs).Some? ==> i !in After(g, evs).value.running)
    ensures After(g, evs).Some? && i < |g.gs|
    ensures i !in After(g, evs).value.launched
    ensures forall d | d in g.gs[i].needs :: d in After(g, evs).value.completed
  {
    assert (evs + [ev])[..|evs + [ev]| - 1] == evs;
    ReachableInv(g, evs);
    hide Inv, Step;
    LaunchStep(g, After(g, evs).value, ev, i);
  }

  lemma LaunchStep(g: Dag, st: State, ev: Event, i: nat)
    requires Inv(g, st) && Step(g, st, ev).Some? && i in Step(g, st, ev).value.running && i !in st.running
    ensures i < |g.gs| && i !in st.launched && forall d | d in g.gs[i].needs :: d in st.completed
  {
    hide ExecCall, Collect, Quiet, InNeedsOrder;
    if ev.Wake? {
      ScheduleKeeps(g, st.(tokens := st.tokens - 1));
    } else if ev.Finish? {
      LeafNeverReturns(g, ev.i, st.running[ev.i].local);
      Collects(st, g.gs[ev.i].id, ev.i, g.Leaf(ev.i, st.running[ev.i].local));
      DropKeys(st, ev.i);
    } else if ev.Abandon? {
      DropKeys(st, ev.i);
    }
  }

  /** The main loop never waits with nothing running and nothing to collect, and a run that is
      not over can always take a step. */
  lemma NeverStuck(g: Dag, evs: seq<Event>)
    requires After(g, evs).Some? && g.conc > 0 && !Final(After(g, evs).value)
    ensures var st := After(g, evs).value;
            && (!st.exited ==> st.running != map[] || st.tokens > 0)
            && exists ev :: Step(g, st, ev).Some?
  {
    ReachableInv(g, evs);
    var st := After(g, evs).value;
    if st.running != map[] {
      if i :| i in st.running && st.running[i].Executing? {
        assert Step(g, st, Finish(i)).Some?;
      } else {
        var i :| i in st.running;
        assert Executors(st) == {};
        assert Step(g, st, Begin(i)).Some?;
      }
    } else {
      assert Step(g, st, Wake).Some?;
    }
  }

  lemma StepExecutors(g: Dag, st: State, ev: Event)
    requires Inv(g, st) && Step(g, st, ev).Some? && |Executors(st)| <= g.conc
    ensures |Executors(Step(g, st, ev).value)| <= g.conc
  {
    hide ExecCall, Collect, Inv, Quiet, InNeedsOrder;
    var t := Step(g, st, ev).value;
    match ev
    case Begin(i) => assert Executors(t) == Executors(st) + {i};
    case Finish(i) =>
      RunningIndex(g, st, i);
      LeafNeverReturns(g, i, st.running[i].local);
      Collects(st, g.gs[i].id, i, g.Leaf(i, st.running[i].local));
      DropExecutors(st, t, i);
    case Abandon(i) => DropExecutors(st, t, i);
    case Wake => WakeExecutors(g, st);
  }

  lemma RunningIndex(g: Dag, st: State, i: nat)
    requires Inv(g, st) && i in st.running
    ensures i < |g.gs|
  {
  }

  lemma DropExecutors(st: State, t: State, i: nat)
    requires t.running == Drop(st, i).running
    ensures |Executors(t)| <= |Executors(st)|
  {
    DropKeys(st, i);
    SubsetSize(Executors(t), Executors(st));
  }

  lemma WakeExecutors(g: Dag, st: State)
    requires Inv(g, st) && Step(g, st, Wake).Some?
    ensures Executors(Step(g, st, Wake).value) == Executors(st)
  {
    ScheduleKeeps(g, st.(tokens := st.tokens - 1));
    var t := Step(g, st, Wake).value;
    forall i ensures i in Executors(t) <==> i in Executors(st) {
      assert i in t.running && i !in st.running ==> t.running[i] == Queued;
      assert i in st.running ==> i in t.running && t.running[i] == st.running[i];
    }
  }

  /** Never more steps execute at once than there are slots. */
  lemma {:induction false} NeverMoreThanConc(g: Dag, evs: seq<Event>)
    requires After(g, evs).Some?
    ensures |Executors(After(g, evs).value)| <= g.conc
    decreases |evs|
  {
    hide Inv, Step;
    if evs == [] {
      ScheduleKeeps(g, State(g.outer, {}, map[], None, false, false, 0, {}, [], map[], map[]));
      assert Executors(Init(g)) == {};
    } else {
      NeverMoreThanConc(g, evs[..|evs| - 1]);
      ReachableInv(g, evs[..|evs| - 1]);
      StepExecutors(g, After(g, evs[..|evs| - 1]).value, evs[|evs| - 1]);
    }
  }

  /** Once a step has failed the graph can end at any moment, with that error and nothing more
      published: its cancel lets every goroutine go, whatever it was doing. */
  lemma {:induction false} FailureEnds(g: Dag, evs: seq<Event>) returns (more: seq<Event>)
    requires After(g, evs).Some? && After(g, evs).value.err.Some?
    ensures forall ev | ev in more :: ev.Abandon? || ev.Wake?
    ensures After(g, evs + more).Some? && Final(After(g, evs + more).value)
    ensures var st, t := After(g, evs).value, After(g, evs + more).value;
            Result(g, t) == Broke(st.err.value) && t.scope == st.scope && t.completed == st.completed
    decreases |After(g, evs).value.running|
  {
    hide Inv, Quiet, InNeedsOrder;
    var st := After(g, evs).value;
    ReachableInv(g, evs);
    if i :| i in st.running {
      var next := evs + [Abandon(i)];
      assert next[..|evs|] == evs;
      assert After(g, next) == Some(Drop(st, i));
      DropKeys(st, i);
      SmallerMap(Drop(st, i).running, st.running, i);
      var rest := FailureEnds(g, next);
      more := [Abandon(i)] + rest;
      assert next + rest == evs + more;
    } else if st.exited {
      more := [];
      assert evs + more == evs;
    } else {
      more := [Wake];
      IdleHasToken(g, st);
      assert (evs + more)[..|evs|] == evs;
    }
  }

  /** The main loop is over, or a failure or pause keeps it from launching. */
  predicate Stopped(st: State) {
    st.exited || st.err.Some? || st.susp
  }

  lemma StoppedStep(g: Dag, st: State, ev: Event)
    requires Inv(g, st) && Step(g, st, ev).Some? && Stopped(st)
    ensures var t := Step(g, st, ev).value;
            Stopped(t) && t.launched == st.launched && (st.exited ==> t.exited && !ev.Wake?)
            && (ev.Wake? ==> t.exited)
  {
    hide ExecCall, Collect, Inv, Quiet, InNeedsOrder;
    if ev.Finish? {
      RunningIndex(g, st, ev.i);
      LeafNeverReturns(g, ev.i, st.running[ev.i].local);
      Collects(st, g.gs[ev.i].id, ev.i, g.Leaf(ev.i, st.running[ev.i].local));
    }
  }

  /** After a failure, a pause or the end of the main loop no step is ever launched; the loop
      ends at its next turn, and for good. */
  lemma {:induction false} NothingStartsAfterStop(g: Dag, evs: seq<Event>, more: seq<Event>)
    requires After(g, evs).Some? && Stopped(After(g, evs).value) && After(g, evs + more).Some?
    ensures var st, t := After(g, evs).value, After(g, evs + more).value;
            && Stopped(t) && t.launched == st.launched
            && (st.exited || (exists ev :: ev in more && ev.Wake?) ==> t.exited)
            && (st.exited ==> forall ev | ev in more :: !ev.Wake?)
    decreases |more|
  {
    hide Inv, Step, Stopped;
    if more == [] {
      assert evs + more == evs;
    } else {
      var n := |more| - 1;
      assert (evs + more)[..|evs + more| - 1] == evs + more[..n];
      NothingStartsAfterStop(g, evs, more[..n]);
      ReachableInv(g, evs + more[..n]);
      StoppedStep(g, After(g, evs + more[..n]).value, more[n]);
      assert forall ev | ev in more :: ev in more[..n] || ev == more[n];
    }
  }

  lemma SmallerMap(small: map<nat, Phase>, big: map<nat, Phase>, i: nat)
    requires i in big && small.Keys == big.Keys - {i}
    ensures |small| < |big|
  {
    assert |small.Keys| == |small| && |big.Keys| == |big|;
  }

  lemma IdleHasToken(g: Dag, st: State)
    requires Inv(g, st) && !st.exited && forall i :: i !in st.running
    ensures st.tokens > 0
  {
    assert st.running == map[];
  }

  // ----- termination

  /** Work left: launches not yet made, goroutines not yet begun or finished, completions not
      yet collected. */
  function Fuel(g: Dag, st: State): int {
    4 * (|g.gs| - |st.launched|) + 2 * |st.running| + (|st.running| - |Executors(st)|) + st.tokens
  }

  lemma LaunchedAtMost(g: Dag, s: set<nat>)
    requires forall i | i in s :: i < |g.gs|
    ensures |s| <= |g.gs|
  {
    SubsetSize(s, Upto(|g.gs|));
  }

  function Upto(n: nat): (s: set<nat>)
    ensures |s| == n && forall i: nat :: i in s <==> i < n
  {
    if n == 0 then {} else Upto(n - 1) + {n - 1}
  }

  lemma RunnableIsNew(g: Dag, st: State, i: nat)
    requires Inv(g, st) && i < |g.gs| && Runnable(g, st, i) && st.err.None? && !st.susp
    ensures i !in st.launched
  {
  }

  /** Launching a set of new steps costs more than the goroutines it adds. */
  lemma LaunchFuel(g: Dag, st: State, t: State, now: set<nat>)
    requires now !! st.launched && now !! st.running.Keys
    requires t.launched == st.launched + now && t.running == st.running + Launch(now)
    requires t.tokens == st.tokens
    ensures Fuel(g, t) <= Fuel(g, st)
  {
    assert t.running.Keys == st.running.Keys + now;
    DisjointSize(st.running.Keys, now);
    DisjointSize(st.launched, now);
    MapSize(t.running);
    MapSize(st.running);
    LaunchedAreQueued(st, t, now);
  }

  lemma LaunchedAreQueued(st: State, t: State, now: set<nat>)
    requires now !! st.running.Keys && t.running == st.running + Launch(now)
    ensures Executors(t) == Executors(st)
  {
  }

  lemma DisjointSize(s: set<nat>, t: set<nat>)
    requires s !! t
    ensures |s + t| == |s| + |t|
  {
  }

  lemma MapSize(m: map<nat, Phase>)
    ensures |m| == |m.Keys|
  {
  }

  lemma BeginFuel(g: Dag, st: State, i: nat)
    requires Inv(g, st) && Step(g, st, Begin(i)).Some?
    ensures Fuel(g, Step(g, st, Begin(i)).value) < Fuel(g, st)
  {
    hide Inv;
    var t := Step(g, st, Begin(i)).value;
    assert t.running.Keys == st.running.Keys;
    MapSize(t.running);
    MapSize(st.running);
    assert Executors(t) == Executors(st) + {i} && i !in Executors(st);
  }

  /** Every event consumes work. */
  lemma FuelDrops(g: Dag, st: State, ev: Event)
    requires Inv(g, st) && Step(g, st, ev).Some?
    ensures Fuel(g, Step(g, st, ev).value) < Fuel(g, st)
  {
    hide Inv, ExecCall, Collect, TrySchedule, CheckExit;
    match ev
    case Begin(i) =>
      BeginFuel(g, st, i);
    case Wake =>
      WakeFuel(g, st);
    case Finish(i) =>
      LeafNeverReturns(g, i, st.running[i].local);
      Collects(st, g.gs[i].id, i, g.Leaf(i, st.running[i].local));
      DropFuel(g, st, i);
    case Abandon(i) =>
      DropFuel(g, st, i);
  }

  lemma WakeFuel(g: Dag, st: State)
    requires Inv(g, st) && Step(g, st, Wake).Some?
    ensures Fuel(g, Step(g, st, Wake).value) < Fuel(g, st)
  {
    hide Inv, Runnable, Fuel;
    var u := st.(tokens := st.tokens - 1);
    if st.err.None? && !st.susp {
      var now := set i: nat | i < |g.gs| && Runnable(g, u, i);
      assert now !! st.running.Keys && now !! st.launched by {
        forall i | i in now ensures i !in st.launched && i !in st.running {
          SameRunnable(g, st, u, i);
          RunnableIsNew(g, st, i);
        }
      }
      LaunchFuel(g, u, TrySchedule(g, u), now);
    }
    SpentToken(g, st, u);
    ExitFuel(g, TrySchedule(g, u));
  }

  lemma SameRunnable(g: Dag, st: State, u: State, i: nat)
    requires u == st.(tokens := u.tokens) && i < |g.gs|
    ensures Runnable(g, u, i) == Runnable(g, st, i)
    ensures Runnable(g, st, i) ==> i !in st.running
  {
  }

  lemma SpentToken(g: Dag, st: State, u: State)
    requires st.tokens > 0 && u == st.(tokens := st.tokens - 1)
    ensures Fuel(g, u) < Fuel(g, st)
  {
    assert Executors(u) == Executors(st);
  }

  lemma ExitFuel(g: Dag, st: State)
    ensures Fuel(g, CheckExit(g, st)) == Fuel(g, st)
  {
    assert Executors(CheckExit(g, st)) == Executors(st);
  }

  lemma DropFuel(g: Dag, st: State, i: nat)
    requires i in st.running
    ensures Fuel(g, Drop(st, i)) < Fuel(g, st)
    ensures forall t: State :: t.running == Drop(st, i).running ==> Executors(t) == Executors(Drop(st, i))
  {
    DropKeys(st, i);
    var t := Drop(st, i);
    assert |t.running| == |t.running.Keys| == |st.running.Keys| - 1;
    assert |st.running| == |st.running.Keys|;
    if st.running[i].Executing? {
      assert Executors(t) == Executors(st) - {i};
    } else {
      assert Executors(t) == Executors(st);
    }
  }

  /** Every run of the scheduler is finite: at most four events per step. */
  lemma {:induction false} RunsAreFinite(g: Dag, evs: seq<Event>)
    requires After(g, evs).Some?
    ensures |evs| + Fuel(g, After(g, evs).value) <= 4 * |g.gs| && Fuel(g, After(g, evs).value) >= 0
    decreases |evs|
  {
    var st := After(g, evs).value;
    ReachableInv(g, evs);
    FuelNonNegative(g, st);
    if evs == [] {
      InitFuel(g);
    } else {
      hide Inv, Fuel, Step;
      RunsAreFinite(g, evs[..|evs| - 1]);
      ReachableInv(g, evs[..|evs| - 1]);
      FuelDrops(g, After(g, evs[..|evs| - 1]).value, evs[|evs| - 1]);
    }
  }

  lemma FuelNonNegative(g: Dag, st: State)
    requires Inv(g, st)
    ensures Fuel(g, st) >= 0
  {
    LaunchedAtMost(g, st.launched);
    SubsetSize(Executors(st), st.running.Keys);
    assert |st.running| == |st.running.Keys|;
  }

  lemma InitFuel(g: Dag)
    ensures Fuel(g, Init(g)) <= 4 * |g.gs|
  {
    var none := State(g.outer, {}, map[], None, false, false, 0, {}, [], map[], map[]);
    var now := set i: nat | i < |g.gs| && Runnable(g, none, i);
    LaunchFuel(g, none, TrySchedule(g, none), now);
    ExitFuel(g, TrySchedule(g, none));
    assert Executors(none) == {};
  }

  // ----- completion

  ghost predicate UniqueIds(gs: seq<GraphNode>) {
    forall i, j :: 0 <= i < j < |gs| ==> gs[i].id != gs[j].id
  }

  /** rank witnesses that needs are resolvable and acyclic. */
  ghost predicate Ranked(gs: seq<GraphNode>, rank: nat -> nat) {
    forall i, d | 0 <= i < |gs| && d in gs[i].needs :: exists j :: 0 <= j < |gs| && gs[j].id == d && rank(j) < rank(i)
  }

  lemma {:induction false} RankedAllComplete(g: Dag, st: State, rank: nat -> nat, i: nat)
    requires Inv(g, st) && Ranked(g.gs, rank) && i < |g.gs| && st.running == map[] && Quiet(g, st)
    ensures g.gs[i].id in st.completed
    decreases rank(i)
  {
    forall d | d in g.gs[i].needs ensures d in st.completed {
      var j :| 0 <= j < |g.gs| && g.gs[j].id == d && rank(j) < rank(i);
      RankedAllComplete(g, st, rank, j);
    }
    assert !Runnable(g, st, i);
  }

  function Position(xs: seq<nat>, x: nat): nat {
    if xs == [] then 0 else if xs[0] == x then 0 else 1 + Position(xs[1..], x)
  }

  lemma {:induction false} PositionIs(xs: seq<nat>, k: nat)
    requires k < |xs| && forall j, l :: 0 <= j < l < |xs| ==> xs[j] != xs[l]
    ensures Position(xs, xs[k]) == k
    decreases |xs|
  {
    if k > 0 {
      assert xs[1..][k - 1] == xs[k];
      PositionIs(xs[1..], k - 1);
    }
  }

  /** With unique ids and no failure or pause, a finished run completed every step exactly when
      the needs are resolvable and acyclic; otherwise it reports "no runnable step". */
  lemma CompletesIffAcyclic(g: Dag, evs: seq<Event>)
    requires UniqueIds(g.gs) && After(g, evs).Some? && Final(After(g, evs).value)
    requires After(g, evs).value.err.None? && !After(g, evs).value.susp
    ensures Result(g, After(g, evs).value) == Completed <==> exists rank :: Ranked(g.gs, rank)
    ensures Result(g, After(g, evs).value) == NoRunnable <==> !exists rank :: Ranked(g.gs, rank)
  {
    var st := After(g, evs).value;
    ReachableInv(g, evs);
    if |st.completed| == |g.gs| {
      CompletedRanks(g, st);
    } else {
      forall rank: nat -> nat ensures !Ranked(g.gs, rank) {
        if Ranked(g.gs, rank) { RankedCompletes(g, st, rank); assert false; }
      }
    }
  }

  lemma RankedCompletes(g: Dag, st: State, rank: nat -> nat)
    requires Inv(g, st) && UniqueIds(g.gs) && Ranked(g.gs, rank) && st.running == map[] && Quiet(g, st)
    ensures |st.completed| == |g.gs|
  {
      forall d | d in IdsOf(g.gs) ensures d in st.completed {
        var i :| 0 <= i < |g.gs| && g.gs[i].id == d;
        RankedAllComplete(g, st, rank, i);
      }
      forall d | d in st.completed ensures d in IdsOf(g.gs) {
        var i :| i in st.finished && i < |g.gs| && g.gs[i].id == d;
      }
      UniqueSize(g.gs);
      assert st.completed == IdsOf(g.gs);
  }

  lemma {:induction false} UniqueSize(gs: seq<GraphNode>)
    requires UniqueIds(gs)
    ensures |IdsOf(gs)| == |gs|
    decreases |gs|
  {
    if gs != [] {
      var n := |gs| - 1;
      UniqueSize(gs[..n]);
      IdsSnoc(gs, n);
      assert gs[n].id !in IdsOf(gs[..n]);
    }
  }

  lemma CompletedRanks(g: Dag, st: State)
    requires Inv(g, st) && UniqueIds(g.gs) && |st.completed| == |g.gs|
    ensures exists rank :: Ranked(g.gs, rank)
  {
    var rank := (i: nat) => Position(st.finished, i);
    forall i, d | 0 <= i < |g.gs| && d in g.gs[i].needs
      ensures exists j :: 0 <= j < |g.gs| && g.gs[j].id == d && rank(j) < rank(i)
    {
      NeedFinishedEarlier(g, st, i, d);
    }
    assert Ranked(g.gs, rank);
  }

  lemma FinishedIs(g: Dag, st: State)
    requires Inv(g, st)
    ensures InNeedsOrder(g, st.finished) && forall i | i in st.finished :: i < |g.gs|
    ensures forall d | d in st.completed :: exists i :: i in st.finished && i < |g.gs| && g.gs[i].id == d
  {
    hide Quiet;
  }

  lemma NeedFinishedEarlier(g: Dag, st: State, i: nat, d: string)
    requires Inv(g, st) && UniqueIds(g.gs) && |st.completed| == |g.gs| && i < |g.gs| && d in g.gs[i].needs
    ensures exists j :: 0 <= j < |g.gs| && g.gs[j].id == d && Position(st.finished, j) < Position(st.finished, i)
  {
    hide Inv;
    FinishedIs(g, st);
    EveryStepFinished(g, st, i);
    var k :| 0 <= k < |st.finished| && st.finished[k] == i;
    assert NeedOf(g, st.finished[k], d);
    var j :| 0 <= j < k && HasId(g, st.finished[j], d);
    PositionIs(st.finished, k);
    PositionIs(st.finished, j);
  }

  lemma EveryStepFinished(g: Dag, st: State, i: nat)
    requires Inv(g, st) && UniqueIds(g.gs) && |st.completed| == |g.gs| && i < |g.gs|
    ensures i in st.finished
  {
    AllCompleted(g, st);
    assert g.gs[i].id in IdsOf(g.gs);
    var k :| k in st.finished && k < |g.gs| && g.gs[k].id == g.gs[i].id;
  }

  // ----- confluence

  /** On scope s itself, step i runs and its published binding is what its leaf yields. */
  ghost predicate Held(g: Dag, s: Scope, i: nat)
    requires i < |g.gs|
  {
    var e, id := g.Leaf(i, s), g.gs[i].id;
    e.st.Running? && id in s && id in e.scope && s[id] == e.scope[id]
  }

  /** s is the enclosing scope plus consistent bindings for exactly the steps in done. */
  ghost predicate Settles(g: Dag, s: Scope, done: set<string>) {
    && done <= IdsOf(g.gs)
    && NeedsClosed(g.gs, done)
    && (forall h | h !in IdsOf(g.gs) :: AgreeOn(s, g.outer, h))
    && (forall i: nat | i < |g.gs| && g.gs[i].id in done :: Held(g, s, i))
  }

  /** The names step i may read. */
  ghost predicate Visible(g: Dag, i: nat, h: string)
    requires i < |g.gs|
  {
    h !in IdsOf(g.gs) || TransitiveNeed(g.gs, i, h)
  }

  /** A leaf's effect depends on the scope only through the names it may read. */
  lemma LeafAgrees(g: Dag, i: nat, s: Scope, t: Scope)
    requires WellScoped(g.gs) && i < |g.gs| && forall h | Visible(g, i, h) :: AgreeOn(s, t, h)
    ensures var e, f := g.Leaf(i, s), g.Leaf(i, t);
            && e.st == f.st && e.tr == f.tr
            && (e.st.Running? ==>
                  g.gs[i].id in e.scope && g.gs[i].id in f.scope && e.scope[g.gs[i].id] == f.scope[g.gs[i].id])
  {
    var call := g.gs[i].run;
    assert call.bind == g.gs[i].id && call.bind != "";
    forall k, h | k in call.args && Reads(call.args[k], h) ensures AgreeOn(s, t, h) {
      if h in IdsOf(g.gs) { assert TransitiveNeed(g.gs, i, h); }
      assert Visible(g, i, h);
    }
    EvalArgsAgree(g.w.render, s, t, call.args);
  }

  /** Publishing a new step leaves every name that a settled or ready step may read alone. */
  lemma VisibleElsewhere(g: Dag, done: set<string>, i: nat, id: string, h: string)
    requires i < |g.gs| && NeedsClosed(g.gs, done) && (forall d | d in g.gs[i].needs :: d in done)
    requires id in IdsOf(g.gs) && id !in done && Visible(g, i, h)
    ensures h != id
  {
    if TransitiveNeed(g.gs, i, h) { assert h in done; }
  }

  lemma NeedsOfDone(g: Dag, done: set<string>, i: nat)
    requires i < |g.gs| && NeedsClosed(g.gs, done) && g.gs[i].id in done
    ensures forall d | d in g.gs[i].needs :: d in done
  {
  }

  /** Completing step i, run on a snapshot that agrees on what it may read, keeps s settled and
      leaves the effects of the settled steps as they were. */
  lemma Extend(g: Dag, s: Scope, done: set<string>, i: nat, local: Scope)
    requires WellScoped(g.gs) && Settles(g, s, done) && i < |g.gs| && g.gs[i].id !in done
    requires (forall d | d in g.gs[i].needs :: d in done) && g.Leaf(i, local).st.Running?
    requires forall h | Visible(g, i, h) :: AgreeOn(local, s, h)
    ensures var t := StepScope(g.gs[i].id, s, g.Leaf(i, local));
            && Settles(g, t, done + {g.gs[i].id})
            && g.Leaf(i, t).tr == g.Leaf(i, local).tr
            && (forall j: nat | j < |g.gs| && g.gs[j].id in done :: g.Leaf(j, t).tr == g.Leaf(j, s).tr)
            && (forall h | h != g.gs[i].id :: AgreeOn(t, s, h))
  {
    hide ExecCall, WellScoped, Settles, NeedsClosed;
    var id := g.gs[i].id;
    var e := g.Leaf(i, local);
    SettlesParts(g, s, done);
    LeafAgrees(g, i, local, s);
    var t := StepScope(id, s, e);
    BindsId(g, i);
    assert id in IdsOf(g.gs);
    forall j: nat | j < |g.gs| && (g.gs[j].id in done || j == i)
      ensures Held(g, t, j) && g.Leaf(j, t).tr == (if j == i then e.tr else g.Leaf(j, s).tr)
    {
      if j != i { NeedsOfDone(g, done, j); }
      forall h | Visible(g, j, h) ensures AgreeOn(s, t, h) { VisibleElsewhere(g, done, j, id, h); }
      LeafAgrees(g, j, s, t);
    }
    ClosedWith(g, done, i);
    forall j: nat | j < |g.gs| && g.gs[j].id in done + {id} ensures Held(g, t, j) {
      if g.gs[j].id == id { SameId(g, i, j); }
    }
    SettlesFrom(g, t, done + {id});
  }

  lemma SettlesParts(g: Dag, s: Scope, done: set<string>)
    requires Settles(g, s, done)
    ensures done <= IdsOf(g.gs) && NeedsClosed(g.gs, done)
    ensures forall h | h !in IdsOf(g.gs) :: AgreeOn(s, g.outer, h)
    ensures forall i: nat | i < |g.gs| && g.gs[i].id in done :: Held(g, s, i)
  {
  }

  lemma SettlesFrom(g: Dag, s: Scope, done: set<string>)
    requires done <= IdsOf(g.gs) && NeedsClosed(g.gs, done)
    requires forall h | h !in IdsOf(g.gs) :: AgreeOn(s, g.outer, h)
    requires forall i: nat | i < |g.gs| && g.gs[i].id in done :: Held(g, s, i)
    ensures Settles(g, s, done)
  {
  }

  lemma BindsId(g: Dag, i: nat)
    requires WellScoped(g.gs) && i < |g.gs|
    ensures g.gs[i].id != ""
  {
  }

  lemma SameId(g: Dag, i: nat, j: nat)
    requires WellScoped(g.gs) && i < |g.gs| && j < |g.gs| && g.gs[i].id == g.gs[j].id
    ensures i == j
  {
  }

  lemma ClosedWith(g: Dag, done: set<string>, i: nat)
    requires WellScoped(g.gs) && NeedsClosed(g.gs, done) && i < |g.gs| && forall d | d in g.gs[i].needs :: d in done
    ensures NeedsClosed(g.gs, done + {g.gs[i].id})
  {
    forall j, d | 0 <= j < |g.gs| && g.gs[j].id in done + {g.gs[i].id}
    && d in g.gs[j].needs ensures d in done + {g.gs[i].id} {
      if g.gs[j].id == g.gs[i].id { SameId(g, i, j); }
    }
  }

  /** What every reachable state of the scheduler keeps about its scope. */
  ghost predicate ScopeInv(g: Dag, st: State) {
    && Settles(g, st.scope, st.completed)
    && (forall i: nat | i < |g.gs| && g.gs[i].id in st.completed ::
          i in st.acts && st.acts[i] == g.Leaf(i, st.scope).tr)
    && (forall i | i in st.acts :: i < |g.gs| && g.gs[i].id in st.completed)
    && (forall i | i in st.running && st.running[i].Executing? :: i < |g.gs| &&
          forall h | Visible(g, i, h) :: AgreeOn(st.running[i].local, st.scope, h))
    && (forall i | i in st.running :: i < |g.gs| && g.gs[i].id !in st.completed)
  }

  lemma InitScope(g: Dag)
    requires WellScoped(g.gs)
    ensures ScopeInv(g, Init(g))
  {
    ScheduleKeeps(g, State(g.outer, {}, map[], None, false, false, 0, {}, [], map[], map[]));
  }

  lemma StepScopeInv(g: Dag, st: State, ev: Event)
    requires WellScoped(g.gs) && Inv(g, st) && ScopeInv(g, st) && Step(g, st, ev).Some?
    ensures ScopeInv(g, Step(g, st, ev).value)
  {
    hide WellScoped, ExecCall, Inv, ScopeInv, Collect;
    match ev
    case Begin(i) => BeginScope(g, st, i);
    case Wake => WakeScope(g, st);
    case Abandon(i) => DropScope(g, st, Drop(st, i), i);
    case Finish(i) =>
      LeafNeverReturns(g, i, st.running[i].local);
      if g.Leaf(i, st.running[i].local).st.Running? {
        FinishScope(g, st, i);
      } else {
        Collects(st, g.gs[i].id, i, g.Leaf(i, st.running[i].local));
        DropScope(g, st, Step(g, st, Finish(i)).value, i);
      }
  }

  lemma BeginScope(g: Dag, st: State, i: nat)
    requires ScopeInv(g, st) && Step(g, st, Begin(i)).Some?
    ensures ScopeInv(g, Step(g, st, Begin(i)).value)
  {
    hide Settles, Visible, ExecCall;
  }

  lemma WakeScope(g: Dag, st: State)
    requires Inv(g, st) && ScopeInv(g, st) && Step(g, st, Wake).Some?
    ensures ScopeInv(g, Step(g, st, Wake).value)
  {
    hide ScopeInv, Quiet, InNeedsOrder;
    ScheduleKeeps(g, st.(tokens := st.tokens - 1));
    LaunchScope(g, st, Step(g, st, Wake).value);
  }

  lemma LaunchScope(g: Dag, st: State, t: State)
    requires ScopeInv(g, st) && t.scope == st.scope && t.completed == st.completed && t.acts == st.acts
    requires forall i | i in t.running ::
               (i in st.running && t.running[i] == st.running[i])
               || (t.running[i].Queued? && i < |g.gs| && g.gs[i].id !in st.completed)
    ensures ScopeInv(g, t)
  {
    hide Settles, Visible, ExecCall;
  }

  lemma DropScope(g: Dag, st: State, t: State, i: nat)
    requires ScopeInv(g, st) && t.running == Drop(st, i).running
    requires t.scope == st.scope && t.completed == st.completed && t.acts == st.acts
    ensures ScopeInv(g, t)
  {
    hide Settles, Visible, ExecCall;
    DropKeys(st, i);
  }

  lemma FinishScope(g: Dag, st: State, i: nat)
    requires WellScoped(g.gs) && Inv(g, st) && ScopeInv(g, st) && Step(g, st, Finish(i)).Some?
    requires g.Leaf(i, st.running[i].local).st.Running?
    ensures ScopeInv(g, Step(g, st, Finish(i)).value)
  {
    hide Settles, WellScoped, ExecCall, Visible, Inv, NeedsClosed, StepScope, Collect;
    Collects(st, g.gs[i].id, i, g.Leaf(i, st.running[i].local));
    var t, id := Step(g, st, Finish(i)).value, g.gs[i].id;
    DropKeys(st, i);
    SettlesParts(g, st.scope, st.completed);
    RunningIs(g, st, i);
    Extend(g, st.scope, st.completed, i, st.running[i].local);
    assert id in IdsOf(g.gs);
    forall j | j in t.running ensures j < |g.gs| && g.gs[j].id !in t.completed {
      if g.gs[j].id == id { SameId(g, i, j); }
    }
    forall j, h | j in t.running && t.running[j].Executing?
    && Visible(g, j, h) ensures AgreeOn(t.running[j].local, t.scope, h) {
      RunningIs(g, st, j);
      VisibleElsewhere(g, st.completed, j, id, h);
      AgreeChain(t.running[j].local, st.scope, t.scope, h);
    }
    forall j: nat | j < |g.gs| && g.gs[j].id in t.completed ensures j in t.acts && t.acts[j] == g.Leaf(j, t.scope).tr {
      if g.gs[j].id == id { SameId(g, i, j); } else { assert g.gs[j].id in st.completed; }
    }
  }

  lemma AgreeChain(a: Scope, b: Scope, c: Scope, h: string)
    requires AgreeOn(a, b, h) && AgreeOn(c, b, h)
    ensures AgreeOn(a, c, h)
  {
  }

  lemma {:induction false} ReachableScope(g: Dag, evs: seq<Event>)
    requires WellScoped(g.gs) && After(g, evs).Some?
    ensures ScopeInv(g, After(g, evs).value)
    decreases |evs|
  {
    hide ScopeInv, Step, WellScoped;
    if evs == [] {
      InitScope(g);
    } else {
      ReachableScope(g, evs[..|evs| - 1]);
      ReachableInv(g, evs[..|evs| - 1]);
      StepScopeInv(g, After(g, evs[..|evs| - 1]).value, evs[|evs| - 1]);
    }
  }

  ghost predicate SameAt(g: Dag, s: Scope, t: Scope, i: nat) {
    i < |g.gs| && AgreeOn(s, t, g.gs[i].id) && g.Leaf(i, s).tr == g.Leaf(i, t).tr
  }

  /** Settled scopes over all steps coincide: follow any needs-respecting completion order. */
  lemma {:induction false} SettledUnique(g: Dag, s: Scope, t: Scope, fin: seq<nat>, k: nat)
    requires WellScoped(g.gs) && Settles(g, s, IdsOf(g.gs)) && Settles(g, t, IdsOf(g.gs))
    requires InNeedsOrder(g, fin) && (forall i | i in fin :: i < |g.gs|) && k <= |fin|
    ensures forall j | 0 <= j < k :: SameAt(g, s, t, fin[j])
  {
    if k > 0 {
      hide WellScoped, Settles;
      SettledUnique(g, s, t, fin, k - 1);
      assert fin[k - 1] in fin;
      SettledStep(g, s, t, fin, k - 1);
    }
  }

  lemma SettledStep(g: Dag, s: Scope, t: Scope, fin: seq<nat>, k: nat)
    requires WellScoped(g.gs) && Settles(g, s, IdsOf(g.gs)) && Settles(g, t, IdsOf(g.gs))
    requires InNeedsOrder(g, fin) && k < |fin| && fin[k] < |g.gs|
    requires forall j | 0 <= j < k :: SameAt(g, s, t, fin[j])
    ensures SameAt(g, s, t, fin[k])
  {
    hide ExecCall, WellScoped, Settles;
    var i := fin[k];
    SettlesParts(g, s, IdsOf(g.gs));
    SettlesParts(g, t, IdsOf(g.gs));
    forall h | Visible(g, i, h) ensures AgreeOn(s, t, h) {
      if h in IdsOf(g.gs) {
        VisibleEarlier(g, fin, k, h);
        var j :| 0 <= j < k && HasId(g, fin[j], h);
        assert SameAt(g, s, t, fin[j]);
      } else {
        assert AgreeOn(s, g.outer, h) && AgreeOn(t, g.outer, h);
      }
    }
    LeafAgrees(g, i, s, t);
    assert g.gs[i].id in IdsOf(g.gs);
    assert Held(g, s, i) && Held(g, t, i);
  }

  /** What a step may read from the graph completed before it. */
  lemma VisibleEarlier(g: Dag, fin: seq<nat>, k: nat, h: string)
    requires WellScoped(g.gs) && InNeedsOrder(g, fin) && k < |fin| && fin[k] < |g.gs|
    requires Visible(g, fin[k], h) && h in IdsOf(g.gs)
    ensures exists j :: 0 <= j < k && HasId(g, fin[j], h)
  {
    var x := set j | 0 <= j < k && fin[j] < |g.gs| :: g.gs[fin[j]].id;
    PrefixClosed(g, fin, k);
    forall d | d in g.gs[fin[k]].needs ensures d in x {
      assert NeedOf(g, fin[k], d);
      var j :| 0 <= j < k && HasId(g, fin[j], d);
    }
    assert TransitiveNeed(g.gs, fin[k], h);
    assert h in x;
    var j :| 0 <= j < k && fin[j] < |g.gs| && g.gs[fin[j]].id == h;
    assert HasId(g, fin[j], h);
  }

  lemma PrefixClosed(g: Dag, fin: seq<nat>, k: nat)
    requires WellScoped(g.gs) && InNeedsOrder(g, fin) && k <= |fin|
    ensures NeedsClosed(g.gs, set j | 0 <= j < k && fin[j] < |g.gs| :: g.gs[fin[j]].id)
  {
    var x := set j | 0 <= j < k && fin[j] < |g.gs| :: g.gs[fin[j]].id;
    forall i, d | 0 <= i < |g.gs| && g.gs[i].id in x && d in g.gs[i].needs ensures d in x {
      var j :| 0 <= j < k && fin[j] < |g.gs| && g.gs[fin[j]].id == g.gs[i].id;
      SameId(g, i, fin[j]);
      assert NeedOf(g, fin[j], d);
      var n :| 0 <= n < j && HasId(g, fin[n], d);
    }
  }

  /** The scope a completed run leaves is settled over all steps. */
  lemma CompletedSettles(g: Dag, evs: seq<Event>)
    requires WellScoped(g.gs) && After(g, evs).Some? && Result(g, After(g, evs).value) == Completed
    ensures Settles(g, After(g, evs).value.scope, IdsOf(g.gs))
    ensures InNeedsOrder(g, After(g, evs).value.finished)
            && (forall i | i in After(g, evs).value.finished :: i < |g.gs|)
    ensures forall i: nat | i < |g.gs| :: i in After(g, evs).value.finished
  {
    hide After, Inv, ScopeInv, Settles, InNeedsOrder;
    ReachableInv(g, evs);
    ReachableScope(g, evs);
    CompletedStateSettles(g, After(g, evs).value);
  }

  lemma CompletedStateSettles(g: Dag, st: State)
    requires WellScoped(g.gs) && Inv(g, st) && ScopeInv(g, st) && Result(g, st) == Completed
    ensures Settles(g, st.scope, IdsOf(g.gs))
    ensures InNeedsOrder(g, st.finished) && (forall i | i in st.finished :: i < |g.gs|)
    ensures forall i: nat | i < |g.gs| :: i in st.finished
  {
    AllCompleted(g, st);
    forall i: nat | i < |g.gs| ensures i in st.finished { EveryStepFinished(g, st, i); }
  }

  /** Confluence: all interleavings that complete publish the same bindings and perform, step
      by step, the same session operations (calls, memo records). */
  lemma SchedulesAgree(g: Dag, xs: seq<Event>, ys: seq<Event>)
    requires WellScoped(g.gs) && After(g, xs).Some? && After(g, ys).Some?
    requires Result(g, After(g, xs).value) == Completed && Result(g, After(g, ys).value) == Completed
    ensures After(g, xs).value.scope == After(g, ys).value.scope
    ensures After(g, xs).value.acts == After(g, ys).value.acts
  {
    hide After, Inv, Settles, WellScoped, InNeedsOrder, ExecCall;
    var a, b := After(g, xs).value, After(g, ys).value;
    CompletedSettles(g, xs);
    CompletedSettles(g, ys);
    ReachableScope(g, xs);
    ReachableScope(g, ys);
    SettledScopesEqual(g, a.scope, b.scope, a.finished);
    ReachableInv(g, xs);
    ReachableInv(g, ys);
    AllCompleted(g, a);
    AllCompleted(g, b);
    ActsEqual(g, a, b);
  }

  lemma ActsEqual(g: Dag, a: State, b: State)
    requires ScopeInv(g, a) && ScopeInv(g, b) && a.scope == b.scope && a.completed == b.completed == IdsOf(g.gs)
    ensures a.acts == b.acts
  {
    hide Settles, Visible, ExecCall;
    forall i: nat | i < |g.gs| ensures i in a.acts && i in b.acts && a.acts[i] == b.acts[i] {
      assert g.gs[i].id in IdsOf(g.gs);
    }
    assert a.acts.Keys == b.acts.Keys;
  }

  lemma SettledScopesEqual(g: Dag, s: Scope, t: Scope, fin: seq<nat>)
    requires WellScoped(g.gs) && Settles(g, s, IdsOf(g.gs)) && Settles(g, t, IdsOf(g.gs))
    requires InNeedsOrder(g, fin) && (forall i | i in fin :: i < |g.gs|) && forall i: nat | i < |g.gs| :: i in fin
    ensures s == t
  {
    hide Settles, WellScoped, ExecCall, InNeedsOrder;
    SettledUnique(g, s, t, fin, |fin|);
    SettlesParts(g, s, IdsOf(g.gs));
    SettlesParts(g, t, IdsOf(g.gs));
    forall h ensures AgreeOn(s, t, h) {
      if h in IdsOf(g.gs) {
        var i :| 0 <= i < |g.gs| && g.gs[i].id == h;
        assert i in fin;
        var j :| 0 <= j < |fin| && fin[j] == i;
        assert SameAt(g, s, t, fin[j]);
      } else {
        assert AgreeOn(s, g.outer, h) && AgreeOn(t, g.outer, h);
      }
    }
    AgreeingScopesEqual(s, t);
  }

  lemma AgreeingScopesEqual(s: Scope, t: Scope)
    requires forall h :: AgreeOn(s, t, h)
    ensures s == t
  {
    forall h ensures h in s <==> h in t { assert AgreeOn(s, t, h); }
    assert s.Keys == t.Keys;
    forall h | h in s ensures s[h] == t[h] { assert AgreeOn(s, t, h); }
  }
}
