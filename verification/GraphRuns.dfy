/** Schedules of the needs-DAG scheduler are runs of the interpreter: what `GraphScheduler`
    does under any interleaving of goroutines and session operations, `Interp.ExecGraph` does
    for some choice of `halt` and `merge`. */
module GraphRuns {
  import opened Values
  import opened ExecIR
  import opened Eval
  import opened GraphOrder
  import opened Interp
  import opened Addressing
  import opened Scoping
  import opened Session
  import opened GraphScheduler

  // ----- steps that stopped

  /** A stopped step would stop the same way, with the same operations, on the scope as it is. */
  ghost predicate Frozen(g: Dag, st: State) {
    forall i | i in st.stopped :: i < |g.gs| && FrozenAt(g, st, i)
  }

  ghost predicate FrozenAt(g: Dag, st: State, i: nat)
    requires i in st.stopped && i < |g.gs|
  {
    g.gs[i].id !in st.completed && g.Leaf(i, st.scope).st == st.stopped[i].st
    && g.Leaf(i, st.scope).tr == st.stopped[i].tr
  }

  lemma FrozenSame(g: Dag, st: State, t: State)
    requires Frozen(g, st) && t.stopped == st.stopped && t.scope == st.scope && t.completed == st.completed
    ensures Frozen(g, t)
  {
  }

  /** A step that completes changes nothing a stopped step reads. */
  lemma FrozenFinish(g: Dag, st: State, i: nat)
    requires WellScoped(g.gs) && Inv(g, st) && ScopeInv(g, st) && StopInv(g, st) && Frozen(g, st)
    requires Step(g, st, Finish(i)).Some? && g.Leaf(i, st.running[i].local).st.Running?
    ensures Frozen(g, Step(g, st, Finish(i)).value)
  {
    hide WellScoped, ExecCall, Inv, StopInv, ScopeInv, StepScope, Visible, Collect;
    Collects(st, g.gs[i].id, i, g.Leaf(i, st.running[i].local));
    var t, id := Step(g, st, Finish(i)).value, g.gs[i].id;
    RunningIs(g, st, i);
    RunningScope(g, st, i);
    Extend(g, st.scope, st.completed, i, st.running[i].local);
    assert forall h | h != id :: AgreeOn(t.scope, st.scope, h);
    forall j | j in t.stopped ensures j < |g.gs| && FrozenAt(g, t, j) {
      StoppedIs(g, st, j);
      if g.gs[j].id == id { SameId(g, i, j); }
      forall h | Visible(g, j, h) ensures AgreeOn(t.scope, st.scope, h) { VisibleElsewhere(g, st.completed, j, id, h); }
      LeafAgrees(g, j, t.scope, st.scope);
    }
  }

  lemma RunningScope(g: Dag, st: State, i: nat)
    requires Inv(g, st) && ScopeInv(g, st) && i in st.running
    ensures i < |g.gs| && Settles(g, st.scope, st.completed) && g.gs[i].id !in st.completed
            && g.gs[i].id in IdsOf(g.gs) && NeedsClosed(g.gs, st.completed)
    ensures st.running[i].Executing? ==> forall h | Visible(g, i, h) :: AgreeOn(st.running[i].local, st.scope, h)
  {
    hide ExecCall;
  }

  lemma StoppedIs(g: Dag, st: State, i: nat)
    requires StopInv(g, st) && i in st.stopped
    ensures i < |g.gs| && i in st.launched && i !in st.running && i !in st.finished && Ends(st.stopped[i].st)
    ensures forall d | d in g.gs[i].needs :: d in st.completed
  {
  }

  lemma FrozenStop(g: Dag, st: State, i: nat)
    requires WellScoped(g.gs) && Inv(g, st) && ScopeInv(g, st) && Frozen(g, st)
    requires Step(g, st, Finish(i)).Some? && Ends(g.Leaf(i, st.running[i].local).st)
    ensures Frozen(g, Step(g, st, Finish(i)).value)
  {
    hide WellScoped, ExecCall, Inv, ScopeInv, Visible, Collect;
    Collects(st, g.gs[i].id, i, g.Leaf(i, st.running[i].local));
    RunningScope(g, st, i);
    LeafAgrees(g, i, st.running[i].local, st.scope);
  }

  lemma FrozenStep(g: Dag, st: State, ev: Event)
    requires WellScoped(g.gs) && Inv(g, st) && ScopeInv(g, st) && StopInv(g, st) && Frozen(g, st)
             && Step(g, st, ev).Some?
    ensures Frozen(g, Step(g, st, ev).value)
  {
    hide WellScoped, ExecCall, StopInv, ScopeInv, Frozen, Quiet, InNeedsOrder;
    match ev
    case Begin(i) => FrozenSame(g, st, Step(g, st, ev).value);
    case Abandon(i) => FrozenSame(g, st, Step(g, st, ev).value);
    case Wake =>
      ScheduleKeeps(g, st.(tokens := st.tokens - 1));
      FrozenSame(g, st, Step(g, st, ev).value);
    case Finish(i) =>
      LeafNeverReturns(g, i, st.running[i].local);
      if g.Leaf(i, st.running[i].local).st.Running? { FrozenFinish(g, st, i); } else { FrozenStop(g, st, i); }
  }

  lemma {:induction false} ReachableFrozen(g: Dag, evs: seq<Event>)
    requires WellScoped(g.gs) && GraphScheduler.After(g, evs).Some?
    ensures Frozen(g, GraphScheduler.After(g, evs).value)
    decreases |evs|
  {
    hide WellScoped, Inv, StopInv, ScopeInv, Step;
    if evs != [] {
      var before := evs[..|evs| - 1];
      ReachableFrozen(g, before);
      ReachableInv(g, before);
      ReachableStop(g, before);
      ReachableScope(g, before);
      hide Frozen;
      FrozenStep(g, GraphScheduler.After(g, before).value, evs[|evs| - 1]);
    }
  }

  // ----- interleavings of the steps' operations

  function StepAddr(g: Dag, i: nat): Addr {
    Addr(g.p + [i], g.l)
  }

  /** The operations at one address. */
  function Only(tr: seq<Act>, a: Addr): seq<Act> {
    if tr == [] then [] else (if AddrOf(tr[0]) == a then [tr[0]] else []) + Only(tr[1..], a)
  }

  function Without(tr: seq<Act>, a: Addr): seq<Act> {
    if tr == [] then [] else (if AddrOf(tr[0]) == a then [] else [tr[0]]) + Without(tr[1..], a)
  }

  function Bits(tr: seq<Act>, a: Addr): seq<bool> {
    seq(|tr|, k requires 0 <= k < |tr| => AddrOf(tr[k]) == a)
  }

  /** Step i ran to an end of its own. */
  predicate Executed(st: State, i: nat) {
    i in st.acts || i in st.stopped
  }

  function Ran(st: State, i: nat): seq<Act>
    requires Executed(st, i)
  {
    if i in st.acts then st.acts[i] else st.stopped[i].tr
  }

  /** x belongs to an executed step outside `placed`. */
  ghost predicate AtStep(g: Dag, st: State, placed: set<string>, x: Act) {
    exists i: nat :: i < |g.gs| && Executed(st, i) && g.gs[i].id !in placed && AddrOf(x) == StepAddr(g, i)
  }

  /** tr is an interleaving of the operations of the executed steps outside `placed`. */
  ghost predicate Interleaves(g: Dag, st: State, placed: set<string>, tr: seq<Act>) {
    && (forall i: nat | i < |g.gs| && Executed(st, i)
        && g.gs[i].id !in placed :: Only(tr, StepAddr(g, i)) == Ran(st, i))
    && (forall x | x in tr :: AtStep(g, st, placed, x))
  }

  lemma StepAddrApart(g: Dag, i: nat, j: nat)
    requires StepAddr(g, i) == StepAddr(g, j)
    ensures i == j
  {
    assert (g.p + [i])[|g.p|] == i && (g.p + [j])[|g.p|] == j;
  }

  lemma {:induction false} OnlyHas(tr: seq<Act>, a: Addr, x: Act)
    ensures x in Only(tr, a) <==> x in tr && AddrOf(x) == a
  {
    if tr != [] { OnlyHas(tr[1..], a, x); }
  }

  lemma {:induction false} OnlyAll(tr: seq<Act>, a: Addr)
    requires forall x | x in tr :: AddrOf(x) == a
    ensures Only(tr, a) == tr && forall b :: b != a ==> Only(tr, b) == []
  {
    if tr != [] { OnlyAll(tr[1..], a); }
  }

  lemma {:induction false} OnlyShuffle(x: seq<Act>, y: seq<Act>, bits: seq<bool>, a: Addr)
    ensures Only(x, a) == [] ==> Only(Shuffle(x, y, bits), a) == Only(y, a)
    ensures Only(y, a) == [] ==> Only(Shuffle(x, y, bits), a) == Only(x, a)
    decreases |x| + |y|
  {
    if x != [] && y != [] {
      if bits != [] && !bits[0] {
        OnlyShuffle(x, y[1..], bits[1..], a);
      } else {
        OnlyShuffle(x[1..], y, if bits == [] then [] else bits[1..], a);
      }
    }
  }

  /** A trace is the shuffle of its parts at and away from one address. */
  lemma {:induction false} ShuffleBack(tr: seq<Act>, a: Addr)
    ensures Shuffle(Only(tr, a), Without(tr, a), Bits(tr, a)) == tr
  {
    if tr != [] {
      var x, y := Only(tr, a), Without(tr, a);
      ShuffleBack(tr[1..], a);
      assert Bits(tr, a)[1..] == Bits(tr[1..], a);
      if x != [] && y != [] {
        if AddrOf(tr[0]) == a {
          assert x[1..] == Only(tr[1..], a) && y == Without(tr[1..], a);
        } else {
          assert y[1..] == Without(tr[1..], a) && x == Only(tr[1..], a);
        }
      } else if y == [] {
        AllOnly(tr, a);
      } else {
        NoneOnly(tr, a);
      }
    }
  }

  lemma {:induction false} AllOnly(tr: seq<Act>, a: Addr)
    requires Without(tr, a) == []
    ensures Only(tr, a) == tr
  {
    if tr != [] { AllOnly(tr[1..], a); }
  }

  lemma {:induction false} NoneOnly(tr: seq<Act>, a: Addr)
    requires Only(tr, a) == []
    ensures Without(tr, a) == tr
  {
    if tr != [] { NoneOnly(tr[1..], a); }
  }

  lemma {:induction false} OnceByAddress(tr: seq<Act>)
    requires forall a :: Once(Only(tr, a))
    ensures Once(tr)
  {
    if tr != [] {
      var h, rest := tr[0], tr[1..];
      forall a ensures Once(Only(rest, a)) {
        if AddrOf(h) == a {
          assert Only(tr, a) == [h] + Only(rest, a);
          assert Only(tr, a)[1..] == Only(rest, a);
          OnceUncons(Only(tr, a));
        } else {
          assert Only(tr, a) == Only(rest, a);
        }
      }
      OnceByAddress(rest);
      forall b | b in rest ensures !Clash(h, b) {
        if AddrOf(b) == AddrOf(h) {
          var own := Only(tr, AddrOf(h));
          assert own == [h] + Only(rest, AddrOf(h));
          OnceUncons(own);
          OnlyHas(rest, AddrOf(h), b);
          assert own[1..] == Only(rest, AddrOf(h));
        }
      }
      OnceCons(h, rest);
      assert tr == [h] + rest;
    }
  }

  // ----- what an ended schedule left

  /** A reachable state in which nothing more can be launched. */
  ghost predicate Over(g: Dag, st: State) {
    && WellScoped(g.gs) && Inv(g, st) && ScopeInv(g, st) && StopInv(g, st) && Frozen(g, st)
    && (Final(st) || |st.completed| == |g.gs|)
  }

  lemma EndIsOver(g: Dag, evs: seq<Event>)
    requires WellScoped(g.gs) && GraphScheduler.After(g, evs).Some?
    requires Final(GraphScheduler.After(g, evs).value) || Result(g, GraphScheduler.After(g, evs).value) == Completed
    ensures Over(g, GraphScheduler.After(g, evs).value)
  {
    hide WellScoped, Inv, ScopeInv, StopInv, Frozen, GraphScheduler.After;
    ReachableInv(g, evs);
    ReachableScope(g, evs);
    ReachableStop(g, evs);
    ReachableFrozen(g, evs);
  }

  /** How step i ended, on the scope the schedule left. */
  ghost predicate EndsAs(g: Dag, st: State, i: nat, e: Eff)
    requires i < |g.gs| && Executed(st, i)
  {
    && e.tr == Ran(st, i)
    && (if i in st.acts then e.st.Running? && g.gs[i].id in st.completed
        else e.st == st.stopped[i].st && Ends(e.st) && g.gs[i].id !in st.completed)
  }

  lemma ExecutedIs(g: Dag, st: State, i: nat)
    requires Over(g, st) && Executed(st, i)
    ensures i < |g.gs| && (forall d | d in g.gs[i].needs :: d in st.completed) && EndsAs(g, st, i, g.Leaf(i, st.scope))
    ensures i in st.acts ==> Held(g, st.scope, i)
  {
    hide ExecCall, WellScoped, Inv, StopInv;
    if i in st.acts {
      NeedsOfDone(g, st.completed, i);
      assert Held(g, st.scope, i);
    } else {
      StoppedIs(g, st, i);
      assert FrozenAt(g, st, i);
    }
  }

  /** A completed step was executed. */
  lemma CompletedRan(g: Dag, st: State, i: nat)
    requires Over(g, st) && i < |g.gs| && g.gs[i].id in st.completed
    ensures i in st.acts
  {
    hide ExecCall, WellScoped, Inv, StopInv, Frozen, Settles;
  }

  /** A step that could have run was kept from it by a pause or an error. */
  lemma NotExecuted(g: Dag, st: State, i: nat)
    requires Over(g, st) && i < |g.gs| && !Executed(st, i) && forall d | d in g.gs[i].needs :: d in st.completed
    ensures st.susp || st.err.Some?
  {
    hide ExecCall, WellScoped, ScopeInv, StopInv, Frozen, InNeedsOrder;
    if !st.susp && st.err.None? {
      assert g.gs[i].id in IdsOf(g.gs);
      if |st.completed| == |g.gs| { AllCompleted(g, st); }
      assert Runnable(g, st, i) ==> g.gs[i].id in st.completed;
      CompletedRan(g, st, i);
    }
  }

  /** Where no step is ready, all executed steps have been placed. */
  lemma {:induction false} PlacedFinished(g: Dag, fin: seq<nat>, placed: set<string>, k: nat)
    requires InNeedsOrder(g, fin) && (forall i | i in fin :: i < |g.gs|) && k <= |fin|
    requires FirstReady(g.gs, placed, 0).None?
    ensures forall j | 0 <= j < k :: fin[j] < |g.gs| && g.gs[fin[j]].id in placed
  {
    if k > 0 {
      PlacedFinished(g, fin, placed, k - 1);
      var i := fin[k - 1];
      assert i in fin;
      forall d | d in g.gs[i].needs ensures d in placed {
        assert NeedOf(g, i, d);
        var j :| 0 <= j < k - 1 && HasId(g, fin[j], d);
      }
      assert !Ready(g.gs, placed, i);
    }
  }

  lemma PlacedCompleted(g: Dag, st: State, placed: set<string>)
    requires Over(g, st) && FirstReady(g.gs, placed, 0).None?
    ensures st.completed <= placed
  {
    hide ExecCall, WellScoped, Inv, ScopeInv, StopInv, Frozen, InNeedsOrder;
    FinishedIs(g, st);
    PlacedFinished(g, st.finished, placed, |st.finished|);
    forall d | d in st.completed ensures d in placed {
      var n :| n in st.finished && n < |g.gs| && g.gs[n].id == d;
    }
  }

  lemma PlacedAll(g: Dag, st: State, placed: set<string>, i: nat)
    requires Over(g, st) && FirstReady(g.gs, placed, 0).None? && Executed(st, i)
    ensures i < |g.gs| && g.gs[i].id in placed
  {
    hide ExecCall, WellScoped, Inv, ScopeInv, StopInv, Frozen, Executed;
    PlacedCompleted(g, st, placed);
    ExecutedIs(g, st, i);
    assert !Ready(g.gs, placed, i);
  }

  // ----- following a schedule in topological order

  /** v is the graph's world up to timing, and starts exactly the steps that were executed. */
  ghost predicate Follows(g: Dag, st: State, v: World) {
    && v == g.w.(halt := v.halt, merge := v.merge)
    && (forall i: nat | i < |g.gs| && Executed(st, i) :: !v.halt(StepAddr(g, i)))
    && (forall i: nat | i < |g.gs| && !Executed(st, i)
        && (forall d | d in g.gs[i].needs :: d in st.completed) :: v.halt(StepAddr(g, i)))
  }

  /** Having placed `placed`, the sequential run completed what the schedule completed of it,
      and reads what the schedule left. */
  ghost predicate Abreast(g: Dag, st: State, placed: set<string>, s: Scope, done: set<string>) {
    && NeedsClosed(g.gs, placed)
    && done == placed * st.completed
    && (forall h | h !in IdsOf(g.gs) || h in done :: AgreeOn(s, st.scope, h))
  }

  lemma CallIgnoresTiming(g: Dag, v: World, i: nat, s: Scope)
    requires v == g.w.(halt := v.halt, merge := v.merge) && i < |g.gs|
    ensures ExecCall(v, g.gs[i].run, StepAddr(g, i), s) == g.Leaf(i, s)
  {
  }

  /** An executed step reached abreast ends as it did in the schedule. */
  lemma RunsAlike(g: Dag, st: State, placed: set<string>, s: Scope, done: set<string>, i: nat)
    requires Over(g, st) && Abreast(g, st, placed, s, done) && i < |g.gs| && Executed(st, i) && Ready(g.gs, placed, i)
    ensures var e := g.Leaf(i, s);
            && (forall d | d in g.gs[i].needs :: d in done)
            && EndsAs(g, st, i, e)
            && Abreast(g, st, placed + {g.gs[i].id}, StepScope(g.gs[i].id, s, e), StepDone(g.gs[i].id, done, e))
  {
    hide ExecCall, WellScoped, Inv, StopInv, Frozen, Settles, NeedsClosed, Visible;
    var e, id := g.Leaf(i, s), g.gs[i].id;
    ExecutedIs(g, st, i);
    ClosedWith(g, placed, i);
    BindsId(g, i);
    DoneClosed(g, st, placed);
    forall h | Visible(g, i, h) ensures AgreeOn(s, st.scope, h) { VisibleDone(g, done, i, h); }
    LeafAgrees(g, i, s, st.scope);
    var s', done' := StepScope(id, s, e), StepDone(id, done, e);
    assert done' == (placed + {id}) * st.completed;
    forall h | h !in IdsOf(g.gs) || h in done' ensures AgreeOn(s', st.scope, h) {
      assert id in IdsOf(g.gs);
      if h == id { assert Held(g, st.scope, i); } else { assert AgreeOn(s, st.scope, h); }
    }
  }

  lemma DoneClosed(g: Dag, st: State, placed: set<string>)
    requires Over(g, st) && NeedsClosed(g.gs, placed)
    ensures NeedsClosed(g.gs, placed * st.completed)
  {
    hide ExecCall, WellScoped, Inv, StopInv, Frozen;
  }

  lemma VisibleDone(g: Dag, done: set<string>, i: nat, h: string)
    requires i < |g.gs| && NeedsClosed(g.gs, done) && (forall d | d in g.gs[i].needs :: d in done) && Visible(g, i, h)
    ensures h !in IdsOf(g.gs) || h in done
  {
  }

  /** A step that was not executed is passed over, and marks a pause only if there was a pause
      or an error. */
  lemma PassedOver(g: Dag, st: State, placed: set<string>, s: Scope, done: set<string>, i: nat)
    requires Over(g, st) && Abreast(g, st, placed, s, done) && i < |g.gs| && !Executed(st, i) && Ready(g.gs, placed, i)
    ensures Abreast(g, st, placed + {g.gs[i].id}, s, done)
    ensures (forall d | d in g.gs[i].needs :: d in done) ==> st.susp || st.err.Some?
  {
    hide ExecCall, WellScoped, Inv, StopInv, Frozen, Settles, NeedsClosed;
    ClosedWith(g, placed, i);
    if g.gs[i].id in st.completed { CompletedRan(g, st, i); assert false; }
    assert (placed + {g.gs[i].id}) * st.completed == done;
    if forall d | d in g.gs[i].needs :: d in done { NotExecuted(g, st, i); }
  }

  ghost predicate StoppedLeft(g: Dag, st: State, placed: set<string>, end: Status) {
    exists i: nat :: i in st.stopped && i < |g.gs| && g.gs[i].id !in placed && st.stopped[i].st == end
  }

  /** What the steps after `placed` come to. */
  ghost predicate Comes(g: Dag, st: State, placed: set<string>, r: GraphRun) {
    && r.done == st.completed
    && (forall h | h !in IdsOf(g.gs) || h in st.completed :: AgreeOn(r.scope, st.scope, h))
    && (r.susp ==> st.susp || st.err.Some?)
    && (StoppedLeft(g, st, placed, Suspended) ==> r.susp)
    && (r.cut <==> StoppedLeft(g, st, placed, Failed(Cancelled)))
    && (r.err.Some? ==> r.err.value != Cancelled && StoppedLeft(g, st, placed, Failed(r.err.value)))
    && (r.err.None? ==> forall x :: x != Cancelled ==> !StoppedLeft(g, st, placed, Failed(x)))
  }

  lemma ComesPassing(g: Dag, st: State, placed: set<string>, i: nat, r: GraphRun)
    requires Over(g, st) && i < |g.gs| && !Executed(st, i) && Comes(g, st, placed + {g.gs[i].id}, r)
    ensures Comes(g, st, placed, r) && (st.susp || st.err.Some? ==> Comes(g, st, placed, r.(susp := true)))
  {
    hide ExecCall, Inv, StopInv, Frozen, ScopeInv;
    forall x ensures StoppedLeft(g, st, placed, x) <==> StoppedLeft(g, st, placed + {g.gs[i].id}, x) {
      if StoppedLeft(g, st, placed, x) {
        var j: nat :| j in st.stopped && j < |g.gs| && g.gs[j].id !in placed && st.stopped[j].st == x;
        assert g.gs[j].id != g.gs[i].id;
      }
    }
  }

  /** Placing an executed step takes its own ending, if it stopped, off what is left. */
  lemma LeftBy(g: Dag, st: State, placed: set<string>, i: nat, x: Status)
    requires Over(g, st) && i < |g.gs| && g.gs[i].id !in placed
    ensures StoppedLeft(g, st, placed, x) <==>
              StoppedLeft(g, st, placed + {g.gs[i].id}, x) || (i in st.stopped && x == st.stopped[i].st)
  {
    hide ExecCall, Inv, Frozen, ScopeInv, StopInv;
    if StoppedLeft(g, st, placed, x) {
      var j: nat :| j in st.stopped && j < |g.gs| && g.gs[j].id !in placed && st.stopped[j].st == x;
      assert j != i ==> g.gs[j].id != g.gs[i].id;
    }
  }

  lemma ComesRunning(g: Dag, st: State, placed: set<string>, i: nat, e: Eff, r: GraphRun, bits: seq<bool>)
    requires Over(g, st) && i < |g.gs| && Executed(st, i) && g.gs[i].id !in placed && EndsAs(g, st, i, e)
    requires Comes(g, st, placed + {g.gs[i].id}, r)
    ensures Comes(g, st, placed, AddStep(e, r, bits))
  {
    hide Over, StoppedLeft;
    forall x ensures StoppedLeft(g, st, placed, x)
    <==> StoppedLeft(g, st, placed + {g.gs[i].id}, x) || (i in st.stopped && x == st.stopped[i].st) {
      LeftBy(g, st, placed, i, x);
    }
    if i in st.stopped {
      BothWays(g, st, i);
      StoppedPauses(g, st);
    }
  }

  /** No step both completed and stopped. */
  lemma BothWays(g: Dag, st: State, i: nat)
    requires Over(g, st) && i in st.stopped
    ensures i !in st.acts
  {
    hide ExecCall, Inv, StopInv;
    assert FrozenAt(g, st, i);
  }

  lemma StoppedPauses(g: Dag, st: State)
    requires Over(g, st) && st.stopped != map[]
    ensures st.susp || st.err.Some?
  {
    hide ExecCall, Inv, Frozen, ScopeInv;
  }

  lemma ComesToEnd(g: Dag, st: State, placed: set<string>, s: Scope, done: set<string>)
    requires Over(g, st) && Abreast(g, st, placed, s, done) && FirstReady(g.gs, placed, 0).None?
    ensures Comes(g, st, placed, GraphRun(None, false, false, s, done, []))
  {
    hide ExecCall, WellScoped, Inv, StopInv, Frozen, ScopeInv;
    forall i | i in st.stopped && i < |g.gs| ensures g.gs[i].id in placed { PlacedAll(g, st, placed, i); }
    PlacedCompleted(g, st, placed);
  }

  /** One step further in topological order. */
  lemma Unfolds(g: Dag, st: State, v: World, placed: set<string>, s: Scope, done: set<string>)
    requires Over(g, st) && Follows(g, st, v) && Abreast(g, st, placed, s, done) && FirstReady(g.gs, placed, 0).Some?
    ensures var i := FirstReady(g.gs, placed, 0).value;
            var rest := Topo(g.gs, placed + {g.gs[i].id});
            var whole := Steps(v, g.gs, Topo(g.gs, placed), g.p, g.l, s, done);
            if Executed(st, i) then
              var e := g.Leaf(i, s);
              EndsAs(g, st, i, e)
              && Abreast(g, st, placed + {g.gs[i].id}, StepScope(g.gs[i].id, s, e), StepDone(g.gs[i].id, done, e))
              && whole == AddStep(e, Steps(v, g.gs, rest, g.p, g.l, StepScope(g.gs[i].id, s, e),
                  StepDone(g.gs[i].id, done, e)), v.merge(StepAddr(g, i)))
            else
              var r := Steps(v, g.gs, rest, g.p, g.l, s, done);
              Abreast(g, st, placed + {g.gs[i].id}, s, done)
              && (whole == r || ((st.susp || st.err.Some?) && whole == r.(susp := true)))
  {
    hide ExecCall, WellScoped, Inv, ScopeInv, StopInv, Frozen, Over, Abreast, EndsAs, FirstReady, Executed;
    var i := FirstReady(g.gs, placed, 0).value;
    var order := Topo(g.gs, placed);
    assert order[0] == i && order[1..] == Topo(g.gs, placed + {g.gs[i].id});
    if Executed(st, i) {
      RunsAlike(g, st, placed, s, done, i);
      CallIgnoresTiming(g, v, i, s);
    } else {
      PassedOver(g, st, placed, s, done, i);
      if forall d | d in g.gs[i].needs :: d in done { DoneCompleted(g, st, placed, s, done); }
    }
  }

  lemma DoneCompleted(g: Dag, st: State, placed: set<string>, s: Scope, done: set<string>)
    requires Abreast(g, st, placed, s, done)
    ensures done <= st.completed
  {
  }

  lemma {:induction false} StepsCome(g: Dag, st: State, v: World, placed: set<string>, s: Scope, done: set<string>)
    requires Over(g, st) && Follows(g, st, v) && Abreast(g, st, placed, s, done)
    ensures Comes(g, st, placed, Steps(v, g.gs, Topo(g.gs, placed), g.p, g.l, s, done))
    decreases IdsOf(g.gs) - placed
  {
    hide ExecCall, Over, Follows, Abreast, EndsAs, Comes, Steps, Executed;
    var got := FirstReady(g.gs, placed, 0);
    if got.None? {
      assert Topo(g.gs, placed) == [];
      NoSteps(v, g, s, done);
      ComesToEnd(g, st, placed, s, done);
    } else {
      var i := got.value;
      var id := g.gs[i].id;
      assert id in IdsOf(g.gs) - placed;
      Unfolds(g, st, v, placed, s, done);
      if Executed(st, i) {
        var e := g.Leaf(i, s);
        var s', done' := StepScope(id, s, e), StepDone(id, done, e);
        StepsCome(g, st, v, placed + {id}, s', done');
        ComesRunning(g, st, placed, i, e, Steps(v, g.gs, Topo(g.gs, placed + {id}), g.p, g.l, s', done'),
            v.merge(StepAddr(g, i)));
      } else {
        StepsCome(g, st, v, placed + {id}, s, done);
        ComesPassing(g, st, placed, i, Steps(v, g.gs, Topo(g.gs, placed + {id}), g.p, g.l, s, done));
      }
    }
  }

  lemma NoSteps(v: World, g: Dag, s: Scope, done: set<string>)
    ensures Steps(v, g.gs, [], g.p, g.l, s, done) == GraphRun(None, false, false, s, done, [])
  {
  }

  // ----- the trace

  lemma LeafAt(g: Dag, i: nat, s: Scope)
    requires i < |g.gs|
    ensures Once(g.Leaf(i, s).tr) && forall x | x in g.Leaf(i, s).tr :: AddrOf(x) == StepAddr(g, i)
  {
    CallFits(g.w, g.gs[i].run, StepAddr(g, i), s);
  }

  lemma InterleavesRunning(g: Dag, st: State, placed: set<string>, i: nat, e: seq<Act>, r: seq<Act>, bits: seq<bool>)
    requires i < |g.gs| && Executed(st, i) && g.gs[i].id !in placed && e == Ran(st, i) && UniqueIds(g.gs)
    requires forall x | x in e :: AddrOf(x) == StepAddr(g, i)
    requires Interleaves(g, st, placed + {g.gs[i].id}, r)
    ensures Interleaves(g, st, placed, Shuffle(e, r, bits))
  {
    hide Executed, Ran;
    var a, tr := StepAddr(g, i), Shuffle(e, r, bits);
    ShuffleMembers(e, r, bits);
    OnlyAll(e, a);
    forall x | x in tr ensures AtStep(g, st, placed, x) {
      if x in r { assert AtStep(g, st, placed + {g.gs[i].id}, x); }
    }
    forall j: nat | j < |g.gs| && Executed(st, j)
    && g.gs[j].id !in placed ensures Only(tr, StepAddr(g, j)) == Ran(st, j) {
      OnlyShuffle(e, r, bits, StepAddr(g, j));
      if j == i {
        NothingAt(g, st, placed + {g.gs[i].id}, r, i);
      } else {
        if StepAddr(g, j) == a { StepAddrApart(g, i, j); }
        assert g.gs[j].id != g.gs[i].id;
      }
    }
  }

  /** An interleaving holds nothing of a placed or unexecuted step. */
  lemma NothingAt(g: Dag, st: State, placed: set<string>, r: seq<Act>, i: nat)
    requires Interleaves(g, st, placed, r) && i < |g.gs| && (g.gs[i].id in placed || !Executed(st, i))
    ensures Only(r, StepAddr(g, i)) == []
  {
    hide Executed, Ran;
    var own := Only(r, StepAddr(g, i));
    if own != [] {
      var x := own[0];
      OnlyHas(r, StepAddr(g, i), x);
      var j: nat :| j < |g.gs| && Executed(st, j) && g.gs[j].id !in placed && AddrOf(x) == StepAddr(g, j);
      StepAddrApart(g, i, j);
    }
  }

  lemma InterleavesPassing(g: Dag, st: State, placed: set<string>, i: nat, r: seq<Act>)
    requires i < |g.gs| && !Executed(st, i) && UniqueIds(g.gs) && Interleaves(g, st, placed + {g.gs[i].id}, r)
    ensures Interleaves(g, st, placed, r)
  {
    hide Executed, Ran;
    forall x | x in r ensures AtStep(g, st, placed, x) { assert AtStep(g, st, placed + {g.gs[i].id}, x); }
    forall j: nat | j < |g.gs| && Executed(st, j)
    && g.gs[j].id !in placed ensures Only(r, StepAddr(g, j)) == Ran(st, j) {
      assert g.gs[j].id != g.gs[i].id;
    }
  }

  lemma ScopedIsUnique(g: Dag, st: State)
    requires Over(g, st)
    ensures UniqueIds(g.gs)
  {
    hide Inv, ScopeInv, StopInv, Frozen;
  }

  /** The trace of the sequential run interleaves the operations of the executed steps. */
  lemma {:induction false} StepsInterleave(g: Dag, st: State, v: World, placed: set<string>, s: Scope,
      done: set<string>)
    requires Over(g, st) && Follows(g, st, v) && Abreast(g, st, placed, s, done)
    ensures Interleaves(g, st, placed, Steps(v, g.gs, Topo(g.gs, placed), g.p, g.l, s, done).tr)
    decreases IdsOf(g.gs) - placed
  {
    hide ExecCall, Over, Follows, Abreast, Steps, Executed, Interleaves, UniqueIds;
    var got := FirstReady(g.gs, placed, 0);
    if got.None? {
      assert Topo(g.gs, placed) == [];
      NoSteps(v, g, s, done);
      NoneInterleave(g, st, placed);
    } else {
      var i := got.value;
      var id := g.gs[i].id;
      assert id in IdsOf(g.gs) - placed;
      Unfolds(g, st, v, placed, s, done);
      ScopedIsUnique(g, st);
      if Executed(st, i) {
        var e := g.Leaf(i, s);
        var s', done' := StepScope(id, s, e), StepDone(id, done, e);
        StepsInterleave(g, st, v, placed + {id}, s', done');
        LeafAt(g, i, s);
        InterleavesRunning(g, st, placed, i, e.tr, Steps(v, g.gs, Topo(g.gs, placed + {id}), g.p, g.l, s', done').tr,
            v.merge(StepAddr(g, i)));
      } else {
        StepsInterleave(g, st, v, placed + {id}, s, done);
        InterleavesPassing(g, st, placed, i, Steps(v, g.gs, Topo(g.gs, placed + {id}), g.p, g.l, s, done).tr);
      }
    }
  }

  lemma NoneInterleave(g: Dag, st: State, placed: set<string>)
    requires Over(g, st) && FirstReady(g.gs, placed, 0).None?
    ensures Interleaves(g, st, placed, [])
  {
    hide Over, Executed, Ran;
    forall i: nat | i < |g.gs| && Executed(st, i) ensures g.gs[i].id in placed { PlacedAll(g, st, placed, i); }
  }

  // ----- choosing the interleaving

  predicate Early(g: Dag, placed: set<string>, x: Act) {
    exists j :: 0 <= j < |g.gs| && g.gs[j].id in placed && AddrOf(x) == StepAddr(g, j)
  }

  /** What is left of a trace once the placed steps are taken out. */
  function Left(g: Dag, placed: set<string>, tr: seq<Act>): seq<Act> {
    if tr == [] then [] else (if Early(g, placed, tr[0]) then [] else [tr[0]]) + Left(g, placed, tr[1..])
  }

  /** The ids placed before step i. */
  function PlacedBefore(gs: seq<GraphNode>, placed: set<string>, i: nat): set<string>
    decreases IdsOf(gs) - placed
  {
    match FirstReady(gs, placed, 0)
    case None => placed
    case Some(j) =>
      assert gs[j].id in IdsOf(gs) - placed;
      if j == i then placed else PlacedBefore(gs, placed + {gs[j].id}, i)
  }

  /** How step i's operations fall among those of the steps placed after it. */
  function MergeAt(g: Dag, tr: seq<Act>, i: nat): seq<bool> {
    Bits(Left(g, PlacedBefore(g.gs, {}, i), tr), StepAddr(g, i))
  }

  ghost predicate MergesBy(g: Dag, v: World, tr: seq<Act>) {
    forall i: nat | i < |g.gs| :: v.merge(StepAddr(g, i)) == MergeAt(g, tr, i)
  }

  lemma Cons(x: Act, rest: seq<Act>, a: Addr)
    ensures Only([x] + rest, a) == (if AddrOf(x) == a then [x] else []) + Only(rest, a)
    ensures Without([x] + rest, a) == (if AddrOf(x) == a then [] else [x]) + Without(rest, a)
  {
    assert ([x] + rest)[1..] == rest;
  }

  lemma {:induction false} LeftWith(g: Dag, placed: set<string>, i: nat, tr: seq<Act>)
    requires UniqueIds(g.gs) && i < |g.gs|
    ensures Left(g, placed + {g.gs[i].id}, tr) == Without(Left(g, placed, tr), StepAddr(g, i))
  {
    if tr != [] {
      LeftWith(g, placed, i, tr[1..]);
      EarlyWith(g, placed, i, tr[0]);
      hide Early, StepAddr, Without;
      Cons(tr[0], Left(g, placed, tr[1..]), StepAddr(g, i));
      assert [] + Left(g, placed, tr[1..]) == Left(g, placed, tr[1..]);
    }
  }

  lemma EarlyWith(g: Dag, placed: set<string>, i: nat, x: Act)
    requires UniqueIds(g.gs) && i < |g.gs|
    ensures Early(g, placed + {g.gs[i].id}, x) <==> Early(g, placed, x) || AddrOf(x) == StepAddr(g, i)
  {
    if Early(g, placed + {g.gs[i].id}, x) {
      var j :| 0 <= j < |g.gs| && g.gs[j].id in placed + {g.gs[i].id} && AddrOf(x) == StepAddr(g, j);
      assert g.gs[j].id == g.gs[i].id ==> j == i;
    }
    if AddrOf(x) == StepAddr(g, i) { assert g.gs[i].id in placed + {g.gs[i].id}; }
  }

  lemma {:induction false} LeftOnly(g: Dag, placed: set<string>, i: nat, tr: seq<Act>)
    requires UniqueIds(g.gs) && i < |g.gs| && g.gs[i].id !in placed
    ensures Only(Left(g, placed, tr), StepAddr(g, i)) == Only(tr, StepAddr(g, i))
  {
    if tr != [] {
      LeftOnly(g, placed, i, tr[1..]);
      var a, rest := StepAddr(g, i), Left(g, placed, tr[1..]);
      Cons(tr[0], rest, a);
      assert Only(tr, a) == (if AddrOf(tr[0]) == a then [tr[0]] else []) + Only(tr[1..], a);
      assert [] + rest == rest && [] + Only(rest, a) == Only(rest, a);
      hide StepAddr, Only;
      if Early(g, placed, tr[0]) && AddrOf(tr[0]) == StepAddr(g, i) {
        var j :| 0 <= j < |g.gs| && g.gs[j].id in placed && AddrOf(tr[0]) == StepAddr(g, j);
        StepAddrApart(g, i, j);
      }
    }
  }

  lemma {:induction false} LeftNothing(g: Dag, placed: set<string>, tr: seq<Act>)
    requires forall x | x in tr :: Early(g, placed, x)
    ensures Left(g, placed, tr) == []
  {
    if tr != [] { LeftNothing(g, placed, tr[1..]); }
  }

  lemma {:induction false} LeftAll(g: Dag, tr: seq<Act>)
    ensures Left(g, {}, tr) == tr
  {
    if tr != [] { LeftAll(g, tr[1..]); }
  }

  /** From here on, the steps still to come know what was placed before them. */
  ghost predicate OnCourse(gs: seq<GraphNode>, placed: set<string>) {
    forall j: nat | j < |gs| && gs[j].id !in placed :: PlacedBefore(gs, {}, j) == PlacedBefore(gs, placed, j)
  }

  lemma CourseStep(gs: seq<GraphNode>, placed: set<string>)
    requires OnCourse(gs, placed) && FirstReady(gs, placed, 0).Some?
    ensures var i := FirstReady(gs, placed, 0).value;
            PlacedBefore(gs, {}, i) == placed && OnCourse(gs, placed + {gs[i].id})
  {
  }

  /** With the merges read off a given interleaving, the sequential run performs just that. */
  lemma {:induction false} StepsPerform(g: Dag, st: State, v: World, tr: seq<Act>, placed: set<string>, s: Scope,
      done: set<string>)
    requires Over(g, st) && Follows(g, st, v) && Abreast(g, st, placed, s, done)
    requires Interleaves(g, st, {}, tr) && MergesBy(g, v, tr) && OnCourse(g.gs, placed)
    ensures Steps(v, g.gs, Topo(g.gs, placed), g.p, g.l, s, done).tr == Left(g, placed, tr)
    decreases IdsOf(g.gs) - placed
  {
    hide ExecCall, Over, Follows, Abreast, Steps, Executed, Interleaves, UniqueIds, OnCourse, PlacedBefore;
    var got := FirstReady(g.gs, placed, 0);
    if got.None? {
      assert Topo(g.gs, placed) == [];
      NoSteps(v, g, s, done);
      AllEarly(g, st, placed, tr);
    } else {
      var i := got.value;
      var id, a := g.gs[i].id, StepAddr(g, i);
      assert id in IdsOf(g.gs) - placed;
      Unfolds(g, st, v, placed, s, done);
      ScopedIsUnique(g, st);
      CourseStep(g.gs, placed);
      LeftWith(g, placed, i, tr);
      LeftOnly(g, placed, i, tr);
      if Executed(st, i) {
        var e := g.Leaf(i, s);
        StepsPerform(g, st, v, tr, placed + {id}, StepScope(id, s, e), StepDone(id, done, e));
        OwnPart(g, st, tr, i);
        assert v.merge(a) == MergeAt(g, tr, i);
        ShuffleBack(Left(g, placed, tr), a);
      } else {
        StepsPerform(g, st, v, tr, placed + {id}, s, done);
        NothingAt(g, st, {}, tr, i);
        NoneOnly(Left(g, placed, tr), a);
      }
    }
  }

  lemma OwnPart(g: Dag, st: State, tr: seq<Act>, i: nat)
    requires Interleaves(g, st, {}, tr) && i < |g.gs| && Executed(st, i)
    ensures Only(tr, StepAddr(g, i)) == Ran(st, i)
  {
  }

  lemma AllEarly(g: Dag, st: State, placed: set<string>, tr: seq<Act>)
    requires Over(g, st) && FirstReady(g.gs, placed, 0).None? && Interleaves(g, st, {}, tr)
    ensures Left(g, placed, tr) == []
  {
    hide Over, Executed, Ran;
    forall x | x in tr ensures Early(g, placed, x) {
      assert AtStep(g, st, {}, x);
      var i: nat :| i < |g.gs| && Executed(st, i) && AddrOf(x) == StepAddr(g, i);
      PlacedAll(g, st, placed, i);
    }
    LeftNothing(g, placed, tr);
  }

  // ----- the main results

  /** Step i could have run and did not: a pause or an error held it back. */
  predicate HeldBack(g: Dag, st: State, i: nat)
    requires i < |g.gs|
  {
    !Executed(st, i) && forall d | d in g.gs[i].needs :: d in st.completed
  }

  /** v is the graph's world up to timing, and at the graph's own addresses it holds back what
      the schedule held back and merges as the interleaving says. */
  ghost predicate Obeys(g: Dag, st: State, tr: seq<Act>, v: World) {
    && v == g.w.(halt := v.halt, merge := v.merge)
    && v.halt(Addr(g.p, g.l)) == st.err.None?
    && (forall i: nat | i < |g.gs| :: v.halt(StepAddr(g, i)) == HeldBack(g, st, i))
    && MergesBy(g, v, tr)
  }

  lemma HoldingFollows(g: Dag, st: State, v: World)
    requires v == g.w.(halt := v.halt, merge := v.merge)
    requires forall i: nat | i < |g.gs| :: v.halt(StepAddr(g, i)) == HeldBack(g, st, i)
    ensures Follows(g, st, v)
  {
    hide Executed;
    assert forall i: nat | i < |g.gs| :: v.halt(StepAddr(g, i)) == HeldBack(g, st, i);
  }

  predicate IsStep(g: Dag, a: Addr) {
    a.loop == g.l && |a.path| == |g.p| + 1 && g.p <= a.path && a.path[|g.p|] < |g.gs|
  }

  /** The graph's own addresses: its own and those of its steps. */
  predicate Owns(g: Dag, a: Addr) {
    a == Addr(g.p, g.l) || IsStep(g, a)
  }

  function HaltOf(g: Dag, st: State, a: Addr): bool {
    if a == Addr(g.p, g.l) then st.err.None? else if IsStep(g, a) then HeldBack(g, st, a.path[|g.p|]) else g.w.halt(a)
  }

  function MergeOf(g: Dag, tr: seq<Act>, a: Addr): seq<bool> {
    if IsStep(g, a) then MergeAt(g, tr, a.path[|g.p|]) else g.w.merge(a)
  }

  lemma StepIs(g: Dag, i: nat)
    requires i < |g.gs|
    ensures var a := StepAddr(g, i); IsStep(g, a) && a.path[|g.p|] == i && a != Addr(g.p, g.l)
  {
  }

  lemma ObeysHere(g: Dag, st: State, tr: seq<Act>, v: World)
    requires v == g.w.(halt := v.halt, merge := v.merge)
    requires forall a | Owns(g, a) ::
               v.halt(a) == HaltOf(g, st, a) && (IsStep(g, a) ==> v.merge(a) == MergeOf(g, tr, a))
    ensures Obeys(g, st, tr, v)
  {
    hide HeldBack, MergeAt, StepAddr, IsStep;
    assert Owns(g, Addr(g.p, g.l));
    forall i: nat | i < |g.gs| ensures v.halt(StepAddr(g, i)) == HeldBack(g, st, i)
    && v.merge(StepAddr(g, i)) == MergeAt(g, tr, i) {
      StepIs(g, i);
      assert Owns(g, StepAddr(g, i));
    }
  }

  lemma StartsAbreast(g: Dag, st: State)
    requires Over(g, st)
    ensures Abreast(g, st, {}, g.outer, {})
  {
    hide ExecCall, WellScoped, Inv, StopInv, Frozen;
  }

  /** What the interpreter makes of a graph that a schedule ended with st. */
  ghost predicate Matches(g: Dag, st: State, e: Eff) {
    match Result(g, st)
    case Completed => e.st.Running? && e.scope == st.scope
    case Paused => e.st.Suspended?
    case NoRunnable => e.st == Failed(NoRunnableStep)
    case Broke(_) => e.st.Failed? && exists i :: i in st.stopped && st.stopped[i].st == e.st
  }

  lemma ComesMatch(g: Dag, st: State, v: World)
    requires Over(g, st) && (st.stopped != map[] ==> v.halt(Addr(g.p, g.l)) == st.err.None?)
    requires Comes(g, st, {}, Steps(v, g.gs, Topo(g.gs, {}), g.p, g.l, g.outer, {}))
    ensures Matches(g, st, ExecGraph(v, g.gs, g.p, g.l, g.outer))
  {
    hide ExecCall, WellScoped, Inv, ScopeInv, Frozen, Steps;
    var r := Steps(v, g.gs, Topo(g.gs, {}), g.p, g.l, g.outer, {});
    EndingsLeft(g, st);
    if Result(g, st).Completed? {
      AllCompleted(g, st);
      forall h ensures AgreeOn(r.scope, st.scope, h) { assert h !in IdsOf(g.gs) || h in st.completed; }
      AgreeingScopesEqual(r.scope, st.scope);
    }
  }

  /** At the outset everything that stopped is still to come. */
  lemma EndingsLeft(g: Dag, st: State)
    requires Over(g, st)
    ensures st.susp ==> StoppedLeft(g, st, {}, Suspended)
    ensures st.err.Some? ==> StoppedLeft(g, st, {}, Failed(st.err.value))
    ensures st.err.None? ==> forall x :: x != Cancelled ==> !StoppedLeft(g, st, {}, Failed(x))
    ensures st.err.None? && !st.susp ==> st.stopped == map[] && forall x :: !StoppedLeft(g, st, {}, x)
  {
    hide ExecCall, WellScoped, Inv, ScopeInv, Frozen;
  }

  ghost predicate Ended(g: Dag, evs: seq<Event>) {
    WellScoped(g.gs) && GraphScheduler.After(g, evs).Some? && Final(GraphScheduler.After(g, evs).value)
  }

  lemma ObeysRuns(g: Dag, evs: seq<Event>, tr: seq<Act>, v: World)
    requires Ended(g, evs) && Interleaves(g, GraphScheduler.After(g, evs).value, {}, tr)
    requires Obeys(g, GraphScheduler.After(g, evs).value, tr, v)
    ensures ExecGraph(v, g.gs, g.p, g.l, g.outer).tr == tr
    ensures Matches(g, GraphScheduler.After(g, evs).value, ExecGraph(v, g.gs, g.p, g.l, g.outer))
  {
    hide WellScoped, GraphScheduler.After, Steps, Interleaves, Follows, Abreast, Matches, Over, Comes, MergesBy,
        HeldBack;
    EndIsOver(g, evs);
    var st := GraphScheduler.After(g, evs).value;
    HoldingFollows(g, st, v);
    StartsAbreast(g, st);
    StepsCome(g, st, v, {}, g.outer, {});
    StepsPerform(g, st, v, tr, {}, g.outer, {});
    LeftAll(g, tr);
    ComesMatch(g, st, v);
  }

  /** Every schedule of a graph, with every interleaving of its steps' session operations, is
      what the interpreter does under some pauses and merges: it completes with the scope the
      schedule left, pauses, breaks with the error of a failed step or finds no runnable step
      exactly as the schedule did, and performs exactly that interleaving. Elsewhere the world
      is as it was. */
  lemma ScheduleIsARun(g: Dag, evs: seq<Event>, tr: seq<Act>) returns (v: World)
    requires Ended(g, evs) && Interleaves(g, GraphScheduler.After(g, evs).value, {}, tr)
    ensures v == g.w.(halt := v.halt, merge := v.merge)
    ensures forall a | !Owns(g, a) :: v.halt(a) == g.w.halt(a) && v.merge(a) == g.w.merge(a)
    ensures ExecGraph(v, g.gs, g.p, g.l, g.outer).tr == tr
    ensures Matches(g, GraphScheduler.After(g, evs).value, ExecGraph(v, g.gs, g.p, g.l, g.outer))
    ensures GraphScheduler.After(g, evs).value.err.None? ==> HoldsByLaw(g, v, tr)
  {
    hide WellScoped, GraphScheduler.After, Interleaves, Matches, Obeys, MergeAt, HeldBack, HoldsByLaw;
    var st := GraphScheduler.After(g, evs).value;
    v := g.w.(halt := a => HaltOf(g, st, a), merge := a => MergeOf(g, tr, a));
    ObeysHere(g, st, tr, v);
    ObeysRuns(g, evs, tr, v);
    if st.err.None? { ObeysLaw(g, evs, tr, v); }
  }

  /** A step is held back only if it has needs and a step of the graph paused. */
  ghost predicate HoldsByLaw(g: Dag, v: World, tr: seq<Act>) {
    forall i: nat | i < |g.gs| && v.halt(StepAddr(g, i)) :: g.gs[i].needs != [] && SomeStepPaused(g, tr)
  }

  ghost predicate SomeStepPaused(g: Dag, tr: seq<Act>) {
    exists j: nat :: j < |g.gs| && Gate(Site(g.gs[j].run.bind, StepAddr(g, j))) in tr
  }

  lemma ObeysLaw(g: Dag, evs: seq<Event>, tr: seq<Act>, v: World)
    requires Ended(g, evs) && GraphScheduler.After(g, evs).value.err.None?
    requires Interleaves(g, GraphScheduler.After(g, evs).value, {}, tr)
             && Obeys(g, GraphScheduler.After(g, evs).value, tr, v)
    ensures HoldsByLaw(g, v, tr)
  {
    hide GraphScheduler.After, WellScoped, Interleaves, Over, Executed, SomeStepPaused;
    var st := GraphScheduler.After(g, evs).value;
    EndIsOver(g, evs);
    forall i: nat | i < |g.gs| && v.halt(StepAddr(g, i)) ensures g.gs[i].needs != [] && SomeStepPaused(g, tr) {
      assert HeldBack(g, st, i);
      NotExecuted(g, st, i);
      PauseShows(g, st, tr);
      if g.gs[i].needs == [] { RootsAlwaysRun(g, evs, i); }
    }
  }

  lemma PauseShows(g: Dag, st: State, tr: seq<Act>)
    requires Over(g, st) && st.susp && Interleaves(g, st, {}, tr)
    ensures SomeStepPaused(g, tr)
  {
    hide ExecCall, WellScoped, Inv, ScopeInv, Frozen, Ran;
    var j :| j in st.stopped && st.stopped[j].st.Suspended?;
    assert Executed(st, j);
    ExecutedIs(g, st, j);
    BothWays(g, st, j);
    PauseHasGate(g, j, st.scope);
    OwnPart(g, st, tr, j);
    OnlyHas(tr, StepAddr(g, j), Gate(Site(g.gs[j].run.bind, StepAddr(g, j))));
  }

  lemma PauseHasGate(g: Dag, i: nat, s: Scope)
    requires i < |g.gs| && g.Leaf(i, s).st.Suspended?
    ensures Gate(Site(g.gs[i].run.bind, StepAddr(g, i))) in g.Leaf(i, s).tr
  {
    var e := g.Leaf(i, s);
    assert e.tr[2].Gate?;
  }

  // ----- many graphs in one run

  /** What is to happen at one execution of a graph. */
  datatype Plan = Plan(dag: Dag, evs: seq<Event>, tr: seq<Act>)

  /** The plan fits the graph at this address, in world w. */
  ghost predicate Sound(w: World, a: Addr, pl: Plan) {
    && pl.dag.w == w && Addr(pl.dag.p, pl.dag.l) == a && Ended(pl.dag, pl.evs)
    && Interleaves(pl.dag, GraphScheduler.After(pl.dag, pl.evs).value, {}, pl.tr)
  }

  ghost function Outcome(pl: Plan): State
    requires Ended(pl.dag, pl.evs)
  {
    GraphScheduler.After(pl.dag, pl.evs).value
  }

  /** Plans for any number of graph executions, by address. No graph is a step of another. */
  ghost predicate AllSound(w: World, plans: map<Addr, Plan>) {
    && (forall a | a in plans :: Sound(w, a, plans[a]))
    && (forall a, b | a in plans && b in plans :: !IsStep(plans[a].dag, b))
  }

  ghost predicate Planned(plans: map<Addr, Plan>, a: Addr) {
    exists b :: b in plans && Owns(plans[b].dag, a)
  }

  /** The graph an address belongs to is its own, or the one it is a step of: there is one. */
  lemma OneOwner(w: World, plans: map<Addr, Plan>, a: Addr, b: Addr, c: Addr)
    requires AllSound(w, plans) && b in plans && c in plans && Owns(plans[b].dag, a) && Owns(plans[c].dag, a)
    ensures b == c
  {
    hide Ended, Interleaves, GraphScheduler.After;
    assert Sound(w, b, plans[b]) && Sound(w, c, plans[c]);
    if IsStep(plans[b].dag, a) && IsStep(plans[c].dag, a) {
      var p, q := plans[b].dag.p, plans[c].dag.p;
      assert p == a.path[..|p|] && q == a.path[..|q|] && |p| == |q|;
    }
  }

  ghost function OwnerOf(plans: map<Addr, Plan>, a: Addr): Addr
    requires Planned(plans, a)
    ensures OwnerOf(plans, a) in plans && Owns(plans[OwnerOf(plans, a)].dag, a)
  {
    var b :| b in plans && Owns(plans[b].dag, a);
    b
  }

  ghost function PlanHalt(w: World, plans: map<Addr, Plan>, a: Addr): bool
    requires AllSound(w, plans)
  {
    if Planned(plans, a) then
      var b := OwnerOf(plans, a);
      assert Sound(w, b, plans[b]);
      HaltOf(plans[b].dag, Outcome(plans[b]), a)
    else w.halt(a)
  }

  ghost function PlanMerge(w: World, plans: map<Addr, Plan>, a: Addr): seq<bool>
    requires AllSound(w, plans)
  {
    if Planned(plans, a) then MergeOf(plans[OwnerOf(plans, a)].dag, plans[OwnerOf(plans, a)].tr, a) else w.merge(a)
  }

  lemma PlanObeyed(w: World, plans: map<Addr, Plan>, a: Addr, v: World)
    requires AllSound(w, plans) && v == w.(halt := v.halt, merge := v.merge) && a in plans
    requires forall b :: v.halt(b) == PlanHalt(w, plans, b) && v.merge(b) == PlanMerge(w, plans, b)
    ensures Sound(w, a, plans[a]) && Obeys(plans[a].dag, Outcome(plans[a]), plans[a].tr, v)
  {
    hide Ended, Interleaves, GraphScheduler.After, HaltOf, MergeOf, Obeys;
    var pl := plans[a];
    assert Sound(w, a, pl);
    forall b | Owns(pl.dag, b) ensures v.halt(b) == HaltOf(pl.dag, Outcome(pl), b)
    && v.merge(b) == MergeOf(pl.dag, pl.tr, b) {
      assert Planned(plans, b);
      OneOwner(w, plans, b, a, OwnerOf(plans, b));
    }
    ObeysHere(pl.dag, Outcome(pl), pl.tr, v);
  }

  /** Schedules of any number of graphs fit into one world: whatever else a run under it does,
      each planned graph, met with the scope of its plan, ends as its schedule did and performs
      exactly its interleaving. Away from those graphs the world is as it was. */
  lemma PlansFitOneWorld(w: World, plans: map<Addr, Plan>) returns (v: World)
    requires AllSound(w, plans)
    ensures v == w.(halt := v.halt, merge := v.merge)
    ensures forall a | !Planned(plans, a) :: v.halt(a) == w.halt(a) && v.merge(a) == w.merge(a)
    ensures forall a, nodes | a in plans && Sorted(nodes) == plans[a].dag.gs ::
              var e := Exec(v, Graph(nodes), a.path, a.loop, plans[a].dag.outer);
              e.tr == plans[a].tr && Sound(w, a, plans[a]) && Matches(plans[a].dag, Outcome(plans[a]), e)
  {
    hide Ended, Interleaves, GraphScheduler.After, Matches, HaltOf, MergeOf, ExecGraph, Sorted;
    v := w.(halt := a => PlanHalt(w, plans, a), merge := a => PlanMerge(w, plans, a));
    forall a, nodes | a in plans && Sorted(nodes) == plans[a].dag.gs
      ensures var e := Exec(v, Graph(nodes), a.path, a.loop, plans[a].dag.outer);
              e.tr == plans[a].tr && Sound(w, a, plans[a]) && Matches(plans[a].dag, Outcome(plans[a]), e)
    {
      var pl := plans[a];
      assert Sound(w, a, pl);
      PlanObeyed(w, plans, a, v);
      ObeysRuns(pl.dag, pl.evs, pl.tr, v);
    }
  }

  /** Every ended schedule has an interleaving. */
  lemma InterleavingExists(g: Dag, evs: seq<Event>) returns (tr: seq<Act>)
    requires Ended(g, evs)
    ensures Interleaves(g, GraphScheduler.After(g, evs).value, {}, tr)
  {
    hide WellScoped, GraphScheduler.After, Steps, Interleaves, Follows, Abreast, Over, HeldBack;
    EndIsOver(g, evs);
    var st := GraphScheduler.After(g, evs).value;
    var v := g.w.(halt := a => HaltOf(g, st, a));
    forall i: nat | i < |g.gs| ensures v.halt(StepAddr(g, i)) == HeldBack(g, st, i) { StepIs(g, i); }
    HoldingFollows(g, st, v);
    StartsAbreast(g, st);
    StepsInterleave(g, st, v, {}, g.outer, {});
    tr := Steps(v, g.gs, Topo(g.gs, {}), g.p, g.l, g.outer, {}).tr;
  }

  /** Any two interleavings make the same records. */
  lemma SameRecords(g: Dag, st: State, x: seq<Act>, y: seq<Act>, m: Memo, c: Control)
    requires Over(g, st) && Interleaves(g, st, {}, x) && Interleaves(g, st, {}, y)
    ensures MemoAfter(m, x) == MemoAfter(m, y) && ControlAfter(c, x) == ControlAfter(c, y)
  {
    hide Over, Interleaves, Once;
    InterleavedOnce(g, st, x);
    InterleavedOnce(g, st, y);
    forall a ensures a in x <==> a in y { SameMembers(g, st, x, y, a); }
    forall k ensures k in MemoAfter(m, x) <==> k in MemoAfter(m, y) {
      MemoAfterIs(m, x, k);
      MemoAfterIs(m, y, k);
    }
    forall k | k in MemoAfter(m, x) ensures MemoAfter(m, x)[k] == MemoAfter(m, y)[k] {
      MemoAfterIs(m, x, k);
      MemoAfterIs(m, y, k);
    }
    forall k ensures k in ControlAfter(c, x) <==> k in ControlAfter(c, y) {
      ControlAfterIs(c, x, k);
      ControlAfterIs(c, y, k);
    }
    forall k | k in ControlAfter(c, x) ensures ControlAfter(c, x)[k] == ControlAfter(c, y)[k] {
      ControlAfterIs(c, x, k);
      ControlAfterIs(c, y, k);
    }
    assert MemoAfter(m, x).Keys == MemoAfter(m, y).Keys;
    assert ControlAfter(c, x).Keys == ControlAfter(c, y).Keys;
  }

  lemma SameMembers(g: Dag, st: State, x: seq<Act>, y: seq<Act>, a: Act)
    requires Interleaves(g, st, {}, x) && Interleaves(g, st, {}, y)
    ensures a in x <==> a in y
  {
    hide Executed, Ran;
    OnlyHas(x, AddrOf(a), a);
    OnlyHas(y, AddrOf(a), a);
    if a in x || a in y {
      assert AtStep(g, st, {}, a);
      var i: nat :| i < |g.gs| && Executed(st, i) && AddrOf(a) == StepAddr(g, i);
      assert Only(x, StepAddr(g, i)) == Only(y, StepAddr(g, i));
    }
  }

  /** An interleaving repeats no operation at one address. */
  lemma InterleavedOnce(g: Dag, st: State, tr: seq<Act>)
    requires Over(g, st) && Interleaves(g, st, {}, tr)
    ensures Once(tr)
  {
    hide Over, Executed, Ran, ExecCall;
    forall a ensures Once(Only(tr, a)) {
      if Only(tr, a) != [] {
        var x := Only(tr, a)[0];
        OnlyHas(tr, a, x);
        assert AtStep(g, st, {}, x);
        var i: nat :| i < |g.gs| && Executed(st, i) && AddrOf(x) == StepAddr(g, i);
        ExecutedIs(g, st, i);
        LeafAt(g, i, st.scope);
      }
    }
    OnceByAddress(tr);
  }

  /** Every schedule that completes agrees with the sequential execution of the graph: that
      completes too, with the same scope, it performs exactly the operations of the schedule's
      steps, and however those interleaved, the memo and the control record end the same. */
  lemma SchedulesMatchSequential(g: Dag, evs: seq<Event>, tr: seq<Act>, m: Memo, c: Control)
    requires WellScoped(g.gs) && (forall a :: !g.w.halt(a)) && GraphScheduler.After(g, evs).Some?
    requires Result(g, GraphScheduler.After(g, evs).value) == Completed
    ensures var st, e := GraphScheduler.After(g, evs).value, ExecGraph(g.w, g.gs, g.p, g.l, g.outer);
            && e.st.Running? && e.scope == st.scope && Interleaves(g, st, {}, e.tr)
            && (Interleaves(g, st, {}, tr) ==>
                  MemoAfter(m, e.tr) == MemoAfter(m, tr) && ControlAfter(c, e.tr) == ControlAfter(c, tr))
  {
    hide WellScoped, GraphScheduler.After, Steps, Interleaves, Abreast, Over, Comes, ExecCall;
    EndIsOver(g, evs);
    var st := GraphScheduler.After(g, evs).value;
    forall i: nat | i < |g.gs| ensures Executed(st, i) { AllExecuted(g, st, i); }
    StartsAbreast(g, st);
    EndingsLeft(g, st);
    StepsCome(g, st, g.w, {}, g.outer, {});
    StepsInterleave(g, st, g.w, {}, g.outer, {});
    ComesMatch(g, st, g.w);
    var e := ExecGraph(g.w, g.gs, g.p, g.l, g.outer);
    if Interleaves(g, st, {}, tr) { SameRecords(g, st, e.tr, tr, m, c); }
  }

  lemma AllExecuted(g: Dag, st: State, i: nat)
    requires Over(g, st) && |st.completed| == |g.gs| && i < |g.gs|
    ensures Executed(st, i)
  {
    hide ExecCall, WellScoped, Inv, ScopeInv, StopInv, Frozen;
    AllCompleted(g, st);
    assert g.gs[i].id in IdsOf(g.gs);
    CompletedRan(g, st, i);
  }

  // ----- what a pause cannot hold back

  /** Steps without needs are launched at the outset. */
  lemma {:induction false} RootsLaunched(g: Dag, evs: seq<Event>, i: nat)
    requires GraphScheduler.After(g, evs).Some? && i < |g.gs| && g.gs[i].needs == []
    ensures i in GraphScheduler.After(g, evs).value.launched
    decreases |evs|
  {
    hide ExecCall, Collect;
    if evs == [] {
      assert Runnable(g, State(g.outer, {}, map[], None, false, false, 0, {}, [], map[], map[]), i);
    } else {
      var st, ev := GraphScheduler.After(g, evs[..|evs| - 1]).value, evs[|evs| - 1];
      RootsLaunched(g, evs[..|evs| - 1], i);
      if ev.Finish? {
        LeafNeverReturns(g, ev.i, st.running[ev.i].local);
        Collects(st, g.gs[ev.i].id, ev.i, g.Leaf(ev.i, st.running[ev.i].local));
      }
    }
  }

  /** A pause never holds back a step without needs: in a schedule that ends without an error
      each of them ran to a result or to its own pause. */
  lemma RootsAlwaysRun(g: Dag, evs: seq<Event>, i: nat)
    requires WellScoped(g.gs) && GraphScheduler.After(g, evs).Some? && i < |g.gs| && g.gs[i].needs == []
    requires Final(GraphScheduler.After(g, evs).value) && GraphScheduler.After(g, evs).value.err.None?
    ensures Executed(GraphScheduler.After(g, evs).value, i)
  {
    hide GraphScheduler.After, ExecCall, WellScoped, ScopeInv, Frozen, Quiet, InNeedsOrder;
    EndIsOver(g, evs);
    RootsLaunched(g, evs, i);
    var st := GraphScheduler.After(g, evs).value;
    if i in st.finished { CompletedRan(g, st, i); }
  }
}
