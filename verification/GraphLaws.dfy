/** What a needs-graph does step by step (internal/execir/interp.go execGraph), in the one order
    the interpreter's function takes; `GraphRuns` relates every schedule to it. */
module GraphLaws {
  import opened Values
  import opened ExecIR
  import opened Eval
  import opened GraphOrder
  import opened Interp

  /** Steps of a graph at (p, l) in some order. */
  datatype Walk = Walk(w: World, gs: seq<GraphNode>, order: seq<nat>, p: seq<nat>, l: seq<nat>)

  predicate Fits(g: Walk) {
    forall k | 0 <= k < |g.order| :: g.order[k] < |g.gs|
  }

  /** What the steps so far published and which of them completed. */
  datatype Mark = Mark(scope: Scope, done: set<string>)

  predicate NeedsMet(g: Walk, m: Mark, j: nat)
    requires Fits(g) && j < |g.order|
  {
    forall d | d in g.gs[g.order[j]].needs :: d in m.done
  }

  /** Step j is kept from starting because another step paused. */
  predicate Held(g: Walk, j: nat) {
    j < |g.order| && g.w.halt(Addr(g.p + [g.order[j]], g.l))
  }

  /** Step j's leaf on the scope so far. */
  function Leaf(g: Walk, m: Mark, j: nat): Eff
    requires Fits(g) && j < |g.order|
  {
    ExecCall(g.w, g.gs[g.order[j]].run, Addr(g.p + [g.order[j]], g.l), m.scope)
  }

  /** After the first j steps: each that had its needs, was not held back and completed has
      published what it bound under its id. */
  ghost function MarkAt(g: Walk, m: Mark, j: nat): Mark
    requires Fits(g) && j <= |g.order|
    decreases j
  {
    if j == 0 then m
    else
      var i: nat := j - 1;
      var before := MarkAt(g, m, i);
      var id := g.gs[g.order[i]].id;
      if !NeedsMet(g, before, i) || Held(g, i) || !Leaf(g, before, i).st.Running? then before
      else
        var local := Leaf(g, before, i).scope;
        Mark(if id != "" && id in local then before.scope[id := local[id]] else before.scope, before.done + {id})
  }

  /** Step j runs and ends so. */
  ghost predicate Ends(g: Walk, m: Mark, j: nat, st: Status)
    requires Fits(g)
  {
    j < |g.order| && NeedsMet(g, MarkAt(g, m, j), j) && !Held(g, j) && Leaf(g, MarkAt(g, m, j), j).st == st
  }

  /** Step j runs and pauses, or is held back. */
  ghost predicate Pauses(g: Walk, m: Mark, j: nat)
    requires Fits(g)
  {
    j < |g.order| && NeedsMet(g, MarkAt(g, m, j), j) && (Held(g, j) || Leaf(g, MarkAt(g, m, j), j).st.Suspended?)
  }

  /** Step j is the first in order to fail other than by a cancellation, with error x. */
  ghost predicate FirstError(g: Walk, m: Mark, j: nat, x: Error)
    requires Fits(g)
  {
    && x != Cancelled && Ends(g, m, j, Failed(x))
    && forall k, y | 0 <= k < j && Ends(g, m, k, Failed(y)) :: y == Cancelled
  }

  function Tail(g: Walk): Walk
    requires g.order != []
  {
    g.(order := g.order[1..])
  }

  lemma {:induction false} MarkShifts(g: Walk, m: Mark, j: nat)
    requires Fits(g) && j < |g.order|
    ensures Fits(Tail(g)) && MarkAt(g, m, j + 1) == MarkAt(Tail(g), MarkAt(g, m, 1), j)
    decreases j
  {
    hide Interp.ExecCall;
    if j > 0 { MarkShifts(g, m, j - 1); }
  }

  lemma EndsShifts(g: Walk, m: Mark, j: nat, st: Status)
    requires Fits(g) && j < |g.order| - 1
    ensures Fits(Tail(g))
    ensures Ends(g, m, j + 1, st) <==> Ends(Tail(g), MarkAt(g, m, 1), j, st)
    ensures Pauses(g, m, j + 1) <==> Pauses(Tail(g), MarkAt(g, m, 1), j)
  {
    hide Interp.ExecCall, MarkAt;
    MarkShifts(g, m, j);
  }

  /** What the interpreter's function collects over the steps. */
  ghost predicate Collected(g: Walk, m: Mark, r: GraphRun)
    requires Fits(g)
  {
    && r.scope == MarkAt(g, m, |g.order|).scope && r.done == MarkAt(g, m, |g.order|).done
    && (r.susp <==> exists j :: 0 <= j < |g.order| && Pauses(g, m, j))
    && (r.cut <==> exists j :: 0 <= j < |g.order| && Ends(g, m, j, Failed(Cancelled)))
    && (forall x :: r.err == Some(x) <==> exists j: nat :: FirstError(g, m, j, x))
  }

  lemma {:induction false} StepsCollect(g: Walk, m: Mark)
    requires Fits(g)
    ensures Collected(g, m, Steps(g.w, g.gs, g.order, g.p, g.l, m.scope, m.done))
    decreases |g.order|
  {
    hide Interp.ExecCall, Shuffle, Steps, MarkAt, Ends, Pauses;
    if g.order == [] {
      NoSteps(g, m);
    } else {
      var t, n := Tail(g), MarkAt(g, m, 1);
      StepsCollect(t, n);
      FirstStep(g, m);
      MarkShifts(g, m, |t.order|);
      forall j: nat, st | j < |t.order| ensures Ends(g, m, j + 1, st) <==> Ends(t, n, j, st) {
        EndsShifts(g, m, j, st);
      }
      forall j: nat | j < |t.order| ensures Pauses(g, m, j + 1) <==> Pauses(t, n, j) {
        EndsShifts(g, m, j, Running);
      }
      var r := Steps(g.w, g.gs, g.order, g.p, g.l, m.scope, m.done);
      var rest := Steps(t.w, t.gs, t.order, t.p, t.l, n.scope, n.done);
      PausesJoin(g, m, r, rest);
      ErrorsJoin(g, m, r, rest);
    }
  }

  lemma NoSteps(g: Walk, m: Mark)
    requires g.order == []
    ensures Collected(g, m, Steps(g.w, g.gs, g.order, g.p, g.l, m.scope, m.done))
  {
  }

  /** The first step joined to what the rest collects. */
  lemma FirstStep(g: Walk, m: Mark)
    requires Fits(g) && g.order != []
    ensures Fits(Tail(g))
    ensures var t, n := Tail(g), MarkAt(g, m, 1);
            var r := Steps(g.w, g.gs, g.order, g.p, g.l, m.scope, m.done);
            var rest := Steps(t.w, t.gs, t.order, t.p, t.l, n.scope, n.done);
            && r.scope == rest.scope && r.done == rest.done
            && (r.susp <==> Pauses(g, m, 0) || rest.susp)
            && (r.cut <==> Ends(g, m, 0, Failed(Cancelled)) || rest.cut)
            && (forall x :: x != Cancelled && Ends(g, m, 0, Failed(x)) ==> r.err == Some(x))
            && ((forall x :: Ends(g, m, 0, Failed(x)) ==> x == Cancelled) ==> r.err == rest.err)
  {
    hide Interp.ExecCall, Shuffle;
    var t, n := Tail(g), MarkAt(g, m, 1);
    assert MarkAt(g, m, 0) == m;
    var e := Leaf(g, m, 0);
    if NeedsMet(g, m, 0) && !Held(g, 0) {
      var id := g.gs[g.order[0]].id;
      assert n.scope == StepScope(id, m.scope, e) && n.done == StepDone(id, m.done, e);
      assert e.st.Failed? ==> Ends(g, m, 0, Failed(e.st.e));
    }
  }

  lemma PausesJoin(g: Walk, m: Mark, r: GraphRun, rest: GraphRun)
    requires Fits(g) && g.order != [] && Fits(Tail(g))
    requires var t, n := Tail(g), MarkAt(g, m, 1);
             Collected(t, n, rest) && forall j: nat | j < |t.order| ::
               && (Pauses(g, m, j + 1) <==> Pauses(t, n, j))
               && (Ends(g, m, j + 1, Failed(Cancelled)) <==> Ends(t, n, j, Failed(Cancelled)))
    requires r.susp <==> Pauses(g, m, 0) || rest.susp
    requires r.cut <==> Ends(g, m, 0, Failed(Cancelled)) || rest.cut
    ensures r.susp <==> exists j :: 0 <= j < |g.order| && Pauses(g, m, j)
    ensures r.cut <==> exists j :: 0 <= j < |g.order| && Ends(g, m, j, Failed(Cancelled))
  {
    hide MarkAt, Ends, Pauses;
    var t, n := Tail(g), MarkAt(g, m, 1);
    if j :| 0 <= j < |g.order| && Pauses(g, m, j) { assert j > 0 ==> Pauses(t, n, j - 1); }
    if j :| 0 <= j < |g.order| && Ends(g, m, j, Failed(Cancelled)) {
      assert j > 0 ==> Ends(t, n, j - 1, Failed(Cancelled));
    }
    if j :| 0 <= j < |t.order| && Pauses(t, n, j) { assert Pauses(g, m, j + 1); }
    if j :| 0 <= j < |t.order| && Ends(t, n, j, Failed(Cancelled)) { assert Ends(g, m, j + 1, Failed(Cancelled)); }
  }

  lemma FirstErrorShifts(g: Walk, m: Mark, j: nat, x: Error)
    requires Fits(g) && g.order != [] && Fits(Tail(g)) && j < |Tail(g).order|
    requires forall y :: Ends(g, m, 0, Failed(y)) ==> y == Cancelled
    ensures FirstError(g, m, j + 1, x) <==> FirstError(Tail(g), MarkAt(g, m, 1), j, x)
  {
    hide MarkAt, Ends;
    var t, n := Tail(g), MarkAt(g, m, 1);
    EndsShifts(g, m, j, Failed(x));
    if FirstError(g, m, j + 1, x) {
      forall k, y | 0 <= k < j && Ends(t, n, k, Failed(y)) ensures y == Cancelled {
        EndsShifts(g, m, k, Failed(y));
        assert Ends(g, m, k + 1, Failed(y));
      }
    }
    if FirstError(t, n, j, x) {
      forall k, y | 0 <= k < j + 1 && Ends(g, m, k, Failed(y)) ensures y == Cancelled {
        if k > 0 { EndsShifts(g, m, k - 1, Failed(y)); }
      }
    }
  }

  lemma ErrorsJoin(g: Walk, m: Mark, r: GraphRun, rest: GraphRun)
    requires Fits(g) && g.order != [] && Fits(Tail(g))
    requires var t, n := Tail(g), MarkAt(g, m, 1);
             Collected(t, n, rest)
    requires forall x :: x != Cancelled && Ends(g, m, 0, Failed(x)) ==> r.err == Some(x)
    requires (forall x :: Ends(g, m, 0, Failed(x)) ==> x == Cancelled) ==> r.err == rest.err
    ensures forall x :: r.err == Some(x) <==> exists j: nat :: FirstError(g, m, j, x)
  {
    hide MarkAt;
    var t, n := Tail(g), MarkAt(g, m, 1);
    forall x ensures r.err == Some(x) <==> exists j: nat :: FirstError(g, m, j, x) {
      if y :| y != Cancelled && Ends(g, m, 0, Failed(y)) {
        assert FirstError(g, m, 0, y);
      } else {
        forall j: nat | j < |t.order| ensures FirstError(g, m, j + 1, x) <==> FirstError(t, n, j, x) {
          FirstErrorShifts(g, m, j, x);
        }
        if j: nat :| FirstError(t, n, j, x) { assert FirstError(g, m, j + 1, x); }
        if j: nat :| FirstError(g, m, j, x) { assert j > 0 && FirstError(t, n, j - 1, x); }
      }
    }
  }

  /** The graph's steps by id, in topological order. */
  function WalkOf(w: World, nodes: seq<GraphNode>, p: seq<nat>, l: seq<nat>): (g: Walk)
    ensures Fits(g)
  {
    Walk(w, Sorted(nodes), Topo(Sorted(nodes), {}), p, l)
  }

  /** No step fails other than by a cancellation. */
  ghost predicate NoError(g: Walk, m: Mark)
    requires Fits(g)
  {
    forall j, x | 0 <= j < |g.order| && Ends(g, m, j, Failed(x)) :: x == Cancelled
  }

  ghost predicate SomePause(g: Walk, m: Mark)
    requires Fits(g)
  {
    exists j :: 0 <= j < |g.order| && Pauses(g, m, j)
  }

  ghost predicate SomeCut(g: Walk, m: Mark)
    requires Fits(g)
  {
    exists j :: 0 <= j < |g.order| && Ends(g, m, j, Failed(Cancelled))
  }

  /** A graph fails with the first genuine error in order; else, cut short without a pause before
      it, with the cancellation; else it pauses exactly when a step paused or was held back; else
      it completes exactly when as many ids completed as there are steps, publishing what each
      bound, and otherwise has no runnable step. */
  lemma GraphLaw(w: World, nodes: seq<GraphNode>, p: seq<nat>, l: seq<nat>, s: Scope)
    ensures var e, g, m := Exec(w, Graph(nodes), p, l, s), WalkOf(w, nodes, p, l), Mark(s, {});
            && (forall j: nat, x :: FirstError(g, m, j, x) ==> e.st == Failed(x) && e.scope == s)
            && (NoError(g, m) ==>
                  if SomeCut(g, m) && !(SomePause(g, m) && w.halt(Addr(p, l))) then
                    e.st == Failed(Cancelled) && e.scope == s
                  else if SomePause(g, m) then e.st == Suspended && e.scope == s
                  else
                    var last := MarkAt(g, m, |g.order|);
                    if |last.done| == |nodes| then e.st == Running && e.scope == last.scope
                    else e.st == Failed(NoRunnableStep) && e.scope == s)
  {
    hide Steps, MarkAt, Ends, Pauses, Topo, Sorted;
    var g, m := WalkOf(w, nodes, p, l), Mark(s, {});
    StepsCollect(g, m);
    var r := Steps(w, g.gs, g.order, p, l, s, {});
    assert Exec(w, Graph(nodes), p, l, s) == ExecGraph(w, g.gs, p, l, s);
    forall j: nat, x | FirstError(g, m, j, x) ensures r.err == Some(x) {}
    if NoError(g, m) { ErrorIsSome(g, m, r); }
  }

  lemma EndsWithin(g: Walk, m: Mark, j: nat, st: Status)
    requires Fits(g)
    ensures Ends(g, m, j, st) ==> j < |g.order|
  {
  }

  lemma ErrorIsSome(g: Walk, m: Mark, r: GraphRun)
    requires Fits(g) && Collected(g, m, r) && NoError(g, m)
    ensures r.err.None? && (r.susp <==> SomePause(g, m)) && (r.cut <==> SomeCut(g, m))
  {
    hide MarkAt, Ends, Pauses;
    assert r.err.Some? ==> r.err == Some(r.err.value);
    forall j: nat, x ensures !FirstError(g, m, j, x) {
      assert Ends(g, m, j, Failed(x)) ==> j >= |g.order| || x == Cancelled;
      EndsWithin(g, m, j, Failed(x));
    }
  }
}
