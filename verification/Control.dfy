/** What each construct of the interpreter does (internal/execir/interp.go), said over what
    conditions and values mean (`Meaning`) and turn by turn, without the interpreter's own
    evaluation and loop functions. */
module Control {
  import opened Values
  import opened ExecIR
  import opened Eval
  import opened Interp
  import opened Meaning
  import JsonNum
  import Addressing

  // ----- decisions

  /** The record contradicts this decision. */
  predicate Contradicted(w: World, tag: Tag, a: Addr, val: int) {
    CtlKey(tag, a) in w.ctl && w.ctl[CtlKey(tag, a)] != val
  }

  function Bit(b: bool): int {
    if b then 1 else 0
  }

  /** The condition comes out as b, and the record agrees. */
  ghost predicate Decided(w: World, tag: Tag, cond: Expr, a: Addr, s: Scope, b: bool) {
    Holds(w.render, s, cond, b) && !Contradicted(w, tag, a, Bit(b))
  }

  /** The record contradicts how the condition comes out. */
  ghost predicate Diverges(w: World, tag: Tag, cond: Expr, a: Addr, s: Scope) {
    exists b :: Holds(w.render, s, cond, b) && Contradicted(w, tag, a, Bit(b))
  }

  ghost predicate Undecided(w: World, cond: Expr, s: Scope) {
    forall b :: !Holds(w.render, s, cond, b)
  }

  lemma DecideIs(w: World, tag: Tag, cond: Expr, a: Addr, s: Scope)
    ensures var c := Decide(w, tag, cond, a, s);
            && (c.verdict == Yes <==> Decided(w, tag, cond, a, s, true))
            && (c.verdict == No <==> Decided(w, tag, cond, a, s, false))
            && (c.verdict == Err(Diverged) <==> Diverges(w, tag, cond, a, s))
            && (c.verdict == Err(EvalError) <==> Undecided(w, cond, s))
            && (c.verdict.Err? ==> c.verdict.e == Diverged || c.verdict.e == EvalError)
    ensures forall b :: Holds(w.render, s, cond, b) ==>
              Decide(w, tag, cond, a, s).tr == [Ctl(CtlKey(tag, a), Bit(b), !Contradicted(w, tag, a, Bit(b)))]
    ensures Undecided(w, cond, s) ==> Decide(w, tag, cond, a, s).tr == []
  {
    hide EvalExpr, Holds;
    EvalHolds(w.render, s, cond, true);
    EvalHolds(w.render, s, cond, false);
  }

  /** A branch runs the first arm exactly when its condition holds and the second exactly when
      its negation does, at the arm's own path, after recording the decision. */
  lemma BranchLaw(w: World, n: Node, p: seq<nat>, l: seq<nat>, s: Scope, b: bool)
    requires n.Branch?
    ensures var e, a := Exec(w, n, p, l, s), Addr(p, l);
            && (Decided(w, Br, n.cond, a, s, b) ==>
                  e == Prefix([Ctl(CtlKey(Br, a), Bit(b), true)],
                      ExecFrom(w, if b then n.thn else n.els, 0, p + [1 - Bit(b)], l, s)))
            && (Diverges(w, Br, n.cond, a, s) ==> e.st == Failed(Diverged) && e.scope == s)
            && (Undecided(w, n.cond, s) ==> e == Eff(s, Failed(EvalError), []))
  {
    hide Decide, ExecFrom, Holds;
    DecideIs(w, Br, n.cond, Addr(p, l), s);
  }

  // ----- limits

  /** So many iterations are within the loop's own limit and the interpreter's, 1000 by default. */
  predicate Within(w: World, limit: int, k: int) {
    (limit > 0 ==> k <= limit) && k <= if w.maxLoop > 0 then w.maxLoop else 1000
  }

  lemma BoundIs(w: World, limit: int, k: nat)
    ensures Within(w, limit, k) <==> k <= w.Bound(limit)
  {
  }

  lemma CapIs(w: World, k: nat)
    ensures Within(w, 0, k) <==> k <= w.Cap()
  {
  }

  /** How a construct ends: its status and the scope it leaves. */
  datatype End = End(st: Status, scope: Scope)

  function EndOf(e: Eff): End {
    End(e.st, e.scope)
  }

  /** The body of a loop in iteration k, from scope s. */
  function BodyFrom(w: World, body: seq<Node>, p: seq<nat>, l: seq<nat>, k: nat, s: Scope): End {
    EndOf(ExecFrom(w, body, 0, p, l + [k], s))
  }

  // ----- while

  /** Scope t is reached after k turns in each of which the condition held and the body completed. */
  ghost predicate WhileTo(w: World, n: Node, p: seq<nat>, l: seq<nat>, s: Scope, k: nat, t: Scope)
    requires n.While?
    decreases k
  {
    if k == 0 then t == s
    else var j: nat := k - 1; exists u ::
           && WhileTo(w, n, p, l, s, j, u)
           && Decided(w, Wh, n.cond, Addr(p, l + [j]), u, true)
           && BodyFrom(w, n.body, p, l, j, u) == End(Running, t)
  }

  /** How a while ends after k turns in scope t: at the limit, when the condition fails to hold,
      or with the body. */
  ghost predicate WhileStops(w: World, n: Node, p: seq<nat>, l: seq<nat>, k: nat, t: Scope, e: End)
    requires n.While?
  {
    var a := Addr(p, l + [k]);
    if !Within(w, n.limit, k + 1) then e == End(Running, t)
    else
      || (Decided(w, Wh, n.cond, a, t, false) && e == End(Running, t))
      || (Diverges(w, Wh, n.cond, a, t) && e == End(Failed(Diverged), t))
      || (Undecided(w, n.cond, t) && e == End(Failed(EvalError), t))
      || (Decided(w, Wh, n.cond, a, t, true) && e == BodyFrom(w, n.body, p, l, k, t) && !e.st.Running?)
  }

  ghost predicate WhileEnds(w: World, n: Node, p: seq<nat>, l: seq<nat>, s: Scope, e: End)
    requires n.While?
  {
    exists k: nat, t: Scope :: Within(w, n.limit, k) && WhileTo(w, n, p, l, s, k, t) && WhileStops(w, n, p, l, k, t, e)
  }

  lemma WhileTurn(w: World, n: Node, p: seq<nat>, l: seq<nat>, k: nat, t: Scope)
    requires n.While? && k <= w.Bound(n.limit)
    ensures var here := EndOf(Iterate(w, n, [], w.Bound(n.limit), k, p, l, t));
            var f := BodyFrom(w, n.body, p, l, k, t);
            if k < w.Bound(n.limit) && Decided(w, Wh, n.cond, Addr(p, l + [k]), t, true) && f.st.Running?
            then here == EndOf(Iterate(w, n, [], w.Bound(n.limit), k + 1, p, l, f.scope))
            else WhileStops(w, n, p, l, k, t, here)
    ensures forall e :: WhileStops(w, n, p, l, k, t, e) ==> e == EndOf(Iterate(w, n, [], w.Bound(n.limit), k, p, l, t))
  {
    hide Decide, ExecFrom, Holds;
    BoundIs(w, n.limit, k + 1);
    DecideIs(w, Wh, n.cond, Addr(p, l + [k]), t);
    HoldsOneWay(w.render, t, n.cond);
  }

  lemma {:induction false} WhileReached(w: World, n: Node, p: seq<nat>, l: seq<nat>, s: Scope, k: nat, t: Scope)
    requires n.While? && k <= w.Bound(n.limit) && WhileTo(w, n, p, l, s, k, t)
    ensures EndOf(Iterate(w, n, [], w.Bound(n.limit), 0, p, l, s)) ==
        EndOf(Iterate(w, n, [], w.Bound(n.limit), k, p, l, t))
    decreases k
  {
    hide Iterate, Decided, BodyFrom;
    if k > 0 {
      var u :| WhileTo(w, n, p, l, s, k - 1, u) && Decided(w, Wh, n.cond, Addr(p, l + [k - 1]), u, true)
               && BodyFrom(w, n.body, p, l, k - 1, u) == End(Running, t);
      WhileReached(w, n, p, l, s, k - 1, u);
      WhileTurn(w, n, p, l, k - 1, u);
    }
  }

  lemma {:induction false} WhileRuns(w: World, n: Node, p: seq<nat>, l: seq<nat>, s: Scope, k: nat, t: Scope)
    requires n.While? && k <= w.Bound(n.limit) && WhileTo(w, n, p, l, s, k, t)
    ensures WhileEnds(w, n, p, l, s, EndOf(Iterate(w, n, [], w.Bound(n.limit), k, p, l, t)))
    decreases w.Bound(n.limit) - k
  {
    hide Iterate, Decided, BodyFrom, WhileStops;
    BoundIs(w, n.limit, k);
    WhileTurn(w, n, p, l, k, t);
    var f := BodyFrom(w, n.body, p, l, k, t);
    if k < w.Bound(n.limit) && Decided(w, Wh, n.cond, Addr(p, l + [k]), t, true) && f.st.Running? {
      assert WhileTo(w, n, p, l, s, k + 1, f.scope);
      WhileRuns(w, n, p, l, s, k + 1, f.scope);
    }
  }

  /** A while runs its body exactly while the condition holds, at most the limit's times. */
  lemma WhileLaw(w: World, n: Node, p: seq<nat>, l: seq<nat>, s: Scope, e: End)
    requires n.While?
    ensures EndOf(Exec(w, n, p, l, s)) == e <==> WhileEnds(w, n, p, l, s, e)
  {
    hide Iterate, WhileStops;
    WhileRuns(w, n, p, l, s, 0, s);
    if WhileEnds(w, n, p, l, s, e) {
      var k: nat, t: Scope :| Within(w, n.limit, k) && WhileTo(w, n, p, l, s, k, t) && WhileStops(w, n, p, l, k, t, e);
      BoundIs(w, n.limit, k);
      WhileReached(w, n, p, l, s, k, t);
      WhileTurn(w, n, p, l, k, t);
    }
  }

  // ----- retry

  /** Scope t is left by the k-th attempt, after none of which the condition held. */
  ghost predicate RetryTo(w: World, n: Node, p: seq<nat>, l: seq<nat>, s: Scope, k: nat, t: Scope)
    requires n.Retry?
    decreases k
  {
    if k == 0 then t == s
    else var j: nat := k - 1; exists u ::
           && RetryTo(w, n, p, l, s, j, u)
           && BodyFrom(w, n.body, p, l, j, u) == End(Running, t)
           && Decided(w, Rt, n.cond, Addr(p, l + [j]), t, false)
  }

  /** How a retry ends after k failed attempts: with none left, with the body, or with the
      condition after one more. */
  ghost predicate RetryStops(w: World, n: Node, p: seq<nat>, l: seq<nat>, k: nat, t: Scope, e: End)
    requires n.Retry?
  {
    var a, f := Addr(p, l + [k]), BodyFrom(w, n.body, p, l, k, t);
    if !Within(w, n.limit, k + 1) then e == End(Failed(RetryExhausted(n.limit)), t)
    else if !f.st.Running? then e == f
    else
      || (Decided(w, Rt, n.cond, a, f.scope, true) && e == f)
      || (Diverges(w, Rt, n.cond, a, f.scope) && e == End(Failed(Diverged), f.scope))
      || (Undecided(w, n.cond, f.scope) && e == End(Failed(EvalError), f.scope))
  }

  ghost predicate RetryEnds(w: World, n: Node, p: seq<nat>, l: seq<nat>, s: Scope, e: End)
    requires n.Retry?
  {
    exists k: nat, t: Scope :: Within(w, n.limit, k) && RetryTo(w, n, p, l, s, k, t) && RetryStops(w, n, p, l, k, t, e)
  }

  lemma RetryTurn(w: World, n: Node, p: seq<nat>, l: seq<nat>, k: nat, t: Scope)
    requires n.Retry? && k <= w.Bound(n.limit)
    ensures var here := EndOf(Iterate(w, n, [], w.Bound(n.limit), k, p, l, t));
            var f := BodyFrom(w, n.body, p, l, k, t);
            if k < w.Bound(n.limit) && f.st.Running? && Decided(w, Rt, n.cond, Addr(p, l + [k]), f.scope, false)
            then here == EndOf(Iterate(w, n, [], w.Bound(n.limit), k + 1, p, l, f.scope))
            else RetryStops(w, n, p, l, k, t, here)
    ensures forall e :: RetryStops(w, n, p, l, k, t, e) ==> e == EndOf(Iterate(w, n, [], w.Bound(n.limit), k, p, l, t))
  {
    hide Decide, ExecFrom, Holds;
    BoundIs(w, n.limit, k + 1);
    var f := BodyFrom(w, n.body, p, l, k, t);
    DecideIs(w, Rt, n.cond, Addr(p, l + [k]), f.scope);
    HoldsOneWay(w.render, f.scope, n.cond);
  }

  lemma {:induction false} RetryReached(w: World, n: Node, p: seq<nat>, l: seq<nat>, s: Scope, k: nat, t: Scope)
    requires n.Retry? && k <= w.Bound(n.limit) && RetryTo(w, n, p, l, s, k, t)
    ensures EndOf(Iterate(w, n, [], w.Bound(n.limit), 0, p, l, s)) ==
        EndOf(Iterate(w, n, [], w.Bound(n.limit), k, p, l, t))
    decreases k
  {
    hide Iterate, Decided, BodyFrom;
    if k > 0 {
      var u :| RetryTo(w, n, p, l, s, k - 1, u) && BodyFrom(w, n.body, p, l, k - 1, u) == End(Running, t)
               && Decided(w, Rt, n.cond, Addr(p, l + [k - 1]), t, false);
      RetryReached(w, n, p, l, s, k - 1, u);
      RetryTurn(w, n, p, l, k - 1, u);
    }
  }

  lemma {:induction false} RetryRuns(w: World, n: Node, p: seq<nat>, l: seq<nat>, s: Scope, k: nat, t: Scope)
    requires n.Retry? && k <= w.Bound(n.limit) && RetryTo(w, n, p, l, s, k, t)
    ensures RetryEnds(w, n, p, l, s, EndOf(Iterate(w, n, [], w.Bound(n.limit), k, p, l, t)))
    decreases w.Bound(n.limit) - k
  {
    hide Iterate, Decided, BodyFrom, RetryStops;
    BoundIs(w, n.limit, k);
    RetryTurn(w, n, p, l, k, t);
    var f := BodyFrom(w, n.body, p, l, k, t);
    if k < w.Bound(n.limit) && f.st.Running? && Decided(w, Rt, n.cond, Addr(p, l + [k]), f.scope, false) {
      assert RetryTo(w, n, p, l, s, k + 1, f.scope);
      RetryRuns(w, n, p, l, s, k + 1, f.scope);
    }
  }

  /** A retry ends exactly with the first attempt after which the condition holds, or exhausted
      after the limit's attempts. */
  lemma RetryLaw(w: World, n: Node, p: seq<nat>, l: seq<nat>, s: Scope, e: End)
    requires n.Retry?
    ensures EndOf(Exec(w, n, p, l, s)) == e <==> RetryEnds(w, n, p, l, s, e)
  {
    hide Iterate, RetryStops;
    RetryRuns(w, n, p, l, s, 0, s);
    if RetryEnds(w, n, p, l, s, e) {
      var k: nat, t: Scope :| Within(w, n.limit, k) && RetryTo(w, n, p, l, s, k, t) && RetryStops(w, n, p, l, k, t, e);
      BoundIs(w, n.limit, k);
      RetryReached(w, n, p, l, s, k, t);
      RetryTurn(w, n, p, l, k, t);
    }
  }

  // ----- sequential loops over a collection

  /** The items of a loop: a list, or null for none. */
  ghost predicate Items(rn: Render, s: Scope, coll: Value, items: seq<Val>) {
    Denotes(rn, s, coll, Arr(items)) || (items == [] && Denotes(rn, s, coll, Null))
  }

  /** Scope t is left by the first k bodies, each with the loop variable bound to its item. */
  ghost predicate LoopTo(w: World, n: Node, items: seq<Val>, p: seq<nat>, l: seq<nat>, s: Scope, k: nat, t: Scope)
    requires n.Loop? && k <= |items|
    decreases k
  {
    if k == 0 then t == s
    else var j: nat := k - 1; exists u ::
           && LoopTo(w, n, items, p, l, s, j, u)
           && BodyFrom(w, n.body, p, l, j, u[n.vr := items[j]]) == End(Running, t)
  }

  ghost predicate LoopEnds(w: World, n: Node, items: seq<Val>, p: seq<nat>, l: seq<nat>, s: Scope, e: End)
    requires n.Loop?
  {
    exists k: nat, t: Scope ::
      && k <= |items| && LoopTo(w, n, items, p, l, s, k, t)
      && if k == |items| then e == End(Running, t)
         else e == BodyFrom(w, n.body, p, l, k, t[n.vr := items[k]]) && !e.st.Running?
  }

  lemma {:induction false} LoopReached(w: World, n: Node, items: seq<Val>, p: seq<nat>, l: seq<nat>, s: Scope, k: nat,
      t: Scope)
    requires n.Loop? && !n.par && k <= |items| && LoopTo(w, n, items, p, l, s, k, t)
    ensures EndOf(Iterate(w, n, items, |items|, 0, p, l, s)) == EndOf(Iterate(w, n, items, |items|, k, p, l, t))
    decreases k
  {
    hide ExecFrom;
    if k > 0 {
      var u :| LoopTo(w, n, items, p, l, s, k - 1, u) && BodyFrom(w, n.body, p, l, k - 1, u[n.vr := items[k - 1]]) ==
          End(Running, t);
      LoopReached(w, n, items, p, l, s, k - 1, u);
    }
  }

  lemma {:induction false} LoopRuns(w: World, n: Node, items: seq<Val>, p: seq<nat>, l: seq<nat>, s: Scope, k: nat,
      t: Scope)
    requires n.Loop? && !n.par && k <= |items| && LoopTo(w, n, items, p, l, s, k, t)
    ensures LoopEnds(w, n, items, p, l, s, EndOf(Iterate(w, n, items, |items|, k, p, l, t)))
    decreases |items| - k
  {
    hide ExecFrom;
    if k < |items| {
      var f := BodyFrom(w, n.body, p, l, k, t[n.vr := items[k]]);
      if f.st.Running? {
        assert LoopTo(w, n, items, p, l, s, k + 1, f.scope);
        LoopRuns(w, n, items, p, l, s, k + 1, f.scope);
      }
    }
  }

  /** A loop over a collection takes its items in order; it refuses what is no list and a list
      longer than the interpreter's limit, and records the length. */
  lemma LoopLaw(w: World, n: Node, p: seq<nat>, l: seq<nat>, s: Scope, items: seq<Val>, e: End)
    requires n.Loop? && !n.par && Items(w.render, s, n.coll, items)
    ensures EndOf(Exec(w, n, p, l, s)) == e <==>
              if !Within(w, 0, |items|) then e == End(Failed(CollectionTooLong), s)
              else if Contradicted(w, Lp, Addr(p, l), |items|) then e == End(Failed(Diverged), s)
              else LoopEnds(w, n, items, p, l, s, e)
  {
    hide Iterate, EvalCollection, Denotes;
    CollectionIs(w.render, s, n.coll, items);
    CapIs(w, |items|);
    LoopRuns(w, n, items, p, l, s, 0, s);
    if LoopEnds(w, n, items, p, l, s, e) {
      var k: nat, t: Scope :|
        && k <= |items| && LoopTo(w, n, items, p, l, s, k, t)
        && if k == |items| then e == End(Running, t)
           else e == BodyFrom(w, n.body, p, l, k, t[n.vr := items[k]]) && !e.st.Running?;
      LoopReached(w, n, items, p, l, s, k, t);
      LoopStop(w, n, items, p, l, k, t);
    }
  }

  lemma LoopStop(w: World, n: Node, items: seq<Val>, p: seq<nat>, l: seq<nat>, k: nat, t: Scope)
    requires n.Loop? && !n.par && k <= |items|
    ensures var e := EndOf(Iterate(w, n, items, |items|, k, p, l, t));
            if k == |items| then e == End(Running, t)
            else
              var f := BodyFrom(w, n.body, p, l, k, t[n.vr := items[k]]);
              !f.st.Running? ==> e == f
  {
    hide ExecFrom;
  }

  lemma NoItems(w: World, n: Node, p: seq<nat>, l: seq<nat>, s: Scope)
    requires n.Loop? && forall items :: !Items(w.render, s, n.coll, items)
    ensures Exec(w, n, p, l, s) == Eff(s, Failed(EvalError), [])
  {
    hide EvalCollection, Denotes;
    var got := EvalCollection(w.render, s, n.coll);
    if got.Some? {
      CollectionIs(w.render, s, n.coll, got.value);
    }
    assert got.Some? ==> Items(w.render, s, n.coll, got.value);
  }

  // ----- sequences, bindings and returns

  /** Scope t is left by the first k nodes, all of which completed. */
  ghost predicate SequenceTo(w: World, ns: seq<Node>, p: seq<nat>, l: seq<nat>, s: Scope, k: nat, t: Scope)
    requires k <= |ns|
    decreases k
  {
    if k == 0 then t == s
    else var j: nat := k - 1; exists u ::
           && SequenceTo(w, ns, p, l, s, j, u)
           && EndOf(Exec(w, ns[j], p + [j], l, u)) == End(Running, t)
  }

  ghost predicate SequenceEnds(w: World, ns: seq<Node>, p: seq<nat>, l: seq<nat>, s: Scope, e: End) {
    exists k: nat, t: Scope ::
      && k <= |ns| && SequenceTo(w, ns, p, l, s, k, t)
      && if k == |ns| then e == End(Running, t) else e == EndOf(Exec(w, ns[k], p + [k], l, t)) && !e.st.Running?
  }

  lemma {:induction false} SequenceReached(w: World, ns: seq<Node>, p: seq<nat>, l: seq<nat>, s: Scope, k: nat,
      t: Scope)
    requires k <= |ns| && SequenceTo(w, ns, p, l, s, k, t)
    ensures EndOf(ExecFrom(w, ns, 0, p, l, s)) == EndOf(ExecFrom(w, ns, k, p, l, t))
    decreases k
  {
    hide Exec;
    if k > 0 {
      var u :| SequenceTo(w, ns, p, l, s, k - 1, u) && EndOf(Exec(w, ns[k - 1], p + [k - 1], l, u)) == End(Running, t);
      SequenceReached(w, ns, p, l, s, k - 1, u);
    }
  }

  lemma {:induction false} SequenceRuns(w: World, ns: seq<Node>, p: seq<nat>, l: seq<nat>, s: Scope, k: nat, t: Scope)
    requires k <= |ns| && SequenceTo(w, ns, p, l, s, k, t)
    ensures SequenceEnds(w, ns, p, l, s, EndOf(ExecFrom(w, ns, k, p, l, t)))
    decreases |ns| - k
  {
    hide Exec;
    if k < |ns| {
      var f := Exec(w, ns[k], p + [k], l, t);
      if f.st.Running? {
        assert SequenceTo(w, ns, p, l, s, k + 1, f.scope);
        SequenceRuns(w, ns, p, l, s, k + 1, f.scope);
      }
    }
  }

  /** Nodes run in order, each in the scope the one before left, until one returns, pauses or
      fails. */
  lemma SequenceLaw(w: World, ns: seq<Node>, p: seq<nat>, l: seq<nat>, s: Scope, e: End)
    ensures EndOf(ExecFrom(w, ns, 0, p, l, s)) == e <==> SequenceEnds(w, ns, p, l, s, e)
  {
    hide Exec, ExecFrom;
    SequenceRuns(w, ns, p, l, s, 0, s);
    if SequenceEnds(w, ns, p, l, s, e) {
      var k: nat, t: Scope :|
        && k <= |ns| && SequenceTo(w, ns, p, l, s, k, t)
        && if k == |ns| then e == End(Running, t) else e == EndOf(Exec(w, ns[k], p + [k], l, t)) && !e.st.Running?;
      SequenceReached(w, ns, p, l, s, k, t);
      SequenceStop(w, ns, p, l, k, t);
    }
  }

  lemma SequenceStop(w: World, ns: seq<Node>, p: seq<nat>, l: seq<nat>, k: nat, t: Scope)
    requires k <= |ns|
    ensures var e := EndOf(ExecFrom(w, ns, k, p, l, t));
            if k == |ns| then e == End(Running, t)
            else var f := EndOf(Exec(w, ns[k], p + [k], l, t)); !f.st.Running? ==> e == f
  {
    hide Exec;
  }

  /** t is s with the name bound to v, the empty name binding nothing. */
  ghost predicate Binds(s: Scope, name: string, v: Val, t: Scope) {
    if name == "" then t == s
    else
      && t.Keys == s.Keys + {name} && t[name] == v
      && forall h :: h in s && h != name ==> h in t && t[h] == s[h]
  }

  lemma BindIs(s: Scope, name: string, v: Val, t: Scope)
    ensures BindTo(s, name, v) == t <==> Binds(s, name, v, t)
  {
    if Binds(s, name, v, t) && name != "" { assert s[name := v] == t; }
  }

  /** A let binds what its value denotes; a return ends the run with it. */
  lemma LetReturnLaw(w: World, n: Node, p: seq<nat>, l: seq<nat>, s: Scope, v: Val)
    requires n.Let? || n.Return?
    ensures var e := Exec(w, n, p, l, s);
            && e.tr == []
            && (Denotes(w.render, s, n.value, v) ==>
                  if n.Let? then e.st.Running? && Binds(s, n.bind, v, e.scope) else e.st == Returned(v))
            && ((forall x :: !Denotes(w.render, s, n.value, x)) ==> e == Eff(s, Failed(EvalError), []))
  {
    hide Denotes, EvalValue;
    EvalDenotes(w.render, s, n.value, v);
    var got := EvalValue(w.render, s, n.value);
    if got.Some? {
      EvalDenotes(w.render, s, n.value, got.value);
      if n.Let? { BindIs(s, n.bind, got.value, BindTo(s, n.bind, got.value)); }
    }
  }

  // ----- leaves

  /** How a leaf publishes the result v: bound under its name; a subworkflow call that projects
      its value binds the document's field of that name, and fails on what is no document. */
  ghost predicate Published(call: Call, s: Scope, v: Val, e: Eff) {
    if call.Workflow? && call.project && call.bind != "" then
      if v.Obj? then e.st.Running? && exists x :: LeadsTo(v, ["value"], x) && Binds(s, call.bind, x, e.scope)
      else e.st == Failed(BadEnvelope)
    else e.st.Running? && Binds(s, call.bind, v, e.scope)
  }

  lemma PublishIs(call: Call, s: Scope, v: Val, tr: seq<Act>)
    ensures var e := Publish(call, s, v, tr); e.tr == tr && Published(call, s, v, e)
  {
    var e := Publish(call, s, v, tr);
    if call.Workflow? && call.project && call.bind != "" {
      if v.Obj? {
        var x := Descend(v, ["value"]);
        Descends(v, ["value"], x);
        Projected(v);
        BindIs(s, call.bind, x, e.scope);
      }
    } else {
      BindIs(s, call.bind, v, e.scope);
    }
  }

  lemma Projected(v: Val)
    requires v.Obj?
    ensures Descend(v, ["value"]) == if "value" in v.m then v.m["value"] else Null
  {
    assert ["value"][1..] == [];
  }

  /** The arguments denote r, name by name. */
  ghost predicate Arguments(rn: Render, s: Scope, args: Args, r: Scope) {
    r.Keys == args.Keys && forall k :: k in args ==> k in r && Denotes(rn, s, args[k], r[k])
  }

  /** A leaf with a memo entry publishes it and calls nothing. Any other is called with what its
      arguments denote, pauses or fails as it is told, and records and publishes the canonical
      form of its result. */
  lemma CallLaw(w: World, call: Call, a: Addr, s: Scope, r: Scope)
    ensures var e, site := ExecCall(w, call, a, s), Site(call.bind, a);
            if site in w.memo then e.tr == [Get(site, Some(w.memo[site]))] && Published(call, s, w.memo[site], e)
            else if Arguments(w.render, s, call.args, r) then
              var called := [Get(site, None), Called(site, call, r)];
              match w.oracle(call, a, r)
              case Suspend => e == Eff(s, Suspended, called + [Gate(site)])
              case Fail(x) => e == Eff(s, Failed(x), called)
              case Ok(raw) =>
                if JsonNum.Canonical(raw).None? then e == Eff(s, Failed(NotCheckpointable), called)
                else
                  var v := JsonNum.Canonical(raw).value;
                  e.tr == called + [Put(site, v)] && Published(call, s, v, e)
            else
              (forall q :: !Arguments(w.render, s, call.args, q)) ==> e == Eff(s, Failed(EvalError), [Get(site, None)])
  {
    hide EvalArgs, Denotes, Publish, Published, JsonNum.Canonical;
    var e, site := ExecCall(w, call, a, s), Site(call.bind, a);
    ArgsAre(w.render, s, call.args, r);
    if site in w.memo {
      PublishIs(call, s, w.memo[site], [Get(site, Some(w.memo[site]))]);
    } else {
      var args := EvalArgs(w.render, s, call.args);
      if args.Some? {
        ArgsAre(w.render, s, call.args, args.value);
        var o := w.oracle(call, a, args.value);
        if o.Ok? && JsonNum.Canonical(o.res).Some? {
          var v := JsonNum.Canonical(o.res).value;
          PublishIs(call, s, v, [Get(site, None)] + [Called(site, call, args.value)] + [Put(site, v)]);
        }
      }
      assert args.Some? ==> Arguments(w.render, s, call.args, args.value);
    }
  }

  // ----- parallel loops

  /** How iteration i of a parallel loop ends: its body on the enclosing scope with the loop
      variable bound to its item. */
  function TurnEnd(w: World, n: Node, items: seq<Val>, i: nat, p: seq<nat>, l: seq<nat>, s: Scope): Eff
    requires n.Loop? && i < |items|
  {
    ExecFrom(w, n.body, 0, p, l + [i], s[n.vr := items[i]])
  }

  ghost predicate TurnFails(w: World, n: Node, items: seq<Val>, i: nat, p: seq<nat>, l: seq<nat>, s: Scope)
    requires n.Loop? && i < |items|
  {
    var st := TurnEnd(w, n, items, i, p, l, s).st; st.Failed? && st.e != Cancelled
  }

  /** The first iteration from i on that fails of itself. */
  ghost predicate FirstFailing(w: World, n: Node, items: seq<Val>, i: nat, j: nat, p: seq<nat>, l: seq<nat>, s: Scope)
    requires n.Loop?
  {
    && i <= j < |items| && TurnFails(w, n, items, j, p, l, s)
    && forall k :: i <= k < j ==> !TurnFails(w, n, items, k, p, l, s)
  }

  lemma {:induction false} TurnsJoin(w: World, n: Node, items: seq<Val>, i: nat, p: seq<nat>, l: seq<nat>, s: Scope)
    requires n.Loop? && n.par && i <= |items|
    ensures var t := Threads(w, n, items, i, p, l, s);
            && (t.err.None? <==> forall j :: i <= j < |items| ==> !TurnFails(w, n, items, j, p, l, s))
            && (forall j: nat :: FirstFailing(w, n, items, i, j, p, l, s) ==>
                  t.err == Some(TurnEnd(w, n, items, j, p, l, s).st.e))
            && (t.susp <==> exists j :: i <= j < |items| && TurnEnd(w, n, items, j, p, l, s).st.Suspended?)
            && t.pub == map[]
            && (forall x :: x in t.tr <==> exists j :: i <= j < |items| && x in TurnEnd(w, n, items, j, p, l, s).tr)
    decreases |items| - i
  {
    hide ExecFrom, Shuffle;
    if i < |items| {
      TurnsJoin(w, n, items, i + 1, p, l, s);
      var e, r := TurnEnd(w, n, items, i, p, l, s), Threads(w, n, items, i + 1, p, l, s);
      var t := Threads(w, n, items, i, p, l, s);
      Addressing.ShuffleMembers(e.tr, r.tr, w.merge(Addr(p, l + [i])));
      assert t == AddThread(n, i, e, r, w.merge(Addr(p, l + [i])));
      forall x ensures x in t.tr <==> exists j :: i <= j < |items| && x in TurnEnd(w, n, items, j, p, l, s).tr {
        if x in r.tr {
          var j :| i + 1 <= j < |items| && x in TurnEnd(w, n, items, j, p, l, s).tr;
          assert i <= j;
        }
      }
      forall j: nat | FirstFailing(w, n, items, i, j, p, l, s)
        ensures t.err == Some(TurnEnd(w, n, items, j, p, l, s).st.e) {
        if j > i { assert !TurnFails(w, n, items, i, p, l, s) && FirstFailing(w, n, items, i + 1, j, p, l, s); }
      }
      assert t.err.None? <==> !TurnFails(w, n, items, i, p, l, s) && r.err.None?;
      if r.err.Some? {
        var j :| i + 1 <= j < |items| && TurnFails(w, n, items, j, p, l, s);
        assert i <= j;
      }
      if r.susp {
        var j :| i + 1 <= j < |items| && TurnEnd(w, n, items, j, p, l, s).st.Suspended?;
        assert i <= j;
      }
    }
  }

  /** A parallel loop runs every item's body on the enclosing scope: it fails with the first
      failure in item order, else pauses if an iteration or the session did, else completes. */
  lemma ParallelLoopLaw(w: World, n: Node, p: seq<nat>, l: seq<nat>, s: Scope, items: seq<Val>)
    requires n.Loop? && n.par && Items(w.render, s, n.coll, items)
    requires Within(w, 0, |items|) && !Contradicted(w, Lp, Addr(p, l), |items|)
    ensures var e := Exec(w, n, p, l, s);
            && e.scope == s
            && (forall j: nat :: FirstFailing(w, n, items, 0, j, p, l, s) ==>
                  e.st == Failed(TurnEnd(w, n, items, j, p, l, s).st.e))
            && ((forall j :: 0 <= j < |items| ==> !TurnFails(w, n, items, j, p, l, s)) ==>
                  e.st == if (exists j :: 0 <= j < |items| && TurnEnd(w, n, items, j, p, l, s).st.Suspended?)
                             || w.halt(Addr(p, l)) then Suspended else Running)
            && (forall x :: x in e.tr <==>
                  || x == Ctl(CtlKey(Lp, Addr(p, l)), |items|, true)
                  || exists j :: 0 <= j < |items| && x in TurnEnd(w, n, items, j, p, l, s).tr)
  {
    hide Threads, EvalCollection, Denotes, TurnEnd;
    CollectionIs(w.render, s, n.coll, items);
    CapIs(w, |items|);
    TurnsJoin(w, n, items, 0, p, l, s);
    assert s + map[] == s;
  }

  // ----- where a run starts

  /** One parameter is the whole input; of several each is the input's field of its name, null
      where there is none, and unbound when the input is no object. */
  lemma ParametersLaw(params: seq<string>, input: Val)
    ensures var s := ParamScope(params, input);
            if |params| == 1 then s.Keys == {params[0]} && s[params[0]] == input
            else if input.Obj? then
              && (forall q :: q in s <==> q in params)
              && forall q :: q in params ==> LeadsTo(input, [q], s[q])
            else s == map[]
  {
    if |params| != 1 && input.Obj? {
      forall q | q in params ensures LeadsTo(input, [q], ParamScope(params, input)[q]) {
        assert [q][1..] == [];
      }
    }
  }

  /** A run is its program's nodes in order from the scope of its parameters, with nothing bound
      besides. */
  lemma RunLaw(w: World, prog: Program, input: Val, e: End)
    ensures EndOf(Run(w, prog, input)) == e <==>
            SequenceEnds(w, prog.body, [], [], ParamScope(prog.params, input), e)
  {
    hide SequenceEnds, ParamScope, ExecFrom;
    SequenceLaw(w, prog.body, [], [], ParamScope(prog.params, input), e);
  }
}
