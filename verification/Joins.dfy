/** When a fork reports success (internal/execir/interp.go classifyConcurrent, execFork). */
module Joins {
  import opened Values
  import opened ExecIR
  import opened Eval
  import opened Interp

  /** How branch i of a fork ends. */
  ghost function BranchEnd(w: World, n: Node, i: nat, p: seq<nat>, l: seq<nat>, s: Scope): Status
    requires n.Fork? && i < |n.branches|
  {
    ExecFrom(w, n.branches[i].nodes, 0, p + [i], l, s).st
  }

  ghost predicate BranchFails(w: World, n: Node, i: nat, p: seq<nat>, l: seq<nat>, s: Scope)
    requires n.Fork? && i < |n.branches|
  {
    var st := BranchEnd(w, n, i, p, l, s); st.Failed? && st.e != Cancelled
  }

  lemma {:induction false} JoinedErrors(w: World, n: Node, i: nat, p: seq<nat>, l: seq<nat>, s: Scope)
    requires n.Fork? && i <= |n.branches|
    ensures var t := Threads(w, n, [], i, p, l, s);
            && (t.err.Some? <==> exists j :: i <= j < |n.branches| && BranchFails(w, n, j, p, l, s))
            && (t.susp <==> exists j :: i <= j < |n.branches| && BranchEnd(w, n, j, p, l, s).Suspended?)
    decreases |n.branches| - i
  {
    hide ExecFrom, Shuffle;
    if i < |n.branches| {
      JoinedErrors(w, n, i + 1, p, l, s);
      var t, r := Threads(w, n, [], i, p, l, s), Threads(w, n, [], i + 1, p, l, s);
      assert t.err.Some? <==> BranchFails(w, n, i, p, l, s) || r.err.Some?;
      assert t.susp <==> BranchEnd(w, n, i, p, l, s).Suspended? || r.susp;
      if r.err.Some? {
        var j :| i + 1 <= j < |n.branches| && BranchFails(w, n, j, p, l, s);
        assert i <= j;
      }
      if r.susp {
        var j :| i + 1 <= j < |n.branches| && BranchEnd(w, n, j, p, l, s).Suspended?;
        assert i <= j;
      }
    }
  }

  /** Branch j is the first from i on that fails of itself. */
  ghost predicate FirstFailing(w: World, n: Node, i: nat, j: nat, p: seq<nat>, l: seq<nat>, s: Scope)
    requires n.Fork?
  {
    && i <= j < |n.branches| && BranchFails(w, n, j, p, l, s)
    && forall k :: i <= k < j ==> !BranchFails(w, n, k, p, l, s)
  }

  lemma {:induction false} FirstErrorJoined(w: World, n: Node, i: nat, j: nat, p: seq<nat>, l: seq<nat>, s: Scope)
    requires n.Fork? && i <= |n.branches| && FirstFailing(w, n, i, j, p, l, s)
    ensures Threads(w, n, [], i, p, l, s).err == Some(BranchEnd(w, n, j, p, l, s).e)
    decreases |n.branches| - i
  {
    hide ExecFrom, Shuffle;
    if j > i {
      assert !BranchFails(w, n, i, p, l, s);
      FirstErrorJoined(w, n, i + 1, j, p, l, s);
    }
  }

  /** A fork with a branch that fails of itself fails, with the first such failure in branch
      order; otherwise it pauses exactly when a branch or the session did. */
  lemma ForkFailsFirst(w: World, n: Node, p: seq<nat>, l: seq<nat>, s: Scope)
    requires n.Fork?
    ensures forall j: nat :: FirstFailing(w, n, 0, j, p, l, s) ==>
              Exec(w, n, p, l, s).st == Failed(BranchEnd(w, n, j, p, l, s).e)
    ensures (forall j :: 0 <= j < |n.branches| ==> !BranchFails(w, n, j, p, l, s)) ==>
              Exec(w, n, p, l, s).st ==
              if w.halt(Addr(p, l)) || exists j :: 0 <= j < |n.branches| && BranchEnd(w, n, j, p, l, s).Suspended?
              then Suspended else Running
  {
    hide ExecFrom, Threads;
    JoinedErrors(w, n, 0, p, l, s);
    forall j: nat | FirstFailing(w, n, 0, j, p, l, s)
      ensures Exec(w, n, p, l, s).st == Failed(BranchEnd(w, n, j, p, l, s).e) {
      FirstErrorJoined(w, n, 0, j, p, l, s);
    }
  }

  /** A fork succeeds exactly when nothing paused and every branch ended normally or with a
      cancellation; only cancellations (which include a leaf's own deadline) go unreported. */
  lemma ForkSucceedsIff(w: World, n: Node, p: seq<nat>, l: seq<nat>, s: Scope)
    requires n.Fork?
    ensures Exec(w, n, p, l, s).st.Running? <==>
            && !w.halt(Addr(p, l))
            && forall i :: 0 <= i < |n.branches| ==>
                 var st := BranchEnd(w, n, i, p, l, s); st.Running? || st.Returned? || st == Failed(Cancelled)
  {
    hide ExecFrom, Threads;
    JoinedErrors(w, n, 0, p, l, s);
    var t := Threads(w, n, [], 0, p, l, s);
    if forall i :: 0 <= i < |n.branches| ==> !BranchFails(w, n, i, p, l, s) && !BranchEnd(w, n, i, p, l, s).Suspended? {
      assert t.err.None? && !t.susp;
    } else {
      var i :| 0 <= i < |n.branches| && (BranchFails(w, n, i, p, l, s) || BranchEnd(w, n, i, p, l, s).Suspended?);
    }
  }

  /** So a lone branch whose leaf is cancelled, by its own deadline say, leaves a successful
      fork with the branch's binding missing. */
  lemma CancelledBranchIsSwallowed(w: World, call: Call, p: seq<nat>, l: seq<nat>, s: Scope, args: Scope)
    requires Site(call.bind, Addr(p + [0] + [0], l)) !in w.memo && EvalArgs(w.render, s, call.args) == Some(args)
    requires w.oracle(call, Addr(p + [0] + [0], l), args) == Fail(Cancelled) && !w.halt(Addr(p, l))
    ensures var e := Exec(w, Fork([ForkBranch(call.bind, [Invoke(call)])]), p, l, s);
            e.st.Running? && e.scope == s
  {
    var n := Fork([ForkBranch(call.bind, [Invoke(call)])]);
    var a := Addr(p + [0] + [0], l);
    assert ExecCall(w, call, a, s).st == Failed(Cancelled);
    assert Exec(w, Invoke(call), p + [0] + [0], l, s).st == Failed(Cancelled);
    var e := ExecFrom(w, [Invoke(call)], 0, p + [0], l, s);
    assert e.st == Failed(Cancelled);
    assert Threads(w, n, [], 1, p, l, s).pub == map[];
    assert Threads(w, n, [], 0, p, l, s).err.None? && !Threads(w, n, [], 0, p, l, s).susp;
    assert Threads(w, n, [], 0, p, l, s).pub == map[];
  }

  // ----- what a successful join publishes

  /** What branch i offers: its binding, if it ended normally and bound it. */
  ghost function Offer(w: World, n: Node, i: nat, p: seq<nat>, l: seq<nat>, s: Scope): Scope
    requires n.Fork? && i < |n.branches|
  {
    var e, bind := ExecFrom(w, n.branches[i].nodes, 0, p + [i], l, s), n.branches[i].bind;
    if (e.st.Running? || e.st.Returned?) && bind != "" && bind in e.scope then map[bind := e.scope[bind]] else map[]
  }

  lemma OfferJoins(w: World, n: Node, i: nat, p: seq<nat>, l: seq<nat>, s: Scope)
    requires n.Fork? && i < |n.branches|
    ensures Threads(w, n, [], i, p, l, s).pub == Offer(w, n, i, p, l, s) + Threads(w, n, [], i + 1, p, l, s).pub
  {
    hide ExecFrom, Shuffle;
  }

  /** Branch j is the last one from i on to offer h. */
  ghost predicate LastOffer(w: World, n: Node, i: nat, j: nat, h: string, p: seq<nat>, l: seq<nat>, s: Scope)
    requires n.Fork?
  {
    i <= j < |n.branches| && h in Offer(w, n, j, p, l, s)
    && forall k :: j < k < |n.branches| ==> h !in Offer(w, n, k, p, l, s)
  }

  /** pub holds of h what the last branch from i on to offer it offers. */
  ghost predicate HoldsOffers(w: World, n: Node, i: nat, h: string, p: seq<nat>, l: seq<nat>, s: Scope, pub: Scope)
    requires n.Fork?
  {
    && (h in pub <==> exists j :: i <= j < |n.branches| && h in Offer(w, n, j, p, l, s))
    && (forall j: nat :: LastOffer(w, n, i, j, h, p, l, s) ==> h in pub && pub[h] == Offer(w, n, j, p, l, s)[h])
  }

  lemma OfferStep(w: World, n: Node, i: nat, h: string, p: seq<nat>, l: seq<nat>, s: Scope, pub: Scope)
    requires n.Fork? && i < |n.branches| && HoldsOffers(w, n, i + 1, h, p, l, s, pub)
    ensures HoldsOffers(w, n, i, h, p, l, s, Offer(w, n, i, p, l, s) + pub)
  {
    hide Offer;
    var all := Offer(w, n, i, p, l, s) + pub;
    if j :| i + 1 <= j < |n.branches| && h in Offer(w, n, j, p, l, s) { assert i <= j; }
    forall j: nat | LastOffer(w, n, i, j, h, p, l, s) ensures h in all && all[h] == Offer(w, n, j, p, l, s)[h] {
      if j > i { assert LastOffer(w, n, i + 1, j, h, p, l, s); }
    }
  }

  lemma NoOffers(w: World, n: Node, h: string, p: seq<nat>, l: seq<nat>, s: Scope)
    requires n.Fork?
    ensures HoldsOffers(w, n, |n.branches|, h, p, l, s, Threads(w, n, [], |n.branches|, p, l, s).pub)
  {
    hide Offer;
  }

  lemma {:induction false} JoinedOffers(w: World, n: Node, i: nat, h: string, p: seq<nat>, l: seq<nat>, s: Scope)
    requires n.Fork? && i <= |n.branches|
    ensures HoldsOffers(w, n, i, h, p, l, s, Threads(w, n, [], i, p, l, s).pub)
    decreases |n.branches| - i
  {
    hide Threads, HoldsOffers, Offer;
    if i == |n.branches| {
      NoOffers(w, n, h, p, l, s);
    } else {
      JoinedOffers(w, n, i + 1, h, p, l, s);
      OfferJoins(w, n, i, p, l, s);
      OfferStep(w, n, i, h, p, l, s, Threads(w, n, [], i + 1, p, l, s).pub);
    }
  }

  /** A successful fork binds each name to what the last branch offering it computed, and
      leaves every other name of the parent scope as it was. */
  lemma ForkPublishes(w: World, n: Node, p: seq<nat>, l: seq<nat>, s: Scope, h: string)
    requires n.Fork? && Exec(w, n, p, l, s).st.Running?
    ensures var e := Exec(w, n, p, l, s);
            && (forall j: nat ::
                  LastOffer(w, n, 0, j, h, p, l, s) ==> h in e.scope && e.scope[h] == Offer(w, n, j, p, l, s)[h])
            && ((forall j :: 0 <= j < |n.branches| ==> h !in Offer(w, n, j, p, l, s)) ==>
                  (h in e.scope <==> h in s) && (h in s ==> e.scope[h] == s[h]))
  {
    hide Threads, ExecFrom, Offer;
    JoinedOffers(w, n, 0, h, p, l, s);
  }

  /** A parallel loop never changes the enclosing scope. */
  lemma {:induction false} NothingOffered(w: World, n: Node, items: seq<Val>, i: nat, p: seq<nat>, l: seq<nat>,
      s: Scope)
    requires n.Loop? && n.par && i <= |items|
    ensures Threads(w, n, items, i, p, l, s).pub == map[]
    decreases |items| - i
  {
    hide ExecFrom, Shuffle;
    if i < |items| { NothingOffered(w, n, items, i + 1, p, l, s); }
  }

  lemma ParallelLoopKeepsScope(w: World, n: Node, p: seq<nat>, l: seq<nat>, s: Scope)
    requires n.Loop? && n.par
    ensures Exec(w, n, p, l, s).scope == s
  {
    hide Threads;
    var items := EvalCollection(w.render, s, n.coll);
    if items.Some? {
      NothingOffered(w, n, items.value, 0, p, l, s);
      assert s + map[] == s;
    }
  }
}
