/** Replay transparency: a run resumed from any part of the uninterrupted run's memo and
    control record either stops at a human gate, having recorded nothing the uninterrupted
    run would not record, or ends exactly as the uninterrupted run does. */
module Replay {
  import opened Values
  import opened ExecIR
  import opened Eval
  import opened GraphOrder
  import opened Interp
  import opened Addressing
  import opened Scoping
  import JsonNum

  /** An uninterrupted run: nothing seeded, and no timing-dependent pause. */
  ghost predicate Fresh(z: World) {
    && z.memo == map[]
    && z.ctl == map[]
    && (forall a :: !z.halt(a))
    && (forall c, a, x :: z.oracle(c, a, x) != Fail(Cancelled) && z.oracle(c, a, x) != Fail(Diverged))
  }

  /** w is a run of the same program whose gates may still be undecided: where its invoker
      does not pause it answers as z's does. Seeds, pauses and interleaving are arbitrary. */
  ghost predicate Resumes(w: World, z: World) {
    && w.maxLoop == z.maxLoop
    && w.render == z.render
    && forall c, a, x :: w.oracle(c, a, x) == z.oracle(c, a, x) || w.oracle(c, a, x) == Suspend
  }

  /** Inside region r, the seed of w repeats records of the trace f. */
  ghost predicate SeedFrom(w: World, f: seq<Act>, r: Region) {
    && (forall k | k in w.memo && r.Has(k.at) :: Put(k, w.memo[k]) in f)
    && (forall k | k in w.ctl && r.Has(k.at) :: Ctl(k, w.ctl[k], true) in f)
  }

  /** Every operation of e is one of f: same calls with the same arguments, same records,
      and no seeded leaf is called. */
  ghost predicate Sound(w: World, e: seq<Act>, f: seq<Act>) {
    forall x | x in e ::
      match x
      case Get(site, Some(v)) => Put(site, v) in f
      case Called(site, _, _) => x in f && site !in w.memo
      case Gate(_) => true
      case _ => x in f
  }

  /** Every record of f is in the seed or made by e. */
  ghost predicate Complete(w: World, e: seq<Act>, f: seq<Act>) {
    forall x | x in f ::
      && (x.Put? ==> x in e || (x.site in w.memo && w.memo[x.site] == x.v))
      && (x.Ctl? ==> x in e)
  }

  ghost predicate Clean(st: Status) {
    st != Failed(Cancelled) && st != Failed(Diverged)
  }

  ghost predicate Sim(w: World, e: Eff, f: Eff) {
    && Sound(w, e.tr, f.tr)
    && Clean(e.st) && Clean(f.st)
    && (|| e.st.Suspended?
        || (e.st.Failed? && f.st.Failed?)
        || (e.st == f.st && e.scope == f.scope && Complete(w, e.tr, f.tr)))
  }

  // ----- composing simulations

  lemma SeedShrink(w: World, part: seq<Act>, r: Region, rest: seq<Act>, q: Region, f: seq<Act>, outer: Region)
    requires SeedFrom(w, f, outer) && Within(rest, q) && Disjoint(r, q) && Inside(r, outer)
    requires forall x | x in f :: x in part || x in rest
    ensures SeedFrom(w, part, r)
  {
    forall k | k in w.memo && r.Has(k.at) ensures Put(k, w.memo[k]) in part {
      assert AddrOf(Put(k, w.memo[k])) == k.at;
    }
    forall k | k in w.ctl && r.Has(k.at) ensures Ctl(k, w.ctl[k], true) in part {
      assert AddrOf(Ctl(k, w.ctl[k], true)) == k.at;
    }
  }

  lemma SeedWithin(w: World, f: seq<Act>, r: Region, outer: Region)
    requires SeedFrom(w, f, outer) && Inside(r, outer)
    ensures SeedFrom(w, f, r)
  {
  }

  /** A seeded decision equals the fresh one, so it is never a divergence. */
  lemma RecordAgrees(w: World, z: World, k: CtlKey, val: int, f: seq<Act>, r: Region)
    requires Fresh(z) && SeedFrom(w, f, r) && r.Has(k.at) && Once(f) && Ctl(k, val, true) in f
    ensures Record(w, k, val) == Record(z, k, val) == Check([Ctl(k, val, true)], Yes)
  {
    if k in w.ctl && w.ctl[k] != val {
      var x, y := Ctl(k, w.ctl[k], true), Ctl(k, val, true);
      var i :| 0 <= i < |f| && f[i] == x;
      var j :| 0 <= j < |f| && f[j] == y;
      assert Clash(f[i], f[j]) && Clash(f[j], f[i]);
      assert false;
    }
  }

  lemma DecideAgrees(w: World, z: World, tag: Tag, cond: Expr, a: Addr, s: Scope, f: seq<Act>, r: Region)
    requires Fresh(z) && w.render == z.render && SeedFrom(w, f, r) && r.Has(a) && Once(f)
    requires forall x | x in Decide(z, tag, cond, a, s).tr :: x in f
    ensures Decide(w, tag, cond, a, s) == Decide(z, tag, cond, a, s)
    ensures forall x | x in Decide(w, tag, cond, a, s).tr :: x.Ctl?
    ensures Decide(w, tag, cond, a, s).verdict.Err? ==> Clean(Failed(Decide(w, tag, cond, a, s).verdict.e))
  {
    var b := EvalExpr(w.render, s, cond);
    if b.Some? {
      var k, v := CtlKey(tag, a), if b.value then 1 else 0;
      assert Record(z, k, v) == Check([Ctl(k, v, true)], Yes);
      assert Ctl(k, v, true) in Decide(z, tag, cond, a, s).tr;
      RecordAgrees(w, z, k, v, f, r);
    }
  }

  /** Both sides perform the same control records c, then simulate. */
  lemma SimAfter(w: World, c: seq<Act>, e: Eff, f: Eff)
    requires Sim(w, e, f) && forall x | x in c :: x.Ctl?
    ensures Sim(w, Prefix(c, e), Prefix(c, f))
  {
  }

  lemma SimThen(w: World, e: Eff, f: Eff, e': Eff, f': Eff)
    requires Sim(w, e, f) && e.st.Running? && f.st.Running? && Sim(w, e', f')
    ensures Sim(w, Prefix(e.tr, e'), Prefix(f.tr, f'))
  {
  }

  /** e stopped for good where f went on (or stopped). */
  lemma SimStop(w: World, e: Eff, f: Eff, f': Eff)
    requires Sim(w, e, f) && (e.st.Suspended? || !f.st.Running?)
    requires f.st.Running? ==> Clean(f'.st)
    ensures Sim(w, e, if f.st.Running? then Prefix(f.tr, f') else f)
  {
  }

  // ----- leaves

  /** Effects e and f of one leaf, on a resumed and an uninterrupted run: f explains every operation of
      e, they end alike unless e paused, and they bind the same value; equal scopes stay equal. */
  ghost predicate CallsAgree(w: World, call: Call, e: Eff, f: Eff, same: bool) {
    && Sound(w, e.tr, f.tr) && Clean(e.st) && Clean(f.st)
    && (e.st.Suspended? || (e.st.Failed? && f.st.Failed?) || (e.st == f.st && Complete(w, e.tr, f.tr)))
    && (same ==> Sim(w, e, f))
    && (e.st.Running? && call.bind != "" ==>
          call.bind in e.scope && call.bind in f.scope && e.scope[call.bind] == f.scope[call.bind])
  }

  lemma CallSim(w: World, z: World, call: Call, a: Addr, s: Scope, t: Scope)
    requires Fresh(z) && Resumes(w, z)
    requires EvalArgs(w.render, s, call.args) == EvalArgs(z.render, t, call.args)
    requires SeedFrom(w, ExecCall(z, call, a, t).tr, At(a.path, a.loop))
    ensures CallsAgree(w, call, ExecCall(w, call, a, s), ExecCall(z, call, a, t), s == t)
  {
    hide EvalArgs, JsonNum.Canonical, CallsAgree;
    if Site(call.bind, a) in w.memo {
      SeededCallSim(w, z, call, a, s, t);
    } else {
      UnseededCallSim(w, z, call, a, s, t);
    }
  }

  /** Publishing one value on either side. */
  lemma PublishAgrees(w: World, call: Call, s: Scope, t: Scope, v: Val, e: seq<Act>, f: seq<Act>)
    requires Sound(w, e, f) && Complete(w, e, f)
    ensures CallsAgree(w, call, Publish(call, s, v, e), Publish(call, t, v, f), s == t)
  {
    hide Sound, Complete;
  }

  /** A leaf answered from the memo. */
  lemma SeededCallSim(w: World, z: World, call: Call, a: Addr, s: Scope, t: Scope)
    requires Fresh(z) && Resumes(w, z) && Site(call.bind, a) in w.memo
    requires SeedFrom(w, ExecCall(z, call, a, t).tr, At(a.path, a.loop))
    ensures CallsAgree(w, call, ExecCall(w, call, a, s), ExecCall(z, call, a, t), s == t)
  {
    hide EvalArgs, JsonNum.Canonical, Publish, CallsAgree;
    var site := Site(call.bind, a);
    var v, f := w.memo[site], ExecCall(z, call, a, t);
    assert At(a.path, a.loop).Has(site.at);
    assert Put(site, v) in f.tr;
    var args := FreshPut(z, call, a, t, v);
    var full := [Get(site, None), Called(site, call, args), Put(site, v)];
    PublishAgrees(w, call, s, t, v, [Get(site, Some(v))], full);
  }

  /** A fresh call that records v called with some arguments and published v. */
  lemma FreshPut(z: World, call: Call, a: Addr, t: Scope, v: Val) returns (args: Scope)
    requires Fresh(z) && Put(Site(call.bind, a), v) in ExecCall(z, call, a, t).tr
    ensures var site := Site(call.bind, a);
            ExecCall(z, call, a, t) == Publish(call, t, v, [Get(site, None), Called(site, call, args), Put(site, v)])
  {
    hide EvalArgs, JsonNum.Canonical;
    args := EvalArgs(z.render, t, call.args).value;
    assert z.oracle(call, a, args).Ok?;
  }

  /** A leaf that is called in both worlds, unless w's invoker pauses. */
  lemma UnseededCallSim(w: World, z: World, call: Call, a: Addr, s: Scope, t: Scope)
    requires Fresh(z) && Resumes(w, z) && Site(call.bind, a) !in w.memo
    requires EvalArgs(w.render, s, call.args) == EvalArgs(z.render, t, call.args)
    ensures CallsAgree(w, call, ExecCall(w, call, a, s), ExecCall(z, call, a, t), s == t)
  {
    hide EvalArgs, JsonNum.Canonical, Publish, CallsAgree;
    var site, args := Site(call.bind, a), EvalArgs(z.render, t, call.args);
    if args.None? {
      FailAlike(w, call, s, t, EvalError, [Get(site, None)]);
    } else {
      var called := [Get(site, None), Called(site, call, args.value)];
      assert [Get(site, None)] + [Called(site, call, args.value)] == called;
      var o := z.oracle(call, a, args.value);
      assert w.oracle(call, a, args.value) == o || w.oracle(call, a, args.value) == Suspend;
      if w.oracle(call, a, args.value).Suspend? {
        StartsCalled(z, call, a, t, args.value);
        PauseAgrees(w, call, s, ExecCall(z, call, a, t), site, args.value, s == t);
        assert ExecCall(w, call, a, s) == Eff(s, Suspended, called + [Gate(site)]);
      } else if o.Fail? {
        FailAlike(w, call, s, t, o.e, called);
      } else if JsonNum.Canonical(o.res).None? {
        FailAlike(w, call, s, t, NotCheckpointable, called);
      } else {
        var full := called + [Put(site, JsonNum.Canonical(o.res).value)];
        PublishAgrees(w, call, s, t, JsonNum.Canonical(o.res).value, full, full);
      }
    }
  }

  lemma FailAlike(w: World, call: Call, s: Scope, t: Scope, e: Error, tr: seq<Act>)
    requires e != Cancelled && e != Diverged
    requires forall x | x in tr :: !(x.Get? && x.hit.Some?) && (x.Called? ==> x.site !in w.memo)
    ensures CallsAgree(w, call, Eff(s, Failed(e), tr), Eff(t, Failed(e), tr), s == t)
  {
  }

  /** An unseeded call of a fresh world looks up and then calls. */
  lemma StartsCalled(z: World, call: Call, a: Addr, t: Scope, args: Scope)
    requires Fresh(z) && EvalArgs(z.render, t, call.args) == Some(args)
    ensures var f := ExecCall(z, call, a, t);
            Clean(f.st) && [Get(Site(call.bind, a), None), Called(Site(call.bind, a), call, args)] <= f.tr
  {
    hide EvalArgs, JsonNum.Canonical;
  }

  lemma PauseAgrees(w: World, call: Call, s: Scope, f: Eff, site: Site, args: Scope, same: bool)
    requires site !in w.memo && Clean(f.st) && [Get(site, None), Called(site, call, args)] <= f.tr
    ensures var called := [Get(site, None), Called(site, call, args)];
            CallsAgree(w, call, Eff(s, Suspended, called + [Gate(site)]), f, same)
  {
    var called := [Get(site, None), Called(site, call, args)];
    assert called[0] in f.tr && called[1] in f.tr;
  }

  // ----- nodes

  lemma {:induction false} ExecSim(w: World, z: World, n: Node, p: seq<nat>, l: seq<nat>, s: Scope)
    requires Fresh(z) && Resumes(w, z) && NodeOk(n)
    requires SeedFrom(w, Exec(z, n, p, l, s).tr, At(p, l))
    ensures Sim(w, Exec(w, n, p, l, s), Exec(z, n, p, l, s))
    decreases n, 2, 0
  {
    hide Sim, SeedFrom, Fits, Inside, Disjoint;
    var a := Addr(p, l);
    var f := Exec(z, n, p, l, s);
    ExecFits(z, n, p, l, s);
    OnceOf(f.tr, At(p, l));
    match n
    case Invoke(call) => CallSim(w, z, call, a, s, s);
    case Let(_, _) => SimSame(w, Exec(w, n, p, l, s), f);
    case Return(_) => SimSame(w, Exec(w, n, p, l, s), f);
    case Branch(cond, thn, els) => BranchSim(w, z, n, p, l, s);
    case Fork(_) =>
      ChildRegion(p, l, 0);
      SeedWithin(w, f.tr, Kids(p, l, 0), At(p, l));
      ThreadsSim(w, z, n, [], 0, p, l, s);
      JoinSim(w, z, a, s, Threads(w, n, [], 0, p, l, s), Threads(z, n, [], 0, p, l, s));
    case Loop(_, _, _, _) => LoopSim(w, z, n, p, l, s);
    case While(_, limit, _) =>
      IterRegion(p, l, 0);
      SeedWithin(w, f.tr, Iters(p, l, 0), At(p, l));
      IterateSim(w, z, n, [], w.Bound(limit), 0, p, l, s);
    case Retry(_, limit, _) =>
      IterRegion(p, l, 0);
      SeedWithin(w, f.tr, Iters(p, l, 0), At(p, l));
      IterateSim(w, z, n, [], w.Bound(limit), 0, p, l, s);
    case Graph(nodes) => GraphSim(w, z, Sorted(nodes), p, l, s);
  }

  lemma OnceOf(tr: seq<Act>, r: Region)
    requires Fits(tr, r)
    ensures Once(tr) && Within(tr, r)
  {
  }

  lemma SimSame(w: World, e: Eff, f: Eff)
    requires e == f && Clean(e.st) && forall x | x in e.tr :: x.Ctl?
    ensures Sim(w, e, f)
  {
  }

  lemma {:induction false} BranchSim(w: World, z: World, n: Node, p: seq<nat>, l: seq<nat>, s: Scope)
    requires n.Branch? && Fresh(z) && Resumes(w, z) && NodeOk(n)
    requires SeedFrom(w, Exec(z, n, p, l, s).tr, At(p, l)) && Fits(Exec(z, n, p, l, s).tr, At(p, l))
    ensures Sim(w, Exec(w, n, p, l, s), Exec(z, n, p, l, s))
    decreases n, 1, 0
  {
    hide Sim, SeedFrom, Inside, Disjoint;
    var a := Addr(p, l);
    var f := Exec(z, n, p, l, s);
    var c := Decide(z, Br, n.cond, a, s);
    DecideAgrees(w, z, Br, n.cond, a, s, f.tr, At(p, l));
    if c.verdict.Err? {
      SimSame(w, Exec(w, n, p, l, s), f);
    } else {
      var arm, q := if c.verdict.Yes? then n.thn else n.els, if c.verdict.Yes? then p + [0] else p + [1];
      var g := ExecFrom(z, arm, 0, q, l, s);
      KidsBelow(p, l, 0);
      KidsBelow(p, l, 1);
      SeedBelow(w, c.tr, a, g.tr, Kids(q, l, 0), f.tr);
      ExecFromSim(w, z, arm, 0, q, l, s);
      SimAfter(w, c.tr, ExecFrom(w, arm, 0, q, l, s), g);
    }
  }

  /** Dropping the node's own control record from the trace keeps the seed of what lies below it. */
  lemma SeedBelow(w: World, c: seq<Act>, a: Addr, g: seq<Act>, r: Region, f: seq<Act>)
    requires SeedFrom(w, f, At(a.path, a.loop)) && Inside(r, At(a.path, a.loop)) && !r.Has(a)
    requires (forall x | x in c :: AddrOf(x) == a) && f == c + g
    ensures SeedFrom(w, g, r)
  {
    forall k | k in w.memo && r.Has(k.at) ensures Put(k, w.memo[k]) in g {
      assert AddrOf(Put(k, w.memo[k])) == k.at;
    }
    forall k | k in w.ctl && r.Has(k.at) ensures Ctl(k, w.ctl[k], true) in g {
      assert AddrOf(Ctl(k, w.ctl[k], true)) == k.at;
    }
  }

  lemma {:induction false} LoopSim(w: World, z: World, n: Node, p: seq<nat>, l: seq<nat>, s: Scope)
    requires n.Loop? && Fresh(z) && Resumes(w, z) && NodeOk(n)
    requires SeedFrom(w, Exec(z, n, p, l, s).tr, At(p, l)) && Fits(Exec(z, n, p, l, s).tr, At(p, l))
    ensures Sim(w, Exec(w, n, p, l, s), Exec(z, n, p, l, s))
    decreases n, 1, w.Cap() + 1
  {
    hide Sim, SeedFrom, Inside, Disjoint;
    var a := Addr(p, l);
    var f := Exec(z, n, p, l, s);
    var got := EvalCollection(w.render, s, n.coll);
    if got.None? || |got.value| > w.Cap() {
      SimSame(w, Exec(w, n, p, l, s), f);
    } else {
      var items := got.value;
      var c := Record(z, CtlKey(Lp, a), |items|);
      assert c == Check([Ctl(CtlKey(Lp, a), |items|, true)], Yes);
      assert Ctl(CtlKey(Lp, a), |items|, true) in f.tr;
      RecordAgrees(w, z, CtlKey(Lp, a), |items|, f.tr, At(p, l));
      IterRegion(p, l, 0);
      assert !Iters(p, l, 0).Has(a);
      if n.par {
        var g := Threads(z, n, items, 0, p, l, s);
        SeedBelow(w, c.tr, a, g.tr, Iters(p, l, 0), f.tr);
        ThreadsSim(w, z, n, items, 0, p, l, s);
        JoinSim(w, z, a, s, Threads(w, n, items, 0, p, l, s), g);
        SimAfter(w, c.tr, Join(w, a, s, Threads(w, n, items, 0, p, l, s)), Join(z, a, s, g));
      } else {
        var g := Iterate(z, n, items, |items|, 0, p, l, s);
        SeedBelow(w, c.tr, a, g.tr, Iters(p, l, 0), f.tr);
        IterateSim(w, z, n, items, |items|, 0, p, l, s);
        SimAfter(w, c.tr, Iterate(w, n, items, |items|, 0, p, l, s), g);
      }
    }
  }

  lemma {:induction false} ExecFromSim(w: World, z: World, ns: seq<Node>, i: nat, p: seq<nat>, l: seq<nat>, s: Scope)
    requires i <= |ns| && Fresh(z) && Resumes(w, z) && NodesOk(ns)
    requires SeedFrom(w, ExecFrom(z, ns, i, p, l, s).tr, Kids(p, l, i))
    ensures Sim(w, ExecFrom(w, ns, i, p, l, s), ExecFrom(z, ns, i, p, l, s))
    decreases ns, 0, |ns| - i
  {
    hide SeedFrom, Inside, Disjoint;
    if i == |ns| {
      SimSame(w, ExecFrom(w, ns, i, p, l, s), ExecFrom(z, ns, i, p, l, s));
    } else {
      var e, f := Exec(w, ns[i], p + [i], l, s), Exec(z, ns[i], p + [i], l, s);
      var whole := ExecFrom(z, ns, i, p, l, s);
      var rest := if f.st.Running? then ExecFrom(z, ns, i + 1, p, l, f.scope).tr else [];
      assert whole.tr == f.tr + rest;
      ExecFits(z, ns[i], p + [i], l, s);
      ChildRegion(p, l, i);
      if f.st.Running? { ExecFromFits(z, ns, i + 1, p, l, f.scope); }
      SeedShrink(w, f.tr, At(p + [i], l), rest, Kids(p, l, i + 1), whole.tr, Kids(p, l, i));
      ExecSim(w, z, ns[i], p + [i], l, s);
      if f.st.Running? {
        SeedShrink(w, rest, Kids(p, l, i + 1), f.tr, At(p + [i], l), whole.tr, Kids(p, l, i));
        ExecFromSim(w, z, ns, i + 1, p, l, f.scope);
        var f' := ExecFrom(z, ns, i + 1, p, l, f.scope);
        if e.st.Running? {
          SimThen(w, e, f, ExecFrom(w, ns, i + 1, p, l, e.scope), f');
        } else {
          SimStop(w, e, f, f');
        }
      }
    }
  }

  lemma {:induction false} IterateSim(w: World, z: World, n: Node, items: seq<Val>, max: nat, i: nat, p: seq<nat>,
      l: seq<nat>, s: Scope)
    requires IsLoop(n) && i <= max && (n.Loop? ==> max == |items|)
    requires Fresh(z) && Resumes(w, z) && NodeOk(n)
    requires SeedFrom(w, Iterate(z, n, items, max, i, p, l, s).tr, Iters(p, l, i))
    ensures Sim(w, Iterate(w, n, items, max, i, p, l, s), Iterate(z, n, items, max, i, p, l, s))
    decreases n, 1, max - i
  {
    hide SeedFrom, Inside, Disjoint, Sim;
    var whole := Iterate(z, n, items, max, i, p, l, s);
    if i == max {
      SimSame(w, Iterate(w, n, items, max, i, p, l, s), whole);
    } else {
      var a := Addr(p, l + [i]);
      IterRegion(p, l, i);
      IterateFits(z, n, items, max, i, p, l, s);
      assert At(p, l + [i]).Has(a);
      SeedWithin(w, whole.tr, At(p, l + [i]), Iters(p, l, i));
      var b := Before(z, n, i, p, l, s);
      BeforeAgrees(w, z, n, i, p, l, s, whole.tr);
      if !b.verdict.Yes? {
        SimSame(w, Iterate(w, n, items, max, i, p, l, s), whole);
      } else {
        IterationSim(w, z, n, items, max, i, p, l, s);
      }
    }
  }

  lemma BeforeAgrees(w: World, z: World, n: Node, i: nat, p: seq<nat>, l: seq<nat>, s: Scope, f: seq<Act>)
    requires IsLoop(n) && Fresh(z) && Resumes(w, z) && Once(f) && SeedFrom(w, f, At(p, l + [i]))
    requires forall x | x in Before(z, n, i, p, l, s).tr :: x in f
    ensures var b := Before(w, n, i, p, l, s);
            b == Before(z, n, i, p, l, s) && (forall x | x in b.tr :: x.Ctl?)
            && (b.verdict.Err? ==> Clean(Failed(b.verdict.e)))
  {
    if n.While? { DecideAgrees(w, z, Wh, n.cond, Addr(p, l + [i]), s, f, At(p, l + [i])); }
  }

  lemma AfterAgrees(w: World, z: World, n: Node, i: nat, p: seq<nat>, l: seq<nat>, s: Scope, f: seq<Act>)
    requires IsLoop(n) && Fresh(z) && Resumes(w, z) && Once(f) && SeedFrom(w, f, At(p, l + [i]))
    requires forall x | x in After(z, n, i, p, l, s).tr :: x in f
    ensures var b := After(w, n, i, p, l, s);
            b == After(z, n, i, p, l, s) && (forall x | x in b.tr :: x.Ctl?)
            && (b.verdict.Err? ==> Clean(Failed(b.verdict.e)))
  {
    if n.Retry? { DecideAgrees(w, z, Rt, n.cond, Addr(p, l + [i]), s, f, At(p, l + [i])); }
  }

  lemma IterationSeeds(w: World, z: World, n: Node, items: seq<Val>, max: nat, i: nat, p: seq<nat>, l: seq<nat>,
      s: Scope)
    requires IsLoop(n) && i < max && (n.Loop? ==> max == |items|) && Before(z, n, i, p, l, s).verdict.Yes?
    requires SeedFrom(w, Iterate(z, n, items, max, i, p, l, s).tr, Iters(p, l, i))
    ensures var t := Split(z, n, items, max, i, p, l, s);
            && SeedFrom(w, t.body.tr, Kids(p, l + [i], 0))
            && (t.after.verdict.No? ==> SeedFrom(w, t.rest.tr, Iters(p, l, i + 1)))
  {
    hide SeedFrom, Inside, Disjoint, Fits, Within, Once, Exec, ExecFrom, Iterate;
    var t := Split(z, n, items, max, i, p, l, s);
    var whole := Iterate(z, n, items, max, i, p, l, s);
    var here := t.before.tr + t.body.tr + t.after.tr;
    SplitWhole(z, n, items, max, i, p, l, s);
    assert whole.tr == here + t.rest.tr;
    IterRegion(p, l, i);
    IterationWithin(z, n, i, p, l, s, IterScope(n, items, i, s), t.body);
    if t.after.verdict.No? {
      IterateFits(z, n, items, max, i + 1, p, l, t.body.scope);
      OnceOf(t.rest.tr, Iters(p, l, i + 1));
      SeedShrink(w, t.rest.tr, Iters(p, l, i + 1), here, At(p, l + [i]), whole.tr, Iters(p, l, i));
    } else {
      NothingWithin(Iters(p, l, i + 1));
    }
    SeedShrink(w, here, At(p, l + [i]), t.rest.tr, Iters(p, l, i + 1), whole.tr, Iters(p, l, i));
    SeedBody(w, t.before.tr, t.body.tr, t.after.tr, Addr(p, l + [i]));
  }

  /** An iteration whose body runs. */
  lemma {:induction false} IterationSim(w: World, z: World, n: Node, items: seq<Val>, max: nat, i: nat, p: seq<nat>,
      l: seq<nat>, s: Scope)
    requires IsLoop(n) && i < max && (n.Loop? ==> max == |items|)
    requires Fresh(z) && Resumes(w, z) && NodeOk(n)
    requires SeedFrom(w, Iterate(z, n, items, max, i, p, l, s).tr, Iters(p, l, i))
    requires Before(w, n, i, p, l, s) == Before(z, n, i, p, l, s)
    requires Before(z, n, i, p, l, s).verdict.Yes? && forall x | x in Before(z, n, i, p, l, s).tr :: x.Ctl?
    ensures Sim(w, Iterate(w, n, items, max, i, p, l, s), Iterate(z, n, items, max, i, p, l, s))
    decreases n, 1, max - i, 0
  {
    hide SeedFrom, Sim, Fits, Once, Fresh, Resumes, Exec, ExecFrom, After, Before, WellScoped, Iterate;
    var t, u := Split(z, n, items, max, i, p, l, s), Split(w, n, items, max, i, p, l, s);
    SplitWhole(z, n, items, max, i, p, l, s);
    SplitWhole(w, n, items, max, i, p, l, s);
    IterationSeeds(w, z, n, items, max, i, p, l, s);
    ExecFromSim(w, z, n.body, 0, p, l + [i], IterScope(n, items, i, s));
    SimAfter(w, t.before.tr, u.body, t.body);
    var e1, f1 := Prefix(t.before.tr, u.body), Prefix(t.before.tr, t.body);
    SimCases(w, e1, f1);
    if t.body.st.Running? {
      AfterSim(w, z, n, items, max, i, p, l, s);
      if t.after.verdict.No? {
        IterateSim(w, z, n, items, max, i + 1, p, l, t.body.scope);
      } else {
        SimSame(w, t.rest, t.rest);
      }
      var next := if t.after.verdict.No? then Iterate(w, n, items, max, i + 1, p, l, t.body.scope) else t.rest;
      SimAfter(w, t.after.tr, next, t.rest);
      SimCases(w, Prefix(t.after.tr, next), Prefix(t.after.tr, t.rest));
      if u.body.st.Running? {
        SimThen(w, e1, f1, Prefix(t.after.tr, next), Prefix(t.after.tr, t.rest));
      } else {
        SimStop(w, e1, f1, Prefix(t.after.tr, t.rest));
        StopEarly(w, n, items, max, i, p, l, s);
      }
    } else {
      StopEarly(w, n, items, max, i, p, l, s);
      StopEarly(z, n, items, max, i, p, l, s);
    }
  }

  lemma AfterSim(w: World, z: World, n: Node, items: seq<Val>, max: nat, i: nat, p: seq<nat>, l: seq<nat>, s: Scope)
    requires IsLoop(n) && i < max && (n.Loop? ==> max == |items|) && Before(z, n, i, p, l, s).verdict.Yes?
    requires Fresh(z) && Resumes(w, z)
    requires SeedFrom(w, Iterate(z, n, items, max, i, p, l, s).tr, Iters(p, l, i))
    requires Split(z, n, items, max, i, p, l, s).body.st.Running?
    ensures var t := Split(z, n, items, max, i, p, l, s);
            && After(w, n, i, p, l, t.body.scope) == t.after && (forall x | x in t.after.tr :: x.Ctl?)
            && (t.after.verdict.Err? ==> Clean(Failed(t.after.verdict.e)))
  {
    hide SeedFrom, Inside, Disjoint, Fits, Fresh, Exec, ExecFrom, Iterate;
    var t := Split(z, n, items, max, i, p, l, s);
    var whole := Iterate(z, n, items, max, i, p, l, s);
    SplitWhole(z, n, items, max, i, p, l, s);
    IterateFits(z, n, items, max, i, p, l, s);
    OnceOf(whole.tr, Iters(p, l, i));
    IterRegion(p, l, i);
    SeedWithin(w, whole.tr, At(p, l + [i]), Iters(p, l, i));
    AfterAgrees(w, z, n, i, p, l, t.body.scope, whole.tr);
  }

  lemma NothingWithin(r: Region)
    ensures Within([], r)
  {
  }

  /** The operations of iteration i lie at (p, l + [i]), its control record exactly there. */
  lemma IterationWithin(z: World, n: Node, i: nat, p: seq<nat>, l: seq<nat>, s: Scope, s': Scope, f: Eff)
    requires IsLoop(n) && f == ExecFrom(z, n.body, 0, p, l + [i], s')
    ensures var b := Before(z, n, i, p, l, s);
            var c := if f.st.Running? then After(z, n, i, p, l, f.scope) else Check([], Yes);
            && Within(b.tr + f.tr + c.tr, At(p, l + [i]))
            && forall x | x in b.tr + c.tr :: AddrOf(x) == Addr(p, l + [i])
  {
    hide ExecFrom, EvalExpr;
    ExecFromFits(z, n.body, 0, p, l + [i], s');
    ChildRegion(p, l + [i], 0);
  }

  lemma SimCases(w: World, e: Eff, f: Eff)
    requires Sim(w, e, f)
    ensures e.st.Running? ==> f.st.Running? && e.scope == f.scope
    ensures f.st.Running? ==> e.st.Running? || e.st.Suspended?
    ensures Clean(f.st)
  {
  }

  /** Seeds of the body of an iteration, past its single control record. */
  lemma SeedBody(w: World, b: seq<Act>, f: seq<Act>, c: seq<Act>, a: Addr)
    requires SeedFrom(w, b + f + c, At(a.path, a.loop))
    requires forall x | x in b + c :: AddrOf(x) == a
    ensures SeedFrom(w, f, Kids(a.path, a.loop, 0))
  {
    ChildRegion(a.path, a.loop, 0);
    forall k | k in w.memo && Kids(a.path, a.loop, 0).Has(k.at) ensures Put(k, w.memo[k]) in f {
      var x := Put(k, w.memo[k]);
      assert x in b + f + c && AddrOf(x) == k.at && x !in b + c;
    }
    forall k | k in w.ctl && Kids(a.path, a.loop, 0).Has(k.at) ensures Ctl(k, w.ctl[k], true) in f {
      var x := Ctl(k, w.ctl[k], true);
      assert x in b + f + c && AddrOf(x) == k.at && x !in b + c;
    }
  }

  // ----- concurrent constructs

  ghost predicate ParSim(w: World, e: Par, f: Par) {
    && Sound(w, e.tr, f.tr)
    && (e.err.Some? ==> f.err.Some?)
    && (e.err.Some? ==> Clean(Failed(e.err.value)))
    && (f.err.Some? ==> Clean(Failed(f.err.value)))
    && (e.susp || e.err.Some? || (f.err.None? && !f.susp && e.pub == f.pub && Complete(w, e.tr, f.tr)))
  }

  lemma JoinSim(w: World, z: World, a: Addr, s: Scope, e: Par, f: Par)
    requires Fresh(z) && ParSim(w, e, f)
    ensures Sim(w, Join(w, a, s, e), Join(z, a, s, f))
  {
  }

  lemma SoundShuffle(w: World, e: seq<Act>, e': seq<Act>, b: seq<bool>, f: seq<Act>, f': seq<Act>, d: seq<bool>)
    requires Sound(w, e, f) && Sound(w, e', f')
    ensures Sound(w, Shuffle(e, e', b), Shuffle(f, f', d))
    ensures Complete(w, e, f) && Complete(w, e', f') ==> Complete(w, Shuffle(e, e', b), Shuffle(f, f', d))
  {
    ShuffleMembers(e, e', b);
    ShuffleMembers(f, f', d);
  }

  lemma ThreadJoins(w: World, z: World, n: Node, items: seq<Val>, i: nat, p: seq<nat>, l: seq<nat>, s: Scope, e: Eff,
      f: Eff)
    requires IsParallel(n) && i < Width(n, items)
    requires var a := ThreadAddr(n, i, p, l);
             && e == ExecFrom(w, ThreadNodes(n, i), 0, a.path, a.loop, ThreadScope(n, items, i, s))
             && f == ExecFrom(z, ThreadNodes(n, i), 0, a.path, a.loop, ThreadScope(n, items, i, s))
    requires Sim(w, e, f) && ParSim(w, Threads(w, n, items, i + 1, p, l, s), Threads(z, n, items, i + 1, p, l, s))
    ensures ParSim(w, Threads(w, n, items, i, p, l, s), Threads(z, n, items, i, p, l, s))
  {
    hide Sound, Complete;
    var a := ThreadAddr(n, i, p, l);
    var e', f' := Threads(w, n, items, i + 1, p, l, s), Threads(z, n, items, i + 1, p, l, s);
    SoundShuffle(w, e.tr, e'.tr, w.merge(a), f.tr, f'.tr, z.merge(a));
  }

  lemma ThreadSeeds(w: World, z: World, n: Node, items: seq<Val>, i: nat, p: seq<nat>, l: seq<nat>, s: Scope)
    requires IsParallel(n) && i < Width(n, items)
    requires SeedFrom(w, Threads(z, n, items, i, p, l, s).tr, ThreadsRegion(n, i, p, l))
    ensures var a := ThreadAddr(n, i, p, l);
            SeedFrom(w, ExecFrom(z, ThreadNodes(n, i), 0, a.path, a.loop, ThreadScope(n, items, i, s)).tr,
                Kids(a.path, a.loop, 0))
    ensures SeedFrom(w, Threads(z, n, items, i + 1, p, l, s).tr, ThreadsRegion(n, i + 1, p, l))
  {
    hide SeedFrom, Inside, Disjoint, Fits, Within, Once, Exec, ExecFrom;
    var a := ThreadAddr(n, i, p, l);
    var f := ExecFrom(z, ThreadNodes(n, i), 0, a.path, a.loop, ThreadScope(n, items, i, s));
    var f' := Threads(z, n, items, i + 1, p, l, s);
    var whole := Threads(z, n, items, i, p, l, s);
    ShuffleMembers(f.tr, f'.tr, z.merge(a));
    ExecFromFits(z, ThreadNodes(n, i), 0, a.path, a.loop, ThreadScope(n, items, i, s));
    ThreadsFit(z, n, items, i + 1, p, l, s);
    OnceOf(f.tr, Kids(a.path, a.loop, 0));
    OnceOf(f'.tr, ThreadsRegion(n, i + 1, p, l));
    ThreadRegion(n, i, p, l);
    SeedShrink(w, f.tr, Kids(a.path, a.loop, 0), f'.tr, ThreadsRegion(n, i + 1, p, l), whole.tr,
        ThreadsRegion(n, i, p, l));
    SeedShrink(w, f'.tr, ThreadsRegion(n, i + 1, p, l), f.tr, Kids(a.path, a.loop, 0), whole.tr,
        ThreadsRegion(n, i, p, l));
  }

  lemma NoThreads(w: World)
    ensures ParSim(w, Par(None, false, map[], []), Par(None, false, map[], []))
  {
  }

  lemma {:induction false} ThreadsSim(w: World, z: World, n: Node, items: seq<Val>, i: nat, p: seq<nat>, l: seq<nat>,
      s: Scope)
    requires IsParallel(n) && i <= Width(n, items) && Fresh(z) && Resumes(w, z) && NodeOk(n)
    requires SeedFrom(w, Threads(z, n, items, i, p, l, s).tr, ThreadsRegion(n, i, p, l))
    ensures ParSim(w, Threads(w, n, items, i, p, l, s), Threads(z, n, items, i, p, l, s))
    decreases n, 1, Width(n, items) - i
  {
    hide SeedFrom, Sim, ParSim, Fresh, Resumes, Exec, ExecFrom, WellScoped;
    if i == Width(n, items) {
      NoThreads(w);
    } else {
      var a := ThreadAddr(n, i, p, l);
      var ns, s' := ThreadNodes(n, i), ThreadScope(n, items, i, s);
      ThreadSeeds(w, z, n, items, i, p, l, s);
      ExecFromSim(w, z, ns, 0, a.path, a.loop, s');
      ThreadsSim(w, z, n, items, i + 1, p, l, s);
      ThreadJoins(w, z, n, items, i, p, l, s, ExecFrom(w, ns, 0, a.path, a.loop, s'),
          ExecFrom(z, ns, 0, a.path, a.loop, s'));
    }
  }

  // ----- needs-DAGs

  /** The two sides agree on the enclosing names and on what the resumed side completed. */
  ghost predicate Aligned(gs: seq<GraphNode>, s: Scope, t: Scope, done: set<string>, all: set<string>) {
    && done <= all
    && NeedsClosed(gs, done)
    && (forall h | h !in IdsOf(gs) || h in done :: AgreeOn(s, t, h))
  }

  ghost predicate StepsSim(w: World, e: GraphRun, f: GraphRun, same: bool) {
    && Sound(w, e.tr, f.tr)
    && !e.cut && !f.cut
    && (e.err.Some? ==> f.err.Some?)
    && (e.err.Some? ==> Clean(Failed(e.err.value)))
    && (f.err.Some? ==> Clean(Failed(f.err.value)))
    && (same ==> e.susp || e.err.Some? ||
                 (f.err.None? && !f.susp && e.scope == f.scope && e.done == f.done && Complete(w, e.tr, f.tr)))
  }

  /** A step that runs on both sides reads the same arguments. */
  lemma StepArgsAgree(gs: seq<GraphNode>, i: nat, rn: Render, s: Scope, t: Scope, done: set<string>, all: set<string>)
    requires i < |gs| && WellScoped(gs) && Aligned(gs, s, t, done, all)
    requires forall d | d in gs[i].needs :: d in done
    ensures EvalArgs(rn, s, gs[i].run.args) == EvalArgs(rn, t, gs[i].run.args)
  {
    var args := gs[i].run.args;
    forall k, h | k in args && Reads(args[k], h) ensures AgreeOn(s, t, h) {
      if h in IdsOf(gs) {
        assert TransitiveNeed(gs, i, h);
      }
    }
    EvalArgsAgree(rn, s, t, args);
  }

  ghost predicate SeedSteps(w: World, f: seq<Act>, order: seq<nat>, p: seq<nat>, l: seq<nat>) {
    forall j | 0 <= j < |order| :: SeedFrom(w, f, At(p + [order[j]], l))
  }

  ghost predicate InOrder(gs: seq<GraphNode>, order: seq<nat>, all: set<string>) {
    && Distinct(order)
    && (forall k | 0 <= k < |order| :: order[k] < |gs|)
    && (forall k | 0 <= k < |order| :: gs[order[k]].id !in all)
  }

  lemma SeedSplit(w: World, f: seq<Act>, e: seq<Act>, r: seq<Act>, order: seq<nat>, p: seq<nat>, l: seq<nat>)
    requires order != [] && Distinct(order) && SeedSteps(w, f, order, p, l)
    requires forall x | x in f :: x in e || x in r
    requires forall x | x in e :: AddrOf(x) == Addr(p + [order[0]], l)
    requires forall x | x in r :: exists k :: 0 <= k < |order[1..]| && AddrOf(x) == Addr(p + [order[1..][k]], l)
    ensures SeedFrom(w, e, At(p + [order[0]], l))
    ensures SeedSteps(w, r, order[1..], p, l)
  {
    forall x, j | x in e && 0 < j < |order| ensures !At(p + [order[j]], l).Has(AddrOf(x)) {
      assert (p + [order[0]])[|p|] != (p + [order[j]])[|p|];
    }
    forall x | x in r ensures !At(p + [order[0]], l).Has(AddrOf(x)) {
      var k :| 0 <= k < |order[1..]| && AddrOf(x) == Addr(p + [order[1..][k]], l);
      assert order[1..][k] == order[k + 1];
      assert (p + [order[0]])[|p|] != (p + [order[k + 1]])[|p|];
    }
    SeedOnly(w, f, e, r, At(p + [order[0]], l));
    forall j | 0 <= j < |order[1..]| ensures SeedFrom(w, r, At(p + [order[1..][j]], l)) {
      assert order[1..][j] == order[j + 1];
      SeedOnly(w, f, r, e, At(p + [order[j + 1]], l));
    }
  }

  lemma SeedOnly(w: World, f: seq<Act>, part: seq<Act>, rest: seq<Act>, r: Region)
    requires SeedFrom(w, f, r) && (forall x | x in f :: x in part || x in rest)
    requires forall x | x in rest :: !r.Has(AddrOf(x))
    ensures SeedFrom(w, part, r)
  {
    forall k | k in w.memo && r.Has(k.at) ensures Put(k, w.memo[k]) in part {
      assert AddrOf(Put(k, w.memo[k])) == k.at;
    }
    forall k | k in w.ctl && r.Has(k.at) ensures Ctl(k, w.ctl[k], true) in part {
      assert AddrOf(Ctl(k, w.ctl[k], true)) == k.at;
    }
  }

  /** Completing step i on the fresh side only, or on both sides, keeps them aligned. */
  lemma StaysAligned(gs: seq<GraphNode>, i: nat, s: Scope, t: Scope, done: set<string>, all: set<string>, e: Eff,
      f: Eff)
    requires i < |gs| && WellScoped(gs) && Aligned(gs, s, t, done, all) && gs[i].id !in all
    ensures Aligned(gs, s, StepScope(gs[i].id, t, f), done, StepDone(gs[i].id, all, f))
    ensures e.st.Running? && f.st.Running? && (forall d | d in gs[i].needs :: d in done)
            && (gs[i].id in e.scope && gs[i].id in f.scope && e.scope[gs[i].id] == f.scope[gs[i].id])
            ==> Aligned(gs, StepScope(gs[i].id, s, e), StepScope(gs[i].id, t, f), StepDone(gs[i].id, done, e),
                StepDone(gs[i].id, all, f))
  {
    assert gs[i].id in IdsOf(gs);
    if forall d | d in gs[i].needs :: d in done {
      assert NeedsClosed(gs, done + {gs[i].id});
    }
  }

  lemma {:induction false} StepsSimulate(w: World, z: World, gs: seq<GraphNode>, order: seq<nat>, p: seq<nat>,
      l: seq<nat>,
                                         s: Scope, t: Scope, done: set<string>, all: set<string>)
    requires Fresh(z) && Resumes(w, z) && WellScoped(gs) && InOrder(gs, order, all) && Aligned(gs, s, t, done, all)
    requires SeedSteps(w, Steps(z, gs, order, p, l, t, all).tr, order, p, l)
    ensures StepsSim(w, Steps(w, gs, order, p, l, s, done), Steps(z, gs, order, p, l, t, all), s == t && done == all)
    decreases |order|
  {
    hide StepsSim, SeedSteps, SeedFrom, WellScoped, Aligned, Once, Within;
    if order == [] {
      NoSteps(w, s, t, done, all);
    } else {
      var i := order[0];
      assert InOrder(gs, order[1..], all);
      if forall d | d in gs[i].needs :: d in all {
        StepSimulate(w, z, gs, order, p, l, s, t, done, all);
      } else {
        AlignedDone(gs, s, t, done, all);
        StepSkipped(w, z, gs, order, p, l, t, all);
        StepsSimulate(w, z, gs, order[1..], p, l, s, t, done, all);
      }
    }
  }

  lemma NoSteps(w: World, s: Scope, t: Scope, done: set<string>, all: set<string>)
    ensures StepsSim(w, GraphRun(None, false, false, s, done, []), GraphRun(None, false, false, t, all, []), s == t
                     && done == all)
  {
  }

  lemma AlignedDone(gs: seq<GraphNode>, s: Scope, t: Scope, done: set<string>, all: set<string>)
    requires Aligned(gs, s, t, done, all)
    ensures done <= all
  {
  }

  lemma StepSkipped(w: World, z: World, gs: seq<GraphNode>, order: seq<nat>, p: seq<nat>, l: seq<nat>, t: Scope,
      all: set<string>)
    requires order != [] && InOrder(gs, order, all) && !(forall d | d in gs[order[0]].needs :: d in all)
    requires SeedSteps(w, Steps(z, gs, order, p, l, t, all).tr, order, p, l)
    ensures SeedSteps(w, Steps(z, gs, order[1..], p, l, t, all).tr, order[1..], p, l)
  {
    assert forall j | 0 <= j < |order[1..]| :: order[1..][j] == order[j + 1];
  }

  /** What the fresh side does with a step whose needs completed. */
  lemma FreshStep(w: World, z: World, gs: seq<GraphNode>, order: seq<nat>, p: seq<nat>, l: seq<nat>, t: Scope,
      all: set<string>)
    requires Fresh(z) && order != [] && InOrder(gs, order, all) && (forall d | d in gs[order[0]].needs :: d in all)
    requires SeedSteps(w, Steps(z, gs, order, p, l, t, all).tr, order, p, l)
    ensures var a := Addr(p + [order[0]], l);
            var f := ExecCall(z, gs[order[0]].run, a, t);
            var r := Steps(z, gs, order[1..], p, l, StepScope(gs[order[0]].id, t, f),
                StepDone(gs[order[0]].id, all, f));
            && Steps(z, gs, order, p, l, t, all) == AddStep(f, r, z.merge(a))
            && SeedFrom(w, f.tr, At(p + [order[0]], l))
            && SeedSteps(w, r.tr, order[1..], p, l)
  {
    hide SeedFrom, SeedSteps, Once, Within;
    var i := order[0];
    var a := Addr(p + [i], l);
    var f := ExecCall(z, gs[i].run, a, t);
    CallFits(z, gs[i].run, a, t);
    assert Distinct(order[1..]);
    var r := Steps(z, gs, order[1..], p, l, StepScope(gs[i].id, t, f), StepDone(gs[i].id, all, f));
    StepsFit(z, gs, order[1..], p, l, StepScope(gs[i].id, t, f), StepDone(gs[i].id, all, f));
    ShuffleMembers(f.tr, r.tr, z.merge(a));
    SeedSplit(w, Steps(z, gs, order, p, l, t, all).tr, f.tr, r.tr, order, p, l);
  }

  lemma {:induction false} StepSimulate(w: World, z: World, gs: seq<GraphNode>, order: seq<nat>, p: seq<nat>,
      l: seq<nat>,
                                        s: Scope, t: Scope, done: set<string>, all: set<string>)
    requires Fresh(z) && Resumes(w, z) && WellScoped(gs) && InOrder(gs, order, all) && Aligned(gs, s, t, done, all)
    requires SeedSteps(w, Steps(z, gs, order, p, l, t, all).tr, order, p, l)
    requires order != [] && forall d | d in gs[order[0]].needs :: d in all
    ensures StepsSim(w, Steps(w, gs, order, p, l, s, done), Steps(z, gs, order, p, l, t, all), s == t && done == all)
    decreases |order|, 0
  {
    hide StepsSim, SeedSteps, SeedFrom, WellScoped, Aligned, Once, Within, ExecCall;
    var i, id := order[0], gs[order[0]].id;
    var a := Addr(p + [i], l);
    FreshStep(w, z, gs, order, p, l, t, all);
    var f := ExecCall(z, gs[i].run, a, t);
    var t', all' := StepScope(id, t, f), StepDone(id, all, f);
    StillInOrder(gs, order, all);
    var runs := (forall d | d in gs[i].needs :: d in done) && !w.halt(a);
    var e := ExecCall(w, gs[i].run, a, s);
    StaysAligned(gs, i, s, t, done, all, e, f);
    CallNeverReturns(w, gs[i].run, a, s);
    CallClean(z, gs[i].run, a, t);
    assert done <= all by { AlignedDone(gs, s, t, done, all); }
    if runs {
      StepArgsAgree(gs, i, w.render, s, t, done, all);
      assert w.render == z.render;
      CallSim(w, z, gs[i].run, a, s, t);
      BindsOwnId(gs, i);
    }
    var s', done' := if runs then StepScope(id, s, e) else s, if runs then StepDone(id, done, e) else done;
    StepsSimulate(w, z, gs, order[1..], p, l, s', t', done', all');
    var re, rf := Steps(w, gs, order[1..], p, l, s', done'), Steps(z, gs, order[1..], p, l, t', all');
    if runs {
      StepBoth(w, e, f, re, rf, w.merge(a), z.merge(a), s' == t' && done' == all', s == t && done == all);
    } else {
      var halted := forall d | d in gs[i].needs :: d in done;
      StepFreshOnly(w, f, re, rf, z.merge(a), halted, s' == t' && done' == all', s == t && done == all);
    }
  }

  lemma StepBoth(w: World, e: Eff, f: Eff, re: GraphRun, rf: GraphRun, b: seq<bool>, d: seq<bool>, same': bool,
      same: bool)
    requires Sound(w, e.tr, f.tr) && Clean(e.st) && Clean(f.st) && !e.st.Returned?
    requires e.st.Suspended? || (e.st.Failed? && f.st.Failed?) || (e.st == f.st && Complete(w, e.tr, f.tr))
    requires StepsSim(w, re, rf, same') && (same && e.st.Running? ==> same')
    ensures StepsSim(w, AddStep(e, re, b), AddStep(f, rf, d), same)
  {
    hide Sound, Complete;
    SoundShuffle(w, e.tr, re.tr, b, f.tr, rf.tr, d);
  }

  lemma StepFreshOnly(w: World, f: Eff, re: GraphRun, rf: GraphRun, d: seq<bool>, halted: bool, same': bool, same: bool)
    requires Clean(f.st) && StepsSim(w, re, rf, same') && (same ==> halted)
    ensures StepsSim(w, if halted then re.(susp := true) else re, AddStep(f, rf, d), same)
  {
    ShuffleMembers(f.tr, rf.tr, d);
  }

  /** A fresh leaf fails only as its invoker does, never by cancellation or divergence. */
  lemma CallClean(z: World, call: Call, a: Addr, t: Scope)
    requires Fresh(z)
    ensures Clean(ExecCall(z, call, a, t).st)
  {
  }

  lemma CallNeverReturns(w: World, call: Call, a: Addr, s: Scope)
    ensures !ExecCall(w, call, a, s).st.Returned?
  {
  }

  lemma StillInOrder(gs: seq<GraphNode>, order: seq<nat>, all: set<string>)
    requires WellScoped(gs) && InOrder(gs, order, all) && order != []
    ensures InOrder(gs, order[1..], all) && InOrder(gs, order[1..], all + {gs[order[0]].id})
  {
    forall k | 0 <= k < |order[1..]| ensures gs[order[1..][k]].id != gs[order[0]].id {
      assert order[1..][k] == order[k + 1];
    }
  }

  lemma BindsOwnId(gs: seq<GraphNode>, i: nat)
    requires WellScoped(gs) && i < |gs|
    ensures gs[i].run.bind == gs[i].id && gs[i].id != ""
  {
  }

  lemma GraphSeeds(w: World, f: seq<Act>, order: seq<nat>, p: seq<nat>, l: seq<nat>)
    requires SeedFrom(w, f, At(p, l))
    ensures SeedSteps(w, f, order, p, l)
  {
    forall j | 0 <= j < |order| ensures SeedFrom(w, f, At(p + [order[j]], l)) {
      ChildRegion(p, l, order[j]);
      SeedWithin(w, f, At(p + [order[j]], l), At(p, l));
    }
  }

  lemma GraphSim(w: World, z: World, gs: seq<GraphNode>, p: seq<nat>, l: seq<nat>, s: Scope)
    requires Fresh(z) && Resumes(w, z) && WellScoped(gs)
    requires SeedFrom(w, ExecGraph(z, gs, p, l, s).tr, At(p, l))
    ensures Sim(w, ExecGraph(w, gs, p, l, s), ExecGraph(z, gs, p, l, s))
  {
    hide SeedFrom, SeedSteps, WellScoped, Sound, Complete, Steps, Fresh, Resumes;
    var order := Topo(gs, {});
    GraphSeeds(w, ExecGraph(z, gs, p, l, s).tr, order, p, l);
    assert Aligned(gs, s, s, {}, {});
    StepsSimulate(w, z, gs, order, p, l, s, s, {}, {});
  }

  // ----- whole runs

  /** The seed is part of what the uninterrupted run of the program records. */
  ghost predicate Seeded(w: World, z: World, prog: Program, input: Val) {
    SeedFrom(w, Run(z, prog, input).tr, At([], []))
  }

  /** Replay transparency, for every program with well-scoped DAGs, input, invoker, seed,
      pause pattern and interleaving. */
  lemma ReplayTransparency(w: World, z: World, prog: Program, input: Val)
    requires Fresh(z) && Resumes(w, z) && NodesOk(prog.body) && Seeded(w, z, prog, input)
    ensures var e, f := Run(w, prog, input), Run(z, prog, input);
            && Sound(w, e.tr, f.tr)
            && e.st != Failed(Diverged)
            && (f.st.Failed? ==> e.st.Failed? || e.st.Suspended?)
            && (!f.st.Failed? && !e.st.Suspended? ==> e.st == f.st && e.scope == f.scope && Complete(w, e.tr, f.tr))
  {
    SeedWithin(w, Run(z, prog, input).tr, Kids([], [], 0), At([], []));
    ExecFromSim(w, z, prog.body, 0, [], [], ParamScope(prog.params, input));
  }
}
