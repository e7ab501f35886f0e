/** Concurrency: Fork branches, parallel-loop iterations and graph steps share one session.
    A run is legal when every look-up of its interleaved trace was answered by the live maps.
    Because no two branches touch one address, every legal interleaving sees exactly the
    seed, and all of them end alike. */
module Interleaving {
  import opened Values
  import opened ExecIR
  import opened Eval
  import opened GraphOrder
  import opened Interp
  import opened Addressing
  import opened Session

  function Lookup(m: Memo, site: Site): Option<Val> {
    if site in m then Some(m[site]) else None
  }

  /** The operation's look-up is answered by the initial maps m and c. */
  ghost predicate SeesSeed(x: Act, m: Memo, c: Control) {
    match x
    case Get(site, hit) => hit == Lookup(m, site)
    case Ctl(k, val, ok) => ok == !(k in c && c[k] != val)
    case _ => true
  }

  ghost predicate AllSeeSeed(tr: seq<Act>, m: Memo, c: Control) {
    forall x | x in tr :: SeesSeed(x, m, c)
  }

  lemma Sees(a: seq<Act>, b: seq<Act>, m: Memo, c: Control)
    ensures AllSeeSeed(a + b, m, c) <==> AllSeeSeed(a, m, c) && AllSeeSeed(b, m, c)
  {
    if AllSeeSeed(a + b, m, c) {
      forall x | x in a ensures SeesSeed(x, m, c) { assert x in a + b; }
      forall x | x in b ensures SeesSeed(x, m, c) { assert x in a + b; }
    }
  }

  lemma SeesShuffle(x: seq<Act>, y: seq<Act>, bits: seq<bool>, m: Memo, c: Control)
    ensures AllSeeSeed(Shuffle(x, y, bits), m, c) <==> AllSeeSeed(x, m, c) && AllSeeSeed(y, m, c)
  {
    ShuffleMembers(x, y, bits);
    if AllSeeSeed(Shuffle(x, y, bits), m, c) {
      forall a | a in x || a in y ensures SeesSeed(a, m, c) { assert a in Shuffle(x, y, bits); }
    }
  }

  /** For a trace without repeated addresses, "answered by the live maps" and "answered by
      the seed" are the same thing, whatever the order of the operations. */
  lemma {:induction false} LiveIffSeesSeed(m: Memo, c: Control, tr: seq<Act>)
    requires Once(tr)
    ensures Live(m, c, tr) <==> AllSeeSeed(tr, m, c)
    decreases |tr|
  {
    if tr != [] {
      var x, init := tr[|tr| - 1], tr[..|tr| - 1];
      assert tr == init + [x];
      OnceSnoc(init, x);
      LiveIffSeesSeed(m, c, init);
      Sees(init, [x], m, c);
      assert AllSeeSeed([x], m, c) <==> SeesSeed(x, m, c) by { assert x in [x]; }
      if x.Get? {
        MemoAfterIs(m, init, x.site);
        forall v ensures Put(x.site, v) !in init { assert Clash(Put(x.site, v), x); }
      } else if x.Ctl? {
        ControlAfterIs(c, init, x.key);
        forall v ensures Ctl(x.key, v, true) !in init { assert Clash(Ctl(x.key, v, true), x); }
      }
    }
  }

  lemma CallSees(v: World, call: Call, a: Addr, s: Scope)
    ensures AllSeeSeed(ExecCall(v, call, a, s).tr, v.memo, v.ctl)
  {
    var tr := ExecCall(v, call, a, s).tr;
    CallShape(v, call, a, s);
    assert SeesSeed(tr[0], v.memo, v.ctl);
  }

  lemma DecideSees(v: World, tag: Tag, cond: Expr, a: Addr, s: Scope)
    ensures AllSeeSeed(Decide(v, tag, cond, a, s).tr, v.memo, v.ctl)
  {
  }

  lemma NothingSees(v: World)
    ensures AllSeeSeed([], v.memo, v.ctl)
  {
  }

  lemma {:induction false} ExecSees(v: World, n: Node, p: seq<nat>, l: seq<nat>, s: Scope)
    ensures AllSeeSeed(Exec(v, n, p, l, s).tr, v.memo, v.ctl)
    decreases n, 2, 0
  {
    hide AllSeeSeed, ExecFrom, Iterate, Threads, Steps, Decide, Record, ExecCall, Sorted, Topo, EvalCollection,
        EvalValue;
    NothingSees(v);
    match n
    case Invoke(call) => CallSees(v, call, Addr(p, l), s);
    case Let(_, _) =>
    case Return(_) =>
    case Branch(cond, thn, els) =>
      DecideSees(v, Br, cond, Addr(p, l), s);
      ExecFromSees(v, thn, 0, p + [0], l, s);
      ExecFromSees(v, els, 0, p + [1], l, s);
      Sees(Decide(v, Br, cond, Addr(p, l), s).tr, ExecFrom(v, thn, 0, p + [0], l, s).tr, v.memo, v.ctl);
      Sees(Decide(v, Br, cond, Addr(p, l), s).tr, ExecFrom(v, els, 0, p + [1], l, s).tr, v.memo, v.ctl);
    case Fork(_) => ThreadsSees(v, n, [], 0, p, l, s);
    case Loop(_, coll, _, par) =>
      var got := EvalCollection(v.render, s, coll);
      if got.Some? && |got.value| <= v.Cap() {
        var c := Record(v, CtlKey(Lp, Addr(p, l)), |got.value|);
        RecordSees(v, CtlKey(Lp, Addr(p, l)), |got.value|);
        if par {
          ThreadsSees(v, n, got.value, 0, p, l, s);
          Sees(c.tr, Threads(v, n, got.value, 0, p, l, s).tr, v.memo, v.ctl);
        } else {
          IterateSees(v, n, got.value, |got.value|, 0, p, l, s);
          Sees(c.tr, Iterate(v, n, got.value, |got.value|, 0, p, l, s).tr, v.memo, v.ctl);
        }
      }
    case While(_, limit, _) => IterateSees(v, n, [], v.Bound(limit), 0, p, l, s);
    case Retry(_, limit, _) => IterateSees(v, n, [], v.Bound(limit), 0, p, l, s);
    case Graph(nodes) => StepsSees(v, Sorted(nodes), Topo(Sorted(nodes), {}), p, l, s, {});
  }

  lemma RecordSees(v: World, k: CtlKey, val: int)
    ensures AllSeeSeed(Record(v, k, val).tr, v.memo, v.ctl)
  {
  }

  lemma {:induction false} ExecFromSees(v: World, ns: seq<Node>, i: nat, p: seq<nat>, l: seq<nat>, s: Scope)
    requires i <= |ns|
    ensures AllSeeSeed(ExecFrom(v, ns, i, p, l, s).tr, v.memo, v.ctl)
    decreases ns, 0, |ns| - i
  {
    if i < |ns| {
      ExecSees(v, ns[i], p + [i], l, s);
      ExecFromSees(v, ns, i + 1, p, l, Exec(v, ns[i], p + [i], l, s).scope);
    }
  }

  lemma {:induction false} IterateSees(v: World, n: Node, items: seq<Val>, max: nat, i: nat, p: seq<nat>, l: seq<nat>,
      s: Scope)
    requires IsLoop(n) && i <= max && (n.Loop? ==> max == |items|)
    ensures AllSeeSeed(Iterate(v, n, items, max, i, p, l, s).tr, v.memo, v.ctl)
    decreases n, 1, max - i
  {
    hide AllSeeSeed, ExecFrom, Decide;
    NothingSees(v);
    if i < max {
      var f := ExecFrom(v, n.body, 0, p, l + [i], IterScope(n, items, i, s));
      var b, c := Before(v, n, i, p, l, s).tr, After(v, n, i, p, l, f.scope).tr;
      if n.While? { DecideSees(v, Wh, n.cond, Addr(p, l + [i]), s); }
      if n.Retry? { DecideSees(v, Rt, n.cond, Addr(p, l + [i]), f.scope); }
      ExecFromSees(v, n.body, 0, p, l + [i], IterScope(n, items, i, s));
      IterateSees(v, n, items, max, i + 1, p, l, f.scope);
      Sees(b, f.tr, v.memo, v.ctl);
      Sees(b + f.tr, c, v.memo, v.ctl);
      Sees(b + f.tr + c, Iterate(v, n, items, max, i + 1, p, l, f.scope).tr, v.memo, v.ctl);
    }
  }

  lemma {:induction false} ThreadsSees(v: World, n: Node, items: seq<Val>, i: nat, p: seq<nat>, l: seq<nat>, s: Scope)
    requires IsParallel(n) && i <= Width(n, items)
    ensures AllSeeSeed(Threads(v, n, items, i, p, l, s).tr, v.memo, v.ctl)
    decreases n, 1, Width(n, items) - i
  {
    if i < Width(n, items) {
      var a := ThreadAddr(n, i, p, l);
      var e := ExecFrom(v, ThreadNodes(n, i), 0, a.path, a.loop, ThreadScope(n, items, i, s));
      ExecFromSees(v, ThreadNodes(n, i), 0, a.path, a.loop, ThreadScope(n, items, i, s));
      ThreadsSees(v, n, items, i + 1, p, l, s);
      ShuffleMembers(e.tr, Threads(v, n, items, i + 1, p, l, s).tr, v.merge(a));
    }
  }

  lemma {:induction false} StepsSees(v: World, gs: seq<GraphNode>, order: seq<nat>, p: seq<nat>, l: seq<nat>, s: Scope,
      done: set<string>)
    requires forall k | 0 <= k < |order| :: order[k] < |gs|
    ensures AllSeeSeed(Steps(v, gs, order, p, l, s, done).tr, v.memo, v.ctl)
    decreases |order|
  {
    hide AllSeeSeed, ExecCall;
    NothingSees(v);
    if order != [] {
      var i := order[0];
      var a := Addr(p + [i], l);
      var e := ExecCall(v, gs[i].run, a, s);
      var s', done' := StepScope(gs[i].id, s, e), StepDone(gs[i].id, done, e);
      CallSees(v, gs[i].run, a, s);
      StepsSees(v, gs, order[1..], p, l, s, done);
      StepsSees(v, gs, order[1..], p, l, s', done');
      SeesShuffle(e.tr, Steps(v, gs, order[1..], p, l, s', done').tr, v.merge(a), v.memo, v.ctl);
    }
  }

  /** v runs the same program against the session (m, c) with no timing-dependent pause. */
  ghost predicate Twin(w: World, v: World) {
    && w.maxLoop == v.maxLoop && w.render == v.render && w.oracle == v.oracle
    && (forall a :: !v.halt(a))
    && (forall c, a, x :: v.oracle(c, a, x) != Fail(Cancelled))
  }

  ghost predicate Same(e: Eff, f: Eff) {
    e.scope == f.scope && e.st == f.st && multiset(e.tr) == multiset(f.tr)
  }

  ghost predicate Agree(e: Eff, f: Eff) {
    e.st.Suspended? || (e.st.Failed? && e.st.e != Cancelled) || Same(e, f)
  }

  lemma SelfAgrees(e: Eff)
    ensures Agree(e, e)
  {
  }

  lemma AgreeAfter(c: seq<Act>, e: Eff, f: Eff)
    requires Agree(e, f)
    ensures Agree(Prefix(c, e), Prefix(c, f))
  {
  }

  lemma JoinAgrees(w: World, v: World, a: Addr, s: Scope, e: Par, f: Par)
    requires Twin(w, v) && ParAgree(e, f)
    ensures Agree(Join(w, a, s, e), Join(v, a, s, f))
  {
  }

  lemma CallSame(w: World, v: World, call: Call, a: Addr, s: Scope)
    requires Twin(w, v) && AllSeeSeed(ExecCall(w, call, a, s).tr, v.memo, v.ctl)
    ensures ExecCall(w, call, a, s) == ExecCall(v, call, a, s)
    ensures ExecCall(w, call, a, s).st != Failed(Cancelled)
  {
    var site := Site(call.bind, a);
    var tr := ExecCall(w, call, a, s).tr;
    assert tr[0] == Get(site, Lookup(w.memo, site)) by { CallShape(w, call, a, s); }
    assert tr[0] in tr;
  }

  lemma RecordSame(w: World, v: World, k: CtlKey, val: int)
    requires AllSeeSeed(Record(w, k, val).tr, v.memo, v.ctl)
    ensures Record(w, k, val) == Record(v, k, val)
  {
    assert Record(w, k, val).tr[0] in Record(w, k, val).tr;
  }

  lemma DecideSame(w: World, v: World, tag: Tag, cond: Expr, a: Addr, s: Scope)
    requires Twin(w, v) && AllSeeSeed(Decide(w, tag, cond, a, s).tr, v.memo, v.ctl)
    ensures Decide(w, tag, cond, a, s) == Decide(v, tag, cond, a, s)
  {
    var b := EvalExpr(w.render, s, cond);
    if b.Some? { RecordSame(w, v, CtlKey(tag, a), if b.value then 1 else 0); }
  }

  lemma {:induction false} ExecSame(w: World, v: World, n: Node, p: seq<nat>, l: seq<nat>, s: Scope)
    requires Twin(w, v) && AllSeeSeed(Exec(w, n, p, l, s).tr, v.memo, v.ctl)
    ensures Agree(Exec(w, n, p, l, s), Exec(v, n, p, l, s))
    decreases n, 2, 0
  {
    hide AllSeeSeed, Agree, ParAgree, StepsAgree, ExecCall, Iterate, Threads, Steps, Decide;
    var a := Addr(p, l);
    SelfAgrees(Exec(w, n, p, l, s));
    match n
    case Invoke(call) => CallSame(w, v, call, a, s);
    case Let(_, _) =>
    case Return(_) =>
    case Branch(cond, thn, els) => BranchSame(w, v, n, p, l, s);
    case Fork(_) =>
      ThreadsSame(w, v, n, [], 0, p, l, s);
      JoinAgrees(w, v, a, s, Threads(w, n, [], 0, p, l, s), Threads(v, n, [], 0, p, l, s));
    case Loop(_, _, _, _) => LoopSame(w, v, n, p, l, s);
    case While(_, limit, _) => IterateSame(w, v, n, [], w.Bound(limit), 0, p, l, s);
    case Retry(_, limit, _) => IterateSame(w, v, n, [], w.Bound(limit), 0, p, l, s);
    case Graph(nodes) => GraphSame(w, v, Sorted(nodes), p, l, s);
  }

  lemma {:induction false} BranchSame(w: World, v: World, n: Node, p: seq<nat>, l: seq<nat>, s: Scope)
    requires n.Branch? && Twin(w, v) && AllSeeSeed(Exec(w, n, p, l, s).tr, v.memo, v.ctl)
    ensures Agree(Exec(w, n, p, l, s), Exec(v, n, p, l, s))
    decreases n, 1, 0
  {
    hide AllSeeSeed, Agree, ExecFrom, Twin, Decide;
    var c := Decide(w, Br, n.cond, Addr(p, l), s);
    SelfAgrees(Exec(w, n, p, l, s));
    if !c.verdict.Err? {
      var arm, q := if c.verdict.Yes? then n.thn else n.els, if c.verdict.Yes? then p + [0] else p + [1];
      Sees(c.tr, ExecFrom(w, arm, 0, q, l, s).tr, v.memo, v.ctl);
      ExecFromSame(w, v, arm, 0, q, l, s);
      AgreeAfter(c.tr, ExecFrom(w, arm, 0, q, l, s), ExecFrom(v, arm, 0, q, l, s));
    }
    DecideSame(w, v, Br, n.cond, Addr(p, l), s);
  }

  lemma GraphSame(w: World, v: World, gs: seq<GraphNode>, p: seq<nat>, l: seq<nat>, s: Scope)
    requires Twin(w, v) && AllSeeSeed(ExecGraph(w, gs, p, l, s).tr, v.memo, v.ctl)
    ensures Agree(ExecGraph(w, gs, p, l, s), ExecGraph(v, gs, p, l, s))
  {
    hide AllSeeSeed, Steps, Twin;
    StepsSame(w, v, gs, Topo(gs, {}), p, l, s, {});
  }

  lemma {:induction false} LoopSame(w: World, v: World, n: Node, p: seq<nat>, l: seq<nat>, s: Scope)
    requires n.Loop? && Twin(w, v) && AllSeeSeed(Exec(w, n, p, l, s).tr, v.memo, v.ctl)
    ensures Agree(Exec(w, n, p, l, s), Exec(v, n, p, l, s))
    decreases n, 1, w.Cap() + 1
  {
    hide AllSeeSeed, Agree, ParAgree, Iterate, Threads;
    SelfAgrees(Exec(w, n, p, l, s));
    var got := EvalCollection(w.render, s, n.coll);
    if got.Some? && |got.value| <= w.Cap() {
      var items := got.value;
      var c := Record(w, CtlKey(Lp, Addr(p, l)), |items|);
      if c.verdict.Yes? {
        if n.par {
          Sees(c.tr, Threads(w, n, items, 0, p, l, s).tr, v.memo, v.ctl);
          ThreadsSame(w, v, n, items, 0, p, l, s);
          JoinAgrees(w, v, Addr(p, l), s, Threads(w, n, items, 0, p, l, s), Threads(v, n, items, 0, p, l, s));
          AgreeAfter(c.tr, Join(w, Addr(p, l), s, Threads(w, n, items, 0, p, l, s)),
              Join(v, Addr(p, l), s, Threads(v, n, items, 0, p, l, s)));
        } else {
          Sees(c.tr, Iterate(w, n, items, |items|, 0, p, l, s).tr, v.memo, v.ctl);
          IterateSame(w, v, n, items, |items|, 0, p, l, s);
          AgreeAfter(c.tr, Iterate(w, n, items, |items|, 0, p, l, s), Iterate(v, n, items, |items|, 0, p, l, s));
        }
      }
      RecordSame(w, v, CtlKey(Lp, Addr(p, l)), |items|);
    }
  }

  lemma {:induction false} ExecFromSame(w: World, v: World, ns: seq<Node>, i: nat, p: seq<nat>, l: seq<nat>, s: Scope)
    requires i <= |ns| && Twin(w, v) && AllSeeSeed(ExecFrom(w, ns, i, p, l, s).tr, v.memo, v.ctl)
    ensures Agree(ExecFrom(w, ns, i, p, l, s), ExecFrom(v, ns, i, p, l, s))
    decreases ns, 0, |ns| - i
  {
    hide AllSeeSeed;
    if i < |ns| {
      var e := Exec(w, ns[i], p + [i], l, s);
      if e.st.Running? {
        Sees(e.tr, ExecFrom(w, ns, i + 1, p, l, e.scope).tr, v.memo, v.ctl);
        ExecFromSame(w, v, ns, i + 1, p, l, e.scope);
      }
      ExecSame(w, v, ns[i], p + [i], l, s);
    }
  }

  lemma BeforeSame(w: World, v: World, n: Node, i: nat, p: seq<nat>, l: seq<nat>, s: Scope)
    requires IsLoop(n) && Twin(w, v) && AllSeeSeed(Before(w, n, i, p, l, s).tr, v.memo, v.ctl)
    ensures Before(w, n, i, p, l, s) == Before(v, n, i, p, l, s)
  {
    if n.While? { DecideSame(w, v, Wh, n.cond, Addr(p, l + [i]), s); }
  }

  lemma AfterSame(w: World, v: World, n: Node, i: nat, p: seq<nat>, l: seq<nat>, s: Scope)
    requires IsLoop(n) && Twin(w, v) && AllSeeSeed(After(w, n, i, p, l, s).tr, v.memo, v.ctl)
    ensures After(w, n, i, p, l, s) == After(v, n, i, p, l, s)
  {
    if n.Retry? { DecideSame(w, v, Rt, n.cond, Addr(p, l + [i]), s); }
  }

  lemma {:induction false} IterateSame(w: World, v: World, n: Node, items: seq<Val>, max: nat, i: nat, p: seq<nat>,
      l: seq<nat>, s: Scope)
    requires IsLoop(n) && i <= max && (n.Loop? ==> max == |items|)
    requires Twin(w, v) && AllSeeSeed(Iterate(w, n, items, max, i, p, l, s).tr, v.memo, v.ctl)
    ensures Agree(Iterate(w, n, items, max, i, p, l, s), Iterate(v, n, items, max, i, p, l, s))
    decreases n, 1, max - i
  {
    hide AllSeeSeed, Agree, ExecFrom, Before, After, Twin;
    SelfAgrees(Iterate(w, n, items, max, i, p, l, s));
    if i < max {
      var b := Before(w, n, i, p, l, s);
      if b.verdict.Yes? {
        IterationSame(w, v, n, items, max, i, p, l, s);
      } else {
        BeforeSame(w, v, n, i, p, l, s);
      }
    }
  }

  lemma {:induction false} IterationSame(w: World, v: World, n: Node, items: seq<Val>, max: nat, i: nat, p: seq<nat>,
      l: seq<nat>, s: Scope)
    requires IsLoop(n) && i < max && (n.Loop? ==> max == |items|) && Before(w, n, i, p, l, s).verdict.Yes?
    requires Twin(w, v) && AllSeeSeed(Iterate(w, n, items, max, i, p, l, s).tr, v.memo, v.ctl)
    ensures Agree(Iterate(w, n, items, max, i, p, l, s), Iterate(v, n, items, max, i, p, l, s))
    decreases n, 1, max - i, 0
  {
    hide AllSeeSeed, Agree, ExecFrom, Before, After, Twin, Iterate;
    var t, u := Split(w, n, items, max, i, p, l, s), Split(v, n, items, max, i, p, l, s);
    SplitWhole(w, n, items, max, i, p, l, s);
    Sees(t.before.tr + t.body.tr, t.after.tr + t.rest.tr, v.memo, v.ctl);
    Sees(t.before.tr, t.body.tr, v.memo, v.ctl);
    Sees(t.after.tr, t.rest.tr, v.memo, v.ctl);
    BeforeSame(w, v, n, i, p, l, s);
    SplitWhole(v, n, items, max, i, p, l, s);
    ExecFromSame(w, v, n.body, 0, p, l + [i], IterScope(n, items, i, s));
    AgreeCases(t.body, u.body);
    AgreeAfter(t.before.tr, t.body, u.body);
    if t.body.st.Running? {
      AfterSame(w, v, n, i, p, l, t.body.scope);
      if t.after.verdict.No? {
        IterateSame(w, v, n, items, max, i + 1, p, l, t.body.scope);
      } else {
        SelfAgrees(t.rest);
      }
      AgreeAfter(t.after.tr, t.rest, u.rest);
      AgreeThen(Prefix(t.before.tr, t.body), Prefix(u.before.tr, u.body), Prefix(t.after.tr, t.rest),
          Prefix(u.after.tr, u.rest));
    } else {
      StopEarly(w, n, items, max, i, p, l, s);
      if !u.body.st.Running? { StopEarly(v, n, items, max, i, p, l, s); }
      Stopped(Prefix(t.before.tr, t.body), Prefix(u.before.tr, u.body), Iterate(v, n, items, max, i, p, l, s));
    }
  }

  lemma AgreeCases(e: Eff, f: Eff)
    requires Agree(e, f)
    ensures e.st.Running? ==> Same(e, f)
  {
  }

  lemma AgreeThen(e: Eff, f: Eff, e': Eff, f': Eff)
    requires Agree(e, f) && e.st.Running? && Agree(e', f')
    ensures Agree(Prefix(e.tr, e'), Prefix(f.tr, f'))
  {
  }

  /** e stopped: either it pauses or fails, or f stopped the same way. */
  lemma Stopped(e: Eff, f: Eff, whole: Eff)
    requires Agree(e, f) && !e.st.Running? && (!f.st.Running? ==> whole == f)
    ensures Agree(e, whole)
  {
  }

  ghost predicate ParAgree(e: Par, f: Par) {
    && (e.err.Some? ==> e.err.value != Cancelled)
    && (e.susp || e.err.Some? || (f.err.None? && !f.susp && e.pub == f.pub && multiset(e.tr) == multiset(f.tr)))
  }

  lemma {:induction false} ThreadsSame(w: World, v: World, n: Node, items: seq<Val>, i: nat, p: seq<nat>, l: seq<nat>,
      s: Scope)
    requires IsParallel(n) && i <= Width(n, items) && Twin(w, v)
    requires AllSeeSeed(Threads(w, n, items, i, p, l, s).tr, v.memo, v.ctl)
    ensures ParAgree(Threads(w, n, items, i, p, l, s), Threads(v, n, items, i, p, l, s))
    decreases n, 1, Width(n, items) - i
  {
    hide AllSeeSeed, Agree, ParAgree, ExecFrom, Twin;
    if i < Width(n, items) {
      var a := ThreadAddr(n, i, p, l);
      var ns, s' := ThreadNodes(n, i), ThreadScope(n, items, i, s);
      var e, f := ExecFrom(w, ns, 0, a.path, a.loop, s'), ExecFrom(v, ns, 0, a.path, a.loop, s');
      var e', f' := Threads(w, n, items, i + 1, p, l, s), Threads(v, n, items, i + 1, p, l, s);
      SeesShuffle(e.tr, e'.tr, w.merge(a), v.memo, v.ctl);
      ExecFromSame(w, v, ns, 0, a.path, a.loop, s');
      ThreadsSame(w, v, n, items, i + 1, p, l, s);
      ThreadAgrees(n, i, e, f, e', f', w.merge(a), v.merge(a));
    } else {
      NoThreadsAgree();
    }
  }

  lemma NoThreadsAgree()
    ensures ParAgree(Par(None, false, map[], []), Par(None, false, map[], []))
  {
  }

  lemma ThreadAgrees(n: Node, i: nat, e: Eff, f: Eff, e': Par, f': Par, b: seq<bool>, d: seq<bool>)
    requires IsParallel(n) && (n.Fork? ==> i < |n.branches|) && Agree(e, f) && ParAgree(e', f')
    ensures ParAgree(AddThread(n, i, e, e', b), AddThread(n, i, f, f', d))
  {
    ShuffleMembers(e.tr, e'.tr, b);
    ShuffleMembers(f.tr, f'.tr, d);
  }

  ghost predicate StepsAgree(e: GraphRun, f: GraphRun) {
    && !e.cut && (e.err.Some? ==> e.err.value != Cancelled)
    && (e.susp || (e.err == f.err && !f.cut && !f.susp && e.scope == f.scope && e.done == f.done
                   && multiset(e.tr) == multiset(f.tr)))
  }

  lemma {:induction false} StepsSame(w: World, v: World, gs: seq<GraphNode>, order: seq<nat>, p: seq<nat>, l: seq<nat>,
      s: Scope, done: set<string>)
    requires (forall k | 0 <= k < |order| :: order[k] < |gs|) && Twin(w, v)
    requires AllSeeSeed(Steps(w, gs, order, p, l, s, done).tr, v.memo, v.ctl)
    ensures StepsAgree(Steps(w, gs, order, p, l, s, done), Steps(v, gs, order, p, l, s, done))
    decreases |order|
  {
    hide AllSeeSeed, StepsAgree, ExecCall;
    if order != [] {
      var i := order[0];
      var a := Addr(p + [i], l);
      if !(forall d | d in gs[i].needs :: d in done) || w.halt(a) {
        StepsSame(w, v, gs, order[1..], p, l, s, done);
        SkipAgrees(Steps(w, gs, order[1..], p, l, s, done), Steps(v, gs, order[1..], p, l, s, done));
      } else {
        var e := ExecCall(w, gs[i].run, a, s);
        var s', done' := StepScope(gs[i].id, s, e), StepDone(gs[i].id, done, e);
        var r, q := Steps(w, gs, order[1..], p, l, s', done'), Steps(v, gs, order[1..], p, l, s', done');
        SeesShuffle(e.tr, r.tr, w.merge(a), v.memo, v.ctl);
        CallSame(w, v, gs[i].run, a, s);
        StepsSame(w, v, gs, order[1..], p, l, s', done');
        StepAgrees(e, r, q, w.merge(a), v.merge(a));
      }
    } else {
      NoStepsAgree(GraphRun(None, false, false, s, done, []));
    }
  }

  lemma NoStepsAgree(r: GraphRun)
    requires r.err.None? && !r.cut && !r.susp
    ensures StepsAgree(r, r)
  {
  }

  lemma StepAgrees(e: Eff, r: GraphRun, q: GraphRun, b: seq<bool>, d: seq<bool>)
    requires e.st != Failed(Cancelled) && StepsAgree(r, q)
    ensures StepsAgree(AddStep(e, r, b), AddStep(e, q, d))
  {
    ShuffleMembers(e.tr, r.tr, b);
    ShuffleMembers(e.tr, q.tr, d);
  }

  lemma SkipAgrees(r: GraphRun, q: GraphRun)
    requires StepsAgree(r, q)
    ensures forall any: GraphRun :: StepsAgree(r.(susp := true), any)
  {
  }

  // ----- whole runs

  /** w's run is a legal execution against the shared session that starts as (m, c). */
  ghost predicate Legal(w: World, m: Memo, c: Control, prog: Program, input: Val) {
    Live(m, c, Run(w, prog, input).tr)
  }

  /** Answering every look-up from the seed is legal under every interleaving. */
  lemma SeedAnswersAreLegal(v: World, prog: Program, input: Val)
    ensures Legal(v, v.memo, v.ctl, prog, input)
  {
    AddressesIdentifyLeaves(v, prog, input);
    LiveIffSeesSeed(v.memo, v.ctl, Run(v, prog, input).tr);
    ExecFromSees(v, prog.body, 0, [], [], ParamScope(prog.params, input));
  }

  /** Confluence: two legal executions of one program against one starting session, however
      interleaved and whatever they answered look-ups with, end in the same status, bindings,
      memo and control record and make the same calls, unless one of them suspended or failed. */
  lemma Confluence(w: World, u: World, m: Memo, c: Control, prog: Program, input: Val)
    requires w.maxLoop == u.maxLoop && w.render == u.render && w.oracle == u.oracle
    requires forall k, a, x :: w.oracle(k, a, x) != Fail(Cancelled)
    requires Legal(w, m, c, prog, input) && Legal(u, m, c, prog, input)
    ensures var e, f := Run(w, prog, input), Run(u, prog, input);
            || e.st.Suspended? || e.st.Failed? || f.st.Suspended? || f.st.Failed?
            || (&& e.st == f.st && e.scope == f.scope && multiset(e.tr) == multiset(f.tr)
                && MemoAfter(m, e.tr) == MemoAfter(m, f.tr) && ControlAfter(c, e.tr) == ControlAfter(c, f.tr))
  {
    var e, f := Run(w, prog, input), Run(u, prog, input);
    var v := w.(memo := m, ctl := c, halt := (a: Addr) => false);
    AddressesIdentifyLeaves(w, prog, input);
    AddressesIdentifyLeaves(u, prog, input);
    LiveIffSeesSeed(m, c, e.tr);
    LiveIffSeesSeed(m, c, f.tr);
    ExecFromSame(w, v, prog.body, 0, [], [], ParamScope(prog.params, input));
    ExecFromSame(u, v, prog.body, 0, [], [], ParamScope(prog.params, input));
    if multiset(e.tr) == multiset(f.tr) {
      SameMaps(m, c, e.tr, f.tr);
    }
  }

  /** Order of the operations does not matter to the maps they leave behind. */
  lemma SameMaps(m: Memo, c: Control, x: seq<Act>, y: seq<Act>)
    requires Once(x) && Once(y) && multiset(x) == multiset(y)
    ensures MemoAfter(m, x) == MemoAfter(m, y) && ControlAfter(c, x) == ControlAfter(c, y)
  {
    forall a ensures a in x <==> a in y {
      assert (a in x <==> a in multiset(x)) && (a in y <==> a in multiset(y));
    }
    forall k ensures (k in MemoAfter(m, x) <==> k in MemoAfter(m, y))
    && (k in MemoAfter(m, x) ==> MemoAfter(m, x)[k] == MemoAfter(m, y)[k]) {
      MemoAfterIs(m, x, k);
      MemoAfterIs(m, y, k);
    }
    forall k ensures (k in ControlAfter(c, x) <==> k in ControlAfter(c, y))
    && (k in ControlAfter(c, x) ==> ControlAfter(c, x)[k] == ControlAfter(c, y)[k]) {
      ControlAfterIs(c, x, k);
      ControlAfterIs(c, y, k);
    }
  }
}
