/** Call addresses identify dynamic leaves: every session operation of a node stays inside
    the node's own address region, and no two of the same kind share an address. */
module Addressing {
  import opened Values
  import opened ExecIR
  import opened Eval
  import opened GraphOrder
  import opened Interp

  function AddrOf(x: Act): Addr {
    if x.Ctl? then x.key.at else x.site.at
  }

  /** The node at (p,l); its children from index i on; its iterations from i on. */
  datatype Region = At(p: seq<nat>, l: seq<nat>) | Kids(p: seq<nat>, l: seq<nat>, i: nat) | Iters(p: seq<nat>,
      l: seq<nat>, i: nat)
  {
    predicate Has(a: Addr) {
      && p <= a.path
      && l <= a.loop
      && (Kids? ==> |p| < |a.path| && a.path[|p|] >= i)
      && (Iters? ==> |l| < |a.loop| && a.loop[|l|] >= i)
    }
  }

  ghost predicate Within(tr: seq<Act>, r: Region) {
    forall x | x in tr :: r.Has(AddrOf(x))
  }

  ghost predicate Clash(x: Act, y: Act) {
    && AddrOf(x) == AddrOf(y)
    && (|| (x.Get? && y.Get?) || (x.Called? && y.Called?) || (x.Put? && y.Put?) || (x.Ctl? && y.Ctl?)
        || (x.Gate? && y.Gate?)
        || ((x.Put? || x.Gate?) && (y.Get? || y.Put? || y.Gate?))
        || (x.Get? && x.hit.Some?))
  }

  /** No two operations of one kind at one address; a leaf is looked up before it is memoised
      or paused, never both memoised and paused, and not touched again after a memo hit. */
  ghost predicate Once(tr: seq<Act>) {
    forall i, j :: 0 <= i < j < |tr| ==> !Clash(tr[i], tr[j])
  }

  lemma Unclashed(tr: seq<Act>, x: Act, y: Act)
    requires Once(tr) && x in tr && y in tr && x != y
    ensures !Clash(x, y) || !Clash(y, x)
  {
    var i :| 0 <= i < |tr| && tr[i] == x;
    var j :| 0 <= j < |tr| && tr[j] == y;
    if i < j { assert !Clash(tr[i], tr[j]); } else { assert !Clash(tr[j], tr[i]); }
  }

  ghost predicate Apart(x: seq<Act>, y: seq<Act>) {
    forall a, b :: a in x && b in y ==> AddrOf(a) != AddrOf(b)
  }

  lemma OnceConcat(x: seq<Act>, y: seq<Act>)
    requires Once(x) && Once(y) && Apart(x, y)
    ensures Once(x + y)
  {
  }

  lemma {:induction false} ShuffleBag(x: seq<Act>, y: seq<Act>, bits: seq<bool>)
    ensures multiset(Shuffle(x, y, bits)) == multiset(x) + multiset(y)
    decreases |x| + |y|
  {
    if x == [] || y == [] {
      assert multiset(x) + multiset(y) == multiset(Shuffle(x, y, bits));
    } else {
      assert x == [x[0]] + x[1..] && y == [y[0]] + y[1..];
      if bits != [] && !bits[0] {
        ShuffleBag(x, y[1..], bits[1..]);
      } else {
        ShuffleBag(x[1..], y, if bits == [] then [] else bits[1..]);
      }
    }
  }

  lemma ShuffleMembers(x: seq<Act>, y: seq<Act>, bits: seq<bool>)
    ensures multiset(Shuffle(x, y, bits)) == multiset(x) + multiset(y)
    ensures forall a :: a in Shuffle(x, y, bits) <==> a in x || a in y
  {
    hide Shuffle;
    ShuffleBag(x, y, bits);
    forall a ensures a in Shuffle(x, y, bits) <==> a in x || a in y {
      assert a in Shuffle(x, y, bits) <==> a in multiset(Shuffle(x, y, bits));
      assert (a in x <==> a in multiset(x)) && (a in y <==> a in multiset(y));
    }
  }

  lemma OnceCons(h: Act, tl: seq<Act>)
    requires Once(tl) && forall b | b in tl :: !Clash(h, b)
    ensures Once([h] + tl)
  {
  }

  lemma OnceUncons(y: seq<Act>)
    requires y != [] && Once(y)
    ensures Once(y[1..]) && forall b | b in y[1..] :: !Clash(y[0], b)
  {
    forall b | b in y[1..] ensures !Clash(y[0], b) {
      var k :| 0 <= k < |y[1..]| && y[1..][k] == b;
      assert y[k + 1] == b;
    }
  }

  lemma {:induction false} ShuffleOnce(x: seq<Act>, y: seq<Act>, bits: seq<bool>)
    requires Once(x) && Once(y) && Apart(x, y)
    ensures Once(Shuffle(x, y, bits))
    decreases |x| + |y|
  {
    if x != [] && y != [] {
      if bits != [] && !bits[0] {
        OnceUncons(y);
        ShuffleOnce(x, y[1..], bits[1..]);
        ShuffleMembers(x, y[1..], bits[1..]);
        assert forall b | b in x :: AddrOf(b) != AddrOf(y[0]);
        OnceCons(y[0], Shuffle(x, y[1..], bits[1..]));
      } else {
        var rest := if bits == [] then [] else bits[1..];
        OnceUncons(x);
        ShuffleOnce(x[1..], y, rest);
        ShuffleMembers(x[1..], y, rest);
        OnceCons(x[0], Shuffle(x[1..], y, rest));
      }
    }
  }

  /** A trace that fits region r and repeats no operation. */
  ghost predicate Fits(tr: seq<Act>, r: Region) {
    Within(tr, r) && Once(tr)
  }

  ghost predicate Disjoint(r: Region, q: Region) {
    forall a: Addr :: !(r.Has(a) && q.Has(a))
  }

  ghost predicate Inside(r: Region, q: Region) {
    forall a: Addr :: r.Has(a) ==> q.Has(a)
  }

  lemma FitsConcat(x: seq<Act>, rx: Region, y: seq<Act>, ry: Region, r: Region)
    requires Fits(x, rx) && Fits(y, ry) && Disjoint(rx, ry) && Inside(rx, r) && Inside(ry, r)
    ensures Fits(x + y, r)
  {
    OnceConcat(x, y);
  }

  lemma Widen(tr: seq<Act>, r: Region, q: Region)
    requires Fits(tr, r) && Inside(r, q)
    ensures Fits(tr, q)
  {
  }

  lemma FitsShuffle(x: seq<Act>, rx: Region, y: seq<Act>, ry: Region, r: Region, bits: seq<bool>)
    requires Fits(x, rx) && Fits(y, ry) && Disjoint(rx, ry) && Inside(rx, r) && Inside(ry, r)
    ensures Fits(Shuffle(x, y, bits), r)
  {
    ShuffleOnce(x, y, bits);
    ShuffleMembers(x, y, bits);
  }

  /** Child i and the children after it occupy disjoint parts of the parent's region. */
  lemma ChildRegion(p: seq<nat>, l: seq<nat>, i: nat)
    ensures Disjoint(At(p + [i], l), Kids(p, l, i + 1)) && Disjoint(Kids(p, l, i + 1), At(p + [i], l))
    ensures Inside(At(p + [i], l), Kids(p, l, i)) && Inside(Kids(p, l, i + 1), Kids(p, l, i))
    ensures Inside(Kids(p, l, i), At(p, l)) && Inside(At(p + [i], l), At(p, l))
  {
    forall a: Addr | p + [i] <= a.path ensures p <= a.path && |p| < |a.path| && a.path[|p|] == i {
      assert a.path[..|p| + 1] == p + [i];
      assert a.path[|p|] == (p + [i])[|p|];
      assert a.path[..|p|] == (p + [i])[..|p|] == p;
    }
  }

  lemma IterRegion(p: seq<nat>, l: seq<nat>, i: nat)
    ensures Disjoint(At(p, l + [i]), Iters(p, l, i + 1)) && Disjoint(Iters(p, l, i + 1), At(p, l + [i]))
    ensures Inside(At(p, l + [i]), Iters(p, l, i)) && Inside(Iters(p, l, i + 1), Iters(p, l, i))
    ensures Inside(Iters(p, l, i), At(p, l)) && Inside(At(p, l + [i]), At(p, l))
  {
    forall a: Addr | l + [i] <= a.loop ensures l <= a.loop && |l| < |a.loop| && a.loop[|l|] == i {
      assert a.loop[..|l| + 1] == l + [i];
      assert a.loop[|l|] == (l + [i])[|l|];
      assert a.loop[..|l|] == (l + [i])[..|l|] == l;
    }
  }

  // ----- the addressing theorem, one lemma per function of the interpreter

  /** A leaf looks up, then calls, then memoises or waits, all at its own address. */
  ghost predicate LeafTrace(tr: seq<Act>, site: Site) {
    && 1 <= |tr| <= 3
    && tr[0].Get? && tr[0].site == site && (tr[0].hit.Some? ==> |tr| == 1)
    && (|tr| > 1 ==> tr[1].Called? && tr[1].site == site)
    && (|tr| > 2 ==> (tr[2].Put? || tr[2].Gate?) && tr[2].site == site)
  }

  lemma CallShape(w: World, call: Call, a: Addr, s: Scope)
    ensures LeafTrace(ExecCall(w, call, a, s).tr, Site(call.bind, a))
  {
  }

  lemma CallFits(w: World, call: Call, a: Addr, s: Scope)
    ensures Fits(ExecCall(w, call, a, s).tr, At(a.path, a.loop))
    ensures forall x | x in ExecCall(w, call, a, s).tr :: AddrOf(x) == a
  {
    CallShape(w, call, a, s);
  }

  /** A control record sits at the node itself, the rest strictly below it. */
  lemma HeadThenKids(c: seq<Act>, a: Addr, tr: seq<Act>, r: Region)
    requires |c| <= 1 && (forall x | x in c :: x.Ctl? && AddrOf(x) == a)
    requires Fits(tr, r) && Inside(r, At(a.path, a.loop)) && !r.Has(a)
    ensures Fits(c + tr, At(a.path, a.loop))
  {
    OnceConcat(c, tr);
  }

  /** Nothing but (at most) the node's own control record. */
  lemma HeadOnly(c: seq<Act>, a: Addr)
    requires |c| <= 1 && (forall x | x in c :: x.Ctl? && AddrOf(x) == a)
    ensures Fits(c, At(a.path, a.loop))
  {
  }

  lemma {:induction false} ExecFits(w: World, n: Node, p: seq<nat>, l: seq<nat>, s: Scope)
    ensures Fits(Exec(w, n, p, l, s).tr, At(p, l))
    decreases n, 2, 0
  {
    hide Fits, Disjoint, Inside, ExecFrom, Iterate, Threads, Steps, ExecCall, Sorted, Topo, EvalCollection, EvalValue,
        EvalExpr;
    var a := Addr(p, l);
    match n
    case Invoke(call) => CallFits(w, call, a, s);
    case Let(_, _) => HeadOnly([], a);
    case Return(_) => HeadOnly([], a);
    case Branch(cond, thn, els) =>
      var c := Decide(w, Br, cond, a, s);
      HeadOnly(c.tr, a);
      ExecFromFits(w, thn, 0, p + [0], l, s);
      ExecFromFits(w, els, 0, p + [1], l, s);
      ChildRegion(p, l, 0);
      ChildRegion(p, l, 1);
      KidsBelow(p, l, 0);
      KidsBelow(p, l, 1);
      if c.verdict.Yes? {
        HeadThenKids(c.tr, a, ExecFrom(w, thn, 0, p + [0], l, s).tr, Kids(p + [0], l, 0));
      } else if c.verdict.No? {
        HeadThenKids(c.tr, a, ExecFrom(w, els, 0, p + [1], l, s).tr, Kids(p + [1], l, 0));
      }
    case Fork(_) =>
      ThreadsFit(w, n, [], 0, p, l, s);
      ChildRegion(p, l, 0);
      Widen(Threads(w, n, [], 0, p, l, s).tr, Kids(p, l, 0), At(p, l));
    case Loop(_, coll, _, par) =>
      var items := EvalCollection(w.render, s, coll);
      HeadOnly([], a);
      if items.Some? && |items.value| <= w.Cap() {
        var c := Record(w, CtlKey(Lp, a), |items.value|);
        HeadOnly(c.tr, a);
        IterRegion(p, l, 0);
        if par {
          ThreadsFit(w, n, items.value, 0, p, l, s);
          HeadThenKids(c.tr, a, Threads(w, n, items.value, 0, p, l, s).tr, Iters(p, l, 0));
        } else {
          IterateFits(w, n, items.value, |items.value|, 0, p, l, s);
          HeadThenKids(c.tr, a, Iterate(w, n, items.value, |items.value|, 0, p, l, s).tr, Iters(p, l, 0));
        }
      }
    case While(_, limit, _) =>
      IterateFits(w, n, [], w.Bound(limit), 0, p, l, s);
      IterRegion(p, l, 0);
      Widen(Iterate(w, n, [], w.Bound(limit), 0, p, l, s).tr, Iters(p, l, 0), At(p, l));
    case Retry(_, limit, _) =>
      IterateFits(w, n, [], w.Bound(limit), 0, p, l, s);
      IterRegion(p, l, 0);
      Widen(Iterate(w, n, [], w.Bound(limit), 0, p, l, s).tr, Iters(p, l, 0), At(p, l));
    case Graph(nodes) =>
      StepsFit(w, Sorted(nodes), Topo(Sorted(nodes), {}), p, l, s, {});
      ChildRegion(p, l, 0);
      Widen(Steps(w, Sorted(nodes), Topo(Sorted(nodes), {}), p, l, s, {}).tr, Kids(p, l, 0), At(p, l));
  }

  lemma KidsBelow(p: seq<nat>, l: seq<nat>, i: nat)
    ensures Inside(Kids(p + [i], l, 0), At(p, l)) && !Kids(p + [i], l, 0).Has(Addr(p, l))
  {
    ChildRegion(p, l, i);
    ChildRegion(p + [i], l, 0);
  }

  lemma {:induction false} ExecFromFits(w: World, ns: seq<Node>, i: nat, p: seq<nat>, l: seq<nat>, s: Scope)
    requires i <= |ns|
    ensures Fits(ExecFrom(w, ns, i, p, l, s).tr, Kids(p, l, i))
    decreases ns, 0, |ns| - i
  {
    if i < |ns| {
      var e := Exec(w, ns[i], p + [i], l, s);
      ExecFits(w, ns[i], p + [i], l, s);
      ChildRegion(p, l, i);
      if e.st.Running? {
        ExecFromFits(w, ns, i + 1, p, l, e.scope);
        FitsConcat(e.tr, At(p + [i], l), ExecFrom(w, ns, i + 1, p, l, e.scope).tr, Kids(p, l, i + 1), Kids(p, l, i));
      }
    }
  }

  /** One iteration: at most one control record, and a body below it. */
  lemma IterationFits(b: seq<Act>, e: seq<Act>, c: seq<Act>, a: Addr)
    requires Fits(e, Kids(a.path, a.loop, 0))
    requires |b| + |c| <= 1 && forall x | x in b + c :: x.Ctl? && AddrOf(x) == a
    ensures Fits(b + e + c, At(a.path, a.loop))
    ensures Fits(b + e, At(a.path, a.loop))
  {
    HeadThenKids(b, a, e, Kids(a.path, a.loop, 0));
    assert forall x | x in c :: x in b + c;
    if |c| == 1 {
      assert c[0] in b + c;
      assert b + e == e;
      OnceConcat(e, c);
    } else {
      assert b + e + c == b + e;
    }
  }

  lemma {:induction false} IterateFits(w: World, n: Node, items: seq<Val>, max: nat, i: nat, p: seq<nat>, l: seq<nat>,
      s: Scope)
    requires IsLoop(n) && i <= max && (n.Loop? ==> max == |items|)
    ensures Fits(Iterate(w, n, items, max, i, p, l, s).tr, Iters(p, l, i))
    decreases n, 1, max - i
  {
    hide Fits, Disjoint, Inside;
    if i == max {
      HeadOnly([], Addr(p, l + [i]));
      IterRegion(p, l, i);
      Widen([], At(p, l + [i]), Iters(p, l, i));
    } else {
      var a := Addr(p, l + [i]);
      var b := Before(w, n, i, p, l, s);
      IterRegion(p, l, i);
      HeadOnly(b.tr, a);
      Widen(b.tr, At(p, l + [i]), Iters(p, l, i));
      if b.verdict.Yes? {
        var e := ExecFrom(w, n.body, 0, p, l + [i], IterScope(n, items, i, s));
        ExecFromFits(w, n.body, 0, p, l + [i], IterScope(n, items, i, s));
        var c := After(w, n, i, p, l, e.scope);
        IterationFits(b.tr, e.tr, c.tr, a);
        Widen(b.tr + e.tr, At(p, l + [i]), Iters(p, l, i));
        Widen(b.tr + e.tr + c.tr, At(p, l + [i]), Iters(p, l, i));
        if e.st.Running? && c.verdict.No? {
          IterateFits(w, n, items, max, i + 1, p, l, e.scope);
          FitsConcat(b.tr + e.tr + c.tr, At(p, l + [i]), Iterate(w, n, items, max, i + 1, p, l, e.scope).tr,
              Iters(p, l, i + 1), Iters(p, l, i));
        }
      }
    }
  }

  function ThreadsRegion(n: Node, i: nat, p: seq<nat>, l: seq<nat>): Region {
    if n.Fork? then Kids(p, l, i) else Iters(p, l, i)
  }

  lemma ThreadRegion(n: Node, i: nat, p: seq<nat>, l: seq<nat>)
    requires IsParallel(n)
    ensures var a := ThreadAddr(n, i, p, l);
            var body := Kids(a.path, a.loop, 0);
            && Disjoint(body, ThreadsRegion(n, i + 1, p, l)) && Disjoint(ThreadsRegion(n, i + 1, p, l), body)
            && Inside(body, ThreadsRegion(n, i, p, l))
            && Inside(ThreadsRegion(n, i + 1, p, l), ThreadsRegion(n, i, p, l))
  {
    var a := ThreadAddr(n, i, p, l);
    ChildRegion(a.path, a.loop, 0);
    ChildRegion(p, l, i);
    IterRegion(p, l, i);
  }

  lemma {:induction false} ThreadsFit(w: World, n: Node, items: seq<Val>, i: nat, p: seq<nat>, l: seq<nat>, s: Scope)
    requires IsParallel(n) && i <= Width(n, items)
    ensures Fits(Threads(w, n, items, i, p, l, s).tr, ThreadsRegion(n, i, p, l))
    decreases n, 1, Width(n, items) - i
  {
    if i < Width(n, items) {
      var a := ThreadAddr(n, i, p, l);
      var e := ExecFrom(w, ThreadNodes(n, i), 0, a.path, a.loop, ThreadScope(n, items, i, s));
      ExecFromFits(w, ThreadNodes(n, i), 0, a.path, a.loop, ThreadScope(n, items, i, s));
      ThreadsFit(w, n, items, i + 1, p, l, s);
      ThreadRegion(n, i, p, l);
      FitsShuffle(e.tr, Kids(a.path, a.loop, 0), Threads(w, n, items, i + 1, p, l, s).tr,
          ThreadsRegion(n, i + 1, p, l), ThreadsRegion(n, i, p, l), w.merge(a));
    }
  }

  ghost predicate Distinct(order: seq<nat>) {
    forall j, k :: 0 <= j < k < |order| ==> order[j] != order[k]
  }

  lemma {:induction false} StepsFit(w: World, gs: seq<GraphNode>, order: seq<nat>, p: seq<nat>, l: seq<nat>, s: Scope,
      done: set<string>)
    requires forall k | 0 <= k < |order| :: order[k] < |gs|
    requires Distinct(order)
    ensures var tr := Steps(w, gs, order, p, l, s, done).tr;
            Fits(tr, Kids(p, l, 0)) && forall x | x in tr ::
                                         exists k :: 0 <= k < |order| && AddrOf(x) == Addr(p + [order[k]], l)
    decreases |order|
  {
    if order != [] {
      var i := order[0];
      var a := Addr(p + [i], l);
      var e := ExecCall(w, gs[i].run, a, s);
      CallFits(w, gs[i].run, a, s);
      var s', done' := StepScope(gs[i].id, s, e), StepDone(gs[i].id, done, e);
      StepsFit(w, gs, order[1..], p, l, s, done);
      StepsFit(w, gs, order[1..], p, l, s', done');
      StepJoins(e.tr, Steps(w, gs, order[1..], p, l, s, done).tr, order, p, l, w.merge(a));
      StepJoins(e.tr, Steps(w, gs, order[1..], p, l, s', done').tr, order, p, l, w.merge(a));
    }
  }

  lemma StepJoins(e: seq<Act>, r: seq<Act>, order: seq<nat>, p: seq<nat>, l: seq<nat>, bits: seq<bool>)
    requires order != [] && Distinct(order)
    requires Once(e) && forall x | x in e :: AddrOf(x) == Addr(p + [order[0]], l)
    requires Fits(r, Kids(p, l, 0)) && forall x | x in r ::
                                         exists k :: 0 <= k < |order[1..]| && AddrOf(x) == Addr(p + [order[1..][k]], l)
    ensures Fits(Shuffle(e, r, bits), Kids(p, l, 0))
    ensures forall x | x in Shuffle(e, r, bits) :: exists k :: 0 <= k < |order| && AddrOf(x) == Addr(p + [order[k]], l)
    ensures forall x | x in r :: exists k :: 0 <= k < |order| && AddrOf(x) == Addr(p + [order[k]], l)
  {
    ShuffleMembers(e, r, bits);
    forall x | x in r
      ensures AddrOf(x) != Addr(p + [order[0]], l)
      ensures exists k :: 0 <= k < |order| && AddrOf(x) == Addr(p + [order[k]], l)
    {
      var k :| 0 <= k < |order[1..]| && AddrOf(x) == Addr(p + [order[1..][k]], l);
      assert order[1..][k] == order[k + 1];
      assert (p + [order[k + 1]])[|p|] != (p + [order[0]])[|p|];
    }
    ShuffleOnce(e, r, bits);
    ChildRegion(p, l, order[0]);
    forall x | x in e ensures AddrOf(x) == Addr(p + [order[0]], l) && Kids(p, l, 0).Has(AddrOf(x)) {
      assert AddrOf(x).path[|p|] == order[0];
    }
    forall x | x in Shuffle(e, r, bits) ensures exists k :: 0 <= k < |order| && AddrOf(x) == Addr(p + [order[k]], l) {
      if x in e { assert AddrOf(x) == Addr(p + [order[0]], l); }
    }
  }

  /** Whole runs: two operations of one kind never share (path, loop), for every program,
      seed, oracle and interleaving. In particular each leaf is looked up, called and
      memoised at most once per run, and each decision is recorded at most once. */
  lemma AddressesIdentifyLeaves(w: World, prog: Program, input: Val)
    ensures Once(Run(w, prog, input).tr)
  {
    ExecFromFits(w, prog.body, 0, [], [], ParamScope(prog.params, input));
  }
}
