/** Progress of sequential programs: a resume always reaches the gate its predecessor stopped
    at and gets past it, so a run with g gated leaves finishes after at most g resumes. */
module Progress {
  import opened Values
  import opened ExecIR
  import opened Eval
  import opened Interp
  import opened Addressing
  import opened Scoping
  import opened Session
  import opened Replay
  import opened Lifetime
  import Interleaving
  import Accounting
  import JsonNum

  ghost predicate Sequential(n: Node)
    decreases n, 1
  {
    match n
    case Branch(_, thn, els) => SequentialAll(thn) && SequentialAll(els)
    case Fork(_) => false
    case Loop(_, _, body, par) => !par && SequentialAll(body)
    case While(_, _, body) => SequentialAll(body)
    case Retry(_, _, body) => SequentialAll(body)
    case Graph(_) => false
    case _ => true
  }

  ghost predicate SequentialAll(ns: seq<Node>)
    decreases ns, 0
  {
    forall i | 0 <= i < |ns| :: Sequential(ns[i])
  }

  /** v is seeded with everything the trace recorded, and not with the gate it stopped at. */
  ghost predicate Continues(v: World, w: World, tr: seq<Act>) {
    && v.maxLoop == w.maxLoop && v.render == w.render
    && forall x | x in tr ::
         match x
         case Get(site, Some(u)) => site in v.memo && v.memo[site] == u
         case Put(site, u) => site in v.memo && v.memo[site] == u
         case Ctl(k, val, true) => k in v.ctl ==> v.ctl[k] == val
         case Gate(site) => site !in v.memo
         case _ => true
  }

  ghost predicate Answers(v: World, call: Call, a: Addr, args: Scope) {
    v.oracle(call, a, args).Ok? && JsonNum.Canonical(v.oracle(call, a, args).res).Some?
  }

  ghost predicate GateShape(w: World, tr: seq<Act>) {
    forall site | Gate(site) in tr ::
      site !in w.memo && exists call: Call, args: Scope ::
                           call.bind == site.bind && Called(site, call, args) in tr
                           && w.oracle(call, site.at, args) == Suspend
  }

  ghost predicate PutIn(tr: seq<Act>, site: Site) {
    exists u :: Put(site, u) in tr
  }

  /** Both traces make the same call of this leaf; in t2 it gets past it if v's invoker answers. */
  ghost predicate Through(v: World, t1: seq<Act>, t2: seq<Act>, site: Site) {
    exists call: Call, args ::
      call.bind == site.bind && Called(site, call, args) in t1 && Called(site, call, args) in t2
      && (Answers(v, call, site.at, args) ==> PutIn(t2, site))
  }

  /** The resumed walk e2 repeats e1 up to the gate e1 stopped at, and calls its leaf again. */
  ghost predicate Passes(v: World, w: World, e1: Eff, e2: Eff) {
    && GateShape(w, e1.tr)
    && (e1.st.Running? || e1.st.Returned? ==> e2.st == e1.st && e2.scope == e1.scope)
    && (e1.st.Suspended? <==> exists site :: Gate(site) in e1.tr)
    && (forall g, h :: Gate(g) in e1.tr && Gate(h) in e1.tr ==> g == h)
    && forall site | Gate(site) in e1.tr :: Through(v, e1.tr, e2.tr, site)
  }

  lemma PassPublish(v: World, w: World, call: Call, s: Scope, u: Val, t1: seq<Act>, t2: seq<Act>)
    requires forall site :: Gate(site) !in t1
    ensures Passes(v, w, Publish(call, s, u, t1), Publish(call, s, u, t2))
  {
  }

  lemma PassCall(v: World, w: World, call: Call, a: Addr, s: Scope)
    requires Continues(v, w, ExecCall(w, call, a, s).tr)
    ensures Passes(v, w, ExecCall(w, call, a, s), ExecCall(v, call, a, s))
  {
    hide Passes, Publish;
    var site := Site(call.bind, a);
    var e := ExecCall(w, call, a, s);
    var args := EvalArgs(w.render, s, call.args);
    if site in w.memo {
      assert e == Publish(call, s, w.memo[site], [Get(site, Some(w.memo[site]))]);
      assert e.tr == [Get(site, Some(w.memo[site]))] by {
        PublishTrace(call, s, w.memo[site], [Get(site, Some(w.memo[site]))]);
      }
      assert Get(site, Some(w.memo[site])) in e.tr;
      PassPublish(v, w, call, s, w.memo[site], e.tr, e.tr);
    } else if args.None? {
      PassFailed(v, w, e, ExecCall(v, call, a, s));
    } else {
      var o := w.oracle(call, a, args.value);
      var called := [Get(site, None), Called(site, call, args.value)];
      if o.Suspend? {
        assert e.tr == called + [Gate(site)];
        assert Gate(site) in e.tr && Called(site, call, args.value) in e.tr;
        PassGate(v, w, call, a, s, args.value);
      } else if o.Ok? && JsonNum.Canonical(o.res).Some? {
        var u := JsonNum.Canonical(o.res).value;
        PublishTrace(call, s, u, called + [Put(site, u)]);
        assert [Get(site, None)] + [Called(site, call, args.value)] == called;
        assert e == Publish(call, s, u, called + [Put(site, u)]);
        assert Put(site, u) in e.tr;
        PassPublish(v, w, call, s, u, called + [Put(site, u)], [Get(site, Some(u))]);
      } else {
        PassFailed(v, w, e, ExecCall(v, call, a, s));
      }
    }
  }

  lemma PublishTrace(call: Call, s: Scope, u: Val, tr: seq<Act>)
    ensures Publish(call, s, u, tr).tr == tr
  {
  }

  lemma PassFailed(v: World, w: World, e1: Eff, e2: Eff)
    requires e1.st.Failed? && forall x | x in e1.tr :: !x.Gate?
    ensures Passes(v, w, e1, e2)
  {
  }

  lemma PassGate(v: World, w: World, call: Call, a: Addr, s: Scope, args: Scope)
    requires v.render == w.render && EvalArgs(w.render, s, call.args) == Some(args)
             && w.oracle(call, a, args) == Suspend
    requires Site(call.bind, a) !in w.memo && Site(call.bind, a) !in v.memo
    ensures Passes(v, w, ExecCall(w, call, a, s), ExecCall(v, call, a, s))
  {
    hide EvalArgs, JsonNum.Canonical;
    var site := Site(call.bind, a);
    var e, f := ExecCall(w, call, a, s), ExecCall(v, call, a, s);
    assert e.tr == [Get(site, None), Called(site, call, args), Gate(site)];
    assert Gate(site) in e.tr && Called(site, call, args) in e.tr;
    assert f.tr[1] == Called(site, call, args);
    if Answers(v, call, a, args) { assert f.tr[2] == Put(site, JsonNum.Canonical(v.oracle(call, a, args).res).value); }
  }

  lemma PassDecide(v: World, w: World, tag: Tag, cond: Expr, a: Addr, s: Scope)
    requires Continues(v, w, Decide(w, tag, cond, a, s).tr) && !Decide(w, tag, cond, a, s).verdict.Err?
    ensures Decide(v, tag, cond, a, s) == Decide(w, tag, cond, a, s)
  {
    var b := EvalExpr(w.render, s, cond);
    assert Ctl(CtlKey(tag, a), if b.value then 1 else 0, true) in Decide(w, tag, cond, a, s).tr;
  }

  lemma ContinuesPart(v: World, w: World, whole: seq<Act>, part: seq<Act>)
    requires Continues(v, w, whole) && forall x | x in part :: x in whole
    ensures Continues(v, w, part)
  {
  }

  /** Control records c on both sides, then a passing pair. */
  lemma PassAfter(v: World, w: World, c: seq<Act>, e1: Eff, e2: Eff)
    requires Passes(v, w, e1, e2) && forall x | x in c :: x.Ctl?
    ensures Passes(v, w, Prefix(c, e1), Prefix(c, e2))
  {
    PassShift(v, w, c, e1.tr, c, e2.tr);
  }

  lemma PassShift(v: World, w: World, c: seq<Act>, t1: seq<Act>, d: seq<Act>, t2: seq<Act>)
    requires GateShape(w, t1) && (forall site :: Gate(site) !in c)
             && forall site | Gate(site) in t1 :: Through(v, t1, t2, site)
    ensures GateShape(w, c + t1) && (forall site :: Gate(site) in c + t1 <==> Gate(site) in t1)
    ensures forall site | Gate(site) in c + t1 :: Through(v, c + t1, d + t2, site)
  {
    hide Answers;
    forall site | Gate(site) in c + t1 ensures Through(v, c + t1, d + t2, site) {
      assert Gate(site) in t1;
      ThroughMore(v, t1, t2, c + t1, d + t2, site);
    }
    forall site | Gate(site) in c + t1
      ensures site !in w.memo && exists call: Call, args: Scope ::
                                   call.bind == site.bind && Called(site, call, args) in c + t1
                                   && w.oracle(call, site.at, args) == Suspend
    {
      assert Gate(site) in t1;
      var call: Call, args: Scope :|
        call.bind == site.bind && Called(site, call, args) in t1 && w.oracle(call, site.at, args) == Suspend;
      assert Called(site, call, args) in c + t1;
    }
  }

  lemma ThroughMore(v: World, t1: seq<Act>, t2: seq<Act>, u1: seq<Act>, u2: seq<Act>, site: Site)
    requires Through(v, t1, t2, site) && (forall x | x in t1 :: x in u1) && (forall x | x in t2 :: x in u2)
    ensures Through(v, u1, u2, site)
  {
    hide Answers;
    var call: Call, args :|
      call.bind == site.bind && Called(site, call, args) in t1 && Called(site, call, args) in t2
      && (Answers(v, call, site.at, args) ==> PutIn(t2, site));
    assert Called(site, call, args) in u1 && Called(site, call, args) in u2;
    if PutIn(t2, site) { var u :| Put(site, u) in t2; }
  }

  /** A completed part, then a passing rest. */
  lemma PassThen(v: World, w: World, e1: Eff, e2: Eff, f1: Eff, f2: Eff)
    requires Passes(v, w, e1, e2) && e1.st.Running? && Passes(v, w, f1, f2)
    ensures Passes(v, w, Prefix(e1.tr, f1), Prefix(e2.tr, f2))
  {
    PassShift(v, w, e1.tr, f1.tr, e2.tr, f2.tr);
  }

  /** e1 stopped; whatever e2 does next keeps what it already put. */
  lemma PassStop(v: World, w: World, e1: Eff, e2: Eff, whole: Eff)
    requires Passes(v, w, e1, e2) && !e1.st.Running? && (!e2.st.Running? ==> whole == e2)
    requires e2.st.Running? ==> exists more: Eff :: whole == Prefix(e2.tr, more)
    ensures Passes(v, w, e1, whole)
  {
    hide Through;
    forall site | Gate(site) in e1.tr ensures Through(v, e1.tr, whole.tr, site) {
      if e2.st.Running? {
        var more: Eff :| whole == Prefix(e2.tr, more);
        ThroughMore(v, e1.tr, e2.tr, e1.tr, whole.tr, site);
      }
    }
  }

  lemma PassQuiet(v: World, w: World, e1: Eff, e2: Eff)
    requires (forall x | x in e1.tr :: x.Ctl?) && !e1.st.Suspended?
    requires e1.st.Failed? || (e2.st == e1.st && e2.scope == e1.scope)
    ensures Passes(v, w, e1, e2)
  {
  }

  lemma ContinuesSame(v: World, w: World, tr: seq<Act>)
    requires Continues(v, w, tr)
    ensures v.maxLoop == w.maxLoop && v.render == w.render
    ensures forall k, val :: Ctl(k, val, true) in tr && k in v.ctl ==> v.ctl[k] == val
  {
  }

  lemma {:induction false} PassExec(v: World, w: World, n: Node, p: seq<nat>, l: seq<nat>, s: Scope)
    requires Sequential(n) && Continues(v, w, Exec(w, n, p, l, s).tr)
    ensures Passes(v, w, Exec(w, n, p, l, s), Exec(v, n, p, l, s))
    decreases n, 2, 0
  {
    hide Passes, ExecCall, Iterate, ExecFrom, EvalCollection, EvalValue, EvalExpr, Continues;
    ContinuesSame(v, w, Exec(w, n, p, l, s).tr);
    var a := Addr(p, l);
    var e := Exec(w, n, p, l, s);
    match n
    case Invoke(call) => PassCall(v, w, call, a, s);
    case Let(_, _) => PassQuiet(v, w, e, Exec(v, n, p, l, s));
    case Return(_) => PassQuiet(v, w, e, Exec(v, n, p, l, s));
    case Branch(cond, thn, els) =>
      var c := Decide(w, Br, cond, a, s);
      if c.verdict.Err? {
        PassQuiet(v, w, e, Exec(v, n, p, l, s));
      } else {
        var arm, q := if c.verdict.Yes? then thn else els, if c.verdict.Yes? then p + [0] else p + [1];
        ContinuesPart(v, w, e.tr, c.tr);
        ContinuesPart(v, w, e.tr, ExecFrom(w, arm, 0, q, l, s).tr);
        PassDecide(v, w, Br, cond, a, s);
        PassExecFrom(v, w, arm, 0, q, l, s);
        PassAfter(v, w, c.tr, ExecFrom(w, arm, 0, q, l, s), ExecFrom(v, arm, 0, q, l, s));
      }
    case Loop(_, coll, _, _) =>
      var got := EvalCollection(w.render, s, coll);
      if got.None? || |got.value| > w.Cap() || Record(w, CtlKey(Lp, a), |got.value|).verdict.Err? {
        PassQuiet(v, w, e, Exec(v, n, p, l, s));
      } else {
        var c := Record(w, CtlKey(Lp, a), |got.value|);
        var it := Iterate(w, n, got.value, |got.value|, 0, p, l, s);
        assert Ctl(CtlKey(Lp, a), |got.value|, true) in e.tr;
        ContinuesPart(v, w, e.tr, it.tr);
        PassIterate(v, w, n, got.value, |got.value|, 0, p, l, s);
        PassAfter(v, w, c.tr, it, Iterate(v, n, got.value, |got.value|, 0, p, l, s));
      }
    case While(_, limit, _) => PassIterate(v, w, n, [], w.Bound(limit), 0, p, l, s);
    case Retry(_, limit, _) => PassIterate(v, w, n, [], w.Bound(limit), 0, p, l, s);
  }

  lemma {:induction false} PassExecFrom(v: World, w: World, ns: seq<Node>, i: nat, p: seq<nat>, l: seq<nat>, s: Scope)
    requires i <= |ns| && SequentialAll(ns) && Continues(v, w, ExecFrom(w, ns, i, p, l, s).tr)
    ensures Passes(v, w, ExecFrom(w, ns, i, p, l, s), ExecFrom(v, ns, i, p, l, s))
    decreases ns, 0, |ns| - i
  {
    hide Passes, Exec;
    var whole := ExecFrom(w, ns, i, p, l, s);
    if i == |ns| {
      PassQuiet(v, w, whole, ExecFrom(v, ns, i, p, l, s));
    } else {
      var e, f := Exec(w, ns[i], p + [i], l, s), Exec(v, ns[i], p + [i], l, s);
      ContinuesPart(v, w, whole.tr, e.tr);
      PassExec(v, w, ns[i], p + [i], l, s);
      if e.st.Running? {
        ContinuesPart(v, w, whole.tr, ExecFrom(w, ns, i + 1, p, l, e.scope).tr);
        PassExecFrom(v, w, ns, i + 1, p, l, e.scope);
        PassSame(v, w, e, f);
        PassThen(v, w, e, f, ExecFrom(w, ns, i + 1, p, l, e.scope), ExecFrom(v, ns, i + 1, p, l, e.scope));
      } else {
        PassStop(v, w, e, f, ExecFrom(v, ns, i, p, l, s));
      }
    }
  }

  lemma PassSame(v: World, w: World, e1: Eff, e2: Eff)
    requires Passes(v, w, e1, e2) && e1.st.Running?
    ensures e2.st.Running? && e2.scope == e1.scope
  {
  }

  lemma {:induction false} PassIterate(v: World, w: World, n: Node, items: seq<Val>, max: nat, i: nat, p: seq<nat>,
      l: seq<nat>, s: Scope)
    requires IsLoop(n) && Sequential(n) && i <= max && (n.Loop? ==> max == |items|)
    requires Continues(v, w, Iterate(w, n, items, max, i, p, l, s).tr)
    ensures Passes(v, w, Iterate(w, n, items, max, i, p, l, s), Iterate(v, n, items, max, i, p, l, s))
    decreases n, 1, max - i
  {
    hide Passes, ExecFrom, Continues;
    var whole := Iterate(w, n, items, max, i, p, l, s);
    if i == max {
      PassQuiet(v, w, whole, Iterate(v, n, items, max, i, p, l, s));
    } else {
      var b := Before(w, n, i, p, l, s);
      if b.verdict.Yes? {
        PassIteration(v, w, n, items, max, i, p, l, s);
      } else {
        if b.verdict.No? { PassDecide(v, w, Wh, n.cond, Addr(p, l + [i]), s); }
        PassQuiet(v, w, whole, Iterate(v, n, items, max, i, p, l, s));
      }
    }
  }

  lemma {:induction false} PassIteration(v: World, w: World, n: Node, items: seq<Val>, max: nat, i: nat, p: seq<nat>,
      l: seq<nat>, s: Scope)
    requires IsLoop(n) && Sequential(n) && i < max && (n.Loop? ==> max == |items|)
             && Before(w, n, i, p, l, s).verdict.Yes?
    requires Continues(v, w, Iterate(w, n, items, max, i, p, l, s).tr)
    ensures Passes(v, w, Iterate(w, n, items, max, i, p, l, s), Iterate(v, n, items, max, i, p, l, s))
    decreases n, 1, max - i, 0
  {
    hide Passes, ExecFrom, Continues, Iterate, Decide;
    var whole := Iterate(w, n, items, max, i, p, l, s);
    var t, u := Split(w, n, items, max, i, p, l, s), Split(v, n, items, max, i, p, l, s);
    SplitWhole(w, n, items, max, i, p, l, s);
    ContinuesPart(v, w, whole.tr, t.before.tr);
    ContinuesPart(v, w, whole.tr, t.body.tr);
    ContinuesPart(v, w, whole.tr, t.after.tr);
    ContinuesPart(v, w, whole.tr, t.rest.tr);
    if n.While? { PassDecide(v, w, Wh, n.cond, Addr(p, l + [i]), s); }
    CheckTraces(w, n, i, p, l, s, t.body.scope);
    SplitWhole(v, n, items, max, i, p, l, s);
    PassExecFrom(v, w, n.body, 0, p, l + [i], IterScope(n, items, i, s));
    PassAfter(v, w, t.before.tr, t.body, u.body);
    var e1, e2 := Prefix(t.before.tr, t.body), Prefix(t.before.tr, u.body);
    if t.body.st.Running? {
      PassSame(v, w, e1, e2);
      if t.after.verdict.Err? {
        PassQuiet(v, w, t.rest, u.rest);
        PassQuiet(v, w, Prefix(t.after.tr, t.rest), Prefix(u.after.tr, u.rest));
      } else {
        if n.Retry? { PassDecide(v, w, Rt, n.cond, Addr(p, l + [i]), t.body.scope); }
        if t.after.verdict.No? {
          PassIterate(v, w, n, items, max, i + 1, p, l, t.body.scope);
        } else {
          PassQuiet(v, w, t.rest, u.rest);
        }
        PassAfter(v, w, t.after.tr, t.rest, u.rest);
      }
      PassThen(v, w, e1, e2, Prefix(t.after.tr, t.rest), Prefix(u.after.tr, u.rest));
    } else {
      StopEarly(w, n, items, max, i, p, l, s);
      if !u.body.st.Running? { StopEarly(v, n, items, max, i, p, l, s); }
      PassStop(v, w, e1, e2, Iterate(v, n, items, max, i, p, l, s));
    }
  }

  lemma CheckTraces(w: World, n: Node, i: nat, p: seq<nat>, l: seq<nat>, s: Scope, s': Scope)
    requires IsLoop(n)
    ensures forall x | x in Before(w, n, i, p, l, s).tr + After(w, n, i, p, l, s').tr :: x.Ctl?
    ensures forall x | x in Before(w, n, i, p, l, s).tr :: x.Ctl?
    ensures forall x | x in After(w, n, i, p, l, s').tr :: x.Ctl?
  {
  }

  // ----- whole lifetimes

  /** The invoker of a resume that approves gate g only: other gated leaves still pause. */
  function Approve(z: World, gated: Site -> bool, g: Option<Site>): Oracle {
    (c: Call, a: Addr, x: Scope) => if gated(Site(c.bind, a))
    && Some(Site(c.bind, a)) != g then Suspend else z.oracle(c, a, x)
  }

  /** Attempt 0 approves nothing; attempt k + 1 approves the gate attempt k stopped at. */
  ghost predicate OneGateAtATime(z: World, gated: Site -> bool, prog: Program, input: Val, ats: seq<Attempt>,
      gates: seq<Site>) {
    && |gates| == |ats|
    && forall k | 0 <= k < |ats| ::
         && ats[k].oracle == Approve(z, gated, if k == 0 then None else Some(gates[k - 1]))
         && AttemptRun(z, prog, input, ats, k).st.Suspended?
         && Gate(gates[k]) in AttemptRun(z, prog, input, ats, k).tr
  }

  /** The uninterrupted invoker never pauses, and every approved gate dispatches successfully. */
  ghost predicate Dispatches(z: World, gated: Site -> bool) {
    && (forall c, a, x :: z.oracle(c, a, x) != Suspend)
    && (forall c: Call, a, x :: gated(Site(c.bind, a)) ==> Answers(z, c, a, x))
  }

  /** The gated leaves the uninterrupted run calls. */
  ghost function GatedSites(gated: Site -> bool, tr: seq<Act>): set<Site> {
    set x | x in tr && x.Called? && gated(x.site) :: x.site
  }

  lemma AttemptConsistent(z: World, gated: Site -> bool, prog: Program, input: Val, ats: seq<Attempt>, gates: seq<Site>)
    requires OneGateAtATime(z, gated, prog, input, ats, gates)
    ensures Consistent(z, ats)
  {
    forall k | 0 <= k < |ats| ensures Resumes(WorldOf(z, ats[k], map[], map[]), z) {
      var g := if k == 0 then None else Some(gates[k - 1]);
      forall c, a, x ensures ats[k].oracle(c, a, x) == z.oracle(c, a, x) || ats[k].oracle(c, a, x) == Suspend {
        assert ats[k].oracle(c, a, x) == Approve(z, gated, g)(c, a, x);
      }
    }
  }

  function AttemptWorld(z: World, prog: Program, input: Val, ats: seq<Attempt>, k: nat): World
    requires k < |ats|
  {
    var d := StateAfter(z, prog, input, ats[..k]);
    WorldOf(z, ats[k], d.memo, d.ctl)
  }

  /** Some world continues any trace: the resumed one, or, for its shape alone, this one. */
  function Onward(w: World, tr: seq<Act>): World {
    w.(memo := map k | k in MemoAfter(w.memo, tr) && Gate(k) !in tr :: MemoAfter(w.memo, tr)[k],
       ctl := ControlAfter(w.ctl, tr),
       oracle := (c: Call, a: Addr, x: Scope) => Ok(Null))
  }

  lemma OnwardContinues(w: World, prog: Program, input: Val)
    ensures var tr := Run(w, prog, input).tr; Continues(Onward(w, tr), w, tr)
  {
    var tr := Run(w, prog, input).tr;
    var v := Onward(w, tr);
    RunOnce(w, prog, input);
    Interleaving.ExecFromSees(w, prog.body, 0, [], [], ParamScope(prog.params, input));
    forall x | x in tr
      ensures match x
              case Get(site, Some(u)) => site in v.memo && v.memo[site] == u
              case Put(site, u) => site in v.memo && v.memo[site] == u
              case Ctl(k, val, true) => k in v.ctl ==> v.ctl[k] == val
              case Gate(site) => site !in v.memo
              case _ => true
    {
      match x
      case Get(site, Some(u)) =>
        assert Interleaving.SeesSeed(x, w.memo, w.ctl);
        MemoAfterIs(w.memo, tr, site);
        if Gate(site) in tr { Unclashed(tr, x, Gate(site)); assert false; }
        if u' :| Put(site, u') in tr { Unclashed(tr, x, Put(site, u')); assert false; }
      case Put(site, u) =>
        MemoAfterIs(w.memo, tr, site);
        if Gate(site) in tr { Unclashed(tr, x, Gate(site)); assert false; }
      case Ctl(k, val, true) => ControlAfterIs(w.ctl, tr, k);
      case _ =>
    }
  }

  /** The one gate a suspended sequential run stopped at, and what its trace says about it. */
  lemma GateOf(w: World, prog: Program, input: Val, g: Site)
    requires SequentialAll(prog.body) && Gate(g) in Run(w, prog, input).tr
    ensures GateShape(w, Run(w, prog, input).tr)
    ensures forall h | Gate(h) in Run(w, prog, input).tr :: h == g
  {
    var tr := Run(w, prog, input).tr;
    OnwardContinues(w, prog, input);
    PassExecFrom(Onward(w, tr), w, prog.body, 0, [], [], ParamScope(prog.params, input));
  }

  /** A run seeded with all that an earlier one recorded goes on from its trace. */
  lemma ResumeContinues(w: World, v: World, prog: Program, input: Val)
    requires v.maxLoop == w.maxLoop && v.render == w.render
    requires v.memo == MemoAfter(w.memo, Run(w, prog, input).tr) && v.ctl == ControlAfter(w.ctl, Run(w, prog, input).tr)
    ensures Continues(v, w, Run(w, prog, input).tr)
  {
    hide Run, MemoAfter, ControlAfter;
    var tr := Run(w, prog, input).tr;
    var o := Onward(w, tr);
    RunOnce(w, prog, input);
    OnwardContinues(w, prog, input);
    forall site | Gate(site) in tr ensures site !in v.memo {
      var call, args := Accounting.GateWasCalled(w, prog, input, site);
      MemoAfterIs(w.memo, tr, site);
      if u :| Put(site, u) in tr { Unclashed(tr, Put(site, u), Gate(site)); assert false; }
    }
    assert forall site | site in o.memo :: site in v.memo && v.memo[site] == o.memo[site];
  }

  /** A resume of a suspended sequential run reaches the gate it stopped at: it makes the same
      call there, and gets past it if the invoker now answers. */
  lemma ResumeReachesGate(w: World, v: World, prog: Program, input: Val, g: Site)
    requires SequentialAll(prog.body) && Gate(g) in Run(w, prog, input).tr
    requires v.maxLoop == w.maxLoop && v.render == w.render
    requires v.memo == MemoAfter(w.memo, Run(w, prog, input).tr) && v.ctl == ControlAfter(w.ctl, Run(w, prog, input).tr)
    ensures Through(v, Run(w, prog, input).tr, Run(v, prog, input).tr, g)
  {
    hide Continues, MemoAfter, ControlAfter, ExecFrom;
    ResumeContinues(w, v, prog, input);
    PassExecFrom(v, w, prog.body, 0, [], [], ParamScope(prog.params, input));
  }

  /** Attempt k + 1 memoises the gate attempt k stopped at. */
  lemma GateIsPassed(z: World, gated: Site -> bool, prog: Program, input: Val, ats: seq<Attempt>, gates: seq<Site>,
      k: nat)
    requires Fresh(z) && NodesOk(prog.body) && SequentialAll(prog.body) && Dispatches(z, gated)
    requires OneGateAtATime(z, gated, prog, input, ats, gates) && k + 1 < |ats|
    ensures PutIn(AttemptRun(z, prog, input, ats, k + 1).tr, gates[k])
  {
    var w, v := AttemptWorld(z, prog, input, ats, k), AttemptWorld(z, prog, input, ats, k + 1);
    assert ats[..k + 1][..k] == ats[..k] && ats[..k + 1][k] == ats[k];
    var so := ats[..k + 1];
    assert |so| == k + 1 && AttemptRun(z, prog, input, so, k) == Run(w, prog, input);
    assert StateAfter(z, prog, input, so) ==
        Durable(MemoAfter(w.memo, Run(w, prog, input).tr), ControlAfter(w.ctl, Run(w, prog, input).tr));
    GateSite(z, gated, prog, input, ats, gates, k);
    forall c: Call, x | c.bind == gates[k].bind ensures Answers(v, c, gates[k].at, x) {
      assert Site(c.bind, gates[k].at) == gates[k];
      assert v.oracle(c, gates[k].at, x) == Approve(z, gated, Some(gates[k]))(c, gates[k].at, x) ==
          z.oracle(c, gates[k].at, x);
      assert Answers(z, c, gates[k].at, x);
    }
    ResumeReachesGate(w, v, prog, input, gates[k]);
    var call: Call, args :|
      call.bind == gates[k].bind && (Answers(v, call, gates[k].at, args) ==> PutIn(Run(v, prog, input).tr, gates[k]));
  }

  /** Where attempt k stopped: a gated leaf of the uninterrupted run, not memoised yet and not
      the one this attempt approved. */
  lemma GateSite(z: World, gated: Site -> bool, prog: Program, input: Val, ats: seq<Attempt>, gates: seq<Site>, k: nat)
    requires Fresh(z) && NodesOk(prog.body) && SequentialAll(prog.body) && Dispatches(z, gated)
    requires OneGateAtATime(z, gated, prog, input, ats, gates) && k < |ats|
    ensures gates[k] !in AttemptWorld(z, prog, input, ats, k).memo
    ensures gated(gates[k]) && gates[k] in GatedSites(gated, Run(z, prog, input).tr)
    ensures k > 0 ==> gates[k] != gates[k - 1]
  {
    var g := gates[k];
    var w := AttemptWorld(z, prog, input, ats, k);
    var e := Run(w, prog, input);
    assert e == AttemptRun(z, prog, input, ats, k);
    AttemptConsistent(z, gated, prog, input, ats, gates);
    LifetimeTransparency(z, prog, input, ats, k);
    GateOf(w, prog, input, g);
    assert GateShape(w, e.tr);
    var call: Call, args: Scope :|
      call.bind == g.bind && Called(g, call, args) in e.tr && w.oracle(call, g.at, args) == Suspend;
    assert Site(call.bind, g.at) == g;
    assert w.oracle(call, g.at, args) ==
        Approve(z, gated, if k == 0 then None else Some(gates[k - 1]))(call, g.at, args);
    assert Called(g, call, args) in Run(z, prog, input).tr;
  }

  lemma GatesDiffer(z: World, gated: Site -> bool, prog: Program, input: Val, ats: seq<Attempt>, gates: seq<Site>,
      j: nat, k: nat)
    requires Fresh(z) && NodesOk(prog.body) && SequentialAll(prog.body) && Dispatches(z, gated)
    requires OneGateAtATime(z, gated, prog, input, ats, gates) && j < k < |ats|
    ensures gates[j] != gates[k]
  {
    assert |gates| == |ats|;
    hide Fresh, NodesOk, SequentialAll, Dispatches, OneGateAtATime, Run, MemoAfter, ControlAfter, Once, Consistent;
    GateSite(z, gated, prog, input, ats, gates, k);
    if j + 1 < k {
      GateIsPassed(z, gated, prog, input, ats, gates, j);
      var v := AttemptWorld(z, prog, input, ats, j + 1);
      assert ats[..j + 2][..j + 1] == ats[..j + 1] && ats[..j + 2][j + 1] == ats[j + 1];
      RunOnce(v, prog, input);
      MemoAfterIs(v.memo, Run(v, prog, input).tr, gates[j]);
      assert gates[j] in StateAfter(z, prog, input, ats[..j + 2]).memo;
      MemoOnlyGrows(z, prog, input, ats, j + 2, k, gates[j]);
    }
  }

  lemma {:induction false} DistinctFit<T>(xs: seq<T>, s: set<T>)
    requires (forall i | 0 <= i < |xs| :: xs[i] in s) && forall i, j :: 0 <= i < j < |xs| ==> xs[i] != xs[j]
    ensures |xs| <= |s|
    decreases |xs|
  {
    if xs != [] {
      var n := |xs| - 1;
      forall i | 0 <= i < |xs[..n]| ensures xs[..n][i] in s - {xs[n]} { assert xs[..n][i] == xs[i]; }
      DistinctFit(xs[..n], s - {xs[n]});
    }
  }

  /** A sequential run with g gated leaves, each approved one resume at a time and dispatched
      successfully, suspends at most g times: it finishes after at most g resumes. */
  lemma FinishesAfterAsManyResumesAsGates(z: World, gated: Site -> bool, prog: Program, input: Val, ats: seq<Attempt>,
      gates: seq<Site>)
    requires Fresh(z) && NodesOk(prog.body) && SequentialAll(prog.body) && Dispatches(z, gated)
    requires OneGateAtATime(z, gated, prog, input, ats, gates)
    ensures |ats| <= |GatedSites(gated, Run(z, prog, input).tr)|
  {
    forall k | 0 <= k < |gates| ensures gates[k] in GatedSites(gated, Run(z, prog, input).tr) {
      GateSite(z, gated, prog, input, ats, gates, k);
    }
    forall j, k | 0 <= j < k < |gates| ensures gates[j] != gates[k] {
      GatesDiffer(z, gated, prog, input, ats, gates, j, k);
    }
    DistinctFit(gates, GatedSites(gated, Run(z, prog, input).tr));
  }
}
