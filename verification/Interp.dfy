/** The durable interpreter (internal/execir/interp.go) as a function of its inputs.

    A `World` fixes everything a run does not decide itself: the invoker's answers, the
    seeded memo and control record, and the scheduler's choices. `Exec` gives the outcome of
    one node together with the trace of session operations it performs, in the order the
    chosen interleaving performs them. Memo and control look-ups are answered from the seed;
    `Interleaving` and `Runner` prove that the live, shared session gives the same answers. */
module Interp {
  import opened Values
  import opened ExecIR
  import opened Eval
  import opened GraphOrder
  import JsonNum

  /** Static position and enclosing loop iterations of one dynamic node. */
  datatype Addr = Addr(path: seq<nat>, loop: seq<nat>)

  datatype Site = Site(bind: string, at: Addr)

  datatype Tag = Br | Lp | Wh | Rt

  datatype CtlKey = CtlKey(tag: Tag, at: Addr)

  type Memo = map<Site, Val>

  type Control = map<CtlKey, int>

  datatype Error =
    | EvalError
    | CollectionTooLong
    | Diverged
    | RetryExhausted(limit: int)
    | NoRunnableStep
    | NotCheckpointable
    | BadEnvelope
    | Cancelled
    | CallFailed(code: int)

  /** What an invoker answers: a result, "now waiting on a human", or an error. */
  datatype Outcome = Ok(res: Val) | Suspend | Fail(e: Error)

  /** One atomic session operation or invoker call. */
  datatype Act =
    | Get(site: Site, hit: Option<Val>)
    | Called(site: Site, call: Call, args: Scope)
    | Put(site: Site, v: Val)
    | Ctl(key: CtlKey, val: int, ok: bool)
    | Gate(site: Site)

  datatype Status = Running | Returned(v: Val) | Suspended | Failed(e: Error)

  datatype Eff = Eff(scope: Scope, st: Status, tr: seq<Act>)

  type Oracle = (Call, Addr, Scope) -> Outcome

  /** `halt(a)` resolves the only timing-dependent reads: at the join of the concurrent
      construct at `a` the session is already suspended by another branch, or the graph
      step at `a` is not started because a sibling suspended first, or the graph at `a`
      paused before one of its steps was cancelled. `merge` picks the interleaving of
      concurrent branches. */
  datatype World = World(
    maxLoop: int,
    render: Render,
    oracle: Oracle,
    memo: Memo,
    ctl: Control,
    halt: Addr -> bool,
    merge: Addr -> seq<bool>)
  {
    function Cap(): (c: nat)
      ensures c > 0
    {
      if maxLoop > 0 then maxLoop else 1000
    }

    /** min(limit, cap), where a non-positive limit means "no limit of its own". */
    function Bound(limit: int): nat {
      if 0 < limit < Cap() then limit else Cap()
    }
  }

  function Prefix(tr: seq<Act>, e: Eff): Eff {
    Eff(e.scope, e.st, tr + e.tr)
  }

  function BindTo(s: Scope, name: string, v: Val): Scope {
    if name == "" then s else s[name := v]
  }

  // ----- leaves

  /** Binding a leaf's (possibly replayed) result, with the subworkflow value projection. */
  function Publish(call: Call, s: Scope, v: Val, tr: seq<Act>): Eff {
    if call.Workflow? && call.project && call.bind != "" then
      if v.Obj? then Eff(s[call.bind := if "value" in v.m then v.m["value"] else Null], Running, tr)
      else Eff(s[call.bind := v], Failed(BadEnvelope), tr)
    else Eff(BindTo(s, call.bind, v), Running, tr)
  }

  function ExecCall(w: World, call: Call, a: Addr, s: Scope): Eff {
    var site := Site(call.bind, a);
    if site in w.memo then Publish(call, s, w.memo[site], [Get(site, Some(w.memo[site]))])
    else
      var missed := [Get(site, None)];
      match EvalArgs(w.render, s, call.args)
      case None => Eff(s, Failed(EvalError), missed)
      case Some(args) =>
        var called := missed + [Called(site, call, args)];
        match w.oracle(call, a, args)
        case Suspend => Eff(s, Suspended, called + [Gate(site)])
        case Fail(e) => Eff(s, Failed(e), called)
        case Ok(raw) =>
          match JsonNum.Canonical(raw)
          case None => Eff(s, Failed(NotCheckpointable), called)
          case Some(v) => Publish(call, s, v, called + [Put(site, v)])
  }

  // ----- control decisions

  datatype Verdict = Yes | No | Err(e: Error)

  datatype Check = Check(tr: seq<Act>, verdict: Verdict)

  /** checkControl: a decision that contradicts the seeded record is a divergence. */
  function Record(w: World, k: CtlKey, val: int): Check {
    if k in w.ctl && w.ctl[k] != val then Check([Ctl(k, val, false)], Err(Diverged))
    else Check([Ctl(k, val, true)], Yes)
  }

  function Decide(w: World, tag: Tag, cond: Expr, a: Addr, s: Scope): Check {
    match EvalExpr(w.render, s, cond)
    case None => Check([], Err(EvalError))
    case Some(b) =>
      var c := Record(w, CtlKey(tag, a), if b then 1 else 0);
      if c.verdict.Err? then c else Check(c.tr, if b then Yes else No)
  }

  // ----- nodes

  function Exec(w: World, n: Node, p: seq<nat>, l: seq<nat>, s: Scope): Eff
    decreases n, 2, 0
  {
    var a := Addr(p, l);
    match n
    case Invoke(call) => ExecCall(w, call, a, s)
    case Let(name, value) =>
      (match EvalValue(w.render, s, value)
       case None => Eff(s, Failed(EvalError), [])
       case Some(v) => Eff(BindTo(s, name, v), Running, []))
    case Return(value) =>
      (match EvalValue(w.render, s, value)
       case None => Eff(s, Failed(EvalError), [])
       case Some(v) => Eff(s, Returned(v), []))
    case Branch(cond, thn, els) =>
      var c := Decide(w, Br, cond, a, s);
      (match c.verdict
       case Err(e) => Eff(s, Failed(e), c.tr)
       case Yes => Prefix(c.tr, ExecFrom(w, thn, 0, p + [0], l, s))
       case No => Prefix(c.tr, ExecFrom(w, els, 0, p + [1], l, s)))
    case Fork(_) => Join(w, a, s, Threads(w, n, [], 0, p, l, s))
    case Loop(_, coll, _, par) =>
      (match EvalCollection(w.render, s, coll)
       case None => Eff(s, Failed(EvalError), [])
       case Some(items) =>
         if |items| > w.Cap() then Eff(s, Failed(CollectionTooLong), [])
         else
           var c := Record(w, CtlKey(Lp, a), |items|);
           if c.verdict.Err? then Eff(s, Failed(c.verdict.e), c.tr)
           else if par then Prefix(c.tr, Join(w, a, s, Threads(w, n, items, 0, p, l, s)))
           else Prefix(c.tr, Iterate(w, n, items, |items|, 0, p, l, s)))
    case While(_, limit, _) => Iterate(w, n, [], w.Bound(limit), 0, p, l, s)
    case Retry(_, limit, _) => Iterate(w, n, [], w.Bound(limit), 0, p, l, s)
    case Graph(nodes) => ExecGraph(w, Sorted(nodes), p, l, s)
  }

  /** execAll from child i on; child i lives at path p + [i]. */
  function ExecFrom(w: World, ns: seq<Node>, i: nat, p: seq<nat>, l: seq<nat>, s: Scope): Eff
    requires i <= |ns|
    decreases ns, 0, |ns| - i
  {
    if i == |ns| then Eff(s, Running, [])
    else
      var e := Exec(w, ns[i], p + [i], l, s);
      if e.st.Running? then Prefix(e.tr, ExecFrom(w, ns, i + 1, p, l, e.scope)) else e
  }

  predicate IsLoop(n: Node) {
    (n.Loop? && !n.par) || n.While? || n.Retry?
  }

  /** What happens before the body of iteration i: bind the loop variable, or test a while condition. */
  function Before(w: World, n: Node, i: nat, p: seq<nat>, l: seq<nat>, s: Scope): Check
    requires IsLoop(n)
  {
    if n.While? then Decide(w, Wh, n.cond, Addr(p, l + [i]), s) else Check([], Yes)
  }

  /** What happens after it: a retry tests its success condition; Yes ends the loop. */
  function After(w: World, n: Node, i: nat, p: seq<nat>, l: seq<nat>, s: Scope): Check
    requires IsLoop(n)
  {
    if n.Retry? then Decide(w, Rt, n.cond, Addr(p, l + [i]), s) else Check([], No)
  }

  function IterScope(n: Node, items: seq<Val>, i: nat, s: Scope): Scope
    requires n.Loop? ==> i < |items|
  {
    if n.Loop? then s[n.vr := items[i]] else s
  }

  function Iterate(w: World, n: Node, items: seq<Val>, max: nat, i: nat, p: seq<nat>, l: seq<nat>, s: Scope): Eff
    requires IsLoop(n) && i <= max && (n.Loop? ==> max == |items|)
    decreases n, 1, max - i
  {
    if i == max then Eff(s, if n.Retry? then Failed(RetryExhausted(n.limit)) else Running, [])
    else
      var b := Before(w, n, i, p, l, s);
      match b.verdict
      case Err(e) => Eff(s, Failed(e), b.tr)
      case No => Eff(s, Running, b.tr)
      case Yes =>
        var e := Prefix(b.tr, ExecFrom(w, n.body, 0, p, l + [i], IterScope(n, items, i, s)));
        if !e.st.Running? then e
        else
          var c := After(w, n, i, p, l, e.scope);
          match c.verdict
          case Err(x) => Eff(e.scope, Failed(x), e.tr + c.tr)
          case Yes => Eff(e.scope, Running, e.tr + c.tr)
          case No => Prefix(e.tr + c.tr, Iterate(w, n, items, max, i + 1, p, l, e.scope))
  }

  /** Iteration i split at its seams: before, body, after, and what follows. */
  datatype Iteration = Iteration(before: Check, body: Eff, after: Check, rest: Eff)

  function Split(w: World, n: Node, items: seq<Val>, max: nat, i: nat, p: seq<nat>, l: seq<nat>, s: Scope): Iteration
    requires IsLoop(n) && i < max && (n.Loop? ==> max == |items|)
  {
    var f := ExecFrom(w, n.body, 0, p, l + [i], IterScope(n, items, i, s));
    var c := if f.st.Running? then After(w, n, i, p, l, f.scope) else Check([], Yes);
    var rest :=
      if c.verdict.No? then Iterate(w, n, items, max, i + 1, p, l, f.scope)
      else Eff(f.scope, if c.verdict.Err? then Failed(c.verdict.e) else if f.st.Running? then Running else f.st, []);
    Iteration(Before(w, n, i, p, l, s), f, c, rest)
  }

  lemma SplitWhole(w: World, n: Node, items: seq<Val>, max: nat, i: nat, p: seq<nat>, l: seq<nat>, s: Scope)
    requires IsLoop(n) && i < max && (n.Loop? ==> max == |items|) && Before(w, n, i, p, l, s).verdict.Yes?
    ensures var t := Split(w, n, items, max, i, p, l, s);
            Iterate(w, n, items, max, i, p, l, s) == Prefix(t.before.tr + t.body.tr, Prefix(t.after.tr, t.rest))
  {
    var t := Split(w, n, items, max, i, p, l, s);
    assert (t.before.tr + t.body.tr) + t.after.tr + t.rest.tr == (t.before.tr + t.body.tr) + (t.after.tr + t.rest.tr);
  }

  lemma StopEarly(w: World, n: Node, items: seq<Val>, max: nat, i: nat, p: seq<nat>, l: seq<nat>, s: Scope)
    requires IsLoop(n) && i < max && (n.Loop? ==> max == |items|) && Before(w, n, i, p, l, s).verdict.Yes?
    requires !Split(w, n, items, max, i, p, l, s).body.st.Running?
    ensures var t := Split(w, n, items, max, i, p, l, s);
            Iterate(w, n, items, max, i, p, l, s) == Prefix(t.before.tr, t.body)
  {
  }

  // ----- concurrent constructs

  /** Joined result of concurrent threads: first genuine error in branch order, whether a
      branch suspended, the bindings to publish, and the interleaved trace. */
  datatype Par = Par(err: Option<Error>, susp: bool, pub: Scope, tr: seq<Act>)

  predicate IsParallel(n: Node) {
    n.Fork? || (n.Loop? && n.par)
  }

  function Width(n: Node, items: seq<Val>): nat
    requires IsParallel(n)
  {
    if n.Fork? then |n.branches| else |items|
  }

  function ThreadNodes(n: Node, i: nat): seq<Node>
    requires IsParallel(n) && (n.Fork? ==> i < |n.branches|)
  {
    if n.Fork? then n.branches[i].nodes else n.body
  }

  function ThreadAddr(n: Node, i: nat, p: seq<nat>, l: seq<nat>): Addr
    requires IsParallel(n)
  {
    if n.Fork? then Addr(p + [i], l) else Addr(p, l + [i])
  }

  function ThreadScope(n: Node, items: seq<Val>, i: nat, s: Scope): Scope
    requires IsParallel(n) && i < Width(n, items)
  {
    if n.Fork? then s else s[n.vr := items[i]]
  }

  function ThreadPub(n: Node, i: nat, e: Eff): Scope
    requires IsParallel(n) && (n.Fork? ==> i < |n.branches|)
  {
    if n.Fork? && (e.st.Running? || e.st.Returned?) && n.branches[i].bind != "" && n.branches[i].bind in e.scope
    then map[n.branches[i].bind := e.scope[n.branches[i].bind]]
    else map[]
  }

  /** Thread i, finished with e, joined to the later threads r. */
  function AddThread(n: Node, i: nat, e: Eff, r: Par, bits: seq<bool>): Par
    requires IsParallel(n) && (n.Fork? ==> i < |n.branches|)
  {
    Par(
      if e.st.Failed? && e.st.e != Cancelled then Some(e.st.e) else r.err,
      e.st.Suspended? || r.susp,
      ThreadPub(n, i, e) + r.pub,
      Shuffle(e.tr, r.tr, bits))
  }

  /** Threads i, i+1, ... of a Fork or parallel Loop, each on its own copy of the scope. */
  function Threads(w: World, n: Node, items: seq<Val>, i: nat, p: seq<nat>, l: seq<nat>, s: Scope): Par
    requires IsParallel(n) && i <= Width(n, items)
    decreases n, 1, Width(n, items) - i
  {
    if i == Width(n, items) then Par(None, false, map[], [])
    else
      var a := ThreadAddr(n, i, p, l);
      var e := ExecFrom(w, ThreadNodes(n, i), 0, a.path, a.loop, ThreadScope(n, items, i, s));
      AddThread(n, i, e, Threads(w, n, items, i + 1, p, l, s), w.merge(a))
  }

  /** classifyConcurrent, then publication into the parent scope. */
  function Join(w: World, a: Addr, s: Scope, t: Par): Eff {
    if t.err.Some? then Eff(s, Failed(t.err.value), t.tr)
    else if t.susp || w.halt(a) then Eff(s, Suspended, t.tr)
    else Eff(s + t.pub, Running, t.tr)
  }

  /** An interleaving of two traces: true takes the next action of x. */
  function Shuffle(x: seq<Act>, y: seq<Act>, bits: seq<bool>): (z: seq<Act>)
    ensures |z| == |x| + |y|
    decreases |x| + |y|
  {
    if x == [] then y
    else if y == [] then x
    else if bits != [] && !bits[0] then [y[0]] + Shuffle(x, y[1..], bits[1..])
    else [x[0]] + Shuffle(x[1..], y, if bits == [] then [] else bits[1..])
  }

  /** Joined result of graph steps: a genuine error, whether a step was cut short by a
      cancellation, whether one paused, and what completed. */
  datatype GraphRun = GraphRun(err: Option<Error>, cut: bool, susp: bool, scope: Scope, done: set<string>, tr: seq<Act>)

  /** A step that ran with effect e, joined to the steps after it. */
  function AddStep(e: Eff, r: GraphRun, bits: seq<bool>): GraphRun {
    r.(err := if e.st.Failed? && e.st.e != Cancelled then Some(e.st.e) else r.err,
       cut := e.st == Failed(Cancelled) || r.cut,
       susp := e.st.Suspended? || r.susp,
       tr := Shuffle(e.tr, r.tr, bits))
  }

  function StepScope(id: string, s: Scope, e: Eff): Scope {
    if e.st.Running? && id != "" && id in e.scope then s[id := e.scope[id]] else s
  }

  function StepDone(id: string, done: set<string>, e: Eff): set<string> {
    if e.st.Running? then done + {id} else done
  }

  /** Graph steps in the given order; a step runs when its needs completed. */
  function Steps(w: World, gs: seq<GraphNode>, order: seq<nat>, p: seq<nat>, l: seq<nat>, s: Scope,
      done: set<string>): GraphRun
    requires forall k | 0 <= k < |order| :: order[k] < |gs|
    decreases |order|
  {
    if order == [] then GraphRun(None, false, false, s, done, [])
    else
      var i := order[0];
      var a := Addr(p + [i], l);
      if !(forall d | d in gs[i].needs :: d in done) then Steps(w, gs, order[1..], p, l, s, done)
      else if w.halt(a) then Steps(w, gs, order[1..], p, l, s, done).(susp := true)
      else
        var e := ExecCall(w, gs[i].run, a, s);
        AddStep(e, Steps(w, gs, order[1..], p, l, StepScope(gs[i].id, s, e), StepDone(gs[i].id, done, e)), w.merge(a))
  }

  /** A cancelled step is dropped when a sibling paused before it, else it fails the graph;
      a genuine error wins over a pause. */
  function ExecGraph(w: World, gs: seq<GraphNode>, p: seq<nat>, l: seq<nat>, s: Scope): Eff {
    var r := Steps(w, gs, Topo(gs, {}), p, l, s, {});
    if r.err.Some? then Eff(s, Failed(r.err.value), r.tr)
    else if r.cut && !(r.susp && w.halt(Addr(p, l))) then Eff(s, Failed(Cancelled), r.tr)
    else if r.susp then Eff(s, Suspended, r.tr)
    else if |r.done| == |gs| then Eff(r.scope, Running, r.tr)
    else Eff(s, Failed(NoRunnableStep), r.tr)
  }

  // ----- whole runs

  function ParamScope(params: seq<string>, input: Val): Scope {
    if |params| == 1 then map[params[0] := input]
    else if input.Obj? then map q | q in params :: if q in input.m then input.m[q] else Null
    else map[]
  }

  function Run(w: World, prog: Program, input: Val): Eff {
    ExecFrom(w, prog.body, 0, [], [], ParamScope(prog.params, input))
  }
}
