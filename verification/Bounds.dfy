/** The static invocation bound (internal/execir/analyze.go): never an undercount of any run,
    and exactly the saturated count of the bounded control flow. */
module Bounds {
  import opened Values
  import opened Common
  import opened ExecIR
  import opened Eval
  import opened GraphOrder
  import opened Interp
  import opened Addressing

  const MAX_INT: int := 0x7FFF_FFFF_FFFF_FFFF

  /** A counted callee: kind ("agent", "tool", "workflow") and name. */
  datatype Callee = Callee(kind: string, name: string)

  function CalleeOf(call: Call): Option<Callee> {
    match call
    case Tool(_, uses, _) => Some(Callee("tool", uses))
    case Agent(_, agent, _, _) => Some(Callee("agent", agent))
    case Workflow(_, workflow, _, _, _) => Some(Callee("workflow", workflow))
    case Approval(_, _, _, _) => None
  }

  // ----- the exact, unbounded count

  function CallCount(call: Call, k: Callee): nat {
    if CalleeOf(call) == Some(k) && k.name != "" then 1 else 0
  }

  /** The leaf invokes this tool, agent or workflow; an approval invokes nothing. */
  ghost predicate Invokes(call: Call, kind: string, name: string) {
    match call
    case Tool(_, uses, _) => kind == "tool" && uses == name
    case Agent(_, agent, _, _) => kind == "agent" && agent == name
    case Workflow(_, workflow, _, _, _) => kind == "workflow" && workflow == name
    case Approval(_, _, _, _) => false
  }

  lemma CallCountIs(call: Call, kind: string, name: string)
    ensures CallCount(call, Callee(kind, name)) == if Invokes(call, kind, name) && name != "" then 1 else 0
  {
  }

  /** min(limit, cap), a non-positive limit meaning the cap. */
  function Factor(limit: int, cap: nat): nat {
    if limit <= 0 || limit > cap then cap else limit
  }

  function Count(n: Node, k: Callee, cap: nat): nat
    decreases n, 1
  {
    match n
    case Invoke(call) => CallCount(call, k)
    case Branch(_, thn, els) => Max(CountAll(thn, k, cap), CountAll(els, k, cap))
    case Fork(brs) => CountForks(brs, k, cap)
    case Loop(_, _, body, _) => cap * CountAll(body, k, cap)
    case While(_, limit, body) => Factor(limit, cap) * CountAll(body, k, cap)
    case Retry(_, limit, body) => Factor(limit, cap) * CountAll(body, k, cap)
    case Graph(nodes) => CountSteps(nodes, k)
    case _ => 0
  }

  function CountAll(ns: seq<Node>, k: Callee, cap: nat): nat
    decreases ns, 0
  {
    if ns == [] then 0 else CountAll(ns[..|ns| - 1], k, cap) + Count(ns[|ns| - 1], k, cap)
  }

  function CountForks(brs: seq<ForkBranch>, k: Callee, cap: nat): nat
    decreases brs, 0
  {
    if brs == [] then 0 else CountForks(brs[..|brs| - 1], k, cap) + CountAll(brs[|brs| - 1].nodes, k, cap)
  }

  function CountSteps(gs: seq<GraphNode>, k: Callee): nat {
    if gs == [] then 0 else CountSteps(gs[..|gs| - 1], k) + CallCount(gs[|gs| - 1].run, k)
  }

  // ----- saturating arithmetic

  function SatMul(a: int, b: int): int {
    if a <= 0 || b <= 0 then 0 else if a > MAX_INT / b then MAX_INT else a * b
  }

  function SatAdd(a: int, b: int): int {
    if b > 0 && a > MAX_INT - b then MAX_INT else a + b
  }

  function Sat(n: int): int {
    if n > MAX_INT then MAX_INT else n
  }

  lemma SatMulIs(a: nat, b: nat)
    requires a <= MAX_INT && b <= MAX_INT
    ensures SatMul(a, b) == Sat(a * b)
  {
    if a > 0 && b > 0 {
      var q := MAX_INT / b;
      assert q * b <= MAX_INT < (q + 1) * b;
      if a > q { assert a * b >= (q + 1) * b; } else { assert a * b <= q * b; }
    } else {
      assert a * b == 0;
    }
  }

  /** Saturating an inner factor first does not change a saturated product. */
  lemma SatNested(f: nat, m: nat, c: nat)
    ensures Sat(Sat(f * m) * c) == Sat(f * (m * c))
  {
    assert (f * m) * c == f * (m * c);
    if f * m > MAX_INT && c > 0 {
      assert MAX_INT * c >= MAX_INT;
      assert (f * m) * c >= f * m;
      assert Sat(MAX_INT * c) == MAX_INT;
    }
  }

  lemma SatSum(f: nat, a: nat, b: nat)
    ensures SatAdd(Sat(f * a), Sat(f * b)) == Sat(f * (a + b))
  {
    assert f * (a + b) == f * a + f * b;
  }

  lemma SatMax(f: nat, a: nat, b: nat)
    ensures Max(Sat(f * a), Sat(f * b)) == Sat(f * Max(a, b))
  {
    if a > b { assert f * a >= f * b; } else { assert f * b >= f * a; }
  }

  // ----- the analysis

  datatype Acc = Acc(max: int, data: bool)

  type Accs = map<Callee, Acc>

  /** Go's zero value for an absent key. */
  function AccOf(acc: Accs, k: Callee): Acc {
    if k in acc then acc[k] else Acc(0, false)
  }

  /** Does the callee occur below a for-loop, or at all when data is already set? */
  predicate DataBound(n: Node, k: Callee, data: bool)
    decreases n, 1
  {
    match n
    case Invoke(call) => data && CallCount(call, k) > 0
    case Branch(_, thn, els) => DataBoundAll(thn, k, data) || DataBoundAll(els, k, data)
    case Fork(brs) => exists i :: 0 <= i < |brs| && DataBoundAll(brs[i].nodes, k, data)
    case Loop(_, _, body, _) => DataBoundAll(body, k, true)
    case While(_, _, body) => DataBoundAll(body, k, data)
    case Retry(_, _, body) => DataBoundAll(body, k, data)
    case Graph(nodes) => data && exists i :: 0 <= i < |nodes| && CallCount(nodes[i].run, k) > 0
    case _ => false
  }

  predicate DataBoundAll(ns: seq<Node>, k: Callee, data: bool)
    decreases ns, 0
  {
    exists i :: 0 <= i < |ns| && DataBound(ns[i], k, data)
  }

  method MergeSum(acc: Accs, other: Accs) returns (r: Accs)
    ensures forall k ::
              AccOf(r, k) == Acc(SatAdd(AccOf(acc, k).max, AccOf(other, k).max), AccOf(acc, k).data
                                 || AccOf(other, k).data)
  {
    r := acc;
    var todo := other.Keys;
    while todo != {}
      invariant todo <= other.Keys
      invariant forall k :: k in other.Keys - todo ==>
        AccOf(r, k) == Acc(SatAdd(AccOf(acc, k).max, other[k].max), AccOf(acc, k).data || other[k].data)
      invariant forall k :: k !in other.Keys - todo ==> AccOf(r, k) == AccOf(acc, k)
      decreases todo
    {
      var k :| k in todo;
      var cur := AccOf(r, k);
      r := r[k := Acc(SatAdd(cur.max, other[k].max), cur.data || other[k].data)];
      todo := todo - {k};
    }
  }

  /** mergeMaxInto: the per-callee maximum of the two arms, added to what came before. */
  method MergeMaxInto(dst: Accs, thn: Accs, els: Accs) returns (r: Accs)
    requires forall k | k in thn :: thn[k].max >= 0
    requires forall k | k in els :: els[k].max >= 0
    ensures forall k ::
              AccOf(r, k) == Acc(SatAdd(AccOf(dst, k).max, if AccOf(thn, k).max > AccOf(els, k).max
                                        then AccOf(thn, k).max else AccOf(els, k).max),
                                        AccOf(dst, k).data || AccOf(thn, k).data || AccOf(els, k).data)
  {
    var maxed := thn;
    var todo := els.Keys;
    while todo != {}
      invariant todo <= els.Keys
      invariant forall k :: k in els.Keys - todo ==>
        AccOf(maxed, k) == Acc(if AccOf(thn, k).max > els[k].max then AccOf(thn, k).max
                               else els[k].max, AccOf(thn, k).data || els[k].data)
      invariant forall k :: k !in els.Keys - todo ==> AccOf(maxed, k) == AccOf(thn, k)
      decreases todo
    {
      var k :| k in todo;
      var cur := AccOf(maxed, k);
      var top := if k !in maxed || els[k].max > cur.max then (if cur.max > els[k].max then cur.max else els[k].max)
        else cur.max;
      maxed := maxed[k := Acc(top, cur.data || els[k].data)];
      todo := todo - {k};
    }
    r := MergeSum(dst, maxed);
  }

  /** boundsOf: for every callee, the exact count times the factor, saturated at MaxInt, and
      whether some occurrence sits under a for-loop. */
  method BoundsOf(ns: seq<Node>, factor: nat, data: bool, cap: nat) returns (acc: Accs)
    requires 0 < factor <= MAX_INT && 0 < cap <= MAX_INT
    ensures forall k :: AccOf(acc, k) == Acc(Sat(factor * CountAll(ns, k, cap)), DataBoundAll(ns, k, data))
    decreases ns, 2
  {
    acc := map[];
    for i := 0 to |ns|
      invariant forall k ::
                  AccOf(acc, k) == Acc(Sat(factor * CountAll(ns[..i], k, cap)), DataBoundAll(ns[..i], k, data))
    {
      ghost var was := acc;
      var one := BoundsOfNode(ns[i], factor, data, cap);
      acc := MergeSum(acc, one);
      forall k ensures AccOf(acc, k) == Acc(Sat(factor * CountAll(ns[..i + 1], k, cap)),
          DataBoundAll(ns[..i + 1], k, data)) {
        assert ns[..i + 1][..i] == ns[..i];
        SatSum(factor, CountAll(ns[..i], k, cap), Count(ns[i], k, cap));
        DataBoundSnoc(ns, i, k, data);
      }
    }
    assert ns[..|ns|] == ns;
  }

  lemma DataBoundSnoc(ns: seq<Node>, i: nat, k: Callee, data: bool)
    requires i < |ns|
    ensures DataBoundAll(ns[..i + 1], k, data) <==> DataBoundAll(ns[..i], k, data) || DataBound(ns[i], k, data)
  {
    if DataBoundAll(ns[..i + 1], k, data) {
      var j :| 0 <= j < |ns[..i + 1]| && DataBound(ns[..i + 1][j], k, data);
      if j < i { assert ns[..i][j] == ns[j]; }
    }
    if DataBoundAll(ns[..i], k, data) {
      var j :| 0 <= j < |ns[..i]| && DataBound(ns[..i][j], k, data);
      assert ns[..i + 1][j] == ns[j];
    }
    if DataBound(ns[i], k, data) { assert ns[..i + 1][i] == ns[i]; }
  }

  method BoundsOfNode(n: Node, factor: nat, data: bool, cap: nat) returns (acc: Accs)
    requires 0 < factor <= MAX_INT && 0 < cap <= MAX_INT
    ensures forall k :: AccOf(acc, k) == Acc(Sat(factor * Count(n, k, cap)), DataBound(n, k, data))
    decreases n, 1
  {
    acc := map[];
    match n
    case Invoke(call) =>
      acc := Add(map[], call, factor, data);
    case Branch(_, _, _) =>
      acc := BoundsOfBranch(n, factor, data, cap);
    case Fork(_) =>
      acc := BoundsOfFork(n, factor, data, cap);
    case Loop(_, _, body, _) =>
      LoopBound(body, cap, factor, cap);
      acc := BoundsOf(body, SatMul(factor, cap), true, cap);
    case While(_, limit, body) =>
      LoopBound(body, Factor(limit, cap), factor, cap);
      acc := BoundsOf(body, SatMul(factor, Factor(limit, cap)), data, cap);
    case Retry(_, limit, body) =>
      LoopBound(body, Factor(limit, cap), factor, cap);
      acc := BoundsOf(body, SatMul(factor, Factor(limit, cap)), data, cap);
    case Graph(nodes) =>
      acc := BoundsOfGraph(nodes, factor, data, cap);
    case _ =>
  }

  method BoundsOfBranch(n: Node, factor: nat, data: bool, cap: nat) returns (acc: Accs)
    requires n.Branch? && 0 < factor <= MAX_INT && 0 < cap <= MAX_INT
    ensures forall k :: AccOf(acc, k) == Acc(Sat(factor * Count(n, k, cap)), DataBound(n, k, data))
    decreases n, 0
  {
    var a := BoundsOf(n.thn, factor, data, cap);
    var b := BoundsOf(n.els, factor, data, cap);
    forall k | k in a ensures a[k].max >= 0 { assert AccOf(a, k) == a[k]; NonNeg(factor, CountAll(n.thn, k, cap)); }
    forall k | k in b ensures b[k].max >= 0 { assert AccOf(b, k) == b[k]; NonNeg(factor, CountAll(n.els, k, cap)); }
    acc := MergeMaxInto(map[], a, b);
    forall k ensures AccOf(acc, k) == Acc(Sat(factor * Count(n, k, cap)), DataBound(n, k, data)) {
      SatMax(factor, CountAll(n.thn, k, cap), CountAll(n.els, k, cap));
      NonNeg(factor, CountAll(n.thn, k, cap));
      NonNeg(factor, CountAll(n.els, k, cap));
    }
  }

  method BoundsOfFork(n: Node, factor: nat, data: bool, cap: nat) returns (acc: Accs)
    requires n.Fork? && 0 < factor <= MAX_INT && 0 < cap <= MAX_INT
    ensures forall k :: AccOf(acc, k) == Acc(Sat(factor * Count(n, k, cap)), DataBound(n, k, data))
    decreases n, 0
  {
    acc := map[];
    var brs := n.branches;
    for i := 0 to |brs|
      invariant forall k ::
                  AccOf(acc, k) == Acc(Sat(factor * CountForks(brs[..i], k, cap)), exists j ::
                      0 <= j < i && DataBoundAll(brs[j].nodes, k, data))
    {
      var one := BoundsOf(brs[i].nodes, factor, data, cap);
      acc := MergeSum(acc, one);
      forall k ensures SatAdd(Sat(factor * CountForks(brs[..i], k, cap)),
          Sat(factor * CountAll(brs[i].nodes, k, cap))) == Sat(factor * CountForks(brs[..i + 1], k, cap)) {
        assert brs[..i + 1][..i] == brs[..i];
        SatSum(factor, CountForks(brs[..i], k, cap), CountAll(brs[i].nodes, k, cap));
      }
    }
    assert brs[..|brs|] == brs;
  }

  method BoundsOfGraph(nodes: seq<GraphNode>, factor: nat, data: bool, cap: nat) returns (acc: Accs)
    requires 0 < factor <= MAX_INT
    ensures forall k ::
              AccOf(acc, k) == Acc(Sat(factor * Count(Graph(nodes), k, cap)), DataBound(Graph(nodes), k, data))
  {
    acc := map[];
    for i := 0 to |nodes|
      invariant forall k ::
                  AccOf(acc, k) == Acc(Sat(factor * CountSteps(nodes[..i], k)), data
                                       && exists j :: 0 <= j < i && CallCount(nodes[j].run, k) > 0)
    {
      acc := Add(acc, nodes[i].run, factor, data);
      forall k ensures SatAdd(Sat(factor * CountSteps(nodes[..i], k)), Sat(factor * CallCount(nodes[i].run, k))) ==
          Sat(factor * CountSteps(nodes[..i + 1], k)) {
        assert nodes[..i + 1][..i] == nodes[..i];
        SatSum(factor, CountSteps(nodes[..i], k), CallCount(nodes[i].run, k));
      }
    }
    assert nodes[..|nodes|] == nodes;
  }

  lemma NonNeg(f: nat, c: nat)
    ensures Sat(f * c) >= 0
  {
  }

  lemma LoopBound(body: seq<Node>, times: nat, factor: nat, cap: nat)
    requires 0 < factor <= MAX_INT && 0 < times <= MAX_INT
    ensures 0 < SatMul(factor, times) <= MAX_INT
    ensures forall k ::
              Sat(SatMul(factor, times) * CountAll(body, k, cap)) == Sat(factor * (times * CountAll(body, k, cap)))
  {
    SatMulIs(factor, times);
    assert factor * times >= 1;
    forall k ensures Sat(SatMul(factor, times) * CountAll(body, k, cap)) ==
        Sat(factor * (times * CountAll(body, k, cap))) {
      SatMulIs(factor, times);
      SatNested(factor, times, CountAll(body, k, cap));
    }
  }

  /** One counted invocation; an Approval or an empty callee counts nothing. */
  method Add(acc: Accs, call: Call, factor: nat, data: bool) returns (r: Accs)
    requires factor <= MAX_INT
    ensures forall k :: AccOf(r, k) == Acc(SatAdd(AccOf(acc, k).max, Sat(factor * CallCount(call, k))),
                                        AccOf(acc, k).data || (data && CallCount(call, k) > 0))
  {
    r := acc;
    var callee := CalleeOf(call);
    if callee.Some? && callee.value.name != "" {
      var cur := AccOf(acc, callee.value);
      r := r[callee.value := Acc(SatAdd(cur.max, factor), cur.data || data)];
    }
  }

  // ----- soundness against every run

  /** How often a trace calls callee k. */
  function Calls(tr: seq<Act>, k: Callee): nat {
    if tr == [] then 0
    else Calls(tr[..|tr| - 1], k) + (if tr[|tr| - 1].Called? then CallCount(tr[|tr| - 1].call, k) else 0)
  }

  lemma {:induction false} CallsConcat(x: seq<Act>, y: seq<Act>, k: Callee)
    ensures Calls(x + y, k) == Calls(x, k) + Calls(y, k)
    decreases |y|
  {
    if y == [] {
      assert x + y == x;
    } else {
      assert (x + y)[..|x + y| - 1] == x + y[..|y| - 1];
      CallsConcat(x, y[..|y| - 1], k);
    }
  }

  lemma {:induction false} CallsShuffle(x: seq<Act>, y: seq<Act>, bits: seq<bool>, k: Callee)
    ensures Calls(Shuffle(x, y, bits), k) == Calls(x, k) + Calls(y, k)
    decreases |x| + |y|
  {
    if x != [] && y != [] {
      if bits != [] && !bits[0] {
        CallsShuffle(x, y[1..], bits[1..], k);
        CallsConcat([y[0]], Shuffle(x, y[1..], bits[1..]), k);
        CallsConcat([y[0]], y[1..], k);
        assert y == [y[0]] + y[1..];
      } else {
        var rest := if bits == [] then [] else bits[1..];
        CallsShuffle(x[1..], y, rest, k);
        CallsConcat([x[0]], Shuffle(x[1..], y, rest), k);
        CallsConcat([x[0]], x[1..], k);
        assert x == [x[0]] + x[1..];
      }
    }
  }

  lemma OneAct(x: Act, k: Callee)
    ensures Calls([x], k) == if x.Called? then CallCount(x.call, k) else 0
  {
    assert [x][..0] == [];
  }

  lemma CalledIs(w: World, call: Call, a: Addr, s: Scope)
    ensures var tr := ExecCall(w, call, a, s).tr; |tr| > 1 ==> tr[1].Called? && tr[1].call == call
  {
  }

  lemma CallBound(w: World, call: Call, a: Addr, s: Scope, k: Callee)
    ensures Calls(ExecCall(w, call, a, s).tr, k) <= CallCount(call, k)
  {
    hide Calls, ExecCall, CallCount;
    var tr := ExecCall(w, call, a, s).tr;
    CallShape(w, call, a, s);
    CalledIs(w, call, a, s);
    OneAct(tr[0], k);
    if |tr| == 1 {
      assert tr == [tr[0]];
    } else {
      OneAct(tr[1], k);
      CallsConcat([tr[0]], [tr[1]], k);
      if |tr| == 3 {
        OneAct(tr[2], k);
        CallsConcat([tr[0]] + [tr[1]], [tr[2]], k);
        assert tr == [tr[0]] + [tr[1]] + [tr[2]];
      } else {
        assert tr == [tr[0]] + [tr[1]];
      }
    }
  }

  lemma ControlOnly(tr: seq<Act>, k: Callee)
    requires forall x | x in tr :: x.Ctl?
    ensures Calls(tr, k) == 0
  {
    if tr != [] {
      assert tr[|tr| - 1] in tr;
      ControlOnly(tr[..|tr| - 1], k);
    }
  }

  lemma {:induction false} ExecBound(w: World, n: Node, p: seq<nat>, l: seq<nat>, s: Scope, k: Callee)
    ensures Calls(Exec(w, n, p, l, s).tr, k) <= Count(n, k, w.Cap())
    decreases n, 2, 0
  {
    hide Calls, Iterate, Threads, Steps, ExecFrom, ExecCall;
    ControlOnly([], k);
    match n
    case Invoke(call) => CallBound(w, call, Interp.Addr(p, l), s, k);
    case Let(_, _) =>
    case Return(_) =>
    case Branch(_, _, _) => BranchBound(w, n, p, l, s, k);
    case Fork(brs) =>
      ThreadsBound(w, n, [], 0, p, l, s, k);
      assert brs[..0] == [];
    case Loop(_, _, _, _) => LoopNodeBound(w, n, p, l, s, k);
    case While(_, limit, body) =>
      IterateBound(w, n, [], w.Bound(limit), 0, p, l, s, k);
      TimesIs(w.Bound(limit), w.Bound(limit), CountAll(body, k, w.Cap()));
    case Retry(_, limit, body) =>
      IterateBound(w, n, [], w.Bound(limit), 0, p, l, s, k);
      TimesIs(w.Bound(limit), w.Bound(limit), CountAll(body, k, w.Cap()));
    case Graph(nodes) => GraphBound(w, nodes, p, l, s, k);
  }

  lemma {:induction false} BranchBound(w: World, n: Node, p: seq<nat>, l: seq<nat>, s: Scope, k: Callee)
    requires n.Branch?
    ensures Calls(Exec(w, n, p, l, s).tr, k) <= Count(n, k, w.Cap())
    decreases n, 1, 0
  {
    hide Calls, ExecFrom;
    var c := Decide(w, Br, n.cond, Interp.Addr(p, l), s);
    ControlOnly(c.tr, k);
    ExecFromBound(w, n.thn, 0, p + [0], l, s, k);
    ExecFromBound(w, n.els, 0, p + [1], l, s, k);
    CallsConcat(c.tr, ExecFrom(w, n.thn, 0, p + [0], l, s).tr, k);
    CallsConcat(c.tr, ExecFrom(w, n.els, 0, p + [1], l, s).tr, k);
    assert n.thn[..0] == [] && n.els[..0] == [];
  }

  lemma {:induction false} LoopNodeBound(w: World, n: Node, p: seq<nat>, l: seq<nat>, s: Scope, k: Callee)
    requires n.Loop?
    ensures Calls(Exec(w, n, p, l, s).tr, k) <= Count(n, k, w.Cap())
    decreases n, 1, w.Cap() + 1
  {
    hide Calls, Iterate, Threads;
    var got := EvalCollection(w.render, s, n.coll);
    ControlOnly([], k);
    if got.Some? && |got.value| <= w.Cap() {
      var items := got.value;
      var c := Record(w, CtlKey(Lp, Interp.Addr(p, l)), |items|);
      ControlOnly(c.tr, k);
      TimesIs(|items|, w.Cap(), CountAll(n.body, k, w.Cap()));
      if n.par {
        ThreadsBound(w, n, items, 0, p, l, s, k);
        CallsConcat(c.tr, Threads(w, n, items, 0, p, l, s).tr, k);
      } else {
        IterateBound(w, n, items, |items|, 0, p, l, s, k);
        CallsConcat(c.tr, Iterate(w, n, items, |items|, 0, p, l, s).tr, k);
      }
    }
  }

  lemma GraphBound(w: World, nodes: seq<GraphNode>, p: seq<nat>, l: seq<nat>, s: Scope, k: Callee)
    ensures Calls(ExecGraph(w, Sorted(nodes), p, l, s).tr, k) <= CountSteps(nodes, k)
  {
    hide Calls, Steps;
    var gs := Sorted(nodes);
    StepsBound(w, gs, Topo(gs, {}), p, l, s, {}, k);
    Picked(gs, Topo(gs, {}), |gs|, k);
    assert gs[..|gs|] == gs;
    SortedCount(nodes, k);
  }

  /** m * c as a repeated sum. */
  function Times(m: nat, c: nat): nat {
    if m == 0 then 0 else c + Times(m - 1, c)
  }

  lemma {:induction false} TimesIs(m: nat, n: nat, c: nat)
    requires m <= n
    ensures Times(m, c) == m * c <= n * c
  {
    if m > 0 { TimesIs(m - 1, n, c); assert m * c == (m - 1) * c + c; }
    assert m * c <= n * c;
  }

  lemma {:induction false} ExecFromBound(w: World, ns: seq<Node>, i: nat, p: seq<nat>, l: seq<nat>, s: Scope, k: Callee)
    requires i <= |ns|
    ensures CountAll(ns[..i], k, w.Cap()) + Calls(ExecFrom(w, ns, i, p, l, s).tr, k) <= CountAll(ns, k, w.Cap())
    decreases ns, 0, |ns| - i
  {
    if i == |ns| {
      assert ns[..i] == ns;
    } else {
      var e := Exec(w, ns[i], p + [i], l, s);
      ExecBound(w, ns[i], p + [i], l, s, k);
      ExecFromBound(w, ns, i + 1, p, l, e.scope, k);
      assert ns[..i + 1][..i] == ns[..i];
      CallsConcat(e.tr, ExecFrom(w, ns, i + 1, p, l, e.scope).tr, k);
    }
  }

  lemma {:induction false} IterateBound(w: World, n: Node, items: seq<Val>, max: nat, i: nat, p: seq<nat>, l: seq<nat>,
      s: Scope, k: Callee)
    requires IsLoop(n) && i <= max && (n.Loop? ==> max == |items|)
    ensures Calls(Iterate(w, n, items, max, i, p, l, s).tr, k) <= Times(max - i, CountAll(n.body, k, w.Cap()))
    decreases n, 1, max - i
  {
    hide Calls, ExecFrom;
    ControlOnly([], k);
    if i < max {
      var b := Before(w, n, i, p, l, s);
      if b.verdict.Yes? {
        IterationBound(w, n, items, max, i, p, l, s, k);
      } else {
        ChecksAreQuiet(w, n, i, p, l, s, s, k);
      }
    }
  }

  lemma {:induction false} IterationBound(w: World, n: Node, items: seq<Val>, max: nat, i: nat, p: seq<nat>,
      l: seq<nat>, s: Scope, k: Callee)
    requires IsLoop(n) && i < max && (n.Loop? ==> max == |items|) && Before(w, n, i, p, l, s).verdict.Yes?
    ensures var m := CountAll(n.body, k, w.Cap());
            Calls(Iterate(w, n, items, max, i, p, l, s).tr, k) <= m + Times(max - (i + 1), m)
    decreases n, 1, max - i, 0
  {
    hide Calls, ExecFrom, Iterate, Before, After;
    var t := Split(w, n, items, max, i, p, l, s);
    SplitWhole(w, n, items, max, i, p, l, s);
    ControlOnly([], k);
    ChecksAreQuiet(w, n, i, p, l, s, t.body.scope, k);
    ExecFromBound(w, n.body, 0, p, l + [i], IterScope(n, items, i, s), k);
    assert n.body[..0] == [];
    CallsConcat(t.before.tr, t.body.tr, k);
    CallsConcat(t.after.tr, t.rest.tr, k);
    CallsConcat(t.before.tr + t.body.tr, t.after.tr + t.rest.tr, k);
    if t.after.verdict.No? {
      IterateBound(w, n, items, max, i + 1, p, l, t.body.scope, k);
    }
  }

  lemma ChecksAreQuiet(w: World, n: Node, i: nat, p: seq<nat>, l: seq<nat>, s: Scope, s': Scope, k: Callee)
    requires IsLoop(n)
    ensures Calls(Before(w, n, i, p, l, s).tr, k) == 0 && Calls(After(w, n, i, p, l, s').tr, k) == 0
  {
    ControlOnly(Before(w, n, i, p, l, s).tr, k);
    ControlOnly(After(w, n, i, p, l, s').tr, k);
  }

  lemma {:induction false} ThreadsBound(w: World, n: Node, items: seq<Val>, i: nat, p: seq<nat>, l: seq<nat>, s: Scope,
      k: Callee)
    requires IsParallel(n) && i <= Width(n, items)
    ensures var c := Calls(Threads(w, n, items, i, p, l, s).tr, k);
            if n.Fork? then CountForks(n.branches[..i], k, w.Cap()) + c <= CountForks(n.branches, k, w.Cap())
            else c <= Times(|items| - i, CountAll(n.body, k, w.Cap()))
    decreases n, 1, Width(n, items) - i
  {
    hide Calls, ExecFrom, CountAll, Shuffle;
    ControlOnly([], k);
    if i == Width(n, items) {
      if n.Fork? { assert n.branches[..i] == n.branches; }
    } else {
      var a := ThreadAddr(n, i, p, l);
      var ns, s' := ThreadNodes(n, i), ThreadScope(n, items, i, s);
      var e := ExecFrom(w, ns, 0, a.path, a.loop, s');
      ExecFromBound(w, ns, 0, a.path, a.loop, s', k);
      assert ns[..0] == [];
      ThreadsBound(w, n, items, i + 1, p, l, s, k);
      CallsShuffle(e.tr, Threads(w, n, items, i + 1, p, l, s).tr, w.merge(a), k);
      if n.Fork? {
        assert n.branches[..i + 1][..i] == n.branches[..i];
      }
    }
  }

  /** The count of the first m steps that occur in `order`. */
  function PickedCount(gs: seq<GraphNode>, order: seq<nat>, m: nat, k: Callee): nat
    requires m <= |gs|
  {
    if m == 0 then 0
    else PickedCount(gs, order, m - 1, k) + (if m - 1 in order then CallCount(gs[m - 1].run, k) else 0)
  }

  lemma {:induction false} Picked(gs: seq<GraphNode>, order: seq<nat>, m: nat, k: Callee)
    requires m <= |gs|
    ensures PickedCount(gs, order, m, k) <= CountSteps(gs[..m], k)
  {
    if m > 0 {
      Picked(gs, order, m - 1, k);
      assert gs[..m][..m - 1] == gs[..m - 1];
    }
  }

  lemma {:induction false} PickedCons(gs: seq<GraphNode>, order: seq<nat>, m: nat, k: Callee)
    requires m <= |gs| && order != [] && Distinct(order) && order[0] < |gs|
    ensures PickedCount(gs, order, m, k) ==
        PickedCount(gs, order[1..], m, k) + (if order[0] < m then CallCount(gs[order[0]].run, k) else 0)
  {
    if m > 0 {
      PickedCons(gs, order, m - 1, k);
      assert order == [order[0]] + order[1..];
      assert m - 1 in order <==> m - 1 == order[0] || m - 1 in order[1..];
      assert order[0] !in order[1..];
    }
  }

  lemma {:induction false} StepsBound(w: World, gs: seq<GraphNode>, order: seq<nat>, p: seq<nat>, l: seq<nat>,
      s: Scope, done: set<string>, k: Callee)
    requires (forall j | 0 <= j < |order| :: order[j] < |gs|) && Distinct(order)
    ensures Calls(Steps(w, gs, order, p, l, s, done).tr, k) <= PickedCount(gs, order, |gs|, k)
    decreases |order|
  {
    hide Calls, ExecCall;
    ControlOnly([], k);
    if order != [] {
      var i := order[0];
      var a := Interp.Addr(p + [i], l);
      var e := ExecCall(w, gs[i].run, a, s);
      var s', done' := StepScope(gs[i].id, s, e), StepDone(gs[i].id, done, e);
      StepsBound(w, gs, order[1..], p, l, s, done, k);
      StepsBound(w, gs, order[1..], p, l, s', done', k);
      CallBound(w, gs[i].run, a, s, k);
      CallsShuffle(e.tr, Steps(w, gs, order[1..], p, l, s', done').tr, w.merge(a), k);
      PickedCons(gs, order, |gs|, k);
    }
  }

  lemma {:induction false} CountStepsConcat(x: seq<GraphNode>, y: seq<GraphNode>, k: Callee)
    ensures CountSteps(x + y, k) == CountSteps(x, k) + CountSteps(y, k)
    decreases |y|
  {
    if y == [] {
      assert x + y == x;
    } else {
      assert (x + y)[..|x + y| - 1] == x + y[..|y| - 1];
      CountStepsConcat(x, y[..|y| - 1], k);
    }
  }

  lemma {:induction false} InsertCount(g: GraphNode, gs: seq<GraphNode>, k: Callee)
    ensures CountSteps(Insert(g, gs), k) == CountSteps(gs, k) + CallCount(g.run, k)
    decreases |gs|
  {
    assert CountSteps([g], k) == CallCount(g.run, k);
    if gs == [] || !StrLess(gs[0].id, g.id) {
      CountStepsConcat([g], gs, k);
    } else {
      InsertCount(g, gs[1..], k);
      CountStepsConcat([gs[0]], Insert(g, gs[1..]), k);
      CountStepsConcat([gs[0]], gs[1..], k);
      assert gs == [gs[0]] + gs[1..];
    }
  }

  lemma {:induction false} SortedCount(gs: seq<GraphNode>, k: Callee)
    ensures CountSteps(Sorted(gs), k) == CountSteps(gs, k)
    decreases |gs|
  {
    if gs != [] {
      SortedCount(gs[1..], k);
      InsertCount(gs[0], Sorted(gs[1..]), k);
      CountStepsConcat([gs[0]], gs[1..], k);
      assert gs == [gs[0]] + gs[1..];
    }
  }

  /** InvocationBounds: from any seed, with any invoker, pauses and interleaving, no run calls
      a callee more often than its bound (unless the bound is saturated at MaxInt). */
  method InvocationBounds(prog: Program, globalLoopCap: int) returns (acc: Accs)
    requires globalLoopCap <= MAX_INT
    ensures forall k ::
              AccOf(acc, k).max == Sat(CountAll(prog.body, k, if globalLoopCap <= 0 then 1 else globalLoopCap))
              && AccOf(acc, k).data == DataBoundAll(prog.body, k, false)
    ensures forall w: World, input: Val, k: Callee :: w.maxLoop == globalLoopCap > 0 ==>
              Sat(Calls(Run(w, prog, input).tr, k)) <= AccOf(acc, k).max
  {
    var cap := if globalLoopCap <= 0 then 1 else globalLoopCap;
    acc := BoundsOf(prog.body, 1, false, cap);
    forall w: World, input: Val, k: Callee | w.maxLoop == globalLoopCap > 0
      ensures Sat(Calls(Run(w, prog, input).tr, k)) <= AccOf(acc, k).max
    {
      BoundIsNeverAnUndercount(w, prog, input, k);
    }
  }

  lemma BoundIsNeverAnUndercount(w: World, prog: Program, input: Val, k: Callee)
    ensures Calls(Run(w, prog, input).tr, k) <= CountAll(prog.body, k, w.Cap())
  {
    ExecFromBound(w, prog.body, 0, [], [], ParamScope(prog.params, input), k);
    assert prog.body[..0] == [];
  }
}
