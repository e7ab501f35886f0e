/** Which names an argument reads, and when a needs-DAG reads only what its needs provide. */
module Scoping {
  import opened Values
  import opened ExecIR
  import opened Eval
  import opened GraphOrder

  /** Scope names a value tree reads: the head of every reference in it. */
  ghost predicate Reads(v: Value, name: string)
    decreases v
  {
    match v
    case Ref(path) => path != [] && path[0] == name
    case Object(fs) => exists i :: 0 <= i < |fs| && Reads(fs[i].val, name)
    case List(vs) => exists i :: 0 <= i < |vs| && Reads(vs[i], name)
    case Template(vs) => exists i :: 0 <= i < |vs| && Reads(vs[i], name)
    case _ => false
  }

  ghost predicate AgreeOn(s: Scope, t: Scope, name: string) {
    (name in s <==> name in t) && (name in s ==> s[name] == t[name])
  }

  lemma {:induction false} EvalValueAgrees(rn: Render, s: Scope, t: Scope, v: Value)
    requires forall h | Reads(v, h) :: AgreeOn(s, t, h)
    ensures EvalValue(rn, s, v) == EvalValue(rn, t, v)
    decreases v, 0
  {
    match v
    case Ref(path) => if path != [] { assert Reads(v, path[0]); }
    case Object(fs) => EvalFieldsAgree(rn, s, t, fs, v);
    case List(vs) => EvalValuesAgree(rn, s, t, vs, v);
    case Template(vs) => EvalValuesAgree(rn, s, t, vs, v);
    case _ =>
  }

  lemma {:induction false} EvalValuesAgree(rn: Render, s: Scope, t: Scope, vs: seq<Value>, v: Value)
    requires forall i | 0 <= i < |vs| :: vs[i] < v && forall h | Reads(vs[i], h) :: AgreeOn(s, t, h)
    ensures EvalValues(rn, s, vs) == EvalValues(rn, t, vs)
    decreases v, 0, |vs|
  {
    if vs != [] {
      EvalValueAgrees(rn, s, t, vs[0]);
      EvalValuesAgree(rn, s, t, vs[1..], v);
    }
  }

  lemma {:induction false} EvalFieldsAgree(rn: Render, s: Scope, t: Scope, fs: seq<Field>, v: Value)
    requires forall i | 0 <= i < |fs| :: fs[i].val < v && forall h | Reads(fs[i].val, h) :: AgreeOn(s, t, h)
    ensures EvalFields(rn, s, fs) == EvalFields(rn, t, fs)
    decreases v, 0, |fs|
  {
    if fs != [] {
      EvalFieldsAgree(rn, s, t, fs[..|fs| - 1], v);
      EvalValueAgrees(rn, s, t, fs[|fs| - 1].val);
    }
  }

  lemma EvalArgsAgree(rn: Render, s: Scope, t: Scope, args: Args)
    requires forall k, h | k in args && Reads(args[k], h) :: AgreeOn(s, t, h)
    ensures EvalArgs(rn, s, args) == EvalArgs(rn, t, args)
  {
    forall k | k in args ensures EvalValue(rn, s, args[k]) == EvalValue(rn, t, args[k]) {
      EvalValueAgrees(rn, s, t, args[k]);
    }
    if EvalArgs(rn, s, args).Some? && EvalArgs(rn, t, args).Some? {
      assert EvalArgs(rn, s, args).value == EvalArgs(rn, t, args).value;
    }
  }

  // ----- needs-DAGs

  /** x holds the needs of every step whose id it holds. */
  ghost predicate NeedsClosed(gs: seq<GraphNode>, x: set<string>) {
    forall i, d | 0 <= i < |gs| && gs[i].id in x && d in gs[i].needs :: d in x
  }

  /** d is a transitive need of step i: it belongs to every needs-closed set that holds i's needs. */
  ghost predicate TransitiveNeed(gs: seq<GraphNode>, i: nat, d: string)
    requires i < |gs|
  {
    forall x: set<string> :: NeedsClosed(gs, x) && (forall e | e in gs[i].needs :: e in x) ==> d in x
  }

  /** A step binds its own id and reads only the enclosing scope or its transitive needs. */
  ghost predicate WellScoped(gs: seq<GraphNode>) {
    && (forall i, j :: 0 <= i < j < |gs| ==> gs[i].id != gs[j].id)
    && (forall i | 0 <= i < |gs| :: gs[i].id != "" && gs[i].run.bind == gs[i].id)
    && (forall i, k, h | 0 <= i < |gs| && k in gs[i].run.args && Reads(gs[i].run.args[k], h) && h in IdsOf(gs) ::
          TransitiveNeed(gs, i, h))
  }

  ghost predicate NodeOk(n: Node)
    decreases n, 1
  {
    match n
    case Branch(_, thn, els) => NodesOk(thn) && NodesOk(els)
    case Fork(brs) => forall i | 0 <= i < |brs| :: NodesOk(brs[i].nodes)
    case Loop(_, _, body, _) => NodesOk(body)
    case While(_, _, body) => NodesOk(body)
    case Retry(_, _, body) => NodesOk(body)
    case Graph(nodes) => WellScoped(Sorted(nodes))
    case _ => true
  }

  /** Every needs-DAG in the program is well scoped. */
  ghost predicate NodesOk(ns: seq<Node>)
    decreases ns, 0
  {
    forall i | 0 <= i < |ns| :: NodeOk(ns[i])
  }
}
