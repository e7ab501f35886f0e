/** The effect-bound walker (internal/effects/compute.go): a depth-first walk over workflows,
    steps and agent grants, and the bound built from what it reached. */
module Effects {
  import opened Values
  import opened Common

  /** Fields are trimmed; "" means the step has no such part. */
  datatype Step = Step(id: string, uses: string, agent: string, workflow: string)

  /** An operation as granted or used; `unknown` marks an agent that could not be resolved,
      standing under its own name. */
  datatype Grant = Grant(uses: string, unknown: bool)

  /** `agents` holds each agent's advertised grants, `manifest` the effects each
      tool.<name>.<operation> declares. */
  datatype Project = Project(workflows: map<string, seq<Step>>, agents: map<string, seq<Grant>>, manifest: map<string,
      seq<string>>)

  datatype Node = Workflow(name: string) | Agent(name: string)

  datatype Hop = WorkflowHop(name: string) | StepHop(id: string) | AgentHop(name: string) | OperationHop(uses: string,
      autonomous: bool)

  datatype Reached = Reached(grant: Grant, via: seq<Hop>)

  function HopTo(n: Node): Hop {
    match n case Workflow(w) => WorkflowHop(w) case Agent(a) => AgentHop(a)
  }

  /** pathReachability: some hop on the path is autonomous. */
  predicate Autonomous(hops: seq<Hop>) {
    exists i :: 0 <= i < |hops| && hops[i].OperationHop? && hops[i].autonomous
  }

  // ----- the graph

  predicate HasStep(p: Project, w: string, i: nat) {
    w in p.workflows && i < |p.workflows[w]|
  }

  /** Step s leads to node n. */
  predicate Leads(s: Step, n: Node) {
    match n case Agent(a) => a != "" && s.agent == a case Workflow(w) => w != "" && s.workflow == w
  }

  ghost predicate IsSucc(p: Project, m: Node, n: Node) {
    m.Workflow? && exists i: nat :: HasStep(p, m.name, i) && Leads(p.workflows[m.name][i], n)
  }

  function GrantsOf(p: Project, a: string): seq<Grant> {
    if a in p.agents then p.agents[a] else [Grant(a, true)]
  }

  /** Node n performs operation g itself: statically in a step, or by an agent's own choice. */
  ghost predicate Performs(p: Project, n: Node, g: Grant, autonomous: bool) {
    match n
    case Agent(a) => autonomous && if a in p.agents then g in p.agents[a] else g == Grant(a, true)
    case Workflow(w) =>
      !autonomous && !g.unknown && g.uses != "" && exists i: nat :: HasStep(p, w, i) && p.workflows[w][i].uses == g.uses
  }

  // ----- paths

  /** The hops lead from the root to node n. */
  ghost predicate PathTo(p: Project, root: Node, hops: seq<Hop>, n: Node)
    decreases |hops|
  {
    if |hops| <= 1 then hops == [HopTo(root)] && n == root
    else
      && |hops| >= 3
      && hops[|hops| - 1] == HopTo(n)
      && exists w: string, i: nat ::
           && HasStep(p, w, i)
           && PathTo(p, root, hops[..|hops| - 2], Workflow(w))
           && hops[|hops| - 2] == StepHop(p.workflows[w][i].id)
           && Leads(p.workflows[w][i], n)
  }

  ghost predicate Reachable(p: Project, root: Node, n: Node) {
    exists hops :: PathTo(p, root, hops, n)
  }

  /** Some reachable node performs g in this way. */
  ghost predicate Occurs(p: Project, root: Node, g: Grant, autonomous: bool) {
    exists n :: Reachable(p, root, n) && Performs(p, n, g, autonomous)
  }

  /** The path reaches agent a, which may choose g. */
  ghost predicate ByAgent(p: Project, root: Node, path: seq<Hop>, g: Grant) {
    exists a: string :: PathTo(p, root, path, Agent(a)) && g in GrantsOf(p, a)
  }

  /** The path reaches a workflow step that uses g. */
  ghost predicate ByStep(p: Project, root: Node, path: seq<Hop>, g: Grant) {
    && |path| >= 1 && !g.unknown && g.uses != ""
    && exists w: string, i: nat ::
         && HasStep(p, w, i)
         && PathTo(p, root, path[..|path| - 1], Workflow(w))
         && path[|path| - 1] == StepHop(p.workflows[w][i].id)
         && p.workflows[w][i].uses == g.uses
  }

  /** r's witness is a genuine path from the root to an occurrence of r's operation. */
  ghost predicate Genuine(p: Project, root: Node, r: Reached) {
    var k := |r.via| - 1;
    k >= 0 && r.via[k].OperationHop? && r.via[k].uses == r.grant.uses
    && if r.via[k].autonomous then ByAgent(p, root, r.via[..k], r.grant) else ByStep(p, root, r.via[..k], r.grant)
  }

  lemma {:induction false} PathsAreStatic(p: Project, root: Node, hops: seq<Hop>, n: Node)
    requires PathTo(p, root, hops, n)
    ensures |hops| > 0 && forall i :: 0 <= i < |hops| ==> !hops[i].OperationHop?
    decreases |hops|
  {
    if |hops| > 1 {
      var k := |hops| - 2;
      var w: string, i: nat :|
        HasStep(p, w, i) && PathTo(p, root, hops[..k], Workflow(w)) && hops[k] == StepHop(p.workflows[w][i].id);
      PathsAreStatic(p, root, hops[..k], Workflow(w));
      assert forall i :: 0 <= i < k ==> hops[i] == hops[..k][i];
    }
  }

  /** A genuine witness shows a reachable occurrence, and is autonomous exactly when it is one
      of an agent's own grants. */
  lemma GenuineOccurs(p: Project, root: Node, r: Reached)
    requires Genuine(p, root, r)
    ensures Occurs(p, root, r.grant, Autonomous(r.via))
  {
    hide PathTo, GrantsOf;
    var k := |r.via| - 1;
    var path := r.via[..k];
    if r.via[k].autonomous {
      var a: string :| PathTo(p, root, path, Agent(a)) && r.grant in GrantsOf(p, a);
      GrantsAre(p, a, r.grant);
      assert Reachable(p, root, Agent(a)) && Performs(p, Agent(a), r.grant, true);
      assert Autonomous(r.via);
    } else {
      var w: string, i: nat :|
        HasStep(p, w, i) && PathTo(p, root, path[..k - 1], Workflow(w)) && path[k - 1] == StepHop(p.workflows[w][i].id)
        && p.workflows[w][i].uses == r.grant.uses;
      assert Reachable(p, root, Workflow(w)) && Performs(p, Workflow(w), r.grant, false);
      PathsAreStatic(p, root, path[..k - 1], Workflow(w));
      assert forall j :: 0 <= j < k - 1 ==> r.via[j] == path[..k - 1][j];
      assert !Autonomous(r.via);
    }
  }

  lemma ExtendPath(p: Project, root: Node, hops: seq<Hop>, w: string, i: nat, n: Node)
    requires PathTo(p, root, hops, Workflow(w)) && HasStep(p, w, i) && Leads(p.workflows[w][i], n)
    ensures PathTo(p, root, hops + [StepHop(p.workflows[w][i].id)] + [HopTo(n)], n)
  {
    var longer := hops + [StepHop(p.workflows[w][i].id)] + [HopTo(n)];
    PathsAreStatic(p, root, hops, Workflow(w));
    assert longer[..|longer| - 2] == hops;
  }

  /** A set that holds the root and is closed under edges holds every reachable node. */
  lemma {:induction false} ClosedHoldsReachable(p: Project, root: Node, closed: set<Node>, hops: seq<Hop>, n: Node)
    requires root in closed && (forall m, k :: m in closed && IsSucc(p, m, k) ==> k in closed)
    requires PathTo(p, root, hops, n)
    ensures n in closed
    decreases |hops|
  {
    if |hops| > 1 {
      var w: string, i: nat :|
        HasStep(p, w, i) && PathTo(p, root, hops[..|hops| - 2], Workflow(w)) && Leads(p.workflows[w][i], n);
      ClosedHoldsReachable(p, root, closed, hops[..|hops| - 2], Workflow(w));
      assert IsSucc(p, Workflow(w), n);
    }
  }

  // ----- the nodes a walk can meet

  ghost function Named(p: Project): set<Node> {
    (set w, i: nat | w in p.workflows && i < |p.workflows[w]| :: Workflow(p.workflows[w][i].workflow))
    + (set w, i: nat | w in p.workflows && i < |p.workflows[w]| :: Agent(p.workflows[w][i].agent))
  }

  lemma SuccNamed(p: Project, m: Node, n: Node)
    requires IsSucc(p, m, n)
    ensures n in Named(p)
  {
  }

  lemma FewerLeft(u: set<Node>, visited: set<Node>, n: Node)
    requires n in u && n !in visited
    ensures |u - (visited + {n})| < |u - visited|
  {
    assert u - (visited + {n}) == (u - visited) - {n};
  }

  lemma NoMoreLeft(u: set<Node>, before: set<Node>, after: set<Node>)
    requires before <= after
    ensures |u - after| <= |u - before|
  {
    assert u - after == (u - before) - after;
    SubsetSize(u - after, u - before);
  }

  // ----- the walk, step by step

  datatype Visited = Visited(stack: set<Node>, seen: set<Node>, reached: seq<Reached>)

  /** Nodes a walk from the root may still enter. */
  ghost function Remaining(p: Project, root: Node, v: Visited): nat {
    |Named(p) + {root} - (v.seen + v.stack)|
  }

  function GrantList(grants: seq<Grant>, prefix: seq<Hop>): (r: seq<Reached>)
    ensures |r| == |grants|
  {
    seq(|grants|, i requires 0 <= i < |grants| => Reached(grants[i], prefix + [OperationHop(grants[i].uses, true)]))
  }

  /** A later state of the same walk, back at the same depth. */
  ghost predicate Onward(v: Visited, r: Visited) {
    r.stack == v.stack && v.seen <= r.seen && v.reached <= r.reached
  }

  lemma OnwardLeft(p: Project, root: Node, v: Visited, r: Visited)
    requires Onward(v, r)
    ensures Remaining(p, root, r) <= Remaining(p, root, v)
  {
    NoMoreLeft(Named(p) + {root}, v.seen + v.stack, r.seen + r.stack);
  }

  lemma EnterLeft(p: Project, root: Node, v: Visited, n: Node)
    requires n in Named(p) + {root} && n !in v.seen + v.stack
    ensures Remaining(p, root, v.(stack := v.stack + {n})) < Remaining(p, root, v)
  {
    FewerLeft(Named(p) + {root}, v.seen + v.stack, n);
    assert v.seen + (v.stack + {n}) == (v.seen + v.stack) + {n};
  }

  /** Entering a node: nothing if it was entered before, else its own operations and then what
      its steps lead to, depth first. */
  ghost function Visit(p: Project, root: Node, n: Node, prefix: seq<Hop>, v: Visited): (r: Visited)
    requires n in Named(p) + {root}
    ensures Onward(v, r)
    decreases Remaining(p, root, v), 0, 0
  {
    if n in v.stack || n in v.seen then v
    else
      EnterLeft(p, root, v, n);
      var inside := v.(stack := v.stack + {n});
      var done :=
        match n
        case Agent(a) => inside.(reached := inside.reached + GrantList(GrantsOf(p, a), prefix))
        case Workflow(w) => if w in p.workflows then VisitSteps(p, root, w, 0, prefix, inside) else inside;
      Visited(done.stack - {n}, done.seen + {n}, done.reached)
  }

  /** A step's own operation. */
  ghost function Used(p: Project, w: string, i: nat, prefix: seq<Hop>, v: Visited): Visited
    requires HasStep(p, w, i)
  {
    var step := p.workflows[w][i];
    if step.uses == "" then v
    else v.(reached := v.reached + [Reached(Grant(step.uses, false),
        prefix + [StepHop(step.id)] + [OperationHop(step.uses, false)])])
  }

  ghost function VisitStep(p: Project, root: Node, w: string, i: nat, prefix: seq<Hop>, v: Visited): (r: Visited)
    requires HasStep(p, w, i)
    ensures Onward(v, r)
    decreases Remaining(p, root, v), 1, 0
  {
    var step := p.workflows[w][i];
    var here := prefix + [StepHop(step.id)];
    var used := Used(p, w, i, prefix, v);
    OnwardLeft(p, root, v, used);
    var asked := if step.agent != "" then Visit(p, root, Agent(step.agent), here + [AgentHop(step.agent)], used)
      else used;
    OnwardLeft(p, root, v, asked);
    if step.workflow != "" then Visit(p, root, Workflow(step.workflow), here + [WorkflowHop(step.workflow)], asked)
      else asked
  }

  ghost function VisitSteps(p: Project, root: Node, w: string, i: nat, prefix: seq<Hop>, v: Visited): (r: Visited)
    requires w in p.workflows && i <= |p.workflows[w]|
    ensures Onward(v, r)
    decreases Remaining(p, root, v), 2, |p.workflows[w]| - i
  {
    if i == |p.workflows[w]| then v
    else
      var u := VisitStep(p, root, w, i, prefix, v);
      OnwardLeft(p, root, v, u);
      VisitSteps(p, root, w, i + 1, prefix, u)
  }

  lemma StepsUnfold(p: Project, root: Node, w: string, i: nat, prefix: seq<Hop>, v: Visited)
    requires w in p.workflows && i < |p.workflows[w]|
    ensures VisitSteps(p, root, w, i, prefix, v) ==
        VisitSteps(p, root, w, i + 1, prefix, VisitStep(p, root, w, i, prefix, v))
  {
  }

  lemma StepsEnd(p: Project, root: Node, w: string, prefix: seq<Hop>, v: Visited)
    requires w in p.workflows
    ensures VisitSteps(p, root, w, |p.workflows[w]|, prefix, v) == v
  {
  }

  /** The operations a walk from the root lists, in order. */
  ghost function Reach(p: Project, root: Node): seq<Reached> {
    Visit(p, root, root, [HopTo(root)], Visited({}, {}, [])).reached
  }

  // ----- what the walk keeps

  ghost predicate Listed(reached: seq<Reached>, g: Grant, autonomous: bool) {
    exists i :: 0 <= i < |reached| && reached[i].grant == g && Autonomous(reached[i].via) == autonomous
  }

  /** Everything node n performs is listed. */
  ghost predicate Accounted(p: Project, reached: seq<Reached>, n: Node) {
    forall g, a :: Performs(p, n, g, a) ==> Listed(reached, g, a)
  }

  /** Every successor of n has been visited. */
  ghost predicate Expanded(p: Project, visited: set<Node>, n: Node) {
    forall m :: IsSucc(p, n, m) ==> m in visited
  }

  /** Finished nodes have listed their own operations and visited their successors; every
      listed operation has a genuine witness. */
  ghost predicate Inv(p: Project, root: Node, seen: set<Node>, stack: set<Node>, reached: seq<Reached>) {
    && (forall n :: n in seen ==> Expanded(p, seen + stack, n) && Accounted(p, reached, n))
    && (forall i :: 0 <= i < |reached| ==> Genuine(p, root, reached[i]))
  }

  lemma ListedGrows(reached: seq<Reached>, more: seq<Reached>, g: Grant, autonomous: bool)
    requires reached <= more && Listed(reached, g, autonomous)
    ensures Listed(more, g, autonomous)
  {
    var i :| 0 <= i < |reached| && reached[i].grant == g && Autonomous(reached[i].via) == autonomous;
    assert more[i] == reached[i];
  }

  lemma PushKeeps(p: Project, root: Node, seen: set<Node>, stack: set<Node>, reached: seq<Reached>, node: Node)
    requires Inv(p, root, seen, stack, reached)
    ensures Inv(p, root, seen, stack + {node}, reached)
  {
    hide Genuine, Accounted;
  }

  lemma PopKeeps(p: Project, root: Node, seen: set<Node>, stack: set<Node>, reached: seq<Reached>, node: Node)
    requires Inv(p, root, seen, stack, reached) && node in stack
    requires Expanded(p, seen + stack, node) && Accounted(p, reached, node)
    ensures Inv(p, root, seen + {node}, stack - {node}, reached)
  {
    hide Genuine, Accounted, IsSucc;
    assert (seen + {node}) + (stack - {node}) == seen + stack;
  }

  lemma AddKeeps(p: Project, root: Node, seen: set<Node>, stack: set<Node>, reached: seq<Reached>, r: Reached)
    requires Inv(p, root, seen, stack, reached) && Genuine(p, root, r)
    ensures Inv(p, root, seen, stack, reached + [r])
  {
    hide Genuine, Performs, Expanded;
    forall n | n in seen ensures Accounted(p, reached + [r], n) {
      forall g, a | Performs(p, n, g, a) ensures Listed(reached + [r], g, a) {
        ListedGrows(reached, reached + [r], g, a);
      }
    }
  }

  // ----- the walk is exact

  ghost predicate Sound(p: Project, root: Node, v: Visited) {
    Inv(p, root, v.seen, v.stack, v.reached)
  }

  /** An agent's own grants, listed one after the other. */
  lemma {:induction false} GrantsKeep(p: Project, root: Node, a: string, prefix: seq<Hop>, v: Visited, k: nat)
    requires Sound(p, root, v) && PathTo(p, root, prefix, Agent(a)) && k <= |GrantsOf(p, a)|
    ensures var more := v.reached + GrantList(GrantsOf(p, a), prefix)[..k];
            Sound(p, root, v.(reached := more)) && forall j :: 0 <= j < k ==> Listed(more, GrantsOf(p, a)[j], true)
    decreases k
  {
    hide Inv, Listed, PathTo, GrantsOf;
    var grants, list := GrantsOf(p, a), GrantList(GrantsOf(p, a), prefix);
    if k == 0 {
      assert v.reached + list[..0] == v.reached;
    } else {
      GrantsKeep(p, root, a, prefix, v, k - 1);
      var before, r := v.reached + list[..k - 1], list[k - 1];
      GrantIsGenuine(p, root, a, prefix, grants[k - 1]);
      AddKeeps(p, root, v.seen, v.stack, before, r);
      assert list[..k] == list[..k - 1] + [r];
      Glue(v.reached, list[..k - 1], [r]);
      LastListed(before, r);
      forall j | 0 <= j < k ensures Listed(v.reached + list[..k], grants[j], true) {
        if j < k - 1 { ListedGrows(before, before + [r], grants[j], true); }
      }
    }
  }

  lemma LastListed(reached: seq<Reached>, r: Reached)
    ensures Listed(reached + [r], r.grant, Autonomous(r.via))
  {
    assert (reached + [r])[|reached|] == r;
  }

  lemma GrantIsGenuine(p: Project, root: Node, a: string, prefix: seq<Hop>, g: Grant)
    requires PathTo(p, root, prefix, Agent(a)) && g in GrantsOf(p, a)
    ensures var r := Reached(g, prefix + [OperationHop(g.uses, true)]); Genuine(p, root, r) && Autonomous(r.via)
  {
    hide PathTo, GrantsOf;
    var r := Reached(g, prefix + [OperationHop(g.uses, true)]);
    assert r.via[..|r.via| - 1] == prefix;
    assert r.via[|r.via| - 1] == OperationHop(g.uses, true);
    assert ByAgent(p, root, prefix, g);
  }

  lemma UseIsGenuine(p: Project, root: Node, w: string, i: nat, prefix: seq<Hop>)
    requires HasStep(p, w, i) && PathTo(p, root, prefix, Workflow(w)) && p.workflows[w][i].uses != ""
    ensures var step := p.workflows[w][i];
            var r := Reached(Grant(step.uses, false), prefix + [StepHop(step.id)] + [OperationHop(step.uses, false)]);
            Genuine(p, root, r) && !Autonomous(r.via)
  {
    hide PathTo;
    var step := p.workflows[w][i];
    var here := prefix + [StepHop(step.id)];
    var g := Grant(step.uses, false);
    var r := Reached(g, here + [OperationHop(g.uses, false)]);
    assert r.via[..|r.via| - 1] == here && here[..|here| - 1] == prefix;
    assert ByStep(p, root, here, g);
    PathsAreStatic(p, root, prefix, Workflow(w));
    assert forall j :: 0 <= j < |r.via| - 1 ==> !r.via[j].OperationHop?;
  }

  /** Entering a node keeps the walk sound and leaves the node entered. */
  lemma {:induction false} VisitKeeps(p: Project, root: Node, n: Node, prefix: seq<Hop>, v: Visited)
    requires n in Named(p) + {root} && PathTo(p, root, prefix, n) && Sound(p, root, v)
    ensures var r := Visit(p, root, n, prefix, v); Sound(p, root, r) && n in r.seen + r.stack
    decreases Remaining(p, root, v), 0, 0
  {
    hide Inv, Listed, PathTo, Named, Expanded, Accounted, VisitSteps, GrantsOf;
    if n !in v.stack && n !in v.seen {
      EnterLeft(p, root, v, n);
      PushKeeps(p, root, v.seen, v.stack, v.reached, n);
      var inside := v.(stack := v.stack + {n});
      match n
      case Agent(a) =>
        var list := GrantList(GrantsOf(p, a), prefix);
        GrantsKeep(p, root, a, prefix, inside, |GrantsOf(p, a)|);
        assert list[..|list|] == list;
        var done := inside.(reached := v.reached + list);
        AgentDone(p, a, done);
        PopKeeps(p, root, done.seen, done.stack, done.reached, n);
      case Workflow(w) =>
        if w in p.workflows {
          VisitStepsKeep(p, root, w, 0, prefix, inside);
          var done := VisitSteps(p, root, w, 0, prefix, inside);
          WorkflowDone(p, w, done);
          PopKeeps(p, root, done.seen, done.stack, done.reached, n);
        } else {
          NoSteps(p, w, inside);
          PopKeeps(p, root, inside.seen, inside.stack, inside.reached, n);
        }
    }
  }

  lemma AgentDone(p: Project, a: string, v: Visited)
    requires forall j :: 0 <= j < |GrantsOf(p, a)| ==> Listed(v.reached, GrantsOf(p, a)[j], true)
    ensures Expanded(p, v.seen + v.stack, Agent(a)) && Accounted(p, v.reached, Agent(a))
  {
    hide Listed;
    forall g, b | Performs(p, Agent(a), g, b) ensures Listed(v.reached, g, b) { GrantsAre(p, a, g); }
  }

  lemma GrantsAre(p: Project, a: string, g: Grant)
    ensures g in GrantsOf(p, a) <==> Performs(p, Agent(a), g, true)
    ensures g in GrantsOf(p, a) <==> exists j :: 0 <= j < |GrantsOf(p, a)| && GrantsOf(p, a)[j] == g
  {
  }

  lemma NoSteps(p: Project, w: string, v: Visited)
    requires w !in p.workflows
    ensures Expanded(p, v.seen + v.stack, Workflow(w)) && Accounted(p, v.reached, Workflow(w))
  {
  }

  /** After its last step a workflow is expanded and accounted for. */
  lemma WorkflowDone(p: Project, w: string, v: Visited)
    requires w in p.workflows && forall j: nat :: j < |p.workflows[w]| ==> StepSettled(p, w, j, v)
    ensures Expanded(p, v.seen + v.stack, Workflow(w)) && Accounted(p, v.reached, Workflow(w))
  {
    hide Listed;
    forall g, a | Performs(p, Workflow(w), g, a) ensures Listed(v.reached, g, a) {
      var i: nat :| HasStep(p, w, i) && p.workflows[w][i].uses == g.uses;
      assert StepSettled(p, w, i, v);
      assert g == Grant(p.workflows[w][i].uses, false);
    }
    forall m | IsSucc(p, Workflow(w), m) ensures m in v.seen + v.stack {
      var i: nat :| HasStep(p, w, i) && Leads(p.workflows[w][i], m);
      assert StepSettled(p, w, i, v);
    }
  }

  /** Step i's operation is listed and the nodes it leads to were entered. */
  ghost predicate StepSettled(p: Project, w: string, i: nat, v: Visited)
    requires HasStep(p, w, i)
  {
    && (forall n :: Leads(p.workflows[w][i], n) ==> n in v.seen + v.stack)
    && (p.workflows[w][i].uses != "" ==> Listed(v.reached, Grant(p.workflows[w][i].uses, false), false))
  }

  lemma SettledOnward(p: Project, w: string, i: nat, v: Visited, r: Visited)
    requires HasStep(p, w, i) && StepSettled(p, w, i, v) && Onward(v, r)
    ensures StepSettled(p, w, i, r)
  {
    hide Listed;
    if p.workflows[w][i].uses != "" { ListedGrows(v.reached, r.reached, Grant(p.workflows[w][i].uses, false), false); }
  }

  lemma UsedKeeps(p: Project, root: Node, w: string, i: nat, prefix: seq<Hop>, v: Visited)
    requires HasStep(p, w, i) && PathTo(p, root, prefix, Workflow(w)) && Sound(p, root, v)
    ensures var used := Used(p, w, i, prefix, v); Sound(p, root, used) && Onward(v, used)
    ensures p.workflows[w][i].uses != "" ==>
              Listed(Used(p, w, i, prefix, v).reached, Grant(p.workflows[w][i].uses, false), false)
  {
    hide Inv, Listed, PathTo;
    var step := p.workflows[w][i];
    if step.uses != "" {
      var use := Reached(Grant(step.uses, false), prefix + [StepHop(step.id)] + [OperationHop(step.uses, false)]);
      UseIsGenuine(p, root, w, i, prefix);
      AddKeeps(p, root, v.seen, v.stack, v.reached, use);
      LastListed(v.reached, use);
    }
  }

  lemma {:induction false} VisitStepKeeps(p: Project, root: Node, w: string, i: nat, prefix: seq<Hop>, v: Visited)
    requires HasStep(p, w, i) && PathTo(p, root, prefix, Workflow(w)) && Sound(p, root, v)
    ensures var r := VisitStep(p, root, w, i, prefix, v); Sound(p, root, r) && StepSettled(p, w, i, r)
    decreases Remaining(p, root, v), 1, 0
  {
    hide Sound, Listed, PathTo, Named, Visit, Remaining;
    var step := p.workflows[w][i];
    var here := prefix + [StepHop(step.id)];
    var used := Used(p, w, i, prefix, v);
    UsedKeeps(p, root, w, i, prefix, v);
    OnwardLeft(p, root, v, used);
    if step.agent != "" {
      ExtendPath(p, root, prefix, w, i, Agent(step.agent));
      SuccNamed(p, Workflow(w), Agent(step.agent));
      VisitKeeps(p, root, Agent(step.agent), here + [AgentHop(step.agent)], used);
    }
    var asked := if step.agent != "" then Visit(p, root, Agent(step.agent), here + [AgentHop(step.agent)], used)
      else used;
    OnwardLeft(p, root, v, asked);
    if step.workflow != "" {
      ExtendPath(p, root, prefix, w, i, Workflow(step.workflow));
      SuccNamed(p, Workflow(w), Workflow(step.workflow));
      VisitKeeps(p, root, Workflow(step.workflow), here + [WorkflowHop(step.workflow)], asked);
    }
    var r := VisitStep(p, root, w, i, prefix, v);
    assert Onward(used, r) && Onward(asked, r);
    if step.uses != "" { ListedGrows(used.reached, r.reached, Grant(step.uses, false), false); }
  }

  lemma {:induction false} VisitStepsKeep(p: Project, root: Node, w: string, i: nat, prefix: seq<Hop>, v: Visited)
    requires w in p.workflows && i <= |p.workflows[w]| && PathTo(p, root, prefix, Workflow(w)) && Sound(p, root, v)
    ensures var r := VisitSteps(p, root, w, i, prefix, v);
            Sound(p, root, r) && forall j: nat :: i <= j < |p.workflows[w]| ==> StepSettled(p, w, j, r)
    decreases Remaining(p, root, v), 2, |p.workflows[w]| - i
  {
    hide Inv, Listed, PathTo, Named, VisitStep, Remaining, StepSettled, Sound;
    if i < |p.workflows[w]| {
      var u := VisitStep(p, root, w, i, prefix, v);
      VisitStepKeeps(p, root, w, i, prefix, v);
      OnwardLeft(p, root, v, u);
      VisitStepsKeep(p, root, w, i + 1, prefix, u);
      SettledOnward(p, w, i, u, VisitSteps(p, root, w, i + 1, prefix, u));
    }
  }

  /** The walk from a root lists exactly the operations some reachable node performs, tells
      autonomous from static occurrences, and gives each a genuine path. */
  lemma ReachIsExact(p: Project, root: Node)
    ensures forall i :: 0 <= i < |Reach(p, root)| ==> Genuine(p, root, Reach(p, root)[i])
    ensures forall g, a :: Occurs(p, root, g, a) <==> Listed(Reach(p, root), g, a)
  {
    hide Genuine, Performs, Visit;
    var start := Visited({}, {}, []);
    assert Sound(p, root, start) by { NothingYet(p, root); }
    assert PathTo(p, root, [HopTo(root)], root);
    VisitKeeps(p, root, root, [HopTo(root)], start);
    var end := Visit(p, root, root, [HopTo(root)], start);
    assert end.seen + {} == end.seen;
    forall g, a | Occurs(p, root, g, a) ensures Listed(end.reached, g, a) {
      var n :| Reachable(p, root, n) && Performs(p, n, g, a);
      var hops :| PathTo(p, root, hops, n);
      ClosedHoldsReachable(p, root, end.seen, hops, n);
    }
    forall g, a | Listed(end.reached, g, a) ensures Occurs(p, root, g, a) {
      var i :| 0 <= i < |end.reached| && end.reached[i].grant == g && Autonomous(end.reached[i].via) == a;
      GenuineOccurs(p, root, end.reached[i]);
    }
  }

  lemma NothingYet(p: Project, root: Node)
    ensures Inv(p, root, {}, {}, [])
  {
  }

  // ----- the walker object

  class Walker {
    const p: Project
    const root: Node
    var stack: set<Node>
    var seen: set<Node>
    var reached: seq<Reached>

    constructor (p: Project, root: Node)
      ensures this.p == p && this.root == root && Now() == Visited({}, {}, [])
    {
      this.p, this.root := p, root;
      stack, seen, reached := {}, {}, [];
    }

    ghost function Now(): Visited
      reads this
    {
      Visited(stack, seen, reached)
    }

    method AddReached(prefix: seq<Hop>, g: Grant, autonomous: bool)
      modifies this`reached
      ensures reached == old(reached) + [Reached(g, prefix + [OperationHop(g.uses, autonomous)])]
    {
      reached := reached + [Reached(g, prefix + [OperationHop(g.uses, autonomous)])];
    }

    method WalkWorkflow(name: string, prefix: seq<Hop>)
      requires Workflow(name) in Named(p) + {root}
      modifies this
      ensures Now() == Visit(p, root, Workflow(name), prefix, old(Now()))
      decreases Remaining(p, root, Now()), 0
    {
      hide Named, Remaining, VisitStep, VisitSteps;
      var node := Workflow(name);
      if node in stack || node in seen { return; }
      EnterLeft(p, root, Now(), node);
      stack := stack + {node};
      ghost var inside := Now();
      if name in p.workflows {
        var steps := p.workflows[name];
        for i := 0 to |steps|
          invariant Onward(inside, Now())
          invariant VisitSteps(p, root, name, i, prefix, Now()) == VisitSteps(p, root, name, 0, prefix, inside)
        {
          OnwardLeft(p, root, inside, Now());
          StepsUnfold(p, root, name, i, prefix, Now());
          WalkStep(name, i, prefix);
        }
        StepsEnd(p, root, name, prefix, Now());
      }
      stack, seen := stack - {node}, seen + {node};
    }

    method WalkStep(w: string, i: nat, prefix: seq<Hop>)
      requires HasStep(p, w, i)
      modifies this
      ensures Now() == VisitStep(p, root, w, i, prefix, old(Now()))
      decreases Remaining(p, root, Now()), 1
    {
      hide Named, Visit, Remaining;
      var step := p.workflows[w][i];
      var here := prefix + [StepHop(step.id)];
      if step.uses != "" { AddReached(here, Grant(step.uses, false), false); }
      OnwardLeft(p, root, old(Now()), Now());
      if step.agent != "" {
        SuccNamed(p, Workflow(w), Agent(step.agent));
        WalkAgent(step.agent, here + [AgentHop(step.agent)]);
      }
      OnwardLeft(p, root, old(Now()), Now());
      if step.workflow != "" {
        SuccNamed(p, Workflow(w), Workflow(step.workflow));
        WalkWorkflow(step.workflow, here + [WorkflowHop(step.workflow)]);
      }
    }

    method WalkAgent(name: string, prefix: seq<Hop>)
      requires Agent(name) in Named(p) + {root}
      modifies this
      ensures Now() == Visit(p, root, Agent(name), prefix, old(Now()))
    {
      hide Named;
      var node := Agent(name);
      if node in stack || node in seen { return; }
      stack := stack + {node};
      var grants := GrantsOf(p, name);
      for i := 0 to |grants|
        invariant stack == old(stack) + {node} && seen == old(seen)
        invariant reached == old(reached) + GrantList(grants, prefix)[..i]
      {
        AddReached(prefix, grants[i], true);
        assert GrantList(grants, prefix)[..i + 1] == GrantList(grants, prefix)[..i] + [GrantList(grants, prefix)[i]];
      }
      assert GrantList(grants, prefix)[..|grants|] == GrantList(grants, prefix);
      stack, seen := stack - {node}, seen + {node};
    }
  }

  /** The walk from a root. It stops on every project, cyclic ones included. */
  method Walk(p: Project, root: Node) returns (reached: seq<Reached>)
    ensures reached == Reach(p, root)
    ensures forall i :: 0 <= i < |reached| ==> Genuine(p, root, reached[i])
    ensures forall g, a :: Occurs(p, root, g, a) <==> Listed(reached, g, a)
  {
    hide Visit;
    var w := new Walker(p, root);
    match root {
      case Workflow(name) => w.WalkWorkflow(name, [WorkflowHop(name)]);
      case Agent(name) => w.WalkAgent(name, [AgentHop(name)]);
    }
    reached := w.reached;
    ReachIsExact(p, root);
  }
}
