/** The policy check over effect bounds (internal/effects/enforce.go). */
module PolicyCheck {
  import opened Values
  import opened Effects
  import opened EffectBound

  datatype Policy = Policy(permit: seq<string>, withApproval: seq<string>, permissive: bool, requireAll: bool,
      requiredFor: seq<string>)

  /** The policy a root names (None: none, or not found), and whether an operation's own tool
      safety asks for approval (always so when its name does not parse). */
  datatype Rules = Rules(policyOf: Node -> Option<Policy>, risky: string -> bool)

  /** Membership, or coverage by a dotted prefix. */
  predicate EffectCovers(declared: string, candidate: string) {
    declared != "" && candidate != "" && (declared == candidate || declared + "." <= candidate)
  }

  predicate Covered(list: seq<string>, ident: string) {
    exists i :: 0 <= i < |list| && EffectCovers(list[i], ident)
  }

  function Permit(pol: Option<Policy>): seq<string> {
    if pol.None? then [] else pol.value.permit
  }

  function WithApproval(pol: Option<Policy>): seq<string> {
    if pol.None? then [] else pol.value.withApproval
  }

  predicate NeedsApproval(rules: Rules, pol: Option<Policy>, uses: string) {
    if pol.Some? && pol.value.permissive then false
    else if pol.Some? && (pol.value.requireAll || uses in pol.value.requiredFor) then true
    else rules.risky(uses)
  }

  datatype Violation =
    | UnknownEffect(root: Node, uses: string, via: seq<Hop>)
    | NotPermitted(root: Node, ident: string, uses: string, via: seq<Hop>)
    | MustBeApproved(root: Node, ident: string, uses: string, via: seq<Hop>)

  /** Every occurrence of the effect may run under the policy. */
  ghost predicate Allowed(rules: Rules, pol: Option<Policy>, e: Effect) {
    && e.Declared?
    && (Covered(Permit(pol), e.ident) || Covered(WithApproval(pol), e.ident))
    && (Covered(WithApproval(pol), e.ident) || forall u :: HasOcc(e.occs, u) ==> !NeedsApproval(rules, pol, u))
  }

  method FirstNeedingApproval(rules: Rules, pol: Option<Policy>, occs: seq<Occurrence>) returns (r: Option<Occurrence>)
    ensures r.None? <==> forall u :: HasOcc(occs, u) ==> !NeedsApproval(rules, pol, u)
    ensures r.Some? ==> r.value in occs && NeedsApproval(rules, pol, r.value.uses)
  {
    for i := 0 to |occs|
      invariant forall j :: 0 <= j < i ==> !NeedsApproval(rules, pol, occs[j].uses)
    {
      if NeedsApproval(rules, pol, occs[i].uses) {
        assert HasOcc(occs, occs[i].uses);
        return Some(occs[i]);
      }
    }
    return None;
  }

  method CheckBound(rules: Rules, root: Node, effects: seq<Effect>) returns (errs: seq<Violation>)
    ensures errs == [] <==> forall i :: 0 <= i < |effects| ==> Allowed(rules, rules.policyOf(root), effects[i])
    ensures forall v :: v in errs ==> v.root == root
  {
    var pol := rules.policyOf(root);
    errs := [];
    for i := 0 to |effects|
      invariant errs == [] <==> forall j :: 0 <= j < i ==> Allowed(rules, pol, effects[j])
      invariant forall v :: v in errs ==> v.root == root
    {
      match effects[i]
      case Unknown(uses, via) => errs := errs + [UnknownEffect(root, uses, via)];
      case Declared(ident, uses, via, occs) =>
        var inPermit, inApproval := Covered(Permit(pol), ident), Covered(WithApproval(pol), ident);
        if !inPermit && !inApproval {
          errs := errs + [NotPermitted(root, ident, uses, via)];
        } else if !inApproval {
          var occ := FirstNeedingApproval(rules, pol, occs);
          if occ.Some? { errs := errs + [MustBeApproved(root, ident, occ.value.uses, occ.value.via)]; }
        }
    }
  }

  // ----- what a clean check means

  /** A text cut at its dots. */
  function Segments(s: string): (r: seq<string>)
    ensures r != []
  {
    if s == "" then [""]
    else
      var rest := Segments(s[1..]);
      if s[0] == '.' then [""] + rest else [[s[0]] + rest[0]] + rest[1..]
  }

  function Joined(parts: seq<string>): string
    requires parts != []
  {
    if |parts| == 1 then parts[0] else parts[0] + "." + Joined(parts[1..])
  }

  lemma {:induction false} JoinedSegments(s: string)
    ensures Joined(Segments(s)) == s
    decreases |s|
  {
    if s != "" {
      JoinedSegments(s[1..]);
      var rest := Segments(s[1..]);
      if s[0] == '.' {
        assert ([""] + rest)[1..] == rest;
      } else if |rest| > 1 {
        assert ([[s[0]] + rest[0]] + rest[1..])[1..] == rest[1..];
        assert [s[0]] + (rest[0] + "." + Joined(rest[1..])) == ([s[0]] + rest[0]) + "." + Joined(rest[1..]);
      }
    }
  }

  lemma {:induction false} SegmentsJoin(x: string, y: string)
    ensures Segments(x + "." + y) == Segments(x) + Segments(y)
    decreases |x|
  {
    if x == "" {
      assert (x + "." + y)[1..] == y;
    } else {
      assert (x + "." + y)[1..] == x[1..] + "." + y;
      SegmentsJoin(x[1..], y);
    }
  }

  lemma {:induction false} JoinedParts(a: seq<string>, b: seq<string>)
    requires a != [] && b != []
    ensures Joined(a + b) == Joined(a) + "." + Joined(b)
    decreases |a|
  {
    assert (a + b)[1..] == a[1..] + b;
    if |a| == 1 {
      assert a[1..] + b == b;
    } else {
      JoinedParts(a[1..], b);
    }
  }

  /** One effect covers another exactly when neither is empty and its dotted segments are the
      first segments of the other. */
  lemma CoversIff(declared: string, candidate: string)
    ensures EffectCovers(declared, candidate) <==>
            declared != "" && candidate != "" && Segments(declared) <= Segments(candidate)
  {
    var a, b := Segments(declared), Segments(candidate);
    JoinedSegments(declared);
    JoinedSegments(candidate);
    if declared + "." <= candidate {
      var rest := candidate[|declared| + 1..];
      assert candidate == declared + "." + rest;
      SegmentsJoin(declared, rest);
    }
    if a <= b && a != b {
      assert b == a + b[|a|..];
      JoinedParts(a, b[|a|..]);
    }
  }

  /** Some entry of the list covers the effect, segment by segment. */
  ghost predicate Grants(list: seq<string>, ident: string) {
    ident != "" && exists i: nat :: i < |list| && list[i] != "" && Segments(list[i]) <= Segments(ident)
  }

  lemma CoveredIff(list: seq<string>, ident: string)
    ensures Covered(list, ident) <==> Grants(list, ident)
  {
    hide EffectCovers;
    forall i: nat | i < |list|
      ensures EffectCovers(list[i], ident) <==>
              list[i] != "" && ident != "" && Segments(list[i]) <= Segments(ident)
    {
      CoversIff(list[i], ident);
    }
  }

  /** A human must approve the operation: its tool is risky, or the policy says so; a permissive
      policy asks for nothing. */
  ghost predicate AsksFirst(rules: Rules, root: Node, uses: string) {
    match rules.policyOf(root)
    case None => rules.risky(uses)
    case Some(pol) => !pol.permissive && (rules.risky(uses) || pol.requireAll || uses in pol.requiredFor)
  }

  /** The policy of the root lets the effect happen after an approval. */
  ghost predicate WithAsking(rules: Rules, root: Node, ident: string) {
    match rules.policyOf(root) case None => false case Some(pol) => Grants(pol.withApproval, ident)
  }

  /** The policy of the root lets the effect happen at once. */
  ghost predicate Freely(rules: Rules, root: Node, ident: string) {
    match rules.policyOf(root) case None => false case Some(pol) => Grants(pol.permit, ident)
  }

  lemma PolicyIs(rules: Rules, root: Node, ident: string)
    ensures Covered(Permit(rules.policyOf(root)), ident) <==> Freely(rules, root, ident)
    ensures Covered(WithApproval(rules.policyOf(root)), ident) <==> WithAsking(rules, root, ident)
  {
    hide Covered, Grants;
    var pol := rules.policyOf(root);
    NoneCovered(ident);
    if pol.Some? {
      CoveredIff(pol.value.permit, ident);
      CoveredIff(pol.value.withApproval, ident);
    }
  }

  lemma NoneCovered(ident: string)
    ensures !Covered([], ident)
  {
  }

  lemma ApprovalIs(rules: Rules, root: Node, uses: string)
    ensures NeedsApproval(rules, rules.policyOf(root), uses) <==> AsksFirst(rules, root, uses)
  {
  }

  /** The operation is resolved, declares effects, each of which the policy lets happen; and if a
      human must approve it, each may happen after an approval. */
  ghost predicate SafeOp(p: Project, rules: Rules, root: Node, g: Grant) {
    && !g.unknown && g.uses in p.manifest && p.manifest[g.uses] != []
    && forall ident | ident in p.manifest[g.uses] ::
         && (Freely(rules, root, ident) || WithAsking(rules, root, ident))
         && (AsksFirst(rules, root, g.uses) ==> WithAsking(rules, root, ident))
  }

  lemma SafeOpIs(p: Project, rules: Rules, root: Node, g: Grant)
    ensures var pol := rules.policyOf(root);
            SafeOp(p, rules, root, g) <==>
              && KnownOp(p, g)
              && (forall ident ::
                    Declares(p, g, ident) ==> Covered(Permit(pol), ident) || Covered(WithApproval(pol), ident))
              && (NeedsApproval(rules, pol, g.uses) ==>
                    forall ident :: Declares(p, g, ident) ==> Covered(WithApproval(pol), ident))
  {
    hide Covered, Freely, WithAsking, NeedsApproval, AsksFirst, Permit, WithApproval;
    ApprovalIs(rules, root, g.uses);
    forall ident
      ensures Covered(Permit(rules.policyOf(root)), ident) <==> Freely(rules, root, ident)
      ensures Covered(WithApproval(rules.policyOf(root)), ident) <==> WithAsking(rules, root, ident)
    {
      PolicyIs(rules, root, ident);
    }
  }

  /** Every operation the root reaches is safe. */
  ghost predicate Safe(p: Project, rules: Rules, root: Node) {
    forall g, a :: Occurs(p, root, g, a) ==> SafeOp(p, rules, root, g)
  }

  /** Every resolved operation the root reaches is safe. */
  ghost predicate SafeResolved(p: Project, rules: Rules, root: Node) {
    forall g, a :: Occurs(p, root, g, a) && !g.unknown ==> SafeOp(p, rules, root, g)
  }

  /** Every operation that stands for its name is safe. */
  ghost predicate SafeStanding(p: Project, rules: Rules, root: Node) {
    forall g :: Stands(p, root, g) ==> SafeOp(p, rules, root, g)
  }

  /** A bound draws no violation exactly when the operations that stand for their names are
      safe, whatever the names. */
  lemma CleanIffStandingSafe(p: Project, rules: Rules, root: Node, effects: seq<Effect>)
    requires Representative(p, root, effects)
    ensures (forall i :: 0 <= i < |effects| ==> Allowed(rules, rules.policyOf(root), effects[i]))
            <==> SafeStanding(p, rules, root)
  {
    hide Covered, HasOcc, Stands, NeedsApproval, KnownOp, SafeOp;
    var pol := rules.policyOf(root);
    if forall i :: 0 <= i < |effects| ==> Allowed(rules, pol, effects[i]) {
      assert forall u :: !ListsUnknown(effects, u);
      forall g | Stands(p, root, g) ensures SafeOp(p, rules, root, g) {
        SafeOpIs(p, rules, root, g);
        assert !StandsUnknown(p, root, g.uses);
        forall ident | Declares(p, g, ident)
          ensures Covered(Permit(pol), ident) || Covered(WithApproval(pol), ident)
          ensures NeedsApproval(rules, pol, g.uses) ==> Covered(WithApproval(pol), ident)
        {
          assert StandsFor(p, root, g.uses, ident);
          assert ListsIdent(effects, ident);
          var i :| 0 <= i < |effects| && effects[i].Declared? && effects[i].ident == ident;
          assert HasOcc(effects[i].occs, g.uses);
        }
      }
    }
    if SafeStanding(p, rules, root) {
      forall i | 0 <= i < |effects| ensures Allowed(rules, pol, effects[i]) {
        StandingEntry(p, rules, root, effects, i);
      }
    }
  }

  lemma StandingEntry(p: Project, rules: Rules, root: Node, effects: seq<Effect>, i: nat)
    requires Representative(p, root, effects) && SafeStanding(p, rules, root) && i < |effects|
    ensures Allowed(rules, rules.policyOf(root), effects[i])
  {
    hide Covered, HasOcc, Stands, NeedsApproval, KnownOp, SafeOp;
    var e := effects[i];
    forall g ensures SafeOp(p, rules, root, g) ==> KnownOp(p, g) { SafeOpIs(p, rules, root, g); }
    assert !StandsUnknown(p, root, e.uses);
    assert !ListsUnknown(effects, e.uses);
    if e.Declared? {
      assert ListsIdent(effects, e.ident);
      var w: string :| StandsFor(p, root, w, e.ident);
      var g :| Stands(p, root, g) && g.uses == w && Declares(p, g, e.ident);
      SafeOpIs(p, rules, root, g);
      forall u | HasOcc(e.occs, u) && NeedsApproval(rules, rules.policyOf(root), u)
        ensures Covered(WithApproval(rules.policyOf(root)), e.ident) {
        assert StandsFor(p, root, u, e.ident);
        var h :| Stands(p, root, h) && h.uses == u && Declares(p, h, e.ident);
        SafeOpIs(p, rules, root, h);
      }
    }
  }

  /** No unresolved agent stands for its name: each one reached is preceded in the walk by an
      agent's grant of the same name. */
  ghost predicate NoAgentStands(p: Project, root: Node) {
    forall g :: Stands(p, root, g) ==> !g.unknown
  }

  /** What a root without violations guarantees, whatever the names. */
  ghost predicate Clean(p: Project, rules: Rules, root: Node) {
    SafeResolved(p, rules, root) && NoAgentStands(p, root)
  }

  /** Safe representatives are all a clean root promises, and they make every resolved
      operation safe: a known representative of its name is that operation. */
  lemma StandingSafeIffClean(p: Project, rules: Rules, root: Node)
    ensures SafeStanding(p, rules, root) <==> Clean(p, rules, root)
  {
    hide Covered, Stands, NeedsApproval, Occurs;
    if SafeStanding(p, rules, root) {
      forall g, a | Occurs(p, root, g, a) && !g.unknown ensures SafeOp(p, rules, root, g) {
        var h := OccursStands(p, root, g, a);
        assert KnownOp(p, h) && h == g;
      }
    }
    if Clean(p, rules, root) {
      forall g | Stands(p, root, g) ensures SafeOp(p, rules, root, g) { StandsOccurs(p, root, g); }
    }
  }

  /** Where no unresolved agent shares the name of a known operation, clean means safe. */
  lemma CleanIsSafe(p: Project, rules: Rules, root: Node)
    requires Unshadowed(p, root)
    ensures Clean(p, rules, root) <==> Safe(p, rules, root)
  {
    hide Covered, Stands, NeedsApproval, Occurs;
    if Clean(p, rules, root) {
      forall g, a | Occurs(p, root, g, a) ensures SafeOp(p, rules, root, g) {
        var h := OccursStands(p, root, g, a);
        StandsOccurs(p, root, h);
        assert SafeOp(p, rules, root, h);
      }
    }
    if Safe(p, rules, root) {
      forall g | Stands(p, root, g) ensures !g.unknown { StandsOccurs(p, root, g); }
    }
  }

  /** Which unresolved agents a clean root hides: exactly those whose name some resolved, known
      operation stands for. */
  lemma HiddenIff(p: Project, rules: Rules, root: Node, g: Grant, a: bool)
    requires SafeResolved(p, rules, root) && Occurs(p, root, g, a) && g.unknown
    ensures !Stands(p, root, g) <==> Stands(p, root, Grant(g.uses, false))
    ensures !Stands(p, root, g) ==> KnownOp(p, Grant(g.uses, false)) && !Unshadowed(p, root)
  {
    hide Covered, NeedsApproval, Occurs, Stands;
    var h := OccursStands(p, root, g, a);
    StandsOccurs(p, root, h);
    if Stands(p, root, g) { StandsOnce(p, root, g, h); }
    if Stands(p, root, g) && Stands(p, root, Grant(g.uses, false)) { StandsOnce(p, root, g, Grant(g.uses, false)); }
  }

  // ----- the whole project

  predicate AnyDeclaredEffects(p: Project) {
    exists u :: u in p.manifest && p.manifest[u] != []
  }

  ghost predicate UsedInWorkflow(p: Project, a: string) {
    exists w, i: nat :: HasStep(p, w, i) && a != "" && p.workflows[w][i].agent == a
  }

  function AgentsInSteps(steps: seq<Step>): set<string> {
    set i | 0 <= i < |steps| && steps[i].agent != "" :: steps[i].agent
  }

  method WorkflowAgentNames(p: Project) returns (names: set<string>)
    ensures forall a :: a in names <==> UsedInWorkflow(p, a)
  {
    names := {};
    var rest := p.workflows.Keys;
    while rest != {}
      invariant rest <= p.workflows.Keys
      invariant forall a ::
                  a in names <==>
                    exists w, i: nat :: w !in rest && HasStep(p, w, i) && a != "" && p.workflows[w][i].agent == a
      decreases |rest|
    {
      var w :| w in rest;
      ghost var before := rest;
      names := names + AgentsInSteps(p.workflows[w]);
      rest := rest - {w};
      forall a ensures a in names <==>
        exists v, i: nat :: v !in rest && HasStep(p, v, i) && a != "" && p.workflows[v][i].agent == a {
        if a in AgentsInSteps(p.workflows[w]) {
          var i :| 0 <= i < |p.workflows[w]| && p.workflows[w][i].agent == a;
          assert w !in rest && HasStep(p, w, i) && p.workflows[w][i].agent == a;
        }
      }
    }
  }

  /** The roots the check covers: every workflow, and every agent no workflow uses. */
  ghost predicate IsRoot(p: Project, n: Node) {
    match n case Workflow(w) => w in p.workflows case Agent(a) => a in p.agents && !UsedInWorkflow(p, a)
  }

  ghost predicate Reports(errs: seq<Violation>, n: Node) {
    exists i :: 0 <= i < |errs| && errs[i].root == n
  }

  /** One root draws no violation exactly when it is clean. */
  method CheckRoot(p: Project, rules: Rules, root: Node) returns (errs: seq<Violation>)
    ensures errs == [] <==> Clean(p, rules, root)
    ensures forall v :: v in errs ==> v.root == root
  {
    hide Exact, Representative, Allowed, Clean, SafeStanding;
    var effects, _ := Bound(p, root);
    errs := CheckBound(rules, root, effects);
    CleanIffStandingSafe(p, rules, root, effects);
    StandingSafeIffClean(p, rules, root);
  }

  /** The violations name exactly the roots in `checked` that are not clean. */
  ghost predicate Reported(p: Project, rules: Rules, errs: seq<Violation>, checked: set<Node>) {
    forall n :: Reports(errs, n) <==> n in checked && !Clean(p, rules, n)
  }

  method CheckRoots(p: Project, rules: Rules, roots: set<Node>) returns (errs: seq<Violation>)
    ensures Reported(p, rules, errs, roots)
  {
    hide Clean;
    errs := [];
    var rest := roots;
    while rest != {}
      invariant rest <= roots
      invariant Reported(p, rules, errs, roots - rest)
      decreases |rest|
    {
      var n :| n in rest;
      var more := CheckRoot(p, rules, n);
      ReportedGrows(p, rules, errs, roots - rest, more, n);
      assert roots - (rest - {n}) == (roots - rest) + {n};
      errs, rest := errs + more, rest - {n};
    }
    assert roots - {} == roots;
  }

  lemma ReportedGrows(p: Project, rules: Rules, errs: seq<Violation>, checked: set<Node>, more: seq<Violation>, n: Node)
    requires Reported(p, rules, errs, checked) && (more == [] <==> Clean(p, rules, n))
             && (forall v :: v in more ==> v.root == n)
    ensures Reported(p, rules, errs + more, checked + {n})
  {
    hide Clean;
    forall m ensures Reports(errs + more, m) <==> Reports(errs, m) || (m == n && more != []) {
      if Reports(errs, m) {
        var i :| 0 <= i < |errs| && errs[i].root == m;
        assert (errs + more)[i].root == m;
      }
      if m == n && more != [] { assert (errs + more)[|errs|] == more[0] && more[0] in more; }
      if Reports(errs + more, m) {
        var i :| 0 <= i < |errs + more| && (errs + more)[i].root == m;
        if i >= |errs| { assert more[i - |errs|] in more; }
      }
    }
  }

  /** Check. When some tool declares effects, it names exactly the roots that are not clean: a
      root goes unnamed exactly when all the resolved operations it reaches are safe and no
      unresolved agent stands for its name. */
  method Check(p: Project, rules: Rules) returns (errs: seq<Violation>)
    ensures !AnyDeclaredEffects(p) ==> errs == []
    ensures AnyDeclaredEffects(p) ==> forall n :: Reports(errs, n) <==> IsRoot(p, n) && !Clean(p, rules, n)
    ensures AnyDeclaredEffects(p) ==>
              forall n :: IsRoot(p, n) && Unshadowed(p, n) ==> (Reports(errs, n) <==> !Safe(p, rules, n))
    ensures AnyDeclaredEffects(p) && errs == [] ==> forall n :: IsRoot(p, n) ==> SafeResolved(p, rules, n)
  {
    if forall u :: u in p.manifest ==> p.manifest[u] == [] { return []; }
    var used := WorkflowAgentNames(p);
    hide Safe, Unshadowed, UsedInWorkflow, Clean, SafeResolved;
    var roots := (set w | w in p.workflows :: Workflow(w)) + (set a | a in p.agents && a !in used :: Agent(a));
    assert forall n :: n in roots <==> IsRoot(p, n);
    errs := CheckRoots(p, rules, roots);
    forall n | IsRoot(p, n) && Unshadowed(p, n) ensures Clean(p, rules, n) <==> Safe(p, rules, n) {
      CleanIsSafe(p, rules, n);
    }
    forall n | Clean(p, rules, n) ensures SafeResolved(p, rules, n) { CleanResolved(p, rules, n); }
    assert errs == [] ==> forall n :: !Reports(errs, n);
  }

  lemma CleanResolved(p: Project, rules: Rules, n: Node)
    requires Clean(p, rules, n)
    ensures SafeResolved(p, rules, n)
  {
  }

  // ----- a check that says nothing

  /** A step asks agent "ok", which may use tool.a.b; the next asks an agent called tool.a.b
      that nothing resolves. */
  function SilentProject(): Project {
    Project(map["w" := [Step("s1", "", "ok", ""), Step("s2", "", "tool.a.b", "")]],
        map["ok" := [Grant("tool.a.b", false)]], map["tool.a.b" := ["write"]])
  }

  function SilentRules(): Rules {
    Rules(_ => Some(Policy(["write"], [], false, false, [])), _ => false)
  }

  /** The check reports nothing although an unresolved agent is reached, whose effects nobody
      knows: the grant before it stands for its name. */
  method SilentCheck() returns (errs: seq<Violation>)
    ensures errs == []
    ensures IsRoot(SilentProject(), Workflow("w"))
            && Occurs(SilentProject(), Workflow("w"), Grant("tool.a.b", true), true)
    ensures !Safe(SilentProject(), SilentRules(), Workflow("w"))
  {
    hide Clean, Safe, Reach, Occurs;
    var p, rules, w := SilentProject(), SilentRules(), Workflow("w");
    errs := Check(p, rules);
    SilentRun();
    assert UsedInWorkflow(p, "ok") by { assert HasStep(p, "w", 0) && p.workflows["w"][0].agent == "ok"; }
    assert forall n :: IsRoot(p, n) ==> n == w;
    assert "tool.a.b" in p.manifest && p.manifest["tool.a.b"] != [];
    assert AnyDeclaredEffects(p);
    assert errs != [] ==> Reports(errs, errs[0].root);
  }

  const ToOk: seq<Hop> := [WorkflowHop("w"), StepHop("s1"), AgentHop("ok")]
  const ToStray: seq<Hop> := [WorkflowHop("w"), StepHop("s2"), AgentHop("tool.a.b")]
  const ByOk: Reached := Reached(Grant("tool.a.b", false), ToOk + [OperationHop("tool.a.b", true)])
  const ByStray: Reached := Reached(Grant("tool.a.b", true), ToStray + [OperationHop("tool.a.b", true)])
  const Entered: Visited := Visited({Workflow("w")}, {}, [])
  const AskedOk: Visited := Visited({Workflow("w")}, {Agent("ok")}, [ByOk])
  const AskedBoth: Visited := Visited({Workflow("w")}, {Agent("ok"), Agent("tool.a.b")}, [ByOk, ByStray])

  lemma SilentStep1()
    ensures VisitStep(SilentProject(), Workflow("w"), "w", 0, [WorkflowHop("w")], Entered) == AskedOk
  {
    var p, w := SilentProject(), Workflow("w");
    assert GrantList([Grant("tool.a.b", false)], ToOk) == [ByOk];
    assert IsSucc(p, w, Agent("ok")) by { assert HasStep(p, "w", 0) && Leads(p.workflows["w"][0], Agent("ok")); }
    SuccNamed(p, w, Agent("ok"));
    hide Named, Remaining, IsSucc;
    assert [WorkflowHop("w")] + [StepHop("s1")] + [AgentHop("ok")] == ToOk;
    assert Visit(p, w, Agent("ok"), ToOk, Entered) == AskedOk;
  }

  lemma SilentStep2()
    ensures VisitStep(SilentProject(), Workflow("w"), "w", 1, [WorkflowHop("w")], AskedOk) == AskedBoth
  {
    var p, w := SilentProject(), Workflow("w");
    assert GrantList([Grant("tool.a.b", true)], ToStray) == [ByStray];
    assert IsSucc(p, w, Agent("tool.a.b")) by {
      assert HasStep(p, "w", 1) && Leads(p.workflows["w"][1], Agent("tool.a.b"));
    }
    SuccNamed(p, w, Agent("tool.a.b"));
    hide Named, Remaining, IsSucc;
    assert [WorkflowHop("w")] + [StepHop("s2")] + [AgentHop("tool.a.b")] == ToStray;
    assert Visit(p, w, Agent("tool.a.b"), ToStray, AskedOk) == AskedBoth;
  }

  lemma SilentReach()
    ensures Reach(SilentProject(), Workflow("w")) == [ByOk, ByStray] && Autonomous(ByOk.via) && Autonomous(ByStray.via)
  {
    hide VisitStep, Named, Remaining;
    var p, w := SilentProject(), Workflow("w");
    SilentStep1();
    SilentStep2();
    StepsEnd(p, w, "w", [WorkflowHop("w")], AskedBoth);
    StepsUnfold(p, w, "w", 1, [WorkflowHop("w")], AskedOk);
    StepsUnfold(p, w, "w", 0, [WorkflowHop("w")], Entered);
    hide VisitSteps;
    assert {} + {w} == Entered.stack;
    assert ByOk.via[3] == OperationHop("tool.a.b", true) && ByStray.via[3] == OperationHop("tool.a.b", true);
  }

  lemma SilentRun()
    ensures var p, w := SilentProject(), Workflow("w");
            && Clean(p, SilentRules(), w) && !Safe(p, SilentRules(), w) && Occurs(p, w, Grant("tool.a.b", true), true)
  {
    hide Occurs, Genuine, Autonomous, Reach, SilentProject;
    var p, rules, w := SilentProject(), SilentRules(), Workflow("w");
    var r := Reach(p, w);
    SilentReach();
    ReachIsExact(p, w);
    assert r[1].grant == Grant("tool.a.b", true) && Listed(r, Grant("tool.a.b", true), true);
    assert Occurs(p, w, Grant("tool.a.b", true), true) && !SafeOp(p, rules, w, Grant("tool.a.b", true));
    assert IsRep(r, |r|, 0) && !IsRep(r, |r|, 1);
    assert NoAgentStands(p, w);
    forall g, a | Occurs(p, w, g, a) && !g.unknown ensures SafeOp(p, rules, w, g) {
      assert Listed(r, g, a);
      assert g == Grant("tool.a.b", false);
      SilentGrantIsSafe();
    }
  }

  lemma SilentGrantIsSafe()
    ensures SafeOp(SilentProject(), SilentRules(), Workflow("w"), Grant("tool.a.b", false))
  {
    var pol := SilentRules().policyOf(Workflow("w"));
    assert Permit(pol)[0] == "write" && Covered(Permit(pol), "write");
  }
}
