/** What an InvokeWorkflow leaf comes to (internal/engine/execir_invoker.go InvokeWorkflow,
    workflowInputDocument), said over the fields of the callee's run. */
module EngineCalls {
  import opened Values
  import opened ExecIR
  import opened Eval
  import opened Interp
  import opened Engine
  import JsonNum
  import Slots

  /** The callee's input document: the canonical argument map, or, for a whole-document call, the
      canonical value of its one argument. */
  ghost predicate DocumentOf(call: Call, args: Scope, doc: Val)
    requires call.Workflow?
  {
    exists m :: JsonNum.Canonical(Obj(args)) == Some(Obj(m)) &&
                if call.whole then exists k :: m.Keys == {k} && doc == m[k] else doc == Obj(m)
  }

  /** The seeded frame is this leaf's, of this callee. */
  predicate FrameFor(v: Level, call: Call, a: Addr, f: Slots.Frame)
    requires call.Workflow?
  {
    v.frame == Some(f) && f.key == Site(call.bind, a) && f.callee == call.workflow
  }

  /** u is the callee's run: its program one level down, on what the claimed frame holds, or
      afresh on the document. */
  ghost predicate CalleeRun(d: Deployment, v: Level, call: Call, a: Addr, args: Scope, u: Level)
    requires call.Workflow?
  {
    && call.workflow in d.programs && u.prog == d.programs[call.workflow]
    && v.depth > 0 && u.depth == v.depth - 1 && u.chain == v.chain + [Site(call.bind, a)]
    && exists doc ::
         && DocumentOf(call, args, doc) && d.accepts(call.workflow, doc)
         && if v.frame.Some? && FrameFor(v, call, a, v.frame.value) then
              var f := v.frame.value;
              && u.memo == f.memo && u.ctl == f.ctl && u.frame == f.child
              && u.input == if f.input == Null then doc else f.input
            else u.memo == map[] && u.ctl == map[] && u.frame.None? && u.input == doc
  }

  /** What the caller is told: the callee's document, its failure, or, if its frame got the slot,
      to pause. */
  ghost predicate Told(d: Deployment, c: Cycle, v: Level, call: Call, a: Addr, u: Level, o: Outcome)
    requires call.Workflow?
  {
    var st := RunAt(d, c, u).st;
    match st
    case Failed(e) => o == Fail(e)
    case Suspended =>
      o == if c.slot(v.chain) == Some(Site(call.bind, a)) then Suspend else Fail(CallFailed(SECOND_SUBWORKFLOW))
    case _ =>
      var value := if st.Returned? then st.v else Null;
      o == match d.document(call.workflow, value) case Some(doc) => Ok(doc) case None => Fail(CallFailed(BAD_OUTPUT))
  }

  lemma DocumentIs(call: Call, args: Scope, doc: Val)
    requires call.Workflow?
    ensures InputOf(call, args) == Some(doc) <==> DocumentOf(call, args, doc)
  {
    hide JsonNum.Canonical;
    var got := JsonNum.Canonical(Obj(args));
    if got.Some? && got.value.Obj? && call.whole {
      var m := got.value.m;
      if k :| m.Keys == {k} { assert k in m; }
    }
  }

  lemma EnterIs(d: Deployment, v: Level, call: Call, a: Addr, args: Scope, u: Level)
    requires call.Workflow?
    ensures Enter(d, v, call, a, args) == Some(u) <==> CalleeRun(d, v, call, a, args, u)
  {
    hide InputOf, DocumentOf;
    forall doc ensures InputOf(call, args) == Some(doc) <==> DocumentOf(call, args, doc) {
      DocumentIs(call, args, doc);
    }
  }

  /** A called subworkflow is its program's run on the claimed frame's input and records, or
      afresh on the document, and the caller is told how that ends; without such a run (unknown
      callee, nesting too deep, no one document, arguments refused) the call fails. */
  lemma SubworkflowLaw(d: Deployment, c: Cycle, v: Level, call: Call, a: Addr, args: Scope, u: Level)
    requires call.Workflow?
    ensures var o := WorldAt(d, c, v).oracle(call, a, args);
            && (CalleeRun(d, v, call, a, args, u) ==> Told(d, c, v, call, a, u, o))
            && ((forall x :: !CalleeRun(d, v, call, a, args, x)) ==> o == Fail(CallFailed(UNKNOWN_WORKFLOW)))
  {
    hide Enter, CalleeRun, RunAt;
    EnterIs(d, v, call, a, args, u);
    var got := Enter(d, v, call, a, args);
    if got.Some? { EnterIs(d, v, call, a, args, got.value); }
    assert WorldAt(d, c, v).oracle(call, a, args) == Answer(d, c, v, call, a, args);
  }

  /** A call without subworkflow is the deployment's own, at its level. */
  lemma OtherLeafLaw(d: Deployment, c: Cycle, v: Level, call: Call, a: Addr, args: Scope)
    requires !call.Workflow?
    ensures WorldAt(d, c, v).oracle(call, a, args) == c.leaf(v.chain, call, a, args)
  {
  }

  /** A level runs its own program on its own input, from its own memo and control record. */
  lemma LevelLaw(d: Deployment, c: Cycle, v: Level)
    ensures var w := WorldAt(d, c, v);
            && RunAt(d, c, v) == Run(w, v.prog, v.input) && w.memo == v.memo && w.ctl == v.ctl
            && w.maxLoop == d.maxLoop && w.render == d.render
            && forall a :: w.halt(a) == c.halt(v.chain, a) && w.merge(a) == c.merge(v.chain, a)
  {
    hide Run;
  }

  /** A whole-document call gets its one argument's canonical value, and fails with any other
      number of arguments. */
  lemma WholeDocument(call: Call, args: Scope, k: string)
    requires call.Workflow? && call.whole
    ensures args.Keys == {k} ==>
              forall doc :: DocumentOf(call, args, doc) ==> JsonNum.CanonicalAt(args[k], 1) == Some(doc)
    ensures (forall key :: args.Keys != {key}) ==> forall doc :: !DocumentOf(call, args, doc)
  {
    forall m | JsonNum.Canonical(Obj(args)) == Some(Obj(m))
      ensures m.Keys == args.Keys && forall j :: j in args ==> JsonNum.CanonicalAt(args[j], 1) == Some(m[j])
    {
    }
  }
}
