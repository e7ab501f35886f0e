/** What a digest identifies, for programs as they were authored (internal/execir/digest.go):
    the text is that of the canonical arrangement, so two programs have one text exactly when
    they differ only in the order of steps, needs, redacted keys and object fields. */
module DigestCanon {
  import opened ExecIR
  import opened GraphOrder
  import opened Reorder
  import opened Digest
  import opened DigestIdentity

  // ----- sorting twice is sorting once

  ghost predicate StringsInOrder(xs: seq<string>) {
    forall i :: 0 <= i < |xs| - 1 ==> !StrLess(xs[i + 1], xs[i])
  }

  lemma {:induction false} InsertStringInOrder(x: string, xs: seq<string>)
    requires StringsInOrder(xs)
    ensures StringsInOrder(InsertString(x, xs)) && InsertString(x, xs)[0] in {x} + (set y | y in xs)
    ensures xs != [] && StrLess(xs[0], x) ==> InsertString(x, xs)[0] == xs[0]
    decreases |xs|
  {
    if xs != [] && StrLess(xs[0], x) {
      var rest := InsertString(x, xs[1..]);
      InsertStringInOrder(x, xs[1..]);
      StrTrichotomy(x, xs[0]);
      assert rest[0] == x || rest[0] == xs[1];
      var r := [xs[0]] + rest;
      forall i | 0 <= i < |r| - 1 ensures !StrLess(r[i + 1], r[i]) {
        if i > 0 { assert r[i + 1] == rest[i] && r[i] == rest[i - 1]; }
      }
    }
  }

  lemma {:induction false} SortStringsTwice(xs: seq<string>)
    ensures StringsInOrder(SortStrings(xs)) && SortStrings(SortStrings(xs)) == SortStrings(xs)
    decreases |xs|
  {
    if xs != [] {
      SortStringsTwice(xs[1..]);
      InsertStringInOrder(xs[0], SortStrings(xs[1..]));
    }
    StringsStay(SortStrings(xs));
  }

  lemma {:induction false} StringsStay(xs: seq<string>)
    requires StringsInOrder(xs)
    ensures SortStrings(xs) == xs
    decreases |xs|
  {
    if xs != [] {
      var rest := xs[1..];
      forall i | 0 <= i < |rest| - 1 ensures !StrLess(rest[i + 1], rest[i]) {
        assert !StrLess(xs[i + 1 + 1], xs[i + 1]);
      }
      StringsStay(xs[1..]);
      assert |xs| > 1 ==> !StrLess(xs[0 + 1], xs[0]);
    }
  }

  ghost predicate FieldsInOrder(fs: seq<Field>) {
    forall i :: 0 <= i < |fs| - 1 ==> !StrLess(fs[i + 1].key, fs[i].key)
  }

  lemma {:induction false} InsertFieldInOrder(f: Field, fs: seq<Field>)
    requires FieldsInOrder(fs)
    ensures var r := InsertField(f, fs);
            FieldsInOrder(r) && |r| == |fs| + 1 && (r[0] == f || (fs != [] && r[0] == fs[0]))
    decreases |fs|
  {
    if fs != [] && StrLess(fs[0].key, f.key) {
      var rest := InsertField(f, fs[1..]);
      InsertFieldInOrder(f, fs[1..]);
      StrTrichotomy(f.key, fs[0].key);
      var r := [fs[0]] + rest;
      forall i | 0 <= i < |r| - 1 ensures !StrLess(r[i + 1].key, r[i].key) {
        if i > 0 { assert r[i + 1] == rest[i] && r[i] == rest[i - 1]; }
      }
    }
  }

  lemma {:induction false} SortFieldsTwice(fs: seq<Field>)
    ensures FieldsInOrder(SortFields(fs)) && SortFields(SortFields(fs)) == SortFields(fs)
    decreases |fs|
  {
    if fs != [] {
      SortFieldsTwice(fs[1..]);
      InsertFieldInOrder(fs[0], SortFields(fs[1..]));
    }
    FieldsStay(SortFields(fs));
  }

  lemma {:induction false} FieldsStay(fs: seq<Field>)
    requires FieldsInOrder(fs)
    ensures SortFields(fs) == fs
    decreases |fs|
  {
    if fs != [] {
      var rest := fs[1..];
      forall i | 0 <= i < |rest| - 1 ensures !StrLess(rest[i + 1].key, rest[i].key) {
        assert !StrLess(fs[i + 1 + 1].key, fs[i + 1].key);
      }
      FieldsStay(fs[1..]);
      assert |fs| > 1 ==> !StrLess(fs[0 + 1].key, fs[0].key);
    }
  }

  ghost predicate StepsInOrder(gs: seq<GraphNode>) {
    forall i :: 0 <= i < |gs| - 1 ==> !StrLess(gs[i + 1].id, gs[i].id)
  }

  lemma {:induction false} InsertStepInOrder(g: GraphNode, gs: seq<GraphNode>)
    requires StepsInOrder(gs)
    ensures var r := Insert(g, gs); StepsInOrder(r) && (r[0] == g || (gs != [] && r[0] == gs[0]))
    decreases |gs|
  {
    if gs != [] && StrLess(gs[0].id, g.id) {
      var rest := Insert(g, gs[1..]);
      InsertStepInOrder(g, gs[1..]);
      StrTrichotomy(g.id, gs[0].id);
      var r := [gs[0]] + rest;
      forall i | 0 <= i < |r| - 1 ensures !StrLess(r[i + 1].id, r[i].id) {
        if i > 0 { assert r[i + 1] == rest[i] && r[i] == rest[i - 1]; }
      }
    }
  }

  lemma {:induction false} SortedTwice(gs: seq<GraphNode>)
    ensures StepsInOrder(Sorted(gs)) && Sorted(Sorted(gs)) == Sorted(gs)
    decreases |gs|
  {
    if gs != [] {
      SortedTwice(gs[1..]);
      InsertStepInOrder(gs[0], Sorted(gs[1..]));
    }
    StepsStay(Sorted(gs));
  }

  lemma {:induction false} StepsStay(gs: seq<GraphNode>)
    requires StepsInOrder(gs)
    ensures Sorted(gs) == gs
    decreases |gs|
  {
    if gs != [] {
      var rest := gs[1..];
      forall i | 0 <= i < |rest| - 1 ensures !StrLess(rest[i + 1].id, rest[i].id) {
        assert !StrLess(gs[i + 1 + 1].id, gs[i + 1].id);
      }
      StepsStay(gs[1..]);
      assert |gs| > 1 ==> !StrLess(gs[0 + 1].id, gs[0].id);
    }
  }

  // ----- the canonical arrangement

  function CanonVal(v: Value): Value
    decreases v, 0
  {
    match v
    case Object(fields) => Object(SortFields(CanonFields(fields)))
    case List(elems) => List(CanonVals(elems))
    case Template(parts) => Template(CanonVals(parts))
    case _ => v
  }

  function CanonVals(vs: seq<Value>): (r: seq<Value>)
    ensures |r| == |vs|
    decreases vs, 1
  {
    if vs == [] then [] else [CanonVal(vs[0])] + CanonVals(vs[1..])
  }

  function CanonFields(fs: seq<Field>): (r: seq<Field>)
    ensures |r| == |fs|
    decreases fs, 1
  {
    if fs == [] then [] else [Field(fs[0].key, CanonVal(fs[0].val))] + CanonFields(fs[1..])
  }

  function CanonExpr(e: Expr): Expr {
    match e
    case Leaf(v) => Leaf(CanonVal(v))
    case Not(x) => Not(CanonExpr(x))
    case BinOp(op, x, y) => BinOp(op, CanonExpr(x), CanonExpr(y))
    case NilExpr => NilExpr
  }

  function CanonArgs(args: Args): Args {
    map k | k in args :: CanonVal(args[k])
  }

  function CanonCall(c: Call): Call {
    var d := c.(args := CanonArgs(c.args));
    if d.Approval? then d.(redact := SortStrings(d.redact)) else d
  }

  function CanonStep(g: GraphNode): GraphNode {
    GraphNode(g.id, SortStrings(g.needs), CanonCall(g.run))
  }

  function CanonSteps(gs: seq<GraphNode>): (r: seq<GraphNode>)
    ensures |r| == |gs| && forall i :: 0 <= i < |gs| ==> r[i] == CanonStep(gs[i])
  {
    if gs == [] then [] else [CanonStep(gs[0])] + CanonSteps(gs[1..])
  }

  function CanonNode(n: Node): Node
    decreases n, 0
  {
    match n
    case Invoke(c) => Invoke(CanonCall(c))
    case Let(bind, v) => Let(bind, CanonVal(v))
    case Return(v) => Return(CanonVal(v))
    case Branch(cond, thn, els) => Branch(CanonExpr(cond), CanonNodes(thn), CanonNodes(els))
    case Fork(bs) => Fork(CanonBranches(bs))
    case Loop(vr, coll, body, par) => Loop(vr, CanonVal(coll), CanonNodes(body), par)
    case While(cond, limit, body) => While(CanonExpr(cond), limit, CanonNodes(body))
    case Retry(cond, limit, body) => Retry(CanonExpr(cond), limit, CanonNodes(body))
    case Graph(gs) => Graph(CanonSteps(Sorted(gs)))
  }

  function CanonNodes(ns: seq<Node>): (r: seq<Node>)
    ensures |r| == |ns|
    decreases ns, 1
  {
    if ns == [] then [] else [CanonNode(ns[0])] + CanonNodes(ns[1..])
  }

  function CanonBranches(bs: seq<ForkBranch>): (r: seq<ForkBranch>)
    ensures |r| == |bs|
    decreases bs, 1
  {
    if bs == [] then [] else [ForkBranch(bs[0].bind, CanonNodes(bs[0].nodes))] + CanonBranches(bs[1..])
  }

  function Canon(p: Program): Program {
    p.(body := CanonNodes(p.body))
  }

  // ----- it has the same text

  lemma {:induction false} ValSame(sp: Spell, v: Value)
    ensures ValText(sp, CanonVal(v)) == ValText(sp, v)
    decreases v, 0
  {
    match v
    case Object(fields) =>
      FieldsSame(sp, fields);
      var fs := CanonFields(fields);
      SortFieldsTwice(fs);
      SortFieldEntries(sp, fs);
      SortFieldEntries(sp, SortFields(fs));
    case List(elems) => ValsSame(sp, elems, ",");
    case Template(parts) => ValsSame(sp, parts, ";");
    case _ =>
  }

  lemma {:induction false} ValsSame(sp: Spell, vs: seq<Value>, end: string)
    ensures ValsText(sp, CanonVals(vs), end) == ValsText(sp, vs, end)
    decreases vs, 1
  {
    if vs != [] {
      ValSame(sp, vs[0]);
      ValsSame(sp, vs[1..], end);
      assert CanonVals(vs)[1..] == CanonVals(vs[1..]);
    }
  }

  lemma {:induction false} FieldsSame(sp: Spell, fs: seq<Field>)
    ensures FieldEntries(sp, CanonFields(fs)) == FieldEntries(sp, fs)
    decreases fs, 1
  {
    if fs != [] {
      ValSame(sp, fs[0].val);
      FieldsSame(sp, fs[1..]);
      assert CanonFields(fs)[1..] == CanonFields(fs[1..]);
    }
  }

  lemma {:induction false} ExprSame(sp: Spell, e: Expr)
    ensures ExprText(sp, CanonExpr(e)) == ExprText(sp, e)
  {
    hide ValText, CanonVal;
    match e
    case Leaf(v) => ValSame(sp, v);
    case Not(x) => ExprSame(sp, x);
    case BinOp(op, x, y) =>
      ExprSame(sp, x);
      ExprSame(sp, y);
    case NilExpr =>
  }

  lemma {:induction false} KeysSame(sp: Spell, args: Args, ks: seq<string>)
    ensures KeysText(sp, CanonArgs(args), ks) == KeysText(sp, args, ks)
    decreases |ks|
  {
    hide ValText, CanonVal;
    if ks != [] {
      KeysSame(sp, args, ks[1..]);
      if ks[0] in args { ValSame(sp, args[ks[0]]); }
    }
  }

  lemma CallSame(sp: Spell, c: Call)
    ensures CallText(sp, CanonCall(c)) == CallText(sp, c)
  {
    hide KeysText, JoinText, CanonVal, SortStrings;
    assert CanonArgs(c.args).Keys == c.args.Keys;
    KeysSame(sp, c.args, SortedKeys(c.args.Keys));
    if c.Approval? { SortStringsTwice(c.redact); }
  }

  lemma {:induction false} StepsSame(sp: Spell, gs: seq<GraphNode>)
    ensures StepsText(sp, CanonSteps(gs)) == StepsText(sp, gs)
    decreases |gs|
  {
    hide CallText, CanonCall, JoinText, SortStrings;
    if gs != [] {
      StepsSame(sp, gs[1..]);
      CallSame(sp, gs[0].run);
      SortStringsTwice(gs[0].needs);
      assert CanonSteps(gs)[1..] == CanonSteps(gs[1..]);
    }
  }

  lemma {:induction false} InsertCanon(g: GraphNode, gs: seq<GraphNode>)
    ensures Insert(CanonStep(g), CanonSteps(gs)) == CanonSteps(Insert(g, gs))
    decreases |gs|
  {
    hide CanonCall, SortStrings;
    if gs != [] && StrLess(gs[0].id, g.id) {
      InsertCanon(g, gs[1..]);
      assert CanonSteps(gs)[1..] == CanonSteps(gs[1..]);
    }
  }

  lemma {:induction false} SortedCanon(gs: seq<GraphNode>)
    ensures Sorted(CanonSteps(gs)) == CanonSteps(Sorted(gs))
    decreases |gs|
  {
    hide CanonStep;
    if gs != [] {
      SortedCanon(gs[1..]);
      assert CanonSteps(gs)[1..] == CanonSteps(gs[1..]);
      InsertCanon(gs[0], Sorted(gs[1..]));
    }
  }

  lemma {:induction false} NodeSame(sp: Spell, n: Node)
    ensures NodeText(sp, CanonNode(n)) == NodeText(sp, n)
    decreases n, 0
  {
    hide ValText, CanonVal, ExprText, CanonExpr, CallText, CanonCall, NodesText, CanonNodes, BranchesText,
        CanonBranches, StepsText, CanonSteps, Sorted;
    match n
    case Invoke(c) => CallSame(sp, c);
    case Let(_, v) => ValSame(sp, v);
    case Return(v) => ValSame(sp, v);
    case Branch(cond, thn, els) =>
      ExprSame(sp, cond);
      NodesSame(sp, thn);
      NodesSame(sp, els);
    case Fork(bs) => BranchesSame(sp, bs);
    case Loop(_, coll, body, _) =>
      ValSame(sp, coll);
      NodesSame(sp, body);
    case While(cond, _, body) =>
      ExprSame(sp, cond);
      NodesSame(sp, body);
    case Retry(cond, _, body) =>
      ExprSame(sp, cond);
      NodesSame(sp, body);
    case Graph(gs) =>
      SortedCanon(Sorted(gs));
      SortedTwice(gs);
      StepsSame(sp, Sorted(gs));
  }

  lemma {:induction false} NodesSame(sp: Spell, ns: seq<Node>)
    ensures NodesText(sp, CanonNodes(ns)) == NodesText(sp, ns)
    decreases ns, 1
  {
    hide NodeText, CanonNode;
    if ns != [] {
      NodeSame(sp, ns[0]);
      NodesSame(sp, ns[1..]);
      assert CanonNodes(ns)[1..] == CanonNodes(ns[1..]);
    }
  }

  lemma {:induction false} BranchesSame(sp: Spell, bs: seq<ForkBranch>)
    ensures BranchesText(sp, CanonBranches(bs)) == BranchesText(sp, bs)
    decreases bs, 1
  {
    hide NodesText, CanonNodes;
    if bs != [] {
      NodesSame(sp, bs[0].nodes);
      BranchesSame(sp, bs[1..]);
      assert CanonBranches(bs)[1..] == CanonBranches(bs[1..]);
    }
  }

  // ----- and it is arranged

  /** Plain names, in any arrangement. */
  ghost predicate NamedValue(v: Value) {
    match v
    case Ref(path) => Words(path)
    case Lit(x) => PlainScalar(x)
    case Object(fields) => forall i :: 0 <= i < |fields| ==> Made(Name, fields[i].key) && NamedValue(fields[i].val)
    case List(elems) => forall i :: 0 <= i < |elems| ==> NamedValue(elems[i])
    case Template(parts) => forall i :: 0 <= i < |parts| ==> NamedValue(parts[i])
    case NilValue => true
  }

  ghost predicate NamedCondition(e: Expr) {
    match e
    case Leaf(v) => NamedValue(v)
    case Not(x) => NamedCondition(x)
    case BinOp(op, x, y) => !op.OtherOp? && NamedCondition(x) && NamedCondition(y)
    case NilExpr => true
  }

  ghost predicate NamedCall(c: Call) {
    && Made(Name, c.bind)
    && (forall k :: k in c.args ==> Made(Name, k) && NamedValue(c.args[k]))
    && match c
       case Tool(_, uses, _) => Made(Dotted, uses)
       case Agent(_, agent, _, _) => Made(Dotted, agent)
       case Workflow(_, workflow, _, _, _) => Made(Dotted, workflow)
       case Approval(_, _, redact, _) => Words(redact)
  }

  ghost predicate NamedStep(g: GraphNode) {
    Made(Name, g.id) && Words(g.needs) && NamedCall(g.run)
  }

  ghost predicate NamedNode(n: Node)
    decreases n, 0
  {
    match n
    case Invoke(c) => NamedCall(c)
    case Let(bind, v) => Made(Name, bind) && NamedValue(v)
    case Return(v) => NamedValue(v)
    case Branch(cond, thn, els) => NamedCondition(cond) && NamedNodes(thn) && NamedNodes(els)
    case Fork(bs) => forall i :: 0 <= i < |bs| ==> Made(Name, bs[i].bind) && NamedNodes(bs[i].nodes)
    case Loop(vr, coll, body, _) => Word(vr) && NamedValue(coll) && NamedNodes(body)
    case While(cond, _, body) => NamedCondition(cond) && NamedNodes(body)
    case Retry(cond, _, body) => NamedCondition(cond) && NamedNodes(body)
    case Graph(gs) => forall i :: 0 <= i < |gs| ==> NamedStep(gs[i])
  }

  ghost predicate NamedNodes(ns: seq<Node>)
    decreases ns, 1
  {
    forall i :: 0 <= i < |ns| ==> NamedNode(ns[i])
  }

  ghost predicate NamedProgram(p: Program) {
    Made(Dotted, p.workflow) && Words(p.params) && NamedNodes(p.body)
  }

  ghost predicate PlainField(f: Field) {
    Made(Name, f.key) && PlainValue(f.val)
  }

  lemma {:induction false} ValPlain(v: Value)
    requires NamedValue(v)
    ensures PlainValue(CanonVal(v))
    decreases v, 0
  {
    match v
    case Object(fields) =>
      FieldsPlain(fields);
      var fs := SortFields(CanonFields(fields));
      SortFieldsTwice(CanonFields(fields));
      SortFieldsFrom(CanonFields(fields));
      forall i | 0 <= i < |fs| ensures PlainField(fs[i]) { assert fs[i] in fs; }
      hide SortFields;
      assert forall i :: 0 <= i < |fs| ==> Made(Name, fs[i].key) && PlainValue(fs[i].val);
    case List(elems) => ValsPlain(elems);
    case Template(parts) => ValsPlain(parts);
    case _ =>
  }

  lemma {:induction false} SortFieldsFrom(fs: seq<Field>)
    ensures forall f | f in SortFields(fs) :: f in fs
    decreases |fs|
  {
    if fs != [] {
      SortFieldsFrom(fs[1..]);
      InsertFieldFrom(fs[0], SortFields(fs[1..]));
    }
  }

  lemma {:induction false} InsertFieldFrom(f: Field, fs: seq<Field>)
    ensures forall g | g in InsertField(f, fs) :: g == f || g in fs
    decreases |fs|
  {
    if fs != [] && StrLess(fs[0].key, f.key) { InsertFieldFrom(f, fs[1..]); }
  }

  lemma {:induction false} ValsPlain(vs: seq<Value>)
    requires forall i :: 0 <= i < |vs| ==> NamedValue(vs[i])
    ensures forall i :: 0 <= i < |vs| ==> PlainValue(CanonVals(vs)[i])
    decreases vs, 1
  {
    if vs != [] {
      ValPlain(vs[0]);
      ValsPlain(vs[1..]);
    }
  }

  lemma {:induction false} FieldsPlain(fs: seq<Field>)
    requires forall i :: 0 <= i < |fs| ==> Made(Name, fs[i].key) && NamedValue(fs[i].val)
    ensures forall f | f in CanonFields(fs) :: PlainField(f)
    decreases fs, 1
  {
    if fs != [] {
      ValPlain(fs[0].val);
      FieldsPlain(fs[1..]);
    }
  }

  lemma {:induction false} ConditionPlain(e: Expr)
    requires NamedCondition(e)
    ensures PlainCondition(CanonExpr(e))
  {
    hide NamedValue, PlainValue, CanonVal;
    match e
    case Leaf(v) => ValPlain(v);
    case Not(x) => ConditionPlain(x);
    case BinOp(op, x, y) =>
      ConditionPlain(x);
      ConditionPlain(y);
    case NilExpr =>
  }

  lemma SortedWords(xs: seq<string>)
    requires Words(xs)
    ensures Words(SortStrings(xs)) && SortStrings(SortStrings(xs)) == SortStrings(xs)
  {
    hide Word;
    SortStringsTwice(xs);
    SortStringsMembers(xs);
    var ys := SortStrings(xs);
    forall i | 0 <= i < |ys| ensures Word(ys[i]) {
      assert ys[i] in multiset(ys);
      assert ys[i] in multiset(xs);
      assert ys[i] in xs;
    }
  }

  lemma CallPlain(c: Call)
    requires NamedCall(c)
    ensures PlainCall(CanonCall(c))
  {
    hide NamedValue, PlainValue, CanonVal, Made, Words, SortStrings;
    forall k | k in c.args ensures PlainValue(CanonVal(c.args[k])) { ValPlain(c.args[k]); }
    assert PlainArguments(CanonArgs(c.args));
    if c.Approval? { SortedWords(c.redact); }
  }

  lemma StepTidy(g: GraphNode)
    requires NamedStep(g)
    ensures TidyStep(CanonStep(g))
  {
    hide NamedCall, PlainCall, CanonCall, Made, Words, SortStrings;
    SortedWords(g.needs);
    CallPlain(g.run);
  }

  lemma GraphTidy(gs: seq<GraphNode>)
    requires forall i :: 0 <= i < |gs| ==> NamedStep(gs[i])
    ensures TidyNode(CanonNode(Graph(gs)))
  {
    hide NamedStep, TidyStep, CanonStep, Sorted;
    var hs := Sorted(gs);
    SortedTwice(gs);
    SortedCanon(hs);
    SortedMembers(gs);
    forall i | 0 <= i < |hs| ensures TidyStep(CanonSteps(hs)[i]) {
      assert hs[i] in multiset(hs);
      assert hs[i] in multiset(gs);
      assert hs[i] in gs;
      StepTidy(hs[i]);
    }
  }

  lemma {:induction false} NodeTidy(n: Node)
    requires NamedNode(n)
    ensures TidyNode(CanonNode(n))
    decreases n, 1
  {
    hide NamedValue, PlainValue, CanonVal, NamedCondition, PlainCondition, CanonExpr, NamedCall, PlainCall, CanonCall;
    hide NamedNodes, TidyNodes, CanonNodes, Made, Word, CanonBranches;
    match n
    case Invoke(c) => CallPlain(c);
    case Let(_, v) => ValPlain(v);
    case Return(v) => ValPlain(v);
    case Branch(cond, thn, els) =>
      ConditionPlain(cond);
      NodesTidy(thn);
      NodesTidy(els);
    case Fork(bs) => ForkTidy(n);
    case Loop(_, coll, body, _) =>
      ValPlain(coll);
      NodesTidy(body);
    case While(cond, _, body) =>
      ConditionPlain(cond);
      NodesTidy(body);
    case Retry(cond, _, body) =>
      ConditionPlain(cond);
      NodesTidy(body);
    case Graph(gs) => GraphTidy(gs);
  }

  lemma {:induction false} NodesTidy(ns: seq<Node>)
    requires NamedNodes(ns)
    ensures TidyNodes(CanonNodes(ns))
    decreases ns, 2
  {
    hide NamedNode, TidyNode, CanonNode;
    if ns != [] {
      NodeTidy(ns[0]);
      assert NamedNodes(ns[1..]);
      NodesTidy(ns[1..]);
    }
  }

  lemma {:induction false} ForkTidy(n: Node)
    requires NamedNode(n) && n.Fork?
    ensures TidyNode(CanonNode(n))
    decreases n, 0
  {
    hide NamedNodes, TidyNodes, CanonNodes, Made;
    var bs, cs := n.branches, CanonBranches(n.branches);
    forall i | 0 <= i < |bs| ensures Made(Name, cs[i].bind) && TidyNodes(cs[i].nodes) {
      BranchAt(bs, i);
      NodesTidy(bs[i].nodes);
    }
  }

  lemma {:induction false} BranchAt(bs: seq<ForkBranch>, i: nat)
    requires i < |bs|
    ensures CanonBranches(bs)[i] == ForkBranch(bs[i].bind, CanonNodes(bs[i].nodes))
    decreases |bs|
  {
    hide CanonNodes;
    if i > 0 { BranchAt(bs[1..], i - 1); }
  }

  // ----- programs

  lemma ProgramSame(sp: Spell, p: Program)
    ensures ProgramText(sp, Canon(p)) == ProgramText(sp, p)
  {
    hide NodesText, CanonNodes, JoinText;
    NodesSame(sp, p.body);
  }

  /** On programs with plain names, one digest text means one canonical arrangement, and the
      other way round. */
  lemma DigestIdentifiesArrangement(sp: Spell, p: Program, q: Program)
    requires IsStrconv(sp) && NamedProgram(p) && NamedProgram(q)
    ensures ProgramText(sp, p) == ProgramText(sp, q) <==> Canon(p) == Canon(q)
  {
    hide IsStrconv, ProgramText, NamedNodes, TidyNodes, CanonNodes, Made, Words;
    ProgramSame(sp, p);
    ProgramSame(sp, q);
    NodesTidy(p.body);
    NodesTidy(q.body);
    DigestIdentifiesProgram(sp, Canon(p), Canon(q));
  }
}
