/** What a pinned payload may be and what it decodes to (internal/execir/serialize.go): a
    relation between wire records and trees, read off the tree, that decoding meets exactly. */
module CodecLaws {
  import opened Values
  import opened ExecIR
  import opened Codec

  // ----- literals and values

  /** The text is an optional sign and decimal digits for n. */
  ghost predicate Numeral(s: string, n: int) {
    exists d: string :: Digits(s, d) && n == if s[0] == '-' then 0 - DigitsValue(d) else DigitsValue(d)
  }

  ghost predicate Digits(s: string, d: string) {
    AllDigits(d) && (s == d || s == "+" + d || s == "-" + d)
  }

  lemma ParseIntIff(s: string, n: int64)
    ensures ParseInt(s) == Some(n) <==> Numeral(s, n)
  {
    hide DigitsValue;
    if ParseInt(s) == Some(n) {
      var d := if s != "" && (s[0] == '-' || s[0] == '+') then s[1..] else s;
      assert s == d || s == [s[0]] + d;
      assert Digits(s, d);
    }
    if Numeral(s, n) {
      var d: string :| Digits(s, d) && n == if s[0] == '-' then 0 - DigitsValue(d) else DigitsValue(d);
      assert s != d ==> s[1..] == d;
    }
  }

  /** A literal record names its type and carries a fitting value. */
  ghost predicate LitMeans(w: ValWire, x: Val) {
    match x
    case Str(s) => w.litT == "s" && w.litV == Text(s)
    case Int(i) => w.litT == "i" && w.litV.Text? && Numeral(w.litV.s, i)
    case Flt(f) => w.litT == "f" && f.Fin? && w.litV == Number(f.r)
    case Bool(b) => w.litT == "b" && w.litV == Flag(b)
    case Null => w.litT == "nil"
    case _ => false
  }

  lemma LitIff(w: ValWire, x: Val)
    ensures DecodeLit(w) == Some(x) <==> LitMeans(w, x)
  {
    hide ParseInt, Numeral;
    if x.Int? && w.litV.Text? { ParseIntIff(w.litV.s, x.i); }
  }

  ghost predicate ValMeans(w: ValWire, v: Value)
    decreases v
  {
    match v
    case Ref(path) => w.kind == "ref" && w.path == path
    case Lit(x) => w.kind == "lit" && LitMeans(w, x)
    case Object(fs) =>
      w.kind == "object" && |w.fields| == |fs|
      && forall i: nat :: i < |fs| ==> w.fields[i].key == fs[i].key && ValMeans(w.fields[i].val, fs[i].val)
    case List(vs) =>
      w.kind == "list" && |w.elems| == |vs| && forall i: nat :: i < |vs| ==> ValMeans(w.elems[i], vs[i])
    case Template(vs) =>
      w.kind == "template" && |w.parts| == |vs| && forall i: nat :: i < |vs| ==> ValMeans(w.parts[i], vs[i])
    case NilValue => false
  }

  ghost predicate ValsMean(ws: seq<ValWire>, vs: seq<Value>) {
    |ws| == |vs| && forall i: nat :: i < |vs| ==> ValMeans(ws[i], vs[i])
  }

  ghost predicate FieldsMean(ws: seq<FieldWire>, fs: seq<Field>) {
    |ws| == |fs| && forall i: nat :: i < |fs| ==> ws[i].key == fs[i].key && ValMeans(ws[i].val, fs[i].val)
  }

  lemma {:induction false} ValIff(w: ValWire, v: Value)
    ensures DecodeVal(w) == Some(v) <==> ValMeans(w, v)
    decreases w, 1, 0
  {
    hide DecodeLit, LitMeans;
    match v
    case Lit(x) => LitIff(w, x);
    case Object(fs) => FieldsIff(w.fields, fs, w);
    case List(vs) => ValsIff(w.elems, vs, w);
    case Template(vs) => ValsIff(w.parts, vs, w);
    case _ =>
  }

  lemma {:induction false} ValsIff(ws: seq<ValWire>, vs: seq<Value>, w: ValWire)
    requires forall x | x in ws :: x < w
    ensures DecodeVals(ws) == Some(vs) <==> ValsMean(ws, vs)
    decreases w, 0, |ws|
  {
    hide DecodeVal, ValMeans;
    if ws != [] && vs != [] {
      assert ws[0] in ws && forall x | x in ws[1..] :: x in ws;
      ValIff(ws[0], vs[0]);
      ValsIff(ws[1..], vs[1..], w);
      assert ValsMean(ws, vs) <==> ValMeans(ws[0], vs[0]) && ValsMean(ws[1..], vs[1..]) by { ValsSplit(ws, vs); }
      assert vs == [vs[0]] + vs[1..];
    }
  }

  lemma ValsSplit(ws: seq<ValWire>, vs: seq<Value>)
    requires ws != [] && vs != []
    ensures ValsMean(ws, vs) <==> ValMeans(ws[0], vs[0]) && ValsMean(ws[1..], vs[1..])
  {
    hide ValMeans;
    if ValsMean(ws[1..], vs[1..]) {
      assert forall i: nat :: 0 < i < |vs| ==> vs[i] == vs[1..][i - 1] && ws[i] == ws[1..][i - 1];
    }
  }

  lemma {:induction false} FieldsIff(ws: seq<FieldWire>, fs: seq<Field>, w: ValWire)
    requires forall x | x in ws :: x.val < w
    ensures DecodeFields(ws) == Some(fs) <==> FieldsMean(ws, fs)
    decreases w, 0, |ws|
  {
    hide DecodeVal, ValMeans;
    if ws != [] && fs != [] {
      assert ws[0] in ws && forall x | x in ws[1..] :: x in ws;
      ValIff(ws[0].val, fs[0].val);
      FieldsIff(ws[1..], fs[1..], w);
      FieldsSplit(ws, fs);
      assert fs == [fs[0]] + fs[1..];
    }
  }

  lemma FieldsSplit(ws: seq<FieldWire>, fs: seq<Field>)
    requires ws != [] && fs != []
    ensures FieldsMean(ws, fs) <==>
            ws[0].key == fs[0].key && ValMeans(ws[0].val, fs[0].val) && FieldsMean(ws[1..], fs[1..])
  {
    hide ValMeans;
    if FieldsMean(ws[1..], fs[1..]) {
      assert forall i: nat :: 0 < i < |fs| ==> fs[i] == fs[1..][i - 1] && ws[i] == ws[1..][i - 1];
    }
  }

  ghost predicate ArgsMean(ws: ArgsWire, args: Args) {
    ws.Keys == args.Keys && forall k :: k in args ==> k in ws && ValMeans(ws[k], args[k])
  }

  lemma ArgsIff(ws: ArgsWire, args: Args)
    ensures DecodeArgs(ws) == Some(args) <==> ArgsMean(ws, args)
  {
    hide DecodeVal, ValMeans;
    forall k, v | k in ws ensures DecodeVal(ws[k]) == Some(v) <==> ValMeans(ws[k], v) { ValIff(ws[k], v); }
    if ArgsMean(ws, args) {
      assert forall k :: k in ws ==> DecodeVal(ws[k]) == Some(args[k]);
      assert DecodeArgs(ws).value == args;
    }
  }

  /** An absent record is the absent value. */
  ghost predicate SlotMeans(w: Option<ValWire>, v: Value) {
    match w case None => v == NilValue case Some(x) => ValMeans(x, v)
  }

  lemma SlotIff(w: Option<ValWire>, v: Value)
    ensures DecodeValPtr(w) == Some(v) <==> SlotMeans(w, v)
  {
    if w.Some? { ValIff(w.value, v); }
  }

  // ----- conditions

  ghost predicate ExprMeans(w: ExprWire, e: Expr)
    decreases e
  {
    match e
    case Leaf(v) => w.kind == "leaf" && SlotMeans(w.v, v)
    case Not(x) => w.kind == "not" && if w.x.None? then x == NilExpr else ExprMeans(w.x.value, x)
    case BinOp(op, x, y) =>
      && w.kind == "binop" && w.op == op
      && (if w.x.None? then x == NilExpr else ExprMeans(w.x.value, x))
      && (if w.y.None? then y == NilExpr else ExprMeans(w.y.value, y))
    case NilExpr => false
  }

  /** An absent record is the absent condition. */
  ghost predicate CondMeans(w: Option<ExprWire>, e: Expr) {
    if w.None? then e == NilExpr else ExprMeans(w.value, e)
  }

  lemma {:induction false} ExprIff(w: ExprWire, e: Expr)
    ensures DecodeExpr(w) == Some(e) <==> ExprMeans(w, e)
    decreases w
  {
    hide DecodeValPtr, SlotMeans;
    match e
    case Leaf(v) => SlotIff(w.v, v);
    case Not(x) => if w.x.Some? { ExprIff(w.x.value, x); }
    case BinOp(_, x, y) =>
      if w.x.Some? { ExprIff(w.x.value, x); }
      if w.y.Some? { ExprIff(w.y.value, y); }
    case NilExpr =>
  }

  lemma CondIff(w: Option<ExprWire>, e: Expr)
    ensures DecodeExprPtr(w) == Some(e) <==> CondMeans(w, e)
  {
    hide DecodeExpr, ExprMeans;
    if w.Some? { ExprIff(w.value, e); }
  }

  // ----- nodes

  ghost predicate CallMeans(w: NodeWire, c: Call) {
    && w.bind == c.bind && ArgsMean(w.args, c.args)
    && match c
       case Tool(_, uses, _) => w.kind == "invokeTool" && w.uses == uses
       case Agent(_, agent, _, whole) => w.kind == "invokeAgent" && w.agent == agent && w.whole == whole
       case Workflow(_, workflow, _, whole, project) =>
         w.kind == "invokeWorkflow" && w.workflow == workflow && w.whole == whole && w.project == project
       case Approval(_, desc, redact, _) => w.kind == "approval" && w.desc == desc && w.redact == redact
  }

  lemma CallIff(w: NodeWire, c: Call)
    ensures DecodeCall(w) == Some(c) <==> CallMeans(w, c)
  {
    hide DecodeArgs, ArgsMean;
    ArgsIff(w.args, c.args);
  }

  ghost predicate NodeMeans(w: NodeWire, n: Node)
    decreases n, 0
  {
    match n
    case Invoke(c) => CallMeans(w, c)
    case Let(bind, v) => w.kind == "let" && w.bind == bind && SlotMeans(w.value, v)
    case Return(v) => w.kind == "return" && SlotMeans(w.value, v)
    case Branch(cond, thn, els) =>
      w.kind == "branch" && CondMeans(w.cond, cond) && NodesMean(w.thn, thn) && NodesMean(w.els, els)
    case Fork(bs) =>
      w.kind == "fork" && |w.branches| == |bs|
      && forall i: nat :: i < |bs| ==> w.branches[i].bind == bs[i].bind && NodesMean(w.branches[i].nodes, bs[i].nodes)
    case Loop(vr, coll, body, par) =>
      w.kind == "loop" && w.vr == vr && w.par == par && SlotMeans(w.coll, coll) && NodesMean(w.body, body)
    case While(cond, limit, body) =>
      w.kind == "while" && w.limit == limit && CondMeans(w.cond, cond) && NodesMean(w.body, body)
    case Retry(cond, limit, body) =>
      w.kind == "retry" && w.limit == limit && CondMeans(w.cond, cond) && NodesMean(w.body, body)
    case Graph(gs) => w.kind == "graph" && StepsMean(w.nodes, gs)
  }

  ghost predicate NodesMean(ws: seq<NodeWire>, ns: seq<Node>)
    decreases ns, 1
  {
    |ws| == |ns| && forall i: nat :: i < |ns| ==> NodeMeans(ws[i], ns[i])
  }

  ghost predicate BranchesMean(ws: seq<BranchWire>, bs: seq<ForkBranch>) {
    |ws| == |bs| && forall i: nat :: i < |bs| ==> ws[i].bind == bs[i].bind && NodesMean(ws[i].nodes, bs[i].nodes)
  }

  ghost predicate StepsMean(ws: seq<StepWire>, gs: seq<GraphNode>) {
    |ws| == |gs| && forall i: nat :: i < |gs| ==>
      ws[i].id == gs[i].id && ws[i].needs == gs[i].needs && CallMeans(ws[i].run, gs[i].run)
  }

  lemma {:induction false} NodeIff(w: NodeWire, n: Node)
    ensures DecodeNode(w) == Some(n) <==> NodeMeans(w, n)
    decreases w, 2, 0
  {
    hide DecodeCall, CallMeans, DecodeValPtr, SlotMeans, DecodeExprPtr, CondMeans, DecodeNodes, NodesMean,
        DecodeBranches,
         DecodeSteps, StepsMean;
    match n
    case Invoke(c) => LeafIff(w, c);
    case Let(_, v) => SlotIff(w.value, v);
    case Return(v) => SlotIff(w.value, v);
    case Branch(cond, thn, els) =>
      CondIff(w.cond, cond);
      NodesIff(w.thn, thn, w);
      NodesIff(w.els, els, w);
    case Fork(bs) => BranchesIff(w.branches, bs, w);
    case Loop(_, coll, body, _) =>
      SlotIff(w.coll, coll);
      NodesIff(w.body, body, w);
    case While(cond, _, body) =>
      CondIff(w.cond, cond);
      NodesIff(w.body, body, w);
    case Retry(cond, _, body) =>
      CondIff(w.cond, cond);
      NodesIff(w.body, body, w);
    case Graph(gs) => StepsIff(w.nodes, gs);
  }

  lemma LeafIff(w: NodeWire, c: Call)
    ensures DecodeNode(w) == Some(Invoke(c)) <==> CallMeans(w, c)
  {
    hide ArgsMean, DecodeArgs, DecodeValPtr, DecodeExprPtr, DecodeNodes, DecodeBranches, DecodeSteps;
    CallIff(w, c);
  }

  lemma {:induction false} NodesIff(ws: seq<NodeWire>, ns: seq<Node>, w: NodeWire)
    requires forall x | x in ws :: x < w
    ensures DecodeNodes(ws) == Some(ns) <==> NodesMean(ws, ns)
    decreases w, 0, |ws|
  {
    hide DecodeNode, NodeMeans;
    if ws != [] && ns != [] {
      assert ws[0] in ws && forall x | x in ws[1..] :: x in ws;
      NodeIff(ws[0], ns[0]);
      NodesIff(ws[1..], ns[1..], w);
      NodesSplit(ws, ns);
      assert ns == [ns[0]] + ns[1..];
    }
  }

  lemma NodesSplit(ws: seq<NodeWire>, ns: seq<Node>)
    requires ws != [] && ns != []
    ensures NodesMean(ws, ns) <==> NodeMeans(ws[0], ns[0]) && NodesMean(ws[1..], ns[1..])
  {
    hide NodeMeans;
    if NodesMean(ws[1..], ns[1..]) {
      assert forall i: nat :: 0 < i < |ns| ==> ns[i] == ns[1..][i - 1] && ws[i] == ws[1..][i - 1];
    }
  }

  lemma {:induction false} BranchesIff(ws: seq<BranchWire>, bs: seq<ForkBranch>, w: NodeWire)
    requires forall x, y | x in ws && y in x.nodes :: y < w
    ensures DecodeBranches(ws) == Some(bs) <==> BranchesMean(ws, bs)
    decreases w, 1, |ws|
  {
    hide DecodeNodes, NodesMean;
    if ws != [] && bs != [] {
      assert ws[0] in ws && forall x | x in ws[1..] :: x in ws;
      NodesIff(ws[0].nodes, bs[0].nodes, w);
      BranchesIff(ws[1..], bs[1..], w);
      BranchesSplit(ws, bs);
      assert bs == [bs[0]] + bs[1..];
    }
  }

  lemma BranchesSplit(ws: seq<BranchWire>, bs: seq<ForkBranch>)
    requires ws != [] && bs != []
    ensures BranchesMean(ws, bs) <==>
            ws[0].bind == bs[0].bind && NodesMean(ws[0].nodes, bs[0].nodes) && BranchesMean(ws[1..], bs[1..])
  {
    hide NodesMean;
    if BranchesMean(ws[1..], bs[1..]) {
      assert forall i: nat :: 0 < i < |bs| ==> bs[i] == bs[1..][i - 1] && ws[i] == ws[1..][i - 1];
    }
  }

  lemma {:induction false} StepsIff(ws: seq<StepWire>, gs: seq<GraphNode>)
    ensures DecodeSteps(ws) == Some(gs) <==> StepsMean(ws, gs)
    decreases |ws|
  {
    hide DecodeCall, CallMeans;
    if ws != [] && gs != [] {
      CallIff(ws[0].run, gs[0].run);
      StepsIff(ws[1..], gs[1..]);
      StepsSplit(ws, gs);
      assert gs == [gs[0]] + gs[1..];
    }
  }

  lemma StepsSplit(ws: seq<StepWire>, gs: seq<GraphNode>)
    requires ws != [] && gs != []
    ensures StepsMean(ws, gs) <==>
            ws[0].id == gs[0].id && ws[0].needs == gs[0].needs && CallMeans(ws[0].run, gs[0].run)
            && StepsMean(ws[1..], gs[1..])
  {
    hide CallMeans;
    if StepsMean(ws[1..], gs[1..]) {
      assert forall i: nat :: 0 < i < |gs| ==> gs[i] == gs[1..][i - 1] && ws[i] == ws[1..][i - 1];
    }
  }

  // ----- programs

  ghost predicate ProgramMeans(w: ProgramWire, p: Program) {
    w.workflow == p.workflow && w.params == p.params && NodesMean(w.body, p.body)
  }

  lemma ProgramIff(w: ProgramWire, p: Program)
    ensures DecodeProgram(w) == Some(p) <==> ProgramMeans(w, p)
  {
    hide DecodeNodes, NodesMean;
    NodesIff(w.body, p.body, NodeWire("branch", thn := w.body));
  }

  /** A payload is accepted exactly when it is of the one known format and every record in it
      means a tree, and decodes to those trees under the same names. */
  lemma PayloadIff(w: Payload, ps: map<string, Program>)
    ensures UnmarshalPrograms(w) == Some(ps) <==>
              && w.format == "agentic.dev/execir/v1" && w.programs.Keys == ps.Keys
              && forall n :: n in ps ==> n in w.programs && ProgramMeans(w.programs[n], ps[n])
  {
    hide DecodeProgram, ProgramMeans;
    forall n, p | n in w.programs ensures DecodeProgram(w.programs[n]) == Some(p) <==> ProgramMeans(w.programs[n], p) {
      ProgramIff(w.programs[n], p);
    }
    if w.format == FORMAT_V1 && w.programs.Keys == ps.Keys
       && forall n :: n in ps ==> n in w.programs && ProgramMeans(w.programs[n], ps[n])
    {
      assert forall n :: n in w.programs ==> DecodeProgram(w.programs[n]) == Some(ps[n]);
      assert UnmarshalPrograms(w).value == ps;
    }
  }
}
