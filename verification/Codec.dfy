/** The pinned-program codec (internal/execir/serialize.go): trees to flat, kind-tagged wire
    records and back. None is the fail-closed error. */
module Codec {
  import opened Values
  import opened ExecIR
  import opened Eval
  import opened Keys

  // ----- decimal integers

  /** strconv.FormatInt(n, 10). */
  function FormatInt(n: int): string {
    if n < 0 then "-" + Decimal(-n) else Decimal(n)
  }

  predicate AllDigits(s: string) {
    s != "" && forall i | 0 <= i < |s| :: '0' <= s[i] <= '9'
  }

  function DigitsValue(s: string): nat
    requires forall i | 0 <= i < |s| :: '0' <= s[i] <= '9'
  {
    if s == "" then 0 else 10 * DigitsValue(s[..|s| - 1]) + (s[|s| - 1] as nat - '0' as nat)
  }

  /** strconv.ParseInt(s, 10, 64): an optional sign, digits, and a range check. */
  function ParseInt(s: string): Option<int64> {
    var digits := if s != "" && (s[0] == '-' || s[0] == '+') then s[1..] else s;
    if !AllDigits(digits) then None
    else
      var n: int := if s[0] == '-' then 0 - DigitsValue(digits) else DigitsValue(digits);
      if -TWO63 <= n < TWO63 then Some(n) else None
  }

  lemma {:induction false} DecimalValue(n: nat)
    ensures DigitsValue(Decimal(n)) == n
  {
    assert forall d: nat | d < 10 :: Digit(d) as nat - '0' as nat == d;
    if n >= 10 {
      DecimalValue(n / 10);
      assert Decimal(n)[..|Decimal(n)| - 1] == Decimal(n / 10);
    } else {
      assert Decimal(n)[..0] == "";
    }
  }

  /** Decimal strings are lossless over the full int64 range. */
  lemma ParseFormat(n: int64)
    ensures ParseInt(FormatInt(n)) == Some(n)
  {
    hide Decimal, DigitsValue, AllDigits;
    if n < 0 {
      var m: nat := 0 - n;
      DecimalValue(m);
      DecimalDigits(m);
      assert FormatInt(n)[1..] == Decimal(m);
    } else {
      var m: nat := n;
      DecimalValue(m);
      DecimalDigits(m);
      assert FormatInt(n) == Decimal(m);
    }
  }

  lemma DecimalDigits(n: nat)
    ensures AllDigits(Decimal(n)) && Decimal(n)[0] != '-' && Decimal(n)[0] != '+'
  {
  }

  // ----- wire records

  /** What encoding/json puts into, and takes out of, an `any` literal slot. */
  datatype LitV = Absent | Text(s: string) | Number(r: real) | Flag(b: bool)

  datatype ValWire = ValWire(
    kind: string,
    nameonly path: seq<string> := [],
    nameonly litT: string := "",
    nameonly litV: LitV := Absent,
    nameonly fields: seq<FieldWire> := [],
    nameonly elems: seq<ValWire> := [],
    nameonly parts: seq<ValWire> := [])

  datatype FieldWire = FieldWire(key: string, val: ValWire)

  datatype ExprWire = ExprWire(
    kind: string,
    nameonly v: Option<ValWire> := None,
    nameonly x: Option<ExprWire> := None,
    nameonly y: Option<ExprWire> := None,
    nameonly op: Op := OtherOp(""))

  type ArgsWire = map<string, ValWire>

  datatype NodeWire = NodeWire(
    kind: string,
    nameonly bind: string := "",
    nameonly uses: string := "",
    nameonly agent: string := "",
    nameonly whole: bool := false,
    nameonly project: bool := false,
    nameonly workflow: string := "",
    nameonly args: ArgsWire := map[],
    nameonly value: Option<ValWire> := None,
    nameonly cond: Option<ExprWire> := None,
    nameonly thn: seq<NodeWire> := [],
    nameonly els: seq<NodeWire> := [],
    nameonly branches: seq<BranchWire> := [],
    nameonly vr: string := "",
    nameonly par: bool := false,
    nameonly coll: Option<ValWire> := None,
    nameonly limit: int := 0,
    nameonly body: seq<NodeWire> := [],
    nameonly nodes: seq<StepWire> := [],
    nameonly desc: string := "",
    nameonly redact: seq<string> := [])

  datatype BranchWire = BranchWire(bind: string, nodes: seq<NodeWire>)

  datatype StepWire = StepWire(id: string, needs: seq<string>, run: NodeWire)

  datatype ProgramWire = ProgramWire(workflow: string, params: seq<string>, body: seq<NodeWire>)

  datatype Payload = Payload(format: string, programs: map<string, ProgramWire>)

  const FORMAT_V1 := "agentic.dev/execir/v1"

  // ----- values

  /** A non-finite float has no JSON spelling; a container is not a canonical literal. */
  function WireLit(v: Val): Option<ValWire> {
    match v
    case Str(s) => Some(ValWire("lit", litT := "s", litV := Text(s)))
    case Int(i) => Some(ValWire("lit", litT := "i", litV := Text(FormatInt(i))))
    case Flt(f) => if f.Fin? then Some(ValWire("lit", litT := "f", litV := Number(f.r))) else None
    case Bool(b) => Some(ValWire("lit", litT := "b", litV := Flag(b)))
    case Null => Some(ValWire("lit", litT := "nil"))
    case _ => None
  }

  function DecodeLit(w: ValWire): Option<Val> {
    if w.litT == "s" then if w.litV.Text? then Some(Str(w.litV.s)) else None
    else if w.litT == "i" then
      if w.litV.Text? && ParseInt(w.litV.s).Some? then Some(Int(ParseInt(w.litV.s).value)) else None
    else if w.litT == "f" then if w.litV.Number? then Some(Flt(Fin(w.litV.r))) else None
    else if w.litT == "b" then if w.litV.Flag? then Some(Bool(w.litV.b)) else None
    else if w.litT == "nil" then Some(Null)
    else None
  }

  function WireVal(v: Value): Option<ValWire>
    decreases v, 0
  {
    match v
    case Ref(path) => Some(ValWire("ref", path := path))
    case Lit(x) => WireLit(x)
    case Object(fields) => (match WireFields(fields) case None => None case Some(fs) =>
        Some(ValWire("object", fields := fs)))
    case List(elems) => (match WireVals(elems) case None => None case Some(es) => Some(ValWire("list", elems := es)))
    case Template(parts) => (match WireVals(parts) case None => None case Some(ps) =>
        Some(ValWire("template", parts := ps)))
    case NilValue => Some(ValWire("lit", litT := "nil"))
  }

  function WireVals(vs: seq<Value>): Option<seq<ValWire>>
    decreases vs, 1
  {
    if vs == [] then Some([])
    else match (WireVal(vs[0]), WireVals(vs[1..]))
      case (Some(w), Some(ws)) => Some([w] + ws)
      case _ => None
  }

  function WireFields(fs: seq<Field>): Option<seq<FieldWire>>
    decreases fs, 1
  {
    if fs == [] then Some([])
    else match (WireVal(fs[0].val), WireFields(fs[1..]))
      case (Some(w), Some(ws)) => Some([FieldWire(fs[0].key, w)] + ws)
      case _ => None
  }

  function DecodeVal(w: ValWire): Option<Value>
    decreases w, 0
  {
    if w.kind == "ref" then Some(Ref(w.path))
    else if w.kind == "lit" then (match DecodeLit(w) case None => None case Some(x) => Some(Lit(x)))
    else if w.kind == "object" then (match DecodeFields(w.fields) case None => None case Some(fs) => Some(Object(fs)))
    else if w.kind == "list" then (match DecodeVals(w.elems) case None => None case Some(es) => Some(List(es)))
    else if w.kind == "template" then (match DecodeVals(w.parts) case None => None case Some(ps) => Some(Template(ps)))
    else None
  }

  function DecodeVals(ws: seq<ValWire>): Option<seq<Value>>
    decreases ws, 1
  {
    if ws == [] then Some([])
    else match (DecodeVal(ws[0]), DecodeVals(ws[1..]))
      case (Some(v), Some(vs)) => Some([v] + vs)
      case _ => None
  }

  function DecodeFields(ws: seq<FieldWire>): Option<seq<Field>>
    decreases ws, 1
  {
    if ws == [] then Some([])
    else match (DecodeVal(ws[0].val), DecodeFields(ws[1..]))
      case (Some(v), Some(vs)) => Some([Field(ws[0].key, v)] + vs)
      case _ => None
  }

  function WireArgs(args: Args): Option<ArgsWire> {
    if exists k :: k in args && WireVal(args[k]).None? then None
    else Some(map k | k in args :: WireVal(args[k]).value)
  }

  function DecodeArgs(ws: ArgsWire): Option<Args> {
    if exists k :: k in ws && DecodeVal(ws[k]).None? then None
    else Some(map k | k in ws :: DecodeVal(ws[k]).value)
  }

  function DecodeValPtr(w: Option<ValWire>): Option<Value> {
    match w case None => Some(NilValue) case Some(v) => DecodeVal(v)
  }

  // ----- conditions

  function WireExpr(e: Expr): Option<ExprWire> {
    match e
    case Leaf(v) => (match WireVal(v) case None => None case w => Some(ExprWire("leaf", v := w)))
    case Not(x) => (match WireExpr(x) case None => None case w => Some(ExprWire("not", x := w)))
    case BinOp(op, x, y) =>
      if WireExpr(x).None? || WireExpr(y).None? then None
      else Some(ExprWire("binop", op := op, x := WireExpr(x), y := WireExpr(y)))
    case NilExpr => None
  }

  function DecodeExpr(w: ExprWire): Option<Expr>
    decreases w, 0
  {
    if w.kind == "leaf" then (match DecodeValPtr(w.v) case None => None case Some(v) => Some(Leaf(v)))
    else if w.kind == "not" then (match DecodeExprPtr(w.x) case None => None case Some(x) => Some(Not(x)))
    else if w.kind == "binop" then
      match (DecodeExprPtr(w.x), DecodeExprPtr(w.y))
      case (Some(x), Some(y)) => Some(BinOp(w.op, x, y))
      case _ => None
    else None
  }

  function DecodeExprPtr(w: Option<ExprWire>): Option<Expr>
    decreases w, 1
  {
    match w case None => Some(NilExpr) case Some(e) => DecodeExpr(e)
  }

  // ----- nodes

  function WireCall(c: Call): Option<NodeWire> {
    match WireArgs(c.args)
    case None => None
    case Some(args) =>
      Some(match c
        case Tool(bind, uses, _) => NodeWire("invokeTool", bind := bind, uses := uses, args := args)
        case Agent(bind, agent, _, whole) =>
            NodeWire("invokeAgent", bind := bind, agent := agent, args := args, whole := whole)
        case Workflow(bind, workflow, _, whole, project) =>
          NodeWire("invokeWorkflow", bind := bind, workflow := workflow, args := args, whole := whole,
              project := project)
        case Approval(bind, desc, redact, _) =>
          NodeWire("approval", bind := bind, desc := desc, redact := redact, args := args))
  }

  function DecodeCall(w: NodeWire): Option<Call> {
    match DecodeArgs(w.args)
    case None => None
    case Some(args) =>
      if w.kind == "invokeTool" then Some(Tool(w.bind, w.uses, args))
      else if w.kind == "invokeAgent" then Some(Agent(w.bind, w.agent, args, w.whole))
      else if w.kind == "invokeWorkflow" then Some(Workflow(w.bind, w.workflow, args, w.whole, w.project))
      else if w.kind == "approval" then Some(Approval(w.bind, w.desc, w.redact, args))
      else None
  }

  function WireNode(n: Node): Option<NodeWire>
    decreases n, 0
  {
    match n
    case Invoke(c) => WireCall(c)
    case Let(bind, v) => (match WireVal(v) case None => None case w => Some(NodeWire("let", bind := bind, value := w)))
    case Return(v) => (match WireVal(v) case None => None case w => Some(NodeWire("return", value := w)))
    case Branch(cond, thn, els) =>
      (match (WireExpr(cond), WireNodes(thn), WireNodes(els))
       case (Some(c), Some(t), Some(e)) => Some(NodeWire("branch", cond := Some(c), thn := t, els := e))
       case _ => None)
    case Fork(branches) =>
      (match WireBranches(branches) case None => None case Some(bs) => Some(NodeWire("fork", branches := bs)))
    case Loop(vr, coll, body, par) =>
      (match (WireVal(coll), WireNodes(body))
       case (Some(c), Some(b)) => Some(NodeWire("loop", vr := vr, par := par, coll := Some(c), body := b))
       case _ => None)
    case While(cond, limit, body) =>
      (match (WireExpr(cond), WireNodes(body))
       case (Some(c), Some(b)) => Some(NodeWire("while", cond := Some(c), limit := limit, body := b))
       case _ => None)
    case Retry(cond, limit, body) =>
      (match (WireExpr(cond), WireNodes(body))
       case (Some(c), Some(b)) => Some(NodeWire("retry", cond := Some(c), limit := limit, body := b))
       case _ => None)
    case Graph(nodes) =>
      (match WireSteps(nodes) case None => None case Some(gs) => Some(NodeWire("graph", nodes := gs)))
  }

  function WireNodes(ns: seq<Node>): Option<seq<NodeWire>>
    decreases ns, 1
  {
    if ns == [] then Some([])
    else match (WireNode(ns[0]), WireNodes(ns[1..]))
      case (Some(w), Some(ws)) => Some([w] + ws)
      case _ => None
  }

  function WireBranches(bs: seq<ForkBranch>): Option<seq<BranchWire>>
    decreases bs, 1
  {
    if bs == [] then Some([])
    else match (WireNodes(bs[0].nodes), WireBranches(bs[1..]))
      case (Some(ns), Some(ws)) => Some([BranchWire(bs[0].bind, ns)] + ws)
      case _ => None
  }

  function WireSteps(gs: seq<GraphNode>): Option<seq<StepWire>> {
    if gs == [] then Some([])
    else match (WireCall(gs[0].run), WireSteps(gs[1..]))
      case (Some(w), Some(ws)) => Some([StepWire(gs[0].id, gs[0].needs, w)] + ws)
      case _ => None
  }

  function DecodeNode(w: NodeWire): Option<Node>
    decreases w, 0
  {
    if w.kind == "let" then (match DecodeValPtr(w.value) case None => None case Some(v) => Some(Let(w.bind, v)))
    else if w.kind == "return" then (match DecodeValPtr(w.value) case None => None case Some(v) => Some(Return(v)))
    else if w.kind == "branch" then
      match (DecodeExprPtr(w.cond), DecodeNodes(w.thn), DecodeNodes(w.els))
      case (Some(c), Some(t), Some(e)) => Some(Branch(c, t, e))
      case _ => None
    else if w.kind == "fork" then
      (match DecodeBranches(w.branches) case None => None case Some(bs) => Some(Fork(bs)))
    else if w.kind == "loop" then
      match (DecodeValPtr(w.coll), DecodeNodes(w.body))
      case (Some(c), Some(b)) => Some(Loop(w.vr, c, b, w.par))
      case _ => None
    else if w.kind == "while" then
      match (DecodeExprPtr(w.cond), DecodeNodes(w.body))
      case (Some(c), Some(b)) => Some(While(c, w.limit, b))
      case _ => None
    else if w.kind == "retry" then
      match (DecodeExprPtr(w.cond), DecodeNodes(w.body))
      case (Some(c), Some(b)) => Some(Retry(c, w.limit, b))
      case _ => None
    else if w.kind == "graph" then
      (match DecodeSteps(w.nodes) case None => None case Some(gs) => Some(Graph(gs)))
    else (match DecodeCall(w) case None => None case Some(c) => Some(Invoke(c)))
  }

  function DecodeNodes(ws: seq<NodeWire>): Option<seq<Node>>
    decreases ws, 1
  {
    if ws == [] then Some([])
    else match (DecodeNode(ws[0]), DecodeNodes(ws[1..]))
      case (Some(n), Some(ns)) => Some([n] + ns)
      case _ => None
  }

  function DecodeBranches(ws: seq<BranchWire>): Option<seq<ForkBranch>>
    decreases ws, 1
  {
    if ws == [] then Some([])
    else match (DecodeNodes(ws[0].nodes), DecodeBranches(ws[1..]))
      case (Some(ns), Some(bs)) => Some([ForkBranch(ws[0].bind, ns)] + bs)
      case _ => None
  }

  function DecodeSteps(ws: seq<StepWire>): Option<seq<GraphNode>> {
    if ws == [] then Some([])
    else match (DecodeCall(ws[0].run), DecodeSteps(ws[1..]))
      case (Some(c), Some(gs)) => Some([GraphNode(ws[0].id, ws[0].needs, c)] + gs)
      case _ => None
  }

  // ----- programs

  function WireProgram(p: Program): Option<ProgramWire> {
    match WireNodes(p.body) case None => None case Some(b) => Some(ProgramWire(p.workflow, p.params, b))
  }

  function DecodeProgram(w: ProgramWire): Option<Program> {
    match DecodeNodes(w.body) case None => None case Some(b) => Some(Program(w.workflow, w.params, b))
  }

  /** MarshalPrograms; an absent program (None) is skipped. */
  function MarshalPrograms(ps: map<string, Option<Program>>): Option<Payload> {
    if exists n :: n in ps && ps[n].Some? && WireProgram(ps[n].value).None? then None
    else Some(Payload(FORMAT_V1, map n | n in ps && ps[n].Some? :: WireProgram(ps[n].value).value))
  }

  function UnmarshalPrograms(w: Payload): Option<map<string, Program>> {
    if w.format != FORMAT_V1 then None
    else if exists n :: n in w.programs && DecodeProgram(w.programs[n]).None? then None
    else Some(map n | n in w.programs :: DecodeProgram(w.programs[n]).value)
  }

  // ----- what decoding an encoded tree gives: every absent value became a null literal

  function NormVal(v: Value): Value
    decreases v, 0
  {
    match v
    case NilValue => Lit(Null)
    case Object(fields) => Object(NormFields(fields))
    case List(elems) => List(NormVals(elems))
    case Template(parts) => Template(NormVals(parts))
    case _ => v
  }

  function NormVals(vs: seq<Value>): (r: seq<Value>)
    ensures |r| == |vs|
    decreases vs, 1
  {
    if vs == [] then [] else [NormVal(vs[0])] + NormVals(vs[1..])
  }

  function NormFields(fs: seq<Field>): (r: seq<Field>)
    ensures |r| == |fs|
    decreases fs, 1
  {
    if fs == [] then [] else [Field(fs[0].key, NormVal(fs[0].val))] + NormFields(fs[1..])
  }

  function NormArgs(args: Args): Args {
    map k | k in args :: NormVal(args[k])
  }

  function NormExpr(e: Expr): Expr {
    match e
    case Leaf(v) => Leaf(NormVal(v))
    case Not(x) => Not(NormExpr(x))
    case BinOp(op, x, y) => BinOp(op, NormExpr(x), NormExpr(y))
    case NilExpr => NilExpr
  }

  function NormCall(c: Call): Call {
    c.(args := NormArgs(c.args))
  }

  function NormNode(n: Node): Node
    decreases n, 0
  {
    match n
    case Invoke(c) => Invoke(NormCall(c))
    case Let(bind, v) => Let(bind, NormVal(v))
    case Return(v) => Return(NormVal(v))
    case Branch(cond, thn, els) => Branch(NormExpr(cond), NormNodes(thn), NormNodes(els))
    case Fork(branches) => Fork(NormBranches(branches))
    case Loop(vr, coll, body, par) => Loop(vr, NormVal(coll), NormNodes(body), par)
    case While(cond, limit, body) => While(NormExpr(cond), limit, NormNodes(body))
    case Retry(cond, limit, body) => Retry(NormExpr(cond), limit, NormNodes(body))
    case Graph(nodes) => Graph(NormSteps(nodes))
  }

  function NormNodes(ns: seq<Node>): seq<Node>
    decreases ns, 1
  {
    if ns == [] then [] else [NormNode(ns[0])] + NormNodes(ns[1..])
  }

  function NormBranches(bs: seq<ForkBranch>): seq<ForkBranch>
    decreases bs, 1
  {
    if bs == [] then [] else [ForkBranch(bs[0].bind, NormNodes(bs[0].nodes))] + NormBranches(bs[1..])
  }

  function NormSteps(gs: seq<GraphNode>): seq<GraphNode> {
    if gs == [] then [] else [gs[0].(run := NormCall(gs[0].run))] + NormSteps(gs[1..])
  }

  function NormProgram(p: Program): Program {
    p.(body := NormNodes(p.body))
  }

  // ----- which trees encode

  predicate PlainLit(v: Val) {
    !v.Arr? && !v.Obj? && (v.Flt? ==> v.f.Fin?)
  }

  predicate PlainVal(v: Value) {
    match v
    case Lit(x) => PlainLit(x)
    case Object(fields) => forall i :: 0 <= i < |fields| ==> PlainVal(fields[i].val)
    case List(elems) => forall i :: 0 <= i < |elems| ==> PlainVal(elems[i])
    case Template(parts) => forall i :: 0 <= i < |parts| ==> PlainVal(parts[i])
    case _ => true
  }

  predicate PlainArgs(args: Args) {
    forall k :: k in args ==> PlainVal(args[k])
  }

  predicate PlainExpr(e: Expr) {
    match e
    case Leaf(v) => PlainVal(v)
    case Not(x) => PlainExpr(x)
    case BinOp(_, x, y) => PlainExpr(x) && PlainExpr(y)
    case NilExpr => false
  }

  predicate PlainNode(n: Node)
    decreases n, 0
  {
    match n
    case Invoke(c) => PlainArgs(c.args)
    case Let(_, v) => PlainVal(v)
    case Return(v) => PlainVal(v)
    case Branch(cond, thn, els) => PlainExpr(cond) && PlainNodes(thn) && PlainNodes(els)
    case Fork(branches) => forall i :: 0 <= i < |branches| ==> PlainNodes(branches[i].nodes)
    case Loop(_, coll, body, _) => PlainVal(coll) && PlainNodes(body)
    case While(cond, _, body) => PlainExpr(cond) && PlainNodes(body)
    case Retry(cond, _, body) => PlainExpr(cond) && PlainNodes(body)
    case Graph(nodes) => forall i :: 0 <= i < |nodes| ==> PlainArgs(nodes[i].run.args)
  }

  predicate PlainNodes(ns: seq<Node>)
    decreases ns, 1
  {
    forall i :: 0 <= i < |ns| ==> PlainNode(ns[i])
  }

  // ----- round trip

  lemma LitRoundTrip(v: Val)
    ensures WireLit(v).Some? <==> PlainLit(v)
    ensures WireLit(v).Some? ==> WireLit(v).value.kind == "lit" && DecodeLit(WireLit(v).value) == Some(v)
  {
    if v.Int? { ParseFormat(v.i); }
  }

  lemma {:induction false} ValRoundTrip(v: Value)
    ensures WireVal(v).Some? <==> PlainVal(v)
    ensures WireVal(v).Some? ==> DecodeVal(WireVal(v).value) == Some(NormVal(v))
    decreases v, 0
  {
    match v
    case Lit(x) => LitRoundTrip(x);
    case Object(fields) => FieldsRoundTrip(fields);
    case List(elems) => ValsRoundTrip(elems);
    case Template(parts) => ValsRoundTrip(parts);
    case _ =>
  }

  lemma {:induction false} ValsRoundTrip(vs: seq<Value>)
    ensures WireVals(vs).Some? <==> forall i :: 0 <= i < |vs| ==> PlainVal(vs[i])
    ensures WireVals(vs).Some? ==> DecodeVals(WireVals(vs).value) == Some(NormVals(vs))
    decreases vs, 1
  {
    if vs != [] {
      ValRoundTrip(vs[0]);
      ValsRoundTrip(vs[1..]);
      assert forall i :: 0 < i < |vs| ==> vs[i] == vs[1..][i - 1];
      if WireVals(vs).Some? { assert WireVals(vs).value[1..] == WireVals(vs[1..]).value; }
    }
  }

  lemma {:induction false} FieldsRoundTrip(fs: seq<Field>)
    ensures WireFields(fs).Some? <==> forall i :: 0 <= i < |fs| ==> PlainVal(fs[i].val)
    ensures WireFields(fs).Some? ==> DecodeFields(WireFields(fs).value) == Some(NormFields(fs))
    decreases fs, 1
  {
    if fs != [] {
      ValRoundTrip(fs[0].val);
      FieldsRoundTrip(fs[1..]);
      assert forall i :: 0 < i < |fs| ==> fs[i] == fs[1..][i - 1];
      if WireFields(fs).Some? { assert WireFields(fs).value[1..] == WireFields(fs[1..]).value; }
    }
  }

  lemma ArgsRoundTrip(args: Args)
    ensures WireArgs(args).Some? <==> PlainArgs(args)
    ensures WireArgs(args).Some? ==> DecodeArgs(WireArgs(args).value) == Some(NormArgs(args))
  {
    forall k | k in args
      ensures WireVal(args[k]).Some? <==> PlainVal(args[k])
      ensures WireVal(args[k]).Some? ==> DecodeVal(WireVal(args[k]).value) == Some(NormVal(args[k]))
    {
      ValRoundTrip(args[k]);
    }
    if WireArgs(args).Some? {
      var ws := WireArgs(args).value;
      assert forall k :: k in ws ==> DecodeVal(ws[k]) == Some(NormVal(args[k]));
      assert DecodeArgs(ws).value == NormArgs(args);
    }
  }

  lemma {:induction false} ExprRoundTrip(e: Expr)
    ensures WireExpr(e).Some? <==> PlainExpr(e)
    ensures WireExpr(e).Some? ==> DecodeExpr(WireExpr(e).value) == Some(NormExpr(e))
  {
    match e
    case Leaf(v) => ValRoundTrip(v);
    case Not(x) => ExprRoundTrip(x);
    case BinOp(_, x, y) =>
      ExprRoundTrip(x);
      ExprRoundTrip(y);
    case NilExpr =>
  }

  lemma CallRoundTrip(c: Call)
    ensures WireCall(c).Some? <==> PlainArgs(c.args)
    ensures WireCall(c).Some? ==> DecodeCall(WireCall(c).value) == Some(NormCall(c))
    ensures WireCall(c).Some? ==> DecodeNode(WireCall(c).value) == Some(Invoke(NormCall(c)))
  {
    hide WireArgs, DecodeArgs, NormArgs, PlainArgs;
    ArgsRoundTrip(c.args);
  }

  lemma {:induction false} NodeRoundTrip(n: Node)
    ensures WireNode(n).Some? <==> PlainNode(n)
    ensures WireNode(n).Some? ==> DecodeNode(WireNode(n).value) == Some(NormNode(n))
    decreases n, 0
  {
    hide WireVal, DecodeVal, WireExpr, DecodeExpr, WireCall, DecodeCall, PlainVal, PlainExpr, PlainArgs, NormVal,
        NormExpr, NormCall;
    match n
    case Invoke(c) => CallRoundTrip(c);
    case Let(_, v) => ValRoundTrip(v);
    case Return(v) => ValRoundTrip(v);
    case Branch(cond, thn, els) =>
      ExprRoundTrip(cond);
      NodesRoundTrip(thn);
      NodesRoundTrip(els);
    case Fork(branches) => BranchesRoundTrip(branches);
    case Loop(_, coll, body, _) =>
      ValRoundTrip(coll);
      NodesRoundTrip(body);
    case While(cond, _, body) =>
      ExprRoundTrip(cond);
      NodesRoundTrip(body);
    case Retry(cond, _, body) =>
      ExprRoundTrip(cond);
      NodesRoundTrip(body);
    case Graph(nodes) => StepsRoundTrip(nodes);
  }

  lemma {:induction false} NodesRoundTrip(ns: seq<Node>)
    ensures WireNodes(ns).Some? <==> PlainNodes(ns)
    ensures WireNodes(ns).Some? ==> DecodeNodes(WireNodes(ns).value) == Some(NormNodes(ns))
    decreases ns, 1
  {
    if ns != [] {
      hide WireNode, DecodeNode, PlainNode, NormNode;
      NodeRoundTrip(ns[0]);
      NodesRoundTrip(ns[1..]);
      assert forall i :: 0 < i < |ns| ==> ns[i] == ns[1..][i - 1];
      if WireNodes(ns).Some? { assert WireNodes(ns).value[1..] == WireNodes(ns[1..]).value; }
    }
  }

  lemma {:induction false} BranchesRoundTrip(bs: seq<ForkBranch>)
    ensures WireBranches(bs).Some? <==> forall i :: 0 <= i < |bs| ==> PlainNodes(bs[i].nodes)
    ensures WireBranches(bs).Some? ==> DecodeBranches(WireBranches(bs).value) == Some(NormBranches(bs))
    decreases bs, 1
  {
    if bs != [] {
      hide WireNodes, DecodeNodes, PlainNodes, NormNodes;
      NodesRoundTrip(bs[0].nodes);
      BranchesRoundTrip(bs[1..]);
      assert forall i :: 0 < i < |bs| ==> bs[i] == bs[1..][i - 1];
      if WireBranches(bs).Some? { assert WireBranches(bs).value[1..] == WireBranches(bs[1..]).value; }
    }
  }

  lemma {:induction false} StepsRoundTrip(gs: seq<GraphNode>)
    ensures WireSteps(gs).Some? <==> forall i :: 0 <= i < |gs| ==> PlainArgs(gs[i].run.args)
    ensures WireSteps(gs).Some? ==> DecodeSteps(WireSteps(gs).value) == Some(NormSteps(gs))
    decreases |gs|
  {
    if gs != [] {
      hide WireCall, DecodeCall, PlainArgs, NormCall;
      CallRoundTrip(gs[0].run);
      StepsRoundTrip(gs[1..]);
      assert forall i :: 0 < i < |gs| ==> gs[i] == gs[1..][i - 1];
      if WireSteps(gs).Some? { assert WireSteps(gs).value[1..] == WireSteps(gs[1..]).value; }
    }
  }

  /** Encoding succeeds exactly on programs whose literals are scalars with a JSON spelling and
      whose conditions are present, and then decoding gives the program back with every absent
      value replaced by a null literal. */
  lemma ProgramRoundTrip(p: Program)
    ensures WireProgram(p).Some? <==> PlainNodes(p.body)
    ensures WireProgram(p).Some? ==> DecodeProgram(WireProgram(p).value) == Some(NormProgram(p))
  {
    NodesRoundTrip(p.body);
  }

  /** The whole artifact: absent programs are dropped, all others come back, under the same names. */
  lemma PayloadRoundTrip(ps: map<string, Option<Program>>)
    ensures MarshalPrograms(ps).Some? <==> forall n :: n in ps && ps[n].Some? ==> PlainNodes(ps[n].value.body)
    ensures MarshalPrograms(ps).Some? ==>
              UnmarshalPrograms(MarshalPrograms(ps).value) ==
                  Some(map n | n in ps && ps[n].Some? :: NormProgram(ps[n].value))
  {
    hide WireProgram, DecodeProgram, NormProgram, PlainNodes;
    forall n | n in ps && ps[n].Some?
      ensures WireProgram(ps[n].value).Some? <==> PlainNodes(ps[n].value.body)
      ensures WireProgram(ps[n].value).Some? ==>
                DecodeProgram(WireProgram(ps[n].value).value) == Some(NormProgram(ps[n].value))
    {
      ProgramRoundTrip(ps[n].value);
    }
    if MarshalPrograms(ps).Some? {
      var w := MarshalPrograms(ps).value;
      assert forall n ::
               n in w.programs ==>
                 n in ps && ps[n].Some? && DecodeProgram(w.programs[n]) == Some(NormProgram(ps[n].value));
      assert UnmarshalPrograms(w).value == map n | n in ps && ps[n].Some? :: NormProgram(ps[n].value);
    }
  }

  // ----- absent values are the only loss, and they do not change evaluation

  predicate SolidVal(v: Value) {
    match v
    case NilValue => false
    case Object(fields) => forall i :: 0 <= i < |fields| ==> SolidVal(fields[i].val)
    case List(elems) => forall i :: 0 <= i < |elems| ==> SolidVal(elems[i])
    case Template(parts) => forall i :: 0 <= i < |parts| ==> SolidVal(parts[i])
    case _ => true
  }

  predicate SolidArgs(args: Args) {
    forall k :: k in args ==> SolidVal(args[k])
  }

  predicate SolidExpr(e: Expr) {
    match e
    case Leaf(v) => SolidVal(v)
    case Not(x) => SolidExpr(x)
    case BinOp(_, x, y) => SolidExpr(x) && SolidExpr(y)
    case NilExpr => true
  }

  predicate SolidNode(n: Node)
    decreases n, 0
  {
    match n
    case Invoke(c) => SolidArgs(c.args)
    case Let(_, v) => SolidVal(v)
    case Return(v) => SolidVal(v)
    case Branch(cond, thn, els) => SolidExpr(cond) && SolidNodes(thn) && SolidNodes(els)
    case Fork(branches) => forall i :: 0 <= i < |branches| ==> SolidNodes(branches[i].nodes)
    case Loop(_, coll, body, _) => SolidVal(coll) && SolidNodes(body)
    case While(cond, _, body) => SolidExpr(cond) && SolidNodes(body)
    case Retry(cond, _, body) => SolidExpr(cond) && SolidNodes(body)
    case Graph(nodes) => forall i :: 0 <= i < |nodes| ==> SolidArgs(nodes[i].run.args)
  }

  predicate SolidNodes(ns: seq<Node>)
    decreases ns, 1
  {
    forall i :: 0 <= i < |ns| ==> SolidNode(ns[i])
  }

  lemma {:induction false} SolidValFixed(v: Value)
    ensures NormVal(v) == v <==> SolidVal(v)
    decreases v, 0
  {
    match v
    case Object(fields) => SolidFieldsFixed(fields);
    case List(elems) => SolidValsFixed(elems);
    case Template(parts) => SolidValsFixed(parts);
    case _ =>
  }

  lemma {:induction false} SolidValsFixed(vs: seq<Value>)
    ensures NormVals(vs) == vs <==> forall i :: 0 <= i < |vs| ==> SolidVal(vs[i])
    decreases vs, 1
  {
    if vs != [] {
      SolidValFixed(vs[0]);
      SolidValsFixed(vs[1..]);
      assert vs == [vs[0]] + vs[1..];
      assert NormVals(vs)[0] == NormVal(vs[0]) && NormVals(vs)[1..] == NormVals(vs[1..]);
      assert forall i :: 0 < i < |vs| ==> vs[i] == vs[1..][i - 1];
    }
  }

  lemma {:induction false} SolidFieldsFixed(fs: seq<Field>)
    ensures NormFields(fs) == fs <==> forall i :: 0 <= i < |fs| ==> SolidVal(fs[i].val)
    decreases fs, 1
  {
    if fs != [] {
      SolidValFixed(fs[0].val);
      SolidFieldsFixed(fs[1..]);
      assert fs == [fs[0]] + fs[1..];
      assert NormFields(fs)[0].val == NormVal(fs[0].val) && NormFields(fs)[1..] == NormFields(fs[1..]);
      assert forall i :: 0 < i < |fs| ==> fs[i] == fs[1..][i - 1];
    }
  }

  lemma SolidArgsFixed(args: Args)
    ensures NormArgs(args) == args <==> SolidArgs(args)
  {
    forall k | k in args ensures NormVal(args[k]) == args[k] <==> SolidVal(args[k]) { SolidValFixed(args[k]); }
    if NormArgs(args) == args {
      forall k | k in args ensures SolidVal(args[k]) { assert NormArgs(args)[k] == args[k]; }
    }
  }

  lemma {:induction false} SolidExprFixed(e: Expr)
    ensures NormExpr(e) == e <==> SolidExpr(e)
  {
    match e
    case Leaf(v) => SolidValFixed(v);
    case Not(x) => SolidExprFixed(x);
    case BinOp(_, x, y) =>
      SolidExprFixed(x);
      SolidExprFixed(y);
    case NilExpr =>
  }

  lemma {:induction false} SolidNodeFixed(n: Node)
    ensures NormNode(n) == n <==> SolidNode(n)
    decreases n, 0
  {
    match n
    case Invoke(c) => SolidArgsFixed(c.args);
    case Let(_, v) => SolidValFixed(v);
    case Return(v) => SolidValFixed(v);
    case Branch(cond, thn, els) =>
      SolidExprFixed(cond);
      SolidNodesFixed(thn);
      SolidNodesFixed(els);
    case Fork(branches) => SolidBranchesFixed(branches);
    case Loop(_, coll, body, _) =>
      SolidValFixed(coll);
      SolidNodesFixed(body);
    case While(cond, _, body) =>
      SolidExprFixed(cond);
      SolidNodesFixed(body);
    case Retry(cond, _, body) =>
      SolidExprFixed(cond);
      SolidNodesFixed(body);
    case Graph(nodes) => SolidStepsFixed(nodes);
  }

  lemma {:induction false} SolidNodesFixed(ns: seq<Node>)
    ensures NormNodes(ns) == ns <==> SolidNodes(ns)
    decreases ns, 1
  {
    if ns != [] {
      SolidNodeFixed(ns[0]);
      SolidNodesFixed(ns[1..]);
      assert ns == [ns[0]] + ns[1..];
      assert NormNodes(ns)[0] == NormNode(ns[0]) && NormNodes(ns)[1..] == NormNodes(ns[1..]);
      assert forall i :: 0 < i < |ns| ==> ns[i] == ns[1..][i - 1];
    }
  }

  lemma {:induction false} SolidBranchesFixed(bs: seq<ForkBranch>)
    ensures NormBranches(bs) == bs <==> forall i :: 0 <= i < |bs| ==> SolidNodes(bs[i].nodes)
    decreases bs, 1
  {
    if bs != [] {
      SolidNodesFixed(bs[0].nodes);
      SolidBranchesFixed(bs[1..]);
      assert bs == [bs[0]] + bs[1..];
      assert NormBranches(bs)[0].nodes == NormNodes(bs[0].nodes) && NormBranches(bs)[1..] == NormBranches(bs[1..]);
      assert forall i :: 0 < i < |bs| ==> bs[i] == bs[1..][i - 1];
    }
  }

  lemma {:induction false} SolidStepsFixed(gs: seq<GraphNode>)
    ensures NormSteps(gs) == gs <==> forall i :: 0 <= i < |gs| ==> SolidArgs(gs[i].run.args)
    decreases |gs|
  {
    if gs != [] {
      SolidArgsFixed(gs[0].run.args);
      SolidStepsFixed(gs[1..]);
      assert gs == [gs[0]] + gs[1..];
      assert NormSteps(gs)[0].run.args == NormArgs(gs[0].run.args) && NormSteps(gs)[1..] == NormSteps(gs[1..]);
      assert forall i :: 0 < i < |gs| ==> gs[i] == gs[1..][i - 1];
    }
  }

  /** Among the programs that encode, exactly those without an absent value come back unchanged. */
  lemma RoundTripIsIdentityIff(p: Program)
    requires PlainNodes(p.body)
    ensures WireProgram(p).Some?
    ensures DecodeProgram(WireProgram(p).value) == Some(p) <==> SolidNodes(p.body)
  {
    ProgramRoundTrip(p);
    SolidNodesFixed(p.body);
  }

  /** Two programs with one encoding differ at most in absent against null values. */
  lemma EncodingIsInjective(p: Program, q: Program)
    requires WireProgram(p).Some? && WireProgram(p) == WireProgram(q)
    ensures NormProgram(p) == NormProgram(q)
    ensures SolidNodes(p.body) && SolidNodes(q.body) ==> p == q
  {
    ProgramRoundTrip(p);
    ProgramRoundTrip(q);
    SolidNodesFixed(p.body);
    SolidNodesFixed(q.body);
  }

  /** An absent value and the null literal it decodes to evaluate alike, wherever they stand. */
  lemma {:induction false} NormValEvaluates(rn: Render, s: Scope, v: Value)
    ensures EvalValue(rn, s, NormVal(v)) == EvalValue(rn, s, v)
    decreases v, 0
  {
    match v
    case Object(fields) => NormFieldsEvaluate(rn, s, fields);
    case List(elems) => NormValsEvaluate(rn, s, elems);
    case Template(parts) => NormValsEvaluate(rn, s, parts);
    case _ =>
  }

  lemma {:induction false} NormValsEvaluate(rn: Render, s: Scope, vs: seq<Value>)
    ensures EvalValues(rn, s, NormVals(vs)) == EvalValues(rn, s, vs)
    decreases vs, 1
  {
    if vs != [] {
      NormValEvaluates(rn, s, vs[0]);
      NormValsEvaluate(rn, s, vs[1..]);
      assert NormVals(vs)[1..] == NormVals(vs[1..]);
    }
  }

  lemma {:induction false} NormFieldsSplit(fs: seq<Field>)
    requires fs != []
    ensures var n := |fs| - 1; NormFields(fs) == NormFields(fs[..n]) + [Field(fs[n].key, NormVal(fs[n].val))]
    decreases |fs|
  {
    if |fs| > 1 {
      NormFieldsSplit(fs[1..]);
      assert fs[1..][..|fs| - 2] == fs[..|fs| - 1][1..];
    } else {
      assert fs[1..] == [] && fs[..0] == [];
    }
  }

  lemma {:induction false} NormFieldsEvaluate(rn: Render, s: Scope, fs: seq<Field>)
    ensures EvalFields(rn, s, NormFields(fs)) == EvalFields(rn, s, fs)
    decreases fs, 1
  {
    if fs != [] {
      var n := |fs| - 1;
      NormFieldsSplit(fs);
      NormValEvaluates(rn, s, fs[n].val);
      NormFieldsEvaluate(rn, s, fs[..n]);
      assert NormFields(fs)[..n] == NormFields(fs[..n]);
    }
  }

  /** Decoded conditions decide as the original ones do. */
  lemma {:induction false} NormExprEvaluates(rn: Render, s: Scope, e: Expr)
    ensures EvalExpr(rn, s, NormExpr(e)) == EvalExpr(rn, s, e)
  {
    hide Comparison, EvalValue, NormVal;
    match e
    case Leaf(v) => NormValEvaluates(rn, s, v);
    case Not(x) => NormExprEvaluates(rn, s, x);
    case BinOp(op, x, y) =>
      NormExprEvaluates(rn, s, x);
      NormExprEvaluates(rn, s, y);
      if x.Leaf? { NormValEvaluates(rn, s, x.v); }
      if y.Leaf? { NormValEvaluates(rn, s, y.v); }
    case NilExpr =>
  }

  lemma NormArgsEvaluate(rn: Render, s: Scope, args: Args)
    ensures EvalArgs(rn, s, NormArgs(args)) == EvalArgs(rn, s, args)
  {
    forall k | k in args ensures EvalValue(rn, s, NormArgs(args)[k]) == EvalValue(rn, s, args[k]) {
      NormValEvaluates(rn, s, args[k]);
    }
    if EvalArgs(rn, s, args).Some? {
      assert forall k :: k in args ==> EvalValue(rn, s, NormArgs(args)[k]).Some?;
      assert EvalArgs(rn, s, NormArgs(args)).value == EvalArgs(rn, s, args).value;
    } else {
      var k :| k in args && EvalValue(rn, s, args[k]).None?;
      assert EvalValue(rn, s, NormArgs(args)[k]).None?;
    }
  }
}
