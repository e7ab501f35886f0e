/** The execution IR: the node, value and condition trees of internal/execir/execir.go.
    Source positions are diagnostic only and are not carried. */
module ExecIR {
  import opened Values

  datatype Field = Field(key: string, val: Value)

  datatype Value =
    | Ref(path: seq<string>)
    | Lit(v: Val)
    | Object(fields: seq<Field>)
    | List(elems: seq<Value>)
    | Template(parts: seq<Value>)
    | NilValue

  datatype Op = Eq | Ne | Lt | Le | Gt | Ge | And | Or | OtherOp(sym: string)

  datatype Expr =
    | Leaf(v: Value)
    | Not(x: Expr)
    | BinOp(op: Op, x: Expr, y: Expr)
    | NilExpr

  type Args = map<string, Value>

  /** The effectful leaves: InvokeTool, InvokeAgent, InvokeWorkflow and Approval. */
  datatype Call =
    | Tool(bind: string, uses: string, args: Args)
    | Agent(bind: string, agent: string, args: Args, whole: bool)
    | Workflow(bind: string, workflow: string, args: Args, whole: bool, project: bool)
    | Approval(bind: string, desc: string, redact: seq<string>, args: Args)

  datatype ForkBranch = ForkBranch(bind: string, nodes: seq<Node>)

  /** One step of a needs-DAG. Its body is always a single Invoke or Approval leaf. */
  datatype GraphNode = GraphNode(id: string, needs: seq<string>, run: Call)

  datatype Node =
    | Invoke(call: Call)
    | Let(bind: string, value: Value)
    | Branch(cond: Expr, thn: seq<Node>, els: seq<Node>)
    | Fork(branches: seq<ForkBranch>)
    | Loop(vr: string, coll: Value, body: seq<Node>, par: bool)
    | While(cond: Expr, limit: int, body: seq<Node>)
    | Retry(cond: Expr, limit: int, body: seq<Node>)
    | Return(value: Value)
    | Graph(nodes: seq<GraphNode>)

  datatype Program = Program(workflow: string, params: seq<string>, body: seq<Node>)
}
