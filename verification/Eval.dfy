/** Pure evaluation over a scope (internal/execir/eval.go). None is the evaluation error. */
module Eval {
  import opened Values
  import opened ExecIR
  import Compare

  type Scope = map<string, Val>

  /** `render` is stringify's text for a value embedded in a Template. */
  type Render = Val -> string

  function ResolvePath(s: Scope, path: seq<string>): Option<Val> {
    if path == [] || path[0] !in s then None else Some(Descend(s[path[0]], path[1..]))
  }

  function Descend(v: Val, path: seq<string>): Val
    decreases |path|
  {
    if path == [] then v
    else if !v.Obj? then Null
    else Descend(if path[0] in v.m then v.m[path[0]] else Null, path[1..])
  }

  function EvalValue(rn: Render, s: Scope, v: Value): Option<Val>
    decreases v, 0
  {
    match v
    case Lit(x) => Some(x)
    case Ref(path) => ResolvePath(s, path)
    case Object(fields) =>
      (match EvalFields(rn, s, fields) case None => None case Some(m) => Some(Obj(m)))
    case List(elems) =>
      (match EvalValues(rn, s, elems) case None => None case Some(xs) => Some(Arr(xs)))
    case Template(parts) =>
      (match EvalValues(rn, s, parts) case None => None case Some(xs) => Some(Str(Concat(rn, xs))))
    case NilValue => Some(Null)
  }

  function EvalValues(rn: Render, s: Scope, vs: seq<Value>): Option<seq<Val>>
    decreases vs, 1
  {
    if vs == [] then Some([])
    else
      match EvalValue(rn, s, vs[0])
      case None => None
      case Some(x) =>
        match EvalValues(rn, s, vs[1..])
        case None => None
        case Some(xs) => Some([x] + xs)
  }

  /** Fields are assigned in order, so a repeated key keeps its last value. */
  function EvalFields(rn: Render, s: Scope, fs: seq<Field>): Option<map<string, Val>>
    decreases fs, 1
  {
    if fs == [] then Some(map[])
    else
      match EvalFields(rn, s, fs[..|fs| - 1])
      case None => None
      case Some(m) =>
        match EvalValue(rn, s, fs[|fs| - 1].val)
        case None => None
        case Some(x) => Some(m[fs[|fs| - 1].key := x])
  }

  function Concat(rn: Render, xs: seq<Val>): string {
    if xs == [] then "" else rn(xs[0]) + Concat(rn, xs[1..])
  }

  function EvalArgs(rn: Render, s: Scope, args: Args): Option<Scope> {
    if exists k :: k in args && EvalValue(rn, s, args[k]).None? then None
    else Some(map k | k in args :: EvalValue(rn, s, args[k]).value)
  }

  function EvalCollection(rn: Render, s: Scope, v: Value): Option<seq<Val>> {
    match EvalValue(rn, s, v)
    case Some(Null) => Some([])
    case Some(Arr(xs)) => Some(xs)
    case _ => None
  }

  predicate Truthy(v: Val) {
    match v case Null => false case Bool(b) => b case _ => true
  }

  function EvalExpr(rn: Render, s: Scope, e: Expr): Option<bool> {
    match e
    case NilExpr => None
    case Leaf(v) => (match EvalValue(rn, s, v) case None => None case Some(x) => Some(Truthy(x)))
    case Not(x) => (match EvalExpr(rn, s, x) case None => None case Some(b) => Some(!b))
    case BinOp(And, x, y) =>
      (match EvalExpr(rn, s, x)
       case Some(true) => EvalExpr(rn, s, y)
       case other => other)
    case BinOp(Or, x, y) =>
      (match EvalExpr(rn, s, x)
       case Some(false) => EvalExpr(rn, s, y)
       case other => other)
    case BinOp(op, x, y) =>
      if !x.Leaf? || !y.Leaf? then None
      else
        match (EvalValue(rn, s, x.v), EvalValue(rn, s, y.v))
        case (Some(a), Some(b)) => Comparison(op, a, b)
        case _ => None
  }

  function Comparison(op: Op, a: Val, b: Val): Option<bool> {
    match op
    case Eq => Some(Compare.ValuesEqual(a, b))
    case Ne => Some(!Compare.ValuesEqual(a, b))
    case Lt => Compare.CompareOrdered(Compare.Lt, a, b)
    case Le => Compare.CompareOrdered(Compare.Le, a, b)
    case Gt => Compare.CompareOrdered(Compare.Gt, a, b)
    case Ge => Compare.CompareOrdered(Compare.Ge, a, b)
    case _ => None
  }
}
