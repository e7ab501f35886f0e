/** The text a program's digest is the hash of (internal/execir/digest.go). Every encode
    method appends to one builder; the text functions say what it appends. */
module Digest {
  import opened Values
  import opened Common
  import opened ExecIR
  import opened GraphOrder
  import opened Interp
  import opened Reorder
  import opened Codec

  /** Library spellings: strconv.Quote, FormatFloat 'g', and %v of anything else but nil. */
  datatype Spell = Spell(quote: string -> string, float: Float -> string, other: Val -> string)

  function JoinText(xs: seq<string>, sep: string): string {
    if xs == [] then "" else if |xs| == 1 then xs[0] else xs[0] + sep + JoinText(xs[1..], sep)
  }

  function LitKey(sp: Spell, v: Val): string {
    match v
    case Str(s) => "s" + sp.quote(s)
    case Int(i) => "i" + FormatInt(i)
    case Flt(f) => "f" + sp.float(f)
    case Bool(b) => "b" + if b then "true" else "false"
    case Null => "x<nil>"
    case _ => "x" + sp.other(v)
  }

  // ----- keyed entries in key order

  datatype Entry = Entry(key: string, text: string)

  function InsertEntry(e: Entry, es: seq<Entry>): seq<Entry> {
    if es == [] || !StrLess(es[0].key, e.key) then [e] + es else [es[0]] + InsertEntry(e, es[1..])
  }

  function SortEntries(es: seq<Entry>): seq<Entry> {
    if es == [] then [] else InsertEntry(es[0], SortEntries(es[1..]))
  }

  function EntriesText(es: seq<Entry>): string {
    if es == [] then "" else es[0].key + "=" + es[0].text + "," + EntriesText(es[1..])
  }

  // ----- values and conditions

  function ValText(sp: Spell, v: Value): string
    decreases v, 0
  {
    match v
    case Ref(path) => "ref:" + JoinText(path, ".")
    case Lit(x) => "lit:" + LitKey(sp, x)
    case Object(fields) => "obj{" + EntriesText(SortEntries(FieldEntries(sp, fields))) + "}"
    case List(elems) => "list[" + ValsText(sp, elems, ",") + "]"
    case Template(parts) => "tmpl(" + ValsText(sp, parts, ";") + ")"
    case NilValue => "nil"
  }

  function ValsText(sp: Spell, vs: seq<Value>, end: string): string
    decreases vs, 1
  {
    if vs == [] then "" else ValText(sp, vs[0]) + end + ValsText(sp, vs[1..], end)
  }

  function FieldEntries(sp: Spell, fs: seq<Field>): (es: seq<Entry>)
    ensures |es| == |fs|
    decreases fs, 1
  {
    if fs == [] then [] else [Entry(fs[0].key, ValText(sp, fs[0].val))] + FieldEntries(sp, fs[1..])
  }

  function OpText(op: Op): string {
    match op
    case Eq => "==" case Ne => "!=" case Lt => "<" case Le => "<=" case Gt => ">" case Ge => ">="
    case And => "&&" case Or => "||" case OtherOp(sym) => sym
  }

  function ExprText(sp: Spell, e: Expr): string {
    match e
    case Leaf(v) => ValText(sp, v)
    case Not(x) => "!(" + ExprText(sp, x) + ")"
    case BinOp(op, x, y) => "(" + ExprText(sp, x) + OpText(op) + ExprText(sp, y) + ")"
    case NilExpr => "nilexpr"
  }

  // ----- arguments, in key order

  ghost predicate Ordered(ks: seq<string>) {
    forall i, j :: 0 <= i < j < |ks| ==> StrLess(ks[i], ks[j])
  }

  /** The keys of a map in ascending order. */
  ghost function SortedKeys(ks: set<string>): (r: seq<string>)
    ensures Ordered(r) && multiset(r) == multiset(ks)
  {
    KeysCanBeSorted(ks);
    var r: seq<string> :| Ordered(r) && multiset(r) == multiset(ks);
    r
  }

  ghost function ArgsText(sp: Spell, args: Args): string {
    "(" + KeysText(sp, args, SortedKeys(args.Keys)) + ")"
  }

  function KeysText(sp: Spell, args: Args, ks: seq<string>): string {
    if ks == [] then ""
    else ks[0] + "=" + (if ks[0] in args then ValText(sp, args[ks[0]]) else "nil") + "," + KeysText(sp, args, ks[1..])
  }

  lemma {:induction false} InsertStringOrdered(x: string, xs: seq<string>)
    requires Ordered(xs) && x !in xs
    ensures Ordered(InsertString(x, xs))
    decreases |xs|
  {
    if xs != [] {
      StrTrichotomy(x, xs[0]);
      if StrLess(xs[0], x) {
        InsertStringOrdered(x, xs[1..]);
        InsertStringMembers(x, xs[1..]);
        var r := InsertString(x, xs[1..]);
        forall j | 0 <= j < |r| ensures StrLess(xs[0], r[j]) {
          assert r[j] in multiset(r);
          if r[j] != x {
            assert r[j] in multiset(xs[1..]);
            assert r[j] in xs[1..];
          }
        }
      } else {
        forall j | 0 <= j < |xs| ensures StrLess(x, xs[j]) {
          if j > 0 { StrTransitive(x, xs[0], xs[j]); }
        }
      }
    }
  }

  lemma {:induction false} SortStringsOrdered(xs: seq<string>)
    requires forall i, j :: 0 <= i < j < |xs| ==> xs[i] != xs[j]
    ensures Ordered(SortStrings(xs)) && multiset(SortStrings(xs)) == multiset(xs)
    decreases |xs|
  {
    SortStringsMembers(xs);
    if xs != [] {
      SortStringsOrdered(xs[1..]);
      assert xs[0] !in xs[1..];
      assert xs[0] !in multiset(xs[1..]);
      InsertStringOrdered(xs[0], SortStrings(xs[1..]));
    }
  }

  lemma {:induction false} KeysCanBeSorted(ks: set<string>)
    ensures exists r: seq<string> :: Ordered(r) && multiset(r) == multiset(ks)
    decreases |ks|
  {
    if ks == {} {
      var r: seq<string> := [];
      assert Ordered(r) && multiset(r) == multiset(ks);
    } else {
      var k :| k in ks;
      KeysCanBeSorted(ks - {k});
      var r: seq<string> :| Ordered(r) && multiset(r) == multiset(ks - {k});
      assert k !in multiset(r);
      InsertStringOrdered(k, r);
      InsertStringMembers(k, r);
      assert multiset(ks) == multiset(ks - {k}) + multiset{k};
    }
  }

  /** A set of keys has one ascending arrangement. */
  lemma {:induction false} OrderedUnique(a: seq<string>, b: seq<string>)
    requires Ordered(a) && Ordered(b) && multiset(a) == multiset(b)
    ensures a == b
    decreases |a|
  {
    assert |a| == |multiset(a)| == |multiset(b)| == |b|;
    if a != [] {
      assert a[0] in multiset(a) && b[0] in multiset(b);
      assert a[0] in b && b[0] in a;
      StrTrichotomy(a[0], b[0]);
      assert a[0] == b[0];
      assert a == [a[0]] + a[1..] && b == [b[0]] + b[1..];
      assert multiset(a[1..]) == multiset(a) - multiset{a[0]};
      assert multiset(b[1..]) == multiset(b) - multiset{b[0]};
      OrderedUnique(a[1..], b[1..]);
    }
  }

  // ----- nodes

  ghost function CallText(sp: Spell, c: Call): string {
    match c
    case Tool(bind, uses, args) => "tool " + bind + "=" + uses + ArgsText(sp, args)
    case Agent(bind, agent, args, whole) =>
      "agent " + bind + "=" + agent + (if whole then "!doc" else "") + ArgsText(sp, args)
    case Workflow(bind, workflow, args, whole, project) =>
      "workflow " + bind + "=" + workflow + (if whole then "!doc" else "")
      + (if project then "!value" else "") + ArgsText(sp, args)
    case Approval(bind, desc, redact, args) =>
      "approval " + bind + " desc:" + sp.quote(desc)
      + " redact:[" + JoinText(SortStrings(redact), ",") + "]" + ArgsText(sp, args)
  }

  ghost function NodeText(sp: Spell, n: Node): string
    decreases n, 0
  {
    match n
    case Invoke(c) => CallText(sp, c)
    case Let(bind, v) => "let " + bind + "=" + ValText(sp, v)
    case Branch(cond, thn, els) =>
      "branch " + ExprText(sp, cond) + "then" + BlockText(sp, thn) + "else" + BlockText(sp, els)
    case Fork(branches) => "fork" + BranchesText(sp, branches)
    case Loop(vr, coll, body, par) =>
      "loop " + (if par then "par " else "") + vr + " in " + ValText(sp, coll) + BlockText(sp, body)
    case While(cond, limit, body) => "while " + ExprText(sp, cond) + LimitText(limit) + BlockText(sp, body)
    case Retry(cond, limit, body) => "retry until " + ExprText(sp, cond) + LimitText(limit) + BlockText(sp, body)
    case Return(v) => "return " + ValText(sp, v)
    case Graph(nodes) => "graph{" + StepsText(sp, Sorted(nodes))
  }

  function LimitText(limit: int): string {
    " limit " + FormatInt(limit)
  }

  ghost function BlockText(sp: Spell, ns: seq<Node>): string
    decreases ns, 2
  {
    "{" + NodesText(sp, ns)
  }

  /** A block after its opening brace. */
  ghost function NodesText(sp: Spell, ns: seq<Node>): string
    decreases ns, 1
  {
    if ns == [] then "}" else NodeText(sp, ns[0]) + ";" + NodesText(sp, ns[1..])
  }

  ghost function BranchesText(sp: Spell, bs: seq<ForkBranch>): string
    decreases bs, 1
  {
    if bs == [] then "" else bs[0].bind + ":" + BlockText(sp, bs[0].nodes) + BranchesText(sp, bs[1..])
  }

  ghost function StepsText(sp: Spell, gs: seq<GraphNode>): string {
    if gs == [] then "}"
    else gs[0].id + "[" + JoinText(SortStrings(gs[0].needs), ",") + "]=" + CallText(sp,
        gs[0].run) + ";" + StepsText(sp, gs[1..])
  }

  ghost function ProgramText(sp: Spell, p: Program): string {
    "wf(" + p.workflow + ")params[" + JoinText(p.params, ",") + "]" + BlockText(sp, p.body)
  }

  // ----- the builder

  function InsertField(f: Field, fs: seq<Field>): seq<Field> {
    if fs == [] || !StrLess(fs[0].key, f.key) then [f] + fs else [fs[0]] + InsertField(f, fs[1..])
  }

  function SortFields(fs: seq<Field>): seq<Field> {
    if fs == [] then [] else InsertField(fs[0], SortFields(fs[1..]))
  }

  lemma {:induction false} InsertFieldEntries(sp: Spell, f: Field, fs: seq<Field>)
    ensures FieldEntries(sp, InsertField(f, fs)) == InsertEntry(Entry(f.key, ValText(sp, f.val)), FieldEntries(sp, fs))
    ensures forall g | g in InsertField(f, fs) :: g == f || g in fs
    decreases |fs|
  {
    if fs != [] && StrLess(fs[0].key, f.key) {
      InsertFieldEntries(sp, f, fs[1..]);
      assert FieldEntries(sp, fs)[1..] == FieldEntries(sp, fs[1..]);
    }
  }

  lemma {:induction false} SortFieldEntries(sp: Spell, fs: seq<Field>)
    ensures FieldEntries(sp, SortFields(fs)) == SortEntries(FieldEntries(sp, fs))
    ensures forall g | g in SortFields(fs) :: g in fs
    decreases |fs|
  {
    if fs != [] {
      SortFieldEntries(sp, fs[1..]);
      InsertFieldEntries(sp, fs[0], SortFields(fs[1..]));
      assert FieldEntries(sp, fs)[1..] == FieldEntries(sp, fs[1..]);
    }
  }

  class Builder {
    const sp: Spell
    var text: string

    constructor (sp: Spell)
      ensures this.sp == sp && text == ""
    {
      this.sp := sp;
      text := "";
    }

    method Write(s: string)
      modifies this
      ensures text == old(text) + s
    {
      text := text + s;
    }

    /** Writes s after `done` has been written since `base`. */
    method Then(ghost base: string, ghost done: string, s: string)
      requires text == base + done
      modifies this
      ensures text == base + (done + s)
    {
      Write(s);
      Glue(base, done, s);
    }

    method EncodeValue(v: Value)
      modifies this
      ensures text == old(text) + ValText(sp, v)
      decreases v, 0
    {
      ghost var o := text;
      match v
      case Ref(path) => Write("ref:" + JoinText(path, "."));
      case Lit(x) => Write("lit:" + LitKey(sp, x));
      case Object(fields) =>
        ghost var es := EntriesText(SortEntries(FieldEntries(sp, fields)));
        Write("obj{");
        EncodeFields(fields);
        Glue(o, "obj{", es);
        Then(o, "obj{" + es, "}");
      case List(elems) =>
        Write("list[");
        EncodeValues(elems, ",");
        Glue(o, "list[", ValsText(sp, elems, ","));
        Then(o, "list[" + ValsText(sp, elems, ","), "]");
      case Template(parts) =>
        Write("tmpl(");
        EncodeValues(parts, ";");
        Glue(o, "tmpl(", ValsText(sp, parts, ";"));
        Then(o, "tmpl(" + ValsText(sp, parts, ";"), ")");
      case NilValue => Write("nil");
    }

    method EncodeValues(vs: seq<Value>, end: string)
      modifies this
      ensures text == old(text) + ValsText(sp, vs, end)
      decreases vs, 1
    {
      assert vs[0..] == vs;
      for i := 0 to |vs|
        invariant text + ValsText(sp, vs[i..], end) == old(text) + ValsText(sp, vs, end)
      {
        hide ValText;
        ghost var was, v := text, ValText(sp, vs[i]);
        EncodeValue(vs[i]);
        Then(was, v, end);
        Glue(was, v + end, ValsText(sp, vs[i + 1..], end));
        assert vs[i..][1..] == vs[i + 1..];
      }
      assert text + "" == text;
    }

    method EncodeFields(fs: seq<Field>)
      modifies this
      ensures text == old(text) + EntriesText(SortEntries(FieldEntries(sp, fs)))
      decreases fs, 1
    {
      var sorted := SortFields(fs);
      SortFieldEntries(sp, fs);
      hide ValText, SortEntries, SortFields;
      assert sorted[0..] == sorted;
      for i := 0 to |sorted|
        invariant text + EntriesText(FieldEntries(sp, sorted[i..])) == old(text) + EntriesText(FieldEntries(sp, sorted))
      {
        ghost var was, v := text, ValText(sp, sorted[i].val);
        assert sorted[i] in sorted;
        Write(sorted[i].key + "=");
        EncodeValue(sorted[i].val);
        Glue(was, sorted[i].key + "=", v);
        Then(was, sorted[i].key + "=" + v, ",");
        Glue(was, sorted[i].key + "=" + v + ",", EntriesText(FieldEntries(sp, sorted[i + 1..])));
        assert sorted[i..][1..] == sorted[i + 1..];
        assert FieldEntries(sp, sorted[i..])[1..] == FieldEntries(sp, sorted[i + 1..]);
      }
      assert text + "" == text;
    }

    method EncodeExpr(e: Expr)
      modifies this
      ensures text == old(text) + ExprText(sp, e)
      decreases e
    {
      ghost var o := text;
      match e
      case Leaf(v) => EncodeValue(v);
      case Not(x) =>
        Write("!(");
        EncodeExpr(x);
        Glue(o, "!(", ExprText(sp, x));
        Then(o, "!(" + ExprText(sp, x), ")");
      case BinOp(op, x, y) =>
        ghost var a, b := ExprText(sp, x), ExprText(sp, y);
        Write("(");
        EncodeExpr(x);
        Glue(o, "(", a);
        Then(o, "(" + a, OpText(op));
        EncodeExpr(y);
        Glue(o, "(" + a + OpText(op), b);
        Then(o, "(" + a + OpText(op) + b, ")");
      case NilExpr => Write("nilexpr");
    }

    method EncodeArgs(args: Args)
      modifies this
      ensures text == old(text) + ArgsText(sp, args)
    {
      Write("(");
      var keys := SortKeys(args.Keys);
      ghost var start := text;
      assert keys[0..] == keys;
      for i := 0 to |keys|
        invariant text + KeysText(sp, args, keys[i..]) == start + KeysText(sp, args, keys)
      {
        hide ValText;
        assert keys[i] in multiset(keys);
        ghost var was, v := text, ValText(sp, args[keys[i]]);
        Write(keys[i] + "=");
        EncodeValue(args[keys[i]]);
        Glue(was, keys[i] + "=", v);
        Then(was, keys[i] + "=" + v, ",");
        Glue(was, keys[i] + "=" + v + ",", KeysText(sp, args, keys[i + 1..]));
        assert keys[i..][1..] == keys[i + 1..];
      }
      assert text + "" == text;
      Glue(old(text), "(", KeysText(sp, args, keys));
      Then(old(text), "(" + KeysText(sp, args, keys), ")");
    }

    method EncodeCall(c: Call)
      modifies this
      ensures text == old(text) + CallText(sp, c)
    {
      hide ArgsText;
      ghost var o, head := text, "";
      match c {
        case Tool(bind, uses, _) =>
          Write("tool " + bind + "=" + uses);
          head := "tool " + bind + "=" + uses;
        case Agent(bind, agent, _, whole) =>
          Write("agent " + bind + "=" + agent);
          Then(o, "agent " + bind + "=" + agent, if whole then "!doc" else "");
          head := "agent " + bind + "=" + agent + (if whole then "!doc" else "");
        case Workflow(bind, workflow, _, whole, project) =>
          Write("workflow " + bind + "=" + workflow);
          Then(o, "workflow " + bind + "=" + workflow, if whole then "!doc" else "");
          head := "workflow " + bind + "=" + workflow + (if whole then "!doc" else "");
          Then(o, head, if project then "!value" else "");
          head := head + (if project then "!value" else "");
        case Approval(bind, desc, redact, _) =>
          Write("approval " + bind + " desc:" + sp.quote(desc) + " redact:[" + JoinText(SortStrings(redact),
              ",") + "]");
          head := "approval " + bind + " desc:" + sp.quote(desc) + " redact:[" + JoinText(SortStrings(redact),
              ",") + "]";
      }
      EncodeArgs(c.args);
      Glue(o, head, ArgsText(sp, c.args));
    }

    method EncodeNode(n: Node)
      modifies this
      ensures text == old(text) + NodeText(sp, n)
      decreases n, 1
    {
      hide CallText, ValText, ExprText, BlockText, BranchesText, StepsText, LimitText;
      ghost var o := text;
      match n
      case Invoke(c) => EncodeCall(c);
      case Let(bind, v) =>
        Write("let " + bind + "=");
        EncodeValue(v);
        Glue(o, "let " + bind + "=", ValText(sp, v));
      case Branch(_, _, _) => EncodeBranch(n);
      case Fork(branches) =>
        Write("fork");
        EncodeBranches(branches);
        Glue(o, "fork", BranchesText(sp, branches));
      case Loop(vr, coll, body, par) =>
        ghost var head := "loop " + (if par then "par " else "") + vr + " in ";
        Write("loop " + (if par then "par " else "") + vr + " in ");
        EncodeValue(coll);
        Glue(o, head, ValText(sp, coll));
        EncodeNodes(body);
        Glue(o, head + ValText(sp, coll), BlockText(sp, body));
      case While(cond, limit, body) => EncodeBounded("while ", cond, limit, body);
      case Retry(cond, limit, body) => EncodeBounded("retry until ", cond, limit, body);
      case Return(v) =>
        Write("return ");
        EncodeValue(v);
        Glue(o, "return ", ValText(sp, v));
      case Graph(nodes) => EncodeGraph(nodes);
    }

    method EncodeBranch(n: Node)
      requires n.Branch?
      modifies this
      ensures text == old(text) + NodeText(sp, n)
      decreases n, 0
    {
      hide ExprText, BlockText;
      ghost var o, c, t, e := text, ExprText(sp, n.cond), BlockText(sp, n.thn), BlockText(sp, n.els);
      Write("branch ");
      EncodeExpr(n.cond);
      Glue(o, "branch ", c);
      Then(o, "branch " + c, "then");
      EncodeNodes(n.thn);
      Glue(o, "branch " + c + "then", t);
      Then(o, "branch " + c + "then" + t, "else");
      EncodeNodes(n.els);
      Glue(o, "branch " + c + "then" + t + "else", e);
    }

    method EncodeBounded(word: string, cond: Expr, limit: int, body: seq<Node>)
      modifies this
      ensures text == old(text) + (word + ExprText(sp, cond) + LimitText(limit) + BlockText(sp, body))
      decreases body, 3
    {
      hide ExprText, BlockText, LimitText;
      ghost var o, c := text, ExprText(sp, cond);
      Write(word);
      EncodeExpr(cond);
      Glue(o, word, c);
      Then(o, word + c, LimitText(limit));
      EncodeNodes(body);
      Glue(o, word + c + LimitText(limit), BlockText(sp, body));
    }

    method EncodeNodes(ns: seq<Node>)
      modifies this
      ensures text == old(text) + BlockText(sp, ns)
      decreases ns, 1
    {
      Write("{");
      ghost var start := text;
      assert ns[0..] == ns;
      for i := 0 to |ns|
        invariant text + NodesText(sp, ns[i..]) == start + NodesText(sp, ns)
      {
        hide NodeText;
        ghost var was, n := text, NodeText(sp, ns[i]);
        EncodeNode(ns[i]);
        Then(was, n, ";");
        Glue(was, n + ";", NodesText(sp, ns[i + 1..]));
        assert ns[i..][1..] == ns[i + 1..];
      }
      Write("}");
      Glue(old(text), "{", NodesText(sp, ns));
    }

    method EncodeBranches(bs: seq<ForkBranch>)
      modifies this
      ensures text == old(text) + BranchesText(sp, bs)
      decreases bs, 2
    {
      assert bs[0..] == bs;
      for i := 0 to |bs|
        invariant text + BranchesText(sp, bs[i..]) == old(text) + BranchesText(sp, bs)
      {
        hide BlockText;
        ghost var was, b := text, BlockText(sp, bs[i].nodes);
        Write(bs[i].bind + ":");
        EncodeNodes(bs[i].nodes);
        Glue(was, bs[i].bind + ":", b);
        Glue(was, bs[i].bind + ":" + b, BranchesText(sp, bs[i + 1..]));
        assert bs[i..][1..] == bs[i + 1..];
      }
      assert text + "" == text;
    }

    method EncodeGraph(gs: seq<GraphNode>)
      modifies this
      ensures text == old(text) + ("graph{" + StepsText(sp, Sorted(gs)))
    {
      Write("graph{");
      ghost var start := text;
      var sorted := Sorted(gs);
      assert sorted[0..] == sorted;
      for i := 0 to |sorted|
        invariant text + StepsText(sp, sorted[i..]) == start + StepsText(sp, sorted)
      {
        hide CallText, Sorted, SortStrings, JoinText;
        ghost var was, c := text, CallText(sp, sorted[i].run);
        ghost var head := sorted[i].id + "[" + JoinText(SortStrings(sorted[i].needs), ",") + "]=";
        Write(sorted[i].id + "[" + JoinText(SortStrings(sorted[i].needs), ",") + "]=");
        EncodeCall(sorted[i].run);
        Glue(was, head, c);
        Then(was, head + c, ";");
        Glue(was, head + c + ";", StepsText(sp, sorted[i + 1..]));
        assert sorted[i..][1..] == sorted[i + 1..];
      }
      Write("}");
      Glue(old(text), "graph{", StepsText(sp, sorted));
    }
  }

  /** The keys of an argument map collected in any order and then sorted. */
  method SortKeys(ks: set<string>) returns (r: seq<string>)
    ensures r == SortedKeys(ks)
  {
    var rest, keys := ks, [];
    while rest != {}
      invariant rest <= ks && multiset(keys) == multiset(ks - rest)
      invariant forall i, j :: 0 <= i < j < |keys| ==> keys[i] != keys[j]
      decreases |rest|
    {
      var k :| k in rest;
      assert k !in multiset(keys);
      assert ks - (rest - {k}) == (ks - rest) + {k};
      assert multiset(ks - (rest - {k})) == multiset(ks - rest) + multiset{k};
      rest, keys := rest - {k}, keys + [k];
    }
    assert ks - rest == ks;
    r := SortStrings(keys);
    SortStringsOrdered(keys);
    OrderedUnique(r, SortedKeys(ks));
  }

  /** Program.Digest up to the hash. */
  method DigestText(sp: Spell, p: Program) returns (text: string)
    ensures text == ProgramText(sp, p)
  {
    var b := new Builder(sp);
    b.Write("wf(" + p.workflow + ")params[" + JoinText(p.params, ",") + "]");
    assert b.text == "wf(" + p.workflow + ")params[" + JoinText(p.params, ",") + "]";
    b.EncodeNodes(p.body);
    text := b.text;
  }

  // ----- authored order of graph steps and needs is invisible

  lemma {:induction false} StepsTextNeat(sp: Spell, gs: seq<GraphNode>, hs: seq<GraphNode>)
    requires NeatAll(gs) == NeatAll(hs)
    ensures StepsText(sp, gs) == StepsText(sp, hs)
    decreases |gs|
  {
    if gs != [] {
      hide CallText;
      assert Neat(gs[0]) == NeatAll(gs)[0] == NeatAll(hs)[0] == Neat(hs[0]);
      assert NeatAll(gs)[1..] == NeatAll(gs[1..]) && NeatAll(hs)[1..] == NeatAll(hs[1..]);
      StepsTextNeat(sp, gs[1..], hs[1..]);
    }
  }

  lemma {:induction false} RearrangedText(sp: Spell, n: Node, m: Node)
    requires Rearranged(n, m)
    ensures NodeText(sp, n) == NodeText(sp, m)
    decreases n, 0
  {
    hide RearrangedAll, Unique, Reordered, ValText, ExprText, CallText, NodesText, BranchesText, StepsText, LimitText;
    match n
    case Branch(_, thn, els) =>
      RearrangedNodesText(sp, thn, m.thn);
      RearrangedNodesText(sp, els, m.els);
    case Fork(bs) => RearrangedBranchesText(sp, bs, m.branches);
    case Loop(_, _, body, _) => RearrangedNodesText(sp, body, m.body);
    case While(_, _, body) => RearrangedNodesText(sp, body, m.body);
    case Retry(_, _, body) => RearrangedNodesText(sp, body, m.body);
    case Graph(gs) =>
      if gs != m.nodes {
        CanonicalOrderIsStable(gs, m.nodes);
        StepsTextNeat(sp, Sorted(gs), Sorted(m.nodes));
      }
    case _ =>
  }

  lemma {:induction false} RearrangedNodesText(sp: Spell, ns: seq<Node>, ms: seq<Node>)
    requires RearrangedAll(ns, ms)
    ensures NodesText(sp, ns) == NodesText(sp, ms)
    decreases ns, 1
  {
    if ns != [] {
      hide NodeText, Rearranged;
      RearrangedText(sp, ns[0], ms[0]);
      RearrangedNodesText(sp, ns[1..], ms[1..]);
    }
  }

  lemma {:induction false} RearrangedBranchesText(sp: Spell, bs: seq<ForkBranch>, cs: seq<ForkBranch>)
    requires |bs| == |cs| && forall i ::
                               0 <= i < |bs| ==> bs[i].bind == cs[i].bind && RearrangedAll(bs[i].nodes, cs[i].nodes)
    ensures BranchesText(sp, bs) == BranchesText(sp, cs)
    decreases bs, 1
  {
    if bs != [] {
      hide NodesText, RearrangedAll;
      RearrangedNodesText(sp, bs[0].nodes, cs[0].nodes);
      RearrangedBranchesText(sp, bs[1..], cs[1..]);
    }
  }

  /** One digest for every authored order of steps and needs, and the order is also invisible
      to every run, so memos recorded under one order replay under the other. */
  lemma ReorderingKeepsDigestAndRuns(sp: Spell, w: World, p: Program, q: Program, input: Val)
    requires SameProgram(p, q)
    ensures ProgramText(sp, p) == ProgramText(sp, q)
    ensures Run(w, p, input) == Run(w, q, input)
  {
    RearrangedNodesText(sp, p.body, q.body);
    RearrangedRun(w, p, q, input);
  }

  // ----- the digest after a codec round trip

  function TotalLength(es: seq<Entry>): nat {
    if es == [] then 0 else |es[0].key| + |es[0].text| + 2 + TotalLength(es[1..])
  }

  lemma {:induction false} InsertEntryLength(e: Entry, es: seq<Entry>)
    ensures |EntriesText(InsertEntry(e, es))| == |e.key| + |e.text| + 2 + |EntriesText(es)|
    decreases |es|
  {
    if es != [] && StrLess(es[0].key, e.key) { InsertEntryLength(e, es[1..]); }
  }

  lemma {:induction false} SortEntriesLength(es: seq<Entry>)
    ensures |EntriesText(SortEntries(es))| == TotalLength(es)
    decreases |es|
  {
    if es != [] {
      SortEntriesLength(es[1..]);
      InsertEntryLength(es[0], SortEntries(es[1..]));
    }
  }

  /** Turning absent values into null literals never shortens a text, and lengthens it exactly
      when there was an absent value. */
  ghost predicate Longer(a: string, b: string, solid: bool) {
    |a| <= |b| && (|a| == |b| <==> solid)
  }

  lemma {:induction false} NormValLonger(sp: Spell, v: Value)
    ensures Longer(ValText(sp, v), ValText(sp, NormVal(v)), SolidVal(v))
    decreases v, 0
  {
    match v
    case Object(fields) =>
      NormFieldsLonger(sp, fields);
      SortEntriesLength(FieldEntries(sp, fields));
      SortEntriesLength(FieldEntries(sp, NormFields(fields)));
    case List(elems) => NormValsLonger(sp, elems, ",");
    case Template(parts) => NormValsLonger(sp, parts, ";");
    case _ =>
  }

  lemma {:induction false} NormValsLonger(sp: Spell, vs: seq<Value>, end: string)
    ensures var solid := forall i :: 0 <= i < |vs| ==> SolidVal(vs[i]);
            Longer(ValsText(sp, vs, end), ValsText(sp, NormVals(vs), end), solid)
    decreases vs, 1
  {
    if vs != [] {
      NormValLonger(sp, vs[0]);
      NormValsLonger(sp, vs[1..], end);
      assert NormVals(vs)[1..] == NormVals(vs[1..]);
      assert forall i :: 0 < i < |vs| ==> vs[i] == vs[1..][i - 1];
    }
  }

  lemma {:induction false} NormFieldsLonger(sp: Spell, fs: seq<Field>)
    ensures var a, b := TotalLength(FieldEntries(sp, fs)), TotalLength(FieldEntries(sp, NormFields(fs)));
            a <= b && (a == b <==> forall i :: 0 <= i < |fs| ==> SolidVal(fs[i].val))
    decreases fs, 1
  {
    if fs != [] {
      NormValLonger(sp, fs[0].val);
      NormFieldsLonger(sp, fs[1..]);
      assert NormFields(fs)[1..] == NormFields(fs[1..]);
      assert FieldEntries(sp, fs)[1..] == FieldEntries(sp, fs[1..]);
      assert FieldEntries(sp, NormFields(fs))[1..] == FieldEntries(sp, NormFields(fs[1..]));
      assert forall i :: 0 < i < |fs| ==> fs[i] == fs[1..][i - 1];
    }
  }

  lemma {:induction false} NormKeysLonger(sp: Spell, args: Args, ks: seq<string>)
    requires forall k | k in ks :: k in args
    ensures var solid := forall i :: 0 <= i < |ks| ==> SolidVal(args[ks[i]]);
            Longer(KeysText(sp, args, ks), KeysText(sp, NormArgs(args), ks), solid)
    decreases |ks|
  {
    if ks != [] {
      NormValLonger(sp, args[ks[0]]);
      NormKeysLonger(sp, args, ks[1..]);
      assert forall i :: 0 < i < |ks| ==> ks[i] == ks[1..][i - 1];
    }
  }

  lemma NormArgsLonger(sp: Spell, args: Args)
    ensures Longer(ArgsText(sp, args), ArgsText(sp, NormArgs(args)), SolidArgs(args))
  {
    var ks := SortedKeys(args.Keys);
    assert NormArgs(args).Keys == args.Keys;
    forall k ensures k in ks <==> k in args { assert k in ks <==> k in multiset(ks); }
    NormKeysLonger(sp, args, ks);
    if forall i :: 0 <= i < |ks| ==> SolidVal(args[ks[i]]) {
      forall k | k in args ensures SolidVal(args[k]) { assert k in ks; }
    }
  }

  lemma {:induction false} NormExprLonger(sp: Spell, e: Expr)
    ensures Longer(ExprText(sp, e), ExprText(sp, NormExpr(e)), SolidExpr(e))
  {
    match e
    case Leaf(v) => NormValLonger(sp, v);
    case Not(x) => NormExprLonger(sp, x);
    case BinOp(_, x, y) =>
      NormExprLonger(sp, x);
      NormExprLonger(sp, y);
    case NilExpr =>
  }

  lemma NormCallLonger(sp: Spell, c: Call)
    ensures Longer(CallText(sp, c), CallText(sp, NormCall(c)), SolidArgs(c.args))
  {
    hide ArgsText, SolidArgs, NormArgs;
    NormArgsLonger(sp, c.args);
  }

  lemma {:induction false} NormNodeLonger(sp: Spell, n: Node)
    ensures Longer(NodeText(sp, n), NodeText(sp, NormNode(n)), SolidNode(n))
    decreases n, 0
  {
    hide ValText, NormVal, SolidVal, ExprText, NormExpr, SolidExpr, CallText, NormCall, SolidArgs, NodesText,
        NormNodes, SolidNodes, BranchesText, StepsText;
    match n
    case Invoke(c) => NormCallLonger(sp, c);
    case Let(_, v) => NormValLonger(sp, v);
    case Return(v) => NormValLonger(sp, v);
    case Branch(cond, thn, els) =>
      NormExprLonger(sp, cond);
      NormNodesLonger(sp, thn);
      NormNodesLonger(sp, els);
    case Fork(branches) => NormBranchesLonger(sp, branches);
    case Loop(_, coll, body, _) =>
      NormValLonger(sp, coll);
      NormNodesLonger(sp, body);
    case While(cond, _, body) =>
      NormExprLonger(sp, cond);
      NormNodesLonger(sp, body);
    case Retry(cond, _, body) =>
      NormExprLonger(sp, cond);
      NormNodesLonger(sp, body);
    case Graph(nodes) => NormGraphLonger(sp, nodes);
  }

  lemma NodesUnfold(sp: Spell, ns: seq<Node>)
    requires ns != []
    ensures NodesText(sp, ns) == NodeText(sp, ns[0]) + ";" + NodesText(sp, ns[1..])
    ensures NodesText(sp, NormNodes(ns)) == NodeText(sp, NormNode(ns[0])) + ";" + NodesText(sp, NormNodes(ns[1..]))
    ensures SolidNodes(ns) <==> SolidNode(ns[0]) && SolidNodes(ns[1..])
  {
    hide NodeText, NormNode, SolidNode;
    assert NormNodes(ns)[1..] == NormNodes(ns[1..]);
    assert forall i :: 0 < i < |ns| ==> ns[i] == ns[1..][i - 1];
  }

  lemma {:induction false} NormNodesLonger(sp: Spell, ns: seq<Node>)
    ensures Longer(NodesText(sp, ns), NodesText(sp, NormNodes(ns)), SolidNodes(ns))
    decreases ns, 1
  {
    if ns != [] {
      hide NodeText, NormNode, SolidNode, NodesText, NormNodes, SolidNodes;
      NodesUnfold(sp, ns);
      NormNodeLonger(sp, ns[0]);
      NormNodesLonger(sp, ns[1..]);
    }
  }

  lemma {:induction false} NormBranchesLonger(sp: Spell, bs: seq<ForkBranch>)
    ensures var solid := forall i :: 0 <= i < |bs| ==> SolidNodes(bs[i].nodes);
            Longer(BranchesText(sp, bs), BranchesText(sp, NormBranches(bs)), solid)
    decreases bs, 1
  {
    if bs != [] {
      hide NodesText, NormNodes, SolidNodes;
      NormNodesLonger(sp, bs[0].nodes);
      NormBranchesLonger(sp, bs[1..]);
      assert NormBranches(bs)[1..] == NormBranches(bs[1..]);
      assert forall i :: 0 < i < |bs| ==> bs[i] == bs[1..][i - 1];
    }
  }

  /** The summed length of the steps' texts, in any order. */
  ghost function StepsLength(sp: Spell, gs: seq<GraphNode>): nat {
    if gs == [] then 1 else StepLength(sp, gs[0]) + StepsLength(sp, gs[1..])
  }

  ghost function StepLength(sp: Spell, g: GraphNode): nat {
    |g.id| + |JoinText(SortStrings(g.needs), ",")| + |CallText(sp, g.run)| + 4
  }

  lemma {:induction false} StepsTextLength(sp: Spell, gs: seq<GraphNode>)
    ensures |StepsText(sp, gs)| == StepsLength(sp, gs)
    decreases |gs|
  {
    hide CallText;
    if gs != [] { StepsTextLength(sp, gs[1..]); }
  }

  lemma {:induction false} InsertLength(sp: Spell, g: GraphNode, gs: seq<GraphNode>)
    ensures StepsLength(sp, Insert(g, gs)) == StepLength(sp, g) + StepsLength(sp, gs)
    decreases |gs|
  {
    hide StepLength;
    if gs != [] && StrLess(gs[0].id, g.id) { InsertLength(sp, g, gs[1..]); }
  }

  lemma {:induction false} SortedLength(sp: Spell, gs: seq<GraphNode>)
    ensures StepsLength(sp, Sorted(gs)) == StepsLength(sp, gs)
    decreases |gs|
  {
    hide StepLength;
    if gs != [] {
      SortedLength(sp, gs[1..]);
      InsertLength(sp, gs[0], Sorted(gs[1..]));
    }
  }

  lemma {:induction false} NormStepsLonger(sp: Spell, gs: seq<GraphNode>)
    ensures var a, b := StepsLength(sp, gs), StepsLength(sp, NormSteps(gs));
            a <= b && (a == b <==> forall i :: 0 <= i < |gs| ==> SolidArgs(gs[i].run.args))
    decreases |gs|
  {
    if gs != [] {
      hide CallText, NormCall, SolidArgs;
      NormCallLonger(sp, gs[0].run);
      NormStepsLonger(sp, gs[1..]);
      assert NormSteps(gs)[1..] == NormSteps(gs[1..]);
      assert forall i :: 0 < i < |gs| ==> gs[i] == gs[1..][i - 1];
    }
  }

  lemma NormGraphLonger(sp: Spell, gs: seq<GraphNode>)
    ensures Longer(StepsText(sp, Sorted(gs)), StepsText(sp, Sorted(NormSteps(gs))), forall i ::
        0 <= i < |gs| ==> SolidArgs(gs[i].run.args))
  {
    StepsTextLength(sp, Sorted(gs));
    StepsTextLength(sp, Sorted(NormSteps(gs)));
    SortedLength(sp, gs);
    SortedLength(sp, NormSteps(gs));
    NormStepsLonger(sp, gs);
  }

  /** A program that encodes hydrates to one with the same digest text exactly when it holds no
      absent value. */
  lemma DigestSurvivesCodecIff(sp: Spell, p: Program)
    requires PlainNodes(p.body)
    ensures WireProgram(p).Some? && DecodeProgram(WireProgram(p).value).Some?
    ensures ProgramText(sp, DecodeProgram(WireProgram(p).value).value) == ProgramText(sp, p) <==> SolidNodes(p.body)
  {
    hide NodesText, SolidNodes;
    ProgramRoundTrip(p);
    SolidNodesFixed(p.body);
    NormNodesLonger(sp, p.body);
    var q := NormProgram(p);
    var head := "wf(" + p.workflow + ")params[" + JoinText(p.params, ",") + "]";
    assert ProgramText(sp, p) == head + BlockText(sp, p.body);
    assert ProgramText(sp, q) == head + BlockText(sp, q.body);
    if NormNodes(p.body) != p.body {
      assert |ProgramText(sp, q)| > |ProgramText(sp, p)|;
    }
  }
}
