/** The expression grammar as a relation between trees and token sequences, and the parser
    (internal/lang/parser.go) as its exact recogniser. */
module Grammar {
  import opened Values
  import opened Lang
  import CodecLaws

  // ----- the grammar

  predicate IsWord(name: string) {
    name == "true" || name == "false"
  }

  /** A numeral without a point within int64 is an integer; any other stays as written. */
  ghost predicate Numeric(text: string, lit: Literal) {
    match lit
    case IntLit(n) => '.' !in text && CodecLaws.Numeral(text, n)
    case FloatLit(t) => t == text && ('.' in text || forall n: int64 :: !CodecLaws.Numeral(text, n))
    case _ => false
  }

  /** Disjunctions, grouped to the left. */
  ghost predicate Or(e: Expr, u: seq<Token>)
    decreases |u|, 5
  {
    || And(e, u)
    || (e.BinaryExpr? && e.op == OrOr
        && exists n: nat :: n < |u| && u[n] == Operator(OrOr) && Or(e.x, u[..n]) && And(e.y, u[n + 1..]))
  }

  ghost predicate And(e: Expr, u: seq<Token>)
    decreases |u|, 4
  {
    || Relation(e, u)
    || (e.BinaryExpr? && e.op == AndAnd
        && exists n: nat :: n < |u| && u[n] == Operator(AndAnd) && And(e.x, u[..n]) && Relation(e.y, u[n + 1..]))
  }

  /** At most one comparison. */
  ghost predicate Relation(e: Expr, u: seq<Token>)
    decreases |u|, 3
  {
    || Unary(e, u)
    || (e.BinaryExpr? && IsComparison(e.op)
        && exists n: nat :: n < |u| && u[n] == Operator(e.op) && Unary(e.x, u[..n]) && Unary(e.y, u[n + 1..]))
  }

  ghost predicate Unary(e: Expr, u: seq<Token>)
    decreases |u|, 2
  {
    Primary(e, u) || (e.NotExpr? && |u| > 0 && u[0] == Bang && Unary(e.x, u[1..]))
  }

  ghost predicate Primary(e: Expr, u: seq<Token>)
    decreases |u|, 1
  {
    || (|u| >= 2 && u[0] == LParen && u[|u| - 1] == RParen && Or(e, u[1..|u| - 1]))
    || match e
       case LitExpr(StrLit(s)) => u == [String(s)]
       case LitExpr(BoolLit(b)) => u == [Ident(if b then "true" else "false")]
       case LitExpr(lit) => |u| == 1 && u[0].Number? && Numeric(u[0].text, lit)
       case RefExpr(parts) => parts != [] && !(|parts| == 1 && IsWord(parts[0])) && u == PathTokens(parts)
       case CallExpr(callee, args) =>
         var k := |PathTokens(callee)|;
         && callee != [] && |u| >= k + 2 && u[..k] == PathTokens(callee) && u[k] == LParen && u[|u| - 1] == RParen
         && ArgList(args, u[k + 1..|u| - 1])
       case ObjectExpr(fields) =>
         |u| >= 2 && u[0] == LBrace && u[|u| - 1] == RBrace && FieldList(fields, u[1..|u| - 1])
       case _ => false
  }

  ghost predicate OneArg(a: Arg, u: seq<Token>)
    decreases |u|, 6
  {
    match a.name
    case None => Or(a.value, u)
    case Some(n) => |u| >= 2 && u[0] == Ident(n) && u[1] == Colon && Or(a.value, u[2..])
  }

  /** Arguments between commas, one of which may trail. */
  ghost predicate ArgList(args: seq<Arg>, u: seq<Token>)
    decreases |u|, 7
  {
    if args == [] then u == []
    else
      || (|args| == 1 && OneArg(args[0], u))
      || exists n: nat :: n < |u| && u[n] == Comma && OneArg(args[0], u[..n]) && ArgList(args[1..], u[n + 1..])
  }

  /** Entries with commas anywhere between them, or none. */
  ghost predicate FieldList(fields: seq<FieldExpr>, u: seq<Token>)
    decreases |u|, 7
  {
    if u == [] then fields == []
    else if u[0] == Comma then FieldList(fields, u[1..])
    else
      && fields != [] && |u| >= 2 && u[0] == Ident(fields[0].key) && u[1] == Colon
      && exists n: nat :: 2 <= n <= |u| && Or(fields[0].value, u[2..n]) && FieldList(fields[1..], u[n..])
  }

  // ----- what the parser accepts is in the grammar

  lemma NumberIff(text: string, lit: Literal)
    requires lit.IntLit? || lit.FloatLit?
    ensures ParseNumber(text) == lit <==> Numeric(text, lit)
  {
    forall n: int64 ensures Codec.ParseInt(text) == Some(n) <==> CodecLaws.Numeral(text, n) {
      CodecLaws.ParseIntIff(text, n);
    }
  }

  /** ts is u followed by rest. */
  ghost predicate Splits(ts: seq<Token>, u: seq<Token>, rest: seq<Token>) {
    ts == u + rest
  }

  lemma SplitMore(ts: seq<Token>, a: seq<Token>, middle: seq<Token>, b: seq<Token>, rest: seq<Token>)
    requires Splits(ts, a, middle) && Splits(middle, b, rest)
    ensures Splits(ts, a + b, rest)
  {
  }

  lemma SplitFirst(ts: seq<Token>)
    requires ts != []
    ensures Splits(ts, [ts[0]], ts[1..])
  {
  }

  /** The pieces of a sequence that an operator or separator joins. */
  lemma Pieces(a: seq<Token>, t: Token, b: seq<Token>)
    ensures var u := a + [t] + b; u[|a|] == t && u[..|a|] == a && u[|a| + 1..] == b
  {
  }

  lemma OrJoin(x: Expr, y: Expr, a: seq<Token>, b: seq<Token>)
    requires Or(x, a) && And(y, b)
    ensures Or(BinaryExpr(OrOr, x, y), a + [Operator(OrOr)] + b)
  {
    hide And;
    Pieces(a, Operator(OrOr), b);
  }

  lemma AndJoin(x: Expr, y: Expr, a: seq<Token>, b: seq<Token>)
    requires And(x, a) && Relation(y, b)
    ensures And(BinaryExpr(AndAnd, x, y), a + [Operator(AndAnd)] + b)
  {
    hide Relation;
    Pieces(a, Operator(AndAnd), b);
  }

  lemma RelationJoin(op: Op, x: Expr, y: Expr, a: seq<Token>, b: seq<Token>)
    requires IsComparison(op) && Unary(x, a) && Unary(y, b)
    ensures Relation(BinaryExpr(op, x, y), a + [Operator(op)] + b)
  {
    hide Unary;
    Pieces(a, Operator(op), b);
  }

  lemma Rises(e: Expr, u: seq<Token>)
    ensures (Unary(e, u) ==> Relation(e, u)) && (Relation(e, u) ==> And(e, u)) && (And(e, u) ==> Or(e, u))
  {
    hide Unary;
  }

  lemma {:induction false} OrSound(ts: seq<Token>) returns (u: seq<Token>)
    requires ParseOr(ts).Some?
    ensures Splits(ts, u, ParseOr(ts).value.rest) && Or(ParseOr(ts).value.e, u)
    decreases |ts|, 5
  {
    hide Or, And, Relation, ParseAnd, OrTail, Splits;
    var p := ParseAnd(ts).value;
    var a := AndSound(ts);
    Rises(p.e, a);
    var b := OrTailSound(p.e, a, p.rest);
    SplitMore(ts, a, p.rest, b, ParseOr(ts).value.rest);
    u := a + b;
  }

  lemma {:induction false} OrTailSound(left: Expr, a: seq<Token>, ts: seq<Token>) returns (u: seq<Token>)
    requires Or(left, a) && OrTail(left, ts).Some?
    ensures Splits(ts, u, OrTail(left, ts).value.rest) && Or(OrTail(left, ts).value.e, a + u)
    decreases |ts|, 0
  {
    hide Or, And, Splits, ParseAnd;
    if !StartsWith(ts, Operator(OrOr)) {
      u := [];
      assert a + u == a && [] + ts == ts;
      assert Splits(ts, u, ts) by { NothingTaken(ts); }
    } else {
      var p := ParseAnd(ts[1..]).value;
      var b := AndSound(ts[1..]);
      var whole := a + [Operator(OrOr)] + b;
      OrJoin(left, p.e, a, b);
      var more := OrTailSound(BinaryExpr(OrOr, left, p.e), whole, p.rest);
      SplitFirst(ts);
      SplitMore(ts, [ts[0]], ts[1..], b, p.rest);
      SplitMore(ts, [ts[0]] + b, p.rest, more, OrTail(left, ts).value.rest);
      u := [ts[0]] + b + more;
      assert a + u == whole + more;
    }
  }

  lemma NothingTaken(ts: seq<Token>)
    ensures Splits(ts, [], ts)
  {
  }

  lemma {:induction false} AndSound(ts: seq<Token>) returns (u: seq<Token>)
    requires ParseAnd(ts).Some?
    ensures Splits(ts, u, ParseAnd(ts).value.rest) && And(ParseAnd(ts).value.e, u)
    decreases |ts|, 4
  {
    hide Or, And, Relation, Unary, ParseComparison, AndTail, Splits;
    var p := ParseComparison(ts).value;
    var a := RelationSound(ts);
    Rises(p.e, a);
    var b := AndTailSound(p.e, a, p.rest);
    SplitMore(ts, a, p.rest, b, ParseAnd(ts).value.rest);
    u := a + b;
  }

  lemma {:induction false} AndTailSound(left: Expr, a: seq<Token>, ts: seq<Token>) returns (u: seq<Token>)
    requires And(left, a) && AndTail(left, ts).Some?
    ensures Splits(ts, u, AndTail(left, ts).value.rest) && And(AndTail(left, ts).value.e, a + u)
    decreases |ts|, 0
  {
    hide And, Relation, Splits, ParseComparison;
    if !StartsWith(ts, Operator(AndAnd)) {
      u := [];
      assert a + u == a;
      NothingTaken(ts);
    } else {
      var p := ParseComparison(ts[1..]).value;
      var b := RelationSound(ts[1..]);
      var whole := a + [Operator(AndAnd)] + b;
      AndJoin(left, p.e, a, b);
      var more := AndTailSound(BinaryExpr(AndAnd, left, p.e), whole, p.rest);
      SplitFirst(ts);
      SplitMore(ts, [ts[0]], ts[1..], b, p.rest);
      SplitMore(ts, [ts[0]] + b, p.rest, more, AndTail(left, ts).value.rest);
      u := [ts[0]] + b + more;
      assert a + u == whole + more;
    }
  }

  lemma {:induction false} RelationSound(ts: seq<Token>) returns (u: seq<Token>)
    requires ParseComparison(ts).Some?
    ensures Splits(ts, u, ParseComparison(ts).value.rest) && Relation(ParseComparison(ts).value.e, u)
    decreases |ts|, 3
  {
    hide Unary, ParseUnary, Relation, And, Or, Splits;
    var p := ParseUnary(ts).value;
    u := UnarySound(ts);
    Rises(p.e, u);
    if StartsComparison(p.rest) {
      var op, q := p.rest[0], ParseUnary(p.rest[1..]).value;
      var b := UnarySound(p.rest[1..]);
      RelationJoin(op.op, p.e, q.e, u, b);
      SplitFirst(p.rest);
      SplitMore(ts, u, p.rest, [op], p.rest[1..]);
      SplitMore(ts, u + [op], p.rest[1..], b, q.rest);
      u := u + [op] + b;
    }
  }

  lemma {:induction false} UnarySound(ts: seq<Token>) returns (u: seq<Token>)
    requires ParseUnary(ts).Some?
    ensures Splits(ts, u, ParseUnary(ts).value.rest) && Unary(ParseUnary(ts).value.e, u)
    decreases |ts|, 2
  {
    hide Primary, ParsePrimary, Splits;
    if StartsWith(ts, Bang) {
      var v := UnarySound(ts[1..]);
      u := [ts[0]] + v;
      assert u[1..] == v;
      SplitFirst(ts);
      SplitMore(ts, [ts[0]], ts[1..], v, ParseUnary(ts).value.rest);
    } else {
      u := PrimarySound(ts);
    }
  }

  lemma {:induction false} PrimarySound(ts: seq<Token>) returns (u: seq<Token>)
    requires ParsePrimary(ts).Some?
    ensures Splits(ts, u, ParsePrimary(ts).value.rest) && Primary(ParsePrimary(ts).value.e, u)
    decreases |ts|, 1
  {
    hide Or, ArgList, FieldList, ParseExpr, ArgsTail, FieldsTail, PathTail, ParseNumber, Numeric, Splits;
    SplitFirst(ts);
    match ts[0]
    case Number(text) =>
      u := [ts[0]];
      NumberKind(text);
      NumberIff(text, ParseNumber(text));
    case String(s) => u := [ts[0]];
    case LParen => u := ParensSound(ts);
    case LBrace => u := ObjectSound(ts);
    case Ident(name) =>
      if IsWord(name) && !StartsWith(ts[1..], Dot) && !StartsWith(ts[1..], LParen) {
        u := [ts[0]];
      } else {
        u := PathSound(ts, name);
      }
    case _ =>
  }

  lemma NumberKind(text: string)
    ensures ParseNumber(text).IntLit? || ParseNumber(text).FloatLit?
  {
  }

  lemma {:induction false} ParensSound(ts: seq<Token>) returns (u: seq<Token>)
    requires ParsePrimary(ts).Some? && ts[0] == LParen
    ensures Splits(ts, u, ParsePrimary(ts).value.rest) && Primary(ParsePrimary(ts).value.e, u)
    decreases |ts|, 0
  {
    hide Or, ArgList, FieldList, ArgsTail, FieldsTail, PathTail, ParseNumber, Numeric, ParseOr, Splits;
    var p := ParseExpr(ts[1..]).value;
    var v := OrSound(ts[1..]);
    u := Enclosed(ts, v, p.rest);
    assert u[1..|u| - 1] == v;
  }

  /** A bracketed part: its opening and closing tokens and what lies between. */
  lemma Enclosed(ts: seq<Token>, v: seq<Token>, rest: seq<Token>) returns (u: seq<Token>)
    requires ts != [] && rest != [] && Splits(ts[1..], v, rest)
    ensures u == [ts[0]] + v + [rest[0]] && Splits(ts, u, rest[1..])
  {
    u := [ts[0]] + v + [rest[0]];
    SplitFirst(ts);
    SplitFirst(rest);
    SplitMore(ts, [ts[0]], ts[1..], v, rest);
    SplitMore(ts, [ts[0]] + v, rest, [rest[0]], rest[1..]);
  }

  lemma {:induction false} ObjectSound(ts: seq<Token>) returns (u: seq<Token>)
    requires ParsePrimary(ts).Some? && ts[0] == LBrace
    ensures Splits(ts, u, ParsePrimary(ts).value.rest) && Primary(ParsePrimary(ts).value.e, u)
    decreases |ts|, 0
  {
    hide Or, ArgList, FieldList, ArgsTail, FieldsTail, PathTail, ParseNumber, Numeric, ParseExpr, Splits;
    var v, fields, rest := FieldsSound([], ts[1..]);
    assert [] + fields == fields;
    u := Enclosed(ts, v, rest);
    assert u[1..|u| - 1] == v;
  }

  lemma {:induction false} PathSound(ts: seq<Token>, name: string) returns (u: seq<Token>)
    requires ParsePrimary(ts).Some? && ts[0] == Ident(name)
    requires !(IsWord(name) && !StartsWith(ts[1..], Dot) && !StartsWith(ts[1..], LParen))
    ensures Splits(ts, u, ParsePrimary(ts).value.rest) && Primary(ParsePrimary(ts).value.e, u)
    decreases |ts|, 0
  {
    hide Or, ArgList, FieldList, ArgsTail, FieldsTail, ParseNumber, Numeric, ParseExpr, PathTail, PathTokens, Splits,
        Primary;
    var p := PathTail([name], ts[1..]).value;
    var more := DotsSound([name], ts[1..]);
    SplitFirst(ts);
    SplitMore(ts, [ts[0]], ts[1..], more, p.rest);
    u := [ts[0]] + more;
    OneName(name);
    if StartsWith(p.rest, LParen) {
      var v, args, rest := ArgsSound([], p.rest[1..]);
      assert [] + args == args;
      CallJoin(p.e, args, v);
      var w := Enclosed(p.rest, v, rest);
      SplitMore(ts, u, p.rest, w, rest[1..]);
      assert u + w == u + [LParen] + v + [RParen];
      u := u + w;
    } else {
      RefJoin(p.e);
    }
  }

  lemma OneName(name: string)
    ensures PathTokens([name]) == [Ident(name)]
  {
  }

  lemma RefJoin(parts: seq<string>)
    requires parts != [] && !(|parts| == 1 && IsWord(parts[0]))
    ensures Primary(RefExpr(parts), PathTokens(parts))
  {
    hide PathTokens, Or;
  }

  lemma CallJoin(callee: seq<string>, args: seq<Arg>, v: seq<Token>)
    requires callee != [] && ArgList(args, v)
    ensures Primary(CallExpr(callee, args), PathTokens(callee) + [LParen] + v + [RParen])
  {
    hide ArgList, PathTokens, Or;
    var u := PathTokens(callee);
    var whole := u + [LParen] + v + [RParen];
    assert whole[..|u|] == u && whole[|u|] == LParen && whole[|u| + 1..|whole| - 1] == v;
  }

  lemma {:induction false} PathLength(parts: seq<string>)
    ensures |PathTokens(parts)| == if parts == [] then 0 else 2 * |parts| - 1
    decreases |parts|
  {
    if |parts| > 1 { PathLength(parts[..|parts| - 1]); }
  }

  /** The dots after a path's first segments. */
  lemma {:induction false} DotsSound(parts: seq<string>, ts: seq<Token>) returns (more: seq<Token>)
    requires parts != [] && PathTail(parts, ts).Some?
    ensures Splits(ts, more, PathTail(parts, ts).value.rest)
    ensures PathTokens(PathTail(parts, ts).value.e) == PathTokens(parts) + more
    ensures PathTail(parts, ts).value.e != []
    ensures |PathTail(parts, ts).value.e| == 1 ==> PathTail(parts, ts).value.e == parts && !StartsWith(ts, Dot)
    decreases |ts|
  {
    if !StartsWith(ts, Dot) {
      more := [];
    } else {
      var longer := parts + [ts[1].name];
      var tail := DotsSound(longer, ts[2..]);
      more := [Dot, ts[1]] + tail;
      assert longer[..|longer| - 1] == parts;
      assert PathTokens(longer) == PathTokens(parts) + [Dot, ts[1]];
      PathLength(longer);
      PathLength(PathTail(longer, ts[2..]).value.e);
      assert ts == [Dot, ts[1]] + ts[2..];
    }
  }

  lemma {:induction false} ArgSound(ts: seq<Token>) returns (u: seq<Token>)
    requires ParseArg(ts).Some?
    ensures Splits(ts, u, ParseArg(ts).value.rest) && OneArg(ParseArg(ts).value.e, u)
    decreases |ts|, 6
  {
    hide Or, ParseOr, Splits;
    if |ts| >= 2 && ts[0].Ident? && ts[1].Colon? {
      var v := OrSound(ts[2..]);
      u := [ts[0], ts[1]] + v;
      assert u[2..] == v;
      SplitTwo(ts);
      SplitMore(ts, [ts[0], ts[1]], ts[2..], v, ParseArg(ts).value.rest);
    } else {
      u := OrSound(ts);
    }
  }

  lemma SplitTwo(ts: seq<Token>)
    requires |ts| >= 2
    ensures Splits(ts, [ts[0], ts[1]], ts[2..])
  {
  }

  lemma {:induction false} ArgsSound(done: seq<Arg>, ts: seq<Token>)
    returns (u: seq<Token>, args: seq<Arg>, rest: seq<Token>)
    requires ArgsTail(done, ts).Some?
    ensures rest != [] && rest[0] == RParen && rest[1..] == ArgsTail(done, ts).value.rest && Splits(ts, u, rest)
    ensures ArgsTail(done, ts).value.e == done + args && ArgList(args, u)
    decreases |ts|, 7
  {
    hide OneArg, ParseArg, Splits, ArgList;
    if ts[0].RParen? {
      u, args, rest := [], [], ts;
      NothingTaken(ts);
      NoArgs();
    } else {
      var p := ParseArg(ts).value;
      var a := ArgSound(ts);
      if StartsWith(p.rest, Comma) {
        var tail, more;
        tail, more, rest := ArgsSound(done + [p.e], p.rest[1..]);
        u, args := a + [Comma] + tail, [p.e] + more;
        MoreArgs(p.e, a, more, tail);
        SplitFirst(p.rest);
        SplitMore(ts, a, p.rest, [Comma], p.rest[1..]);
        SplitMore(ts, a + [Comma], p.rest[1..], tail, rest);
        assert (done + [p.e]) + more == done + args;
      } else {
        u, args, rest := a, [p.e], p.rest;
        LastArg(p.e, a);
      }
    }
  }

  lemma NoArgs()
    ensures ArgList([], [])
  {
  }

  lemma LastArg(a: Arg, u: seq<Token>)
    requires OneArg(a, u)
    ensures ArgList([a], u)
  {
    hide OneArg;
  }

  lemma MoreArgs(a: Arg, u: seq<Token>, args: seq<Arg>, v: seq<Token>)
    requires OneArg(a, u) && ArgList(args, v)
    ensures ArgList([a] + args, u + [Comma] + v)
  {
    hide OneArg;
    Pieces(u, Comma, v);
    assert ([a] + args)[1..] == args;
  }

  lemma {:induction false} FieldsSound(done: seq<FieldExpr>, ts: seq<Token>)
    returns (u: seq<Token>, fields: seq<FieldExpr>, rest: seq<Token>)
    requires FieldsTail(done, ts).Some?
    ensures rest != [] && rest[0] == RBrace && rest[1..] == FieldsTail(done, ts).value.rest && Splits(ts, u, rest)
    ensures FieldsTail(done, ts).value.e == done + fields && FieldList(fields, u)
    decreases |ts|, 7
  {
    hide Or, ParseOr, Splits, FieldList;
    if ts[0].RBrace? {
      u, fields, rest := [], [], ts;
      NothingTaken(ts);
      NoFields();
    } else if ts[0].Comma? {
      var v;
      v, fields, rest := FieldsSound(done, ts[1..]);
      u := [Comma] + v;
      AfterComma(fields, v);
      SplitFirst(ts);
      SplitMore(ts, [Comma], ts[1..], v, rest);
    } else {
      var p := ParseExpr(ts[2..]).value;
      var v := OrSound(ts[2..]);
      var f := FieldExpr(ts[0].name, p.e);
      var tail, more;
      tail, more, rest := FieldsSound(done + [f], p.rest);
      u, fields := [ts[0], ts[1]] + v + tail, [f] + more;
      MoreFields(f, v, more, tail);
      SplitTwo(ts);
      SplitMore(ts, [ts[0], ts[1]], ts[2..], v, p.rest);
      SplitMore(ts, [ts[0], ts[1]] + v, p.rest, tail, rest);
      assert (done + [f]) + more == done + fields;
    }
  }

  lemma NoFields()
    ensures FieldList([], [])
  {
  }

  lemma AfterComma(fields: seq<FieldExpr>, v: seq<Token>)
    requires FieldList(fields, v)
    ensures FieldList(fields, [Comma] + v)
  {
    assert ([Comma] + v)[1..] == v;
  }

  lemma MoreFields(f: FieldExpr, v: seq<Token>, fields: seq<FieldExpr>, tail: seq<Token>)
    requires Or(f.value, v) && FieldList(fields, tail)
    ensures FieldList([f] + fields, [Ident(f.key), Colon] + v + tail)
  {
    hide Or;
    var u := [Ident(f.key), Colon] + v + tail;
    var n: nat := 2 + |v|;
    assert u[2..n] == v && u[n..] == tail && ([f] + fields)[1..] == fields;
  }

  // ----- what is in the grammar the parser accepts

  /** How a spelled expression begins: not like a named argument, and not with a separator. */
  ghost predicate Opens(u: seq<Token>) {
    && |u| > 0 && !u[0].Comma? && !u[0].RParen? && !u[0].RBrace?
    && !(|u| > 1 && u[0].Ident? && u[1].Colon?)
  }

  lemma PathOpens(parts: seq<string>)
    requires parts != []
    ensures PathTokens(parts)[0] == Ident(parts[0]) && (|parts| > 1 ==> PathTokens(parts)[1] == Dot)
    ensures |parts| == 1 <==> |PathTokens(parts)| == 1
  {
    PathLength(parts);
    PathRoundTrip(parts, []);
    assert PathTokens(parts) + [] == PathTokens(parts);
  }

  lemma RefOpens(parts: seq<string>)
    requires parts != []
    ensures Opens(PathTokens(parts)) && PathTokens(parts)[0] != Bang
  {
    hide PathTokens;
    PathOpens(parts);
    PathLength(parts);
  }

  lemma PrimaryOpens(e: Expr, u: seq<Token>)
    requires Primary(e, u)
    ensures Opens(u) && u[0] != Bang
  {
    hide Or, ArgList, FieldList, PathTokens;
    match e
    case RefExpr(parts) => if parts != [] { RefOpens(parts); }
    case CallExpr(callee, _) => if u[0] != LParen { CalleeOpens(callee, u); }
    case _ =>
  }

  lemma CalleeOpens(callee: seq<string>, u: seq<Token>)
    requires callee != [] && |u| > |PathTokens(callee)| && u[..|PathTokens(callee)|] == PathTokens(callee)
             && u[|PathTokens(callee)|] == LParen
    ensures Opens(u) && u[0] != Bang
  {
    hide PathTokens;
    PathOpens(callee);
    PathLength(callee);
    assert u[0] == PathTokens(callee)[0] && (|callee| > 1 ==> u[1] == PathTokens(callee)[1]);
  }

  lemma UnaryOpens(e: Expr, u: seq<Token>)
    requires Unary(e, u)
    ensures Opens(u)
  {
    hide Primary;
    if Primary(e, u) { PrimaryOpens(e, u); }
  }

  /** What precedes an operator opens the whole. */
  lemma FrontOpens(u: seq<Token>, n: nat)
    requires n < |u| && u[n].Operator? && Opens(u[..n])
    ensures Opens(u)
  {
    assert u[..n][0] == u[0] && (n > 1 ==> u[..n][1] == u[1]);
  }

  lemma RelationOpens(e: Expr, u: seq<Token>)
    requires Relation(e, u)
    ensures Opens(u)
  {
    hide Unary, Opens;
    if Unary(e, u) {
      UnaryOpens(e, u);
    } else {
      var n: nat :| n < |u| && u[n] == Operator(e.op) && Unary(e.x, u[..n]) && Unary(e.y, u[n + 1..]);
      UnaryOpens(e.x, u[..n]);
      FrontOpens(u, n);
    }
  }

  lemma {:induction false} AndOpens(e: Expr, u: seq<Token>)
    requires And(e, u)
    ensures Opens(u)
    decreases |u|
  {
    hide Relation, Opens;
    if Relation(e, u) {
      RelationOpens(e, u);
    } else {
      var n: nat :| n < |u| && u[n] == Operator(AndAnd) && And(e.x, u[..n]) && Relation(e.y, u[n + 1..]);
      AndOpens(e.x, u[..n]);
      FrontOpens(u, n);
    }
  }

  lemma {:induction false} OrOpens(e: Expr, u: seq<Token>)
    requires Or(e, u)
    ensures Opens(u)
    decreases |u|
  {
    hide And, Opens;
    if And(e, u) {
      AndOpens(e, u);
    } else {
      var n: nat :| n < |u| && u[n] == Operator(OrOr) && Or(e.x, u[..n]) && And(e.y, u[n + 1..]);
      OrOpens(e.x, u[..n]);
      FrontOpens(u, n);
    }
  }

  /** u with an operator at n, and what follows it. */
  lemma Cut(u: seq<Token>, n: nat, r: seq<Token>)
    requires n < |u|
    ensures u + r == u[..n] + ([u[n]] + (u[n + 1..] + r)) && ([u[n]] + (u[n + 1..] + r))[1..] == u[n + 1..] + r
  {
    assert u == u[..n] + [u[n]] + u[n + 1..];
  }

  lemma {:induction false} OrComplete(e: Expr, u: seq<Token>, r: seq<Token>)
    requires Or(e, u) && EndsAnd(r)
    ensures ParseOr(u + r) == OrTail(e, r)
    decreases |u|, 5
  {
    hide And, ParseAnd;
    if And(e, u) {
      AndComplete(e, u, r);
    } else {
      var n: nat :| n < |u| && u[n] == Operator(OrOr) && Or(e.x, u[..n]) && And(e.y, u[n + 1..]);
      Cut(u, n, r);
      OrComplete(e.x, u[..n], [u[n]] + (u[n + 1..] + r));
      AndComplete(e.y, u[n + 1..], r);
    }
  }

  lemma {:induction false} AndComplete(e: Expr, u: seq<Token>, r: seq<Token>)
    requires And(e, u) && EndsComparison(r)
    ensures ParseAnd(u + r) == AndTail(e, r)
    decreases |u|, 4
  {
    hide Relation, ParseComparison;
    if Relation(e, u) {
      RelationComplete(e, u, r);
    } else {
      var n: nat :| n < |u| && u[n] == Operator(AndAnd) && And(e.x, u[..n]) && Relation(e.y, u[n + 1..]);
      Cut(u, n, r);
      AndComplete(e.x, u[..n], [u[n]] + (u[n + 1..] + r));
      RelationComplete(e.y, u[n + 1..], r);
    }
  }

  lemma {:induction false} RelationComplete(e: Expr, u: seq<Token>, r: seq<Token>)
    requires Relation(e, u) && EndsComparison(r)
    ensures ParseComparison(u + r) == Some(Parsed(e, r))
    decreases |u|, 3
  {
    hide Unary, ParseUnary;
    if Unary(e, u) {
      UnaryComplete(e, u, r);
    } else {
      var n: nat :| n < |u| && u[n] == Operator(e.op) && Unary(e.x, u[..n]) && Unary(e.y, u[n + 1..]);
      Cut(u, n, r);
      UnaryComplete(e.x, u[..n], [u[n]] + (u[n + 1..] + r));
      UnaryComplete(e.y, u[n + 1..], r);
    }
  }

  lemma {:induction false} UnaryComplete(e: Expr, u: seq<Token>, r: seq<Token>)
    requires Unary(e, u) && EndsPrimary(r)
    ensures ParseUnary(u + r) == Some(Parsed(e, r))
    decreases |u|, 2
  {
    hide Primary, ParsePrimary;
    if Primary(e, u) {
      PrimaryOpens(e, u);
      PrimaryComplete(e, u, r);
    } else {
      UnaryComplete(e.x, u[1..], r);
      assert (u + r)[1..] == u[1..] + r;
    }
  }

  lemma {:induction false} PrimaryComplete(e: Expr, u: seq<Token>, r: seq<Token>)
    requires Primary(e, u) && EndsPrimary(r)
    ensures ParsePrimary(u + r) == Some(Parsed(e, r))
    decreases |u|, 1
  {
    hide Or, ArgList, FieldList, ParseExpr, ArgsTail, FieldsTail, PathTail, ParseNumber, Numeric, PathTokens;
    if |u| >= 2 && u[0] == LParen && u[|u| - 1] == RParen && Or(e, u[1..|u| - 1]) {
      ParensComplete(e, u, r);
    } else {
      match e
      case LitExpr(lit) =>
        assert (u + r)[1..] == r;
        if lit.IntLit? || lit.FloatLit? { NumberIff(u[0].text, lit); }
      case RefExpr(parts) => RefComplete(parts, r);
      case CallExpr(callee, args) => CallComplete(callee, args, u, r);
      case ObjectExpr(fields) => ObjectComplete(fields, u, r);
      case _ =>
    }
  }

  lemma {:induction false} ParensComplete(e: Expr, u: seq<Token>, r: seq<Token>)
    requires |u| >= 2 && u[0] == LParen && u[|u| - 1] == RParen && Or(e, u[1..|u| - 1])
    ensures ParsePrimary(u + r) == Some(Parsed(e, r))
    decreases |u|, 0
  {
    hide Or, ParseOr, ArgsTail, FieldsTail, PathTail, ParseNumber;
    var v := u[1..|u| - 1];
    assert (u + r)[1..] == v + ([RParen] + r);
    assert ([RParen] + r)[1..] == r;
    OrComplete(e, v, [RParen] + r);
    assert ParseExpr(v + ([RParen] + r)) == Some(Parsed(e, [RParen] + r));
  }

  lemma RefComplete(parts: seq<string>, r: seq<Token>)
    requires parts != [] && !(|parts| == 1 && IsWord(parts[0])) && EndsPrimary(r)
    ensures ParsePrimary(PathTokens(parts) + r) == Some(Parsed(RefExpr(parts), r))
  {
    assert Spellable(RefExpr(parts));
    RefRoundTrip(parts, r);
    PathOpens(parts);
    hide ParsePrimary;
  }

  lemma {:induction false} CallComplete(callee: seq<string>, args: seq<Arg>, u: seq<Token>, r: seq<Token>)
    requires callee != [] && |u| >= |PathTokens(callee)| + 2 && u[|u| - 1] == RParen
    requires var k := |PathTokens(callee)|;
             u[..k] == PathTokens(callee) && u[k] == LParen && ArgList(args, u[k + 1..|u| - 1])
    ensures ParsePrimary(u + r) == Some(Parsed(CallExpr(callee, args), r))
    decreases |u|, 0
  {
    hide ArgList, ArgsTail, PathTokens, ParseExpr, FieldsTail, ParseNumber;
    var k := |PathTokens(callee)|;
    var v := u[k + 1..|u| - 1];
    var more := [LParen] + (v + ([RParen] + r));
    assert u + r == PathTokens(callee) + more;
    assert more[1..] == v + ([RParen] + r);
    ArgsComplete([], args, v, r);
    assert [] + args == args;
    PathRoundTrip(callee, more);
    AfterCallee(callee, more);
    assert PathTail(callee, more) == Some(Parsed(callee, more));
  }

  lemma {:induction false} ObjectComplete(fields: seq<FieldExpr>, u: seq<Token>, r: seq<Token>)
    requires |u| >= 2 && u[0] == LBrace && u[|u| - 1] == RBrace && FieldList(fields, u[1..|u| - 1])
    ensures ParsePrimary(u + r) == Some(Parsed(ObjectExpr(fields), r))
    decreases |u|, 0
  {
    hide FieldList, FieldsTail, ArgsTail, PathTail, ParseExpr, ParseNumber;
    var v := u[1..|u| - 1];
    assert (u + r)[1..] == v + ([RBrace] + r);
    FieldsComplete([], fields, v, r);
    assert [] + fields == fields;
  }

  lemma {:induction false} ArgComplete(a: Arg, u: seq<Token>, r: seq<Token>)
    requires OneArg(a, u) && EndsExpr(r)
    ensures ParseArg(u + r) == Some(Parsed(a, r)) && |u| > 0 && !u[0].RParen?
    decreases |u|, 6
  {
    hide Or, ParseOr;
    if a.name.None? {
      OrOpens(a.value, u);
      OrComplete(a.value, u, r);
      assert (u + r)[0] == u[0] && (|u| > 1 ==> (u + r)[1] == u[1]);
      assert |u| == 1 && |r| > 0 ==> (u + r)[1] == r[0];
    } else {
      OrComplete(a.value, u[2..], r);
      assert (u + r)[2..] == u[2..] + r;
    }
  }

  lemma NoMoreArgs(done: seq<Arg>, r: seq<Token>)
    ensures ArgsTail(done, [RParen] + r) == Some(Parsed(done, r))
  {
    assert ([RParen] + r)[1..] == r;
  }

  lemma NoArgsLeft(u: seq<Token>)
    requires ArgList([], u)
    ensures u == []
  {
  }

  lemma FirstArg(args: seq<Arg>, u: seq<Token>) returns (n: nat)
    requires args != [] && ArgList(args, u) && !(|args| == 1 && OneArg(args[0], u))
    ensures n < |u| && u[n] == Comma && OneArg(args[0], u[..n]) && ArgList(args[1..], u[n + 1..])
  {
    hide OneArg;
    n :| n < |u| && u[n] == Comma && OneArg(args[0], u[..n]) && ArgList(args[1..], u[n + 1..]);
  }

  lemma NoFieldsLeft(fields: seq<FieldExpr>)
    requires FieldList(fields, [])
    ensures fields == []
  {
  }

  lemma PastComma(fields: seq<FieldExpr>, u: seq<Token>)
    requires u != [] && u[0] == Comma && FieldList(fields, u)
    ensures FieldList(fields, u[1..])
  {
  }

  lemma FirstField(fields: seq<FieldExpr>, u: seq<Token>) returns (n: nat)
    requires u != [] && u[0] != Comma && FieldList(fields, u)
    ensures fields != [] && 2 <= n <= |u| && u[0] == Ident(fields[0].key) && u[1] == Colon
    ensures Or(fields[0].value, u[2..n]) && FieldList(fields[1..], u[n..])
  {
    hide Or;
    n :| 2 <= n <= |u| && Or(fields[0].value, u[2..n]) && FieldList(fields[1..], u[n..]);
  }

  lemma NextArg(done: seq<Arg>, a: Arg, ts: seq<Token>, rest: seq<Token>)
    requires ts != [] && !ts[0].RParen? && ParseArg(ts) == Some(Parsed(a, rest))
    ensures StartsWith(rest, Comma) ==> ArgsTail(done, ts) == ArgsTail(done + [a], rest[1..])
    ensures StartsWith(rest, RParen) ==> ArgsTail(done, ts) == Some(Parsed(done + [a], rest[1..]))
  {
    hide ParseArg;
  }

  lemma NextField(done: seq<FieldExpr>, f: FieldExpr, v: seq<Token>, rest: seq<Token>)
    requires ParseExpr(v) == Some(Parsed(f.value, rest))
    ensures FieldsTail(done, [Ident(f.key), Colon] + v) == FieldsTail(done + [f], rest)
  {
    hide ParseExpr;
    assert ([Ident(f.key), Colon] + v)[2..] == v;
  }

  lemma {:induction false} ArgsComplete(done: seq<Arg>, args: seq<Arg>, u: seq<Token>, r: seq<Token>)
    requires ArgList(args, u)
    ensures ArgsTail(done, u + ([RParen] + r)) == Some(Parsed(done + args, r))
    decreases |u|, 7
  {
    hide OneArg, ParseArg, ArgsTail, ArgList;
    var close := [RParen] + r;
    assert close[1..] == r;
    if args == [] {
      NoArgsLeft(u);
      assert u + close == close && done + args == done;
      NoMoreArgs(done, r);
    } else if |args| == 1 && OneArg(args[0], u) {
      ArgComplete(args[0], u, close);
      NextArg(done, args[0], u + close, close);
      assert args == [args[0]];
    } else {
      var n := FirstArg(args, u);
      Cut(u, n, close);
      var rest := [u[n]] + (u[n + 1..] + close);
      ArgComplete(args[0], u[..n], rest);
      NextArg(done, args[0], u + close, rest);
      ArgsComplete(done + [args[0]], args[1..], u[n + 1..], r);
      assert done + [args[0]] + args[1..] == done + args;
    }
  }

  lemma FieldsEnd(fields: seq<FieldExpr>, u: seq<Token>, r: seq<Token>)
    requires FieldList(fields, u)
    ensures EndsExpr(u + ([RBrace] + r))
  {
    hide Or;
  }

  lemma {:induction false} FieldsComplete(done: seq<FieldExpr>, fields: seq<FieldExpr>, u: seq<Token>, r: seq<Token>)
    requires FieldList(fields, u)
    ensures FieldsTail(done, u + ([RBrace] + r)) == Some(Parsed(done + fields, r))
    decreases |u|, 7
  {
    hide Or, ParseOr, FieldsTail, OrTail, FieldList;
    var close := [RBrace] + r;
    if u == [] {
      NoFieldsLeft(fields);
      assert u + close == close && done + fields == done;
      NoMoreFields(done, r);
    } else if u[0] == Comma {
      PastComma(fields, u);
      FieldsComplete(done, fields, u[1..], r);
      assert u + close == [Comma] + (u[1..] + close);
      SkipComma(done, u[1..] + close);
    } else {
      var n := FirstField(fields, u);
      var more := u[n..] + close;
      FieldsEnd(fields[1..], u[n..], r);
      OrComplete(fields[0].value, u[2..n], more);
      EntryComplete(done, fields[0], u[2..n], more);
      FieldsComplete(done + [fields[0]], fields[1..], u[n..], r);
      assert u + close == [Ident(fields[0].key), Colon] + (u[2..n] + more);
      assert done + [fields[0]] + fields[1..] == done + fields;
    }
  }

  lemma EntryComplete(done: seq<FieldExpr>, f: FieldExpr, u: seq<Token>, more: seq<Token>)
    requires ParseOr(u + more) == OrTail(f.value, more) && EndsExpr(more)
    ensures FieldsTail(done, [Ident(f.key), Colon] + (u + more)) == FieldsTail(done + [f], more)
  {
    hide ParseOr, FieldsTail;
    assert OrTail(f.value, more) == Some(Parsed(f.value, more));
    NextField(done, f, u + more, more);
  }

  lemma NoMoreFields(done: seq<FieldExpr>, r: seq<Token>)
    ensures FieldsTail(done, [RBrace] + r) == Some(Parsed(done, r))
  {
    assert ([RBrace] + r)[1..] == r;
  }

  lemma SkipComma(done: seq<FieldExpr>, ts: seq<Token>)
    ensures FieldsTail(done, [Comma] + ts) == FieldsTail(done, ts)
  {
    assert ([Comma] + ts)[1..] == ts;
  }

  // ----- the parser recognises the grammar

  /** The parser reads the whole input as e exactly when the grammar spells e so. */
  lemma ParsesIff(e: Expr, ts: seq<Token>)
    ensures ParseExpr(ts) == Some(Parsed(e, [])) <==> Or(e, ts)
  {
    hide Or, ParseOr;
    if ParseExpr(ts) == Some(Parsed(e, [])) {
      var u := OrSound(ts);
      assert u + [] == u;
    }
    if Or(e, ts) {
      OrComplete(e, ts, []);
      assert ts + [] == ts;
    }
  }

  /** Whatever the parser reads off the front of its input is a spelling of the tree it builds. */
  lemma ParsedPrefix(ts: seq<Token>) returns (u: seq<Token>)
    requires ParseExpr(ts).Some?
    ensures ts == u + ParseExpr(ts).value.rest && Or(ParseExpr(ts).value.e, u)
  {
    hide Or, ParseOr;
    u := OrSound(ts);
  }

  /** The grammar is unambiguous. */
  lemma OneTree(e: Expr, f: Expr, ts: seq<Token>)
    requires Or(e, ts) && Or(f, ts)
    ensures e == f
  {
    hide Or;
    ParsesIff(e, ts);
    ParsesIff(f, ts);
  }
}
