/** Workflow expressions: the parser and the printer of internal/lang over tokens. */
module Lang {
  import opened Values
  import opened Common
  import Codec

  datatype Op = EqEq | BangEq | Lt | Lte | Gt | Gte | AndAnd | OrOr

  /** A float literal is named by the text it is read from. */
  datatype Literal = StrLit(s: string) | BoolLit(b: bool) | IntLit(n: int64) | FloatLit(text: string)

  datatype Arg = Arg(name: Option<string>, value: Expr)

  datatype FieldExpr = FieldExpr(key: string, value: Expr)

  datatype Expr =
    | RefExpr(parts: seq<string>)
    | LitExpr(lit: Literal)
    | NotExpr(x: Expr)
    | BinaryExpr(op: Op, x: Expr, y: Expr)
    | CallExpr(callee: seq<string>, args: seq<Arg>)
    | ObjectExpr(fields: seq<FieldExpr>)

  datatype Token =
    | Ident(name: string)
    | Keyword(word: string)
    | Number(text: string)
    | String(s: string)
    | Operator(op: Op)
    | Bang | LBrace | RBrace | LParen | RParen | Dot | Slash | Comma | Colon | Equals | Arrow

  predicate IsComparison(op: Op) {
    op != AndAnd && op != OrOr
  }

  // ----- parsing; None once a diagnostic has been recorded

  datatype Parsed<T> = Parsed(e: T, rest: seq<Token>)

  type Parse = Option<Parsed<Expr>>

  predicate Shrinks<T>(p: Option<Parsed<T>>, ts: seq<Token>) {
    p.Some? ==> |p.value.rest| < |ts|
  }

  predicate StartsWith(ts: seq<Token>, t: Token) {
    ts != [] && ts[0] == t
  }

  predicate StartsComparison(ts: seq<Token>) {
    ts != [] && ts[0].Operator? && IsComparison(ts[0].op)
  }

  function ParseExpr(ts: seq<Token>): (r: Parse)
    ensures Shrinks(r, ts)
    decreases |ts|, 5
  {
    ParseOr(ts)
  }

  function ParseOr(ts: seq<Token>): (r: Parse)
    ensures Shrinks(r, ts)
    decreases |ts|, 4
  {
    match ParseAnd(ts) case None => None case Some(p) => OrTail(p.e, p.rest)
  }

  /** The rest of the `||` loop with `left` already parsed. */
  function OrTail(left: Expr, ts: seq<Token>): (r: Parse)
    ensures r.Some? ==> |r.value.rest| <= |ts|
    decreases |ts|, 0
  {
    if !StartsWith(ts, Operator(OrOr)) then Some(Parsed(left, ts))
    else match ParseAnd(ts[1..])
      case None => None
      case Some(p) => OrTail(BinaryExpr(OrOr, left, p.e), p.rest)
  }

  function ParseAnd(ts: seq<Token>): (r: Parse)
    ensures Shrinks(r, ts)
    decreases |ts|, 3
  {
    match ParseComparison(ts) case None => None case Some(p) => AndTail(p.e, p.rest)
  }

  function AndTail(left: Expr, ts: seq<Token>): (r: Parse)
    ensures r.Some? ==> |r.value.rest| <= |ts|
    decreases |ts|, 0
  {
    if !StartsWith(ts, Operator(AndAnd)) then Some(Parsed(left, ts))
    else match ParseComparison(ts[1..])
      case None => None
      case Some(p) => AndTail(BinaryExpr(AndAnd, left, p.e), p.rest)
  }

  /** Comparisons do not chain: a second comparison operator is a diagnostic. */
  function ParseComparison(ts: seq<Token>): (r: Parse)
    ensures Shrinks(r, ts)
    decreases |ts|, 2
  {
    match ParseUnary(ts)
    case None => None
    case Some(p) =>
      if !StartsComparison(p.rest) then Some(p)
      else match ParseUnary(p.rest[1..])
        case None => None
        case Some(q) =>
          if StartsComparison(q.rest) then None else Some(Parsed(BinaryExpr(p.rest[0].op, p.e, q.e), q.rest))
  }

  function ParseUnary(ts: seq<Token>): (r: Parse)
    ensures Shrinks(r, ts)
    decreases |ts|, 1
  {
    if StartsWith(ts, Bang) then
      match ParseUnary(ts[1..]) case None => None case Some(p) => Some(Parsed(NotExpr(p.e), p.rest))
    else ParsePrimary(ts)
  }

  /** A literal with a fraction, or past int64, is a float. */
  function ParseNumber(text: string): Literal {
    if '.' in text || Codec.ParseInt(text).None? then FloatLit(text) else IntLit(Codec.ParseInt(text).value)
  }

  function ParsePrimary(ts: seq<Token>): (r: Parse)
    ensures Shrinks(r, ts)
    decreases |ts|, 0
  {
    if ts == [] then None
    else match ts[0]
      case Number(text) =>
        Some(Parsed(LitExpr(ParseNumber(text)), ts[1..]))
      case String(s) => Some(Parsed(LitExpr(StrLit(s)), ts[1..]))
      case LParen =>
        (match ParseExpr(ts[1..])
         case None => None
         case Some(p) => if StartsWith(p.rest, RParen) then Some(Parsed(p.e, p.rest[1..])) else None)
      case LBrace =>
        (match FieldsTail([], ts[1..]) case None => None case Some(p) => Some(Parsed(ObjectExpr(p.e), p.rest)))
      case Ident(name) =>
        if (name == "true" || name == "false") && !StartsWith(ts[1..], Dot) && !StartsWith(ts[1..], LParen)
        then Some(Parsed(LitExpr(BoolLit(name == "true")), ts[1..]))
        else (match PathTail([name], ts[1..])
          case None => None
          case Some(p) =>
            if !StartsWith(p.rest, LParen) then Some(Parsed(RefExpr(p.e), p.rest))
            else match ArgsTail([], p.rest[1..])
              case None => None
              case Some(q) => Some(Parsed(CallExpr(p.e, q.e), q.rest)))
      case _ => None
  }

  /** The rest of a dotted path. */
  function PathTail(parts: seq<string>, ts: seq<Token>): (r: Option<Parsed<seq<string>>>)
    ensures r.Some? ==> |r.value.rest| <= |ts|
    decreases |ts|
  {
    if !StartsWith(ts, Dot) then Some(Parsed(parts, ts))
    else if |ts| < 2 || !ts[1].Ident? then None
    else PathTail(parts + [ts[1].name], ts[2..])
  }

  function ParseArg(ts: seq<Token>): (r: Option<Parsed<Arg>>)
    ensures Shrinks(r, ts)
    decreases |ts|, 6
  {
    if |ts| >= 2 && ts[0].Ident? && ts[1].Colon? then
      match ParseExpr(ts[2..]) case None => None case Some(p) => Some(Parsed(Arg(Some(ts[0].name), p.e), p.rest))
    else
      match ParseExpr(ts) case None => None case Some(p) => Some(Parsed(Arg(None, p.e), p.rest))
  }

  /** The rest of an argument list after the arguments in `args`; a trailing comma is allowed. */
  function ArgsTail(args: seq<Arg>, ts: seq<Token>): (r: Option<Parsed<seq<Arg>>>)
    ensures Shrinks(r, ts)
    decreases |ts|, 7
  {
    if ts == [] then None
    else if ts[0].RParen? then Some(Parsed(args, ts[1..]))
    else match ParseArg(ts)
      case None => None
      case Some(p) =>
        if StartsWith(p.rest, Comma) then ArgsTail(args + [p.e], p.rest[1..])
        else if StartsWith(p.rest, RParen) then Some(Parsed(args + [p.e], p.rest[1..]))
        else None
  }

  /** The rest of an object literal; commas between entries are optional and may repeat. */
  function FieldsTail(fields: seq<FieldExpr>, ts: seq<Token>): (r: Option<Parsed<seq<FieldExpr>>>)
    ensures Shrinks(r, ts)
    decreases |ts|, 7
  {
    if ts == [] then None
    else if ts[0].RBrace? then Some(Parsed(fields, ts[1..]))
    else if ts[0].Comma? then FieldsTail(fields, ts[1..])
    else if |ts| < 2 || !ts[0].Ident? || !ts[1].Colon? then None
    else match ParseExpr(ts[2..])
      case None => None
      case Some(p) => FieldsTail(fields + [FieldExpr(ts[0].name, p.e)], p.rest)
  }

  // ----- printing

  function BinPrec(op: Op): nat {
    match op case OrOr => 1 case AndAnd => 2 case _ => 3
  }

  function PathTokens(parts: seq<string>): seq<Token> {
    if parts == [] then [] else if |parts| == 1 then [Ident(parts[0])]
      else PathTokens(parts[..|parts| - 1]) + [Dot, Ident(parts[|parts| - 1])]
  }

  function LitTokens(lit: Literal): seq<Token> {
    match lit
    case StrLit(s) => [String(s)]
    case BoolLit(b) => [Ident(if b then "true" else "false")]
    case IntLit(n) => [Number(Codec.FormatInt(n))]
    case FloatLit(text) => [Number(text)]
  }

  function Tokens(e: Expr): seq<Token>
    decreases e, 0
  {
    match e
    case RefExpr(parts) => PathTokens(parts)
    case LitExpr(lit) => LitTokens(lit)
    case NotExpr(x) => [Bang] + (if x.BinaryExpr? then Bracketed(x) else Tokens(x))
    case BinaryExpr(op, x, y) => Operand(x, op, false) + [Operator(op)] + Operand(y, op, true)
    case CallExpr(callee, args) => PathTokens(callee) + [LParen] + ArgsTokens(args) + [RParen]
    case ObjectExpr(fields) => [LBrace] + FieldsTokens(fields) + [RBrace]
  }

  function Bracketed(e: Expr): seq<Token>
    decreases e, 1
  {
    [LParen] + Tokens(e) + [RParen]
  }

  predicate NeedsBrackets(e: Expr, parent: Op, right: bool) {
    e.BinaryExpr? && (BinPrec(e.op) < BinPrec(parent) || (BinPrec(e.op) == BinPrec(parent) && right))
  }

  function Operand(e: Expr, parent: Op, right: bool): seq<Token>
    decreases e, 2
  {
    if NeedsBrackets(e, parent, right) then Bracketed(e) else Tokens(e)
  }

  function ArgTokens(a: Arg): seq<Token>
    decreases a, 3
  {
    (match a.name case None => [] case Some(n) => [Ident(n), Colon]) + Tokens(a.value)
  }

  function ArgsTokens(args: seq<Arg>): seq<Token>
    decreases args, 4
  {
    if args == [] then []
    else if |args| == 1 then ArgTokens(args[0])
    else ArgTokens(args[0]) + [Comma] + ArgsTokens(args[1..])
  }

  function FieldsTokens(fields: seq<FieldExpr>): seq<Token>
    decreases fields, 4
  {
    if fields == [] then []
    else
      [Ident(fields[0].key), Colon] + Tokens(fields[0].value)
      + (if |fields| == 1 then [] else [Comma] + FieldsTokens(fields[1..]))
  }

  // ----- which trees are in scope, and which survive

  predicate PlainLiteral(lit: Literal) {
    !lit.FloatLit? && (lit.IntLit? ==> lit.n >= 0)
  }

  /** Reference paths are non-empty, a one-segment reference is not a boolean word, and integer
      literals carry no sign, and no literal is a float. */
  predicate Spellable(e: Expr)
    decreases e
  {
    match e
    case RefExpr(parts) => |parts| > 1 || (|parts| == 1 && parts[0] != "true" && parts[0] != "false")
    case LitExpr(lit) => PlainLiteral(lit)
    case NotExpr(x) => Spellable(x)
    case BinaryExpr(_, x, y) => Spellable(x) && Spellable(y)
    case CallExpr(callee, args) => |callee| > 0 && forall i :: 0 <= i < |args| ==> Spellable(args[i].value)
    case ObjectExpr(fields) => forall i :: 0 <= i < |fields| ==> Spellable(fields[i].value)
  }

  predicate ComparesBare(e: Expr) {
    e.BinaryExpr? && IsComparison(e.op)
  }

  /** No comparison is the left operand of a comparison. */
  predicate Unchained(e: Expr)
    decreases e
  {
    match e
    case NotExpr(x) => Unchained(x)
    case BinaryExpr(op, x, y) => Unchained(x) && Unchained(y) && !(IsComparison(op) && ComparesBare(x))
    case CallExpr(_, args) => forall i :: 0 <= i < |args| ==> Unchained(args[i].value)
    case ObjectExpr(fields) => forall i :: 0 <= i < |fields| ==> Unchained(fields[i].value)
    case _ => true
  }

  // ----- round trip

  /** The expected outcome of parsing e's tokens: e itself, unless it chains comparisons. */
  function Outcome(e: Expr, r: seq<Token>): Parse {
    if Unchained(e) then Some(Parsed(e, r)) else None
  }

  predicate EndsPrimary(r: seq<Token>) {
    !StartsWith(r, Dot) && !StartsWith(r, LParen) && !StartsWith(r, Colon)
  }

  predicate EndsComparison(r: seq<Token>) {
    EndsPrimary(r) && !StartsComparison(r)
  }

  predicate EndsAnd(r: seq<Token>) {
    EndsComparison(r) && !StartsWith(r, Operator(AndAnd))
  }

  predicate EndsExpr(r: seq<Token>) {
    EndsAnd(r) && !StartsWith(r, Operator(OrOr))
  }

  lemma {:induction false} PathRoundTrip(parts: seq<string>, r: seq<Token>)
    requires |parts| > 0
    ensures var ts := PathTokens(parts) + r;
            ts[0] == Ident(parts[0]) && PathTail([parts[0]], ts[1..]) == PathTail(parts, r)
    ensures |parts| > 1 ==> (PathTokens(parts) + r)[1] == Dot
    ensures |PathTokens(parts)| >= 1
    decreases |parts|
  {
    var n := |parts| - 1;
    if n > 0 {
      var more := [Dot, Ident(parts[n])] + r;
      PathRoundTrip(parts[..n], more);
      Glue(PathTokens(parts[..n]), [Dot, Ident(parts[n])], r);
      assert more[2..] == r;
      assert parts[..n] + [parts[n]] == parts;
    } else {
      assert ([Ident(parts[0])] + r)[1..] == r;
      assert parts == [parts[0]];
    }
  }

  lemma LitRoundTrip(lit: Literal, r: seq<Token>)
    requires PlainLiteral(lit) && EndsPrimary(r)
    ensures ParsePrimary(LitTokens(lit) + r) == Some(Parsed(LitExpr(lit), r))
    ensures !StartsWith(LitTokens(lit) + r, Bang)
  {
    var ts := LitTokens(lit) + r;
    assert ts[1..] == r;
    if lit.IntLit? {
      Codec.ParseFormat(lit.n);
      assert '.' !in Codec.FormatInt(lit.n);
    }
  }

  lemma {:induction false} UnaryRoundTrip(e: Expr, r: seq<Token>)
    requires Spellable(e) && !e.BinaryExpr? && EndsPrimary(r)
    ensures ParseUnary(Tokens(e) + r) == Outcome(e, r)
    decreases e, 1
  {
    match e
    case RefExpr(parts) => RefRoundTrip(parts, r);
    case LitExpr(lit) => LitRoundTrip(lit, r);
    case NotExpr(x) => NotRoundTrip(x, r);
    case CallExpr(callee, args) => CallRoundTrip(callee, args, r);
    case ObjectExpr(fields) => ObjectRoundTrip(fields, r);
  }

  lemma RefRoundTrip(parts: seq<string>, r: seq<Token>)
    requires Spellable(RefExpr(parts)) && EndsPrimary(r)
    ensures ParseUnary(PathTokens(parts) + r) == Some(Parsed(RefExpr(parts), r))
  {
    hide ArgsTail, FieldsTail, ParseExpr, ParseNumber;
    PathRoundTrip(parts, r);
  }

  lemma {:induction false} NotRoundTrip(x: Expr, r: seq<Token>)
    requires Spellable(x) && EndsPrimary(r)
    ensures ParseUnary(Tokens(NotExpr(x)) + r) == Outcome(NotExpr(x), r)
    decreases x, 8
  {
    hide ParsePrimary, Bracketed;
    var ts := Tokens(NotExpr(x)) + r;
    if x.BinaryExpr? {
      BracketedRoundTrip(x, r);
      assert ts[1..] == Bracketed(x) + r;
    } else {
      UnaryRoundTrip(x, r);
      assert ts[1..] == Tokens(x) + r;
    }
  }

  lemma {:induction false} ObjectRoundTrip(fields: seq<FieldExpr>, r: seq<Token>)
    requires forall i :: 0 <= i < |fields| ==> Spellable(fields[i].value)
    ensures ParseUnary(Tokens(ObjectExpr(fields)) + r) == Outcome(ObjectExpr(fields), r)
    decreases fields, 8
  {
    hide FieldsTail, FieldsTokens, ArgsTail, ParseExpr, Spellable;
    var ts := Tokens(ObjectExpr(fields)) + r;
    assert ts[0] == LBrace && ts[1..] == FieldsTokens(fields) + ([RBrace] + r);
    FieldsRoundTrip([], fields, r);
    assert [] + fields == fields;
  }

  lemma {:induction false} CallRoundTrip(callee: seq<string>, args: seq<Arg>, r: seq<Token>)
    requires |callee| > 0 && forall i :: 0 <= i < |args| ==> Spellable(args[i].value)
    ensures ParseUnary(Tokens(CallExpr(callee, args)) + r) == Outcome(CallExpr(callee, args), r)
    decreases args, 8
  {
    hide ArgsTokens, ArgsTail, PathTokens, Spellable, ParseExpr, FieldsTail;
    var e := CallExpr(callee, args);
    var more := [LParen] + (ArgsTokens(args) + ([RParen] + r));
    Regroup(PathTokens(callee), ArgsTokens(args), r);
    PathRoundTrip(callee, more);
    assert PathTail(callee, more) == Some(Parsed(callee, more));
    assert more[1..] == ArgsTokens(args) + ([RParen] + r);
    ArgsRoundTrip([], args, r);
    assert [] + args == args;
    var ts := PathTokens(callee) + more;
    assert ts[0] == Ident(callee[0]);
    assert StartsWith(ts[1..], Dot) || StartsWith(ts[1..], LParen) by { AfterCallee(callee, more); }
    assert ParsePrimary(ts) == Outcome(e, r);
  }

  lemma Regroup(path: seq<Token>, args: seq<Token>, r: seq<Token>)
    ensures path + [LParen] + args + [RParen] + r == path + ([LParen] + (args + ([RParen] + r)))
  {
  }

  lemma AfterCallee(callee: seq<string>, more: seq<Token>)
    requires |callee| > 0 && StartsWith(more, LParen)
    ensures var ts := PathTokens(callee) + more; ts != [] && (StartsWith(ts[1..], Dot) || StartsWith(ts[1..], LParen))
  {
    PathRoundTrip(callee, more);
    if |callee| == 1 { assert (PathTokens(callee) + more)[1..] == more; }
  }

  lemma {:induction false} BracketedRoundTrip(e: Expr, r: seq<Token>)
    requires Spellable(e)
    ensures ParseUnary(Bracketed(e) + r) == Outcome(e, r)
    decreases e, 6
  {
    hide ParseExpr, Tokens, FieldsTail, ArgsTail, PathTail, ParseNumber, Spellable;
    ExprRoundTrip(e, [RParen] + r);
    var ts := Bracketed(e) + r;
    assert ts[0] == LParen;
    assert ts[1..] == Tokens(e) + ([RParen] + r);
    assert ([RParen] + r)[1..] == r;
  }

  /** An operand of a comparison, other than a comparison on its left. */
  lemma {:induction false} OperandRoundTrip(e: Expr, op: Op, right: bool, r: seq<Token>)
    requires Spellable(e) && IsComparison(op) && EndsPrimary(r) && (right || !ComparesBare(e))
    ensures ParseUnary(Operand(e, op, right) + r) == Outcome(e, r)
    decreases e, 7
  {
    if e.BinaryExpr? { BracketedRoundTrip(e, r); } else { UnaryRoundTrip(e, r); }
  }

  /** A comparison followed by another comparison operator is refused. */
  lemma {:induction false} ChainRefused(e: Expr, r: seq<Token>)
    requires Spellable(e) && ComparesBare(e) && StartsComparison(r)
    ensures ParseComparison(Tokens(e) + r) == None
    decreases e, 2
  {
    var right := Operand(e.y, e.op, true);
    var more := [Operator(e.op)] + (right + r);
    assert Tokens(e) + r == Operand(e.x, e.op, false) + more;
    assert more[1..] == right + r;
    if ComparesBare(e.x) {
      ChainRefused(e.x, more);
    } else {
      OperandRoundTrip(e.x, e.op, false, more);
      OperandRoundTrip(e.y, e.op, true, r);
    }
  }

  lemma {:induction false} ComparisonRoundTrip(e: Expr, r: seq<Token>)
    requires Spellable(e) && (e.BinaryExpr? ==> IsComparison(e.op)) && EndsComparison(r)
    ensures ParseComparison(Tokens(e) + r) == Outcome(e, r)
    decreases e, 2
  {
    if e.BinaryExpr? {
      var right := Operand(e.y, e.op, true);
      var more := [Operator(e.op)] + (right + r);
      assert Tokens(e) + r == Operand(e.x, e.op, false) + more;
      assert more[1..] == right + r;
      if ComparesBare(e.x) {
        ChainRefused(e.x, more);
      } else {
        OperandRoundTrip(e.x, e.op, false, more);
        OperandRoundTrip(e.y, e.op, true, r);
      }
    } else {
      UnaryRoundTrip(e, r);
    }
  }

  lemma {:induction false} BracketedComparison(e: Expr, r: seq<Token>)
    requires Spellable(e) && EndsComparison(r)
    ensures ParseComparison(Bracketed(e) + r) == Outcome(e, r)
    decreases e, 7
  {
    BracketedRoundTrip(e, r);
  }

  /** The printed form of e, up to its last `&&`, reaches the loop with e in hand. */
  lemma {:induction false} AndRoundTrip(e: Expr, r: seq<Token>)
    requires Spellable(e) && (e.BinaryExpr? ==> e.op != OrOr) && EndsComparison(r)
    ensures ParseAnd(Tokens(e) + r) == if Unchained(e) then AndTail(e, r) else None
    decreases e, 3
  {
    if e.BinaryExpr? && e.op == AndAnd {
      var right := Operand(e.y, AndAnd, true);
      var more := [Operator(AndAnd)] + (right + r);
      assert Tokens(e) + r == Operand(e.x, AndAnd, false) + more;
      assert more[1..] == right + r;
      if NeedsBrackets(e.x, AndAnd, false) {
        BracketedComparison(e.x, more);
      } else {
        AndRoundTrip(e.x, more);
      }
      if NeedsBrackets(e.y, AndAnd, true) {
        BracketedComparison(e.y, r);
      } else {
        ComparisonRoundTrip(e.y, r);
      }
    } else {
      ComparisonRoundTrip(e, r);
    }
  }

  lemma {:induction false} OrRoundTrip(e: Expr, r: seq<Token>)
    requires Spellable(e) && EndsAnd(r)
    ensures ParseOr(Tokens(e) + r) == if Unchained(e) then OrTail(e, r) else None
    decreases e, 4
  {
    if e.BinaryExpr? && e.op == OrOr {
      var right := Operand(e.y, OrOr, true);
      var more := [Operator(OrOr)] + (right + r);
      assert Tokens(e) + r == Operand(e.x, OrOr, false) + more;
      assert more[1..] == right + r;
      assert !NeedsBrackets(e.x, OrOr, false);
      OrRoundTrip(e.x, more);
      if NeedsBrackets(e.y, OrOr, true) {
        BracketedComparison(e.y, r);
      } else {
        AndRoundTrip(e.y, r);
      }
      assert ParseAnd(right + r) == Outcome(e.y, r);
    } else {
      AndRoundTrip(e, r);
    }
  }

  /** Parsing a printed expression consumes exactly its tokens and gives the expression back,
      or a diagnostic exactly when a comparison stands left of a comparison. */
  lemma {:induction false} ExprRoundTrip(e: Expr, r: seq<Token>)
    requires Spellable(e) && EndsExpr(r)
    ensures ParseExpr(Tokens(e) + r) == Outcome(e, r)
    decreases e, 5
  {
    OrRoundTrip(e, r);
  }

  /** A printed expression is not mistaken for a named argument, a comma or a bracket. */
  lemma {:induction false} NotNamed(e: Expr, r: seq<Token>)
    requires Spellable(e) && !StartsWith(r, Colon)
    ensures OpensPlainly(Tokens(e) + r)
    decreases e
  {
    hide ArgsTokens, FieldsTokens, PathTail, PathTokens;
    match e
    case RefExpr(parts) =>
      PathRoundTrip(parts, r);
      if |parts| == 1 { OneSegment(parts, r); }
    case LitExpr(lit) => assert (Tokens(e) + r)[1..] == r;
    case BinaryExpr(op, x, y) =>
      var more := [Operator(op)] + (Operand(y, op, true) + r);
      assert Tokens(e) + r == Operand(x, op, false) + more;
      if NeedsBrackets(x, op, false) {
        assert (Tokens(e) + r)[0] == LParen;
      } else {
        NotNamed(x, more);
      }
    case CallExpr(callee, args) =>
      var more := [LParen] + (ArgsTokens(args) + ([RParen] + r));
      Regroup(PathTokens(callee), ArgsTokens(args), r);
      PathRoundTrip(callee, more);
      AfterCallee(callee, more);
    case _ =>
  }

  lemma OneSegment(parts: seq<string>, r: seq<Token>)
    requires |parts| == 1
    ensures (PathTokens(parts) + r)[1..] == r
  {
  }

  predicate OpensPlainly(ts: seq<Token>) {
    |ts| >= 1 && !(|ts| >= 2 && ts[0].Ident? && ts[1].Colon?) && !ts[0].RParen? && !ts[0].Comma?
  }

  lemma {:induction false} ArgRoundTrip(a: Arg, r: seq<Token>)
    requires Spellable(a.value) && EndsExpr(r)
    ensures ParseArg(ArgTokens(a) + r) == if Unchained(a.value) then Some(Parsed(a, r)) else None
    ensures var ts := ArgTokens(a) + r; ts != [] && !ts[0].RParen?
    decreases a, 5
  {
    ExprRoundTrip(a.value, r);
    if a.name.Some? {
      assert (ArgTokens(a) + r)[2..] == Tokens(a.value) + r;
    } else {
      assert ArgTokens(a) == Tokens(a.value);
      NotNamed(a.value, r);
    }
  }

  lemma {:induction false} ArgsRoundTrip(done: seq<Arg>, args: seq<Arg>, r: seq<Token>)
    requires forall i :: 0 <= i < |args| ==> Spellable(args[i].value)
    ensures ArgsTail(done, ArgsTokens(args) + ([RParen] + r)) ==
            if forall i :: 0 <= i < |args| ==> Unchained(args[i].value) then Some(Parsed(done + args, r)) else None
    decreases args, 6
  {
    hide ParseArg, ArgTokens, Spellable, Unchained;
    var close := [RParen] + r;
    var ts := ArgsTokens(args) + close;
    assert close[1..] == r;
    if args == [] {
      assert ts == close && done + args == done;
    } else if |args| == 1 {
      ArgRoundTrip(args[0], close);
      assert args == [args[0]];
    } else {
      var more := [Comma] + (ArgsTokens(args[1..]) + close);
      assert ts == ArgTokens(args[0]) + more;
      ArgRoundTrip(args[0], more);
      assert more[1..] == ArgsTokens(args[1..]) + close;
      ArgsRoundTrip(done + [args[0]], args[1..], r);
      assert done + [args[0]] + args[1..] == done + args;
      assert forall i :: 0 < i < |args| ==> args[i] == args[1..][i - 1];
    }
  }

  /** One entry of an object literal, whatever follows it. */
  lemma {:induction false} FieldRoundTrip(done: seq<FieldExpr>, f: FieldExpr, r: seq<Token>)
    requires Spellable(f.value) && EndsExpr(r)
    ensures FieldsTail(done, [Ident(f.key), Colon] + Tokens(f.value) + r) ==
            if Unchained(f.value) then FieldsTail(done + [f], r) else None
    decreases f, 5
  {
    hide ParseExpr, Tokens, Spellable, Unchained;
    var ts := [Ident(f.key), Colon] + Tokens(f.value) + r;
    assert ts[2..] == Tokens(f.value) + r;
    ExprRoundTrip(f.value, r);
  }

  lemma {:induction false} FieldsRoundTrip(done: seq<FieldExpr>, fields: seq<FieldExpr>, r: seq<Token>)
    requires forall i :: 0 <= i < |fields| ==> Spellable(fields[i].value)
    ensures FieldsTail(done, FieldsTokens(fields) + ([RBrace] + r)) ==
            if forall i ::
                 0 <= i < |fields| ==> Unchained(fields[i].value) then Some(Parsed(done + fields, r)) else None
    decreases fields, 6
  {
    hide ParseExpr, Tokens, Spellable, Unchained;
    var close := [RBrace] + r;
    assert close[1..] == r;
    if fields == [] {
      assert FieldsTokens(fields) + close == close && done + fields == done;
    } else {
      var first := [Ident(fields[0].key), Colon] + Tokens(fields[0].value);
      var now := done + [fields[0]];
      if |fields| == 1 {
        assert FieldsTokens(fields) == first;
        FieldRoundTrip(done, fields[0], close);
        assert fields == [fields[0]];
      } else {
        var more := [Comma] + (FieldsTokens(fields[1..]) + close);
        assert FieldsTokens(fields) + close == first + more;
        FieldRoundTrip(done, fields[0], more);
        assert more[1..] == FieldsTokens(fields[1..]) + close;
        FieldsRoundTrip(now, fields[1..], r);
        assert now + fields[1..] == done + fields;
        assert forall i :: 0 < i < |fields| ==> fields[i] == fields[1..][i - 1];
      }
    }
  }
}
