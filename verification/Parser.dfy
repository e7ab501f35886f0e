/** The expression parser of internal/lang/parser.go as it runs: one cursor over the tokens. */
module Parser {
  import opened Values
  import opened Lang

  /** The method's result and the remaining tokens are what the parse function gives; a
      recorded diagnostic is the function's None. */
  ghost predicate Matches<T(!new)>(p: Option<Parsed<T>>, e: Option<T>, rest: seq<Token>) {
    match p case None => e.None? case Some(q) => e == Some(q.e) && rest == q.rest
  }

  class ExprParser {
    const toks: seq<Token>
    var pos: nat

    ghost predicate Valid()
      reads this
    {
      pos <= |toks|
    }

    ghost function Rest(): seq<Token>
      requires Valid()
      reads this
    {
      toks[pos..]
    }

    constructor (toks: seq<Token>)
      ensures Valid() && this.toks == toks && Rest() == toks
    {
      this.toks := toks;
      pos := 0;
    }

    /** cur or peekt is the token t. */
    predicate At(ahead: nat, t: Token)
      reads this
    {
      pos + ahead < |toks| && toks[pos + ahead] == t
    }

    predicate AtComparison()
      reads this
    {
      pos < |toks| && toks[pos].Operator? && IsComparison(toks[pos].op)
    }

    predicate AtIdent(ahead: nat)
      reads this
    {
      pos + ahead < |toks| && toks[pos + ahead].Ident?
    }

    method Advance()
      requires Valid() && pos < |toks|
      modifies this
      ensures Valid() && pos == old(pos) + 1 && Rest() == old(Rest())[1..]
    {
      pos := pos + 1;
    }

    method Expect(t: Token) returns (ok: bool)
      requires Valid()
      modifies this
      ensures Valid() && pos >= old(pos) && ok == StartsWith(old(Rest()), t)
      ensures ok ==> Rest() == old(Rest())[1..]
    {
      ok := At(0, t);
      if ok { Advance(); }
    }

    method Expr() returns (e: Option<Expr>)
      requires Valid()
      modifies this
      ensures Valid() && pos >= old(pos) && Matches(ParseExpr(old(Rest())), e, Rest())
      decreases |toks| - pos, 6
    {
      e := Or();
    }

    method Or() returns (e: Option<Expr>)
      requires Valid()
      modifies this
      ensures Valid() && pos >= old(pos) && Matches(ParseOr(old(Rest())), e, Rest())
      decreases |toks| - pos, 5
    {
      hide ParseAnd;
      e := And();
      while e.Some? && At(0, Operator(OrOr))
        invariant Valid() && pos >= old(pos)
        invariant e.None? ==> ParseOr(old(Rest())).None?
        invariant e.Some? ==> pos > old(pos) && ParseOr(old(Rest())) == OrTail(e.value, Rest())
        decreases |toks| - pos, e.Some?
      {
        ghost var was := Rest();
        Advance();
        var right := And();
        assert OrTail(e.value, was) == match ParseAnd(was[1..]) case None => None case Some(p) =>
            OrTail(BinaryExpr(OrOr, e.value, p.e), p.rest);
        e := if right.None? then None else Some(BinaryExpr(OrOr, e.value, right.value));
      }
    }

    method And() returns (e: Option<Expr>)
      requires Valid()
      modifies this
      ensures Valid() && pos >= old(pos) && Matches(ParseAnd(old(Rest())), e, Rest())
      ensures e.Some? ==> pos > old(pos)
      decreases |toks| - pos, 4
    {
      hide ParseComparison;
      e := Comparison();
      while e.Some? && At(0, Operator(AndAnd))
        invariant Valid() && pos >= old(pos)
        invariant e.None? ==> ParseAnd(old(Rest())).None?
        invariant e.Some? ==> pos > old(pos) && ParseAnd(old(Rest())) == AndTail(e.value, Rest())
        decreases |toks| - pos, e.Some?
      {
        ghost var was := Rest();
        Advance();
        var right := Comparison();
        assert AndTail(e.value, was) == match ParseComparison(was[1..]) case None => None case Some(p) =>
            AndTail(BinaryExpr(AndAnd, e.value, p.e), p.rest);
        e := if right.None? then None else Some(BinaryExpr(AndAnd, e.value, right.value));
      }
    }

    method Comparison() returns (e: Option<Expr>)
      requires Valid()
      modifies this
      ensures Valid() && pos >= old(pos) && Matches(ParseComparison(old(Rest())), e, Rest())
      ensures e.Some? ==> pos > old(pos)
      decreases |toks| - pos, 3
    {
      hide ParseUnary;
      e := Unary();
      if e.None? || !AtComparison() { return; }
      var op := toks[pos].op;
      Advance();
      var right := Unary();
      e := if right.None? || AtComparison() then None else Some(BinaryExpr(op, e.value, right.value));
    }

    method Unary() returns (e: Option<Expr>)
      requires Valid()
      modifies this
      ensures Valid() && pos >= old(pos) && Matches(ParseUnary(old(Rest())), e, Rest())
      ensures e.Some? ==> pos > old(pos)
      decreases |toks| - pos, 2
    {
      hide ParsePrimary;
      if At(0, Bang) {
        Advance();
        e := Unary();
        if e.Some? { e := Some(NotExpr(e.value)); }
      } else {
        e := Primary();
      }
    }

    method Primary() returns (e: Option<Expr>)
      requires Valid()
      modifies this
      ensures Valid() && pos >= old(pos) && Matches(ParsePrimary(old(Rest())), e, Rest())
      ensures e.Some? ==> pos > old(pos)
      decreases |toks| - pos, 1
    {
      hide ParseExpr, FieldsTail, ParseNumber;
      if pos == |toks| { return None; }
      match toks[pos]
      case Number(text) =>
        Advance();
        e := Some(LitExpr(ParseNumber(text)));
      case String(s) =>
        Advance();
        e := Some(LitExpr(StrLit(s)));
      case LParen =>
        Advance();
        e := Expr();
        if e.Some? {
          var ok := Expect(RParen);
          if !ok { e := None; }
        }
      case LBrace =>
        Advance();
        var fields := Fields();
        e := if fields.None? then None else Some(ObjectExpr(fields.value));
      case Ident(name) => e := Name(name);
      case _ => e := None;
    }

    /** A boolean word, a reference or a call. */
    method Name(name: string) returns (e: Option<Expr>)
      requires Valid() && At(0, Ident(name))
      modifies this
      ensures Valid() && pos > old(pos) && Matches(ParsePrimary(old(Rest())), e, Rest())
      decreases |toks| - pos, 0
    {
      hide ArgsTail, ParseExpr, FieldsTail, ParseNumber;
      var word := (name == "true" || name == "false") && !At(1, Dot) && !At(1, LParen);
      Advance();
      if word { return Some(LitExpr(BoolLit(name == "true"))); }
      var parts := Path(name);
      if parts.None? { return None; }
      if At(0, LParen) {
        Advance();
        var args := Args();
        e := if args.None? then None else Some(CallExpr(parts.value, args.value));
      } else {
        e := Some(RefExpr(parts.value));
      }
    }

    method Path(first: string) returns (parts: Option<seq<string>>)
      requires Valid()
      modifies this
      ensures Valid() && pos >= old(pos) && Matches(PathTail([first], old(Rest())), parts, Rest())
    {
      parts := Some([first]);
      while parts.Some? && At(0, Dot)
        invariant Valid() && pos >= old(pos)
        invariant parts.None? ==> PathTail([first], old(Rest())).None?
        invariant parts.Some? ==> PathTail([first], old(Rest())) == PathTail(parts.value, Rest())
        decreases |toks| - pos, parts.Some?
      {
        ghost var was := Rest();
        if AtIdent(1) {
          parts := Some(parts.value + [toks[pos + 1].name]);
          Advance();
          Advance();
          assert was[1..][1..] == was[2..];
        } else {
          parts := None;
        }
      }
    }

    method OneArg() returns (a: Option<Arg>)
      requires Valid()
      modifies this
      ensures Valid() && pos >= old(pos) && Matches(ParseArg(old(Rest())), a, Rest())
      ensures a.Some? ==> pos > old(pos)
      decreases |toks| - pos, 7
    {
      hide ParseExpr;
      ghost var was := Rest();
      if AtIdent(0) && At(1, Colon) {
        var name := toks[pos].name;
        Advance();
        Advance();
        assert was[1..][1..] == was[2..];
        var e := Expr();
        a := if e.None? then None else Some(Arg(Some(name), e.value));
      } else {
        var e := Expr();
        a := if e.None? then None else Some(Arg(None, e.value));
      }
    }

    /** An argument list after its opening bracket. */
    method Args() returns (args: Option<seq<Arg>>)
      requires Valid()
      modifies this
      ensures Valid() && pos >= old(pos) && Matches(ArgsTail([], old(Rest())), args, Rest())
      decreases |toks| - pos, 8
    {
      hide ParseArg;
      args := Some([]);
      while true
        invariant Valid() && pos >= old(pos) && args.Some?
        invariant ArgsTail([], old(Rest())) == ArgsTail(args.value, Rest())
        decreases |toks| - pos
      {
        if pos == |toks| { return None; }
        if At(0, RParen) {
          Advance();
          return;
        }
        var a := OneArg();
        if a.None? { return None; }
        args := Some(args.value + [a.value]);
        if At(0, Comma) {
          Advance();
        } else {
          var ok := Expect(RParen);
          return if ok then args else None;
        }
      }
    }

    /** An object literal after its opening brace. */
    method Fields() returns (fields: Option<seq<FieldExpr>>)
      requires Valid()
      modifies this
      ensures Valid() && pos >= old(pos) && Matches(FieldsTail([], old(Rest())), fields, Rest())
      decreases |toks| - pos, 8
    {
      hide ParseExpr;
      fields := Some([]);
      while pos < |toks| && !At(0, RBrace)
        invariant Valid() && pos >= old(pos) && fields.Some?
        invariant FieldsTail([], old(Rest())) == FieldsTail(fields.value, Rest())
        decreases |toks| - pos
      {
        ghost var was := Rest();
        if At(0, Comma) {
          Advance();
        } else if AtIdent(0) && At(1, Colon) {
          var key := toks[pos].name;
          Advance();
          Advance();
          assert was[1..][1..] == was[2..];
          var e := Expr();
          if e.None? { return None; }
          fields := Some(fields.value + [FieldExpr(key, e.value)]);
        } else {
          return None;
        }
      }
      var ok := Expect(RBrace);
      if !ok { fields := None; }
    }
  }
}
