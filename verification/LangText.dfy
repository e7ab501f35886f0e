/** Expressions down to characters: the lexer undoes what the printer writes, so printing and
    reading source text is the identity wherever the token round trip is. */
module LangText {
  import opened Values
  import opened Common
  import opened Lang
  import Codec
  import Keys
  import Parser

  // ----- the lexer; None once a lexical diagnostic has been recorded

  predicate IdentStart(c: char) {
    c == '_' || 'a' <= c <= 'z' || 'A' <= c <= 'Z'
  }

  predicate IdentPart(c: char) {
    IdentStart(c) || IsDigit(c) || c == '-'
  }

  predicate IsDigit(c: char) {
    '0' <= c <= '9'
  }

  predicate IsSpace(c: char) {
    c == ' ' || c == '\t' || c == '\r' || c == '\n'
  }

  const KEYWORDS := {"agent", "workflow", "parallel", "return", "if", "else", "for", "while"}

  /** Length of the longest prefix of identifier characters. */
  function IdentLen(s: string): (n: nat)
    ensures n <= |s|
  {
    if s == "" || !IdentPart(s[0]) then 0 else 1 + IdentLen(s[1..])
  }

  function DigitLen(s: string): (n: nat)
    ensures n <= |s|
  {
    if s == "" || !IsDigit(s[0]) then 0 else 1 + DigitLen(s[1..])
  }

  /** Digits, and a fraction only when a digit follows the point. */
  function NumberLen(s: string): (n: nat)
    ensures n <= |s|
    ensures s != "" && IsDigit(s[0]) ==> n > 0
  {
    var n := DigitLen(s);
    if n + 1 < |s| && s[n] == '.' && IsDigit(s[n + 1]) then n + 1 + DigitLen(s[n + 1..]) else n
  }

  function LineLen(s: string): (n: nat)
    ensures n <= |s|
  {
    if s == "" || s[0] == '\n' then 0 else 1 + LineLen(s[1..])
  }

  datatype Scan = Scan(text: string, rest: string)

  function Unescape(c: char): Option<char> {
    if c == '"' || c == '\\' then Some(c)
    else if c == 'n' then Some('\n')
    else if c == 't' then Some('\t')
    else if c == 'r' then Some('\r')
    else None
  }

  /** A string literal after its opening quote, decoded. */
  function ScanString(s: string): (r: Option<Scan>)
    ensures r.Some? ==> |r.value.rest| < |s|
    decreases |s|
  {
    if s == "" || s[0] == '\n' then None
    else if s[0] == '"' then Some(Scan("", s[1..]))
    else
      var width := if s[0] == '\\' then 2 else 1;
      if width > |s| || (width == 2 && Unescape(s[1]).None?) then None
      else match ScanString(s[width..])
        case None => None
        case Some(p) => Some(Scan([if width == 2 then Unescape(s[1]).value else s[0]] + p.text, p.rest))
  }

  function Prepend(ts: seq<Token>, r: Option<seq<Token>>): Option<seq<Token>> {
    match r case None => None case Some(us) => Some(ts + us)
  }

  /** Punctuation and operators, longest first; None for a stray character. */
  function Symbol(s: string): (r: Option<(Token, nat)>)
    requires s != ""
    ensures r.Some? ==> 0 < r.value.1 <= |s|
  {
    var two := if |s| > 1 then s[1] else ' ';
    match s[0]
    case '{' => Some((LBrace, 1))
    case '}' => Some((RBrace, 1))
    case '(' => Some((LParen, 1))
    case ')' => Some((RParen, 1))
    case '.' => Some((Dot, 1))
    case '/' => Some((Slash, 1))
    case ',' => Some((Comma, 1))
    case ':' => Some((Colon, 1))
    case '=' => if two == '=' then Some((Operator(EqEq), 2)) else Some((Equals, 1))
    case '!' => if two == '=' then Some((Operator(BangEq), 2)) else Some((Bang, 1))
    case '<' => if two == '=' then Some((Operator(Lte), 2)) else Some((Operator(Lt), 1))
    case '>' => if two == '=' then Some((Operator(Gte), 2)) else Some((Operator(Gt), 1))
    case '&' => if two == '&' then Some((Operator(AndAnd), 2)) else None
    case '|' => if two == '|' then Some((Operator(OrOr), 2)) else None
    case '-' => if two == '>' then Some((Arrow, 2)) else None
    case _ => None
  }

  function Lex(s: string): Option<seq<Token>>
    decreases |s|
  {
    if s == "" then Some([])
    else if IsSpace(s[0]) then Lex(s[1..])
    else if |s| > 1 && s[0] == '/' && s[1] == '/' then Lex(s[LineLen(s)..])
    else if IdentStart(s[0]) then
      var n := IdentLen(s);
      Prepend([if s[..n] in KEYWORDS then Keyword(s[..n]) else Ident(s[..n])], Lex(s[n..]))
    else if IsDigit(s[0]) then Prepend([Number(s[..NumberLen(s)])], Lex(s[NumberLen(s)..]))
    else if s[0] == '"' then
      if |s| > 2 && s[1] == '"' && s[2] == '"' then None
      else (match ScanString(s[1..]) case None => None case Some(p) => Prepend([String(p.text)], Lex(p.rest)))
    else
      match Symbol(s) case None => None case Some(p) => Prepend([p.0], Lex(s[p.1..]))
  }

  // ----- the printer; `esc` is strconv.Quote's spelling of every other character

  type Escapes = char -> string

  function QuoteChar(esc: Escapes, c: char): string {
    if c == '"' then "\\\""
    else if c == '\\' then "\\\\"
    else if c == '\n' then "\\n"
    else if c == '\t' then "\\t"
    else if c == '\r' then "\\r"
    else if ' ' <= c <= '~' then [c]
    else esc(c)
  }

  function QuoteBody(esc: Escapes, s: string): string {
    if s == "" then "" else QuoteChar(esc, s[0]) + QuoteBody(esc, s[1..])
  }

  function Quote(esc: Escapes, s: string): string {
    "\"" + QuoteBody(esc, s) + "\""
  }

  function DottedName(parts: seq<string>): string {
    if parts == [] then "" else if |parts| == 1 then parts[0]
      else DottedName(parts[..|parts| - 1]) + "." + parts[|parts| - 1]
  }

  function PrintLit(esc: Escapes, lit: Literal): string {
    match lit
    case StrLit(s) => Quote(esc, s)
    case BoolLit(b) => if b then "true" else "false"
    case IntLit(n) => Codec.FormatInt(n)
    case FloatLit(text) => text
  }

  function OpSymbol(op: Op): string {
    match op
    case EqEq => "==" case BangEq => "!=" case Lt => "<" case Lte => "<=" case Gt => ">" case Gte => ">="
    case AndAnd => "&&" case OrOr => "||"
  }

  function Print(esc: Escapes, e: Expr): string
    decreases e, 0
  {
    match e
    case RefExpr(parts) => DottedName(parts)
    case LitExpr(lit) => PrintLit(esc, lit)
    case NotExpr(x) => "!" + if x.BinaryExpr? then PrintBracketed(esc, x) else Print(esc, x)
    case BinaryExpr(op, x, y) => PrintOperand(esc, x, op,
        false) + (" " + OpSymbol(op) + " " + PrintOperand(esc, y, op, true))
    case CallExpr(callee, args) => DottedName(callee) + ("(" + (PrintArgs(esc, args) + ")"))
    case ObjectExpr(fields) => if fields == [] then "{}" else "{ " + (PrintFields(esc, fields) + " }")
  }

  function PrintBracketed(esc: Escapes, e: Expr): string
    decreases e, 1
  {
    "(" + (Print(esc, e) + ")")
  }

  function PrintOperand(esc: Escapes, e: Expr, parent: Op, right: bool): string
    decreases e, 2
  {
    if NeedsBrackets(e, parent, right) then PrintBracketed(esc, e) else Print(esc, e)
  }

  function PrintArg(esc: Escapes, a: Arg): string
    decreases a, 3
  {
    match a.name case None => Print(esc, a.value) case Some(n) => n + (": " + Print(esc, a.value))
  }

  function PrintArgs(esc: Escapes, args: seq<Arg>): string
    decreases args, 4
  {
    if args == [] then "" else if |args| == 1 then PrintArg(esc, args[0])
      else PrintArg(esc, args[0]) + (", " + PrintArgs(esc, args[1..]))
  }

  function PrintFields(esc: Escapes, fields: seq<FieldExpr>): string
    decreases fields, 4
  {
    if fields == [] then ""
    else fields[0].key + (": " + (Print(esc, fields[0].value) + if |fields| == 1 then ""
                                  else ", " + PrintFields(esc, fields[1..])))
  }

  // ----- expressions whose words lex as they are written

  predicate IsName(n: string) {
    n != "" && IdentStart(n[0]) && IdentLen(n) == |n| && n !in KEYWORDS
  }

  predicate PlainChar(c: char) {
    ' ' <= c <= '~' || c == '\n' || c == '\t' || c == '\r'
  }

  /** Every word is an identifier and no reserved word; strings need only the escapes the
      lexer knows. */
  predicate Lexable(e: Expr)
    decreases e
  {
    match e
    case RefExpr(parts) => forall i :: 0 <= i < |parts| ==> IsName(parts[i])
    case LitExpr(lit) => lit.StrLit? ==> forall i :: 0 <= i < |lit.s| ==> PlainChar(lit.s[i])
    case NotExpr(x) => Lexable(x)
    case BinaryExpr(_, x, y) => Lexable(x) && Lexable(y)
    case CallExpr(callee, args) =>
      && (forall i :: 0 <= i < |callee| ==> IsName(callee[i]))
      && (forall i :: 0 <= i < |args| ==> Lexable(args[i].value) && (args[i].name.Some? ==> IsName(args[i].name.value)))
    case ObjectExpr(fields) => forall i :: 0 <= i < |fields| ==> Lexable(fields[i].value) && IsName(fields[i].key)
  }

  // ----- lexing what was printed

  lemma Compose(ts: seq<Token>, us: seq<Token>, r: Option<seq<Token>>)
    ensures Prepend(ts, Prepend(us, r)) == Prepend(ts + us, r)
  {
    if r.Some? { assert ts + (us + r.value) == (ts + us) + r.value; }
  }

  predicate EndsWord(s: string) {
    s == "" || !IdentPart(s[0])
  }

  /** What follows a printed expression. */
  predicate EndsPrinted(s: string) {
    s == "" || s[0] == ' ' || s[0] == ',' || s[0] == ')'
  }

  lemma {:induction false} IdentLenStops(n: string, s: string)
    requires IdentLen(n) == |n| && EndsWord(s)
    ensures IdentLen(n + s) == |n|
    decreases |n|
  {
    if n == "" {
      assert n + s == s;
    } else {
      assert (n + s)[1..] == n[1..] + s;
      IdentLenStops(n[1..], s);
    }
  }

  lemma LexName(n: string, s: string)
    requires IsName(n) && EndsWord(s)
    ensures Lex(n + s) == Prepend([Ident(n)], Lex(s))
  {
    IdentLenStops(n, s);
    assert (n + s)[..|n|] == n && (n + s)[|n|..] == s;
    assert (n + s)[0] == n[0];
    assert !IsSpace(n[0]) && n[0] != '/';
  }

  lemma LexSpace(s: string)
    ensures Lex(" " + s) == Lex(s)
  {
    assert (" " + s)[1..] == s;
  }

  /** Symbols of one character that never begin a longer one. */
  lemma LexOne(c: char, t: Token, s: string)
    requires (c, t) in {('{', LBrace), ('}', RBrace), ('(', LParen), (')', RParen), ('.', Dot), (',', Comma),
        (':', Colon)}
    ensures Lex([c] + s) == Prepend([t], Lex(s))
  {
    hide Lex, Prepend;
    var text := [c] + s;
    assert text[1..] == s && text[0] == c;
    assert Symbol(text) == Some((t, 1));
    LexSymbol(text);
  }

  lemma LexBang(s: string)
    requires s != "" && s[0] != '='
    ensures Lex("!" + s) == Prepend([Bang], Lex(s))
  {
    var text := "!" + s;
    assert text[1..] == s && text[0] == '!' && text[1] == s[0];
    assert Symbol(text) == Some((Bang, 1));
    LexSymbol(text);
  }

  /** A text that opens with a symbol. */
  lemma LexSymbol(text: string)
    requires text != "" && Symbol(text).Some? && (|text| > 1 && text[0] == '/' ==> text[1] != '/')
    ensures Lex(text) == Prepend([Symbol(text).value.0], Lex(text[Symbol(text).value.1..]))
  {
    SymbolChar(text);
    hide Symbol, IsSpace, IdentStart, IsDigit;
  }

  lemma SymbolChar(text: string)
    requires text != "" && Symbol(text).Some?
    ensures !IsSpace(text[0]) && !IdentStart(text[0]) && !IsDigit(text[0]) && text[0] != '"'
  {
  }

  lemma LexOperator(op: Op, s: string)
    ensures Lex(" " + OpSymbol(op) + " " + s) == Prepend([Operator(op)], Lex(s))
  {
    hide Lex, Prepend;
    var sym := OpSymbol(op);
    var text := sym + (" " + s);
    assert " " + sym + " " + s == " " + text;
    LexSpace(text);
    assert text[0] == sym[0] && text[|sym|] == ' ' && (|sym| == 2 ==> text[1] == sym[1]);
    assert text[|sym|..] == " " + s;
    assert Symbol(text) == Some((Operator(op), |sym|));
    LexSymbol(text);
    LexSpace(s);
  }

  lemma ScanStep(esc: Escapes, c: char, text: string, more: string)
    requires PlainChar(c) && text == QuoteChar(esc, c) + more
    ensures ScanString(text) == match ScanString(more) case None => None case Some(p) =>
        Some(Scan([c] + p.text, p.rest))
  {
    var q := QuoteChar(esc, c);
    assert text[|q|..] == more && text[0] == q[0];
    if |q| == 2 { assert text[1] == q[1]; }
  }

  lemma ScanClose(s: string)
    ensures ScanString("\"" + s) == Some(Scan("", s))
  {
    assert ("\"" + s)[1..] == s;
  }

  lemma {:induction false} ScanQuoted(esc: Escapes, v: string, s: string)
    requires forall i :: 0 <= i < |v| ==> PlainChar(v[i])
    ensures ScanString(QuoteBody(esc, v) + ("\"" + s)) == Some(Scan(v, s))
    decreases |v|
  {
    hide ScanString, QuoteChar, PlainChar;
    var close := "\"" + s;
    if v == "" {
      assert QuoteBody(esc, v) + close == close;
      ScanClose(s);
    } else {
      ScanQuoted(esc, v[1..], s);
      var more := QuoteBody(esc, v[1..]) + close;
      assert QuoteBody(esc, v) + close == QuoteChar(esc, v[0]) + more;
      ScanStep(esc, v[0], QuoteBody(esc, v) + close, more);
      assert v == [v[0]] + v[1..];
    }
  }

  lemma LexString(esc: Escapes, v: string, s: string)
    requires (forall i :: 0 <= i < |v| ==> PlainChar(v[i])) && EndsPrinted(s)
    ensures Lex(Quote(esc, v) + s) == Prepend([String(v)], Lex(s))
  {
    hide QuoteBody, ScanString, PlainChar;
    var text := Quote(esc, v) + s;
    ScanQuoted(esc, v, s);
    assert text[0] == '"';
    assert text[1..] == QuoteBody(esc, v) + ("\"" + s);
    NotTripled(esc, v, s);
  }

  lemma NotTripled(esc: Escapes, v: string, s: string)
    requires (forall i :: 0 <= i < |v| ==> PlainChar(v[i])) && EndsPrinted(s)
    ensures var text := Quote(esc, v) + s; !(|text| > 2 && text[1] == '"' && text[2] == '"')
  {
    var text := Quote(esc, v) + s;
    if v == "" {
      assert text == "\"\"" + s;
    } else {
      assert PlainChar(v[0]);
      assert text[1] == QuoteBody(esc, v)[0] == QuoteChar(esc, v[0])[0];
    }
  }

  lemma {:induction false} DigitLenStops(n: string, s: string)
    requires (forall i :: 0 <= i < |n| ==> IsDigit(n[i])) && (s == "" || !IsDigit(s[0]))
    ensures DigitLen(n + s) == |n|
    decreases |n|
  {
    if n == "" {
      assert n + s == s;
    } else {
      assert (n + s)[1..] == n[1..] + s;
      DigitLenStops(n[1..], s);
    }
  }

  lemma LexNumber(n: nat, s: string)
    requires EndsPrinted(s)
    ensures Lex(Codec.FormatInt(n) + s) == Prepend([Number(Codec.FormatInt(n))], Lex(s))
  {
    var d := Keys.Decimal(n);
    DigitLenStops(d, s);
    assert (d + s)[0] == d[0] && (d + s)[..|d|] == d && (d + s)[|d|..] == s;
    if s != "" { assert (d + s)[|d|] == s[0]; }
    assert NumberLen(d + s) == |d|;
  }

  lemma {:induction false} LexPath(parts: seq<string>, s: string)
    requires parts != [] && (forall i :: 0 <= i < |parts| ==> IsName(parts[i])) && EndsWord(s)
    ensures Lex(DottedName(parts) + s) == Prepend(PathTokens(parts), Lex(s))
    decreases |parts|
  {
    hide Lex;
    var n := |parts| - 1;
    if n == 0 {
      LexName(parts[0], s);
    } else {
      var more := "." + (parts[n] + s);
      LexPath(parts[..n], more);
      LexOne('.', Dot, parts[n] + s);
      LexName(parts[n], s);
      Compose([Dot], [Ident(parts[n])], Lex(s));
      Compose(PathTokens(parts[..n]), [Dot, Ident(parts[n])], Lex(s));
      assert DottedName(parts) + s == DottedName(parts[..n]) + more;
      assert [Dot] + [Ident(parts[n])] == [Dot, Ident(parts[n])];
    }
  }

  lemma LexLit(esc: Escapes, lit: Literal, s: string)
    requires PlainLiteral(lit) && EndsPrinted(s)
             && (lit.StrLit? ==> forall i :: 0 <= i < |lit.s| ==> PlainChar(lit.s[i]))
    ensures Lex(PrintLit(esc, lit) + s) == Prepend(LitTokens(lit), Lex(s))
  {
    hide Lex;
    match lit
    case StrLit(v) => LexString(esc, v, s);
    case IntLit(n) => LexNumber(n, s);
    case BoolLit(b) =>
      assert IsName("true") by { assert IdentLen("rue") == 3 by { assert IdentLen("ue") == 2; } }
      assert IsName("false") by { assert IdentLen("alse") == 4 by { assert IdentLen("se") == 2; } }
      LexName(if b then "true" else "false", s);
  }

  /** The first printed character neither extends nor begins a longer symbol. */
  lemma {:induction false} PrintOpens(esc: Escapes, e: Expr)
    requires Spellable(e) && Lexable(e)
    ensures Print(esc, e) != "" && Print(esc, e)[0] != '='
    decreases e
  {
    match e
    case RefExpr(parts) => NameOpens(parts);
    case CallExpr(callee, _) => NameOpens(callee);
    case BinaryExpr(op, x, _) =>
      if NeedsBrackets(x, op, false) { assert PrintBracketed(esc, x)[0] == '('; } else { PrintOpens(esc, x); }
      assert Print(esc, e)[0] == PrintOperand(esc, x, op, false)[0];
    case _ =>
  }

  lemma {:induction false} NameOpens(parts: seq<string>)
    requires parts != [] && forall i :: 0 <= i < |parts| ==> IsName(parts[i])
    ensures DottedName(parts) != "" && IdentStart(DottedName(parts)[0])
    decreases |parts|
  {
    if |parts| > 1 { NameOpens(parts[..|parts| - 1]); }
  }

  /** Lexing a printed expression gives its tokens and leaves what follows alone. */
  lemma {:induction false} LexPrinted(esc: Escapes, e: Expr, s: string)
    requires Spellable(e) && Lexable(e) && EndsPrinted(s)
    ensures Lex(Print(esc, e) + s) == Prepend(Tokens(e), Lex(s))
    decreases e, 1
  {
    hide Lex, Prepend, PlainChar, IsName;
    match e
    case RefExpr(parts) => LexPath(parts, s);
    case LitExpr(lit) => LexLit(esc, lit, s);
    case NotExpr(x) =>
      if x.BinaryExpr? {
        LexBracketed(esc, x, s);
        Glue("!", PrintBracketed(esc, x), s);
        LexBang(PrintBracketed(esc, x) + s);
        Compose([Bang], Bracketed(x), Lex(s));
      } else {
        LexPrinted(esc, x, s);
        PrintOpens(esc, x);
        Glue("!", Print(esc, x), s);
        LexBang(Print(esc, x) + s);
        Compose([Bang], Tokens(x), Lex(s));
      }
    case BinaryExpr(_, _, _) => LexBinary(esc, e, s);
    case CallExpr(callee, args) => LexCall(esc, callee, args, s);
    case ObjectExpr(fields) => LexObject(esc, fields, s);
  }

  lemma {:induction false} LexBracketed(esc: Escapes, e: Expr, s: string)
    requires Spellable(e) && Lexable(e)
    ensures Lex(PrintBracketed(esc, e) + s) == Prepend(Bracketed(e), Lex(s))
    decreases e, 2
  {
    hide Lex, Prepend, Print, Tokens, Spellable, Lexable;
    LexOne(')', RParen, s);
    LexPrinted(esc, e, ")" + s);
    LexOne('(', LParen, Print(esc, e) + (")" + s));
    Compose(Tokens(e), [RParen], Lex(s));
    Compose([LParen], Tokens(e) + [RParen], Lex(s));
    assert PrintBracketed(esc, e) + s == "(" + (Print(esc, e) + (")" + s));
    assert Bracketed(e) == [LParen] + (Tokens(e) + [RParen]);
  }

  lemma {:induction false} LexOperand(esc: Escapes, e: Expr, parent: Op, right: bool, s: string)
    requires Spellable(e) && Lexable(e) && EndsPrinted(s)
    ensures Lex(PrintOperand(esc, e, parent, right) + s) == Prepend(Operand(e, parent, right), Lex(s))
    decreases e, 3
  {
    hide Lex, Prepend, Print, Tokens, Spellable, Lexable;
    if NeedsBrackets(e, parent, right) { LexBracketed(esc, e, s); } else { LexPrinted(esc, e, s); }
  }

  lemma {:induction false} LexBinary(esc: Escapes, e: Expr, s: string)
    requires e.BinaryExpr? && Spellable(e) && Lexable(e) && EndsPrinted(s)
    ensures Lex(Print(esc, e) + s) == Prepend(Tokens(e), Lex(s))
    decreases e, 0
  {
    hide Lex, Prepend, PrintOperand, Operand;
    var a, b := PrintOperand(esc, e.x, e.op, false), PrintOperand(esc, e.y, e.op, true);
    var ta, tb := Operand(e.x, e.op, false), Operand(e.y, e.op, true);
    LexOperand(esc, e.y, e.op, true, s);
    LexOperator(e.op, b + s);
    LexOperand(esc, e.x, e.op, false, " " + OpSymbol(e.op) + " " + (b + s));
    Compose([Operator(e.op)], tb, Lex(s));
    Compose(ta, [Operator(e.op)] + tb, Lex(s));
    assert Print(esc, e) + s == a + (" " + OpSymbol(e.op) + " " + (b + s));
    assert Tokens(e) == ta + ([Operator(e.op)] + tb);
  }

  lemma {:induction false} LexCall(esc: Escapes, callee: seq<string>, args: seq<Arg>, s: string)
    requires Spellable(CallExpr(callee, args)) && Lexable(CallExpr(callee, args))
    ensures Lex(Print(esc, CallExpr(callee, args)) + s) == Prepend(Tokens(CallExpr(callee, args)), Lex(s))
    decreases args, 7
  {
    hide Lex, Prepend, PrintArgs, ArgsTokens, DottedName, PathTokens, IsName;
    var inner := PrintArgs(esc, args) + (")" + s);
    LexOne(')', RParen, s);
    LexArgs(esc, args, ")" + s);
    LexOne('(', LParen, inner);
    LexPath(callee, "(" + inner);
    Compose(ArgsTokens(args), [RParen], Lex(s));
    Compose([LParen], ArgsTokens(args) + [RParen], Lex(s));
    Compose(PathTokens(callee), [LParen] + (ArgsTokens(args) + [RParen]), Lex(s));
    CallPieces(DottedName(callee), PrintArgs(esc, args), s);
    TokenPieces(PathTokens(callee), ArgsTokens(args));
  }

  lemma CallPieces(name: string, args: string, s: string)
    ensures name + ("(" + (args + ")")) + s == name + ("(" + (args + (")" + s)))
  {
  }

  lemma TokenPieces(name: seq<Token>, args: seq<Token>)
    ensures name + [LParen] + args + [RParen] == name + ([LParen] + (args + [RParen]))
  {
  }

  lemma {:induction false} LexArg(esc: Escapes, a: Arg, s: string)
    requires Spellable(a.value) && Lexable(a.value) && (a.name.Some? ==> IsName(a.name.value)) && EndsPrinted(s)
    ensures Lex(PrintArg(esc, a) + s) == Prepend(ArgTokens(a), Lex(s))
    decreases a, 5
  {
    hide Lex, Prepend, Print, Tokens, Spellable, Lexable, IsName;
    LexPrinted(esc, a.value, s);
    if a.name.Some? {
      LexLabel(a.name.value, Print(esc, a.value) + s);
      Compose([Ident(a.name.value), Colon], Tokens(a.value), Lex(s));
      assert PrintArg(esc, a) + s == a.name.value + (": " + (Print(esc, a.value) + s));
    } else {
      assert ArgTokens(a) == Tokens(a.value);
    }
  }

  lemma LexLabel(n: string, s: string)
    requires IsName(n)
    ensures Lex(n + (": " + s)) == Prepend([Ident(n), Colon], Lex(s))
  {
    hide Lex, Prepend, IsName;
    LexSpace(s);
    assert ": " + s == ":" + (" " + s);
    LexOne(':', Colon, " " + s);
    LexName(n, ": " + s);
    Compose([Ident(n)], [Colon], Lex(s));
    assert [Ident(n)] + [Colon] == [Ident(n), Colon];
  }

  lemma LexComma(s: string)
    ensures Lex(", " + s) == Prepend([Comma], Lex(s))
  {
    hide Lex, Prepend;
    assert ", " + s == "," + (" " + s);
    LexOne(',', Comma, " " + s);
    LexSpace(s);
  }

  lemma {:induction false} LexArgs(esc: Escapes, args: seq<Arg>, s: string)
    requires forall i ::
               0 <= i < |args| ==>
                 Spellable(args[i].value) && Lexable(args[i].value)
                 && (args[i].name.Some? ==> IsName(args[i].name.value))
    requires EndsPrinted(s)
    ensures Lex(PrintArgs(esc, args) + s) == Prepend(ArgsTokens(args), Lex(s))
    decreases args, 6
  {
    hide Lex, PrintArg, ArgTokens, Spellable, Lexable, IsName;
    if args == [] {
      assert "" + s == s;
      assert Prepend([], Lex(s)) == Lex(s) by { if Lex(s).Some? { assert [] + Lex(s).value == Lex(s).value; } }
    } else if |args| == 1 {
      LexArg(esc, args[0], s);
    } else {
      hide Prepend;
      var more := PrintArgs(esc, args[1..]) + s;
      LexArgs(esc, args[1..], s);
      LexComma(more);
      LexArg(esc, args[0], ", " + more);
      ArgsText(esc, args, s);
      hide PrintArgs, ArgsTokens;
      Compose([Comma], ArgsTokens(args[1..]), Lex(s));
      Compose(ArgTokens(args[0]), [Comma] + ArgsTokens(args[1..]), Lex(s));
    }
  }

  lemma ArgsText(esc: Escapes, args: seq<Arg>, s: string)
    requires |args| > 1
    ensures PrintArgs(esc, args) + s == PrintArg(esc, args[0]) + (", " + (PrintArgs(esc, args[1..]) + s))
    ensures ArgsTokens(args) == ArgTokens(args[0]) + ([Comma] + ArgsTokens(args[1..]))
  {
    hide PrintArg, ArgTokens;
    var rest := PrintArgs(esc, args[1..]);
    assert PrintArgs(esc, args) == PrintArg(esc, args[0]) + ", " + rest;
    Glue4(PrintArg(esc, args[0]), ", ", rest, s);
  }

  lemma {:induction false} LexObject(esc: Escapes, fields: seq<FieldExpr>, s: string)
    requires Spellable(ObjectExpr(fields)) && Lexable(ObjectExpr(fields))
    ensures Lex(Print(esc, ObjectExpr(fields)) + s) == Prepend(Tokens(ObjectExpr(fields)), Lex(s))
    decreases fields, 7
  {
    hide Lex, Prepend, IsName;
    LexOne('}', RBrace, s);
    if fields == [] {
      assert "{}" + s == "{" + ("}" + s);
      LexOne('{', LBrace, "}" + s);
      Compose([LBrace], [RBrace], Lex(s));
      assert Tokens(ObjectExpr(fields)) == [LBrace] + [RBrace];
    } else {
      hide PrintFields, FieldsTokens, Lexable, Spellable;
      var body, toks := PrintFields(esc, fields), FieldsTokens(fields);
      assert " }" + s == " " + ("}" + s);
      LexSpace("}" + s);
      LexFields(esc, fields, " }" + s);
      LexSpace(body + (" }" + s));
      LexOne('{', LBrace, " " + (body + (" }" + s)));
      Compose(toks, [RBrace], Lex(s));
      Compose([LBrace], toks + [RBrace], Lex(s));
      ObjectPieces(body, toks, s);
    }
  }

  lemma ObjectPieces(body: string, toks: seq<Token>, s: string)
    ensures "{ " + (body + " }") + s == "{" + (" " + (body + (" }" + s)))
    ensures [LBrace] + toks + [RBrace] == [LBrace] + (toks + [RBrace])
  {
  }

  lemma {:induction false} LexFields(esc: Escapes, fields: seq<FieldExpr>, s: string)
    requires fields != [] && EndsPrinted(s)
    requires forall i ::
               0 <= i < |fields| ==> Spellable(fields[i].value) && Lexable(fields[i].value) && IsName(fields[i].key)
    ensures Lex(PrintFields(esc, fields) + s) == Prepend(FieldsTokens(fields), Lex(s))
    decreases fields, 6
  {
    hide Lex, Print, Tokens, Spellable, Lexable, IsName, Prepend;
    var v, tv := Print(esc, fields[0].value), Tokens(fields[0].value);
    if |fields| == 1 {
      LexPrinted(esc, fields[0].value, s);
      LexLast(fields[0].key, v, tv, s);
      assert v + "" == v && [Ident(fields[0].key), Colon] + tv + [] == [Ident(fields[0].key), Colon] + tv;
      assert PrintFields(esc, fields) == fields[0].key + (": " + v);
      assert FieldsTokens(fields) == [Ident(fields[0].key), Colon] + tv;
    } else {
      var more := PrintFields(esc, fields[1..]);
      LexFields(esc, fields[1..], s);
      LexComma(more + s);
      LexPrinted(esc, fields[0].value, ", " + (more + s));
      LexMore(fields[0].key, v, tv, more, FieldsTokens(fields[1..]), s);
    }
  }

  /** The last entry of an object literal, given how its value lexes. */
  lemma LexLast(key: string, v: string, tv: seq<Token>, s: string)
    requires IsName(key) && Lex(v + s) == Prepend(tv, Lex(s))
    ensures Lex(key + (": " + v) + s) == Prepend([Ident(key), Colon] + tv, Lex(s))
  {
    hide Lex, Prepend, IsName;
    LexLabel(key, v + s);
    Compose([Ident(key), Colon], tv, Lex(s));
    assert key + (": " + v) + s == key + (": " + (v + s));
  }

  /** An earlier entry, given how its value and the rest lex. */
  lemma LexMore(key: string, v: string, tv: seq<Token>, more: string, us: seq<Token>, s: string)
    requires IsName(key) && Lex(more + s) == Prepend(us, Lex(s))
             && Lex(", " + (more + s)) == Prepend([Comma], Lex(more + s))
    requires Lex(v + (", " + (more + s))) == Prepend(tv, Lex(", " + (more + s)))
    ensures Lex(key + (": " + (v + (", " + more))) + s) == Prepend([Ident(key), Colon] + tv + ([Comma] + us), Lex(s))
  {
    hide Lex, Prepend, IsName;
    var head, tail := [Ident(key), Colon], [Comma] + us;
    LexLabel(key, v + (", " + (more + s)));
    Compose([Comma], us, Lex(s));
    Compose(tv, tail, Lex(s));
    Compose(head, tv + tail, Lex(s));
    assert key + (": " + (v + (", " + more))) + s == key + (": " + (v + (", " + (more + s))));
    assert head + tv + tail == head + (tv + tail);
  }

  // ----- reading source text

  /** Lexes and parses one expression that takes up the whole text. */
  method ReadExpr(s: string) returns (e: Option<Expr>)
    ensures e == Read(s)
  {
    var toks := Lex(s);
    if toks.None? { return None; }
    var p := new Parser.ExprParser(toks.value);
    e := p.Expr();
    if e.Some? && p.pos < |toks.value| { e := None; }
  }

  function Read(s: string): Option<Expr> {
    match Lex(s)
    case None => None
    case Some(ts) => (match ParseExpr(ts) case Some(p) => if p.rest == [] then Some(p.e) else None case None => None)
  }

  lemma LexNothing()
    ensures Lex("") == Some([])
  {
  }

  /** Formatting then reading gives the expression back exactly when no comparison is the left
      operand of a comparison; otherwise the formatter's own output is rejected. */
  lemma PrintedReadsBackIff(esc: Escapes, e: Expr)
    requires Spellable(e) && Lexable(e)
    ensures Read(Print(esc, e)) == if Unchained(e) then Some(e) else None
  {
    hide Lex, Print, Tokens, ParseExpr, Spellable, Lexable, Unchained;
    LexPrinted(esc, e, "");
    assert Print(esc, e) + "" == Print(esc, e);
    LexNothing();
    assert Tokens(e) + [] == Tokens(e);
    ExprRoundTrip(e, []);
  }

  /** Formatting loses no structure: two accepted trees with one text are one tree. */
  lemma PrintingIsInjective(esc: Escapes, e: Expr, f: Expr)
    requires Spellable(e) && Lexable(e) && Spellable(f) && Lexable(f) && Unchained(e) && Print(esc, e) == Print(esc, f)
    ensures e == f
  {
    PrintedReadsBackIff(esc, e);
    PrintedReadsBackIff(esc, f);
  }
}
