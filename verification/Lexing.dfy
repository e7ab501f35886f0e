/** What the lexer (internal/lang/lexer.go) must find: the longest word at every point, between
    spaces and comments. The lexer finds exactly that. */
module Lexing {
  import opened Values
  import opened Lang
  import opened LangText
  import Grammar

  // ----- words

  const RESERVED: set<string> := {"agent", "workflow", "parallel", "return", "if", "else", "for", "while"}

  predicate Letter(c: char) {
    c == '_' || 'a' <= c <= 'z' || 'A' <= c <= 'Z'
  }

  predicate Numeric(c: char) {
    '0' <= c <= '9'
  }

  /** A letter or underscore, then letters, digits, underscores and hyphens. */
  predicate NameLike(w: string) {
    w != "" && Letter(w[0]) && forall i :: 0 <= i < |w| ==> Letter(w[i]) || Numeric(w[i]) || w[i] == '-'
  }

  predicate Digits(w: string) {
    w != "" && forall i :: 0 <= i < |w| ==> Numeric(w[i])
  }

  /** Digits, with at most one point between digits. */
  ghost predicate NumberLike(w: string) {
    Digits(w) || exists k: nat :: k < |w| && w[k] == '.' && Digits(w[..k]) && Digits(w[k + 1..])
  }

  /** The body of a string literal stands for v: no bare quote, backslash or line end, and the
      escapes for quote, backslash, newline, tab and return. */
  predicate Stands(body: string, v: string)
    decreases |body|
  {
    if body == "" then v == ""
    else if body[0] == '\\' then
      && |body| > 1 && v != ""
      && (body[1], v[0]) in {('"', '"'), ('\\', '\\'), ('n', '\n'), ('t', '\t'), ('r', '\r')}
      && Stands(body[2..], v[1..])
    else body[0] != '"' && body[0] != '\n' && v != "" && v[0] == body[0] && Stands(body[1..], v[1..])
  }

  function Spelling(op: Op): string {
    match op
    case OrOr => "||" case AndAnd => "&&" case EqEq => "==" case BangEq => "!="
    case Gte => ">=" case Gt => ">" case Lte => "<=" case Lt => "<"
  }

  /** The text w is the token t. */
  ghost predicate Word(w: string, t: Token) {
    match t
    case Ident(x) => x == w && NameLike(w) && w !in RESERVED
    case Keyword(x) => x == w && NameLike(w) && w in RESERVED
    case Number(x) => x == w && NumberLike(w)
    case String(v) => |w| > 1 && w[0] == '"' && w[|w| - 1] == '"' && Stands(w[1..|w| - 1], v)
    case Operator(op) => w == Spelling(op)
    case Bang => w == "!"
    case LBrace => w == "{"
    case RBrace => w == "}"
    case LParen => w == "("
    case RParen => w == ")"
    case Dot => w == "."
    case Slash => w == "/"
    case Comma => w == ","
    case Colon => w == ":"
    case Equals => w == "="
    case Arrow => w == "->"
  }

  ghost predicate IsWord(w: string) {
    exists t :: Word(w, t)
  }

  /** No longer prefix of s is a word. */
  ghost predicate Longest(s: string, n: nat) {
    forall m: nat :: n < m <= |s| ==> !IsWord(s[..m])
  }

  /** The first n characters are the rest of a line. */
  ghost predicate Line(s: string, n: nat) {
    n <= |s| && '\n' !in s[..n] && (n < |s| ==> s[n] == '\n')
  }

  predicate Blank(c: char) {
    c in {' ', '\t', '\r', '\n'}
  }

  /** s is blanks, comments to the line's end, and the words ts, each the longest at its place;
      three quotes in a row begin nothing. */
  ghost predicate Tokenized(s: string, ts: seq<Token>)
    decreases |s|
  {
    if s == "" then ts == []
    else if Blank(s[0]) then Tokenized(s[1..], ts)
    else if "//" <= s then exists n: nat :: 0 < n <= |s| && Line(s, n) && Tokenized(s[n..], ts)
    else if "\"\"\"" <= s then false
    else ts != [] && exists n: nat :: 0 < n <= |s| && First(s, n, ts[0]) && Tokenized(s[n..], ts[1..])
  }

  /** The longest word at the front of s is t, n characters long. */
  ghost predicate First(s: string, n: nat, t: Token)
    requires n <= |s|
  {
    Word(s[..n], t) && Longest(s, n)
  }

  // ----- one word, one token

  lemma {:induction false} StandsOnce(body: string, v: string, u: string)
    requires Stands(body, v) && Stands(body, u)
    ensures v == u
    decreases |body|
  {
    if body != "" {
      if body[0] == '\\' {
        assert v[0] == u[0];
        StandsOnce(body[2..], v[1..], u[1..]);
      } else {
        StandsOnce(body[1..], v[1..], u[1..]);
      }
      assert v == [v[0]] + v[1..] && u == [u[0]] + u[1..];
    }
  }

  /** How a word begins tells its kind. */
  lemma Begins(w: string, t: Token)
    requires Word(w, t)
    ensures w != ""
    ensures t.Ident? || t.Keyword? <==> Letter(w[0])
    ensures t.Number? <==> Numeric(w[0])
    ensures t.String? <==> w[0] == '"'
    ensures !Letter(w[0]) && !Numeric(w[0]) && w[0] != '"' ==> |w| <= 2 && Symbolic(w, t)
  {
    hide Stands;
    if t.Number? && !Digits(w) {
      var k: nat :| k < |w| && w[k] == '.' && Digits(w[..k]) && Digits(w[k + 1..]);
      assert w[0] == w[..k][0];
    }
  }

  /** The operators and punctuation. */
  ghost predicate Symbolic(w: string, t: Token) {
    match t
    case Ident(_) => false
    case Keyword(_) => false
    case Number(_) => false
    case String(_) => false
    case _ => Word(w, t)
  }

  lemma SymbolOnce(w: string, t: Token, u: Token)
    requires Symbolic(w, t) && Symbolic(w, u)
    ensures t == u
  {
  }

  lemma WordOnce(w: string, t: Token, u: Token)
    requires Word(w, t) && Word(w, u)
    ensures t == u
  {
    hide Symbolic, Stands;
    Begins(w, t);
    Begins(w, u);
    if t.String? {
      StandsOnce(w[1..|w| - 1], t.s, u.s);
    } else if !Letter(w[0]) && !Numeric(w[0]) {
      SymbolOnce(w, t, u);
    }
  }

  lemma FirstOnce(s: string, n: nat, t: Token, m: nat, u: Token)
    requires n <= |s| && m <= |s| && First(s, n, t) && First(s, m, u)
    ensures n == m && t == u
  {
    hide Word;
    assert IsWord(s[..n]) && IsWord(s[..m]);
    WordOnce(s[..n], t, u);
  }

  // ----- the lexer's choices

  lemma {:induction false} IdentLenIs(s: string)
    ensures forall i :: 0 <= i < IdentLen(s) ==> Letter(s[i]) || Numeric(s[i]) || s[i] == '-'
    ensures IdentLen(s) < |s| ==> !(Letter(s[IdentLen(s)]) || Numeric(s[IdentLen(s)]) || s[IdentLen(s)] == '-')
    decreases |s|
  {
    if s != "" && IdentPart(s[0]) { IdentLenIs(s[1..]); }
  }

  lemma {:induction false} DigitLenIs(s: string)
    ensures forall i :: 0 <= i < DigitLen(s) ==> Numeric(s[i])
    ensures DigitLen(s) < |s| ==> !Numeric(s[DigitLen(s)])
    decreases |s|
  {
    if s != "" && IsDigit(s[0]) { DigitLenIs(s[1..]); }
  }

  lemma NameLength(s: string, m: nat)
    requires m <= |s| && NameLike(s[..m])
    ensures m <= IdentLen(s)
  {
    IdentLenIs(s);
    assert forall i: nat :: i < m ==> s[..m][i] == s[i];
  }

  lemma NameFirst(s: string)
    requires s != "" && Letter(s[0])
    ensures var n := IdentLen(s);
            0 < n && First(s, n, if s[..n] in KEYWORDS then Keyword(s[..n]) else Ident(s[..n]))
  {
    var n := IdentLen(s);
    IdentLenIs(s);
    assert IdentPart(s[0]);
    assert Word(s[..n], if s[..n] in KEYWORDS then Keyword(s[..n]) else Ident(s[..n]));
    forall m: nat, u | m <= |s| && Word(s[..m], u) ensures m <= n {
      if m > 0 {
        Begins(s[..m], u);
        NameLength(s, m);
      }
    }
  }

  lemma NumberFirst(s: string)
    requires s != "" && Numeric(s[0])
    ensures 0 < NumberLen(s) && First(s, NumberLen(s), Number(s[..NumberLen(s)]))
  {
    hide NumberLike, NumberLen;
    NumberIsWord(s);
    forall m: nat, u | m <= |s| && Word(s[..m], u) ensures m <= NumberLen(s) {
      if m > 0 {
        Begins(s[..m], u);
        NumberLength(s, m);
      }
    }
  }

  lemma NumberIsWord(s: string)
    requires s != "" && Numeric(s[0])
    ensures 0 < NumberLen(s) && NumberLike(s[..NumberLen(s)])
  {
    var d, n := DigitLen(s), NumberLen(s);
    DigitLenIs(s);
    var w := s[..n];
    if n > d {
      DigitLenIs(s[d + 1..]);
      assert w[d] == '.' && w[..d] == s[..d] && w[d + 1..] == s[d + 1..][..DigitLen(s[d + 1..])];
      assert Digits(w[..d]) && Digits(w[d + 1..]);
    }
  }

  lemma DigitsLength(s: string, m: nat)
    requires m <= |s| && (forall i: nat :: i < m ==> Numeric(s[i]))
    ensures m <= DigitLen(s)
  {
    DigitLenIs(s);
  }

  lemma NumberLength(s: string, m: nat)
    requires s != "" && Numeric(s[0]) && m <= |s| && NumberLike(s[..m])
    ensures m <= NumberLen(s)
  {
    var d, w := DigitLen(s), s[..m];
    if Digits(w) {
      assert forall i: nat :: i < m ==> w[i] == s[i];
      DigitsLength(s, m);
    } else {
      var k: nat :| k < |w| && w[k] == '.' && Digits(w[..k]) && Digits(w[k + 1..]);
      PointAt(s, m, k);
      assert w[k + 1..] == s[k + 1..][..m - (k + 1)];
      DigitsLength(s[k + 1..], m - (k + 1));
    }
  }

  /** The point of a number comes right after its first digits. */
  lemma PointAt(s: string, m: nat, k: nat)
    requires s != "" && Numeric(s[0]) && k < m <= |s|
    requires var w := s[..m]; w[k] == '.' && Digits(w[..k]) && Digits(w[k + 1..])
    ensures k == DigitLen(s) && k + 1 < m && Numeric(s[k + 1]) && s[k] == '.'
  {
    var w := s[..m];
    DigitLenIs(s);
    assert w[k + 1] == w[k + 1..][0] == s[k + 1];
    assert forall i: nat :: i < k ==> w[..k][i] == s[i];
    DigitsLength(s, k);
  }

  lemma StandsPlain(c: char, body: string, v: string)
    requires c != '"' && c != '\n' && c != '\\' && Stands(body, v)
    ensures Stands([c] + body, [c] + v)
  {
    assert ([c] + body)[1..] == body && ([c] + v)[1..] == v;
  }

  lemma StandsEscaped(c: char, d: char, body: string, v: string)
    requires Unescape(c) == Some(d) && Stands(body, v)
    ensures Stands(['\\', c] + body, [d] + v)
  {
    assert (['\\', c] + body)[2..] == body && ([d] + v)[1..] == v;
  }

  /** s is a body for v, a quote, and the rest. */
  predicate Quoted(s: string, k: int, v: string, rest: string) {
    0 <= k < |s| && s[k] == '"' && s[k + 1..] == rest && Stands(s[..k], v)
  }

  lemma QuotedStep(s: string, width: nat, k: int, d: char, v: string, rest: string)
    requires 0 < width <= 2 && width <= |s| && Quoted(s[width..], k - width, v, rest)
    requires if width == 2 then s[0] == '\\' && Unescape(s[1]) == Some(d)
             else s[0] == d && d != '"' && d != '\n' && d != '\\'
    ensures Quoted(s, k, [d] + v, rest)
  {
    hide Stands, Unescape;
    if width == 2 {
      StandsEscaped(s[1], d, s[2..][..k - 2], v);
      assert s[..k] == [s[0], s[1]] + s[2..][..k - 2];
    } else {
      StandsPlain(d, s[1..][..k - 1], v);
      assert s[..k] == [s[0]] + s[1..][..k - 1];
    }
  }

  /** The lexer's scan of a string ends at the first quote that closes a body. */
  lemma {:induction false} ScanIs(s: string)
    ensures ScanString(s).Some? ==>
              Quoted(s, |s| - |ScanString(s).value.rest| - 1, ScanString(s).value.text, ScanString(s).value.rest)
    decreases |s|
  {
    hide Quoted, Unescape;
    if ScanString(s).Some? {
      if s[0] == '"' {
        ClosedAtOnce(s);
      } else {
        var width := if s[0] == '\\' then 2 else 1;
        ScanIs(s[width..]);
        var p := ScanString(s[width..]).value;
        var d := if width == 2 then Unescape(s[1]).value else s[0];
        QuotedStep(s, width, |s| - |p.rest| - 1, d, p.text, p.rest);
      }
    }
  }

  lemma ClosedAtOnce(s: string)
    requires s != "" && s[0] == '"'
    ensures Quoted(s, 0, "", s[1..])
  {
  }

  /** A body followed by a quote is what the scan finds. */
  lemma {:induction false} ScanFinds(s: string, k: nat, v: string)
    requires k < |s| && s[k] == '"' && Stands(s[..k], v)
    ensures ScanString(s) == Some(Scan(v, s[k + 1..]))
    decreases |s|
  {
    var body := s[..k];
    if k > 0 {
      var width := StandsSplit(body, v);
      assert body[0] == s[0] && (width == 2 ==> body[1] == s[1]);
      assert body[width..] == s[width..][..k - width];
      ScanFinds(s[width..], k - width, v[1..]);
      assert s[width..][k - width + 1..] == s[k + 1..];
      ScanStep(s, width, v[0]);
      assert v == [v[0]] + v[1..];
    }
  }

  lemma StandsSplit(body: string, v: string) returns (width: nat)
    requires body != "" && Stands(body, v)
    ensures width == (if body[0] == '\\' then 2 else 1) <= |body| && v != "" && Stands(body[width..], v[1..])
    ensures if width == 2 then Unescape(body[1]) == Some(v[0])
            else body[0] == v[0] && v[0] != '"' && v[0] != '\n' && v[0] != '\\'
  {
    width := if body[0] == '\\' then 2 else 1;
  }

  lemma ScanStep(s: string, width: nat, d: char)
    requires 0 < width <= 2 && width <= |s| && ScanString(s[width..]).Some?
    requires if width == 2 then s[0] == '\\' && Unescape(s[1]) == Some(d)
             else s[0] == d && d != '"' && d != '\n' && d != '\\'
    ensures var p := ScanString(s[width..]).value; ScanString(s) == Some(Scan([d] + p.text, p.rest))
  {
    hide Unescape;
  }

  /** A string word at the front of s, as the scan sees it. */
  lemma StringScans(s: string, n: nat, v: string)
    requires n <= |s| && Word(s[..n], String(v))
    ensures ScanString(s[1..]) == Some(Scan(v, s[n..])) && 2 <= n && s[0] == '"'
  {
    var w := s[..n];
    assert s[1..][..n - 2] == w[1..|w| - 1] && s[1..][n - 2] == w[|w| - 1];
    ScanFinds(s[1..], n - 2, v);
    assert s[1..][n - 2 + 1..] == s[n..];
  }

  /** Any word that begins with a quote is the string the scan finds. */
  lemma StringOnly(s: string, m: nat, u: Token)
    requires s != "" && s[0] == '"' && 0 < m <= |s| && Word(s[..m], u)
    ensures u.String? && ScanString(s[1..]) == Some(Scan(u.s, s[m..]))
  {
    hide ScanString, Stands;
    Begins(s[..m], u);
    StringScans(s, m, u.s);
  }

  lemma StringWord(s: string)
    requires s != "" && s[0] == '"' && ScanString(s[1..]).Some?
    ensures var p := ScanString(s[1..]).value;
            && |p.rest| < |s| && s[|s| - |p.rest|..] == p.rest && Word(s[..|s| - |p.rest|], String(p.text))
  {
    hide ScanString, Stands;
    var p := ScanString(s[1..]).value;
    ScanIs(s[1..]);
    assert Quoted(s[1..], |s| - 1 - |p.rest| - 1, p.text, p.rest);
    var n := |s| - |p.rest|;
    var w := s[..n];
    assert w[1..|w| - 1] == s[1..][..n - 2] && w[|w| - 1] == s[1..][n - 2];
  }

  lemma StringFirst(s: string)
    requires s != "" && s[0] == '"'
    ensures match ScanString(s[1..])
            case None => forall m: nat :: 0 < m <= |s| ==> !IsWord(s[..m])
            case Some(p) => |p.rest| < |s| && s[|s| - |p.rest|..] == p.rest && First(s, |s| - |p.rest|, String(p.text))
  {
    hide ScanString, Word;
    forall m: nat | 0 < m <= |s| && IsWord(s[..m])
      ensures ScanString(s[1..]).Some? && m == |s| - |ScanString(s[1..]).value.rest|
    {
      var u :| Word(s[..m], u);
      StringOnly(s, m, u);
    }
    if ScanString(s[1..]).Some? { StringWord(s); }
  }

  lemma SymbolFirst(s: string)
    requires s != "" && !Letter(s[0]) && !Numeric(s[0]) && s[0] != '"'
    ensures match Symbol(s)
            case None => forall m: nat :: 0 < m <= |s| ==> !IsWord(s[..m])
            case Some(p) => First(s, p.1, p.0)
  {
    forall m: nat, u | 0 < m <= |s| && Word(s[..m], u) ensures m <= 2 && Symbolic(s[..m], u) { Begins(s[..m], u); }
    forall m: nat, u | 0 < m <= |s| && Word(s[..m], u) ensures SymbolAt(s, m, u) { SymbolWord(s, m, u); }
    if Symbol(s).Some? { SymbolTaken(s); }
  }

  /** The symbol is the lexer's, or the lexer's is the longer one. */
  ghost predicate SymbolAt(s: string, m: nat, u: Token)
    requires s != ""
  {
    Symbol(s).Some? && m <= Symbol(s).value.1
  }

  lemma SymbolWord(s: string, m: nat, u: Token)
    requires 0 < m <= |s| && m <= 2 && Symbolic(s[..m], u)
    ensures SymbolAt(s, m, u)
  {
    assert s[..m][0] == s[0] && (m == 2 ==> s[..m][1] == s[1]);
  }

  lemma SymbolTaken(s: string)
    requires s != "" && Symbol(s).Some?
    ensures Word(s[..Symbol(s).value.1], Symbol(s).value.0)
  {
    assert s[..1] == [s[0]] && (|s| > 1 ==> s[..2] == [s[0], s[1]]);
  }

  lemma {:induction false} LineLenIs(s: string, n: nat)
    requires Line(s, n)
    ensures LineLen(s) == n
    decreases |s|
  {
    if n > 0 {
      assert s[..n][0] == s[0] && s[..n][1..] == s[1..][..n - 1];
      LineLenIs(s[1..], n - 1);
    }
  }

  lemma {:induction false} LineLenEnds(s: string)
    ensures Line(s, LineLen(s))
    decreases |s|
  {
    if s != "" && s[0] != '\n' {
      LineLenEnds(s[1..]);
      var n := LineLen(s);
      assert s[..n] == [s[0]] + s[1..][..n - 1];
    }
  }

  // ----- the lexer

  lemma StepName(s: string)
    requires s != "" && Letter(s[0])
    ensures var n := IdentLen(s);
            Lex(s) == Prepend([if s[..n] in KEYWORDS then Keyword(s[..n]) else Ident(s[..n])], Lex(s[n..]))
  {
    hide IdentLen, KEYWORDS;
  }

  lemma StepNumber(s: string)
    requires s != "" && Numeric(s[0])
    ensures Lex(s) == Prepend([Number(s[..NumberLen(s)])], Lex(s[NumberLen(s)..]))
  {
    hide NumberLen;
  }

  lemma StepString(s: string)
    requires s != "" && s[0] == '"' && !("\"\"\"" <= s)
    ensures Lex(s) == match ScanString(s[1..]) case None => None case Some(p) => Prepend([String(p.text)], Lex(p.rest))
  {
    hide ScanString;
    assert |s| > 2 && s[1] == '"' && s[2] == '"' ==> "\"\"\"" <= s;
  }

  lemma StepSymbol(s: string)
    requires s != "" && !Blank(s[0]) && !("//" <= s) && !Letter(s[0]) && !Numeric(s[0]) && s[0] != '"'
    ensures Lex(s) == match Symbol(s) case None => None case Some(p) => Prepend([p.0], Lex(s[p.1..]))
  {
    hide Symbol;
    assert |s| > 1 && s[0] == '/' && s[1] == '/' ==> "//" <= s;
  }

  /** The lexer's step at a word: its first token and the rest, or nothing. */
  lemma LexWord(s: string, n: nat, t: Token)
    requires s != "" && !Blank(s[0]) && !("//" <= s) && !("\"\"\"" <= s)
    requires 0 < n <= |s| && First(s, n, t)
    ensures Lex(s) == Prepend([t], Lex(s[n..]))
  {
    hide Lex, First, Symbol, ScanString, NumberLen, IdentLen, Word, KEYWORDS, IsWord, Prepend, Numeric, Blank;
    if Letter(s[0]) {
      StepName(s);
      NameFirst(s);
      var name := s[..IdentLen(s)];
      FirstOnce(s, n, t, |name|, if name in KEYWORDS then Keyword(name) else Ident(name));
    } else if Numeric(s[0]) {
      StepNumber(s);
      NumberFirst(s);
      FirstOnce(s, n, t, NumberLen(s), Number(s[..NumberLen(s)]));
    } else if s[0] == '"' {
      StepString(s);
      StringFirst(s);
      WordThere(s, n, t);
      var p := ScanString(s[1..]).value;
      FirstOnce(s, n, t, |s| - |p.rest|, String(p.text));
    } else {
      StepSymbol(s);
      SymbolFirst(s);
      WordThere(s, n, t);
      FirstOnce(s, n, t, Symbol(s).value.1, Symbol(s).value.0);
    }
  }

  lemma WordThere(s: string, n: nat, t: Token)
    requires n <= |s| && First(s, n, t)
    ensures IsWord(s[..n])
  {
  }

  /** Where the lexer goes on, a longest word is there. */
  lemma WordFound(s: string) returns (n: nat, t: Token)
    requires s != "" && !Blank(s[0]) && !("//" <= s) && !("\"\"\"" <= s) && Lex(s).Some?
    ensures 0 < n <= |s| && First(s, n, t)
  {
    hide First, Symbol, ScanString, NumberLen, IdentLen, Lex, KEYWORDS;
    if Letter(s[0]) {
      NameFirst(s);
      n, t := IdentLen(s), if s[..IdentLen(s)] in KEYWORDS then Keyword(s[..IdentLen(s)]) else Ident(s[..IdentLen(s)]);
    } else if Numeric(s[0]) {
      NumberFirst(s);
      n, t := NumberLen(s), Number(s[..NumberLen(s)]);
    } else if s[0] == '"' {
      StepString(s);
      StringFirst(s);
      var p := ScanString(s[1..]).value;
      n, t := |s| - |p.rest|, String(p.text);
    } else {
      StepSymbol(s);
      SymbolFirst(s);
      n, t := Symbol(s).value.1, Symbol(s).value.0;
    }
  }

  lemma TripleQuote(s: string)
    requires "\"\"\"" <= s
    ensures Lex(s).None?
  {
    assert s[0] == '"' && s[1] == '"' && s[2] == '"';
  }

  lemma CommentSkipped(s: string)
    requires "//" <= s
    ensures 0 < LineLen(s) && Lex(s) == Lex(s[LineLen(s)..])
  {
    assert s[0] == '/' && s[1] == '/';
  }

  lemma BlankSkipped(s: string)
    requires s != "" && Blank(s[0])
    ensures Lex(s) == Lex(s[1..])
  {
  }

  /** The lexer's tokens are the longest words in order; where there is no word it refuses. */
  lemma {:induction false} LexIff(s: string, ts: seq<Token>)
    ensures Lex(s) == Some(ts) <==> Tokenized(s, ts)
    decreases |s|
  {
    hide Lex, First, Line, LineLen;
    if s == "" {
      LexNothing();
    } else if Blank(s[0]) {
      BlankSkipped(s);
      LexIff(s[1..], ts);
    } else if "//" <= s {
      CommentSkipped(s);
      LineLenEnds(s);
      forall n: nat | Line(s, n) ensures n == LineLen(s) { LineLenIs(s, n); }
      LexIff(s[LineLen(s)..], ts);
    } else if "\"\"\"" <= s {
      TripleQuote(s);
    } else {
      WordIff(s, ts);
    }
  }

  lemma {:induction false} WordIff(s: string, ts: seq<Token>)
    requires s != "" && !Blank(s[0]) && !("//" <= s) && !("\"\"\"" <= s)
    ensures Lex(s) == Some(ts) <==> Tokenized(s, ts)
    decreases |s|, 0
  {
    hide Lex, First, Line;
    if Lex(s) == Some(ts) {
      var n, t := WordFound(s);
      LexWord(s, n, t);
      assert ts[0] == t && Lex(s[n..]) == Some(ts[1..]);
      LexIff(s[n..], ts[1..]);
    }
    if Tokenized(s, ts) {
      var n: nat :| 0 < n <= |s| && First(s, n, ts[0]) && Tokenized(s[n..], ts[1..]);
      LexWord(s, n, ts[0]);
      LexIff(s[n..], ts[1..]);
      assert ts == [ts[0]] + ts[1..];
    }
  }

  /** Reading accepts a text exactly when its longest words spell an expression, and gives that. */
  lemma ReadIff(s: string, e: Expr)
    ensures Read(s) == Some(e) <==> exists ts :: Tokenized(s, ts) && Grammar.Or(e, ts)
  {
    hide Lex, Tokenized, Grammar.Or, ParseExpr;
    forall ts ensures Lex(s) == Some(ts) <==> Tokenized(s, ts) { LexIff(s, ts); }
    forall ts ensures ParseExpr(ts) == Some(Parsed(e, [])) <==> Grammar.Or(e, ts) { Grammar.ParsesIff(e, ts); }
    if Read(s) == Some(e) { assert Tokenized(s, Lex(s).value) && Grammar.Or(e, Lex(s).value); }
  }
}
