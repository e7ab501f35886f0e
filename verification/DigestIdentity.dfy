/** What a digest identifies (internal/execir/digest.go): on programs with plain names, in
    canonical arrangement, the text that is hashed determines the program. */
module DigestIdentity {
  import opened Values
  import opened Common
  import opened ExecIR
  import opened GraphOrder
  import opened Reorder
  import opened Codec
  import Keys
  import Compare
  import opened Digest

  // ----- cutting equal texts

  /** Equal texts open with equal characters. */
  lemma Opens(a: string, x: string, b: string, y: string, n: nat)
    requires a + x == b + y && n <= |a| && n <= |b|
    ensures a[..n] == b[..n]
  {
    assert a[..n] == (a + x)[..n] && b[..n] == (b + y)[..n];
  }

  // ----- words

  datatype Class = Name | Dotted | Digits | Floaty

  predicate Digit09(c: char) {
    '0' <= c <= '9'
  }

  predicate NameChar(c: char) {
    'a' <= c <= 'z' || 'A' <= c <= 'Z' || Digit09(c) || c == '_' || c == '-'
  }

  predicate In(k: Class, c: char) {
    match k
    case Name => NameChar(c)
    case Dotted => NameChar(c) || c == '.' || c == '/'
    case Digits => Digit09(c) || c == '-'
    case Floaty => Digit09(c) || c in {'+', '-', '.', 'e', 'I', 'n', 'f', 'N', 'a'}
  }

  predicate Made(k: Class, s: string) {
    forall i :: 0 <= i < |s| ==> In(k, s[i])
  }

  predicate Stops(k: Class, x: string) {
    x == "" || !In(k, x[0])
  }

  lemma {:induction false} WordCut(k: Class, a: string, b: string, x: string, y: string)
    requires Made(k, a) && Made(k, b) && Stops(k, x) && Stops(k, y) && a + x == b + y
    ensures a == b && x == y
    decreases |a|
  {
    assert a != "" ==> (a + x)[0] == a[0];
    assert b != "" ==> (b + y)[0] == b[0];
    if a != "" && b != "" {
      assert (a + x)[1..] == a[1..] + x && (b + y)[1..] == b[1..] + y;
      WordCut(k, a[1..], b[1..], x, y);
      assert a == [a[0]] + a[1..] && b == [b[0]] + b[1..];
    } else if a != "" {
      assert false;
    } else if b != "" {
      assert false;
    } else {
      assert a + x == x && b + y == y;
    }
  }

  predicate Word(s: string) {
    s != "" && Made(Name, s)
  }

  predicate Words(xs: seq<string>) {
    forall i :: 0 <= i < |xs| ==> Word(xs[i])
  }

  predicate Separates(sep: string) {
    |sep| == 1 && !NameChar(sep[0])
  }

  /** What may follow a joined list: neither a name character nor the separator. */
  predicate EndsList(sep: string, x: string) {
    x == "" || (!NameChar(x[0]) && [x[0]] != sep)
  }

  lemma {:induction false} JoinCut(xs: seq<string>, ys: seq<string>, sep: string, x: string, y: string)
    requires Words(xs) && Words(ys) && Separates(sep) && EndsList(sep, x) && EndsList(sep, y)
    requires JoinText(xs, sep) + x == JoinText(ys, sep) + y
    ensures xs == ys && x == y
    decreases |xs|
  {
    if xs == [] || ys == [] {
      JoinEmpty(xs, ys, sep, x, y);
    } else {
      var r := if |xs| == 1 then x else sep + (JoinText(xs[1..], sep) + x);
      var t := if |ys| == 1 then y else sep + (JoinText(ys[1..], sep) + y);
      JoinHead(xs, sep, x);
      JoinHead(ys, sep, y);
      WordCut(Name, xs[0], ys[0], r, t);
      if |xs| > 1 && |ys| > 1 {
        Cut(sep, JoinText(xs[1..], sep) + x, JoinText(ys[1..], sep) + y);
        JoinCut(xs[1..], ys[1..], sep, x, y);
        assert xs == [xs[0]] + xs[1..] && ys == [ys[0]] + ys[1..];
      } else if |xs| == 1 && |ys| == 1 {
        assert xs == [xs[0]] && ys == [ys[0]];
      } else if |xs| > 1 {
        assert false;
      } else {
        assert false;
      }
    }
  }

  lemma JoinHead(xs: seq<string>, sep: string, x: string)
    requires xs != [] && Words(xs) && Separates(sep) && EndsList(sep, x)
    ensures var r := if |xs| == 1 then x else sep + (JoinText(xs[1..], sep) + x);
            JoinText(xs, sep) + x == xs[0] + r && Stops(Name, r)
  {
    if |xs| > 1 { Glue4(xs[0], sep, JoinText(xs[1..], sep), x); }
  }

  lemma JoinEmpty(xs: seq<string>, ys: seq<string>, sep: string, x: string, y: string)
    requires Words(xs) && Words(ys) && Separates(sep) && EndsList(sep, x) && EndsList(sep, y) && (xs == [] || ys == [])
    requires JoinText(xs, sep) + x == JoinText(ys, sep) + y
    ensures xs == ys && x == y
  {
    assert "" + x == x && "" + y == y;
    if xs != [] {
      JoinHead(xs, sep, x);
      assert false;
    } else if ys != [] {
      JoinHead(ys, sep, y);
      assert false;
    }
  }

  // ----- spellings

  /** A float64: not a number, an infinity, or a binary64 number. */
  ghost predicate IsFloat64(f: Float) {
    f.Fin? ==> Compare.IsBinary64(f.r)
  }

  /** Quoted strings show where they end; the spelling of a float64 is made of float characters
      and differs from that of every other float64. */
  ghost predicate IsStrconv(sp: Spell) {
    && (forall a, b, x, y :: sp.quote(a) + x == sp.quote(b) + y ==> a == b && x == y)
    && (forall f :: IsFloat64(f) ==> Made(Floaty, sp.float(f)))
    && (forall f, g :: IsFloat64(f) && IsFloat64(g) && sp.float(f) == sp.float(g) ==> f == g)
  }

  lemma QuoteCut(sp: Spell, a: string, b: string, x: string, y: string)
    requires IsStrconv(sp) && sp.quote(a) + x == sp.quote(b) + y
    ensures a == b && x == y
  {
  }

  lemma IntCut(m: int, n: int, x: string, y: string)
    requires Stops(Digits, x) && Stops(Digits, y) && FormatInt(m) + x == FormatInt(n) + y
    ensures m == n && x == y
  {
    WordCut(Digits, FormatInt(m), FormatInt(n), x, y);
    FormatIntInjective(m, n);
  }

  lemma FormatIntInjective(m: int, n: int)
    requires FormatInt(m) == FormatInt(n)
    ensures m == n
  {
    var s := FormatInt(m);
    assert (m < 0 ==> s[0] == '-') && (m >= 0 ==> s == Keys.Decimal(m) && s[0] != '-');
    assert (n < 0 ==> s[0] == '-') && (n >= 0 ==> s == Keys.Decimal(n) && s[0] != '-');
    if m < 0 && n < 0 {
      assert s[1..] == Keys.Decimal(-m) && s[1..] == Keys.Decimal(-n);
      Keys.DecimalInjective(-m, -n);
    } else if m >= 0 && n >= 0 {
      Keys.DecimalInjective(m, n);
    }
  }

  // ----- plain programs in canonical arrangement

  ghost predicate PlainScalar(v: Val) {
    !v.Arr? && !v.Obj? && (v.Flt? ==> IsFloat64(v.f))
  }

  ghost predicate PlainValue(v: Value) {
    match v
    case Ref(path) => Words(path)
    case Lit(x) => PlainScalar(x)
    case Object(fields) => SortFields(fields) == fields
    && forall i :: 0 <= i < |fields| ==> Made(Name, fields[i].key) && PlainValue(fields[i].val)
    case List(elems) => forall i :: 0 <= i < |elems| ==> PlainValue(elems[i])
    case Template(parts) => forall i :: 0 <= i < |parts| ==> PlainValue(parts[i])
    case NilValue => true
  }

  ghost predicate PlainCondition(e: Expr) {
    match e
    case Leaf(v) => PlainValue(v)
    case Not(x) => PlainCondition(x)
    case BinOp(op, x, y) => !op.OtherOp? && PlainCondition(x) && PlainCondition(y)
    case NilExpr => true
  }

  ghost predicate PlainArguments(args: Args) {
    forall k :: k in args ==> Made(Name, k) && PlainValue(args[k])
  }

  ghost predicate PlainCall(c: Call) {
    && Made(Name, c.bind) && PlainArguments(c.args)
    && match c
       case Tool(_, uses, _) => Made(Dotted, uses)
       case Agent(_, agent, _, _) => Made(Dotted, agent)
       case Workflow(_, workflow, _, _, _) => Made(Dotted, workflow)
       case Approval(_, _, redact, _) => Words(redact) && SortStrings(redact) == redact
  }

  // ----- values

  predicate EndsValue(x: string) {
    x == "" || !(NameChar(x[0]) || x[0] == '.' || x[0] == '+')
  }

  /** What a value's text needs of the text after it. */
  predicate Ends(v: Value, x: string) {
    match v
    case Ref(_) => EndsValue(x)
    case Lit(Int(_)) => Stops(Digits, x)
    case Lit(Flt(_)) => Stops(Floaty, x)
    case _ => true
  }

  lemma EndsAny(v: Value, x: string)
    requires EndsValue(x)
    ensures Ends(v, x)
  {
  }

  function LitTag(v: Val): char {
    match v case Str(_) => 's' case Int(_) => 'i' case Flt(_) => 'f' case Bool(_) => 'b' case _ => 'x'
  }

  lemma LitCut(sp: Spell, v: Val, w: Val, x: string, y: string)
    requires IsStrconv(sp) && PlainScalar(v) && PlainScalar(w) && Ends(Lit(v), x) && Ends(Lit(w), y)
    requires LitKey(sp, v) + x == LitKey(sp, w) + y
    ensures v == w && x == y
  {
    hide IsStrconv, IsFloat64;
    var a, b := LitKey(sp, v), LitKey(sp, w);
    assert a[0] == LitTag(v) && b[0] == LitTag(w);
    Opens(a, x, b, y, 1);
    assert a[..1][0] == b[..1][0];
    match v
    case Str(s) =>
      Glue("s", sp.quote(s), x);
      Glue("s", sp.quote(w.s), y);
      Cut("s", sp.quote(s) + x, sp.quote(w.s) + y);
      QuoteCut(sp, s, w.s, x, y);
    case Int(i) =>
      Glue("i", FormatInt(i), x);
      Glue("i", FormatInt(w.i), y);
      Cut("i", FormatInt(i) + x, FormatInt(w.i) + y);
      IntCut(i, w.i, x, y);
    case Flt(f) =>
      Glue("f", sp.float(f), x);
      Glue("f", sp.float(w.f), y);
      Cut("f", sp.float(f) + x, sp.float(w.f) + y);
      FloatCut(sp, f, w.f, x, y);
    case Bool(p) =>
      var s, t := if p then "true" else "false", if w.b then "true" else "false";
      Glue("b", s, x);
      Glue("b", t, y);
      Cut("b", s + x, t + y);
      Opens(s, x, t, y, 1);
      assert s[..1][0] == t[..1][0];
      Cut(s, x, y);
    case Null => Cut("x<nil>", x, y);
  }

  lemma FloatCut(sp: Spell, f: Float, g: Float, x: string, y: string)
    requires IsStrconv(sp) && IsFloat64(f) && IsFloat64(g) && Stops(Floaty, x) && Stops(Floaty, y)
    requires sp.float(f) + x == sp.float(g) + y
    ensures f == g && x == y
  {
    hide IsFloat64;
    WordCut(Floaty, sp.float(f), sp.float(g), x, y);
  }

  function ValTag(v: Value): string {
    match v
    case Ref(_) => "ref" case Lit(_) => "lit" case Object(_) => "obj" case List(_) => "lis" case Template(_) =>
        "tmp" case NilValue => "nil"
  }

  lemma ValOpens(sp: Spell, v: Value)
    ensures |ValText(sp, v)| >= 3 && ValText(sp, v)[..3] == ValTag(v)
  {
  }

  lemma {:induction false} ValCut(sp: Spell, v: Value, w: Value, x: string, y: string)
    requires IsStrconv(sp) && PlainValue(v) && PlainValue(w) && Ends(v, x) && Ends(w, y)
    requires ValText(sp, v) + x == ValText(sp, w) + y
    ensures v == w && x == y
    decreases v, 0
  {
    hide IsStrconv;
    ValOpens(sp, v);
    ValOpens(sp, w);
    Opens(ValText(sp, v), x, ValText(sp, w), y, 3);
    match v
    case Ref(path) =>
      Glue("ref:", JoinText(path, "."), x);
      Glue("ref:", JoinText(w.path, "."), y);
      Cut("ref:", JoinText(path, ".") + x, JoinText(w.path, ".") + y);
      JoinCut(path, w.path, ".", x, y);
    case Lit(a) =>
      Glue("lit:", LitKey(sp, a), x);
      Glue("lit:", LitKey(sp, w.v), y);
      Cut("lit:", LitKey(sp, a) + x, LitKey(sp, w.v) + y);
      LitCut(sp, a, w.v, x, y);
    case Object(fs) => ObjectCut(sp, fs, w.fields, x, y);
    case List(es) =>
      Glue4("list[", ValsText(sp, es, ","), "]", x);
      Glue4("list[", ValsText(sp, w.elems, ","), "]", y);
      Cut("list[", ValsText(sp, es, ",") + ("]" + x), ValsText(sp, w.elems, ",") + ("]" + y));
      ValsCut(sp, es, w.elems, ",", "]", x, y);
    case Template(ps) =>
      Glue4("tmpl(", ValsText(sp, ps, ";"), ")", x);
      Glue4("tmpl(", ValsText(sp, w.parts, ";"), ")", y);
      Cut("tmpl(", ValsText(sp, ps, ";") + (")" + x), ValsText(sp, w.parts, ";") + (")" + y));
      ValsCut(sp, ps, w.parts, ";", ")", x, y);
    case NilValue => Cut("nil", x, y);
  }

  predicate Mark(s: string) {
    |s| == 1 && s[0] in {',', ';', ']', ')', '}'}
  }

  /** Items each followed by `end`, then the closing mark. */
  lemma {:induction false} ValsCut(sp: Spell, vs: seq<Value>, ws: seq<Value>, end: string, close: string, x: string,
      y: string)
    requires IsStrconv(sp) && Mark(end) && Mark(close)
    requires (forall i :: 0 <= i < |vs| ==> PlainValue(vs[i])) && (forall i :: 0 <= i < |ws| ==> PlainValue(ws[i]))
    requires ValsText(sp, vs, end) + (close + x) == ValsText(sp, ws, end) + (close + y)
    ensures vs == ws && x == y
    decreases vs, 1
  {
    hide IsStrconv, ValText, PlainValue;
    if vs != [] && ws != [] {
      var r, t := ValsText(sp, vs[1..], end) + (close + x), ValsText(sp, ws[1..], end) + (close + y);
      Glue4(ValText(sp, vs[0]), end, ValsText(sp, vs[1..], end), close + x);
      Glue4(ValText(sp, ws[0]), end, ValsText(sp, ws[1..], end), close + y);
      EndsAny(vs[0], end + r);
      EndsAny(ws[0], end + t);
      ValCut(sp, vs[0], ws[0], end + r, end + t);
      Cut(end, r, t);
      ValsCut(sp, vs[1..], ws[1..], end, close, x, y);
      assert vs == [vs[0]] + vs[1..] && ws == [ws[0]] + ws[1..];
    } else if vs != [] {
      NotClosed(sp, vs, end, close, x, y);
      assert false;
    } else if ws != [] {
      NotClosed(sp, ws, end, close, y, x);
      assert false;
    } else {
      assert "" + (close + x) == close + x && "" + (close + y) == close + y;
      Cut(close, x, y);
    }
  }

  lemma NotClosed(sp: Spell, vs: seq<Value>, end: string, close: string, x: string, y: string)
    requires vs != [] && Mark(close)
    ensures ValsText(sp, vs, end) + (close + x) != "" + (close + y)
  {
    ValOpens(sp, vs[0]);
    var s := ValsText(sp, vs, end) + (close + x);
    assert s[0] == ValText(sp, vs[0])[..3][0];
    assert ("" + (close + y))[0] == close[0];
  }

  lemma {:induction false} ObjectCut(sp: Spell, fs: seq<Field>, gs: seq<Field>, x: string, y: string)
    requires IsStrconv(sp) && PlainValue(Object(fs)) && PlainValue(Object(gs))
    requires ValText(sp, Object(fs)) + x == ValText(sp, Object(gs)) + y
    ensures fs == gs && x == y
    decreases fs, 3
  {
    hide IsStrconv, SortFields;
    SortFieldEntries(sp, fs);
    SortFieldEntries(sp, gs);
    var a, b := EntriesText(FieldEntries(sp, fs)), EntriesText(FieldEntries(sp, gs));
    Glue4("obj{", a, "}", x);
    Glue4("obj{", b, "}", y);
    Cut("obj{", a + ("}" + x), b + ("}" + y));
    FieldsCut(sp, fs, gs, x, y);
  }

  lemma {:induction false} FieldsCut(sp: Spell, fs: seq<Field>, gs: seq<Field>, x: string, y: string)
    requires IsStrconv(sp)
    requires forall i :: 0 <= i < |fs| ==> Made(Name, fs[i].key) && PlainValue(fs[i].val)
    requires forall i :: 0 <= i < |gs| ==> Made(Name, gs[i].key) && PlainValue(gs[i].val)
    requires EntriesText(FieldEntries(sp, fs)) + ("}" + x) == EntriesText(FieldEntries(sp, gs)) + ("}" + y)
    ensures fs == gs && x == y
    decreases fs, 2
  {
    hide IsStrconv, ValText, PlainValue;
    if fs != [] && gs != [] {
      var r, t := EntriesText(FieldEntries(sp, fs[1..])) + ("}" + x),
          EntriesText(FieldEntries(sp, gs[1..])) + ("}" + y);
      EntryShape(sp, fs, "}" + x);
      EntryShape(sp, gs, "}" + y);
      WordCut(Name, fs[0].key, gs[0].key, "=" + (ValText(sp, fs[0].val) + ("," + r)),
          "=" + (ValText(sp, gs[0].val) + ("," + t)));
      Cut("=", ValText(sp, fs[0].val) + ("," + r), ValText(sp, gs[0].val) + ("," + t));
      EndsAny(fs[0].val, "," + r);
      EndsAny(gs[0].val, "," + t);
      ValCut(sp, fs[0].val, gs[0].val, "," + r, "," + t);
      Cut(",", r, t);
      FieldsCut(sp, fs[1..], gs[1..], x, y);
      assert fs == [fs[0]] + fs[1..] && gs == [gs[0]] + gs[1..];
    } else if fs != [] {
      EntryNotClosed(sp, fs, x, y);
      assert false;
    } else if gs != [] {
      EntryNotClosed(sp, gs, y, x);
      assert false;
    } else {
      assert "" + ("}" + x) == "}" + x && "" + ("}" + y) == "}" + y;
      Cut("}", x, y);
    }
  }

  lemma EntryShape(sp: Spell, fs: seq<Field>, z: string)
    requires fs != []
    ensures EntriesText(FieldEntries(sp, fs)) + z ==
        fs[0].key + ("=" + (ValText(sp, fs[0].val) + ("," + (EntriesText(FieldEntries(sp, fs[1..])) + z))))
  {
    assert FieldEntries(sp, fs)[1..] == FieldEntries(sp, fs[1..]);
    Glue6(fs[0].key, "=", ValText(sp, fs[0].val), ",", EntriesText(FieldEntries(sp, fs[1..])), z);
  }

  lemma EntryNotClosed(sp: Spell, fs: seq<Field>, x: string, y: string)
    requires fs != [] && Made(Name, fs[0].key)
    ensures EntriesText(FieldEntries(sp, fs)) + ("}" + x) != "" + ("}" + y)
  {
    EntryShape(sp, fs, "}" + x);
    var s := EntriesText(FieldEntries(sp, fs)) + ("}" + x);
    if fs[0].key == "" { assert s[0] == '='; } else { assert s[0] == fs[0].key[0] && In(Name, s[0]); }
    assert ("" + ("}" + y))[0] == '}';
  }

  // ----- conditions

  predicate EndsCond(e: Expr, x: string) {
    match e
    case Leaf(NilValue) => x == "" || x[0] != 'e'
    case Leaf(v) => Ends(v, x)
    case NilExpr => x == "" || x[0] != 'e'
    case _ => true
  }

  lemma EndsAnyCond(e: Expr, x: string)
    requires EndsValue(x)
    ensures EndsCond(e, x)
  {
    if e.Leaf? { EndsAny(e.v, x); }
  }

  lemma ExprOpens(sp: Spell, e: Expr)
    ensures var t := ExprText(sp, e); |t| >= 2 && t[0] in {'r', 'l', 'o', 't', 'n', '!', '('}
    ensures var t := ExprText(sp, e); (e.Not? <==> t[0] == '!') && (e.BinOp? <==> t[0] == '(')
  {
    if e.Leaf? {
      ValOpens(sp, e.v);
      assert ExprText(sp, e)[0] == ExprText(sp, e)[..3][0];
    }
  }

  lemma {:induction false} ExprCut(sp: Spell, e: Expr, f: Expr, x: string, y: string)
    requires IsStrconv(sp) && PlainCondition(e) && PlainCondition(f) && EndsCond(e, x) && EndsCond(f, y)
    requires ExprText(sp, e) + x == ExprText(sp, f) + y
    ensures e == f && x == y
    decreases e, 0
  {
    hide IsStrconv, ValText;
    ExprOpens(sp, e);
    ExprOpens(sp, f);
    Opens(ExprText(sp, e), x, ExprText(sp, f), y, 1);
    assert ExprText(sp, e)[..1][0] == ExprText(sp, f)[..1][0];
    if e.Not? {
      NotCut(sp, e.x, f.x, x, y);
    } else if e.BinOp? {
      BinCut(sp, e, f, x, y);
    } else if e.Leaf? && f.Leaf? {
      ValCut(sp, e.v, f.v, x, y);
    } else if e.Leaf? {
      NilIsNotLeaf(sp, e.v, y, x);
    } else if f.Leaf? {
      NilIsNotLeaf(sp, f.v, x, y);
    } else {
      Cut("nilexpr", x, y);
    }
  }

  lemma NilIsNotLeaf(sp: Spell, v: Value, x: string, y: string)
    requires EndsCond(Leaf(v), y)
    ensures "nilexpr" + x != ValText(sp, v) + y
  {
    ValOpens(sp, v);
    var s, t := "nilexpr" + x, ValText(sp, v) + y;
    assert s[..3] == "nil" && s[3] == 'e' && t[..3] == ValTag(v);
    if v == NilValue && y != "" { assert t[3] == y[0]; }
  }

  lemma {:induction false} NotCut(sp: Spell, a: Expr, b: Expr, x: string, y: string)
    requires IsStrconv(sp) && PlainCondition(a) && PlainCondition(b)
    requires ExprText(sp, Not(a)) + x == ExprText(sp, Not(b)) + y
    ensures a == b && x == y
    decreases a, 1
  {
    hide IsStrconv, PlainCondition;
    var s, t := ExprText(sp, a), ExprText(sp, b);
    Glue4("!(", s, ")", x);
    Glue4("!(", t, ")", y);
    Cut("!(", s + (")" + x), t + (")" + y));
    EndsAnyCond(a, ")" + x);
    EndsAnyCond(b, ")" + y);
    ExprCut(sp, a, b, ")" + x, ")" + y);
    Cut(")", x, y);
  }

  lemma {:induction false} BinCut(sp: Spell, e: Expr, f: Expr, x: string, y: string)
    requires IsStrconv(sp) && e.BinOp? && f.BinOp? && PlainCondition(e) && PlainCondition(f)
    requires ExprText(sp, e) + x == ExprText(sp, f) + y
    ensures e == f && x == y
    decreases e, 0, 0
  {
    hide IsStrconv;
    var a, b, c, d := ExprText(sp, e.x), ExprText(sp, f.x), ExprText(sp, e.y), ExprText(sp, f.y);
    var o, p := OpText(e.op), OpText(f.op);
    Glue6("(", a, o, c, ")", x);
    Glue6("(", b, p, d, ")", y);
    Cut("(", a + (o + (c + (")" + x))), b + (p + (d + (")" + y))));
    EndsAnyCond(e.x, o + (c + (")" + x)));
    EndsAnyCond(f.x, p + (d + (")" + y)));
    ExprCut(sp, e.x, f.x, o + (c + (")" + x)), p + (d + (")" + y)));
    ExprOpens(sp, e.y);
    ExprOpens(sp, f.y);
    OpCut(e.op, f.op, c + (")" + x), d + (")" + y));
    EndsAnyCond(e.y, ")" + x);
    EndsAnyCond(f.y, ")" + y);
    ExprCut(sp, e.y, f.y, ")" + x, ")" + y);
    Cut(")", x, y);
  }

  lemma OpCut(o: Op, p: Op, x: string, y: string)
    requires !o.OtherOp? && !p.OtherOp? && x != "" && y != "" && x[0] != '=' && y[0] != '='
    requires OpText(o) + x == OpText(p) + y
    ensures o == p && x == y
  {
    var s := OpText(o) + x;
    assert s[0] == OpText(o)[0] && s[0] == OpText(p)[0];
    assert s[1] == (if |OpText(o)| == 2 then OpText(o)[1] else x[0]);
    assert s[1] == (if |OpText(p)| == 2 then OpText(p)[1] else y[0]);
    assert o == p;
    Cut(OpText(o), x, y);
  }

  // ----- a condition directly before "then"

  /** The path with "then" run into its last segment. */
  function RunOn(path: seq<string>): (r: seq<string>)
    ensures |r| >= 1
  {
    if path == [] then ["then"] else path[..|path| - 1] + [path[|path| - 1] + "then"]
  }

  lemma {:induction false} JoinRunOn(path: seq<string>)
    ensures JoinText(path, ".") + "then" == JoinText(RunOn(path), ".")
    decreases |path|
  {
    if |path| > 1 {
      JoinRunOn(path[1..]);
      assert RunOn(path)[1..] == RunOn(path[1..]) && RunOn(path)[0] == path[0];
      Glue4(path[0], ".", JoinText(path[1..], "."), "then");
      Glue(path[0], ".", JoinText(RunOn(path[1..]), "."));
    }
  }

  lemma RunOnWords(path: seq<string>)
    requires Words(path)
    ensures Words(RunOn(path))
  {
    var r := RunOn(path);
    forall i | 0 <= i < |r| ensures Word(r[i]) {
      if i < |path| - 1 { assert r[i] == path[i]; } else if path != [] { assert Word(path[|path| - 1]); }
    }
  }

  lemma RunOnInjective(p: seq<string>, q: seq<string>)
    requires Words(p) && Words(q) && RunOn(p) == RunOn(q)
    ensures p == q
  {
    var r := RunOn(p);
    var last := r[|r| - 1];
    assert p != [] ==> Word(p[|p| - 1]) && last == p[|p| - 1] + "then" && |last| > 4;
    assert q != [] ==> Word(q[|q| - 1]) && last == q[|q| - 1] + "then" && |last| > 4;
    assert p == [] <==> last == "then" by { assert |"then"| == 4; }
    assert q == [] <==> last == "then" by { assert |"then"| == 4; }
    if p != [] {
      assert p[|p| - 1] == last[..|last| - 4] && q[|q| - 1] == last[..|last| - 4];
      assert p == r[..|r| - 1] + [p[|p| - 1]] && q == r[..|r| - 1] + [q[|q| - 1]];
    }
  }

  lemma RefThenCut(p: seq<string>, q: seq<string>, x: string, y: string)
    requires Words(p) && Words(q) && JoinText(p, ".") + ("then" + ("{" + x)) == JoinText(q, ".") + ("then" + ("{" + y))
    ensures p == q && x == y
  {
    hide JoinText;
    Glue(JoinText(p, "."), "then", "{" + x);
    Glue(JoinText(q, "."), "then", "{" + y);
    JoinRunOn(p);
    JoinRunOn(q);
    RunOnWords(p);
    RunOnWords(q);
    JoinCut(RunOn(p), RunOn(q), ".", "{" + x, "{" + y);
    RunOnInjective(p, q);
    Cut("{", x, y);
  }

  lemma CondThenCut(sp: Spell, e: Expr, f: Expr, x: string, y: string)
    requires IsStrconv(sp) && PlainCondition(e) && PlainCondition(f)
    requires ExprText(sp, e) + ("then" + ("{" + x)) == ExprText(sp, f) + ("then" + ("{" + y))
    ensures e == f && x == y
  {
    hide IsStrconv;
    var z, w := "then" + ("{" + x), "then" + ("{" + y);
    assert z[0] == 't' && w[0] == 't';
    if e.Leaf? && e.v.Ref? && f.Leaf? && f.v.Ref? {
      Glue("ref:", JoinText(e.v.path, "."), z);
      Glue("ref:", JoinText(f.v.path, "."), w);
      Cut("ref:", JoinText(e.v.path, ".") + z, JoinText(f.v.path, ".") + w);
      RefThenCut(e.v.path, f.v.path, x, y);
    } else if e.Leaf? && e.v.Ref? {
      RefAlone(sp, e.v, f, z, w);
    } else if f.Leaf? && f.v.Ref? {
      RefAlone(sp, f.v, e, w, z);
    } else {
      ExprCut(sp, e, f, z, w);
      Cut("then", "{" + x, "{" + y);
      Cut("{", x, y);
    }
  }

  lemma RefAlone(sp: Spell, v: Value, f: Expr, x: string, y: string)
    requires v.Ref? && !(f.Leaf? && f.v.Ref?)
    ensures ValText(sp, v) + x != ExprText(sp, f) + y
  {
    ValOpens(sp, v);
    ExprOpens(sp, f);
    var s, t := ValText(sp, v) + x, ExprText(sp, f) + y;
    assert s[0] == ValText(sp, v)[..3][0] == 'r' && t[0] == ExprText(sp, f)[0];
    if f.Leaf? {
      ValOpens(sp, f.v);
      assert t[0] == ValText(sp, f.v)[..3][0];
    }
  }

  // ----- arguments and calls

  lemma {:induction false} KeysCut(sp: Spell, a: Args, ks: seq<string>, b: Args, js: seq<string>, x: string, y: string)
    requires IsStrconv(sp) && PlainArguments(a) && PlainArguments(b) && (forall k | k in ks :: k in a)
             && (forall k | k in js :: k in b)
    requires KeysText(sp, a, ks) + (")" + x) == KeysText(sp, b, js) + (")" + y)
    ensures ks == js && x == y && forall k | k in ks :: a[k] == b[k]
    decreases |ks|
  {
    hide IsStrconv, ValText;
    if ks != [] && js != [] {
      var v, w := ValText(sp, a[ks[0]]), ValText(sp, b[js[0]]);
      var r, t := KeysText(sp, a, ks[1..]) + (")" + x), KeysText(sp, b, js[1..]) + (")" + y);
      Glue6(ks[0], "=", v, ",", KeysText(sp, a, ks[1..]), ")" + x);
      Glue6(js[0], "=", w, ",", KeysText(sp, b, js[1..]), ")" + y);
      WordCut(Name, ks[0], js[0], "=" + (v + ("," + r)), "=" + (w + ("," + t)));
      Cut("=", v + ("," + r), w + ("," + t));
      EndsAny(a[ks[0]], "," + r);
      EndsAny(b[js[0]], "," + t);
      ValCut(sp, a[ks[0]], b[js[0]], "," + r, "," + t);
      Cut(",", r, t);
      KeysCut(sp, a, ks[1..], b, js[1..], x, y);
      assert ks == [ks[0]] + ks[1..] && js == [js[0]] + js[1..];
    } else if ks != [] {
      KeysNotClosed(sp, a, ks, x, y);
      assert false;
    } else if js != [] {
      KeysNotClosed(sp, b, js, y, x);
      assert false;
    } else {
      assert "" + (")" + x) == ")" + x && "" + (")" + y) == ")" + y;
      Cut(")", x, y);
    }
  }

  lemma KeysNotClosed(sp: Spell, a: Args, ks: seq<string>, x: string, y: string)
    requires ks != [] && ks[0] in a && Made(Name, ks[0])
    ensures KeysText(sp, a, ks) + (")" + x) != "" + (")" + y)
  {
    hide ValText;
    var s := KeysText(sp, a, ks) + (")" + x);
    Glue6(ks[0], "=", ValText(sp, a[ks[0]]), ",", KeysText(sp, a, ks[1..]), ")" + x);
    if ks[0] == "" { assert s[0] == '='; } else { assert s[0] == ks[0][0] && In(Name, s[0]); }
    assert ("" + (")" + y))[0] == ')';
  }

  lemma ArgsCut(sp: Spell, a: Args, b: Args, x: string, y: string)
    requires IsStrconv(sp) && PlainArguments(a) && PlainArguments(b) && ArgsText(sp, a) + x == ArgsText(sp, b) + y
    ensures a == b && x == y
  {
    hide IsStrconv, PlainArguments, KeysText;
    var ks, js := SortedKeys(a.Keys), SortedKeys(b.Keys);
    Glue4("(", KeysText(sp, a, ks), ")", x);
    Glue4("(", KeysText(sp, b, js), ")", y);
    Cut("(", KeysText(sp, a, ks) + (")" + x), KeysText(sp, b, js) + (")" + y));
    forall k ensures (k in ks <==> k in a) && (k in js <==> k in b) {
      assert (k in ks <==> k in multiset(ks)) && (k in js <==> k in multiset(js));
    }
    KeysCut(sp, a, ks, b, js, x, y);
    assert a.Keys == b.Keys;
  }

  lemma ArgsOpen(sp: Spell, a: Args, x: string)
    ensures var t := ArgsText(sp, a) + x; t != "" && t[0] == '('
  {
  }

  function DocFlag(b: bool): string {
    if b then "!doc" else ""
  }

  function ValueFlag(b: bool): string {
    if b then "!value" else ""
  }

  lemma DocCut(p: bool, q: bool, x: string, y: string)
    requires x != "" && y != "" && (x[0] == '!' ==> |x| > 1 && x[1] != 'd') && (y[0] == '!' ==> |y| > 1 && y[1] != 'd')
    requires DocFlag(p) + x == DocFlag(q) + y
    ensures p == q && x == y
  {
    var s := DocFlag(p) + x;
    assert p ==> s[0] == '!' && s[1] == 'd';
    assert !p ==> s == x;
    assert q ==> s[0] == '!' && s[1] == 'd';
    assert !q ==> s == y;
    assert p == q;
    Cut(DocFlag(p), x, y);
  }

  lemma ValueCut(p: bool, q: bool, x: string, y: string)
    requires x != "" && y != "" && x[0] == '(' && y[0] == '(' && ValueFlag(p) + x == ValueFlag(q) + y
    ensures p == q && x == y
  {
    var s := ValueFlag(p) + x;
    assert p ==> s[0] == '!';
    assert !p ==> s == x;
    assert q ==> s[0] == '!';
    assert !q ==> s == y;
    assert p == q;
    Cut(ValueFlag(p), x, y);
  }

  function CallTag(c: Call): string {
    match c
    case Tool(_, _, _) => "tool" case Agent(_, _, _, _) => "agen" case Workflow(_, _, _, _, _) =>
        "work" case Approval(_, _, _, _) => "appr"
  }

  lemma CallOpens(sp: Spell, c: Call)
    ensures |CallText(sp, c)| >= 4 && CallText(sp, c)[..4] == CallTag(c)
  {
    hide ArgsText;
  }

  lemma ToolCut(sp: Spell, c: Call, d: Call, x: string, y: string)
    requires IsStrconv(sp) && c.Tool? && d.Tool? && PlainCall(c) && PlainCall(d)
             && CallText(sp, c) + x == CallText(sp, d) + y
    ensures c == d && x == y
  {
    hide IsStrconv, PlainArguments, ArgsText;
    var a, b := ArgsText(sp, c.args), ArgsText(sp, d.args);
    Glue6("tool ", c.bind, "=", c.uses, a, x);
    Glue6("tool ", d.bind, "=", d.uses, b, y);
    Cut("tool ", c.bind + ("=" + (c.uses + (a + x))), d.bind + ("=" + (d.uses + (b + y))));
    WordCut(Name, c.bind, d.bind, "=" + (c.uses + (a + x)), "=" + (d.uses + (b + y)));
    Cut("=", c.uses + (a + x), d.uses + (b + y));
    ArgsOpen(sp, c.args, x);
    ArgsOpen(sp, d.args, y);
    WordCut(Dotted, c.uses, d.uses, a + x, b + y);
    ArgsCut(sp, c.args, d.args, x, y);
  }

  lemma AgentCut(sp: Spell, c: Call, d: Call, x: string, y: string)
    requires IsStrconv(sp) && c.Agent? && d.Agent? && PlainCall(c) && PlainCall(d)
             && CallText(sp, c) + x == CallText(sp, d) + y
    ensures c == d && x == y
  {
    hide IsStrconv, PlainArguments, ArgsText;
    var a, b := ArgsText(sp, c.args), ArgsText(sp, d.args);
    var f, g := DocFlag(c.whole), DocFlag(d.whole);
    Glue7("agent ", c.bind, "=", c.agent, f, a, x);
    Glue7("agent ", d.bind, "=", d.agent, g, b, y);
    Cut("agent ", c.bind + ("=" + (c.agent + (f + (a + x)))), d.bind + ("=" + (d.agent + (g + (b + y)))));
    WordCut(Name, c.bind, d.bind, "=" + (c.agent + (f + (a + x))), "=" + (d.agent + (g + (b + y))));
    Cut("=", c.agent + (f + (a + x)), d.agent + (g + (b + y)));
    ArgsOpen(sp, c.args, x);
    ArgsOpen(sp, d.args, y);
    WordCut(Dotted, c.agent, d.agent, f + (a + x), g + (b + y));
    DocCut(c.whole, d.whole, a + x, b + y);
    ArgsCut(sp, c.args, d.args, x, y);
  }

  lemma WorkflowCut(sp: Spell, c: Call, d: Call, x: string, y: string)
    requires IsStrconv(sp) && c.Workflow? && d.Workflow? && PlainCall(c) && PlainCall(d)
             && CallText(sp, c) + x == CallText(sp, d) + y
    ensures c == d && x == y
  {
    hide IsStrconv, PlainArguments, ArgsText;
    var a, b := ArgsText(sp, c.args), ArgsText(sp, d.args);
    var f, g := DocFlag(c.whole), DocFlag(d.whole);
    var h, k := ValueFlag(c.project), ValueFlag(d.project);
    Glue8("workflow ", c.bind, "=", c.workflow, f, h, a, x);
    Glue8("workflow ", d.bind, "=", d.workflow, g, k, b, y);
    Cut("workflow ", c.bind + ("=" + (c.workflow + (f + (h + (a + x))))),
        d.bind + ("=" + (d.workflow + (g + (k + (b + y))))));
    WordCut(Name, c.bind, d.bind, "=" + (c.workflow + (f + (h + (a + x)))), "=" + (d.workflow + (g + (k + (b + y)))));
    Cut("=", c.workflow + (f + (h + (a + x))), d.workflow + (g + (k + (b + y))));
    ArgsOpen(sp, c.args, x);
    ArgsOpen(sp, d.args, y);
    WordCut(Dotted, c.workflow, d.workflow, f + (h + (a + x)), g + (k + (b + y)));
    DocCut(c.whole, d.whole, h + (a + x), k + (b + y));
    ValueCut(c.project, d.project, a + x, b + y);
    ArgsCut(sp, c.args, d.args, x, y);
  }

  lemma ApprovalCut(sp: Spell, c: Call, d: Call, x: string, y: string)
    requires IsStrconv(sp) && c.Approval? && d.Approval? && PlainCall(c) && PlainCall(d)
             && CallText(sp, c) + x == CallText(sp, d) + y
    ensures c == d && x == y
  {
    hide IsStrconv, PlainArguments, ArgsText, SortStrings, JoinText;
    var a, b := ArgsText(sp, c.args) + x, ArgsText(sp, d.args) + y;
    var s, t := sp.quote(c.desc), sp.quote(d.desc);
    var m, n := JoinText(c.redact, ","), JoinText(d.redact, ",");
    Glue9("approval ", c.bind, " desc:", s, " redact:[", m, "]", ArgsText(sp, c.args), x);
    Glue9("approval ", d.bind, " desc:", t, " redact:[", n, "]", ArgsText(sp, d.args), y);
    Cut("approval ", c.bind + (" desc:" + (s + (" redact:[" + (m + ("]" + a))))),
        d.bind + (" desc:" + (t + (" redact:[" + (n + ("]" + b))))));
    WordCut(Name, c.bind, d.bind, " desc:" + (s + (" redact:[" + (m + ("]" + a)))),
        " desc:" + (t + (" redact:[" + (n + ("]" + b)))));
    Cut(" desc:", s + (" redact:[" + (m + ("]" + a))), t + (" redact:[" + (n + ("]" + b))));
    QuoteCut(sp, c.desc, d.desc, " redact:[" + (m + ("]" + a)), " redact:[" + (n + ("]" + b)));
    Cut(" redact:[", m + ("]" + a), n + ("]" + b));
    JoinCut(c.redact, d.redact, ",", "]" + a, "]" + b);
    Cut("]", a, b);
    ArgsCut(sp, c.args, d.args, x, y);
  }

  lemma CallCut(sp: Spell, c: Call, d: Call, x: string, y: string)
    requires IsStrconv(sp) && PlainCall(c) && PlainCall(d) && CallText(sp, c) + x == CallText(sp, d) + y
    ensures c == d && x == y
  {
    hide IsStrconv, PlainCall, CallText;
    CallOpens(sp, c);
    CallOpens(sp, d);
    Opens(CallText(sp, c), x, CallText(sp, d), y, 4);
    match c
    case Tool(_, _, _) => ToolCut(sp, c, d, x, y);
    case Agent(_, _, _, _) => AgentCut(sp, c, d, x, y);
    case Workflow(_, _, _, _, _) => WorkflowCut(sp, c, d, x, y);
    case Approval(_, _, _, _) => ApprovalCut(sp, c, d, x, y);
  }

  // ----- nodes

  ghost predicate TidyStep(g: GraphNode) {
    Made(Name, g.id) && Words(g.needs) && SortStrings(g.needs) == g.needs && PlainCall(g.run)
  }

  ghost predicate TidyNode(n: Node)
    decreases n, 0
  {
    match n
    case Invoke(c) => PlainCall(c)
    case Let(bind, v) => Made(Name, bind) && PlainValue(v)
    case Return(v) => PlainValue(v)
    case Branch(cond, thn, els) => PlainCondition(cond) && TidyNodes(thn) && TidyNodes(els)
    case Fork(bs) => forall i :: 0 <= i < |bs| ==> Made(Name, bs[i].bind) && TidyNodes(bs[i].nodes)
    case Loop(vr, coll, body, _) => Word(vr) && PlainValue(coll) && TidyNodes(body)
    case While(cond, _, body) => PlainCondition(cond) && TidyNodes(body)
    case Retry(cond, _, body) => PlainCondition(cond) && TidyNodes(body)
    case Graph(gs) => Sorted(gs) == gs && forall i :: 0 <= i < |gs| ==> TidyStep(gs[i])
  }

  ghost predicate TidyNodes(ns: seq<Node>)
    decreases ns, 1
  {
    forall i :: 0 <= i < |ns| ==> TidyNode(ns[i])
  }

  function NodeTag(n: Node): string {
    match n
    case Invoke(c) => CallTag(c)
    case Let(_, _) => "let " case Return(_) => "retu" case Branch(_, _, _) => "bran" case Fork(_) => "fork"
    case Loop(_, _, _, _) => "loop" case While(_, _, _) => "whil" case Retry(_, _, _) => "retr" case Graph(_) => "grap"
  }

  lemma NodeOpens(sp: Spell, n: Node)
    ensures |NodeText(sp, n)| >= 4 && NodeText(sp, n)[..4] == NodeTag(n)
  {
    hide CallText, ValText, ExprText, BlockText, BranchesText, StepsText, LimitText;
    if n.Invoke? { CallOpens(sp, n.call); }
  }

  predicate Semi(x: string) {
    x != "" && x[0] == ';'
  }

  lemma BlockOpens(sp: Spell, ns: seq<Node>, x: string)
    ensures BlockText(sp, ns) + x == "{" + (NodesText(sp, ns) + x)
  {
    Glue("{", NodesText(sp, ns), x);
  }

  lemma {:induction false} NodeCut(sp: Spell, n: Node, m: Node, x: string, y: string)
    requires IsStrconv(sp) && TidyNode(n) && TidyNode(m) && Semi(x) && Semi(y)
    requires NodeText(sp, n) + x == NodeText(sp, m) + y
    ensures n == m && x == y
    decreases n, 2
  {
    hide IsStrconv, CallText, ValText, ExprText, NodesText, BranchesText, StepsText, PlainCall, PlainValue,
        PlainCondition, TidyNodes, Sorted;
    NodeOpens(sp, n);
    NodeOpens(sp, m);
    Opens(NodeText(sp, n), x, NodeText(sp, m), y, 4);
    match n
    case Invoke(c) => CallCut(sp, c, m.call, x, y);
    case Let(bind, v) => LetCut(sp, n, m, x, y);
    case Return(v) => ReturnCut(sp, v, m.value, x, y);
    case Branch(_, _, _) => BranchCut(sp, n, m, x, y);
    case Fork(bs) =>
      Glue("fork", BranchesText(sp, bs), x);
      Glue("fork", BranchesText(sp, m.branches), y);
      Cut("fork", BranchesText(sp, bs) + x, BranchesText(sp, m.branches) + y);
      BranchesCut(sp, bs, m.branches, x, y);
    case Loop(_, _, _, _) => LoopCut(sp, n, m, x, y);
    case While(_, _, _) => BoundedCut(sp, "while ", n, m, x, y);
    case Retry(_, _, _) => BoundedCut(sp, "retry until ", n, m, x, y);
    case Graph(gs) =>
      Glue("graph{", StepsText(sp, gs), x);
      Glue("graph{", StepsText(sp, m.nodes), y);
      Cut("graph{", StepsText(sp, gs) + x, StepsText(sp, m.nodes) + y);
      StepsCut(sp, gs, m.nodes, x, y);
  }

  lemma LetCut(sp: Spell, n: Node, m: Node, x: string, y: string)
    requires IsStrconv(sp) && n.Let? && m.Let? && TidyNode(n) && TidyNode(m) && Semi(x) && Semi(y)
    requires NodeText(sp, n) + x == NodeText(sp, m) + y
    ensures n == m && x == y
  {
    hide IsStrconv, ValText, PlainValue;
    var v, w := ValText(sp, n.value), ValText(sp, m.value);
    Glue5("let ", n.bind, "=", v, x);
    Glue5("let ", m.bind, "=", w, y);
    Cut("let ", n.bind + ("=" + (v + x)), m.bind + ("=" + (w + y)));
    WordCut(Name, n.bind, m.bind, "=" + (v + x), "=" + (w + y));
    Cut("=", v + x, w + y);
    EndsAny(n.value, x);
    EndsAny(m.value, y);
    ValCut(sp, n.value, m.value, x, y);
  }

  lemma ReturnCut(sp: Spell, v: Value, w: Value, x: string, y: string)
    requires IsStrconv(sp) && PlainValue(v) && PlainValue(w) && Semi(x) && Semi(y)
    requires NodeText(sp, Return(v)) + x == NodeText(sp, Return(w)) + y
    ensures v == w && x == y
  {
    hide IsStrconv, ValText, PlainValue;
    Glue("return ", ValText(sp, v), x);
    Glue("return ", ValText(sp, w), y);
    Cut("return ", ValText(sp, v) + x, ValText(sp, w) + y);
    EndsAny(v, x);
    EndsAny(w, y);
    ValCut(sp, v, w, x, y);
  }

  lemma {:induction false} BranchCut(sp: Spell, n: Node, m: Node, x: string, y: string)
    requires IsStrconv(sp) && n.Branch? && m.Branch? && TidyNode(n) && TidyNode(m)
    requires NodeText(sp, n) + x == NodeText(sp, m) + y
    ensures n == m && x == y
    decreases n, 1
  {
    hide IsStrconv, ExprText, NodesText, PlainCondition, TidyNodes, BlockText;
    var c, d := ExprText(sp, n.cond), ExprText(sp, m.cond);
    var b1, b2, e1, e2 := BlockText(sp, n.thn), BlockText(sp, m.thn), BlockText(sp, n.els), BlockText(sp, m.els);
    Glue7("branch ", c, "then", b1, "else", e1, x);
    Glue7("branch ", d, "then", b2, "else", e2, y);
    var r, t := "else" + (e1 + x), "else" + (e2 + y);
    Cut("branch ", c + ("then" + (b1 + r)), d + ("then" + (b2 + t)));
    BlockOpens(sp, n.thn, r);
    BlockOpens(sp, m.thn, t);
    CondThenCut(sp, n.cond, m.cond, NodesText(sp, n.thn) + r, NodesText(sp, m.thn) + t);
    NodesCut(sp, n.thn, m.thn, r, t);
    Cut("else", e1 + x, e2 + y);
    BlockOpens(sp, n.els, x);
    BlockOpens(sp, m.els, y);
    Cut("{", NodesText(sp, n.els) + x, NodesText(sp, m.els) + y);
    NodesCut(sp, n.els, m.els, x, y);
  }

  lemma {:induction false} BlockCut(sp: Spell, ns: seq<Node>, ms: seq<Node>, x: string, y: string)
    requires IsStrconv(sp) && TidyNodes(ns) && TidyNodes(ms) && BlockText(sp, ns) + x == BlockText(sp, ms) + y
    ensures ns == ms && x == y
    decreases ns, 4
  {
    hide IsStrconv, NodesText, TidyNodes;
    BlockOpens(sp, ns, x);
    BlockOpens(sp, ms, y);
    Cut("{", NodesText(sp, ns) + x, NodesText(sp, ms) + y);
    NodesCut(sp, ns, ms, x, y);
  }

  lemma {:induction false} NodesCut(sp: Spell, ns: seq<Node>, ms: seq<Node>, x: string, y: string)
    requires IsStrconv(sp) && TidyNodes(ns) && TidyNodes(ms) && NodesText(sp, ns) + x == NodesText(sp, ms) + y
    ensures ns == ms && x == y
    decreases ns, 3
  {
    hide IsStrconv, NodeText, TidyNode;
    if ns != [] && ms != [] {
      var a, b := NodeText(sp, ns[0]), NodeText(sp, ms[0]);
      var r, t := NodesText(sp, ns[1..]) + x, NodesText(sp, ms[1..]) + y;
      Glue4(a, ";", NodesText(sp, ns[1..]), x);
      Glue4(b, ";", NodesText(sp, ms[1..]), y);
      NodeCut(sp, ns[0], ms[0], ";" + r, ";" + t);
      Cut(";", r, t);
      NodesCut(sp, ns[1..], ms[1..], x, y);
      assert ns == [ns[0]] + ns[1..] && ms == [ms[0]] + ms[1..];
    } else if ns != [] {
      NodesNotClosed(sp, ns, x, y);
      assert false;
    } else if ms != [] {
      NodesNotClosed(sp, ms, y, x);
      assert false;
    } else {
      Cut("}", x, y);
    }
  }

  lemma NodesNotClosed(sp: Spell, ns: seq<Node>, x: string, y: string)
    requires ns != []
    ensures NodesText(sp, ns) + x != "}" + y
  {
    hide NodeText;
    NodeOpens(sp, ns[0]);
    var s := NodesText(sp, ns) + x;
    assert s[0] == NodeText(sp, ns[0])[..4][0];
    assert ("}" + y)[0] == '}';
  }

  lemma {:induction false} BranchesCut(sp: Spell, bs: seq<ForkBranch>, cs: seq<ForkBranch>, x: string, y: string)
    requires IsStrconv(sp) && Semi(x) && Semi(y) && BranchesText(sp, bs) + x == BranchesText(sp, cs) + y
    requires forall i :: 0 <= i < |bs| ==> Made(Name, bs[i].bind) && TidyNodes(bs[i].nodes)
    requires forall i :: 0 <= i < |cs| ==> Made(Name, cs[i].bind) && TidyNodes(cs[i].nodes)
    ensures bs == cs && x == y
    decreases bs, 5
  {
    hide IsStrconv, BlockText, TidyNodes;
    if bs != [] && cs != [] {
      var a, b := BlockText(sp, bs[0].nodes), BlockText(sp, cs[0].nodes);
      var r, t := BranchesText(sp, bs[1..]) + x, BranchesText(sp, cs[1..]) + y;
      Glue5(bs[0].bind, ":", a, BranchesText(sp, bs[1..]), x);
      Glue5(cs[0].bind, ":", b, BranchesText(sp, cs[1..]), y);
      WordCut(Name, bs[0].bind, cs[0].bind, ":" + (a + r), ":" + (b + t));
      Cut(":", a + r, b + t);
      BlockCut(sp, bs[0].nodes, cs[0].nodes, r, t);
      BranchesCut(sp, bs[1..], cs[1..], x, y);
      assert bs == [bs[0]] + bs[1..] && cs == [cs[0]] + cs[1..];
    } else if bs != [] {
      BranchesNotDone(sp, bs, x, y);
      assert false;
    } else if cs != [] {
      BranchesNotDone(sp, cs, y, x);
      assert false;
    } else {
      assert "" + x == x && "" + y == y;
    }
  }

  lemma BranchesNotDone(sp: Spell, bs: seq<ForkBranch>, x: string, y: string)
    requires bs != [] && Made(Name, bs[0].bind) && Semi(y)
    ensures BranchesText(sp, bs) + x != "" + y
  {
    hide BlockText;
    var s := BranchesText(sp, bs) + x;
    Glue5(bs[0].bind, ":", BlockText(sp, bs[0].nodes), BranchesText(sp, bs[1..]), x);
    if bs[0].bind == "" { assert s[0] == ':'; } else { assert s[0] == bs[0].bind[0] && In(Name, s[0]); }
    assert ("" + y)[0] == ';';
  }

  function ParFlag(b: bool): string {
    if b then "par " else ""
  }

  /** "par" may also be a variable; what follows tells the two readings apart. */
  lemma LoopHeadCut(p: bool, q: bool, v: string, w: string, x: string, y: string)
    requires Word(v) && Word(w) && x != "" && y != "" && x[0] != 'i' && y[0] != 'i'
    requires ParFlag(p) + (v + (" in " + x)) == ParFlag(q) + (w + (" in " + y))
    ensures p == q && v == w && x == y
  {
    if p == q {
      Cut(ParFlag(p), v + (" in " + x), w + (" in " + y));
      WordCut(Name, v, w, " in " + x, " in " + y);
      Cut(" in ", x, y);
    } else if p {
      assert "" + (w + (" in " + y)) == w + (" in " + y);
      ParIsNotVar(v, w, x, y);
    } else {
      assert "" + (v + (" in " + x)) == v + (" in " + x);
      ParIsNotVar(w, v, y, x);
    }
  }

  lemma ParIsNotVar(v: string, w: string, x: string, y: string)
    requires Word(v) && Word(w) && y != "" && y[0] != 'i'
    ensures "par " + (v + (" in " + x)) != w + (" in " + y)
  {
    var z := v + (" in " + x);
    assert Made(Name, "par") && Made(Name, "in");
    assert ("in " + x)[0] == 'i';
    if "par " + z == w + (" in " + y) {
      assert "par " + z == "par" + (" " + z);
      WordCut(Name, "par", w, " " + z, " in " + y);
      assert " in " + y == " " + ("in " + y);
      Cut(" ", z, "in " + y);
      assert "in " + y == "in" + (" " + y);
      WordCut(Name, v, "in", " in " + x, " " + y);
      assert " in " + x == " " + ("in " + x);
      Cut(" ", "in " + x, y);
    }
  }

  lemma {:induction false} LoopCut(sp: Spell, n: Node, m: Node, x: string, y: string)
    requires IsStrconv(sp) && n.Loop? && m.Loop? && TidyNode(n) && TidyNode(m)
             && NodeText(sp, n) + x == NodeText(sp, m) + y
    ensures n == m && x == y
    decreases n, 1
  {
    hide IsStrconv, ValText, BlockText, PlainValue, TidyNodes;
    var v, w, a, b := ValText(sp, n.coll), ValText(sp, m.coll), BlockText(sp, n.body) + x, BlockText(sp, m.body) + y;
    Glue7("loop ", ParFlag(n.par), n.vr, " in ", v, BlockText(sp, n.body), x);
    Glue7("loop ", ParFlag(m.par), m.vr, " in ", w, BlockText(sp, m.body), y);
    Cut("loop ", ParFlag(n.par) + (n.vr + (" in " + (v + a))), ParFlag(m.par) + (m.vr + (" in " + (w + b))));
    ValOpens(sp, n.coll);
    ValOpens(sp, m.coll);
    assert (v + a)[0] == v[..3][0] && (w + b)[0] == w[..3][0];
    LoopHeadCut(n.par, m.par, n.vr, m.vr, v + a, w + b);
    BlockOpens(sp, n.body, x);
    BlockOpens(sp, m.body, y);
    EndsAny(n.coll, a);
    EndsAny(m.coll, b);
    ValCut(sp, n.coll, m.coll, a, b);
    BlockCut(sp, n.body, m.body, x, y);
  }

  lemma {:induction false} BoundedCut(sp: Spell, word: string, n: Node, m: Node, x: string, y: string)
    requires IsStrconv(sp) && TidyNode(n) && TidyNode(m) && NodeText(sp, n) + x == NodeText(sp, m) + y
    requires (n.While? && m.While? && word == "while ") || (n.Retry? && m.Retry? && word == "retry until ")
    ensures n == m && x == y
    decreases n, 1
  {
    hide IsStrconv, ExprText, BlockText, PlainCondition, TidyNodes, FormatInt;
    var c, d := ExprText(sp, n.cond), ExprText(sp, m.cond);
    var a, b := BlockText(sp, n.body) + x, BlockText(sp, m.body) + y;
    Glue5(word, c, LimitText(n.limit), BlockText(sp, n.body), x);
    Glue5(word, d, LimitText(m.limit), BlockText(sp, m.body), y);
    Cut(word, c + (LimitText(n.limit) + a), d + (LimitText(m.limit) + b));
    Glue(" limit ", FormatInt(n.limit), a);
    Glue(" limit ", FormatInt(m.limit), b);
    EndsAnyCond(n.cond, " limit " + (FormatInt(n.limit) + a));
    EndsAnyCond(m.cond, " limit " + (FormatInt(m.limit) + b));
    ExprCut(sp, n.cond, m.cond, LimitText(n.limit) + a, LimitText(m.limit) + b);
    Cut(" limit ", FormatInt(n.limit) + a, FormatInt(m.limit) + b);
    BlockOpens(sp, n.body, x);
    BlockOpens(sp, m.body, y);
    IntCut(n.limit, m.limit, a, b);
    BlockCut(sp, n.body, m.body, x, y);
  }

  lemma {:induction false} StepsCut(sp: Spell, gs: seq<GraphNode>, hs: seq<GraphNode>, x: string, y: string)
    requires IsStrconv(sp) && StepsText(sp, gs) + x == StepsText(sp, hs) + y
    requires (forall i :: 0 <= i < |gs| ==> TidyStep(gs[i])) && (forall i :: 0 <= i < |hs| ==> TidyStep(hs[i]))
    ensures gs == hs && x == y
    decreases |gs|
  {
    hide IsStrconv, CallText, TidyStep;
    if gs != [] && hs != [] {
      StepCut(sp, gs[0], hs[0], StepsText(sp, gs[1..]), StepsText(sp, hs[1..]), x, y);
      StepsCut(sp, gs[1..], hs[1..], x, y);
      assert gs == [gs[0]] + gs[1..] && hs == [hs[0]] + hs[1..];
    } else if gs != [] {
      StepsNotClosed(sp, gs, x, y);
      assert false;
    } else if hs != [] {
      StepsNotClosed(sp, hs, y, x);
      assert false;
    } else {
      Cut("}", x, y);
    }
  }

  ghost function StepText(sp: Spell, g: GraphNode, rest: string): string {
    g.id + "[" + JoinText(SortStrings(g.needs), ",") + "]=" + CallText(sp, g.run) + ";" + rest
  }

  lemma StepCut(sp: Spell, g: GraphNode, h: GraphNode, r: string, t: string, x: string, y: string)
    requires IsStrconv(sp) && TidyStep(g) && TidyStep(h) && StepText(sp, g, r) + x == StepText(sp, h, t) + y
    ensures g == h && r + x == t + y
  {
    hide IsStrconv, CallText, PlainCall, SortStrings, JoinText;
    var c, d, j, k := CallText(sp, g.run), CallText(sp, h.run), JoinText(g.needs, ","), JoinText(h.needs, ",");
    Glue8(g.id, "[", j, "]=", c, ";", r, x);
    Glue8(h.id, "[", k, "]=", d, ";", t, y);
    var u, v := c + (";" + (r + x)), d + (";" + (t + y));
    WordCut(Name, g.id, h.id, "[" + (j + ("]=" + u)), "[" + (k + ("]=" + v)));
    Cut("[", j + ("]=" + u), k + ("]=" + v));
    JoinCut(g.needs, h.needs, ",", "]=" + u, "]=" + v);
    Cut("]=", u, v);
    CallCut(sp, g.run, h.run, ";" + (r + x), ";" + (t + y));
    Cut(";", r + x, t + y);
  }

  lemma StepsNotClosed(sp: Spell, gs: seq<GraphNode>, x: string, y: string)
    requires gs != [] && TidyStep(gs[0])
    ensures StepsText(sp, gs) + x != "}" + y
  {
    hide CallText, SortStrings, JoinText, PlainCall;
    var g := gs[0];
    var s := StepsText(sp, gs) + x;
    Glue8(g.id, "[", JoinText(SortStrings(g.needs), ","), "]=", CallText(sp, g.run), ";", StepsText(sp, gs[1..]), x);
    if g.id == "" { assert s[0] == '['; } else { assert s[0] == g.id[0] && In(Name, s[0]); }
    assert ("}" + y)[0] == '}';
  }

  // ----- programs

  /** Plain names, and steps, needs, redacted keys and object fields in sorted order. */
  ghost predicate TidyProgram(p: Program) {
    Made(Dotted, p.workflow) && Words(p.params) && TidyNodes(p.body)
  }

  /** On programs with plain names in canonical arrangement, one digest text means one program:
      same operations, arguments, control flow and binding names. */
  lemma DigestIdentifiesProgram(sp: Spell, p: Program, q: Program)
    requires IsStrconv(sp) && TidyProgram(p) && TidyProgram(q)
    ensures ProgramText(sp, p) == ProgramText(sp, q) <==> p == q
  {
    if ProgramText(sp, p) == ProgramText(sp, q) {
      hide IsStrconv, TidyNodes, JoinText, BlockText;
      var a, b, j, k := BlockText(sp, p.body), BlockText(sp, q.body), JoinText(p.params, ","), JoinText(q.params, ",");
      assert a + "" == a && b + "" == b;
      Glue6("wf(", p.workflow, ")params[", j, "]", a);
      Glue6("wf(", q.workflow, ")params[", k, "]", b);
      Cut("wf(", p.workflow + (")params[" + (j + ("]" + a))), q.workflow + (")params[" + (k + ("]" + b))));
      WordCut(Dotted, p.workflow, q.workflow, ")params[" + (j + ("]" + a)), ")params[" + (k + ("]" + b)));
      Cut(")params[", j + ("]" + a), k + ("]" + b));
      JoinCut(p.params, q.params, ",", "]" + a, "]" + b);
      Cut("]", a, b);
      BlockCut(sp, p.body, q.body, "", "");
    }
  }

  /** Names do matter: a reference segment that contains a dot reads as two segments. */
  lemma DottedSegmentsCollide(sp: Spell)
    ensures ValText(sp, Ref(["a.b"])) == ValText(sp, Ref(["a", "b"]))
  {
    assert JoinText(["a", "b"], ".") == "a.b" by { assert ["a", "b"][1..] == ["b"]; }
  }
}
