/** Canonical values against their JSON text (internal/jsonnum/jsonnum.go): canonicalization is
    a fixed point of the checkpoint round trip, up to and including the ends of int64. */
module JsonText {
  import opened Values
  import opened Common
  import opened Compare
  import opened JsonNum

  /** A number literal: plain digits, or one with a fraction or an exponent. */
  datatype NumLit = IntLit(n: int) | OtherLit(r: real)

  datatype Member = Member(key: string, val: Json)

  datatype Json =
    | JNull | JBool(b: bool) | JStr(s: string) | JNum(lit: NumLit) | JArr(elems: seq<Json>) | JObj(members: seq<Member>)

  /** strconv.ParseFloat, encoding/json's float spelling, and its string and number bytes. */
  datatype Lib = Lib(round: real -> Option<real>, spell: real -> NumLit, quote: string -> string,
      digits: NumLit -> string)

  ghost function LitValue(l: NumLit): real {
    match l case IntLit(n) => n as real case OtherLit(r) => r
  }

  function Abs(r: real): real {
    if r < 0.0 then -r else r
  }

  ghost function Pow10(k: nat): (p: int)
    ensures p >= 1
  {
    if k == 0 then 1 else 10 * Pow10(k - 1)
  }

  /** d times ten to the k. */
  ghost function Dec(d: int, k: int): real {
    if k >= 0 then (d * Pow10(k)) as real else (d as real) / (Pow10(-k) as real)
  }

  // ----- what is known of strconv and encoding/json

  /** Parsing rounds to a nearest binary64 number, and is exact on binary64 numbers. */
  ghost predicate RoundsToNearest(lib: Lib) {
    && (forall r: real, b: real :: lib.round(r).Some? && IsBinary64(b) ==> Abs(lib.round(r).value - r) <= Abs(b - r))
    && (forall r: real :: lib.round(r).Some? ==> IsBinary64(lib.round(r).value))
    && (forall b: real :: IsBinary64(b) ==> lib.round(b) == Some(b))
    && (forall r: real, b: real :: IsBinary64(b) && Abs(r) <= Abs(b) ==> lib.round(r).Some?)
  }

  /** A spelling of b: digits d at scale k, no longer than any decimal that parses to b. */
  ghost predicate Shortest(lib: Lib, b: real, d: int, k: int) {
    && LitValue(lib.spell(b)) == Dec(d, k)
    && forall e: int, j: int, n: nat ::
         lib.round(Dec(e, j)) == Some(b) && -Pow10(n) < e < Pow10(n) ==> -Pow10(n) < d < Pow10(n)
  }

  ghost predicate SpellsShortest(lib: Lib) {
    forall b: real :: IsBinary64(b) ==>
      && lib.round(LitValue(lib.spell(b))) == Some(b)
      && exists d: int, k: int :: Shortest(lib, b, d, k)
  }

  ghost predicate IsStdlib(lib: Lib) {
    RoundsToNearest(lib) && SpellsShortest(lib)
  }

  // ----- binary64 facts

  lemma {:induction false} Pow2Grows(a: nat, b: nat)
    requires a <= b
    ensures Pow2(a) <= Pow2(b)
    decreases b
  {
    if a < b { Pow2Grows(a, b - 1); }
  }

  lemma {:induction false} Pow2Adds(a: nat, b: nat)
    ensures Pow2(a + b) == Pow2(a) * Pow2(b)
    decreases a
  {
    if a > 0 {
      Pow2Adds(a - 1, b);
      calc {
        Pow2(a + b);
        2 * Pow2(a - 1 + b);
        2 * (Pow2(a - 1) * Pow2(b));
        (2 * Pow2(a - 1)) * Pow2(b);
      }
    }
  }

  lemma Pow2Values()
    ensures Pow2(0) == 1 && Pow2(10) == 1024 && Pow2(11) == 2048
  {
    assert Pow2(4) == 16;
    assert Pow2(8) == 256;
  }

  lemma MulBelow(m: int, top: int, p: int)
    requires m < top && p >= 1
    ensures m * p < top * p
  {
  }

  /** At scale e a 53-bit significand stays below 2^53 * 2^e. */
  lemma ScaledIsBelow(m: int, e: int)
    requires -MAX_EXACT_INT < m < MAX_EXACT_INT
    ensures e < 0 ==> -(MAX_EXACT_INT as real) < Scaled(m, e) < MAX_EXACT_INT as real
    ensures 0 <= e <= 10 ==> -(TWO63 as real) < Scaled(m, e) < TWO63 as real
  {
    if e < 0 {
      var p := Pow2(-e) as real;
      assert p >= 1.0;
      DivideShrinks(m as real, p);
    } else if e <= 10 {
      Pow2Grows(e, 10);
      Pow2Values();
      var p := Pow2(e);
      MulBelow(m, MAX_EXACT_INT, p);
      MulBelow(-m, MAX_EXACT_INT, p);
      assert (-m) * p == -(m * p);
      assert MAX_EXACT_INT * p <= MAX_EXACT_INT * 1024;
    }
  }

  lemma DivideShrinks(m: real, p: real)
    requires p >= 1.0
    ensures m >= 0.0 ==> 0.0 <= m / p <= m
    ensures m <= 0.0 ==> m <= m / p <= 0.0
  {
    var q := m / p;
    assert q * p == m;
  }

  lemma Swap(m: int, a: int, b: int)
    ensures m * (a * b) == a * (m * b)
  {
  }

  /** Past 2^63 the binary64 numbers are multiples of 2048. */
  lemma SparseAbove(b: real) returns (q: int)
    requires IsBinary64(b) && (b >= TWO63 as real || b <= -(TWO63 as real))
    ensures b == (2048 * q) as real
  {
    var m, e :| -MAX_EXACT_INT < m < MAX_EXACT_INT && -1074 <= e <= 971 && b == Scaled(m, e);
    ScaledIsBelow(m, e);
    assert e >= 11;
    Pow2Adds(11, e - 11);
    Pow2Values();
    q := m * Pow2(e - 11);
    Swap(m, 2048, Pow2(e - 11));
  }

  /** From 2^53 on every binary64 number is whole. */
  lemma WholeAbove(b: real) returns (q: int)
    requires IsBinary64(b) && (b >= MAX_EXACT_INT as real || b <= -(MAX_EXACT_INT as real))
    ensures b == q as real
  {
    var m, e :| -MAX_EXACT_INT < m < MAX_EXACT_INT && -1074 <= e <= 971 && b == Scaled(m, e);
    ScaledIsBelow(m, e);
    q := m * Pow2(e);
  }

  lemma Boundaries()
    ensures IsBinary64(TWO63 as real) && IsBinary64(-(TWO63 as real))
    ensures IsBinary64((TWO63 - 1024) as real) && IsBinary64((1024 - TWO63) as real)
    ensures IsBinary64(MAX_EXACT_INT as real) && IsBinary64(-(MAX_EXACT_INT as real))
  {
    Pow2Values();
    assert TWO63 as real == Scaled(0x10_0000_0000_0000, 11);
    assert -(TWO63 as real) == Scaled(-0x10_0000_0000_0000, 11);
    assert (TWO63 - 1024) as real == Scaled(MAX_EXACT_INT - 1, 10);
    assert (1024 - TWO63) as real == Scaled(1 - MAX_EXACT_INT, 10);
    ToFloat64Exact(MAX_EXACT_INT);
    ToFloat64Exact(-MAX_EXACT_INT);
  }

  ghost predicate Whole(r: real) {
    r == Trunc(r) as real
  }

  lemma WholeIff(r: real, q: int)
    requires r == q as real
    ensures Whole(r)
  {
    FloorOf(q);
    FloorOf(-q);
    assert -r == (-q) as real;
  }

  lemma FloorOf(q: int)
    ensures (q as real).Floor == q
  {
  }

  /** What canonicalFloat leaves a float: a fraction, or a whole number at or past 2^63 in size. */
  ghost predicate StaysFloat(r: real) {
    IsBinary64(r) && (!Whole(r) || r <= -(TWO63 as real) || r >= TWO63 as real)
  }

  // ----- decoding

  function FromNumber(lib: Lib, l: NumLit): Option<Val> {
    match l
    case IntLit(n) =>
      if -TWO63 <= n < TWO63 then Some(Int(n))
      else (match lib.round(n as real) case None => None case Some(f) => Some(Flt(Fin(f))))
    case OtherLit(r) => (match lib.round(r) case None => None case Some(f) => Some(CanonicalFloat(Fin(f))))
  }

  /** A later member of the same name overwrites an earlier one. */
  function CanonicalMembers(lib: Lib, fs: seq<Member>): Option<map<string, Val>>
    decreases fs, 1
  {
    if fs == [] then Some(map[])
    else match (CanonicalMembers(lib, fs[..|fs| - 1]), CanonicalDecoded(lib, fs[|fs| - 1].val))
      case (Some(m), Some(v)) => Some(m[fs[|fs| - 1].key := v])
      case _ => None
  }

  function CanonicalDecoded(lib: Lib, j: Json): Option<Val>
    decreases j, 0
  {
    match j
    case JNull => Some(Null)
    case JBool(b) => Some(Bool(b))
    case JStr(s) => Some(Str(s))
    case JNum(l) => FromNumber(lib, l)
    case JArr(es) => (match CanonicalElems(lib, es) case None => None case Some(xs) => Some(Arr(xs)))
    case JObj(fs) => (match CanonicalMembers(lib, fs) case None => None case Some(m) => Some(Obj(m)))
  }

  function CanonicalElems(lib: Lib, es: seq<Json>): Option<seq<Val>>
    decreases es, 1
  {
    if es == [] then Some([])
    else match (CanonicalElems(lib, es[..|es| - 1]), CanonicalDecoded(lib, es[|es| - 1]))
      case (Some(xs), Some(v)) => Some(xs + [v])
      case _ => None
  }

  /** Containers on the deepest path of a document. */
  function Depth(j: Json): nat
    decreases j, 0
  {
    match j case JArr(es) => 1 + ElemsDepth(es) case JObj(fs) => 1 + MembersDepth(fs) case _ => 0
  }

  function ElemsDepth(es: seq<Json>): nat
    decreases es, 1
  {
    if es == [] then 0 else Max(ElemsDepth(es[..|es| - 1]), Depth(es[|es| - 1]))
  }

  function MembersDepth(fs: seq<Member>): nat
    decreases fs, 1
  {
    if fs == [] then 0 else Max(MembersDepth(fs[..|fs| - 1]), Depth(fs[|fs| - 1].val))
  }

  const DECODER_DEPTH: nat := 10000

  /** jsonnum.Unmarshal of a document that sits inside `outer` enclosing containers. */
  function Unmarshal(lib: Lib, j: Json, outer: nat): Option<Val> {
    if Depth(j) + outer > DECODER_DEPTH then None else CanonicalDecoded(lib, j)
  }

  /** v nests no deeper than d containers. */
  ghost predicate NestsWithin(v: Val, d: nat) {
    match v
    case Arr(xs) => d > 0 && forall i :: 0 <= i < |xs| ==> NestsWithin(xs[i], d - 1)
    case Obj(m) => d > 0 && forall k :: k in m ==> NestsWithin(m[k], d - 1)
    case _ => true
  }

  // ----- encoding

  /** The bytes json.Marshal writes for a document. */
  function Render(lib: Lib, j: Json): string
    decreases j, 0
  {
    match j
    case JNull => "null"
    case JBool(b) => if b then "true" else "false"
    case JStr(s) => lib.quote(s)
    case JNum(l) => lib.digits(l)
    case JArr(es) => "[" + RenderElems(lib, es) + "]"
    case JObj(fs) => "{" + RenderMembers(lib, fs) + "}"
  }

  function RenderElems(lib: Lib, es: seq<Json>): string
    decreases es, 1
  {
    if es == [] then ""
    else RenderElems(lib, es[..|es| - 1]) + (if |es| > 1 then "," else "") + Render(lib, es[|es| - 1])
  }

  function RenderMembers(lib: Lib, fs: seq<Member>): string
    decreases fs, 1
  {
    if fs == [] then ""
    else
      RenderMembers(lib, fs[..|fs| - 1]) + (if |fs| > 1 then "," else "")
      + lib.quote(fs[|fs| - 1].key) + ":" + Render(lib, fs[|fs| - 1].val)
  }

  /** j is a JSON encoding of v (object members in any order; json.Marshal sorts them). */
  ghost predicate Encodes(lib: Lib, v: Val, j: Json)
    decreases v
  {
    match (v, j)
    case (Null, JNull) => true
    case (Bool(b), JBool(c)) => b == c
    case (Str(s), JStr(t)) => s == t
    case (Int(i), JNum(l)) => l == IntLit(i)
    case (Flt(f), JNum(l)) => f.Fin? && l == lib.spell(f.r)
    case (Arr(xs), JArr(es)) => |xs| == |es| && forall i :: 0 <= i < |xs| ==> Encodes(lib, xs[i], es[i])
    case (Obj(m), JObj(fs)) =>
      && (forall k :: k in m ==> HasKey(fs, k))
      && (forall i :: 0 <= i < |fs| ==> fs[i].key in m && Encodes(lib, m[fs[i].key], fs[i].val))
    case _ => false
  }

  ghost predicate HasKey(fs: seq<Member>, k: string) {
    exists i :: 0 <= i < |fs| && fs[i].key == k
  }

  /** Canonical form: every number is an int64, or a float canonicalFloat leaves alone. */
  ghost predicate IsCanonical(v: Val) {
    match v
    case Flt(f) => f.Fin? && StaysFloat(f.r)
    case Arr(xs) => forall i :: 0 <= i < |xs| ==> IsCanonical(xs[i])
    case Obj(m) => forall k :: k in m ==> IsCanonical(m[k])
    case _ => true
  }

  /** Every finite float is a binary64 number, as the type float64 has it. */
  ghost predicate Float64s(v: Val) {
    match v
    case Flt(f) => f.Fin? ==> IsBinary64(f.r)
    case Arr(xs) => forall i :: 0 <= i < |xs| ==> Float64s(xs[i])
    case Obj(m) => forall k :: k in m ==> Float64s(m[k])
    case _ => true
  }

  // ----- canonicalizing Go values

  /** A Go value: one made of nil, bool, string, int, int64, float64 alone or in generic
      containers, a nil container, a generic container, or any other type, known by what
      json.Marshal makes of it (None: an error). */
  datatype Raw =
    | Plain(v: Val)
    | NilContainer
    | RawArr(xs: seq<Raw>)
    | RawObj(m: map<string, Raw>)
    | Typed(enc: Option<Json>)

  function RoundTrip(lib: Lib, enc: Option<Json>, depth: nat): Option<Val>
    requires depth <= MAX_DEPTH
  {
    match enc
    case None => None
    case Some(j) =>
      match Unmarshal(lib, j, 0)
      case None => None
      case Some(out) =>
        var budget := MAX_DEPTH - depth;
        if |Render(lib, j)| > 2 * budget && Nesting(out) > budget then None else Some(out)
  }

  function Nesting(v: Val): nat {
    match v
    case Arr(xs) => 1 + MaxOf(seq(|xs|, i requires 0 <= i < |xs| => Nesting(xs[i])))
    case Obj(m) => 1 + MaxOfSet(set k | k in m :: Nesting(m[k]))
    case _ => 0
  }

  function MaxOf(ns: seq<nat>): (r: nat)
    ensures forall i :: 0 <= i < |ns| ==> ns[i] <= r
    ensures r == 0 || r in ns
  {
    if ns == [] then 0 else Max(MaxOf(ns[..|ns| - 1]), ns[|ns| - 1])
  }

  /** The largest member of a set of naturals, 0 when it is empty. */
  function MaxOfSet(ns: set<nat>): (r: nat)
    ensures forall n :: n in ns ==> n <= r
    ensures r == 0 || r in ns
  {
    if ns == {} then 0
    else
      HasMaximum(ns);
      var n :| n in ns && forall k :: k in ns ==> k <= n;
      n
  }

  lemma {:induction false} HasMaximum(ns: set<nat>)
    requires ns != {}
    ensures exists n :: n in ns && forall k :: k in ns ==> k <= n
    decreases |ns|
  {
    var n :| n in ns;
    if x :| x in ns && x != n {
      assert x in ns - {n};
      HasMaximum(ns - {n});
      var t :| t in ns - {n} && forall k :: k in ns - {n} ==> k <= t;
      var top := if t < n then n else t;
      assert forall k :: k in ns ==> k == n || k in ns - {n};
      assert top in ns && forall k :: k in ns ==> k <= top;
    } else {
      assert n in ns && forall k :: k in ns ==> k <= n;
    }
  }

  function CanonicalRaw(lib: Lib, r: Raw, depth: nat): Option<Val>
    requires depth <= MAX_DEPTH
    decreases r
  {
    match r
    case Plain(v) => CanonicalAt(v, depth)
    case NilContainer => Some(Null)
    case RawArr(xs) =>
      if depth == MAX_DEPTH || exists i :: 0 <= i < |xs| && CanonicalRaw(lib, xs[i], depth + 1).None? then None
      else Some(Arr(seq(|xs|, i requires 0 <= i < |xs| => CanonicalRaw(lib, xs[i], depth + 1).value)))
    case RawObj(m) =>
      if depth == MAX_DEPTH || exists k :: k in m && CanonicalRaw(lib, m[k], depth + 1).None? then None
      else Some(Obj(map k | k in m :: CanonicalRaw(lib, m[k], depth + 1).value))
    case Typed(enc) => RoundTrip(lib, enc, depth)
  }

  ghost predicate RawFloat64s(r: Raw) {
    match r
    case Plain(v) => Float64s(v)
    case RawArr(xs) => forall i :: 0 <= i < |xs| ==> RawFloat64s(xs[i])
    case RawObj(m) => forall k :: k in m ==> RawFloat64s(m[k])
    case _ => true
  }

  // ----- numbers

  lemma Nearest(lib: Lib, r: real, b: real)
    requires IsStdlib(lib) && lib.round(r).Some? && IsBinary64(b)
    ensures IsBinary64(lib.round(r).value) && Abs(lib.round(r).value - r) <= Abs(b - r)
  {
    hide IsBinary64;
  }

  lemma Exact(lib: Lib, b: real)
    requires IsStdlib(lib) && IsBinary64(b)
    ensures lib.round(b) == Some(b) && lib.round(LitValue(lib.spell(b))) == Some(b)
  {
    hide IsBinary64;
  }

  /** Nothing at or past 2^63 in size rounds back inside. */
  lemma OutOfRangeStaysOut(lib: Lib, n: int)
    requires IsStdlib(lib) && !(-TWO63 <= n < TWO63) && lib.round(n as real).Some?
    ensures StaysFloat(lib.round(n as real).value)
  {
    hide IsStdlib, IsBinary64;
    Boundaries();
    Nearest(lib, n as real, TWO63 as real);
    Nearest(lib, n as real, -(TWO63 as real));
  }

  lemma CanonicalFloatIs(f: Float)
    requires f.Fin? && IsBinary64(f.r)
    ensures IsCanonical(CanonicalFloat(f)) && ValuesEqual(Flt(f), CanonicalFloat(f))
    ensures StaysFloat(f.r) ==> CanonicalFloat(f) == Flt(f)
  {
    hide IsBinary64;
    ComparisonIsExact(Flt(f), CanonicalFloat(f));
  }

  /** Every literal decodes to a canonical number, and never to a clamped integer. */
  lemma FromNumberCanonical(lib: Lib, l: NumLit)
    requires IsStdlib(lib)
    ensures FromNumber(lib, l).Some? ==> IsCanonical(FromNumber(lib, l).value)
    ensures FromNumber(lib, l).Some? && l.IntLit? && FromNumber(lib, l).value.Int? ==> FromNumber(lib, l).value.i == l.n
  {
    hide IsStdlib, IsBinary64;
    match l
    case IntLit(n) => if !(-TWO63 <= n < TWO63) && lib.round(n as real).Some? { OutOfRangeStaysOut(lib, n); }
    case OtherLit(r) =>
      if lib.round(r).Some? {
        Boundaries();
        Nearest(lib, r, TWO63 as real);
        CanonicalFloatIs(Fin(lib.round(r).value));
      }
  }

  /** A plain-digit spelling belongs to a whole number. */
  lemma IntSpellingIsWhole(lib: Lib, b: real, n: int)
    requires IsStdlib(lib) && IsBinary64(b) && lib.round(n as real) == Some(b)
    ensures Whole(b)
  {
    hide IsStdlib, IsBinary64;
    if -MAX_EXACT_INT <= n <= MAX_EXACT_INT {
      ToFloat64Exact(n);
      Exact(lib, n as real);
      WholeIff(b, n);
    } else {
      Boundaries();
      Nearest(lib, n as real, MAX_EXACT_INT as real);
      Nearest(lib, n as real, -(MAX_EXACT_INT as real));
      var q := WholeAbove(b);
      WholeIff(b, q);
    }
  }

  const SHORT: int := 9223372036854776 // ±2^63 to sixteen digits, times a thousand

  /** The sixteen-digit decimal next to ±2^63 parses to it. */
  lemma SixteenDigitsSuffice(lib: Lib, b: real, x: real)
    requires IsStdlib(lib)
    requires (b == TWO63 as real && x == (SHORT * 1000) as real)
             || (b == -(TWO63 as real) && x == (-SHORT * 1000) as real)
    ensures lib.round(x) == Some(b)
  {
    hide IsStdlib, IsBinary64, Abs;
    Boundaries();
    ParsesNear(lib, x);
    var c := lib.round(x).value;
    Nearest(lib, x, b);
    WithinReach(b, x, c);
    var q := SparseAbove(c);
    NoOtherMultiple(q, b > 0.0);
  }

  lemma WithinReach(b: real, x: real, c: real)
    requires (b == TWO63 as real && x == (SHORT * 1000) as real)
             || (b == -(TWO63 as real) && x == (-SHORT * 1000) as real)
    requires Abs(c - x) <= Abs(b - x)
    ensures if b > 0.0 then TWO63 as real <= c <= (TWO63 + 384) as real
      else (-TWO63 - 384) as real <= c <= (-TWO63) as real
  {
    if b > 0.0 {
      assert x - b == 192.0;
    } else {
      assert b - x == 192.0;
    }
  }

  lemma ParsesNear(lib: Lib, x: real)
    requires IsStdlib(lib) && (x == (SHORT * 1000) as real || x == (-SHORT * 1000) as real)
    ensures lib.round(x).Some?
  {
    hide IsStdlib;
    ParsesAt(lib, x);
  }

  lemma ParsesAt(lib: Lib, x: real)
    requires IsStdlib(lib) && Abs(x) <= (SHORT * 1000) as real
    ensures lib.round(x).Some?
  {
    hide IsBinary64, Scaled, SpellsShortest;
    Huge();
    var top := Scaled(MAX_EXACT_INT - 1, 971);
    assert IsBinary64(top) && Abs(x) <= Abs(top);
  }

  /** 2^63 is the only multiple of 2048 in reach. */
  lemma NoOtherMultiple(q: int, positive: bool)
    requires if positive then TWO63 <= 2048 * q <= TWO63 + 384 else -TWO63 - 384 <= 2048 * q <= -TWO63
    ensures 2048 * q == if positive then TWO63 else -TWO63
  {
  }

  lemma Huge()
    ensures IsBinary64(Scaled(MAX_EXACT_INT - 1, 971)) && Scaled(MAX_EXACT_INT - 1, 971) >= (SHORT * 1000) as real
  {
    Pow2Grows(11, 971);
    Pow2Values();
    var p := Pow2(971);
    assert p >= 2048;
    MulAtLeast(MAX_EXACT_INT - 1, p, 2048);
    assert Scaled(MAX_EXACT_INT - 1, 971) == ((MAX_EXACT_INT - 1) * p) as real;
  }

  lemma MulAtLeast(m: int, p: int, least: int)
    requires m >= 0 && p >= least
    ensures m * p >= m * least
  {
  }

  lemma {:induction false} Pow10Grows(a: nat, b: nat)
    requires a <= b
    ensures Pow10(a) <= Pow10(b)
    decreases b
  {
    if a < b { Pow10Grows(a, b - 1); }
  }

  lemma Pow10Values()
    ensures Pow10(2) == 100 && Pow10(3) == 1000
    ensures Pow10(16) == 10_000_000_000_000_000 && Pow10(18) == 1_000_000_000_000_000_000
  {
    assert Pow10(4) == 10_000;
    assert Pow10(8) == 100_000_000;
    assert Pow10(12) == 1_000_000_000_000;
  }

  /** Sixteen digits at a scale below a thousand stay under nineteen digits. */
  lemma SmallScale(d: int, k: int)
    requires -Pow10(16) < d < Pow10(16) && k < 3
    ensures -(Pow10(18) as real) < Dec(d, k) < Pow10(18) as real
  {
    Pow10Values();
    if k < 0 {
      DivideShrinks(d as real, Pow10(-k) as real);
    } else {
      Pow10Grows(k, 2);
      var p := Pow10(k);
      MulBelow(d, Pow10(16), p);
      MulBelow(-d, Pow10(16), p);
      assert (-d) * p == -(d * p);
      MulAtLeast(Pow10(16), 100, p);
    }
  }

  /** A nineteen-digit integer with at most sixteen significant digits is a multiple of 1000. */
  lemma ThousandFold(n: int, d: int, k: int)
    requires n as real == Dec(d, k) && -Pow10(16) < d < Pow10(16) && (n >= Pow10(18) || n <= -Pow10(18))
    ensures n % 1000 == 0
  {
    if k < 3 {
      SmallScale(d, k);
      assert false;
    } else {
      ThousandDivides(k);
      var t := Pow10(k) / 1000;
      assert Pow10(k) == 1000 * t;
      assert n == d * Pow10(k);
      Regroup(d, t);
    }
  }

  lemma Regroup(d: int, t: int)
    ensures d * (1000 * t) == 1000 * (d * t) && (1000 * (d * t)) % 1000 == 0
  {
  }

  lemma {:induction false} ThousandDivides(k: nat)
    requires k >= 3
    ensures Pow10(k) % 1000 == 0
    decreases k
  {
    if k == 3 {
      assert Pow10(1) == 10;
      assert Pow10(2) == 100;
    } else {
      ThousandDivides(k - 1);
    }
  }

  /** The spelling of ±2^63 has at most sixteen significant digits. */
  lemma BoundaryDigits(lib: Lib, b: real) returns (d: int, k: int)
    requires IsStdlib(lib) && (b == TWO63 as real || b == -(TWO63 as real))
    ensures LitValue(lib.spell(b)) == Dec(d, k) && -Pow10(16) < d < Pow10(16)
  {
    var e: int := if b > 0.0 then SHORT else -SHORT;
    Pow10Values();
    Boundaries();
    hide IsBinary64;
    assert Dec(e, 3) == (e * 1000) as real;
    SixteenDigitsSuffice(lib, b, Dec(e, 3));
    hide Dec, Pow10;
    d, k :| Shortest(lib, b, d, k);
  }

  /** Only the 512 integers next to ±2^63 inside int64 round to it. */
  lemma NearBoundary(lib: Lib, b: real, n: int)
    requires IsStdlib(lib) && (b == TWO63 as real || b == -(TWO63 as real)) && lib.round(n as real) == Some(b)
    ensures if b > 0.0 then n >= TWO63 - 512 else n <= -TWO63 + 512
  {
    Boundaries();
    hide IsStdlib, IsBinary64;
    Nearest(lib, n as real, (TWO63 - 1024) as real);
    Nearest(lib, n as real, (1024 - TWO63) as real);
  }

  /** The spelling of ±2^63 is not an int64 literal: encoding/json writes 9223372036854776000. */
  lemma BoundarySpelling(lib: Lib, b: real, n: int)
    requires IsStdlib(lib) && (b == TWO63 as real || b == -(TWO63 as real)) && lib.spell(b) == IntLit(n)
    ensures !(-TWO63 <= n < TWO63)
  {
    var d, k := BoundaryDigits(lib, b);
    Boundaries();
    hide IsStdlib, IsBinary64;
    Exact(lib, b);
    NearBoundary(lib, b, n);
    Pow10Values();
    hide Dec, Pow10;
    ThousandFold(n, d, k);
    NoThousandNear(n);
  }

  lemma NoThousandNear(n: int)
    requires n % 1000 == 0
    ensures !(TWO63 - 512 <= n < TWO63) && !(-TWO63 <= n <= -TWO63 + 512)
  {
    var t := n / 1000;
    assert n == 1000 * t;
  }

  /** A number strictly past ±2^63 is spelled outside int64 as well. */
  lemma BeyondSpelling(lib: Lib, f: real, n: int)
    requires IsStdlib(lib) && (f > TWO63 as real || f < -(TWO63 as real)) && lib.round(n as real) == Some(f)
    ensures !(-TWO63 <= n < TWO63)
  {
    Boundaries();
    hide IsStdlib, IsBinary64;
    Nearest(lib, n as real, TWO63 as real);
    Nearest(lib, n as real, -(TWO63 as real));
  }

  /** A float that canonicalFloat leaves alone decodes back from its own spelling. */
  lemma FloatFixedPoint(lib: Lib, f: real)
    requires IsStdlib(lib) && StaysFloat(f)
    ensures FromNumber(lib, lib.spell(f)) == Some(Flt(Fin(f)))
  {
    hide IsStdlib, IsBinary64;
    Exact(lib, f);
    var l := lib.spell(f);
    match l
    case IntLit(n) =>
      IntSpellingIsWhole(lib, f, n);
      if f == TWO63 as real || f == -(TWO63 as real) {
        BoundarySpelling(lib, f, n);
      } else {
        BeyondSpelling(lib, f, n);
      }
    case OtherLit(r) => CanonicalFloatIs(Fin(f));
  }

  // ----- whole values

  /** Decoding gives only canonical values, nested as deep as the document at most. */
  lemma {:induction false} DecodedCanonical(lib: Lib, j: Json)
    requires IsStdlib(lib) && CanonicalDecoded(lib, j).Some?
    ensures IsCanonical(CanonicalDecoded(lib, j).value) && NestsWithin(CanonicalDecoded(lib, j).value, Depth(j))
    decreases j, 0
  {
    hide IsStdlib;
    match j
    case JNum(l) => FromNumberCanonical(lib, l);
    case JArr(es) => DecodedElemsCanonical(lib, es);
    case JObj(fs) => DecodedMembersCanonical(lib, fs);
    case _ =>
  }

  lemma {:induction false} DecodedElemsCanonical(lib: Lib, es: seq<Json>)
    requires IsStdlib(lib) && CanonicalElems(lib, es).Some?
    ensures forall i :: 0 <= i < |CanonicalElems(lib, es).value| ==>
              IsCanonical(CanonicalElems(lib, es).value[i])
              && NestsWithin(CanonicalElems(lib, es).value[i], ElemsDepth(es))
    decreases es, 1
  {
    hide IsStdlib, CanonicalDecoded, NestsWithin, IsCanonical;
    if es != [] {
      var n := |es| - 1;
      DecodedElemsCanonical(lib, es[..n]);
      DecodedCanonical(lib, es[n]);
      var xs := CanonicalElems(lib, es).value;
      forall i | 0 <= i < |xs| ensures IsCanonical(xs[i]) && NestsWithin(xs[i], ElemsDepth(es)) {
        if i < |xs| - 1 {
          assert xs[i] == CanonicalElems(lib, es[..n]).value[i];
          NestsWider(xs[i], ElemsDepth(es[..n]), ElemsDepth(es));
        } else {
          NestsWider(xs[i], Depth(es[n]), ElemsDepth(es));
        }
      }
    }
  }

  lemma {:induction false} DecodedMembersCanonical(lib: Lib, fs: seq<Member>)
    requires IsStdlib(lib) && CanonicalMembers(lib, fs).Some?
    ensures forall k :: k in CanonicalMembers(lib, fs).value ==>
              IsCanonical(CanonicalMembers(lib, fs).value[k])
              && NestsWithin(CanonicalMembers(lib, fs).value[k], MembersDepth(fs))
    decreases fs, 1
  {
    hide IsStdlib, CanonicalDecoded, NestsWithin, IsCanonical;
    if fs != [] {
      var n := |fs| - 1;
      DecodedMembersCanonical(lib, fs[..n]);
      DecodedCanonical(lib, fs[n].val);
      var m := CanonicalMembers(lib, fs).value;
      forall k | k in m ensures IsCanonical(m[k]) && NestsWithin(m[k], MembersDepth(fs)) {
        if k == fs[n].key {
          NestsWider(m[k], Depth(fs[n].val), MembersDepth(fs));
        } else {
          NestsWider(m[k], MembersDepth(fs[..n]), MembersDepth(fs));
        }
      }
    }
  }

  lemma {:induction false} NestsWider(v: Val, a: nat, b: nat)
    requires NestsWithin(v, a) && a <= b
    ensures NestsWithin(v, b)
    decreases v
  {
    match v
    case Arr(xs) => forall i | 0 <= i < |xs| ensures NestsWithin(xs[i], b - 1) { NestsWider(xs[i], a - 1, b - 1); }
    case Obj(m) => forall k | k in m ensures NestsWithin(m[k], b - 1) { NestsWider(m[k], a - 1, b - 1); }
    case _ =>
  }

  /** nesting measures what NestsWithin bounds. */
  lemma {:induction false} NestingIs(v: Val, d: nat)
    ensures Nesting(v) <= d <==> NestsWithin(v, d)
    decreases v
  {
    match v
    case Arr(xs) =>
      var ns := seq(|xs|, i requires 0 <= i < |xs| => Nesting(xs[i]));
      if d > 0 {
        forall i | 0 <= i < |xs| ensures ns[i] <= d - 1 <==> NestsWithin(xs[i], d - 1) { NestingIs(xs[i], d - 1); }
        if MaxOf(ns) > d - 1 {
          var i :| 0 <= i < |ns| && ns[i] == MaxOf(ns);
          assert !NestsWithin(xs[i], d - 1);
        }
      }
    case Obj(m) =>
      var ns := set k | k in m :: Nesting(m[k]);
      if d > 0 {
        forall k | k in m ensures Nesting(m[k]) <= d - 1 <==> NestsWithin(m[k], d - 1) { NestingIs(m[k], d - 1); }
        if MaxOfSet(ns) > d - 1 {
          var k :| k in m && Nesting(m[k]) == MaxOfSet(ns);
          assert !NestsWithin(m[k], d - 1);
        } else {
          forall k | k in m ensures NestsWithin(m[k], d - 1) { assert Nesting(m[k]) in ns; }
        }
      }
    case _ =>
  }

  /** Every level of nesting costs two bytes of brackets. */
  lemma {:induction false} BracketsCostBytes(lib: Lib, j: Json)
    ensures 2 * Depth(j) <= |Render(lib, j)|
    decreases j, 0
  {
    match j
    case JArr(es) => ElemsCostBytes(lib, es);
    case JObj(fs) => MembersCostBytes(lib, fs);
    case _ =>
  }

  lemma {:induction false} ElemsCostBytes(lib: Lib, es: seq<Json>)
    ensures 2 * ElemsDepth(es) <= |RenderElems(lib, es)|
    decreases es, 1
  {
    if es != [] {
      ElemsCostBytes(lib, es[..|es| - 1]);
      BracketsCostBytes(lib, es[|es| - 1]);
    }
  }

  lemma {:induction false} MembersCostBytes(lib: Lib, fs: seq<Member>)
    ensures 2 * MembersDepth(fs) <= |RenderMembers(lib, fs)|
    decreases fs, 1
  {
    if fs != [] {
      MembersCostBytes(lib, fs[..|fs| - 1]);
      BracketsCostBytes(lib, fs[|fs| - 1].val);
    }
  }

  /** The byte-length shortcut never changes the verdict: a value comes back exactly when its
      document decodes and its nesting fits the remaining budget. */
  lemma ShortcutIsExact(lib: Lib, j: Json, depth: nat)
    requires IsStdlib(lib) && depth <= MAX_DEPTH
    ensures RoundTrip(lib, Some(j), depth) ==
            match Unmarshal(lib, j, 0)
            case None => None
            case Some(out) => if Nesting(out) > MAX_DEPTH - depth then None else Some(out)
  {
    if CanonicalDecoded(lib, j).Some? {
      var out := CanonicalDecoded(lib, j).value;
      DecodedCanonical(lib, j);
      BracketsCostBytes(lib, j);
      NestingIs(out, Depth(j));
    }
  }

  /** What canonicalization accepts is canonical, fits the depth budget, and keeps its value. */
  lemma {:induction false} CanonicalAtIs(v: Val, depth: nat)
    requires depth <= MAX_DEPTH && Float64s(v) && CanonicalAt(v, depth).Some?
    ensures IsCanonical(CanonicalAt(v, depth).value)
    ensures NestsWithin(CanonicalAt(v, depth).value, MAX_DEPTH - depth)
    ensures ValuesEqual(v, CanonicalAt(v, depth).value)
    decreases v
  {
    var c := CanonicalAt(v, depth).value;
    match v
    case Flt(f) => CanonicalFloatIs(f);
    case Arr(xs) =>
      forall i | 0 <= i < |xs| ensures IsCanonical(c.xs[i]) && NestsWithin(c.xs[i], MAX_DEPTH - depth - 1)
      && ValuesEqual(xs[i], c.xs[i]) {
        CanonicalAtIs(xs[i], depth + 1);
      }
    case Obj(m) =>
      assert c.m.Keys == m.Keys && |c.m| == |c.m.Keys| == |m.Keys| == |m|;
      forall k | k in m ensures IsCanonical(c.m[k]) && NestsWithin(c.m[k], MAX_DEPTH - depth - 1)
      && ValuesEqual(m[k], c.m[k]) {
        CanonicalAtIs(m[k], depth + 1);
      }
    case Int(i) => ComparisonIsExact(v, c);
    case _ =>
  }

  lemma {:induction false} CanonicalRawIs(lib: Lib, r: Raw, depth: nat)
    requires IsStdlib(lib) && depth <= MAX_DEPTH && RawFloat64s(r) && CanonicalRaw(lib, r, depth).Some?
    ensures IsCanonical(CanonicalRaw(lib, r, depth).value)
    ensures NestsWithin(CanonicalRaw(lib, r, depth).value, MAX_DEPTH - depth)
    decreases r
  {
    hide IsStdlib;
    var c := CanonicalRaw(lib, r, depth).value;
    match r
    case Plain(v) => CanonicalAtIs(v, depth);
    case NilContainer =>
    case RawArr(xs) =>
      forall i | 0 <= i < |xs| ensures IsCanonical(c.xs[i]) && NestsWithin(c.xs[i], MAX_DEPTH - depth - 1) {
        CanonicalRawIs(lib, xs[i], depth + 1);
      }
    case RawObj(m) =>
      forall k | k in m ensures IsCanonical(c.m[k]) && NestsWithin(c.m[k], MAX_DEPTH - depth - 1) {
        CanonicalRawIs(lib, m[k], depth + 1);
      }
    case Typed(enc) =>
      ShortcutIsExact(lib, enc.value, depth);
      DecodedCanonical(lib, enc.value);
      NestingIs(c, MAX_DEPTH - depth);
  }

  /** A canonical value within the depth limit is left as it is. */
  lemma {:induction false} CanonicalStays(v: Val, depth: nat)
    requires depth <= MAX_DEPTH && IsCanonical(v) && NestsWithin(v, MAX_DEPTH - depth)
    ensures CanonicalAt(v, depth) == Some(v)
    decreases v
  {
    match v
    case Flt(f) => CanonicalFloatIs(f);
    case Arr(xs) =>
      forall i | 0 <= i < |xs| ensures CanonicalAt(xs[i], depth + 1) == Some(xs[i]) {
        CanonicalStays(xs[i], depth + 1);
      }
      assert CanonicalAt(v, depth).value.xs == xs;
    case Obj(m) =>
      forall k | k in m ensures CanonicalAt(m[k], depth + 1) == Some(m[k]) { CanonicalStays(m[k], depth + 1); }
      assert CanonicalAt(v, depth).value.m == m;
    case _ =>
  }

  /** Any encoding of a canonical value decodes to that value. */
  lemma {:induction false} DecodesBack(lib: Lib, v: Val, j: Json)
    requires IsStdlib(lib) && IsCanonical(v) && Encodes(lib, v, j)
    ensures CanonicalDecoded(lib, j) == Some(v)
    decreases j, 0
  {
    hide IsStdlib;
    match v
    case Flt(f) => FloatFixedPoint(lib, f.r);
    case Arr(xs) => ElemsDecodeBack(lib, xs, j.elems);
    case Obj(m) =>
      MembersDecodeBack(lib, m, j.members);
      var got := CanonicalMembers(lib, j.members).value;
      forall k | k in m ensures k in got && got[k] == m[k] {
        var i :| 0 <= i < |j.members| && j.members[i].key == k;
      }
      assert got == m;
    case _ =>
  }

  lemma {:induction false} ElemsDecodeBack(lib: Lib, xs: seq<Val>, es: seq<Json>)
    requires IsStdlib(lib) && |xs| == |es|
    requires forall i :: 0 <= i < |xs| ==> IsCanonical(xs[i]) && Encodes(lib, xs[i], es[i])
    ensures CanonicalElems(lib, es) == Some(xs)
    decreases es, 1
  {
    hide IsStdlib, CanonicalDecoded, IsCanonical, Encodes;
    if es != [] {
      var n := |es| - 1;
      ElemsDecodeBack(lib, xs[..n], es[..n]);
      DecodesBack(lib, xs[n], es[n]);
      assert xs == xs[..n] + [xs[n]];
    }
  }

  lemma {:induction false} MembersDecodeBack(lib: Lib, m: map<string, Val>, fs: seq<Member>)
    requires IsStdlib(lib) && forall k :: k in m ==> IsCanonical(m[k])
    requires forall i :: 0 <= i < |fs| ==> fs[i].key in m && Encodes(lib, m[fs[i].key], fs[i].val)
    ensures CanonicalMembers(lib, fs).Some?
    ensures forall k :: k in CanonicalMembers(lib, fs).value ==> k in m && CanonicalMembers(lib, fs).value[k] == m[k]
    ensures forall i :: 0 <= i < |fs| ==> fs[i].key in CanonicalMembers(lib, fs).value
    decreases fs, 1
  {
    hide IsStdlib, CanonicalDecoded, IsCanonical, Encodes;
    if fs != [] {
      var n := |fs| - 1;
      MembersDecodeBack(lib, m, fs[..n]);
      DecodesBack(lib, m[fs[n].key], fs[n].val);
      forall i | 0 <= i < |fs| ensures fs[i].key in CanonicalMembers(lib, fs).value {
        if i < n { assert fs[i] == fs[..n][i]; }
      }
    }
  }

  lemma {:induction false} EncodingDepth(lib: Lib, v: Val, j: Json, d: nat)
    requires Encodes(lib, v, j) && NestsWithin(v, d)
    ensures Depth(j) <= d
    decreases j, 0
  {
    match v
    case Arr(xs) => ElemsEncodingDepth(lib, xs, j.elems, d - 1);
    case Obj(m) => MembersEncodingDepth(lib, m, j.members, d - 1);
    case _ =>
  }

  lemma {:induction false} ElemsEncodingDepth(lib: Lib, xs: seq<Val>, es: seq<Json>, d: nat)
    requires |xs| == |es| && forall i :: 0 <= i < |xs| ==> Encodes(lib, xs[i], es[i]) && NestsWithin(xs[i], d)
    ensures ElemsDepth(es) <= d
    decreases es, 1
  {
    if es != [] {
      var n := |es| - 1;
      ElemsEncodingDepth(lib, xs[..n], es[..n], d);
      EncodingDepth(lib, xs[n], es[n], d);
    }
  }

  lemma {:induction false} MembersEncodingDepth(lib: Lib, m: map<string, Val>, fs: seq<Member>, d: nat)
    requires forall i :: 0 <= i < |fs| ==> fs[i].key in m && Encodes(lib, m[fs[i].key], fs[i].val)
    requires forall k :: k in m ==> NestsWithin(m[k], d)
    ensures MembersDepth(fs) <= d
    decreases fs, 1
  {
    if fs != [] {
      var n := |fs| - 1;
      MembersEncodingDepth(lib, m, fs[..n], d);
      EncodingDepth(lib, m[fs[n].key], fs[n].val, d);
    }
  }

  /** The fixed-point law: whatever Go value canonicalization accepts, the result is left alone
      by canonicalizing it again, nests within MaxDepth, and is read back unchanged from any
      checkpoint that encloses its encoding in at most 1000 further containers. */
  lemma CanonicalIsFixedPoint(lib: Lib, r: Raw, j: Json, outer: nat)
    requires IsStdlib(lib) && RawFloat64s(r) && CanonicalRaw(lib, r, 0).Some? && outer <= DECODER_DEPTH - MAX_DEPTH
    ensures var v := CanonicalRaw(lib, r, 0).value;
            && Canonical(v) == Some(v)
            && Nesting(v) <= MAX_DEPTH
            && (Encodes(lib, v, j) ==> Unmarshal(lib, j, outer) == Some(v))
  {
    var v := CanonicalRaw(lib, r, 0).value;
    CanonicalRawIs(lib, r, 0);
    CanonicalStays(v, 0);
    NestingIs(v, MAX_DEPTH);
    if Encodes(lib, v, j) {
      DecodesBack(lib, v, j);
      EncodingDepth(lib, v, j, MAX_DEPTH);
    }
  }

  /** A value reached without the round trip keeps its value under the exact comparator. */
  lemma CanonicalKeepsValue(v: Val)
    requires Float64s(v) && Canonical(v).Some?
    ensures ValuesEqual(v, Canonical(v).value) && ValuesEqual(Canonical(v).value, v)
  {
    CanonicalAtIs(v, 0);
    EqualSymmetric(v, Canonical(v).value);
  }
}
