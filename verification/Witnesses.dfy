/** The assumptions made of the Go standard library can be met: for each of them a library that
    satisfies it is constructed, so no result that rests on one is empty. */
module Witnesses {
  import opened Values
  import opened Common
  import opened Compare
  import Codec
  import Digest
  import DigestIdentity
  import JsonText
  import Audit

  // ----- strings that show where they end

  /** A string behind its length. */
  function Framed(s: string): string {
    Codec.FormatInt(|s|) + (":" + s)
  }

  lemma FramedShowsEnd(a: string, b: string, x: string, y: string)
    requires Framed(a) + x == Framed(b) + y
    ensures a == b && x == y
  {
    var m, n := Codec.FormatInt(|a|), Codec.FormatInt(|b|);
    Glue4(m, ":", a, x);
    Glue4(n, ":", b, y);
    assert (m + (":" + a)) + x == m + (":" + (a + x)) by { assert ":" + a + x == ":" + (a + x); }
    assert (n + (":" + b)) + y == n + (":" + (b + y)) by { assert ":" + b + y == ":" + (b + y); }
    DigestIdentity.IntCut(|a|, |b|, ":" + (a + x), ":" + (b + y));
    Cut(":", a + x, b + y);
    assert a == (a + x)[..|a|] && b == (b + y)[..|b|];
    assert x == (a + x)[|a|..] && y == (b + y)[|b|..];
  }

  /** A hash of the standard length and a self-delimiting quote exist. */
  lemma AuditLibraryExists()
    ensures exists lib :: Audit.IsStdlib(lib)
  {
    var digest: string := seq(64, i => '0');
    var lib := Audit.Lib((s: string) => digest, Framed);
    forall a, b, x, y | lib.quote(a) + x == lib.quote(b) + y ensures a == b && x == y { FramedShowsEnd(a, b, x, y); }
    assert Audit.IsStdlib(lib);
  }

  // ----- spelling float64 values

  /** Significand and exponent of a binary64 number. */
  ghost function Parts(r: real): (int, int)
    requires IsBinary64(r)
    ensures r == Scaled(Parts(r).0, Parts(r).1)
  {
    var m: int, e: int :| -MAX_EXACT_INT < m < MAX_EXACT_INT && -1074 <= e <= 971 && r == Scaled(m, e);
    (m, e)
  }

  ghost function SpellParts(q: (int, int)): string {
    Codec.FormatInt(q.0) + ("e" + Codec.FormatInt(q.1))
  }

  ghost function SpellFloat(f: Float): string {
    match f
    case NaN => "NaN"
    case PosInf => "+Inf"
    case NegInf => "-Inf"
    case Fin(r) => if IsBinary64(r) then SpellParts(Parts(r)) else ""
  }

  lemma PartsApart(q: (int, int), t: (int, int))
    requires SpellParts(q) == SpellParts(t)
    ensures q == t
  {
    var a, b := Codec.FormatInt(q.1), Codec.FormatInt(t.1);
    DigestIdentity.IntCut(q.0, t.0, "e" + a, "e" + b);
    Cut("e", a, b);
    DigestIdentity.FormatIntInjective(q.1, t.1);
  }

  lemma PartsOpen(q: (int, int))
    ensures |SpellParts(q)| >= 3 && 'e' in SpellParts(q) && DigestIdentity.Made(DigestIdentity.Floaty, SpellParts(q))
  {
    var s := SpellParts(q);
    assert s[|Codec.FormatInt(q.0)|] == 'e';
  }

  lemma FloatsApart(f: Float, g: Float)
    requires DigestIdentity.IsFloat64(f) && DigestIdentity.IsFloat64(g) && SpellFloat(f) == SpellFloat(g)
    ensures f == g
  {
    hide IsBinary64, SpellParts, Scaled;
    if f.Fin? { PartsOpen(Parts(f.r)); }
    if g.Fin? { PartsOpen(Parts(g.r)); }
    assert 'e' !in "NaN" && 'e' !in "+Inf" && 'e' !in "-Inf";
    assert "NaN"[0] == 'N' && "+Inf"[0] == '+' && "-Inf"[0] == '-';
    if f.Fin? && g.Fin? { PartsApart(Parts(f.r), Parts(g.r)); }
  }

  lemma StrconvExists()
    ensures exists sp :: DigestIdentity.IsStrconv(sp)
  {
    var sp := Digest.Spell(Framed, (f: Float) => SpellFloat(f), (v: Val) => "");
    forall a, b, x, y | sp.quote(a) + x == sp.quote(b) + y ensures a == b && x == y { FramedShowsEnd(a, b, x, y); }
    forall f | DigestIdentity.IsFloat64(f) ensures DigestIdentity.Made(DigestIdentity.Floaty, sp.float(f)) {
      if f.Fin? { PartsOpen(Parts(f.r)); }
    }
    forall f, g | DigestIdentity.IsFloat64(f) && DigestIdentity.IsFloat64(g)
    && sp.float(f) == sp.float(g) ensures f == g {
      FloatsApart(f, g);
    }
    assert DigestIdentity.IsStrconv(sp);
  }

  // ----- rounding to the nearest binary64 number

  ghost function Binary64s(): set<real> {
    set m: int, e: int | -MAX_EXACT_INT < m < MAX_EXACT_INT && -1074 <= e <= 971 :: Scaled(m, e)
  }

  function Gap(b: real, r: real): real {
    JsonText.Abs(b - r)
  }

  ghost predicate Closest(s: set<real>, r: real, b: real) {
    b in s && forall c :: c in s ==> Gap(b, r) <= Gap(c, r)
  }

  lemma {:induction false} NearestIn(s: set<real>, r: real) returns (b: real)
    requires s != {}
    ensures Closest(s, r, b)
    decreases |s|
  {
    hide Gap;
    assert (forall x :: x !in s) ==> s == {};
    var x :| x in s;
    b := x;
    var rest := s - {b};
    assert forall c :: c in s ==> c == b || c in rest;
    if rest != {} {
      var d := NearestIn(rest, r);
      if Gap(d, r) < Gap(b, r) { b := d; }
    }
  }

  lemma Binary64sAre(b: real)
    ensures b in Binary64s() <==> IsBinary64(b)
  {
  }

  ghost function Round(r: real): (b: real)
    ensures IsBinary64(b) && forall c :: IsBinary64(c) ==> JsonText.Abs(b - r) <= JsonText.Abs(c - r)
  {
    hide IsBinary64, Binary64s;
    ToFloat64Exact(0);
    Binary64sAre(ToFloat64(0));
    assert exists b :: Closest(Binary64s(), r, b) by { var b := NearestIn(Binary64s(), r); }
    var b :| Closest(Binary64s(), r, b);
    Binary64sAre(b);
    assert forall c :: Gap(c, r) == JsonText.Abs(c - r);
    assert forall c :: IsBinary64(c) ==> c in Binary64s() by {
      forall c | IsBinary64(c) ensures c in Binary64s() { Binary64sAre(c); }
    }
    b
  }

  // ----- shortest decimals

  ghost function Pow5(k: nat): (p: int)
    ensures p >= 1
  {
    if k == 0 then 1 else 5 * Pow5(k - 1)
  }

  lemma {:induction false} TenIsTwiceFive(k: nat)
    ensures JsonText.Pow10(k) == Pow2(k) * Pow5(k)
    decreases k
  {
    if k > 0 {
      TenIsTwiceFive(k - 1);
      Regroup(Pow2(k - 1), Pow5(k - 1));
    }
  }

  lemma Regroup(a: int, b: int)
    ensures 10 * (a * b) == (2 * a) * (5 * b)
  {
  }

  lemma CancelFactor(m: real, a: real, b: real)
    requires a > 0.0 && b > 0.0
    ensures (m * b) / (a * b) == m / a
  {
    assert (m / a) * (a * b) == m * b;
  }

  /** Every binary64 number is a decimal fraction. */
  lemma BinaryIsDecimal(r: real) returns (d: int, k: int)
    requires IsBinary64(r)
    ensures r == JsonText.Dec(d, k)
  {
    var m, e := Parts(r).0, Parts(r).1;
    if e >= 0 {
      d, k := m * Pow2(e), 0;
      assert JsonText.Pow10(0) == 1;
    } else {
      var n: nat := -e;
      d, k := m * Pow5(n), e;
      TenIsTwiceFive(n);
      CancelFactor(m as real, Pow2(n) as real, Pow5(n) as real);
      assert (m * Pow5(n)) as real == (m as real) * (Pow5(n) as real);
      assert (Pow2(n) * Pow5(n)) as real == (Pow2(n) as real) * (Pow5(n) as real);
    }
  }

  function Size(d: int): nat {
    if d < 0 then -d else d
  }

  /** d at scale k is a decimal that rounds to b. */
  ghost predicate Names(b: real, d: int, k: int) {
    Round(JsonText.Dec(d, k)) == b
  }

  lemma {:induction false} LeastNaming(b: real, d: int, k: int) returns (d': int, k': int)
    requires Names(b, d, k)
    ensures Names(b, d', k') && forall e: int, j: int :: Names(b, e, j) ==> Size(d') <= Size(e)
    decreases Size(d)
  {
    hide Names;
    if e: int, j: int :| Names(b, e, j) && Size(e) < Size(d) {
      d', k' := LeastNaming(b, e, j);
    } else {
      d', k' := d, k;
    }
  }

  lemma NearestIsExact(b: real)
    requires IsBinary64(b)
    ensures Round(b) == b
  {
    hide IsBinary64;
    assert JsonText.Abs(Round(b) - b) <= JsonText.Abs(b - b);
  }

  /** The fewest digits that parse back to b. */
  ghost function Spelling(b: real): (q: (int, int))
    requires IsBinary64(b)
    ensures Names(b, q.0, q.1) && forall e: int, j: int :: Names(b, e, j) ==> Size(q.0) <= Size(e)
  {
    hide Names, IsBinary64;
    SpellingExists(b);
    var q: (int, int) :| Names(b, q.0, q.1) && forall e: int, j: int :: Names(b, e, j) ==> Size(q.0) <= Size(e);
    q
  }

  lemma SpellingExists(b: real)
    requires IsBinary64(b)
    ensures exists q: (int, int) ::
              Names(b, q.0, q.1) && forall e: int, j: int :: Names(b, e, j) ==> Size(q.0) <= Size(e)
  {
    var d, k := BinaryIsDecimal(b);
    hide IsBinary64;
    NearestIsExact(b);
    assert Names(b, d, k);
    hide Names;
    var d', k' := LeastNaming(b, d, k);
    var q := (d', k');
    assert Names(b, q.0, q.1);
  }

  ghost function SpellNumber(b: real): JsonText.NumLit {
    if IsBinary64(b) then JsonText.OtherLit(JsonText.Dec(Spelling(b).0, Spelling(b).1)) else JsonText.OtherLit(b)
  }

  /** The library made of the two constructions. */
  ghost predicate Built(lib: JsonText.Lib) {
    (forall r: real :: lib.round(r) == Some(Round(r))) && (forall r: real :: lib.spell(r) == SpellNumber(r))
  }

  lemma SpellNumberShortest(lib: JsonText.Lib, b: real)
    requires Built(lib) && IsBinary64(b)
    ensures JsonText.Shortest(lib, b, Spelling(b).0, Spelling(b).1)
            && lib.round(JsonText.LitValue(lib.spell(b))) == Some(b)
  {
    hide IsBinary64, JsonText.Dec;
    var q := Spelling(b);
    assert lib.spell(b) == SpellNumber(b);
    assert lib.round(JsonText.LitValue(lib.spell(b))) == Some(Round(JsonText.Dec(q.0, q.1)));
    forall e: int, j: int, n: nat | lib.round(JsonText.Dec(e, j)) == Some(b)
    && -JsonText.Pow10(n) < e < JsonText.Pow10(n)
      ensures -JsonText.Pow10(n) < q.0 < JsonText.Pow10(n)
    {
      assert lib.round(JsonText.Dec(e, j)) == Some(Round(JsonText.Dec(e, j)));
      assert Names(b, e, j);
    }
  }

  lemma BuiltRounds(lib: JsonText.Lib)
    requires Built(lib)
    ensures JsonText.RoundsToNearest(lib)
  {
    hide IsBinary64;
    forall b: real | IsBinary64(b) ensures lib.round(b) == Some(b) { NearestIsExact(b); }
  }

  lemma BuiltSpells(lib: JsonText.Lib)
    requires Built(lib)
    ensures JsonText.SpellsShortest(lib)
  {
    hide IsBinary64, JsonText.Shortest;
    forall b: real | IsBinary64(b)
      ensures lib.round(JsonText.LitValue(lib.spell(b))) == Some(b)
              && exists d: int, k: int :: JsonText.Shortest(lib, b, d, k)
    {
      SpellNumberShortest(lib, b);
    }
  }

  ghost function TheLibrary(): JsonText.Lib {
    JsonText.Lib((r: real) => Some(Round(r)), (r: real) => SpellNumber(r), (s: string) => s,
        (l: JsonText.NumLit) => "0")
  }

  lemma TheLibraryIsBuilt()
    ensures Built(TheLibrary())
  {
    hide IsBinary64, SpellNumber;
  }

  /** A float parser that rounds to nearest and a shortest speller exist. */
  lemma NumberLibraryExists()
    ensures exists lib :: JsonText.IsStdlib(lib)
  {
    hide JsonText.RoundsToNearest, JsonText.SpellsShortest, Built, TheLibrary;
    TheLibraryIsBuilt();
    BuiltRounds(TheLibrary());
    BuiltSpells(TheLibrary());
    assert JsonText.IsStdlib(TheLibrary());
  }
}
