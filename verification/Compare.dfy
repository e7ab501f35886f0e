/** The value comparator of internal/execir/eval.go: numbers compare by exact
    value across int64 and float64, containers compare structurally. */
module Compare {
  import opened Values

  const MAX_EXACT_INT: int := 0x20_0000_0000_0000 // 2^53

  function CmpInt(a: int, b: int): int {
    if a < b then -1 else if a > b then 1 else 0
  }

  function CmpReal(a: real, b: real): int {
    if a < b then -1 else if a > b then 1 else 0
  }

  /** math.Trunc followed by the (then exact) conversion to an integer. */
  function Trunc(r: real): int {
    if r >= 0.0 then r.Floor else -((-r).Floor)
  }

  /** A value is a binary64 number when it is a 53-bit integer scaled by a power of two. */
  ghost predicate IsBinary64(r: real) {
    exists m: int, e: int :: -MAX_EXACT_INT < m < MAX_EXACT_INT && -1074 <= e <= 971 && r == Scaled(m, e)
  }

  ghost function Pow2(e: nat): (p: int)
    ensures p >= 1
  {
    if e == 0 then 1 else 2 * Pow2(e - 1)
  }

  ghost function Scaled(m: int, e: int): real {
    if e >= 0 then (m * Pow2(e)) as real else (m as real) / (Pow2(-e) as real)
  }

  /** float64(i): the conversion the comparator performs only for |i| <= 2^53. */
  function ToFloat64(i: int): (r: real)
    requires -MAX_EXACT_INT <= i <= MAX_EXACT_INT
  {
    i as real
  }

  /** The conversion loses nothing there: the integer is itself a binary64 number. */
  lemma ToFloat64Exact(i: int)
    requires -MAX_EXACT_INT <= i <= MAX_EXACT_INT
    ensures IsBinary64(ToFloat64(i))
  {
    assert Pow2(0) == 1 && Pow2(1) == 2;
    if -MAX_EXACT_INT < i < MAX_EXACT_INT {
      assert ToFloat64(i) == Scaled(i, 0);
    } else {
      assert i == 2 * (i / 2);
      assert ToFloat64(i) == Scaled(i / 2, 1);
    }
  }

  function CompareIntFloat(i: int64, f: Float): Option<int> {
    match f
    case NaN => None
    case PosInf => Some(-1)
    case NegInf => Some(1)
    case Fin(r) =>
      if -MAX_EXACT_INT <= i <= MAX_EXACT_INT then Some(CmpReal(ToFloat64(i), r))
      else if r >= TWO63 as real then Some(-1)
      else if r < -(TWO63 as real) then Some(1)
      else
        var ti := Trunc(r);
        if r == ti as real then Some(CmpInt(i, ti))
        else if r > 0.0 then (if i <= ti then Some(-1) else Some(1))
        else if i < ti then Some(-1) else Some(1)
  }

  predicate IsNumeric(v: Val) {
    v.Int? || v.Flt?
  }

  function TryCompareNumeric(a: Val, b: Val): Option<int> {
    match (a, b)
    case (Int(i), Int(j)) => Some(CmpInt(i, j))
    case (Int(i), Flt(f)) => CompareIntFloat(i, f)
    case (Flt(f), Int(j)) =>
      (match CompareIntFloat(j, f) case None => None case Some(c) => Some(-c))
    case (Flt(f), Flt(g)) => CompareFloats(f, g)
    case _ => None
  }

  function CompareFloats(f: Float, g: Float): Option<int> {
    match (f, g)
    case (NaN, _) => None
    case (_, NaN) => None
    case (Fin(x), Fin(y)) => Some(CmpReal(x, y))
    case _ => if f == g then Some(0) else if f == NegInf || g == PosInf then Some(-1) else Some(1)
  }

  datatype Rel = Lt | Le | Gt | Ge

  function Holds(op: Rel, c: int): bool {
    match op case Lt => c < 0 case Le => c <= 0 case Gt => c > 0 case Ge => c >= 0
  }

  /** None is the "needs numeric operands" error. */
  function CompareOrdered(op: Rel, a: Val, b: Val): Option<bool> {
    match TryCompareNumeric(a, b)
    case Some(c) => Some(Holds(op, c))
    case None => if IsNumeric(a) && IsNumeric(b) then Some(false) else None
  }

  predicate ValuesEqual(a: Val, b: Val)
    decreases a
  {
    match TryCompareNumeric(a, b)
    case Some(c) => c == 0
    case None =>
      if IsNumeric(a) || IsNumeric(b) then false
      else match a
        case Arr(xs) => b.Arr? && |xs| == |b.xs| && forall i | 0 <= i < |xs| :: ValuesEqual(xs[i], b.xs[i])
        case Obj(m) => b.Obj? && |m| == |b.m| && forall k | k in m :: k in b.m && ValuesEqual(m[k], b.m[k])
        case _ => a == b
  }

  // ----- what the comparator promises

  /** The number a numeric value denotes, in the extended reals (or NaN). */
  ghost function Number(v: Val): Float
    requires IsNumeric(v)
  {
    match v case Int(i) => Fin(i as real) case Flt(f) => f
  }

  /** Order of the extended reals, NaN unordered (section 5.11 of IEEE 754-2019). */
  ghost predicate Below(x: Float, y: Float) {
    !x.NaN? && !y.NaN? && x != y && (x.NegInf? || y.PosInf? || (x.Fin? && y.Fin? && x.r < y.r))
  }

  lemma CompareIntFloatExact(i: int64, r: real)
    ensures CompareIntFloat(i, Fin(r)) == Some(CmpReal(i as real, r))
  {
    var ti := Trunc(r);
    if r >= 0.0 {
      assert ti as real <= r < (ti + 1) as real;
    } else {
      assert (ti - 1) as real < r <= ti as real;
    }
  }

  /** tryCompareNumeric decides the extended-real order exactly for every mix of
      int64 and float64 operands, and is undefined exactly on NaN. */
  lemma ComparisonIsExact(a: Val, b: Val)
    requires IsNumeric(a) && IsNumeric(b)
    ensures var c := TryCompareNumeric(a, b);
            var x, y := Number(a), Number(b);
            && (c.None? <==> x.NaN? || y.NaN?)
            && (c == Some(-1) <==> Below(x, y))
            && (c == Some(1) <==> Below(y, x))
            && (c == Some(0) <==> x == y && !x.NaN?)
  {
    if a.Int? && b.Flt? && b.f.Fin? { CompareIntFloatExact(a.i, b.f.r); }
    if a.Flt? && b.Int? && a.f.Fin? { CompareIntFloatExact(b.i, a.f.r); }
  }

  /** Ordering chains across representations: a <= b < c gives a < c even when
      the three operands mix int64 values past 2^53 with floats. */
  lemma OrderingIsTransitive(a: Val, b: Val, c: Val)
    requires CompareOrdered(Le, a, b) == Some(true) && CompareOrdered(Le, b, c) == Some(true)
    ensures CompareOrdered(Le, a, c) == Some(true)
    ensures CompareOrdered(Lt, a, b) == Some(true) || CompareOrdered(Lt, b, c) == Some(true)
            ==> CompareOrdered(Lt, a, c) == Some(true)
  {
    ComparisonIsExact(a, b);
    ComparisonIsExact(b, c);
    ComparisonIsExact(a, c);
  }

  /** On two numbers every relational operator answers, and on a NaN they all say no. */
  lemma OrderingTrichotomy(a: Val, b: Val)
    requires IsNumeric(a) && IsNumeric(b)
    ensures Number(a).NaN? || Number(b).NaN?
            ==> forall op :: CompareOrdered(op, a, b) == Some(false)
    ensures !Number(a).NaN? && !Number(b).NaN? ==>
              && CompareOrdered(Le, a, b) == Some(CompareOrdered(Lt, a, b) == Some(true) || ValuesEqual(a, b))
              && CompareOrdered(Ge, a, b) == Some(CompareOrdered(Lt, a, b) == Some(false))
              && CompareOrdered(Gt, a, b) == CompareOrdered(Lt, b, a)
  {
    ComparisonIsExact(a, b);
    ComparisonIsExact(b, a);
  }

  ghost predicate NaNFree(v: Val) {
    match v
    case Flt(f) => !f.NaN?
    case Arr(xs) => forall i | 0 <= i < |xs| :: NaNFree(xs[i])
    case Obj(m) => forall k | k in m :: NaNFree(m[k])
    case _ => true
  }

  lemma {:induction false} EqualReflexive(a: Val)
    requires NaNFree(a)
    ensures ValuesEqual(a, a)
  {
    if IsNumeric(a) {
      ComparisonIsExact(a, a);
    } else if a.Arr? {
      forall i | 0 <= i < |a.xs| ensures ValuesEqual(a.xs[i], a.xs[i]) { EqualReflexive(a.xs[i]); }
    } else if a.Obj? {
      forall k | k in a.m ensures ValuesEqual(a.m[k], a.m[k]) { EqualReflexive(a.m[k]); }
    }
  }

  lemma SameSizeSubset<K>(s: set<K>, t: set<K>)
    requires s <= t && |s| == |t|
    ensures s == t
  {
    assert |t - s| == |t| - |s|;
    assert t == s + (t - s);
  }

  /** len equal plus every key of a present in b means the key sets coincide. */
  lemma EqualObjectsSameKeys(m: map<string, Val>, n: map<string, Val>)
    requires ValuesEqual(Obj(m), Obj(n))
    ensures m.Keys == n.Keys
  {
    assert m.Keys <= n.Keys;
    SameSizeSubset(m.Keys, n.Keys);
  }

  lemma {:induction false} EqualSymmetric(a: Val, b: Val)
    requires ValuesEqual(a, b)
    ensures ValuesEqual(b, a)
    decreases a
  {
    if IsNumeric(a) && IsNumeric(b) {
      ComparisonIsExact(a, b);
      ComparisonIsExact(b, a);
    } else if a.Arr? {
      forall i | 0 <= i < |a.xs| ensures ValuesEqual(b.xs[i], a.xs[i]) { EqualSymmetric(a.xs[i], b.xs[i]); }
    } else if a.Obj? {
      EqualObjectsSameKeys(a.m, b.m);
      forall k | k in b.m ensures ValuesEqual(b.m[k], a.m[k]) { assert k in a.m; EqualSymmetric(a.m[k], b.m[k]); }
    }
  }

  lemma {:induction false} EqualTransitive(a: Val, b: Val, c: Val)
    requires ValuesEqual(a, b) && ValuesEqual(b, c)
    ensures ValuesEqual(a, c)
    decreases a
  {
    if IsNumeric(a) && IsNumeric(b) && IsNumeric(c) {
      ComparisonIsExact(a, b);
      ComparisonIsExact(b, c);
      ComparisonIsExact(a, c);
    } else if a.Arr? {
      forall i | 0 <= i < |a.xs| ensures ValuesEqual(a.xs[i], c.xs[i]) { EqualTransitive(a.xs[i], b.xs[i], c.xs[i]); }
    } else if a.Obj? {
      EqualObjectsSameKeys(a.m, b.m);
      EqualObjectsSameKeys(b.m, c.m);
      forall k | k in a.m ensures k in c.m && ValuesEqual(a.m[k], c.m[k]) { EqualTransitive(a.m[k], b.m[k], c.m[k]); }
    }
  }
}
