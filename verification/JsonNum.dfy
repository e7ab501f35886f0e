module JsonNum {
  import opened Values
  import opened Compare

  const MAX_DEPTH: nat := 9000 // 10000 levels decode, 1000 are kept for checkpoint envelopes

  function CanonicalFloat(f: Float): Val {
    if f.Fin? && f.r == Trunc(f.r) as real && -(TWO63 as real) < f.r < TWO63 as real
    then Int(Trunc(f.r))
    else Flt(f)
  }

  function Canonical(v: Val): Option<Val> {
    CanonicalAt(v, 0)
  }

  function CanonicalAt(v: Val, depth: nat): Option<Val>
    decreases v
  {
    match v
    case Flt(f) => if f.Fin? then Some(CanonicalFloat(f)) else None
    case Arr(xs) =>
      if depth >= MAX_DEPTH || exists i :: 0 <= i < |xs| && CanonicalAt(xs[i], depth + 1).None? then None
      else Some(Arr(seq(|xs|, i requires 0 <= i < |xs| => CanonicalAt(xs[i], depth + 1).value)))
    case Obj(m) =>
      if depth >= MAX_DEPTH || exists k :: k in m && CanonicalAt(m[k], depth + 1).None? then None
      else Some(Obj(map k | k in m :: CanonicalAt(m[k], depth + 1).value))
    case _ => Some(v)
  }
}
