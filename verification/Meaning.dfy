/** What values and conditions mean (internal/execir/eval.go), said without the evaluator: which
    value an expression denotes in a scope, and when a condition holds. The evaluator decides
    exactly that. */
module Meaning {
  import opened Values
  import opened ExecIR
  import opened Eval
  import Compare

  // ----- values

  /** Following the path from v leads to x; what is not there is null. */
  ghost predicate LeadsTo(v: Val, path: seq<string>, x: Val)
    decreases |path|
  {
    if path == [] then x == v
    else if v.Obj? && path[0] in v.m then LeadsTo(v.m[path[0]], path[1..], x)
    else x == Null
  }

  /** The field is the last with its key. */
  predicate IsLast(fs: seq<Field>, i: nat)
    requires i < |fs|
  {
    forall j :: i < j < |fs| ==> fs[j].key != fs[i].key
  }

  /** The text is that of the values, one after the other. */
  ghost predicate Spells(rn: Render, xs: seq<Val>, text: string)
    decreases |xs|
  {
    if xs == [] then text == ""
    else rn(xs[0]) <= text && Spells(rn, xs[1..], text[|rn(xs[0])|..])
  }

  /** In scope s the expression denotes x. An object denotes, under each key, what the last field
      with that key denotes, and all its fields denote something. */
  ghost predicate Denotes(rn: Render, s: Scope, v: Value, x: Val)
    decreases v, 0
  {
    match v
    case Lit(y) => x == y
    case NilValue => x == Null
    case Ref(path) => path != [] && path[0] in s && LeadsTo(s[path[0]], path[1..], x)
    case List(vs) => x.Arr? && DenoteAll(rn, s, vs, x.xs)
    case Template(vs) => x.Str? && exists xs :: DenoteAll(rn, s, vs, xs) && Spells(rn, xs, x.s)
    case Object(fs) => x.Obj? && FieldsDenote(rn, s, fs, x.m)
  }

  ghost predicate SomeDenoted(rn: Render, s: Scope, v: Value)
    decreases v, 1
  {
    exists y :: Denotes(rn, s, v, y)
  }

  predicate HasKey(fs: seq<Field>, k: string) {
    exists i :: 0 <= i < |fs| && fs[i].key == k
  }

  ghost predicate FieldsDenote(rn: Render, s: Scope, fs: seq<Field>, m: map<string, Val>)
    decreases fs, 2
  {
    && (forall k :: k in m <==> HasKey(fs, k))
    && (forall i: nat | i < |fs| :: SomeDenoted(rn, s, fs[i].val))
    && (forall i: nat | i < |fs| && IsLast(fs, i) :: fs[i].key in m && Denotes(rn, s, fs[i].val, m[fs[i].key]))
  }

  ghost predicate DenoteAll(rn: Render, s: Scope, vs: seq<Value>, xs: seq<Val>)
    decreases vs, 1
  {
    |xs| == |vs| && forall i: nat | i < |vs| :: Denotes(rn, s, vs[i], xs[i])
  }

  lemma {:induction false} Descends(v: Val, path: seq<string>, x: Val)
    ensures Descend(v, path) == x <==> LeadsTo(v, path, x)
    decreases |path|
  {
    if path != [] {
      if v.Obj? && path[0] in v.m {
        Descends(v.m[path[0]], path[1..], x);
      } else {
        NullStays(path[1..]);
      }
    }
  }

  lemma {:induction false} NullStays(path: seq<string>)
    ensures Descend(Null, path) == Null
    decreases |path|
  {
  }

  lemma {:induction false} ConcatSpells(rn: Render, xs: seq<Val>, text: string)
    ensures Concat(rn, xs) == text <==> Spells(rn, xs, text)
    decreases |xs|
  {
    if xs != [] {
      var head, rest := rn(xs[0]), Concat(rn, xs[1..]);
      assert (head + rest)[|head|..] == rest;
      if head <= text {
        ConcatSpells(rn, xs[1..], text[|head|..]);
        assert text == head + text[|head|..];
      }
    }
  }

  /** The evaluator gives exactly what the expression denotes. */
  lemma {:induction false} EvalDenotes(rn: Render, s: Scope, v: Value, x: Val)
    ensures EvalValue(rn, s, v) == Some(x) <==> Denotes(rn, s, v, x)
    decreases v, 1
  {
    hide Descend, Concat, Spells, LeadsTo;
    match v
    case Ref(path) => if path != [] && path[0] in s { Descends(s[path[0]], path[1..], x); }
    case List(vs) =>
      forall xs ensures EvalValues(rn, s, vs) == Some(xs) <==> DenoteAll(rn, s, vs, xs) {
        ListDenotes(rn, s, vs, xs, v);
      }
    case Template(vs) =>
      forall xs ensures EvalValues(rn, s, vs) == Some(xs) <==> DenoteAll(rn, s, vs, xs) {
        ListDenotes(rn, s, vs, xs, v);
      }
      forall xs, text ensures Concat(rn, xs) == text <==> Spells(rn, xs, text) { ConcatSpells(rn, xs, text); }
    case Object(fs) => ObjectDenotes(rn, s, fs, x, v);
    case _ =>
  }

  lemma {:induction false} ListDenotes(rn: Render, s: Scope, vs: seq<Value>, xs: seq<Val>, v: Value)
    requires forall i :: 0 <= i < |vs| ==> vs[i] < v
    ensures EvalValues(rn, s, vs) == Some(xs) <==> DenoteAll(rn, s, vs, xs)
    decreases v, 0, |vs|
  {
    hide Denotes;
    if vs == [] {
      assert xs == [] <==> |xs| == 0;
    } else if xs == [] {
      NeverShort(rn, s, vs);
    } else {
      EvalDenotes(rn, s, vs[0], xs[0]);
      ListDenotes(rn, s, vs[1..], xs[1..], v);
      ListSplits(rn, s, vs, xs);
    }
  }

  lemma {:induction false} NeverShort(rn: Render, s: Scope, vs: seq<Value>)
    ensures EvalValues(rn, s, vs).Some? ==> |EvalValues(rn, s, vs).value| == |vs|
    decreases |vs|
  {
    if vs != [] { NeverShort(rn, s, vs[1..]); }
  }

  lemma ListSplits(rn: Render, s: Scope, vs: seq<Value>, xs: seq<Val>)
    requires vs != [] && xs != []
    ensures DenoteAll(rn, s, vs, xs) <==> Denotes(rn, s, vs[0], xs[0]) && DenoteAll(rn, s, vs[1..], xs[1..])
    ensures EvalValues(rn, s, vs) == Some(xs) <==>
            EvalValue(rn, s, vs[0]) == Some(xs[0]) && EvalValues(rn, s, vs[1..]) == Some(xs[1..])
  {
    hide Denotes, EvalValue;
    assert xs == [xs[0]] + xs[1..];
    assert forall i: nat :: 0 < i < |vs| ==> vs[i] == vs[1..][i - 1];
    assert forall i: nat :: 0 < i < |xs| ==> xs[i] == xs[1..][i - 1];
    if DenoteAll(rn, s, vs, xs) {
      forall i: nat | i < |vs[1..]| ensures Denotes(rn, s, vs[1..][i], xs[1..][i]) {
        assert Denotes(rn, s, vs[i + 1], xs[i + 1]);
      }
    }
    var rest := EvalValues(rn, s, vs[1..]);
    if rest.Some? { assert ([xs[0]] + rest.value)[1..] == rest.value; }
  }

  /** m holds, under each key, what the last field with that key evaluates to. */
  ghost predicate Assigned(rn: Render, s: Scope, fs: seq<Field>, m: map<string, Val>) {
    && (forall k :: k in m <==> HasKey(fs, k))
    && (forall i: nat | i < |fs| && IsLast(fs, i) ::
          fs[i].key in m && EvalValue(rn, s, fs[i].val) == Some(m[fs[i].key]))
  }

  lemma KeysWith(fs: seq<Field>, n: nat, k: string)
    requires |fs| == n + 1
    ensures HasKey(fs, k) <==> HasKey(fs[..n], k) || fs[n].key == k
  {
    if HasKey(fs[..n], k) {
      var i :| 0 <= i < n && fs[..n][i].key == k;
      assert fs[i].key == k;
    }
    if HasKey(fs, k) && fs[n].key != k {
      var i :| 0 <= i < |fs| && fs[i].key == k;
      assert fs[..n][i].key == k;
    }
  }

  lemma LastWithin(fs: seq<Field>, n: nat, i: nat)
    requires |fs| == n + 1 && i < n && IsLast(fs, i)
    ensures IsLast(fs[..n], i) && fs[n].key != fs[i].key
  {
    forall j | i < j < n ensures fs[..n][j].key != fs[..n][i].key { assert fs[j].key != fs[i].key; }
  }

  lemma AssignLast(rn: Render, s: Scope, fs: seq<Field>, n: nat, m: map<string, Val>, x: Val)
    requires |fs| == n + 1 && Assigned(rn, s, fs[..n], m) && EvalValue(rn, s, fs[n].val) == Some(x)
    ensures Assigned(rn, s, fs, m[fs[n].key := x])
  {
    hide EvalValue, HasKey, IsLast;
    var front, r := fs[..n], m[fs[n].key := x];
    forall k ensures k in r <==> HasKey(fs, k) { KeysWith(fs, n, k); }
    forall i: nat | i < |fs| && IsLast(fs, i)
      ensures fs[i].key in r && EvalValue(rn, s, fs[i].val) == Some(r[fs[i].key])
    {
      if i < n {
        LastWithin(fs, n, i);
        assert front[i] == fs[i];
      }
    }
  }

  /** What the fields' evaluation gives, key by key. */
  lemma {:induction false} FieldsEval(rn: Render, s: Scope, fs: seq<Field>)
    ensures EvalFields(rn, s, fs).Some? <==> forall i: nat | i < |fs| :: EvalValue(rn, s, fs[i].val).Some?
    ensures EvalFields(rn, s, fs).Some? ==> Assigned(rn, s, fs, EvalFields(rn, s, fs).value)
    decreases |fs|
  {
    hide EvalValue, Assigned;
    if fs == [] {
      NoneAssigned(rn, s);
    } else {
      var n := |fs| - 1;
      FieldsEval(rn, s, fs[..n]);
      assert forall i: nat :: i < n ==> fs[..n][i] == fs[i];
      if EvalFields(rn, s, fs).Some? {
        AssignLast(rn, s, fs, n, EvalFields(rn, s, fs[..n]).value, EvalValue(rn, s, fs[n].val).value);
      }
    }
  }

  lemma NoneAssigned(rn: Render, s: Scope)
    ensures Assigned(rn, s, [], map[])
  {
  }

  lemma {:induction false} LastWith(fs: seq<Field>, k: string) returns (i: nat)
    requires exists j :: 0 <= j < |fs| && fs[j].key == k
    ensures i < |fs| && fs[i].key == k && IsLast(fs, i)
    decreases |fs|
  {
    var n := |fs| - 1;
    if fs[n].key == k {
      i := n;
    } else {
      var j :| 0 <= j < |fs| && fs[j].key == k;
      assert fs[..n][j].key == k;
      i := LastWith(fs[..n], k);
      forall m | i < m < |fs| ensures fs[m].key != k {
        if m < n { assert fs[..n][m] == fs[m]; }
      }
    }
  }

  lemma {:induction false} ObjectDenotes(rn: Render, s: Scope, fs: seq<Field>, x: Val, v: Value)
    requires v == Object(fs)
    ensures EvalValue(rn, s, v) == Some(x) <==> Denotes(rn, s, v, x)
    decreases v, 0, |fs|
  {
    FieldsEval(rn, s, fs);
    forall i: nat | i < |fs| ensures Decides(rn, s, fs[i].val) {
      forall y ensures EvalValue(rn, s, fs[i].val) == Some(y) <==> Denotes(rn, s, fs[i].val, y) {
        EvalDenotes(rn, s, fs[i].val, y);
      }
    }
    ObjectEval(rn, s, fs);
    if x.Obj? { FieldsAre(rn, s, fs, x.m); }
  }

  ghost predicate Decides(rn: Render, s: Scope, v: Value) {
    forall y :: EvalValue(rn, s, v) == Some(y) <==> Denotes(rn, s, v, y)
  }

  lemma FieldsAre(rn: Render, s: Scope, fs: seq<Field>, m: map<string, Val>)
    requires forall i: nat | i < |fs| :: Decides(rn, s, fs[i].val)
    requires EvalFields(rn, s, fs).Some? <==> forall i: nat | i < |fs| :: EvalValue(rn, s, fs[i].val).Some?
    requires EvalFields(rn, s, fs).Some? ==> Assigned(rn, s, fs, EvalFields(rn, s, fs).value)
    ensures EvalFields(rn, s, fs) == Some(m) <==> FieldsDenote(rn, s, fs, m)
  {
    hide EvalFields, IsLast, EvalValue, HasKey, DenoteAll, LeadsTo, Spells;
    var r := EvalFields(rn, s, fs);
    if FieldsDenote(rn, s, fs, m) {
      forall i: nat | i < |fs| ensures EvalValue(rn, s, fs[i].val).Some? {
        assert SomeDenoted(rn, s, fs[i].val) && Decides(rn, s, fs[i].val);
        var y :| Denotes(rn, s, fs[i].val, y);
      }
      assert r.value.Keys == m.Keys;
      forall k | k in m ensures r.value[k] == m[k] {
        WithKey(fs, k);
        var i := LastWith(fs, k);
        assert EvalValue(rn, s, fs[i].val) == Some(r.value[k]) && Decides(rn, s, fs[i].val);
        assert Denotes(rn, s, fs[i].val, m[k]);
      }
      assert r.value == m;
    }
    if r == Some(m) {
      forall i: nat | i < |fs| && IsLast(fs, i) ensures fs[i].key in m && Denotes(rn, s, fs[i].val, m[fs[i].key]) {
        assert Decides(rn, s, fs[i].val);
      }
      forall i: nat | i < |fs| ensures SomeDenoted(rn, s, fs[i].val) {
        assert Decides(rn, s, fs[i].val);
        assert Denotes(rn, s, fs[i].val, EvalValue(rn, s, fs[i].val).value);
      }
      assert FieldsDenote(rn, s, fs, m);
    }
  }

  lemma WithKey(fs: seq<Field>, k: string)
    requires HasKey(fs, k)
    ensures exists j :: 0 <= j < |fs| && fs[j].key == k
  {
  }

  lemma ObjectEval(rn: Render, s: Scope, fs: seq<Field>)
    ensures EvalValue(rn, s, Object(fs)) == if EvalFields(rn, s, fs).None? then None
      else Some(Obj(EvalFields(rn, s, fs).value))
  {
  }

  /** An expression denotes at most one value. */
  lemma DenotesOnce(rn: Render, s: Scope, v: Value, x: Val, y: Val)
    requires Denotes(rn, s, v, x) && Denotes(rn, s, v, y)
    ensures x == y
  {
    hide Denotes;
    EvalDenotes(rn, s, v, x);
    EvalDenotes(rn, s, v, y);
  }

  // ----- conditions

  /** Null is false, a boolean is itself, everything else is true. */
  ghost predicate IsTrue(x: Val) {
    x != Null && x != Bool(false)
  }

  /** The relational operators: on numbers the order of the extended reals, in which NaN is below
      nothing; on anything else they decide nothing. */
  ghost predicate Ordered(op: Op, x: Val, y: Val, b: bool) {
    && Compare.IsNumeric(x) && Compare.IsNumeric(y)
    && var m, n := Compare.Number(x), Compare.Number(y);
       match op
       case Lt => b == Compare.Below(m, n)
       case Gt => b == Compare.Below(n, m)
       case Le => b == (Compare.Below(m, n) || (m == n && !m.NaN?))
       case Ge => b == (Compare.Below(n, m) || (m == n && !m.NaN?))
       case _ => false
  }

  /** One number, or one value part by part. */
  ghost predicate Same(x: Val, y: Val)
    decreases x
  {
    if Compare.IsNumeric(x) && Compare.IsNumeric(y) then Compare.Number(x) == Compare.Number(y)
    && !Compare.Number(x).NaN?
    else if x.Arr? && y.Arr? then |x.xs| == |y.xs| && forall i :: 0 <= i < |x.xs| ==> Same(x.xs[i], y.xs[i])
    else if x.Obj? && y.Obj? then x.m.Keys == y.m.Keys && forall k :: k in x.m ==> k in y.m && Same(x.m[k], y.m[k])
    else x == y
  }

  /** The condition comes out as b. */
  ghost predicate Holds(rn: Render, s: Scope, e: Expr, b: bool) {
    match e
    case NilExpr => false
    case Leaf(v) => exists x :: Denotes(rn, s, v, x) && b == IsTrue(x)
    case Not(x) => Holds(rn, s, x, !b)
    case BinOp(op, x, y) =>
      match op
      case And => if b then Holds(rn, s, x, true) && Holds(rn, s, y, true)
                  else Holds(rn, s, x, false) || (Holds(rn, s, x, true) && Holds(rn, s, y, false))
      case Or => if b then Holds(rn, s, x, true) || (Holds(rn, s, x, false) && Holds(rn, s, y, true))
                 else Holds(rn, s, x, false) && Holds(rn, s, y, false)
      case OtherOp(_) => false
      case _ => x.Leaf? && y.Leaf? && Related(rn, s, op, x.v, y.v, b)
  }

  /** Both sides denote values, and the operator comes out as b on them. */
  ghost predicate Related(rn: Render, s: Scope, op: Op, x: Value, y: Value, b: bool) {
    exists m, n :: Denotes(rn, s, x, m) && Denotes(rn, s, y, n) && Compares(op, m, n, b)
  }

  ghost predicate Compares(op: Op, m: Val, n: Val, b: bool) {
    if op.Eq? then b == Same(m, n) else if op.Ne? then b == !Same(m, n) else Ordered(op, m, n, b)
  }

  lemma {:induction false} EqualIsSame(a: Val, b: Val)
    ensures Compare.ValuesEqual(a, b) <==> Same(a, b)
    decreases a
  {
    if Compare.IsNumeric(a) && Compare.IsNumeric(b) {
      Compare.ComparisonIsExact(a, b);
    } else if a.Arr? && b.Arr? {
      forall i | 0 <= i < |a.xs| && |a.xs| == |b.xs| ensures Compare.ValuesEqual(a.xs[i], b.xs[i])
      <==> Same(a.xs[i], b.xs[i]) {
        EqualIsSame(a.xs[i], b.xs[i]);
      }
    } else if a.Obj? && b.Obj? {
      forall k | k in a.m && k in b.m ensures Compare.ValuesEqual(a.m[k], b.m[k]) <==> Same(a.m[k], b.m[k]) {
        EqualIsSame(a.m[k], b.m[k]);
      }
      if Compare.ValuesEqual(a, b) { Compare.EqualObjectsSameKeys(a.m, b.m); }
      if Same(a, b) { assert |a.m| == |a.m.Keys| && |b.m| == |b.m.Keys|; }
    }
  }

  lemma ComparisonHolds(op: Op, m: Val, n: Val, b: bool)
    requires !op.And? && !op.Or?
    ensures Comparison(op, m, n) == Some(b) <==> Compares(op, m, n, b)
  {
    hide Same, Compare.ValuesEqual;
    EqualIsSame(m, n);
    if Compare.IsNumeric(m) && Compare.IsNumeric(n) {
      Compare.ComparisonIsExact(m, n);
      Compare.ComparisonIsExact(n, m);
    }
  }

  /** The evaluator decides a condition exactly as it holds; where it holds neither way, the
      evaluator reports an error. */
  lemma {:induction false} EvalHolds(rn: Render, s: Scope, e: Expr, b: bool)
    ensures EvalExpr(rn, s, e) == Some(b) <==> Holds(rn, s, e, b)
    decreases e
  {
    hide EvalValue, Denotes, Comparison, Related;
    match e
    case NilExpr =>
    case Leaf(v) => forall x ensures EvalValue(rn, s, v) == Some(x)
    <==> Denotes(rn, s, v, x) { EvalDenotes(rn, s, v, x); }
    case Not(x) => EvalHolds(rn, s, x, !b);
    case BinOp(op, x, y) =>
      EvalHolds(rn, s, x, true);
      EvalHolds(rn, s, x, false);
      EvalHolds(rn, s, y, b);
      if !op.And? && !op.Or? && x.Leaf? && y.Leaf? { RelationHolds(rn, s, op, x.v, y.v, b); }
      if op.OtherOp? { OtherIsNone(rn, s, op, x, y); }
  }

  lemma OtherIsNone(rn: Render, s: Scope, op: Op, x: Expr, y: Expr)
    requires op.OtherOp? || (!op.And? && !op.Or? && !(x.Leaf? && y.Leaf?))
    ensures EvalExpr(rn, s, BinOp(op, x, y)).None?
  {
  }

  lemma RelationHolds(rn: Render, s: Scope, op: Op, x: Value, y: Value, b: bool)
    requires !op.And? && !op.Or?
    ensures EvalExpr(rn, s, BinOp(op, Leaf(x), Leaf(y))) == Some(b) <==> Related(rn, s, op, x, y, b)
  {
    hide EvalValue, Denotes, Comparison, Compares;
    forall m ensures EvalValue(rn, s, x) == Some(m) <==> Denotes(rn, s, x, m) { EvalDenotes(rn, s, x, m); }
    forall n ensures EvalValue(rn, s, y) == Some(n) <==> Denotes(rn, s, y, n) { EvalDenotes(rn, s, y, n); }
    var m, n := EvalValue(rn, s, x), EvalValue(rn, s, y);
    if m.Some? && n.Some? { ComparisonHolds(op, m.value, n.value, b); }
  }

  /** No condition holds both ways. */
  lemma HoldsOneWay(rn: Render, s: Scope, e: Expr)
    ensures !(Holds(rn, s, e, true) && Holds(rn, s, e, false))
  {
    hide Holds, EvalExpr;
    EvalHolds(rn, s, e, true);
    EvalHolds(rn, s, e, false);
  }

  /** A collection is a list, or null for none. */
  lemma CollectionIs(rn: Render, s: Scope, v: Value, xs: seq<Val>)
    ensures EvalCollection(rn, s, v) == Some(xs)
            <==> Denotes(rn, s, v, Arr(xs)) || (xs == [] && Denotes(rn, s, v, Null))
  {
    hide Denotes, EvalValue;
    EvalDenotes(rn, s, v, Arr(xs));
    EvalDenotes(rn, s, v, Null);
  }

  /** Arguments are evaluated name by name, all or none. */
  lemma ArgsAre(rn: Render, s: Scope, args: Args, r: Scope)
    ensures EvalArgs(rn, s, args) == Some(r) <==>
              r.Keys == args.Keys && forall k :: k in args ==> k in r && Denotes(rn, s, args[k], r[k])
  {
    hide Denotes, EvalValue;
    forall k, x | k in args ensures EvalValue(rn, s, args[k]) == Some(x) <==> Denotes(rn, s, args[k], x) {
      EvalDenotes(rn, s, args[k], x);
    }
    if r.Keys == args.Keys && forall k :: k in args ==> k in r && Denotes(rn, s, args[k], r[k]) {
      assert forall k :: k in args ==> EvalValue(rn, s, args[k]) == Some(r[k]);
      assert EvalArgs(rn, s, args).value == r;
    }
  }
}
