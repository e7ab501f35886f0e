/** What canonicalization accepts and what it makes of it (internal/jsonnum/jsonnum.go), said
    value by value, and what a document decodes to. */
module JsonLaws {
  import opened Values
  import opened Compare
  import opened JsonNum
  import opened JsonText

  // ----- Go values

  /** No NaN and no infinity anywhere. */
  ghost predicate AllFloatsFinite(v: Val) {
    match v
    case Flt(f) => f.Fin?
    case Arr(xs) => forall i :: 0 <= i < |xs| ==> AllFloatsFinite(xs[i])
    case Obj(m) => forall k :: k in m ==> AllFloatsFinite(m[k])
    case _ => true
  }

  /** A whole number that an int64 holds, other than the least of them. */
  predicate WholeInt64(r: real, i: int) {
    r == i as real && -TWO63 < i < TWO63
  }

  /** x is v with every whole float that fits an int64 made that int64, and nothing else changed. */
  ghost predicate CanonicalFormOf(v: Val, x: Val) {
    match v
    case Flt(f) => f.Fin? && if exists i: int :: WholeInt64(f.r, i) then x.Int? && WholeInt64(f.r, x.i) else x == v
    case Arr(xs) => x.Arr? && |x.xs| == |xs| && forall i :: 0 <= i < |xs| ==> CanonicalFormOf(xs[i], x.xs[i])
    case Obj(m) => x.Obj? && x.m.Keys == m.Keys && forall k :: k in m ==> k in x.m && CanonicalFormOf(m[k], x.m[k])
    case _ => x == v
  }

  lemma WholeIs(f: Float, i: int)
    requires f.Fin? && WholeInt64(f.r, i)
    ensures CanonicalFloat(f) == Int(i)
  {
    assert (i as real).Floor == i && (-(i as real)).Floor == -i;
  }

  lemma FloatForm(f: Float)
    requires f.Fin?
    ensures CanonicalFormOf(Flt(f), CanonicalFloat(f))
  {
    if i: int :| WholeInt64(f.r, i) {
      WholeIs(f, i);
    } else {
      var t := Trunc(f.r);
      assert f.r == t as real ==> !(-(TWO63 as real) < f.r < TWO63 as real) by {
        if f.r == t as real && -(TWO63 as real) < f.r < TWO63 as real { assert WholeInt64(f.r, t); }
      }
    }
  }

  /** What is accepted, exactly: finite numbers, within the depth left; and what comes of it. */
  lemma {:induction false} AcceptsIff(v: Val, depth: nat)
    requires depth <= MAX_DEPTH
    ensures CanonicalAt(v, depth).Some? <==> AllFloatsFinite(v) && NestsWithin(v, MAX_DEPTH - depth)
    ensures CanonicalAt(v, depth).Some? ==> CanonicalFormOf(v, CanonicalAt(v, depth).value)
    decreases v
  {
    match v
    case Flt(f) => if f.Fin? { FloatForm(f); }
    case Arr(xs) =>
      if depth < MAX_DEPTH {
        forall i | 0 <= i < |xs|
          ensures CanonicalAt(xs[i], depth + 1).Some?
                  <==> AllFloatsFinite(xs[i]) && NestsWithin(xs[i], MAX_DEPTH - depth - 1)
          ensures CanonicalAt(xs[i], depth + 1).Some? ==> CanonicalFormOf(xs[i], CanonicalAt(xs[i], depth + 1).value)
        {
          AcceptsIff(xs[i], depth + 1);
        }
      }
    case Obj(m) =>
      if depth < MAX_DEPTH {
        forall k | k in m
          ensures CanonicalAt(m[k], depth + 1).Some?
                  <==> AllFloatsFinite(m[k]) && NestsWithin(m[k], MAX_DEPTH - depth - 1)
          ensures CanonicalAt(m[k], depth + 1).Some? ==> CanonicalFormOf(m[k], CanonicalAt(m[k], depth + 1).value)
        {
          AcceptsIff(m[k], depth + 1);
        }
      }
    case _ =>
  }

  /** The canonical form is a function of the value. */
  lemma {:induction false} OneForm(v: Val, x: Val, y: Val)
    requires CanonicalFormOf(v, x) && CanonicalFormOf(v, y)
    ensures x == y
    decreases v
  {
    match v
    case Arr(xs) => forall i | 0 <= i < |xs| ensures x.xs[i] == y.xs[i] { OneForm(xs[i], x.xs[i], y.xs[i]); }
    case Obj(m) => forall k | k in m ensures x.m[k] == y.m[k] { OneForm(m[k], x.m[k], y.m[k]); }
    case _ =>
  }

  /** A value is accepted exactly when its floats are finite and it nests within MAX_DEPTH, which
      leaves the decoder a thousand levels for the envelope; it becomes its canonical form. */
  lemma CanonicalIff(v: Val, x: Val)
    ensures Canonical(v) == Some(x) <==> AllFloatsFinite(v) && NestsWithin(v, MAX_DEPTH) && CanonicalFormOf(v, x)
    ensures MAX_DEPTH == DECODER_DEPTH - 1000
  {
    hide CanonicalAt, AllFloatsFinite, NestsWithin;
    AcceptsIff(v, 0);
    if Canonical(v).Some? && CanonicalFormOf(v, x) { OneForm(v, x, Canonical(v).value); }
  }

  // ----- documents

  /** The number a literal reads as: an int64 where the integer fits, else the nearest float, and
      a float that is whole and fits is that int64. */
  ghost predicate NumberReads(lib: Lib, l: NumLit, x: Val) {
    match l
    case IntLit(n) =>
      if -TWO63 <= n < TWO63 then x.Int? && x.i == n
      else exists f :: lib.round(n as real) == Some(f) && x == Flt(Fin(f))
    case OtherLit(r) => exists f :: lib.round(r) == Some(f) && CanonicalFormOf(Flt(Fin(f)), x)
  }

  predicate LastMember(fs: seq<Member>, i: nat)
    requires i < |fs|
  {
    forall j :: i < j < |fs| ==> fs[j].key != fs[i].key
  }

  /** The document reads as x: of several members of one name the last counts. */
  ghost predicate Reads(lib: Lib, j: Json, x: Val)
    decreases j, 0
  {
    match j
    case JNull => x == Null
    case JBool(b) => x == Bool(b)
    case JStr(s) => x == Str(s)
    case JNum(l) => NumberReads(lib, l, x)
    case JArr(es) => x.Arr? && |x.xs| == |es| && forall i: nat | i < |es| :: Reads(lib, es[i], x.xs[i])
    case JObj(fs) => x.Obj? && MembersRead(lib, fs, x.m)
  }

  ghost predicate SomeRead(lib: Lib, j: Json)
    decreases j, 1
  {
    exists y :: Reads(lib, j, y)
  }

  ghost predicate MembersRead(lib: Lib, fs: seq<Member>, m: map<string, Val>)
    decreases fs, 2
  {
    && (forall k :: k in m <==> HasKey(fs, k))
    && (forall i: nat | i < |fs| :: SomeRead(lib, fs[i].val))
    && (forall i: nat | i < |fs| && LastMember(fs, i) :: fs[i].key in m && Reads(lib, fs[i].val, m[fs[i].key]))
  }

  lemma NumberIs(lib: Lib, l: NumLit, x: Val)
    ensures FromNumber(lib, l) == Some(x) <==> NumberReads(lib, l, x)
  {
    if l.OtherLit? && lib.round(l.r).Some? {
      var f := Fin(lib.round(l.r).value);
      FloatForm(f);
      if CanonicalFormOf(Flt(f), x) { OneForm(Flt(f), x, CanonicalFloat(f)); }
    }
  }

  ghost predicate Decides(lib: Lib, j: Json) {
    forall y :: CanonicalDecoded(lib, j) == Some(y) <==> Reads(lib, j, y)
  }

  /** A document decodes to exactly what it reads as. */
  lemma {:induction false} DecodesAsRead(lib: Lib, j: Json, x: Val)
    ensures CanonicalDecoded(lib, j) == Some(x) <==> Reads(lib, j, x)
    decreases j, 1
  {
    hide NumberReads, FromNumber;
    match j
    case JNum(l) => NumberIs(lib, l, x);
    case JArr(es) =>
      forall i: nat | i < |es| ensures Decides(lib, es[i]) {
        forall y ensures CanonicalDecoded(lib, es[i]) == Some(y) <==> Reads(lib, es[i], y) {
          DecodesAsRead(lib, es[i], y);
        }
      }
      ElemsAre(lib, es);
      if x.Arr? { ArrReads(lib, es, x.xs); }
    case JObj(fs) =>
      forall i: nat | i < |fs| ensures Decides(lib, fs[i].val) {
        forall y ensures CanonicalDecoded(lib, fs[i].val) == Some(y) <==> Reads(lib, fs[i].val, y) {
          DecodesAsRead(lib, fs[i].val, y);
        }
      }
      MembersDecode(lib, fs);
      if x.Obj? { MembersAre(lib, fs, x.m); }
    case _ =>
  }

  lemma {:induction false} ElemsAre(lib: Lib, es: seq<Json>)
    requires forall i: nat | i < |es| :: Decides(lib, es[i])
    ensures CanonicalElems(lib, es).Some? <==> forall i: nat | i < |es| :: CanonicalDecoded(lib, es[i]).Some?
    ensures CanonicalElems(lib, es).Some? ==>
              var xs := CanonicalElems(lib, es).value;
              |xs| == |es| && forall i: nat | i < |es| :: CanonicalDecoded(lib, es[i]) == Some(xs[i])
    decreases |es|
  {
    hide CanonicalDecoded, Reads;
    if es != [] {
      var n := |es| - 1;
      assert forall i: nat | i < n :: es[..n][i] == es[i];
      ElemsAre(lib, es[..n]);
    }
  }

  lemma ArrReads(lib: Lib, es: seq<Json>, xs: seq<Val>)
    requires forall i: nat | i < |es| :: Decides(lib, es[i])
    ensures CanonicalElems(lib, es) == Some(xs) <==>
            |xs| == |es| && forall i: nat | i < |es| :: Reads(lib, es[i], xs[i])
  {
    hide Reads, NumberReads;
    ElemsAre(lib, es);
    hide CanonicalElems, CanonicalDecoded;
    if |xs| == |es| && forall i: nat | i < |es| :: Reads(lib, es[i], xs[i]) {
      forall i: nat | i < |es| ensures CanonicalDecoded(lib, es[i]) == Some(xs[i]) { assert Decides(lib, es[i]); }
      assert CanonicalElems(lib, es).value == xs;
    }
    if CanonicalElems(lib, es) == Some(xs) {
      forall i: nat | i < |es| ensures Reads(lib, es[i], xs[i]) { assert Decides(lib, es[i]); }
    }
  }

  /** m holds, under each name, what the last member of that name decodes to. */
  ghost predicate Collected(lib: Lib, fs: seq<Member>, m: map<string, Val>) {
    && (forall k :: k in m <==> HasKey(fs, k))
    && (forall i: nat | i < |fs| && LastMember(fs, i) ::
          fs[i].key in m && CanonicalDecoded(lib, fs[i].val) == Some(m[fs[i].key]))
  }

  lemma KeysWith(fs: seq<Member>, n: nat, k: string)
    requires |fs| == n + 1
    ensures HasKey(fs, k) <==> HasKey(fs[..n], k) || fs[n].key == k
  {
    if HasKey(fs[..n], k) {
      var i :| 0 <= i < n && fs[..n][i].key == k;
      assert fs[i].key == k;
    }
    if HasKey(fs, k) && fs[n].key != k {
      var i :| 0 <= i < |fs| && fs[i].key == k;
      assert fs[..n][i].key == k;
    }
  }

  lemma LastWithin(fs: seq<Member>, n: nat, i: nat)
    requires |fs| == n + 1 && i < n && LastMember(fs, i)
    ensures LastMember(fs[..n], i) && fs[n].key != fs[i].key
  {
    forall j | i < j < n ensures fs[..n][j].key != fs[..n][i].key { assert fs[j].key != fs[i].key; }
  }

  lemma CollectLast(lib: Lib, fs: seq<Member>, n: nat, m: map<string, Val>, x: Val)
    requires |fs| == n + 1 && Collected(lib, fs[..n], m) && CanonicalDecoded(lib, fs[n].val) == Some(x)
    ensures Collected(lib, fs, m[fs[n].key := x])
  {
    hide CanonicalDecoded, HasKey, LastMember;
    var front, r := fs[..n], m[fs[n].key := x];
    forall k ensures k in r <==> HasKey(fs, k) { KeysWith(fs, n, k); }
    forall i: nat | i < |fs| && LastMember(fs, i)
      ensures fs[i].key in r && CanonicalDecoded(lib, fs[i].val) == Some(r[fs[i].key])
    {
      if i < n {
        LastWithin(fs, n, i);
        assert front[i] == fs[i];
      }
    }
  }

  lemma {:induction false} MembersDecode(lib: Lib, fs: seq<Member>)
    ensures CanonicalMembers(lib, fs).Some? <==> forall i: nat | i < |fs| :: CanonicalDecoded(lib, fs[i].val).Some?
    ensures CanonicalMembers(lib, fs).Some? ==> Collected(lib, fs, CanonicalMembers(lib, fs).value)
    decreases |fs|
  {
    hide CanonicalDecoded, Collected;
    if fs == [] {
      NoneCollected(lib);
    } else {
      var n := |fs| - 1;
      MembersDecode(lib, fs[..n]);
      assert forall i: nat :: i < n ==> fs[..n][i] == fs[i];
      if CanonicalMembers(lib, fs).Some? {
        CollectLast(lib, fs, n, CanonicalMembers(lib, fs[..n]).value, CanonicalDecoded(lib, fs[n].val).value);
      }
    }
  }

  lemma NoneCollected(lib: Lib)
    ensures Collected(lib, [], map[])
  {
  }

  lemma {:induction false} LastWith(fs: seq<Member>, k: string) returns (i: nat)
    requires HasKey(fs, k)
    ensures i < |fs| && fs[i].key == k && LastMember(fs, i)
    decreases |fs|
  {
    var n := |fs| - 1;
    if fs[n].key == k {
      i := n;
    } else {
      KeysWith(fs, n, k);
      i := LastWith(fs[..n], k);
      forall m | i < m < |fs| ensures fs[m].key != k {
        if m < n { assert fs[..n][m] == fs[m]; }
      }
    }
  }

  lemma MembersAre(lib: Lib, fs: seq<Member>, m: map<string, Val>)
    requires forall i: nat | i < |fs| :: Decides(lib, fs[i].val)
    requires CanonicalMembers(lib, fs).Some? <==> forall i: nat | i < |fs| :: CanonicalDecoded(lib, fs[i].val).Some?
    requires CanonicalMembers(lib, fs).Some? ==> Collected(lib, fs, CanonicalMembers(lib, fs).value)
    ensures CanonicalMembers(lib, fs) == Some(m) <==> MembersRead(lib, fs, m)
  {
    hide CanonicalMembers, LastMember, CanonicalDecoded, HasKey, NumberReads;
    var r := CanonicalMembers(lib, fs);
    if MembersRead(lib, fs, m) {
      forall i: nat | i < |fs| ensures CanonicalDecoded(lib, fs[i].val).Some? {
        assert SomeRead(lib, fs[i].val) && Decides(lib, fs[i].val);
        var y :| Reads(lib, fs[i].val, y);
      }
      assert r.value.Keys == m.Keys;
      forall k | k in m ensures r.value[k] == m[k] {
        var i := LastWith(fs, k);
        assert CanonicalDecoded(lib, fs[i].val) == Some(r.value[k]) && Decides(lib, fs[i].val);
        assert Reads(lib, fs[i].val, m[k]);
      }
      assert r.value == m;
    }
    if r == Some(m) {
      forall i: nat | i < |fs| && LastMember(fs, i) ensures fs[i].key in m && Reads(lib, fs[i].val, m[fs[i].key]) {
        assert Decides(lib, fs[i].val);
      }
      forall i: nat | i < |fs| ensures SomeRead(lib, fs[i].val) {
        assert Decides(lib, fs[i].val);
        assert Reads(lib, fs[i].val, CanonicalDecoded(lib, fs[i].val).value);
      }
      assert MembersRead(lib, fs, m);
    }
  }

  // ----- any Go value

  /** v, enclosed so that it may nest n deep, becomes x: other types by what their encoding
      reads as, when the decoder takes it and it still fits. */
  ghost predicate Becomes(lib: Lib, r: Raw, n: nat, x: Val)
    decreases r
  {
    match r
    case Plain(v) => AllFloatsFinite(v) && NestsWithin(v, n) && CanonicalFormOf(v, x)
    case NilContainer => x == Null
    case RawArr(xs) => n > 0 && x.Arr? && |x.xs| == |xs|
    && forall i :: 0 <= i < |xs| ==> Becomes(lib, xs[i], n - 1, x.xs[i])
    case RawObj(m) =>
      n > 0 && x.Obj? && x.m.Keys == m.Keys && forall k :: k in m ==> k in x.m && Becomes(lib, m[k], n - 1, x.m[k])
    case Typed(enc) => enc.Some? && Depth(enc.value) <= DECODER_DEPTH && Reads(lib, enc.value, x) && NestsWithin(x, n)
  }

  ghost predicate Comes(lib: Lib, r: Raw, depth: nat)
    requires depth <= MAX_DEPTH
  {
    forall y :: CanonicalRaw(lib, r, depth) == Some(y) <==> Becomes(lib, r, MAX_DEPTH - depth, y)
  }

  /** A Go value is accepted, and becomes x, exactly so. */
  lemma {:induction false} RawBecomes(lib: Lib, r: Raw, depth: nat, x: Val)
    requires IsStdlib(lib) && depth <= MAX_DEPTH
    ensures CanonicalRaw(lib, r, depth) == Some(x) <==> Becomes(lib, r, MAX_DEPTH - depth, x)
    decreases r
  {
    hide IsStdlib;
    match r
    case Plain(v) =>
      AcceptsIff(v, depth);
      if CanonicalAt(v, depth).Some? && CanonicalFormOf(v, x) { OneForm(v, x, CanonicalAt(v, depth).value); }
    case NilContainer =>
    case RawArr(xs) =>
      if depth < MAX_DEPTH {
        forall i | 0 <= i < |xs| ensures Comes(lib, xs[i], depth + 1) {
          forall y ensures CanonicalRaw(lib, xs[i], depth + 1) == Some(y)
          <==> Becomes(lib, xs[i], MAX_DEPTH - depth - 1, y) {
            RawBecomes(lib, xs[i], depth + 1, y);
          }
        }
        ArrBecomes(lib, xs, depth, x);
      }
    case RawObj(m) =>
      if depth < MAX_DEPTH {
        forall k | k in m ensures Comes(lib, m[k], depth + 1) {
          forall y ensures CanonicalRaw(lib, m[k], depth + 1) == Some(y)
          <==> Becomes(lib, m[k], MAX_DEPTH - depth - 1, y) {
            RawBecomes(lib, m[k], depth + 1, y);
          }
        }
        ObjBecomes(lib, m, depth, x);
      }
    case Typed(enc) => if enc.Some? { TypedBecomes(lib, enc.value, depth, x); }
  }

  lemma TypedBecomes(lib: Lib, j: Json, depth: nat, x: Val)
    requires IsStdlib(lib) && depth <= MAX_DEPTH
    ensures CanonicalRaw(lib, Typed(Some(j)), depth) == Some(x) <==> Becomes(lib, Typed(Some(j)), MAX_DEPTH - depth, x)
  {
    hide IsStdlib, Reads, CanonicalDecoded, RoundTrip, NestsWithin, Nesting;
    ShortcutIsExact(lib, j, depth);
    DecodesAsRead(lib, j, x);
    NestingIs(x, MAX_DEPTH - depth);
  }

  lemma ArrBecomes(lib: Lib, xs: seq<Raw>, depth: nat, x: Val)
    requires depth < MAX_DEPTH && forall i :: 0 <= i < |xs| ==> Comes(lib, xs[i], depth + 1)
    ensures CanonicalRaw(lib, RawArr(xs), depth) == Some(x) <==> Becomes(lib, RawArr(xs), MAX_DEPTH - depth, x)
  {
    hide Comes;
    if x.Arr? && |x.xs| == |xs| {
      forall i | 0 <= i < |xs|
        ensures CanonicalRaw(lib, xs[i], depth + 1) == Some(x.xs[i])
                <==> Becomes(lib, xs[i], MAX_DEPTH - depth - 1, x.xs[i])
      {
        CameTo(lib, xs[i], depth + 1, x.xs[i]);
      }
      if forall i :: 0 <= i < |xs| ==> CanonicalRaw(lib, xs[i], depth + 1) == Some(x.xs[i]) {
        assert CanonicalRaw(lib, RawArr(xs), depth).value.xs == x.xs;
      }
    }
  }

  lemma CameTo(lib: Lib, r: Raw, depth: nat, y: Val)
    requires depth <= MAX_DEPTH && Comes(lib, r, depth)
    ensures CanonicalRaw(lib, r, depth) == Some(y) <==> Becomes(lib, r, MAX_DEPTH - depth, y)
  {
  }

  lemma ObjBecomes(lib: Lib, m: map<string, Raw>, depth: nat, x: Val)
    requires depth < MAX_DEPTH && forall k :: k in m ==> Comes(lib, m[k], depth + 1)
    ensures CanonicalRaw(lib, RawObj(m), depth) == Some(x) <==> Becomes(lib, RawObj(m), MAX_DEPTH - depth, x)
  {
    hide Comes;
    if x.Obj? && x.m.Keys == m.Keys {
      forall k | k in m
        ensures CanonicalRaw(lib, m[k], depth + 1) == Some(x.m[k])
                <==> Becomes(lib, m[k], MAX_DEPTH - depth - 1, x.m[k])
      {
        CameTo(lib, m[k], depth + 1, x.m[k]);
      }
      if forall k :: k in m ==> CanonicalRaw(lib, m[k], depth + 1) == Some(x.m[k]) {
        assert CanonicalRaw(lib, RawObj(m), depth).value.m == x.m;
      }
    }
  }
}
