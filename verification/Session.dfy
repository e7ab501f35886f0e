/** The shared durable session: what a sequence of session operations does to the memo and
    the control record, and when its look-ups were answered by the live maps. */
module Session {
  import opened Values
  import opened Interp
  import opened Addressing

  /** The memo after the operations of tr. */
  function MemoAfter(m: Memo, tr: seq<Act>): Memo
    decreases |tr|
  {
    if tr == [] then m
    else
      var x, m' := tr[|tr| - 1], MemoAfter(m, tr[..|tr| - 1]);
      if x.Put? then m'[x.site := x.v] else m'
  }

  function ControlAfter(c: Control, tr: seq<Act>): Control
    decreases |tr|
  {
    if tr == [] then c
    else
      var x, c' := tr[|tr| - 1], ControlAfter(c, tr[..|tr| - 1]);
      if x.Ctl? && x.ok then c'[x.key := x.val] else c'
  }

  /** Every look-up in tr was answered by the maps as they stood at that moment. */
  ghost predicate Live(m: Memo, c: Control, tr: seq<Act>)
    decreases |tr|
  {
    tr == [] ||
    (&& Live(m, c, tr[..|tr| - 1])
     && var x, m', c' := tr[|tr| - 1], MemoAfter(m, tr[..|tr| - 1]), ControlAfter(c, tr[..|tr| - 1]);
        match x
        case Get(site, hit) => hit == (if site in m' then Some(m'[site]) else None)
        case Ctl(k, val, ok) => ok == !(k in c' && c'[k] != val)
        case _ => true)
  }

  lemma OnceSnoc(init: seq<Act>, x: Act)
    requires Once(init + [x])
    ensures Once(init)
    ensures forall y | y in init :: !Clash(y, x)
  {
    forall i, j | 0 <= i < j < |init| ensures !Clash(init[i], init[j]) {
      assert (init + [x])[i] == init[i] && (init + [x])[j] == init[j];
    }
    forall y | y in init ensures !Clash(y, x) {
      var i :| 0 <= i < |init| && init[i] == y;
      assert (init + [x])[i] == y && (init + [x])[|init|] == x;
    }
  }

  /** Without repeated addresses the final memo is the seed plus the puts, in any order. */
  lemma {:induction false} MemoAfterIs(m: Memo, tr: seq<Act>, k: Site)
    requires Once(tr)
    ensures k in MemoAfter(m, tr) <==> k in m || exists v :: Put(k, v) in tr
    ensures forall v :: Put(k, v) in tr ==> MemoAfter(m, tr)[k] == v
    ensures (forall v :: Put(k, v) !in tr) && k in m ==> MemoAfter(m, tr)[k] == m[k]
    decreases |tr|
  {
    if tr != [] {
      var x, init := tr[|tr| - 1], tr[..|tr| - 1];
      assert tr == init + [x];
      OnceSnoc(init, x);
      MemoAfterIs(m, init, k);
      assert forall v :: Put(k, v) in tr <==> Put(k, v) in init || x == Put(k, v);
      if x.Put? && x.site == k {
        forall v ensures Put(k, v) !in init {
          assert Clash(Put(k, v), x);
        }
      }
    }
  }

  lemma {:induction false} ControlAfterIs(c: Control, tr: seq<Act>, k: CtlKey)
    requires Once(tr)
    ensures k in ControlAfter(c, tr) <==> k in c || exists v :: Ctl(k, v, true) in tr
    ensures forall v :: Ctl(k, v, true) in tr ==> ControlAfter(c, tr)[k] == v
    ensures (forall v :: Ctl(k, v, true) !in tr) && k in c ==> ControlAfter(c, tr)[k] == c[k]
    decreases |tr|
  {
    if tr != [] {
      var x, init := tr[|tr| - 1], tr[..|tr| - 1];
      assert tr == init + [x];
      OnceSnoc(init, x);
      ControlAfterIs(c, init, k);
      assert forall v :: Ctl(k, v, true) in tr <==> Ctl(k, v, true) in init || x == Ctl(k, v, true);
      if x.Ctl? && x.key == k && x.ok {
        forall v ensures Ctl(k, v, true) !in init {
          assert Clash(Ctl(k, v, true), x);
        }
      }
    }
  }
}
