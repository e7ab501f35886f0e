/** The imperative walker of internal/execir/interp.go: a mutex-guarded session and a runner
    that mutates its scope and the session's maps as it goes, for the sequential constructs.
    Its look-ups read the live maps; its contract is the function `Interp.Exec`, whose
    look-ups read only the seed. */
module Runner {
  import opened Values
  import opened ExecIR
  import opened Eval
  import opened Interp
  import opened Addressing
  import opened Session
  import opened Progress
  import JsonNum
  import Replay
  import Scoping

  datatype Fault = ErrSuspend | Genuine(e: Error)

  class LiveSession {
    var memo: Memo
    var control: Control
    var suspended: bool
    var suspendKey: Option<Site>

    constructor (m: Memo, c: Control)
      ensures memo == m && control == c && !suspended && suspendKey == None
    {
      memo, control, suspended, suspendKey := m, c, false, None;
    }

    method GetMemo(key: Site) returns (v: Option<Val>)
      ensures v == if key in memo then Some(memo[key]) else None
    {
      v := if key in memo then Some(memo[key]) else None;
    }

    method PutMemo(key: Site, v: Val)
      modifies this`memo
      ensures memo == MemoAfter(old(memo), [Put(key, v)])
    {
      memo := memo[key := v];
    }

    /** The first pause wins the one suspension slot. */
    method MarkSuspended(key: Site)
      modifies this`suspended, this`suspendKey
      ensures suspended
      ensures suspendKey == if old(suspended) then old(suspendKey) else Some(key)
    {
      if !suspended {
        suspended := true;
        suspendKey := Some(key);
      }
    }

    method CheckControl(key: CtlKey, val: int) returns (ok: bool)
      modifies this`control
      ensures ok == !(key in old(control) && old(control)[key] != val)
      ensures control == ControlAfter(old(control), [Ctl(key, val, ok)])
    {
      if key in control && control[key] != val {
        return false;
      }
      control := control[key := val];
      return true;
    }
  }

  /** In region r the live maps still answer as the seed does. */
  ghost predicate Untouched(m: Memo, c: Control, w: World, r: Region) {
    && (forall k: Site | r.Has(k.at) :: (k in m <==> k in w.memo) && (k in m ==> m[k] == w.memo[k]))
    && (forall k: CtlKey | r.Has(k.at) :: (k in c <==> k in w.ctl) && (k in c ==> c[k] == w.ctl[k]))
  }

  /** No decision was recorded at a since the seed. */
  ghost predicate Undecided(c: Control, w: World, a: Addr) {
    forall tag :: var k := CtlKey(tag, a); (k in c <==> k in w.ctl) && (k in c ==> c[k] == w.ctl[k])
  }

  lemma UndecidedAt(m: Memo, c: Control, w: World, p: seq<nat>, l: seq<nat>)
    requires Untouched(m, c, w, At(p, l))
    ensures Undecided(c, w, Addr(p, l))
  {
    assert forall tag :: At(p, l).Has(CtlKey(tag, Addr(p, l)).at);
  }

  lemma DecideTrace(w: World, tag: Tag, cond: Expr, a: Addr, s: Scope)
    ensures var tr := Decide(w, tag, cond, a, s).tr;
            |tr| <= 1 && forall x | x in tr :: x.Ctl? && x.key.at == a && AddrOf(x) == a
  {
  }

  lemma UntouchedInside(m: Memo, c: Control, w: World, r: Region, q: Region)
    requires Untouched(m, c, w, r) && Inside(q, r)
    ensures Untouched(m, c, w, q)
  {
  }

  /** Operations in one region leave the rest as it was. */
  lemma UntouchedElsewhere(m: Memo, c: Control, w: World, tr: seq<Act>, r: Region, q: Region)
    requires Untouched(m, c, w, q) && Fits(tr, r) && Disjoint(r, q)
    ensures Untouched(MemoAfter(m, tr), ControlAfter(c, tr), w, q)
  {
    forall k: Site | q.Has(k.at) ensures (k in MemoAfter(m, tr) <==> k in m)
    && (k in m ==> MemoAfter(m, tr)[k] == m[k]) {
      MemoAfterIs(m, tr, k);
      forall v ensures Put(k, v) !in tr { assert AddrOf(Put(k, v)) == k.at; }
    }
    forall k: CtlKey | q.Has(k.at) ensures (k in ControlAfter(c, tr) <==> k in c)
    && (k in c ==> ControlAfter(c, tr)[k] == c[k]) {
      ControlAfterIs(c, tr, k);
      forall v ensures Ctl(k, v, true) !in tr { assert AddrOf(Ctl(k, v, true)) == k.at; }
    }
  }

  lemma {:induction false} AfterConcat(m: Memo, c: Control, x: seq<Act>, y: seq<Act>)
    ensures MemoAfter(m, x + y) == MemoAfter(MemoAfter(m, x), y)
    ensures ControlAfter(c, x + y) == ControlAfter(ControlAfter(c, x), y)
    decreases |y|
  {
    if y == [] {
      assert x + y == x;
    } else {
      assert (x + y)[..|x + y| - 1] == x + y[..|y| - 1];
      AfterConcat(m, c, x, y[..|y| - 1]);
    }
  }

  /** Look-ups, calls and pauses change neither map. */
  lemma {:induction false} QuietAfter(m: Memo, c: Control, tr: seq<Act>)
    requires forall x | x in tr :: !x.Put? && !x.Ctl?
    ensures MemoAfter(m, tr) == m && ControlAfter(c, tr) == c
    decreases |tr|
  {
    if tr != [] {
      assert tr[|tr| - 1] in tr;
      QuietAfter(m, c, tr[..|tr| - 1]);
    }
  }

  lemma AfterNothing(m: Memo, c: Control)
    ensures MemoAfter(m, []) == m && ControlAfter(c, []) == c
  {
  }

  class Walker {
    const w: World
    const sess: LiveSession
    var scope: Scope
    var output: Val
    var done: bool

    constructor (w: World, sess: LiveSession, scope: Scope)
      ensures this.w == w && this.sess == sess && this.scope == scope && !done && output == Null
    {
      this.w, this.sess, this.scope, this.output, this.done := w, sess, scope, Null, false;
    }

    /** The session and scope are what effect e leaves from (m, c), and err/done report its status. */
    ghost predicate Did(m: Memo, c: Control, e: Eff, err: Option<Fault>)
      reads this, sess
    {
      && sess.memo == MemoAfter(m, e.tr)
      && sess.control == ControlAfter(c, e.tr)
      && scope == e.scope
      && (sess.suspended <==> e.st.Suspended?)
      && match e.st
         case Running => err.None? && !done
         case Returned(v) => err.None? && done && output == v
         case Suspended => err == Some(ErrSuspend) && sess.suspendKey.Some? && Gate(sess.suspendKey.value) in e.tr
         case Failed(x) => err == Some(Genuine(x))
    }

    ghost predicate Ready(r: Region)
      reads this, sess
    {
      !done && !sess.suspended && Untouched(sess.memo, sess.control, w, r)
    }

    method Invoke(call: Call, p: seq<nat>, l: seq<nat>) returns (err: Option<Fault>)
      requires Ready(At(p, l))
      modifies this, sess
      ensures Did(old(sess.memo), old(sess.control), ExecCall(w, call, Addr(p, l), old(scope)), err)
    {
      hide EvalArgs, JsonNum.Canonical;
      var key := Site(call.bind, Addr(p, l));
      assert At(p, l).Has(key.at);
      var seen := sess.GetMemo(key);
      if seen.Some? {
        QuietAfter(sess.memo, sess.control, [Get(key, seen)]);
        err := Bind(call, seen.value);
        return;
      }
      var a := EvalArgs(w.render, scope, call.args);
      QuietAfter(sess.memo, sess.control, [Get(key, None)]);
      if a.None? {
        return Some(Genuine(EvalError));
      }
      ghost var called := [Get(key, None)] + [Called(key, call, a.value)];
      QuietAfter(sess.memo, sess.control, called);
      QuietAfter(sess.memo, sess.control, called + [Gate(key)]);
      var res := w.oracle(call, Addr(p, l), a.value);
      match res
      case Suspend =>
        sess.MarkSuspended(key);
        done := true;
        return Some(ErrSuspend);
      case Fail(e) =>
        return Some(Genuine(e));
      case Ok(raw) =>
        var v := JsonNum.Canonical(raw);
        if v.None? {
          return Some(Genuine(NotCheckpointable));
        }
        AfterConcat(sess.memo, sess.control, called, [Put(key, v.value)]);
        sess.PutMemo(key, v.value);
        err := Bind(call, v.value);
    }

    /** Publish the result under the call's name; a projecting subworkflow call binds its value field. */
    method Bind(call: Call, v: Val) returns (err: Option<Fault>)
      modifies this`scope
      ensures scope == Publish(call, old(scope), v, []).scope
      ensures match Publish(call, old(scope), v, []).st case Failed(e) => err == Some(Genuine(e)) case _ => err.None?
    {
      if call.bind != "" {
        scope := scope[call.bind := v];
      }
      if call.Workflow? && call.project && call.bind != "" {
        var doc := scope[call.bind];
        if !doc.Obj? {
          return Some(Genuine(BadEnvelope));
        }
        scope := scope[call.bind := if "value" in doc.m then doc.m["value"] else Null];
      }
      return None;
    }

    /** execAll: the nodes in order, stopping once a Return fired. */
    method ExecAll(ns: seq<Node>, p: seq<nat>, l: seq<nat>) returns (err: Option<Fault>)
      requires Ready(Kids(p, l, 0)) && SequentialAll(ns)
      modifies this, sess
      ensures Did(old(sess.memo), old(sess.control), ExecFrom(w, ns, 0, p, l, old(scope)), err)
      decreases ns, 0
    {
      hide Untouched, Fits, Disjoint, Inside, Within, Once, MemoAfter, ControlAfter, Interp.Exec;
      ghost var m, c, s0 := sess.memo, sess.control, scope;
      ghost var tr: seq<Act> := [];
      AfterNothing(m, c);
      var i := 0;
      while i < |ns| && !done
        invariant i <= |ns| && !sess.suspended
        invariant sess.memo == MemoAfter(m, tr) && sess.control == ControlAfter(c, tr)
        invariant !done ==> Ready(Kids(p, l, i))
        invariant !done ==> ExecFrom(w, ns, 0, p, l, s0) == Prefix(tr, ExecFrom(w, ns, i, p, l, scope))
        invariant done ==> ExecFrom(w, ns, 0, p, l, s0) == Eff(scope, Returned(output), tr)
        decreases |ns| - i, !done
      {
        ghost var s, m', c' := scope, sess.memo, sess.control;
        ChildRegion(p, l, i);
        UntouchedInside(m', c', w, Kids(p, l, i), At(p + [i], l));
        UntouchedInside(m', c', w, Kids(p, l, i), Kids(p, l, i + 1));
        err := Exec(ns[i], p + [i], l);
        ghost var e := Interp.Exec(w, ns[i], p + [i], l, s);
        ExecFits(w, ns[i], p + [i], l, s);
        AfterConcat(m, c, tr, e.tr);
        UntouchedElsewhere(m', c', w, e.tr, At(p + [i], l), Kids(p, l, i + 1));
        if err.Some? {
          assert ExecFrom(w, ns, 0, p, l, s0) == Prefix(tr, e);
          return;
        }
        if !done {
          assert tr + (e.tr + ExecFrom(w, ns, i + 1, p, l, scope).tr) ==
              (tr + e.tr) + ExecFrom(w, ns, i + 1, p, l, scope).tr;
        }
        tr := tr + e.tr;
        i := i + 1;
      }
      if !done {
        PrefixOfEnd(tr, ExecFrom(w, ns, |ns|, p, l, scope));
      }
      err := None;
    }

    method Exec(n: Node, p: seq<nat>, l: seq<nat>) returns (err: Option<Fault>)
      requires Ready(At(p, l)) && Sequential(n)
      modifies this, sess
      ensures Did(old(sess.memo), old(sess.control), Interp.Exec(w, n, p, l, old(scope)), err)
      decreases n, 3
    {
      match n
      case Invoke(call) =>
        err := Invoke(call, p, l);
      case Let(name, value) =>
        var v := EvalValue(w.render, scope, value);
        if v.None? {
          return Some(Genuine(EvalError));
        }
        if name != "" {
          scope := scope[name := v.value];
        }
        err := None;
      case Return(value) =>
        var v := EvalValue(w.render, scope, value);
        if v.None? {
          return Some(Genuine(EvalError));
        }
        output := v.value;
        done := true;
        err := None;
      case Branch(_, _, _) =>
        err := ExecBranch(n, p, l);
      case Loop(_, _, _, _) =>
        err := ExecLoop(n, p, l);
      case While(_, _, _) =>
        err := ExecWhile(n, p, l);
      case Retry(_, _, _) =>
        err := ExecRetry(n, p, l);
    }

    /** Evaluate a condition and record the decision at (p, l). */
    method Judge(tag: Tag, cond: Expr, p: seq<nat>, l: seq<nat>) returns (b: bool, err: Option<Fault>)
      requires Undecided(sess.control, w, Addr(p, l))
      modifies sess
      ensures sess.memo == old(sess.memo) && sess.suspended == old(sess.suspended)
              && sess.suspendKey == old(sess.suspendKey)
      ensures var d := Decide(w, tag, cond, Addr(p, l), scope);
              && sess.control == ControlAfter(old(sess.control), d.tr)
              && MemoAfter(old(sess.memo), d.tr) == old(sess.memo)
              && (match d.verdict case Err(e) => err == Some(Genuine(e)) case Yes => err.None?
                  && b case No => err.None? && !b)
    {
      var v := EvalExpr(w.render, scope, cond);
      if v.None? {
        return false, Some(Genuine(EvalError));
      }
      var key := CtlKey(tag, Addr(p, l));
      var ok := sess.CheckControl(key, if v.value then 1 else 0);
      if !ok {
        return false, Some(Genuine(Diverged));
      }
      return v.value, None;
    }

    method ExecBranch(n: Node, p: seq<nat>, l: seq<nat>) returns (err: Option<Fault>)
      requires n.Branch? && Ready(At(p, l)) && Sequential(n)
      modifies this, sess
      ensures Did(old(sess.memo), old(sess.control), Interp.Exec(w, n, p, l, old(scope)), err)
      decreases n, 2
    {
      ghost var m, c, s := sess.memo, sess.control, scope;
      KidsBelow(p, l, 0);
      KidsBelow(p, l, 1);
      UntouchedInside(m, c, w, At(p, l), Kids(p + [0], l, 0));
      UntouchedInside(m, c, w, At(p, l), Kids(p + [1], l, 0));
      ghost var d := Decide(w, Br, n.cond, Addr(p, l), s);
      UndecidedAt(m, c, w, p, l);
      var cond;
      cond, err := Judge(Br, n.cond, p, l);
      if err.Some? {
        return;
      }
      UntouchedAfterRecord(m, c, w, d.tr, Addr(p, l), Kids(p + [0], l, 0));
      UntouchedAfterRecord(m, c, w, d.tr, Addr(p, l), Kids(p + [1], l, 0));
      if cond {
        err := ExecAll(n.thn, p + [0], l);
        AfterConcat(m, c, d.tr, ExecFrom(w, n.thn, 0, p + [0], l, s).tr);
      } else {
        err := ExecAll(n.els, p + [1], l);
        AfterConcat(m, c, d.tr, ExecFrom(w, n.els, 0, p + [1], l, s).tr);
      }
    }

    /** A sequential for-loop: bounded, its length recorded, on the enclosing scope. */
    method ExecLoop(n: Node, p: seq<nat>, l: seq<nat>) returns (err: Option<Fault>)
      requires n.Loop? && Ready(At(p, l)) && Sequential(n)
      modifies this, sess
      ensures Did(old(sess.memo), old(sess.control), Interp.Exec(w, n, p, l, old(scope)), err)
      decreases n, 2
    {
      ghost var m, c, s := sess.memo, sess.control, scope;
      var got := EvalCollection(w.render, scope, n.coll);
      if got.None? {
        return Some(Genuine(EvalError));
      }
      var items := got.value;
      if |items| > w.Cap() {
        return Some(Genuine(CollectionTooLong));
      }
      var key := CtlKey(Lp, Addr(p, l));
      assert At(p, l).Has(key.at);
      IterRegion(p, l, 0);
      UntouchedInside(m, c, w, At(p, l), Iters(p, l, 0));
      ghost var d := Record(w, key, |items|);
      var ok := sess.CheckControl(key, |items|);
      if !ok {
        return Some(Genuine(Diverged));
      }
      UntouchedAfterRecord(m, c, w, d.tr, Addr(p, l), Iters(p, l, 0));
      err := LoopBody(n, items, p, l);
      AfterConcat(m, c, d.tr, Iterate(w, n, items, |items|, 0, p, l, s).tr);
    }

    method LoopBody(n: Node, items: seq<Val>, p: seq<nat>, l: seq<nat>) returns (err: Option<Fault>)
      requires n.Loop? && Sequential(n) && Ready(Iters(p, l, 0))
      modifies this, sess
      ensures Did(old(sess.memo), old(sess.control), Iterate(w, n, items, |items|, 0, p, l, old(scope)), err)
      decreases n, 1
    {
      hide Untouched, Fits, Disjoint, Inside, Within, Once, MemoAfter, ControlAfter, Interp.Exec, ExecFrom, Iterate;
      ghost var m, c, s0 := sess.memo, sess.control, scope;
      ghost var tr: seq<Act> := [];
      AfterNothing(m, c);
      var idx := 0;
      while idx < |items| && !done
        invariant idx <= |items| && !sess.suspended
        invariant sess.memo == MemoAfter(m, tr) && sess.control == ControlAfter(c, tr)
        invariant !done ==> Ready(Iters(p, l, idx))
        invariant !done ==>
            Iterate(w, n, items, |items|, 0, p, l, s0) == Prefix(tr, Iterate(w, n, items, |items|, idx, p, l, scope))
        invariant done ==> Iterate(w, n, items, |items|, 0, p, l, s0) == Eff(scope, Returned(output), tr)
        decreases |items| - idx, !done
      {
        ghost var s, m', c' := scope, sess.memo, sess.control;
        BodyRegion(m', c', w, p, l, idx);
        scope := scope[n.vr := items[idx]];
        err := ExecAll(n.body, p, l + [idx]);
        ghost var e := ExecFrom(w, n.body, 0, p, l + [idx], s[n.vr := items[idx]]);
        LoopUnfold(w, n, items, idx, p, l, s);
        ExecFromFits(w, n.body, 0, p, l + [idx], s[n.vr := items[idx]]);
        AfterConcat(m, c, tr, e.tr);
        IterationOver(m', c', w, e.tr, p, l, idx);
        PrefixTwice(tr, e.tr, Iterate(w, n, items, |items|, idx + 1, p, l, e.scope));
        if err.Some? {
          return;
        }
        tr := tr + e.tr;
        idx := idx + 1;
      }
      if !done {
        IterateEnd(w, n, items, |items|, p, l, scope);
        PrefixOfEnd(tr, Iterate(w, n, items, |items|, |items|, p, l, scope));
      }
      err := None;
    }

    /** while: the condition is tested and recorded before each of at most Bound(limit) bodies. */
    method ExecWhile(n: Node, p: seq<nat>, l: seq<nat>) returns (err: Option<Fault>)
      requires n.While? && Ready(At(p, l)) && Sequential(n)
      modifies this, sess
      ensures Did(old(sess.memo), old(sess.control), Interp.Exec(w, n, p, l, old(scope)), err)
      decreases n, 2
    {
      hide Untouched, Fits, Disjoint, Inside, Within, Once, MemoAfter, ControlAfter, ExecFrom, Iterate, Decide;
      var max := w.Bound(n.limit);
      ghost var m, c, s0 := sess.memo, sess.control, scope;
      ghost var tr: seq<Act> := [];
      AfterNothing(m, c);
      IterRegion(p, l, 0);
      UntouchedInside(m, c, w, At(p, l), Iters(p, l, 0));
      var i := 0;
      while i < max
        invariant i <= max && !done && !sess.suspended
        invariant sess.memo == MemoAfter(m, tr) && sess.control == ControlAfter(c, tr)
        invariant Ready(Iters(p, l, i)) && Iterate(w, n, [], max, 0, p, l, s0) ==
            Prefix(tr, Iterate(w, n, [], max, i, p, l, scope))
      {
        ghost var s, m', c' := scope, sess.memo, sess.control;
        BodyRegion(m', c', w, p, l, i);
        ghost var d := Decide(w, Wh, n.cond, Addr(p, l + [i]), s);
        WhileUnfold(w, n, max, i, p, l, s);
        UndecidedAt(m', c', w, p, l + [i]);
        DecideTrace(w, Wh, n.cond, Addr(p, l + [i]), s);
        var cond;
        cond, err := Judge(Wh, n.cond, p, l + [i]);
        AfterConcat(m, c, tr, d.tr);
        if err.Some? || !cond {
          return;
        }
        UntouchedAfterRecord(m', c', w, d.tr, Addr(p, l + [i]), Kids(p, l + [i], 0));
        err := ExecAll(n.body, p, l + [i]);
        ghost var e := ExecFrom(w, n.body, 0, p, l + [i], s);
        ExecFromFits(w, n.body, 0, p, l + [i], s);
        AfterConcat(m', c', d.tr, e.tr);
        AfterConcat(m, c, tr, d.tr + e.tr);
        WhileOver(m', c', w, n, d.tr, e.tr, p, l, i);
        PrefixTwice(tr, d.tr + e.tr, Iterate(w, n, [], max, i + 1, p, l, e.scope));
        if err.Some? || done {
          return;
        }
        tr := tr + (d.tr + e.tr);
        i := i + 1;
      }
      IterateEnd(w, n, [], max, p, l, scope);
      PrefixOfEnd(tr, Iterate(w, n, [], max, max, p, l, scope));
      err := None;
    }

    /** retry until: the success condition is tested and recorded after each attempt, and
        running out of attempts is a failure. */
    method ExecRetry(n: Node, p: seq<nat>, l: seq<nat>) returns (err: Option<Fault>)
      requires n.Retry? && Ready(At(p, l)) && Sequential(n)
      modifies this, sess
      ensures Did(old(sess.memo), old(sess.control), Interp.Exec(w, n, p, l, old(scope)), err)
      decreases n, 2
    {
      hide Untouched, Fits, Disjoint, Inside, Within, Once, MemoAfter, ControlAfter, ExecFrom, Iterate, Decide;
      var max := w.Bound(n.limit);
      ghost var m, c, s0 := sess.memo, sess.control, scope;
      ghost var tr: seq<Act> := [];
      AfterNothing(m, c);
      IterRegion(p, l, 0);
      UntouchedInside(m, c, w, At(p, l), Iters(p, l, 0));
      var i := 0;
      while i < max
        invariant i <= max && !done && !sess.suspended
        invariant sess.memo == MemoAfter(m, tr) && sess.control == ControlAfter(c, tr)
        invariant Ready(Iters(p, l, i)) && Iterate(w, n, [], max, 0, p, l, s0) ==
            Prefix(tr, Iterate(w, n, [], max, i, p, l, scope))
      {
        ghost var s, m', c' := scope, sess.memo, sess.control;
        BodyRegion(m', c', w, p, l, i);
        RetryUnfold(w, n, max, i, p, l, s);
        err := ExecAll(n.body, p, l + [i]);
        ghost var e := ExecFrom(w, n.body, 0, p, l + [i], s);
        ExecFromFits(w, n.body, 0, p, l + [i], s);
        AfterConcat(m, c, tr, e.tr);
        if err.Some? || done {
          return;
        }
        ghost var d := Decide(w, Rt, n.cond, Addr(p, l + [i]), e.scope);
        RetryRecord(m', c', w, e.tr, p, l, i);
        DecideTrace(w, Rt, n.cond, Addr(p, l + [i]), e.scope);
        var cond;
        cond, err := Judge(Rt, n.cond, p, l + [i]);
        AfterConcat(m', c', e.tr, d.tr);
        AfterConcat(m, c, tr, e.tr + d.tr);
        if err.Some? || cond {
          return;
        }
        RetryOver(m', c', w, n, e.tr, d.tr, p, l, i);
        PrefixTwice(tr, e.tr + d.tr, Iterate(w, n, [], max, i + 1, p, l, e.scope));
        tr := tr + (e.tr + d.tr);
        i := i + 1;
      }
      IterateEnd(w, n, [], max, p, l, scope);
      PrefixOfEnd(tr, Iterate(w, n, [], max, max, p, l, scope));
      return Some(Genuine(RetryExhausted(n.limit)));
    }
  }

  lemma PrefixOfEnd(tr: seq<Act>, e: Eff)
    requires e.tr == []
    ensures Prefix(tr, e) == Eff(e.scope, e.st, tr)
  {
  }

  lemma IterateEnd(w: World, n: Node, items: seq<Val>, max: nat, p: seq<nat>, l: seq<nat>, s: Scope)
    requires IsLoop(n) && (n.Loop? ==> max == |items|)
    ensures Iterate(w, n, items, max, max, p, l, s) ==
        Eff(s, if n.Retry? then Failed(RetryExhausted(n.limit)) else Running, [])
  {
  }

  lemma PrefixTwice(x: seq<Act>, y: seq<Act>, e: Eff)
    ensures Prefix(x, Prefix(y, e)) == Prefix(x + y, e)
  {
    assert x + (y + e.tr) == (x + y) + e.tr;
  }

  lemma BodyRegion(m: Memo, c: Control, w: World, p: seq<nat>, l: seq<nat>, i: nat)
    requires Untouched(m, c, w, Iters(p, l, i))
    ensures Untouched(m, c, w, At(p, l + [i])) && Untouched(m, c, w, Kids(p, l + [i], 0))
            && Untouched(m, c, w, Iters(p, l, i + 1))
    ensures !Kids(p, l + [i], 0).Has(Addr(p, l + [i]))
  {
    IterRegion(p, l, i);
    ChildRegion(p, l + [i], 0);
    UntouchedInside(m, c, w, Iters(p, l, i), At(p, l + [i]));
    UntouchedInside(m, c, w, At(p, l + [i]), Kids(p, l + [i], 0));
    UntouchedInside(m, c, w, Iters(p, l, i), Iters(p, l, i + 1));
  }

  lemma IterationOver(m: Memo, c: Control, w: World, tr: seq<Act>, p: seq<nat>, l: seq<nat>, i: nat)
    requires Untouched(m, c, w, Iters(p, l, i + 1)) && Fits(tr, Kids(p, l + [i], 0))
    ensures Untouched(MemoAfter(m, tr), ControlAfter(c, tr), w, Iters(p, l, i + 1))
  {
    IterRegion(p, l, i);
    ChildRegion(p, l + [i], 0);
    Widen(tr, Kids(p, l + [i], 0), At(p, l + [i]));
    UntouchedElsewhere(m, c, w, tr, At(p, l + [i]), Iters(p, l, i + 1));
  }

  lemma WhileOver(m: Memo, c: Control, w: World, n: Node, d: seq<Act>, e: seq<Act>, p: seq<nat>, l: seq<nat>, i: nat)
    requires Untouched(m, c, w, Iters(p, l, i + 1)) && Fits(e, Kids(p, l + [i], 0))
    requires |d| <= 1 && forall x | x in d :: x.Ctl? && AddrOf(x) == Addr(p, l + [i])
    ensures Untouched(MemoAfter(m, d + e), ControlAfter(c, d + e), w, Iters(p, l, i + 1))
  {
    IterRegion(p, l, i);
    IterationFits(d, e, [], Addr(p, l + [i]));
    UntouchedElsewhere(m, c, w, d + e, At(p, l + [i]), Iters(p, l, i + 1));
  }

  /** The body of an attempt leaves the attempt's own control key alone. */
  lemma RetryRecord(m: Memo, c: Control, w: World, e: seq<Act>, p: seq<nat>, l: seq<nat>, i: nat)
    requires Untouched(m, c, w, At(p, l + [i])) && Fits(e, Kids(p, l + [i], 0))
    ensures Undecided(ControlAfter(c, e), w, Addr(p, l + [i]))
  {
    forall tag: Tag
      ensures var ck := CtlKey(tag, Addr(p, l + [i]));
              (ck in ControlAfter(c, e) <==> ck in w.ctl) && (ck in w.ctl ==> ControlAfter(c, e)[ck] == w.ctl[ck])
    {
      var ck := CtlKey(tag, Addr(p, l + [i]));
      ControlAfterIs(c, e, ck);
      assert At(p, l + [i]).Has(ck.at);
      forall v ensures Ctl(ck, v, true) !in e { assert AddrOf(Ctl(ck, v, true)) == ck.at; }
    }
  }

  lemma RetryOver(m: Memo, c: Control, w: World, n: Node, e: seq<Act>, d: seq<Act>, p: seq<nat>, l: seq<nat>, i: nat)
    requires Untouched(m, c, w, Iters(p, l, i + 1)) && Fits(e, Kids(p, l + [i], 0))
    requires |d| <= 1 && forall x | x in d :: x.Ctl? && AddrOf(x) == Addr(p, l + [i])
    ensures Untouched(MemoAfter(m, e + d), ControlAfter(c, e + d), w, Iters(p, l, i + 1))
  {
    IterRegion(p, l, i);
    IterationFits([], e, d, Addr(p, l + [i]));
    assert [] + e + d == e + d;
    UntouchedElsewhere(m, c, w, e + d, At(p, l + [i]), Iters(p, l, i + 1));
  }

  lemma LoopUnfold(w: World, n: Node, items: seq<Val>, i: nat, p: seq<nat>, l: seq<nat>, s: Scope)
    requires n.Loop? && !n.par && i < |items|
    ensures var e := ExecFrom(w, n.body, 0, p, l + [i], s[n.vr := items[i]]);
            Iterate(w, n, items, |items|, i, p, l, s) ==
              if e.st.Running? then Prefix(e.tr, Iterate(w, n, items, |items|, i + 1, p, l, e.scope)) else e
  {
    var e := ExecFrom(w, n.body, 0, p, l + [i], s[n.vr := items[i]]);
    assert [] + e.tr == e.tr && e.tr + [] == e.tr;
  }

  lemma WhileUnfold(w: World, n: Node, max: nat, i: nat, p: seq<nat>, l: seq<nat>, s: Scope)
    requires n.While? && i < max
    ensures var d := Decide(w, Wh, n.cond, Addr(p, l + [i]), s);
            var e := ExecFrom(w, n.body, 0, p, l + [i], s);
            Iterate(w, n, [], max, i, p, l, s) ==
              match d.verdict
              case Err(x) => Eff(s, Failed(x), d.tr)
              case No => Eff(s, Running, d.tr)
              case Yes => if e.st.Running? then Prefix(d.tr + e.tr, Iterate(w, n, [], max, i + 1, p, l, e.scope))
                else Prefix(d.tr, e)
  {
    var d := Decide(w, Wh, n.cond, Addr(p, l + [i]), s);
    var e := ExecFrom(w, n.body, 0, p, l + [i], s);
    assert d.tr + e.tr + [] == d.tr + e.tr;
  }

  lemma RetryUnfold(w: World, n: Node, max: nat, i: nat, p: seq<nat>, l: seq<nat>, s: Scope)
    requires n.Retry? && i < max
    ensures var e := ExecFrom(w, n.body, 0, p, l + [i], s);
            var d := Decide(w, Rt, n.cond, Addr(p, l + [i]), e.scope);
            Iterate(w, n, [], max, i, p, l, s) ==
              if !e.st.Running? then e
              else match d.verdict
                   case Err(x) => Eff(e.scope, Failed(x), e.tr + d.tr)
                   case Yes => Eff(e.scope, Running, e.tr + d.tr)
                   case No => Prefix(e.tr + d.tr, Iterate(w, n, [], max, i + 1, p, l, e.scope))
  {
    var e := ExecFrom(w, n.body, 0, p, l + [i], s);
    assert [] + e.tr == e.tr;
  }

  lemma UntouchedAfterRecord(m: Memo, c: Control, w: World, tr: seq<Act>, a: Addr, q: Region)
    requires Untouched(m, c, w, q) && !q.Has(a) && |tr| <= 1 && forall x | x in tr :: x.Ctl? && x.key.at == a
    ensures Untouched(MemoAfter(m, tr), ControlAfter(c, tr), w, q)
  {
    if |tr| == 1 {
      assert tr[0] in tr && tr[..0] == [];
    }
  }

  // ----- whole runs

  datatype RunOutcome = Refused | RunError(e: Error) | Ended(out: Val, memo: Memo, ctl: Control, suspended: bool,
      key: Option<Site>)

  ghost predicate Checkpointable(m: Memo) {
    forall k | k in m :: JsonNum.Canonical(m[k]).Some?
  }

  ghost function CanonicalMemo(m: Memo): Memo
    requires Checkpointable(m)
  {
    map k | k in m :: JsonNum.Canonical(m[k]).value
  }

  function OutputOf(st: Status): Val {
    if st.Returned? then st.v else Null
  }

  /** The seeded memo, every value in canonical form; None when one has no such form. */
  method SeedMemo(seed: Memo) returns (m: Option<Memo>)
    ensures m.Some? <==> Checkpointable(seed)
    ensures m.Some? ==> m.value == CanonicalMemo(seed)
  {
    var out: Memo := map[];
    var todo := seed.Keys;
    while todo != {}
      invariant todo <= seed.Keys && out.Keys == seed.Keys - todo
      invariant forall k | k in out :: JsonNum.Canonical(seed[k]) == Some(out[k])
      decreases todo
    {
      var k :| k in todo;
      var c := JsonNum.Canonical(seed[k]);
      if c.None? {
        return None;
      }
      out := out[k := c.value];
      todo := todo - {k};
    }
    return Some(out);
  }

  /** RunResumable for sequential programs: what it returns is the function `Interp.Run` on the
      canonical seed and input, and so, for any uninterrupted run z that the seed is part of, a
      run that does not pause returns exactly z's output. */
  method RunResumable(w: World, prog: Program, input: Val) returns (r: RunOutcome)
    requires SequentialAll(prog.body)
    ensures r.Refused? <==> !Checkpointable(w.memo) || JsonNum.Canonical(input).None?
    ensures !r.Refused? ==>
              var e := Run(w.(memo := CanonicalMemo(w.memo)), prog, JsonNum.Canonical(input).value);
              if e.st.Failed? then r == RunError(e.st.e)
              else && r.Ended? && r.out == OutputOf(e.st) && (r.suspended <==> e.st.Suspended?)
                   && r.memo == MemoAfter(CanonicalMemo(w.memo), e.tr) && r.ctl == ControlAfter(w.ctl, e.tr)
                   && (r.suspended ==> r.key.Some? && Gate(r.key.value) in e.tr)
    ensures forall z: World ::
              !r.Refused? && Replay.Fresh(z) && Replay.Resumes(w, z)
              && Replay.Seeded(w.(memo := CanonicalMemo(w.memo)), z, prog, JsonNum.Canonical(input).value)
              ==> var f := Run(z, prog, JsonNum.Canonical(input).value);
                  && (r.RunError? ==> f.st.Failed? && r.e != Diverged)
                  && (!f.st.Failed? && !r.suspended ==> r.out == OutputOf(f.st))
  {
    var m := SeedMemo(w.memo);
    if m.None? {
      return Refused;
    }
    var cinput := JsonNum.Canonical(input);
    if cinput.None? {
      return Refused;
    }
    var v := w.(memo := m.value);
    var sess := new LiveSession(m.value, w.ctl);
    var run := new Walker(v, sess, ParamScope(prog.params, cinput.value));
    var err := run.ExecAll(prog.body, [], []);
    ghost var e := Run(v, prog, cinput.value);
    forall z: World | Replay.Fresh(z) && Replay.Resumes(w, z) && Replay.Seeded(v, z, prog, cinput.value)
      ensures var f := Run(z, prog, cinput.value);
              && e.st != Failed(Diverged) && (e.st.Failed? ==> f.st.Failed?)
              && (!f.st.Failed? && !e.st.Suspended? ==> e.st == f.st)
    {
      SequentialIsWellScoped(prog.body);
      Replay.ReplayTransparency(v, z, prog, cinput.value);
    }
    if err.Some? && err.value.Genuine? {
      return RunError(err.value.e);
    }
    r := Ended(if run.done && !sess.suspended then run.output
               else Null, sess.memo, sess.control, sess.suspended, sess.suspendKey);
  }

  lemma {:induction false} SequentialIsWellScoped(ns: seq<Node>)
    requires SequentialAll(ns)
    ensures Scoping.NodesOk(ns)
    decreases ns, 0
  {
    forall i | 0 <= i < |ns| ensures Scoping.NodeOk(ns[i]) { SequentialNodeIsWellScoped(ns[i]); }
  }

  lemma {:induction false} SequentialNodeIsWellScoped(n: Node)
    requires Sequential(n)
    ensures Scoping.NodeOk(n)
    decreases n, 1
  {
    match n
    case Branch(_, thn, els) =>
      SequentialIsWellScoped(thn);
      SequentialIsWellScoped(els);
    case Loop(_, _, body, _) => SequentialIsWellScoped(body);
    case While(_, _, body) => SequentialIsWellScoped(body);
    case Retry(_, _, body) => SequentialIsWellScoped(body);
    case _ =>
  }
}
