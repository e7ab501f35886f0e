/** Whole lifetimes of a run: any number of suspend/resume cycles, each seeded with the
    memo and control record the previous one left behind. */
module Lifetime {
  import opened Values
  import opened ExecIR
  import opened Interp
  import opened Addressing
  import opened Scoping
  import opened Session
  import opened Replay
  import opened Accounting

  /** One (re)start: the invoker's answers this time, the pauses and the interleaving. */
  datatype Attempt = Attempt(oracle: Oracle, halt: Addr -> bool, merge: Addr -> seq<bool>)

  function WorldOf(z: World, at: Attempt, m: Memo, c: Control): World {
    World(z.maxLoop, z.render, at.oracle, m, c, at.halt, at.merge)
  }

  datatype Durable = Durable(memo: Memo, ctl: Control)

  /** Durable state after the attempts so far, starting from nothing. */
  function StateAfter(z: World, prog: Program, input: Val, ats: seq<Attempt>): Durable
    decreases |ats|, 0
  {
    if ats == [] then Durable(map[], map[])
    else
      var d := StateAfter(z, prog, input, ats[..|ats| - 1]);
      var e := AttemptRun(z, prog, input, ats, |ats| - 1);
      Durable(MemoAfter(d.memo, e.tr), ControlAfter(d.ctl, e.tr))
  }

  /** The k-th attempt, seeded with what attempts 0..k-1 left. */
  function AttemptRun(z: World, prog: Program, input: Val, ats: seq<Attempt>, k: nat): Eff
    requires k < |ats|
    decreases k, 1
  {
    var d := StateAfter(z, prog, input, ats[..k]);
    Run(WorldOf(z, ats[k], d.memo, d.ctl), prog, input)
  }

  /** Each attempt's invoker either pauses or answers as the uninterrupted run's does. */
  ghost predicate Consistent(z: World, ats: seq<Attempt>) {
    forall k | 0 <= k < |ats| :: Resumes(WorldOf(z, ats[k], map[], map[]), z)
  }

  lemma RunOnce(w: World, prog: Program, input: Val)
    ensures Once(Run(w, prog, input).tr)
  {
    AddressesIdentifyLeaves(w, prog, input);
  }

  /** Every checkpoint of a lifetime holds only records of the uninterrupted run. */
  lemma {:induction false} CheckpointsAreSeeds(z: World, prog: Program, input: Val, ats: seq<Attempt>, at: Attempt)
    requires Fresh(z) && NodesOk(prog.body) && Consistent(z, ats)
    ensures var d := StateAfter(z, prog, input, ats); Seeded(WorldOf(z, at, d.memo, d.ctl), z, prog, input)
    decreases |ats|
  {
    if ats != [] {
      var n := |ats| - 1;
      var init := ats[..n];
      var d := StateAfter(z, prog, input, init);
      var w := WorldOf(z, ats[n], d.memo, d.ctl);
      CheckpointsAreSeeds(z, prog, input, init, ats[n]);
      assert Resumes(WorldOf(z, ats[n], map[], map[]), z);
      assert Resumes(w, z);
      ReplayTransparency(w, z, prog, input);
      GrowSeed(w, z, prog, input, at);
    }
  }

  lemma GrowSeed(w: World, z: World, prog: Program, input: Val, at: Attempt)
    requires Seeded(w, z, prog, input) && Sound(w, Run(w, prog, input).tr, Run(z, prog, input).tr)
    ensures var tr := Run(w, prog, input).tr;
            Seeded(WorldOf(z, at, MemoAfter(w.memo, tr), ControlAfter(w.ctl, tr)), z, prog, input)
  {
    var tr, f := Run(w, prog, input).tr, Run(z, prog, input).tr;
    RunOnce(w, prog, input);
    forall k | k in MemoAfter(w.memo, tr) ensures Put(k, MemoAfter(w.memo, tr)[k]) in f {
      MemoAfterIs(w.memo, tr, k);
      if v :| Put(k, v) in tr {
      } else {
        assert At([], []).Has(k.at);
      }
    }
    forall k | k in ControlAfter(w.ctl, tr) ensures Ctl(k, ControlAfter(w.ctl, tr)[k], true) in f {
      ControlAfterIs(w.ctl, tr, k);
      if v :| Ctl(k, v, true) in tr {
      } else {
        assert At([], []).Has(k.at);
      }
    }
  }

  /** However a run was interrupted before, this attempt stops at a gate or ends exactly as
      the uninterrupted run does. */
  lemma LifetimeTransparency(z: World, prog: Program, input: Val, ats: seq<Attempt>, k: nat)
    requires Fresh(z) && NodesOk(prog.body) && Consistent(z, ats) && k < |ats|
    ensures var e, f := AttemptRun(z, prog, input, ats, k), Run(z, prog, input);
            && e.st != Failed(Diverged)
            && (!f.st.Failed? && !e.st.Suspended? ==> e.st == f.st && e.scope == f.scope)
            && forall x | x in e.tr && (x.Called? || x.Put?) :: x in f.tr
  {
    var d := StateAfter(z, prog, input, ats[..k]);
    var w := WorldOf(z, ats[k], d.memo, d.ctl);
    CheckpointsAreSeeds(z, prog, input, ats[..k], ats[k]);
    assert Resumes(WorldOf(z, ats[k], map[], map[]), z);
    assert Resumes(w, z);
    ReplayTransparency(w, z, prog, input);
  }

  lemma MemoOnlyGrows(z: World, prog: Program, input: Val, ats: seq<Attempt>, j: nat, k: nat, site: Site)
    requires j <= k <= |ats| && site in StateAfter(z, prog, input, ats[..j]).memo
    ensures site in StateAfter(z, prog, input, ats[..k]).memo
    decreases k - j
  {
    if j < k {
      var d := StateAfter(z, prog, input, ats[..j]);
      var w := WorldOf(z, ats[j], d.memo, d.ctl);
      assert ats[..j + 1][..j] == ats[..j];
      RunOnce(w, prog, input);
      MemoAfterIs(d.memo, Run(w, prog, input).tr, site);
      MemoOnlyGrows(z, prog, input, ats, j + 1, k, site);
    }
  }

  /** At most once: a leaf that returned a result in one attempt is called in no later one, for
      every program, whatever the invoker answers from one attempt to the next. */
  lemma NoEffectIsRepeated(z: World, prog: Program, input: Val, ats: seq<Attempt>, j: nat, k: nat, site: Site, v: Val)
    requires j < k < |ats| && Put(site, v) in AttemptRun(z, prog, input, ats, j).tr
    ensures forall call, args :: Called(site, call, args) !in AttemptRun(z, prog, input, ats, k).tr
  {
    hide Run;
    var d := StateAfter(z, prog, input, ats[..j]);
    var w := WorldOf(z, ats[j], d.memo, d.ctl);
    assert ats[..j + 1][..j] == ats[..j];
    RunOnce(w, prog, input);
    MemoAfterIs(d.memo, Run(w, prog, input).tr, site);
    assert site in StateAfter(z, prog, input, ats[..j + 1]).memo;
    MemoOnlyGrows(z, prog, input, ats, j + 1, k, site);
    var dk := StateAfter(z, prog, input, ats[..k]);
    var wk := WorldOf(z, ats[k], dk.memo, dk.ctl);
    forall call, args ensures Called(site, call, args) !in Run(wk, prog, input).tr {
      if Called(site, call, args) in Run(wk, prog, input).tr { CalledLeaf(wk, prog, input, site, call, args); }
    }
  }

  /** Exactly once: when the last attempt completes, every leaf result of the uninterrupted
      run was produced by some attempt and is in the final memo. */
  lemma {:induction false} EveryEffectHappened(z: World, prog: Program, input: Val, ats: seq<Attempt>, site: Site,
      v: Val)
    requires Fresh(z) && NodesOk(prog.body) && Consistent(z, ats) && ats != []
    requires !Run(z, prog, input).st.Failed? && !AttemptRun(z, prog, input, ats, |ats| - 1).st.Suspended?
    requires Put(site, v) in Run(z, prog, input).tr
    ensures exists k :: 0 <= k < |ats| && Put(site, v) in AttemptRun(z, prog, input, ats, k).tr
  {
    var n := |ats| - 1;
    var d := StateAfter(z, prog, input, ats[..n]);
    var w := WorldOf(z, ats[n], d.memo, d.ctl);
    CheckpointsAreSeeds(z, prog, input, ats[..n], ats[n]);
    assert Resumes(WorldOf(z, ats[n], map[], map[]), z);
    assert Resumes(w, z);
    ReplayTransparency(w, z, prog, input);
    if Put(site, v) !in Run(w, prog, input).tr {
      FromSomeAttempt(z, prog, input, ats, n, site, v);
    }
  }

  lemma {:induction false} FromSomeAttempt(z: World, prog: Program, input: Val, ats: seq<Attempt>, n: nat, site: Site,
      v: Val)
    requires n <= |ats|
    requires site in StateAfter(z, prog, input, ats[..n]).memo && StateAfter(z, prog, input, ats[..n]).memo[site] == v
    ensures exists k :: 0 <= k < n && Put(site, v) in AttemptRun(z, prog, input, ats, k).tr
    decreases n
  {
    if n > 0 {
      var d := StateAfter(z, prog, input, ats[..n - 1]);
      var w := WorldOf(z, ats[n - 1], d.memo, d.ctl);
      assert ats[..n][..n - 1] == ats[..n - 1];
      RunOnce(w, prog, input);
      MemoAfterIs(d.memo, Run(w, prog, input).tr, site);
      if u :| Put(site, u) in Run(w, prog, input).tr {
        assert Put(site, v) in AttemptRun(z, prog, input, ats, n - 1).tr;
      } else {
        FromSomeAttempt(z, prog, input, ats, n - 1, site, v);
      }
    }
  }
}
