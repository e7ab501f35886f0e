/** The bound built from a walk (internal/effects/compute.go finish, unreachableFrom): one
    entry per effect with every occurrence, autonomous paths preferred, and the declared
    operations that stay out of reach. */
module EffectBound {
  import opened Effects

  datatype Occurrence = Occurrence(uses: string, via: seq<Hop>)

  datatype Effect =
    | Unknown(uses: string, via: seq<Hop>)
    | Declared(ident: string, uses: string, via: seq<Hop>, occs: seq<Occurrence>)

  predicate KnownOp(p: Project, g: Grant) {
    !g.unknown && g.uses in p.manifest && p.manifest[g.uses] != []
  }

  predicate Declares(p: Project, g: Grant, ident: string) {
    KnownOp(p, g) && ident in p.manifest[g.uses]
  }

  // ----- what the bound should say

  ghost predicate Uses(p: Project, root: Node, uses: string, ident: string) {
    exists g, a :: Occurs(p, root, g, a) && g.uses == uses && Declares(p, g, ident)
  }

  ghost predicate UsesAutonomously(p: Project, root: Node, ident: string) {
    exists g :: Occurs(p, root, g, true) && Declares(p, g, ident)
  }

  ghost predicate LacksEffects(p: Project, root: Node, uses: string) {
    exists g, a :: Occurs(p, root, g, a) && g.uses == uses && Effectless(p, g)
  }

  /** The operation is an unresolved agent, or declares no effect. */
  predicate Effectless(p: Project, g: Grant) {
    g.unknown || g.uses !in p.manifest || p.manifest[g.uses] == []
  }

  predicate HasOcc(occs: seq<Occurrence>, uses: string) {
    exists i :: 0 <= i < |occs| && occs[i].uses == uses
  }

  ghost predicate ListsIdent(effects: seq<Effect>, ident: string) {
    exists i :: 0 <= i < |effects| && effects[i].Declared? && effects[i].ident == ident
  }

  ghost predicate ListsUnknown(effects: seq<Effect>, uses: string) {
    exists i :: 0 <= i < |effects| && effects[i].Unknown? && effects[i].uses == uses
  }

  /** The path is a genuine one to an operation that declares the effect. */
  ghost predicate WitnessFor(p: Project, root: Node, via: seq<Hop>, uses: string, ident: string) {
    exists g: Grant :: g.uses == uses && Genuine(p, root, Reached(g, via)) && Declares(p, g, ident)
  }

  /** All occurrences, and an autonomous witness exactly when some agent grant contributes. */
  ghost predicate EntryExact(p: Project, root: Node, e: Effect) {
    e.Declared? ==>
      && (forall u :: HasOcc(e.occs, u) <==> Uses(p, root, u, e.ident))
      && (Autonomous(e.via) <==> UsesAutonomously(p, root, e.ident))
      && WitnessFor(p, root, e.via, e.uses, e.ident)
  }

  ghost predicate Exact(p: Project, root: Node, effects: seq<Effect>) {
    && (forall ident :: ListsIdent(effects, ident) <==> exists u :: Uses(p, root, u, ident))
    && (forall u :: ListsUnknown(effects, u) <==> LacksEffects(p, root, u))
    && (forall i :: 0 <= i < |effects| ==> EntryExact(p, root, effects[i]))
    && (forall i, j ::
          0 <= i < j < |effects| && effects[i].Declared? && effects[j].Declared?
          ==> effects[i].ident != effects[j].ident)
  }

  /** No unresolved agent that the root reaches goes by the name of an operation it also reaches. */
  ghost predicate Unshadowed(p: Project, root: Node) {
    forall g, h, a, b ::
      Occurs(p, root, g, a) && Occurs(p, root, h, b) && g.uses == h.uses && KnownOp(p, h) ==> !g.unknown
  }

  // ----- one representative per operation, autonomous preferred

  ghost predicate ReachesKey(reached: seq<Reached>, n: nat, k: string) {
    exists i :: 0 <= i < n <= |reached| && reached[i].grant.uses == k
  }

  ghost predicate ReachesAlone(reached: seq<Reached>, n: nat, k: string) {
    exists i :: 0 <= i < n <= |reached| && reached[i].grant.uses == k && Autonomous(reached[i].via)
  }

  ghost predicate Picks(reached: seq<Reached>, n: nat, first: map<string, Reached>) {
    && (forall k :: k in first <==> ReachesKey(reached, n, k))
    && (forall k ::
          k in first ==>
            first[k].grant.uses == k && first[k] in reached
            && (Autonomous(first[k].via) <==> ReachesAlone(reached, n, k)))
  }

  /** Among the first n entries, entry i stands for its name: it is the earliest autonomous one,
      or, where none is autonomous, the earliest. */
  ghost predicate IsRep(reached: seq<Reached>, n: nat, i: nat) {
    && i < n <= |reached|
    && if Autonomous(reached[i].via)
       then forall j :: 0 <= j < i && reached[j].grant.uses == reached[i].grant.uses ==> !Autonomous(reached[j].via)
       else && (forall j ::
                  0 <= j < n && reached[j].grant.uses == reached[i].grant.uses ==> !Autonomous(reached[j].via))
            && (forall j :: 0 <= j < i ==> reached[j].grant.uses != reached[i].grant.uses)
  }

  ghost predicate Chosen(reached: seq<Reached>, n: nat, first: map<string, Reached>) {
    forall k :: k in first ==> ChosenAt(reached, n, first[k], k)
  }

  ghost predicate ChosenAt(reached: seq<Reached>, n: nat, r: Reached, k: string) {
    exists i: nat :: i < |reached| && IsRep(reached, n, i) && reached[i] == r && r.grant.uses == k
  }

  /** The next entry leaves other names alone, and takes over its own exactly when it is the
      first of its name or the first autonomous one. */
  lemma ChosenStep(reached: seq<Reached>, i: nat, first: map<string, Reached>)
    requires i < |reached| && Picks(reached, i, first) && Chosen(reached, i, first)
    ensures var r := reached[i];
            var k := r.grant.uses;
            Chosen(reached, i + 1, if k in first
                   && (Autonomous(first[k].via) || !Autonomous(r.via)) then first else first[k := r])
  {
    hide Autonomous, IsRep, Picks;
    var r := reached[i];
    var k := r.grant.uses;
    var now := if k in first && (Autonomous(first[k].via) || !Autonomous(r.via)) then first else first[k := r];
    forall u | u in now ensures ChosenAt(reached, i + 1, now[u], u) {
      if u != k || now == first {
        var j: nat :| j < |reached| && IsRep(reached, i, j) && reached[j] == first[u] && first[u].grant.uses == u;
        RepStays(reached, i, j);
      } else {
        EarlierEntries(reached, i, first);
        RepHere(reached, i);
      }
    }
  }

  lemma RepStays(reached: seq<Reached>, i: nat, j: nat)
    requires i < |reached| && j < |reached| && IsRep(reached, i, j)
    requires reached[j].grant.uses != reached[i].grant.uses || Autonomous(reached[j].via) || !Autonomous(reached[i].via)
    ensures IsRep(reached, i + 1, j)
  {
    hide Autonomous;
  }

  lemma RepHere(reached: seq<Reached>, i: nat)
    requires i < |reached|
    requires forall j :: 0 <= j < i && reached[j].grant.uses == reached[i].grant.uses ==> !Autonomous(reached[j].via)
    requires !Autonomous(reached[i].via) ==> forall j :: 0 <= j < i ==> reached[j].grant.uses != reached[i].grant.uses
    ensures IsRep(reached, i + 1, i)
  {
    hide Autonomous;
  }

  /** What the chosen entry says of the entries before. */
  lemma EarlierEntries(reached: seq<Reached>, i: nat, first: map<string, Reached>)
    requires i < |reached| && Picks(reached, i, first)
    requires var k := reached[i].grant.uses; !(k in first && (Autonomous(first[k].via) || !Autonomous(reached[i].via)))
    ensures forall j :: 0 <= j < i && reached[j].grant.uses == reached[i].grant.uses ==> !Autonomous(reached[j].via)
    ensures !Autonomous(reached[i].via) ==> forall j :: 0 <= j < i ==> reached[j].grant.uses != reached[i].grant.uses
  {
    hide Autonomous;
    var k := reached[i].grant.uses;
    forall j | 0 <= j < i && reached[j].grant.uses == k ensures k in first && !Autonomous(reached[j].via) {
      assert ReachesKey(reached, i, k);
      assert Autonomous(reached[j].via) ==> ReachesAlone(reached, i, k);
    }
  }

  method PickFirst(reached: seq<Reached>) returns (first: map<string, Reached>, order: seq<string>)
    ensures Picks(reached, |reached|, first) && Chosen(reached, |reached|, first)
    ensures forall k :: k in first <==> k in order
  {
    first, order := map[], [];
    for i := 0 to |reached|
      invariant Picks(reached, i, first) && Chosen(reached, i, first)
      invariant forall k :: k in first <==> k in order
    {
      hide Autonomous, Chosen;
      var r := reached[i];
      var k := r.grant.uses;
      PickStep(reached, i, first);
      ChosenStep(reached, i, first);
      if k in first {
        if Autonomous(r.via) && !Autonomous(first[k].via) { first := first[k := r]; }
      } else {
        first := first[k := r];
        order := order + [k];
      }
    }
  }

  lemma AloneIsReached(reached: seq<Reached>, n: nat, k: string)
    ensures ReachesAlone(reached, n, k) ==> ReachesKey(reached, n, k)
  {
  }

  lemma PickStep(reached: seq<Reached>, i: nat, first: map<string, Reached>)
    requires i < |reached| && Picks(reached, i, first)
    ensures var r := reached[i];
            var k := r.grant.uses;
            Picks(reached, i + 1, if k in first
                  && (Autonomous(first[k].via) || !Autonomous(r.via)) then first else first[k := r])
  {
    hide Autonomous;
    var r := reached[i];
    var k := r.grant.uses;
    forall u ensures ReachesKey(reached, i + 1, u) <==> ReachesKey(reached, i, u) || u == k {
      if ReachesKey(reached, i, u) {
        var j :| 0 <= j < i && reached[j].grant.uses == u;
        assert 0 <= j < i + 1 <= |reached|;
      }
      if u == k { assert 0 <= i < i + 1 <= |reached| && reached[i].grant.uses == u; }
    }
    forall u ensures ReachesAlone(reached, i + 1, u) <==> ReachesAlone(reached, i, u) || (u == k && Autonomous(r.via)) {
      if ReachesAlone(reached, i, u) {
        var j :| 0 <= j < i && reached[j].grant.uses == u && Autonomous(reached[j].via);
        assert 0 <= j < i + 1 <= |reached|;
      }
      if u == k && Autonomous(r.via) { assert 0 <= i < i + 1 <= |reached| && reached[i].grant.uses == u; }
    }
    if k in first { assert ReachesKey(reached, i, k); }
    AloneIsReached(reached, i, k);
  }

  // ----- one entry per effect

  type Pairs = set<(string, string)>

  ghost predicate AloneIn(first: map<string, Reached>, done: Pairs, ident: string) {
    exists k :: (k, ident) in done && k in first && Autonomous(first[k].via)
  }

  /** The entry shows its first autonomous occurrence, or its first where none is autonomous. */
  ghost predicate Preferred(e: Effect) {
    e.Declared? ==> exists i: nat :: i < |e.occs| && e.occs[i] == Occurrence(e.uses, e.via) && Leading(e.occs, i)
  }

  ghost predicate Leading(occs: seq<Occurrence>, i: nat)
    requires i < |occs|
  {
    if Autonomous(occs[i].via) then forall j :: 0 <= j < i ==> !Autonomous(occs[j].via)
    else i == 0 && forall j :: 0 <= j < |occs| ==> !Autonomous(occs[j].via)
  }

  /** Each occurrence has the path of its operation's representative. */
  ghost predicate Witnessed(first: map<string, Reached>, e: Effect) {
    e.Declared? ==> forall i :: 0 <= i < |e.occs| ==> WitnessedAt(first, e.occs[i])
  }

  ghost predicate WitnessedAt(first: map<string, Reached>, o: Occurrence) {
    o.uses in first && o.via == first[o.uses].via
  }

  lemma PreferredGrows(first: map<string, Reached>, e: Effect, k: string)
    requires e.Declared? && Preferred(e) && Witnessed(first, e) && k in first && first[k].grant.uses == k
    ensures Preferred(Contribute(e, first[k])) && Witnessed(first, Contribute(e, first[k]))
  {
    hide Autonomous;
    var r, e' := first[k], Contribute(e, first[k]);
    var i: nat :| i < |e.occs| && e.occs[i] == Occurrence(e.uses, e.via) && Leading(e.occs, i);
    if HasOcc(e.occs, k) {
      var j :| 0 <= j < |e.occs| && e.occs[j].uses == k;
      assert WitnessedAt(first, e.occs[j]);
      assert e' == e;
    } else {
      assert e'.occs == e.occs + [Occurrence(k, r.via)];
      forall j | 0 <= j < |e'.occs| ensures WitnessedAt(first, e'.occs[j]) {
        if j < |e.occs| { assert WitnessedAt(first, e.occs[j]); }
      }
      var at: nat := if Autonomous(r.via) && !Autonomous(e.via) then |e.occs| else i;
      assert e'.occs[at] == Occurrence(e'.uses, e'.via) && Leading(e'.occs, at);
    }
  }

  lemma PreferredAlone(first: map<string, Reached>, e: Effect, k: string)
    requires e.Declared? && k in first && e.uses == k && e.via == first[k].via && e.occs == [Occurrence(k, e.via)]
    ensures Preferred(e) && Witnessed(first, e)
  {
    assert e.occs[0] == Occurrence(e.uses, e.via) && Leading(e.occs, 0);
  }

  ghost predicate EntryOk(first: map<string, Reached>, done: Pairs, e: Effect) {
    e.Declared? ==>
      && Preferred(e) && Witnessed(first, e)
      && (e.uses, e.ident) in done && e.uses in first && e.via == first[e.uses].via
      && (forall k :: (k, e.ident) in done <==> HasOcc(e.occs, k))
      && (Autonomous(e.via) <==> AloneIn(first, done, e.ident))
  }

  ghost predicate Contributed(done: Pairs, ident: string) {
    exists k :: (k, ident) in done
  }

  lemma ContributedGrows(done: Pairs, k: string, ident: string, other: string)
    ensures Contributed(done + {(k, ident)}, other) <==> Contributed(done, other) || other == ident
  {
    if Contributed(done, other) {
      var j :| (j, other) in done;
      assert (j, other) in done + {(k, ident)};
    }
    assert (k, ident) in done + {(k, ident)};
  }

  /** The effects collected so far cover exactly the (operation, effect) pairs in `done`. */
  ghost predicate Summary(first: map<string, Reached>, done: Pairs, effects: seq<Effect>, index: map<string, nat>) {
    && (forall q :: q in done ==> q.0 in first)
    && (forall id :: id in index <==> Contributed(done, id))
    && (forall id ::
          id in index ==> index[id] < |effects| && effects[index[id]].Declared? && effects[index[id]].ident == id)
    && (forall i ::
          0 <= i < |effects| && effects[i].Declared? ==> effects[i].ident in index && index[effects[i].ident] == i)
    && (forall i :: 0 <= i < |effects| ==> EntryOk(first, done, effects[i]))
  }

  function AppendOccurrence(occs: seq<Occurrence>, uses: string, via: seq<Hop>): (r: seq<Occurrence>)
    ensures forall u :: HasOcc(r, u) <==> HasOcc(occs, u) || u == uses
  {
    if HasOcc(occs, uses) then occs
    else
      assert forall i :: 0 <= i < |occs| ==> (occs + [Occurrence(uses, via)])[i] == occs[i];
      assert (occs + [Occurrence(uses, via)])[|occs|].uses == uses;
      occs + [Occurrence(uses, via)]
  }

  /** preferAutonomousEffect on one more contributing operation. */
  function Contribute(e: Effect, r: Reached): Effect
    requires e.Declared?
  {
    var more := e.(occs := AppendOccurrence(e.occs, r.grant.uses, r.via));
    if Autonomous(r.via) && !Autonomous(e.via) then more.(via := r.via, uses := r.grant.uses) else more
  }

  lemma ContributeOk(first: map<string, Reached>, done: Pairs, e: Effect, k: string)
    requires k in first && first[k].grant.uses == k && e.Declared? && EntryOk(first, done, e)
    ensures EntryOk(first, done + {(k, e.ident)}, Contribute(e, first[k]))
  {
    PreferredGrows(first, e, k);
    hide Autonomous, Preferred, Witnessed;
    AloneGrows(first, done, k, e.ident, e.ident);
  }

  lemma AloneGrows(first: map<string, Reached>, done: Pairs, k: string, ident: string, other: string)
    requires k in first
    ensures AloneIn(first, done + {(k, ident)}, other)
            <==> AloneIn(first, done, other) || (other == ident && Autonomous(first[k].via))
  {
    hide Autonomous;
    if AloneIn(first, done, other) {
      var j :| (j, other) in done && j in first && Autonomous(first[j].via);
      assert (j, other) in done + {(k, ident)};
    }
    if other == ident && Autonomous(first[k].via) { assert (k, other) in done + {(k, ident)}; }
  }

  lemma OtherEntriesKeep(first: map<string, Reached>, done: Pairs, e: Effect, k: string, ident: string)
    requires k in first && EntryOk(first, done, e) && (e.Declared? ==> e.ident != ident)
    ensures EntryOk(first, done + {(k, ident)}, e)
  {
    hide Autonomous, HasOcc, Preferred, Witnessed;
    if e.Declared? { AloneGrows(first, done, k, ident, e.ident); }
  }

  lemma UpdateKeepsSummary(first: map<string, Reached>, done: Pairs, effects: seq<Effect>, index: map<string, nat>,
      k: string, ident: string)
    requires Summary(first, done, effects, index) && k in first && first[k].grant.uses == k && ident in index
    ensures var i := index[ident];
            Summary(first, done + {(k, ident)}, effects[i := Contribute(effects[i], first[k])], index)
  {
    hide Autonomous, HasOcc, EntryOk, Contributed;
    var i := index[ident];
    var after, new' := done + {(k, ident)}, effects[i := Contribute(effects[i], first[k])];
    ContributeOk(first, done, effects[i], k);
    forall j | 0 <= j < |new'| ensures EntryOk(first, after, new'[j]) {
      if j != i { OtherEntriesKeep(first, done, effects[j], k, ident); }
    }
    forall id ensures id in index <==> Contributed(after, id) { ContributedGrows(done, k, ident, id); }
  }

  lemma AppendKeepsSummary(first: map<string, Reached>, done: Pairs, effects: seq<Effect>, index: map<string, nat>,
      k: string, ident: string)
    requires Summary(first, done, effects, index) && k in first && first[k].grant.uses == k && ident !in index
    ensures Summary(first, done + {(k, ident)}, effects + [Declared(ident, k, first[k].via,
        [Occurrence(k, first[k].via)])], index[ident := |effects|])
  {
    hide Autonomous, HasOcc, EntryOk, Contributed;
    var e := Declared(ident, k, first[k].via, [Occurrence(k, first[k].via)]);
    var after, new' := done + {(k, ident)}, effects + [e];
    NewEntryOk(first, done, e, k);
    forall j | 0 <= j < |new'| ensures EntryOk(first, after, new'[j]) {
      if j < |effects| { OtherEntriesKeep(first, done, effects[j], k, ident); }
    }
    forall id ensures id in index[ident := |effects|] <==> Contributed(after, id) {
      ContributedGrows(done, k, ident, id);
    }
  }

  lemma UnknownKeepsSummary(first: map<string, Reached>, done: Pairs, effects: seq<Effect>, index: map<string, nat>,
      e: Effect)
    requires Summary(first, done, effects, index) && e.Unknown?
    ensures Summary(first, done, effects + [e], index)
  {
    hide Autonomous, HasOcc, Contributed, EntryOk;
    assert EntryOk(first, done, e) by { UnknownIsOk(first, done, e); }
  }

  lemma UnknownIsOk(first: map<string, Reached>, done: Pairs, e: Effect)
    requires e.Unknown?
    ensures EntryOk(first, done, e)
  {
  }

  /** One contributing pair: a further occurrence of a listed effect, or a new entry. */
  method AddIdent(ghost first: map<string, Reached>, ghost done: Pairs, effects: seq<Effect>, index: map<string, nat>,
      r: Reached, ident: string)
    returns (effects': seq<Effect>, index': map<string, nat>)
    requires Summary(first, done, effects, index) && r.grant.uses in first && first[r.grant.uses] == r
    ensures Summary(first, done + {(r.grant.uses, ident)}, effects', index')
    ensures forall u :: ListsUnknown(effects', u) <==> ListsUnknown(effects, u)
  {
    hide Autonomous, HasOcc, EntryOk, Contributed, AppendOccurrence;
    if ident in index {
      var i := index[ident];
      UpdateKeepsSummary(first, done, effects, index, r.grant.uses, ident);
      effects', index' := effects[i := Contribute(effects[i], r)], index;
      SameUnknown(effects, effects', i);
    } else {
      var e := Declared(ident, r.grant.uses, r.via, [Occurrence(r.grant.uses, r.via)]);
      AppendKeepsSummary(first, done, effects, index, r.grant.uses, ident);
      effects', index' := effects + [e], index[ident := |effects|];
      NewKeepsUnknown(effects, e);
    }
  }

  lemma SameUnknown(effects: seq<Effect>, effects': seq<Effect>, i: nat)
    requires i < |effects| && effects[i].Declared? && |effects'| == |effects| && effects'[i].Declared?
    requires forall j :: 0 <= j < |effects| && j != i ==> effects'[j] == effects[j]
    ensures forall u :: ListsUnknown(effects', u) <==> ListsUnknown(effects, u)
  {
    forall u ensures ListsUnknown(effects', u) <==> ListsUnknown(effects, u) {
      if ListsUnknown(effects, u) {
        var j :| 0 <= j < |effects| && effects[j].Unknown? && effects[j].uses == u;
        assert effects'[j] == effects[j];
      }
      if ListsUnknown(effects', u) {
        var j :| 0 <= j < |effects'| && effects'[j].Unknown? && effects'[j].uses == u;
        assert effects'[j] == effects[j];
      }
    }
  }

  lemma NewKeepsUnknown(effects: seq<Effect>, e: Effect)
    ensures forall u :: ListsUnknown(effects + [e], u) <==> ListsUnknown(effects, u) || (e.Unknown? && e.uses == u)
  {
    forall u ensures ListsUnknown(effects + [e], u) <==> ListsUnknown(effects, u) || (e.Unknown? && e.uses == u) {
      if ListsUnknown(effects, u) {
        var j :| 0 <= j < |effects| && effects[j].Unknown? && effects[j].uses == u;
        assert (effects + [e])[j] == effects[j];
      }
      if e.Unknown? && e.uses == u { assert (effects + [e])[|effects|] == e; }
    }
  }

  lemma NewEntryOk(first: map<string, Reached>, done: Pairs, e: Effect, k: string)
    requires e.Declared? && k in first && e.uses == k && e.via == first[k].via && e.occs == [Occurrence(k, e.via)]
    requires !Contributed(done, e.ident)
    ensures EntryOk(first, done + {(k, e.ident)}, e)
  {
    PreferredAlone(first, e, k);
    hide Autonomous, Preferred, Witnessed;
    AloneGrows(first, done, k, e.ident, e.ident);
    assert e.occs[0].uses == k;
  }

  /** All pairs the chosen representatives contribute. */
  ghost function PairsOf(p: Project, first: map<string, Reached>, keys: set<string>): Pairs {
    set k, id | k in keys && k in first && Declares(p, first[k].grant, id) && k in p.manifest
    && id in p.manifest[k] :: (k, id)
  }

  ghost function Tagged(k: string, idents: seq<string>): Pairs {
    set id | id in idents :: (k, id)
  }

  lemma PairsWith(p: Project, first: map<string, Reached>, keys: set<string>, k: string)
    requires k in first && first[k].grant.uses == k && KnownOp(p, first[k].grant)
    ensures PairsOf(p, first, keys + {k}) == PairsOf(p, first, keys) + Tagged(k, p.manifest[k])
  {
  }

  lemma NothingYet(p: Project, first: map<string, Reached>)
    ensures Summary(first, PairsOf(p, first, {}), [], map[]) && forall u :: !ListsUnknown([], u)
  {
  }

  method Summarise(p: Project, first: map<string, Reached>, order: seq<string>)
    returns (effects: seq<Effect>, ghost index: map<string, nat>)
    requires forall k :: k in first <==> k in order
    requires forall k :: k in first ==> first[k].grant.uses == k
    ensures Summary(first, PairsOf(p, first, first.Keys), effects, index)
    ensures forall u :: ListsUnknown(effects, u) <==> u in first && !KnownOp(p, first[u].grant)
  {
    hide Autonomous;
    var idx: map<string, nat>;
    effects, idx := [], map[];
    ghost var keys: set<string> := {};
    NothingYet(p, first);
    for i := 0 to |order|
      invariant forall k :: k in keys <==> k in order[..i]
      invariant Summary(first, PairsOf(p, first, keys), effects, idx)
      invariant forall u :: ListsUnknown(effects, u) <==> u in keys && !KnownOp(p, first[u].grant)
    {
      hide Summary;
      var r := first[order[i]];
      effects, idx := AddOperation(p, first, keys, effects, idx, r);
      keys := keys + {order[i]};
      assert order[..i + 1] == order[..i] + [order[i]];
    }
    assert order[..|order|] == order;
    assert keys == first.Keys;
    index := idx;
  }

  method AddOperation(p: Project, ghost first: map<string, Reached>, ghost keys: set<string>, effects: seq<Effect>,
      index: map<string, nat>, r: Reached)
    returns (effects': seq<Effect>, index': map<string, nat>)
    requires r.grant.uses in first && first[r.grant.uses] == r && (forall k :: k in keys ==> k in first)
    requires Summary(first, PairsOf(p, first, keys), effects, index)
    ensures Summary(first, PairsOf(p, first, keys + {r.grant.uses}), effects', index')
    ensures forall u ::
              ListsUnknown(effects', u) <==> ListsUnknown(effects, u) || (u == r.grant.uses && !KnownOp(p, r.grant))
  {
    hide Autonomous, Summary, ListsUnknown;
    ghost var k := r.grant.uses;
    ghost var done := PairsOf(p, first, keys);
    effects', index' := effects, index;
    if !KnownOp(p, r.grant) {
      var e := Unknown(r.grant.uses, r.via);
      effects' := effects + [e];
      NewKeepsUnknown(effects, e);
      UnknownKeepsSummary(first, done, effects, index, e);
      assert PairsOf(p, first, keys + {k}) == done;
    } else {
      var idents := p.manifest[r.grant.uses];
      assert done + Tagged(k, idents[..0]) == done;
      for j := 0 to |idents|
        invariant Summary(first, done + Tagged(k, idents[..j]), effects', index')
        invariant forall u :: ListsUnknown(effects', u) <==> ListsUnknown(effects, u)
      {
        ghost var sofar := done + Tagged(k, idents[..j]);
        effects', index' := AddIdent(first, sofar, effects', index', r, idents[j]);
        assert idents[..j + 1] == idents[..j] + [idents[j]];
        assert sofar + {(k, idents[j])} == done + Tagged(k, idents[..j + 1]);
      }
      assert idents[..|idents|] == idents;
      PairsWith(p, first, keys, k);
      assert PairsOf(p, first, keys + {k}) == done + Tagged(k, idents);
    }
  }

  // ----- the bound of a root

  /** Declared operations nothing reaches. */
  method UnreachableFrom(p: Project, first: map<string, Reached>) returns (out: set<string>)
    ensures forall u :: u in out <==> u in p.manifest && u !in first
  {
    out := {};
    var rest := p.manifest.Keys;
    while rest != {}
      invariant rest <= p.manifest.Keys
      invariant forall u :: u in out <==> u in p.manifest && u !in rest && u !in first
      decreases |rest|
    {
      var u :| u in rest;
      if u !in first { out := out + {u}; }
      rest := rest - {u};
    }
  }

  ghost predicate Walked(p: Project, root: Node, reached: seq<Reached>) {
    && (forall i :: 0 <= i < |reached| ==> Genuine(p, root, reached[i]))
    && (forall g, a :: Occurs(p, root, g, a) <==> Listed(reached, g, a))
  }

  lemma KeyOccurs(p: Project, root: Node, reached: seq<Reached>, first: map<string, Reached>, k: string)
    requires Walked(p, root, reached) && Picks(reached, |reached|, first) && k in first
    ensures Occurs(p, root, first[k].grant, Autonomous(first[k].via)) && Genuine(p, root, first[k])
  {
    hide Autonomous, Genuine, Occurs;
    var i :| 0 <= i < |reached| && reached[i] == first[k];
    assert Listed(reached, first[k].grant, Autonomous(first[k].via));
  }

  lemma OccursKey(p: Project, root: Node, reached: seq<Reached>, first: map<string, Reached>, g: Grant, a: bool)
    requires Walked(p, root, reached) && Picks(reached, |reached|, first) && Occurs(p, root, g, a)
    ensures g.uses in first && first[g.uses].grant.uses == g.uses && (a ==> Autonomous(first[g.uses].via))
  {
    hide Autonomous, Genuine, Occurs;
    var i :| 0 <= i < |reached| && reached[i].grant == g && Autonomous(reached[i].via) == a;
    assert ReachesKey(reached, |reached|, g.uses);
    if a { assert ReachesAlone(reached, |reached|, g.uses); }
  }

  /** Without shadowing, the representative of a declaring operation declares the same. */
  lemma RepresentativeDeclares(p: Project, root: Node, reached: seq<Reached>, first: map<string, Reached>, g: Grant,
      a: bool, ident: string)
    requires Walked(p, root, reached) && Picks(reached, |reached|, first) && Unshadowed(p, root)
             && Occurs(p, root, g, a) && Declares(p, g, ident)
    ensures g.uses in first && Declares(p, first[g.uses].grant, ident)
            && (g.uses, ident) in PairsOf(p, first, first.Keys)
  {
    hide Autonomous, Genuine, Occurs, Picks, Walked;
    OccursKey(p, root, reached, first, g, a);
    KeyOccurs(p, root, reached, first, g.uses);
    assert !first[g.uses].grant.unknown;
  }

  lemma PairsAreUses(p: Project, root: Node, reached: seq<Reached>, first: map<string, Reached>, u: string,
      ident: string)
    requires Walked(p, root, reached) && Picks(reached, |reached|, first) && Unshadowed(p, root)
    ensures (u, ident) in PairsOf(p, first, first.Keys) <==> Uses(p, root, u, ident)
  {
    hide Autonomous, Genuine, Occurs, Walked;
    if (u, ident) in PairsOf(p, first, first.Keys) { KeyOccurs(p, root, reached, first, u); }
    if Uses(p, root, u, ident) {
      var g, a :| Occurs(p, root, g, a) && g.uses == u && Declares(p, g, ident);
      RepresentativeDeclares(p, root, reached, first, g, a, ident);
    }
  }

  lemma AloneIsAutonomous(p: Project, root: Node, reached: seq<Reached>, first: map<string, Reached>, ident: string)
    requires Walked(p, root, reached) && Picks(reached, |reached|, first) && Unshadowed(p, root)
    ensures AloneIn(first, PairsOf(p, first, first.Keys), ident) <==> UsesAutonomously(p, root, ident)
  {
    hide Autonomous, Genuine, Occurs, Walked;
    if AloneIn(first, PairsOf(p, first, first.Keys), ident) {
      var k :| (k, ident) in PairsOf(p, first, first.Keys) && k in first && Autonomous(first[k].via);
      KeyOccurs(p, root, reached, first, k);
    }
    if UsesAutonomously(p, root, ident) {
      var g :| Occurs(p, root, g, true) && Declares(p, g, ident);
      RepresentativeDeclares(p, root, reached, first, g, true, ident);
      OccursKey(p, root, reached, first, g, true);
    }
  }

  lemma EntryIsExact(p: Project, root: Node, reached: seq<Reached>, first: map<string, Reached>, e: Effect)
    requires Walked(p, root, reached) && Picks(reached, |reached|, first) && Unshadowed(p, root)
    requires EntryOk(first, PairsOf(p, first, first.Keys), e)
    ensures EntryExact(p, root, e)
  {
    hide Autonomous, Genuine, Occurs, Walked, Uses, HasOcc;
    if e.Declared? {
      forall u ensures HasOcc(e.occs, u) <==> Uses(p, root, u, e.ident) {
        PairsAreUses(p, root, reached, first, u, e.ident);
      }
      AloneIsAutonomous(p, root, reached, first, e.ident);
      KeyOccurs(p, root, reached, first, e.uses);
      var g := first[e.uses].grant;
      assert Reached(g, e.via) == first[e.uses] && Declares(p, g, e.ident);
    }
  }

  lemma UnknownsAreExact(p: Project, root: Node, reached: seq<Reached>, first: map<string, Reached>, u: string)
    requires Walked(p, root, reached) && Picks(reached, |reached|, first) && Unshadowed(p, root)
    ensures (u in first && !KnownOp(p, first[u].grant)) <==> LacksEffects(p, root, u)
  {
    hide Autonomous, Genuine, Walked, Occurs;
    if u in first && !KnownOp(p, first[u].grant) { KeyOccurs(p, root, reached, first, u); }
    if LacksEffects(p, root, u) {
      var g, a :| Occurs(p, root, g, a) && g.uses == u && Effectless(p, g);
      OccursKey(p, root, reached, first, g, a);
      KeyOccurs(p, root, reached, first, u);
    }
  }

  lemma UnshadowedIsExact(p: Project, root: Node, reached: seq<Reached>, first: map<string, Reached>,
      effects: seq<Effect>, index: map<string, nat>)
    requires Walked(p, root, reached) && Picks(reached, |reached|, first) && Unshadowed(p, root)
    requires Summary(first, PairsOf(p, first, first.Keys), effects, index)
    requires forall u :: ListsUnknown(effects, u) <==> u in first && !KnownOp(p, first[u].grant)
    ensures Exact(p, root, effects)
  {
    hide Autonomous, Walked, Picks, Unshadowed, EntryOk, EntryExact, LacksEffects, Uses;
    forall i | 0 <= i < |effects| ensures EntryExact(p, root, effects[i]) {
      EntryIsExact(p, root, reached, first, effects[i]);
    }
    forall u ensures ListsUnknown(effects, u) <==> LacksEffects(p, root, u) {
      UnknownsAreExact(p, root, reached, first, u);
    }
    forall ident ensures ListsIdent(effects, ident) <==> exists u :: Uses(p, root, u, ident) {
      assert ListsIdent(effects, ident) <==> Contributed(PairsOf(p, first, first.Keys), ident);
      forall u ensures (u, ident) in PairsOf(p, first, first.Keys) <==> Uses(p, root, u, ident) {
        PairsAreUses(p, root, reached, first, u, ident);
      }
    }
  }

  /** Where an unresolved agent shares an operation's name, one of the two is lost. */
  lemma ShadowedIsInexact(p: Project, root: Node, reached: seq<Reached>, first: map<string, Reached>,
      effects: seq<Effect>, index: map<string, nat>)
    requires Walked(p, root, reached) && Picks(reached, |reached|, first) && Exact(p, root, effects)
    requires Summary(first, PairsOf(p, first, first.Keys), effects, index)
    requires forall u :: ListsUnknown(effects, u) <==> u in first && !KnownOp(p, first[u].grant)
    ensures Unshadowed(p, root)
  {
    hide Autonomous, Genuine, Walked, Occurs, Summary, Picks, EntryExact, ListsUnknown, ListsIdent, PairsOf;
    forall g, h, a, b | Occurs(p, root, g, a) && Occurs(p, root, h, b) && g.uses == h.uses
    && KnownOp(p, h) ensures !g.unknown {
      if g.unknown {
        var u := g.uses;
        assert LacksEffects(p, root, u);
        assert ListsUnknown(effects, u);
        var ident := p.manifest[u][0];
        assert Declares(p, h, ident) && Uses(p, root, u, ident);
        ListedPair(p, root, first, effects, index, u, ident);
      }
    }
  }

  lemma ListedPair(p: Project, root: Node, first: map<string, Reached>, effects: seq<Effect>, index: map<string, nat>,
      u: string, ident: string)
    requires Exact(p, root, effects) && Summary(first, PairsOf(p, first, first.Keys), effects, index)
             && Uses(p, root, u, ident)
    ensures u in first && Declares(p, first[u].grant, ident)
  {
    hide Autonomous, WitnessFor, UsesAutonomously, Uses, AloneIn, HasOcc;
    assert ListsIdent(effects, ident);
    var i :| 0 <= i < |effects| && effects[i].Declared? && effects[i].ident == ident;
    assert HasOcc(effects[i].occs, u) by { assert EntryExact(p, root, effects[i]); }
    assert (u, ident) in PairsOf(p, first, first.Keys) by {
      assert EntryOk(first, PairsOf(p, first, first.Keys), effects[i]);
    }
  }

  // ----- what a bound says under any names

  /** g stands for its name in the walk from the root. */
  ghost predicate Stands(p: Project, root: Node, g: Grant) {
    exists i: nat :: i < |Reach(p, root)| && IsRep(Reach(p, root), |Reach(p, root)|, i) && Reach(p, root)[i].grant == g
  }

  ghost predicate StandsUnknown(p: Project, root: Node, u: string) {
    exists g :: Stands(p, root, g) && g.uses == u && !KnownOp(p, g)
  }

  ghost predicate StandsFor(p: Project, root: Node, u: string, ident: string) {
    exists g :: Stands(p, root, g) && g.uses == u && Declares(p, g, ident)
  }

  /** The bound lists exactly what the representatives declare, and those without effects. */
  ghost predicate Representative(p: Project, root: Node, effects: seq<Effect>) {
    && (forall u :: ListsUnknown(effects, u) <==> StandsUnknown(p, root, u))
    && (forall ident :: ListsIdent(effects, ident) <==> exists u :: StandsFor(p, root, u, ident))
    && (forall i ::
          0 <= i < |effects| && effects[i].Declared?
          ==> forall u :: HasOcc(effects[i].occs, u) <==> StandsFor(p, root, u, effects[i].ident))
  }

  lemma RepUnique(reached: seq<Reached>, i: nat, j: nat)
    requires IsRep(reached, |reached|, i) && IsRep(reached, |reached|, j)
             && reached[i].grant.uses == reached[j].grant.uses
    ensures i == j
  {
    hide Autonomous;
  }

  /** The map of representatives holds exactly the grants that stand for their names. */
  lemma StandsIs(p: Project, root: Node, first: map<string, Reached>, g: Grant)
    requires Picks(Reach(p, root), |Reach(p, root)|, first) && Chosen(Reach(p, root), |Reach(p, root)|, first)
    ensures Stands(p, root, g) <==> g.uses in first && first[g.uses].grant == g
  {
    hide Autonomous, IsRep, Reach;
    var reached := Reach(p, root);
    if g.uses in first && first[g.uses].grant == g {
      var i: nat :|
        i < |reached| && IsRep(reached, |reached|, i) && reached[i] == first[g.uses]
        && first[g.uses].grant.uses == g.uses;
    }
    if Stands(p, root, g) {
      var i: nat :| i < |reached| && IsRep(reached, |reached|, i) && reached[i].grant == g;
      assert ReachesKey(reached, |reached|, g.uses);
      var j: nat :|
        j < |reached| && IsRep(reached, |reached|, j) && reached[j] == first[g.uses]
        && first[g.uses].grant.uses == g.uses;
      RepUnique(reached, i, j);
    }
  }

  /** Every listed name has a representative. */
  lemma {:induction false} RepExists(reached: seq<Reached>, n: nat, k: string)
    requires n <= |reached| && ReachesKey(reached, n, k)
    ensures exists j: nat :: j < |reached| && IsRep(reached, n, j) && reached[j].grant.uses == k
  {
    hide Autonomous;
    var i := n - 1;
    if ReachesKey(reached, i, k) {
      RepExists(reached, i, k);
      var j: nat :| j < |reached| && IsRep(reached, i, j) && reached[j].grant.uses == k;
      if reached[i].grant.uses != k || Autonomous(reached[j].via) || !Autonomous(reached[i].via) {
        RepStays(reached, i, j);
      } else {
        RepHere(reached, i);
      }
    } else {
      RepHere(reached, i);
    }
  }

  /** What stands for a name occurs. */
  lemma StandsOccurs(p: Project, root: Node, g: Grant)
    requires Stands(p, root, g)
    ensures exists a :: Occurs(p, root, g, a)
  {
    hide Autonomous, IsRep, Occurs, Genuine, Reach;
    ReachIsExact(p, root);
    var i: nat :| i < |Reach(p, root)| && IsRep(Reach(p, root), |Reach(p, root)|, i) && Reach(p, root)[i].grant == g;
    GenuineOccurs(p, root, Reach(p, root)[i]);
  }

  /** Something stands for the name of whatever occurs. */
  lemma OccursStands(p: Project, root: Node, g: Grant, a: bool) returns (h: Grant)
    requires Occurs(p, root, g, a)
    ensures Stands(p, root, h) && h.uses == g.uses
  {
    hide Autonomous, IsRep, Occurs, Genuine, Reach;
    ReachIsExact(p, root);
    var reached := Reach(p, root);
    var i :| 0 <= i < |reached| && reached[i].grant == g && Autonomous(reached[i].via) == a;
    assert ReachesKey(reached, |reached|, g.uses);
    RepExists(reached, |reached|, g.uses);
    var j: nat :| j < |reached| && IsRep(reached, |reached|, j) && reached[j].grant.uses == g.uses;
    h := reached[j].grant;
  }

  /** One grant stands for each name. */
  lemma StandsOnce(p: Project, root: Node, g: Grant, h: Grant)
    requires Stands(p, root, g) && Stands(p, root, h) && g.uses == h.uses
    ensures g == h
  {
    hide Autonomous, IsRep, Reach;
    var reached := Reach(p, root);
    var i: nat :| i < |reached| && IsRep(reached, |reached|, i) && reached[i].grant == g;
    var j: nat :| j < |reached| && IsRep(reached, |reached|, j) && reached[j].grant == h;
    RepUnique(reached, i, j);
  }

  lemma PairsStand(p: Project, root: Node, first: map<string, Reached>, u: string, ident: string)
    requires Picks(Reach(p, root), |Reach(p, root)|, first) && Chosen(Reach(p, root), |Reach(p, root)|, first)
    ensures (u, ident) in PairsOf(p, first, first.Keys) <==> StandsFor(p, root, u, ident)
    ensures (u in first && !KnownOp(p, first[u].grant)) <==> StandsUnknown(p, root, u)
  {
    hide Autonomous, Stands, Chosen, Reach, Picks;
    PickedUses(Reach(p, root), first);
    forall g ensures Stands(p, root, g) <==> g.uses in first && first[g.uses].grant == g {
      StandsIs(p, root, first, g);
    }
    if u in first { assert Stands(p, root, first[u].grant); }
  }

  lemma SummaryIsRepresentative(p: Project, root: Node, first: map<string, Reached>, effects: seq<Effect>,
      index: map<string, nat>)
    requires Picks(Reach(p, root), |Reach(p, root)|, first) && Chosen(Reach(p, root), |Reach(p, root)|, first)
    requires Summary(first, PairsOf(p, first, first.Keys), effects, index)
    requires forall u :: ListsUnknown(effects, u) <==> u in first && !KnownOp(p, first[u].grant)
    ensures Representative(p, root, effects)
  {
    hide Autonomous, Chosen, ListsUnknown, HasOcc, AloneIn, Reach, Picks, StandsFor, StandsUnknown, PairsOf, KnownOp;
    forall u, ident ensures (u, ident) in PairsOf(p, first, first.Keys) <==> StandsFor(p, root, u, ident) {
      PairsStand(p, root, first, u, ident);
    }
    forall u ensures ListsUnknown(effects, u) <==> StandsUnknown(p, root, u) { PairsStand(p, root, first, u, ""); }
    forall ident ensures ListsIdent(effects, ident) <==> exists u :: StandsFor(p, root, u, ident) {
      assert ListsIdent(effects, ident) <==> Contributed(PairsOf(p, first, first.Keys), ident);
    }
    forall i, u | 0 <= i < |effects| && effects[i].Declared? ensures HasOcc(effects[i].occs, u)
    <==> StandsFor(p, root, u, effects[i].ident) {
      assert EntryOk(first, PairsOf(p, first, first.Keys), effects[i]);
    }
  }

  /** The bound of a root. It lists an effect, an occurrence or an unknown operation exactly
      when a reachable node performs it, with an autonomous witness exactly when an agent grant
      contributes it, if and only if no unresolved agent shares the name of an operation. The
      declared operations split into those reached and those reported unreachable. */
  method Bound(p: Project, root: Node) returns (effects: seq<Effect>, unreachable: set<string>)
    ensures Unshadowed(p, root) <==> Exact(p, root, effects)
    ensures Representative(p, root, effects)
    ensures forall e :: e in effects ==> Preferred(e)
    ensures forall u :: u in p.manifest ==> (u in unreachable <==> !exists g, a :: Occurs(p, root, g, a) && g.uses == u)
    ensures forall u :: u in unreachable ==> u in p.manifest
  {
    hide Summary, Picks, Exact, Unshadowed, ListsUnknown, Occurs, Genuine, Listed, Reach, Chosen, Representative,
         Preferred;
    var reached := Walk(p, root);
    var first, order := PickFirst(reached);
    assert forall k :: k in first ==> first[k].grant.uses == k by { PickedUses(reached, first); }
    ghost var index;
    effects, index := Summarise(p, first, order);
    unreachable := UnreachableFrom(p, first);
    assert Walked(p, root, reached);
    SummaryIsRepresentative(p, root, first, effects, index);
    SummaryPrefers(p, first, effects, index);
    if Unshadowed(p, root) { UnshadowedIsExact(p, root, reached, first, effects, index); }
    if Exact(p, root, effects) { ShadowedIsInexact(p, root, reached, first, effects, index); }
    forall u ensures u in first <==> exists g, a :: Occurs(p, root, g, a) && g.uses == u {
      KeysAreUses(p, root, reached, first, u);
    }
  }

  lemma SummaryPrefers(p: Project, first: map<string, Reached>, effects: seq<Effect>, index: map<string, nat>)
    requires Summary(first, PairsOf(p, first, first.Keys), effects, index)
    ensures forall e :: e in effects ==> Preferred(e)
  {
    hide Preferred, Witnessed;
    forall e | e in effects ensures Preferred(e) {
      var i :| 0 <= i < |effects| && effects[i] == e;
      assert EntryOk(first, PairsOf(p, first, first.Keys), effects[i]);
      if !e.Declared? { UnknownPreferred(e); }
    }
  }

  lemma UnknownPreferred(e: Effect)
    requires e.Unknown?
    ensures Preferred(e)
  {
  }

  lemma PickedUses(reached: seq<Reached>, first: map<string, Reached>)
    requires Picks(reached, |reached|, first)
    ensures forall k :: k in first ==> first[k].grant.uses == k
  {
  }

  lemma KeysAreUses(p: Project, root: Node, reached: seq<Reached>, first: map<string, Reached>, u: string)
    requires Walked(p, root, reached) && Picks(reached, |reached|, first)
    ensures u in first <==> exists g, a :: Occurs(p, root, g, a) && g.uses == u
  {
    hide Autonomous, Genuine, Walked, Occurs;
    if u in first {
      KeyOccurs(p, root, reached, first, u);
      assert first[u].grant.uses == u;
    }
    if g, a :| Occurs(p, root, g, a) && g.uses == u { OccursKey(p, root, reached, first, g, a); }
  }

  // ----- adding edges

  /** q has every step and grant of p, and possibly more, over the same agents. */
  ghost predicate Extends(p: Project, q: Project) {
    && (forall w, i: nat ::
          HasStep(p, w, i) ==> exists j: nat :: HasStep(q, w, j) && q.workflows[w][j] == p.workflows[w][i])
    && p.agents.Keys == q.agents.Keys
    && (forall a, g :: a in p.agents && g in p.agents[a] ==> g in q.agents[a])
  }

  lemma {:induction false} PathsPersist(p: Project, q: Project, root: Node, hops: seq<Hop>, n: Node)
    requires Extends(p, q) && PathTo(p, root, hops, n)
    ensures PathTo(q, root, hops, n)
    decreases |hops|
  {
    if |hops| > 1 {
      var k := |hops| - 2;
      var w: string, i: nat :|
        HasStep(p, w, i) && PathTo(p, root, hops[..k], Workflow(w)) && hops[k] == StepHop(p.workflows[w][i].id)
        && Leads(p.workflows[w][i], n);
      PathsPersist(p, q, root, hops[..k], Workflow(w));
      var j: nat :| HasStep(q, w, j) && q.workflows[w][j] == p.workflows[w][i];
    }
  }

  /** Adding steps, calls or grants only ever adds reachable operations. */
  lemma MoreEdgesMoreEffects(p: Project, q: Project, root: Node, g: Grant, a: bool)
    requires Extends(p, q) && Occurs(p, root, g, a)
    ensures Occurs(q, root, g, a)
  {
    var n :| Reachable(p, root, n) && Performs(p, n, g, a);
    var hops :| PathTo(p, root, hops, n);
    PathsPersist(p, q, root, hops, n);
    assert Reachable(q, root, n);
    if n.Workflow? {
      var i: nat :| HasStep(p, n.name, i) && p.workflows[n.name][i].uses == g.uses;
      var j: nat :| HasStep(q, n.name, j) && q.workflows[n.name][j] == p.workflows[n.name][i];
    }
    assert Performs(q, n, g, a);
  }

  /** The failing case exists: a missing agent named like an operation its own step uses. */
  lemma ShadowingHappens()
    ensures var s := Step("s", "tool.a.b", "tool.a.b", "");
            !Unshadowed(Project(map["w" := [s]], map[], map["tool.a.b" := ["write"]]), Workflow("w"))
  {
    var s := Step("s", "tool.a.b", "tool.a.b", "");
    var p := Project(map["w" := [s]], map[], map["tool.a.b" := ["write"]]);
    var root := Workflow("w");
    var start := [HopTo(root)];
    assert PathTo(p, root, start, root);
    assert HasStep(p, "w", 0) && Leads(p.workflows["w"][0], Agent("tool.a.b"));
    ExtendPath(p, root, start, "w", 0, Agent("tool.a.b"));
    assert Reachable(p, root, Agent("tool.a.b")) && Reachable(p, root, root);
    var g, h := Grant("tool.a.b", true), Grant("tool.a.b", false);
    assert Performs(p, Agent("tool.a.b"), g, true) && Performs(p, root, h, false);
    assert Occurs(p, root, g, true) && Occurs(p, root, h, false);
  }
}
