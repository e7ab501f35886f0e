/** The suspension slots of one run cycle (internal/engine/execir_invoker.go) and the frames
    they leave in a checkpoint. Every operation on the slots holds the invoker's mutex, so a
    concurrent run is some sequence of these operations. */
module Slots {
  import opened Values
  import Interp

  /** The call key of a leaf; its text is injective (`Keys.CallKeyInjective`). */
  type Key = Interp.Site

  /** A human gate, anchored to the call key of the leaf that raised it. */
  datatype Gate = Gate(key: Key, uses: string)

  /** A suspended subworkflow, anchored to the key of the leaf that invoked it: what it was
      given, its memo and control record, and its own gate or the frame of a deeper one. */
  datatype Frame = Frame(key: Key, callee: string, input: Val, memo: Interp.Memo, ctl: Interp.Control,
      pending: Option<Gate>, child: Option<Frame>)

  datatype Slots = Slots(pending: Option<Gate>, pendingSeed: Option<Gate>, nested: Option<Frame>,
      nestedSeed: Option<Frame>)

  /** The slot operations of the leaves: claim the seeded gate, raise a gate, claim the seeded
      frame, record a suspended subworkflow. */
  datatype Op = ClaimGate(key: Key) | Raise(gate: Gate) | ClaimFrame(key: Key) | Nest(frame: Frame)

  /** What the leaf learns: a claimed seed or nothing; Raise and Nest say whether they won. */
  datatype Answer = Nothing | GotGate(gate: Gate) | GotFrame(frame: Frame) | Won | Lost

  function Step(s: Slots, op: Op): (Slots, Answer) {
    match op
    case ClaimGate(key) =>
      if s.pendingSeed.Some? && s.pendingSeed.value.key == key
        then (s.(pendingSeed := None), GotGate(s.pendingSeed.value)) else (s, Nothing)
    case ClaimFrame(key) =>
      if s.nestedSeed.Some? && s.nestedSeed.value.key == key
        then (s.(nestedSeed := None), GotFrame(s.nestedSeed.value)) else (s, Nothing)
    case Raise(gate) =>
      if s.nested.Some? || s.pending.Some? then (s, Lost) else (s.(pending := Some(gate)), Won)
    case Nest(frame) =>
      if s.nested.Some? then (s, Lost) else (s.(pending := None, nested := Some(frame)), Won)
  }

  /** A leaf that raises a gate suspends whether or not it wins the slot; a subworkflow that
      loses the nested slot fails instead. */
  predicate Suspends(op: Op, a: Answer) {
    op.Raise? || (op.Nest? && a.Won?)
  }

  // ----- the invoker object

  class Invoker {
    var pending: Option<Gate>
    var pendingSeed: Option<Gate>
    var nested: Option<Frame>
    var nestedSeed: Option<Frame>

    ghost function State(): Slots
      reads this
    {
      Slots(pending, pendingSeed, nested, nestedSeed)
    }

    constructor (gate: Option<Gate>, frame: Option<Frame>)
      ensures State() == Start(gate, frame)
    {
      pending, nested := None, None;
      pendingSeed, nestedSeed := gate, frame;
    }

    method ClaimPending(key: Key) returns (p: Option<Gate>)
      modifies this
      ensures State() == Step(old(State()), ClaimGate(key)).0
      ensures Step(old(State()), ClaimGate(key)).1 == if p.Some? then GotGate(p.value) else Nothing
    {
      if pendingSeed.Some? && pendingSeed.value.key == key {
        p := pendingSeed;
        pendingSeed := None;
      } else {
        p := None;
      }
    }

    method SetPendingIfFirst(gate: Gate) returns (won: bool)
      modifies this
      ensures State() == Step(old(State()), Raise(gate)).0
      ensures Step(old(State()), Raise(gate)).1 == if won then Won else Lost
    {
      if nested.Some? || pending.Some? { return false; }
      pending := Some(gate);
      return true;
    }

    method SetNestedIfFirst(frame: Frame) returns (won: bool)
      modifies this
      ensures State() == Step(old(State()), Nest(frame)).0
      ensures Step(old(State()), Nest(frame)).1 == if won then Won else Lost
    {
      if nested.Some? { return false; }
      pending := None;
      nested := Some(frame);
      return true;
    }

    /** A leaf that needs a human: it suspends even when another gate is presented instead, and the
        request is sent only for the presented one. */
    method PauseForHuman(gate: Gate) returns (sent: bool, suspended: bool)
      modifies this
      ensures State() == Step(old(State()), Raise(gate)).0
      ensures suspended && (suspended <==> Suspends(Raise(gate), Step(old(State()), Raise(gate)).1))
      ensures sent <==> old(nested).None? && old(pending).None?
    {
      sent := SetPendingIfFirst(gate);
      suspended := true;
    }

    /** A leaf whose subworkflow paused: it suspends with the first frame, and fails with a second,
        which would be lost. */
    method PauseForSubworkflow(frame: Frame) returns (suspended: bool)
      modifies this
      ensures State() == Step(old(State()), Nest(frame)).0
      ensures suspended <==> old(nested).None?
      ensures suspended <==> Suspends(Nest(frame), Step(old(State()), Nest(frame)).1)
    {
      suspended := SetNestedIfFirst(frame);
    }

    method ClaimNestedSeed(key: Key) returns (f: Option<Frame>)
      modifies this
      ensures State() == Step(old(State()), ClaimFrame(key)).0
      ensures Step(old(State()), ClaimFrame(key)).1 == if f.Some? then GotFrame(f.value) else Nothing
    {
      if nestedSeed.Some? && nestedSeed.value.key == key {
        f := nestedSeed;
        nestedSeed := None;
      } else {
        f := None;
      }
    }
  }

  // ----- whole cycles

  function Start(gate: Option<Gate>, frame: Option<Frame>): Slots {
    Slots(None, gate, None, frame)
  }

  /** The slots after a sequence of operations. */
  function After(s: Slots, ops: seq<Op>): Slots {
    if ops == [] then s else Step(After(s, ops[..|ops| - 1]), ops[|ops| - 1]).0
  }

  /** The answer the i-th operation gets. */
  function AnswerAt(s: Slots, ops: seq<Op>, i: nat): Answer
    requires i < |ops|
  {
    Step(After(s, ops[..i]), ops[i]).1
  }

  lemma {:induction false} AfterSplit(s: Slots, a: seq<Op>, b: seq<Op>)
    ensures After(s, a + b) == After(After(s, a), b)
    decreases |b|
  {
    if b == [] {
      assert a + b == a;
    } else {
      assert (a + b)[..|a + b| - 1] == a + b[..|b| - 1];
      AfterSplit(s, a, b[..|b| - 1]);
    }
  }

  /** t can follow s later in the same cycle. */
  ghost predicate Later(s: Slots, t: Slots) {
    && (s.nested.Some? ==> t.nested == s.nested)
    && (s.pending.Some? ==> t.pending == s.pending || (t.pending.None? && t.nested.Some?))
    && (t.pendingSeed == s.pendingSeed || t.pendingSeed.None?)
    && (t.nestedSeed == s.nestedSeed || t.nestedSeed.None?)
    && (!(s.pending.Some? && s.nested.Some?) ==> !(t.pending.Some? && t.nested.Some?))
  }

  /** A recorded frame is never replaced or lost, a presented gate yields only to a frame, seeds
      only disappear, and the two slots are never both filled. */
  lemma {:induction false} SlotsOnlyAdvance(s: Slots, ops: seq<Op>)
    ensures Later(s, After(s, ops))
    decreases |ops|
  {
    if ops != [] { SlotsOnlyAdvance(s, ops[..|ops| - 1]); }
  }

  lemma SlotsExclusive(gate: Option<Gate>, frame: Option<Frame>, ops: seq<Op>)
    ensures var t := After(Start(gate, frame), ops); !(t.pending.Some? && t.nested.Some?)
  {
    SlotsOnlyAdvance(Start(gate, frame), ops);
  }

  lemma Resumed(s: Slots, ops: seq<Op>, i: nat, j: nat)
    requires i <= j <= |ops|
    ensures Later(After(s, ops[..i]), After(s, ops[..j]))
  {
    assert ops[..j] == ops[..i] + ops[i..j];
    AfterSplit(s, ops[..i], ops[i..j]);
    SlotsOnlyAdvance(After(s, ops[..i]), ops[i..j]);
  }

  /** A seed goes only to its own key, holds what the checkpoint held, and goes once. */
  lemma SeedsAreClaimedOnce(gate: Option<Gate>, frame: Option<Frame>, ops: seq<Op>, i: nat, j: nat)
    requires i < |ops| && j < |ops|
    ensures var s := Start(gate, frame);
            var a, b := AnswerAt(s, ops, i), AnswerAt(s, ops, j);
            && (a.GotGate? ==> ops[i] == ClaimGate(a.gate.key) && gate == Some(a.gate))
            && (a.GotFrame? ==> ops[i] == ClaimFrame(a.frame.key) && frame == Some(a.frame))
            && (a.GotGate? && b.GotGate? ==> i == j)
            && (a.GotFrame? && b.GotFrame? ==> i == j)
  {
    var s := Start(gate, frame);
    Resumed(s, ops, 0, i);
    assert ops[..0] == [];
    Resumed(s, ops, 0, j);
    if i < j {
      assert ops[..i + 1][..i] == ops[..i];
      Resumed(s, ops, i + 1, j);
    } else if j < i {
      assert ops[..j + 1][..j] == ops[..j];
      Resumed(s, ops, j + 1, i);
    }
  }

  /** Some leaf suspended during the cycle, and none failed for want of the nested slot. */
  ghost predicate SuspendedCycle(s: Slots, ops: seq<Op>) {
    exists i :: 0 <= i < |ops| && Suspends(ops[i], AnswerAt(s, ops, i))
  }

  /** After any suspend exactly one slot is filled, however the cycle goes on. */
  lemma SuspendFillsOneSlot(gate: Option<Gate>, frame: Option<Frame>, ops: seq<Op>)
    requires SuspendedCycle(Start(gate, frame), ops)
    ensures var t := After(Start(gate, frame), ops); t.pending.Some? <==> t.nested.None?
  {
    hide After;
    var s := Start(gate, frame);
    var i :| 0 <= i < |ops| && Suspends(ops[i], AnswerAt(s, ops, i));
    SuspendFills(s, ops, i);
    Resumed(s, ops, i + 1, |ops|);
    assert ops[..|ops|] == ops;
    SlotsExclusive(gate, frame, ops);
  }

  lemma SuspendFills(s: Slots, ops: seq<Op>, i: nat)
    requires i < |ops| && Suspends(ops[i], AnswerAt(s, ops, i))
    ensures var t := After(s, ops[..i + 1]); t.pending.Some? || t.nested.Some?
  {
    assert ops[..i + 1][..i] == ops[..i];
    assert After(s, ops[..i + 1]) == Step(After(s, ops[..i]), ops[i]).0;
  }

  /** The presented gate was raised, and the presented frame recorded, in this very cycle. */
  lemma {:induction false} PresentedIsOwn(gate: Option<Gate>, frame: Option<Frame>, ops: seq<Op>)
    ensures var t := After(Start(gate, frame), ops);
            && (t.pending.Some? ==> Raise(t.pending.value) in ops)
            && (t.nested.Some? ==> Nest(t.nested.value) in ops)
    decreases |ops|
  {
    if ops != [] {
      var front := ops[..|ops| - 1];
      PresentedIsOwn(gate, frame, front);
      assert forall op :: op in front ==> op in ops;
    }
  }

  // ----- frames and checkpoints

  /** A frame is genuine when its subworkflow really ran a suspended cycle that left these
      slots, any frame it recorded being genuine too. */
  ghost predicate Genuine(f: Frame) {
    && (exists gate, frame, ops :: LeavesSlots(gate, frame, ops, f.pending, f.child))
    && (f.child.Some? ==> Genuine(f.child.value))
  }

  ghost predicate LeavesSlots(gate: Option<Gate>, frame: Option<Frame>, ops: seq<Op>, pending: Option<Gate>,
      nested: Option<Frame>) {
    var t := After(Start(gate, frame), ops);
    SuspendedCycle(Start(gate, frame), ops) && t.pending == pending && t.nested == nested
  }

  datatype Checkpoint = Checkpoint(pending: Option<Gate>, nested: Option<Frame>)

  /** The checkpoint suspendExecIR writes at the end of a cycle of the root run; None is its
      "suspended without a cause" failure. */
  function Suspend(t: Slots): Option<Checkpoint> {
    if t.pending.None? && t.nested.None? then None else Some(Checkpoint(t.pending, t.nested))
  }

  ghost predicate Written(c: Checkpoint) {
    && (exists gate, frame, ops :: LeavesSlots(gate, frame, ops, c.pending, c.nested))
    && (c.nested.Some? ==> Genuine(c.nested.value))
  }

  function FrameGates(f: Option<Frame>): seq<Gate> {
    if f.None? then []
    else (if f.value.pending.Some? then [f.value.pending.value] else []) + FrameGates(f.value.child)
  }

  /** Every gate a checkpoint holds, outermost first. */
  function Gates(c: Checkpoint): seq<Gate> {
    (if c.pending.Some? then [c.pending.value] else []) + FrameGates(c.nested)
  }

  /** hitlGateFromCheckpoint: walk the frames down to a pending gate. */
  method FindGate(c: Checkpoint) returns (p: Option<Gate>)
    ensures Gates(c) == [] ==> p.None?
    ensures Gates(c) != [] ==> p == Some(Gates(c)[0])
  {
    p := c.pending;
    var frame := c.nested;
    while p.None? && frame.Some?
      invariant p.None? ==> Gates(c) == FrameGates(frame)
      invariant p.Some? ==> Gates(c) != [] && Gates(c)[0] == p.value
      decreases frame
    {
      p := frame.value.pending;
      frame := frame.value.child;
    }
  }

  lemma {:induction false} GenuineHoldsOneGate(f: Frame)
    requires Genuine(f)
    ensures |FrameGates(Some(f))| == 1
    decreases f
  {
    var gate, frame, ops :| LeavesSlots(gate, frame, ops, f.pending, f.child);
    SuspendFillsOneSlot(gate, frame, ops);
    if f.child.Some? { GenuineHoldsOneGate(f.child.value); }
  }

  /** Every checkpoint ever written holds exactly one pending gate in its chain of frames. */
  lemma CheckpointHoldsOneGate(c: Checkpoint)
    requires Written(c)
    ensures |Gates(c)| == 1
  {
    var gate, frame, ops :| LeavesSlots(gate, frame, ops, c.pending, c.nested);
    SuspendFillsOneSlot(gate, frame, ops);
    if c.nested.Some? { GenuineHoldsOneGate(c.nested.value); }
  }

  /** A suspended cycle always has a cause to write down. */
  lemma SuspendAlwaysSucceeds(gate: Option<Gate>, frame: Option<Frame>, ops: seq<Op>)
    requires SuspendedCycle(Start(gate, frame), ops)
    ensures Suspend(After(Start(gate, frame), ops)).Some?
  {
    SuspendFillsOneSlot(gate, frame, ops);
  }

  /** The operator is shown the one gate of the checkpoint. */
  method PresentGate(c: Checkpoint) returns (p: Gate)
    requires Written(c)
    ensures Gates(c) == [p]
  {
    CheckpointHoldsOneGate(c);
    var r := FindGate(c);
    p := r.value;
  }

  // ----- resuming

  /** The seeds of the run n levels down when a checkpoint is resumed and every frame on the
      way is claimed: InvokeWorkflow hands each frame's gate and child to the callee. */
  function SeedsAt(c: Checkpoint, n: nat): Option<(Option<Gate>, Option<Frame>)>
    decreases n
  {
    if n == 0 then Some((c.pending, c.nested))
    else match SeedsAt(c, n - 1)
      case None => None
      case Some(seeds) => if seeds.1.None? then None else Some((seeds.1.value.pending, seeds.1.value.child))
  }

  lemma {:induction false} SeedsBelow(f: Frame, n: nat)
    ensures SeedsAt(Checkpoint(None, Some(f)), n + 1) == SeedsAt(Checkpoint(f.pending, f.child), n)
    decreases n
  {
    if n > 0 { SeedsBelow(f, n - 1); }
  }

  /** Gate g is seeded n levels down, where nothing is nested further, and at no level above. */
  ghost predicate SeededOnlyAt(c: Checkpoint, n: nat, g: Gate) {
    && SeedsAt(c, n) == Some((Some(g), None))
    && forall m: nat :: m < n ==> SeedsAt(c, m).Some? && SeedsAt(c, m).value.0.None?
  }

  lemma SeededBelow(f: Frame, n: nat, g: Gate)
    requires SeededOnlyAt(Checkpoint(f.pending, f.child), n, g)
    ensures SeededOnlyAt(Checkpoint(None, Some(f)), n + 1, g)
  {
    var c := Checkpoint(None, Some(f));
    SeedsBelow(f, n);
    forall m: nat | m < n + 1 ensures SeedsAt(c, m).Some? && SeedsAt(c, m).value.0.None? {
      if m > 0 { SeedsBelow(f, m - 1); }
    }
  }

  /** The gate shown to the operator is seeded at exactly one level, the innermost, so exactly
      one leaf can claim the decision. */
  lemma {:induction false} DecisionReachesOneLevel(c: Checkpoint) returns (n: nat)
    requires Written(c)
    ensures |Gates(c)| == 1 && SeededOnlyAt(c, n, Gates(c)[0])
    decreases c.nested
  {
    CheckpointHoldsOneGate(c);
    hide LeavesSlots;
    var gate, frame, ops :| LeavesSlots(gate, frame, ops, c.pending, c.nested);
    OneFilled(gate, frame, ops, c.pending, c.nested);
    if c.nested.None? {
      n := 0;
    } else {
      var f := c.nested.value;
      var d := Checkpoint(f.pending, f.child);
      var below := DecisionReachesOneLevel(d);
      assert Gates(d) == Gates(c);
      SeededBelow(f, below, Gates(d)[0]);
      n := below + 1;
    }
  }

  lemma OneFilled(gate: Option<Gate>, frame: Option<Frame>, ops: seq<Op>, pending: Option<Gate>, nested: Option<Frame>)
    requires LeavesSlots(gate, frame, ops, pending, nested)
    ensures pending.Some? <==> nested.None?
  {
    SuspendFillsOneSlot(gate, frame, ops);
  }

  /** The first frame any operation records. */
  function FirstNest(ops: seq<Op>): Option<Frame> {
    if ops == [] then None
    else if FirstNest(ops[..|ops| - 1]).Some? then FirstNest(ops[..|ops| - 1])
    else if ops[|ops| - 1].Nest? then Some(ops[|ops| - 1].frame)
    else None
  }

  lemma {:induction false} FirstNestIn(ops: seq<Op>)
    ensures FirstNest(ops).Some? ==> Nest(FirstNest(ops).value) in ops
    decreases |ops|
  {
    if ops != [] {
      FirstNestIn(ops[..|ops| - 1]);
      assert forall op :: op in ops[..|ops| - 1] ==> op in ops;
    }
  }

  /** The checkpoint of a cycle carries exactly the first frame recorded in it: a seeded frame
      goes on only by being recorded again, so one that no leaf claims is dropped. */
  lemma {:induction false} OnlyRecordedFramesGoOn(gate: Option<Gate>, seed: Option<Frame>, ops: seq<Op>)
    ensures After(Start(gate, seed), ops).nested == FirstNest(ops)
    decreases |ops|
  {
    if ops != [] { OnlyRecordedFramesGoOn(gate, seed, ops[..|ops| - 1]); }
  }

  /** The first gate any operation raises. */
  function FirstRaise(ops: seq<Op>): Option<Gate> {
    if ops == [] then None
    else if FirstRaise(ops[..|ops| - 1]).Some? then FirstRaise(ops[..|ops| - 1])
    else if ops[|ops| - 1].Raise? then Some(ops[|ops| - 1].gate)
    else None
  }

  /** The checkpoint presents the first gate raised, unless a frame was recorded. */
  lemma {:induction false} FirstGateIsPresented(gate: Option<Gate>, seed: Option<Frame>, ops: seq<Op>)
    ensures var t := After(Start(gate, seed), ops);
            t.nested == FirstNest(ops) && t.pending == if FirstNest(ops).Some? then None else FirstRaise(ops)
    decreases |ops|
  {
    if ops != [] { FirstGateIsPresented(gate, seed, ops[..|ops| - 1]); }
  }

  /** A cycle that raises a gate or records a frame suspends. */
  lemma {:induction false} CausesSuspend(gate: Option<Gate>, seed: Option<Frame>, ops: seq<Op>)
    requires FirstNest(ops).Some? || FirstRaise(ops).Some?
    ensures SuspendedCycle(Start(gate, seed), ops)
    decreases |ops|
  {
    hide After;
    var s, n := Start(gate, seed), |ops| - 1;
    var front := ops[..n];
    if FirstNest(front).Some? || FirstRaise(front).Some? {
      CausesSuspend(gate, seed, front);
      var i :| 0 <= i < |front| && Suspends(front[i], AnswerAt(s, front, i));
      assert front[..i] == ops[..i];
      assert Suspends(ops[i], AnswerAt(s, ops, i));
    } else {
      FirstGateIsPresented(gate, seed, front);
      assert Suspends(ops[n], AnswerAt(s, ops, n));
    }
  }

  /** The seed survives exactly while no claim by its key has happened. */
  lemma {:induction false} SeedStaysUntilClaimed(gate: Option<Gate>, f: Frame, ops: seq<Op>)
    ensures After(Start(gate, Some(f)), ops).nestedSeed == if ClaimFrame(f.key) in ops then None else Some(f)
    decreases |ops|
  {
    if ops != [] {
      var front := ops[..|ops| - 1];
      SeedStaysUntilClaimed(gate, f, front);
      assert forall op :: op in ops <==> op in front || op == ops[|ops| - 1];
    }
  }

  /** So does a seeded gate: an operator's decision waits for its leaf and goes to it. */
  lemma {:induction false} GateStaysUntilClaimed(g: Gate, frame: Option<Frame>, ops: seq<Op>)
    ensures After(Start(Some(g), frame), ops).pendingSeed == if ClaimGate(g.key) in ops then None else Some(g)
    decreases |ops|
  {
    if ops != [] {
      var front := ops[..|ops| - 1];
      GateStaysUntilClaimed(g, frame, front);
      assert forall op :: op in ops <==> op in front || op == ops[|ops| - 1];
    }
  }

  lemma {:induction false} NoSeedStays(gate: Option<Gate>, frame: Option<Frame>, ops: seq<Op>)
    ensures gate.None? ==> After(Start(gate, frame), ops).pendingSeed.None?
    ensures frame.None? ==> After(Start(gate, frame), ops).nestedSeed.None?
    decreases |ops|
  {
    if ops != [] { NoSeedStays(gate, frame, ops[..|ops| - 1]); }
  }

  /** What each operation is answered, by what came before it: a claim gets the seed exactly when
      the seed is its own and it is the first to claim it, a gate wins exactly when nothing was
      raised or recorded before, a frame exactly when none was recorded before. */
  lemma AnswersAre(gate: Option<Gate>, frame: Option<Frame>, ops: seq<Op>, i: nat)
    requires i < |ops|
    ensures AnswerAt(Start(gate, frame), ops, i) ==
            match ops[i]
            case ClaimGate(key) =>
              if gate.Some? && gate.value.key == key && ops[i] !in ops[..i] then GotGate(gate.value) else Nothing
            case ClaimFrame(key) =>
              if frame.Some? && frame.value.key == key && ops[i] !in ops[..i] then GotFrame(frame.value) else Nothing
            case Raise(_) => if exists op :: op in ops[..i] && (op.Raise? || op.Nest?) then Lost else Won
            case Nest(_) => if exists op :: op in ops[..i] && op.Nest? then Lost else Won
  {
    hide After, FirstNest, FirstRaise;
    var front := ops[..i];
    if gate.Some? { GateStaysUntilClaimed(gate.value, frame, front); }
    if frame.Some? { SeedStaysUntilClaimed(gate, frame.value, front); }
    NoSeedStays(gate, frame, front);
    FirstGateIsPresented(gate, frame, front);
    FirstNestIs(front);
    FirstRaiseIs(front);
  }

  lemma {:induction false} FirstNestIs(ops: seq<Op>)
    ensures FirstNest(ops).Some? <==> exists op :: op in ops && op.Nest?
    decreases |ops|
  {
    if ops != [] {
      FirstNestIs(ops[..|ops| - 1]);
      assert forall op :: op in ops <==> op in ops[..|ops| - 1] || op == ops[|ops| - 1];
    }
  }

  lemma {:induction false} FirstRaiseIs(ops: seq<Op>)
    ensures FirstRaise(ops).Some? <==> exists op :: op in ops && op.Raise?
    decreases |ops|
  {
    if ops != [] {
      FirstRaiseIs(ops[..|ops| - 1]);
      assert forall op :: op in ops <==> op in ops[..|ops| - 1] || op == ops[|ops| - 1];
    }
  }
}
