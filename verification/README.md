# Terfyn: a verified model of the durable workflow runtime

Terfyn runs agent workflows as small programs (tool, agent, subworkflow and approval leaves
under let, branch, fork, loop, while, retry, needs-graph and return). Leaf results are
memoised under a structural address, control decisions are recorded, and a run can stop at a
human gate and be replayed later without repeating a side effect. This project models that
runtime in Dafny and proves what it promises over every program, input, invoker, seed, pause
pattern and interleaving, together with the components around it: the program codec and digest,
the number model, the source-expression parser and printer, the effect bound and its policy
check, the suspension slots, the audit chain, the JSON recovery scanner and the agent tool loop.

`dafny verify dfyconfig.toml` checks everything. One module per file:

- Interpreter: `Values`, `ExecIR`, `Eval`, `GraphOrder`, `Interp` (denotation with a trace of
  session operations), `Meaning` (what values and conditions mean), `Control` (what each construct
  does, over that meaning), `Addressing`, `Accounting`, `Keys`, `Scoping`, `Replay`, `Session`,
  `Lifetime`, `Interleaving`, `Joins`, `Progress`, `Prompt`, `Bounds`, `Tight`, `GraphScheduler` (the
  scheduler as a state machine over all its events), `GraphRuns` (its schedules are runs of the
  interpreter), `GraphLaws` (what a graph does step by step),
  `Runner` (the imperative session and walker), `Reorder`.
- Numbers: `Compare`, `JsonNum`, `JsonText`, `JsonLaws`. Programs at rest: `Codec`, `CodecLaws`,
  `CodecRuns`, `Digest`,
  `DigestIdentity`, `DigestCanon`.
- Source expressions: `Lang`, `Parser`, `LangText`, `Grammar`, `Lexing`.
- Effects: `Effects`, `EffectBound`, `PolicyCheck`.
- Engine and models: `Slots`, `Engine` (run cycles with nested workflows), `EngineCalls`, `EngineGates`,
  `EngineClaims`, `LostFrame` with its scenes `DroppedFrame` and `DroppedFork`, `Recover`,
  `Transcript`, `AgentLoop`. Audit: `Audit`.
- `Common` holds shared helpers; `Witnesses` shows that what is asked of the float, quoting and
  hash libraries can be met.

How the parts fit: `Interp.Exec` is a function of a `World` (invoker answers, seed memo and
control record, the scheduler's choices) and returns the outcome with the trace of memo
look-ups, calls, memo records, control records and gates. Its look-ups are answered by the seed
only. `Addressing` shows that no run uses an address twice; hence (`Interleaving`, `Session`)
the live shared maps answer exactly as the seed does under every interleaving, and the
imperative `Runner` refines the function. `Replay`, `Lifetime` and `Progress` then compare runs.
For graphs, `GraphRuns` shows that every schedule of the concurrent scheduler, with every
interleaving of its steps' operations, is such a run for some pauses and merges, and that
schedules of any number of graphs fit into one run. `Engine` stacks runs: an InvokeWorkflow leaf
is answered by a run of its callee, seeded from the frame it claims.

What comes from outside is a parameter: invoker answers (`World.oracle`), rendering of template
values, float parsing and spelling (`JsonText.Lib`, with nearest rounding and shortest digits
stated as `IsStdlib`), string quoting, SHA-256 (`Audit.Lib`; results hold up to an exhibited
collision), JSON validity, tool safety, and the model's answers in the agent loop.

Results where the code does less than its documentation or a reader might expect, each with the
exact condition under which it does hold:

- A fork (or parallel loop) reports success when a branch ended in a cancellation, and a leaf's
  own deadline counts as one (`Joins.ForkSucceedsIff`, `Joins.CancelledBranchIsSwallowed`).
- The formatter prints a comparison on the left of a comparison without brackets and the parser
  rejects its output; every other expression in scope reads back (`LangText.PrintedReadsBackIff`).
- An absent value decodes as a null literal: it evaluates alike but changes the digest
  (`Codec.RoundTripIsIdentityIff`, `Digest.DigestSurvivesCodecIff`).
- A digest identifies a program only when names are plain: segments and names are joined without
  escaping (`DigestCanon.DigestIdentifiesArrangement`, `DigestIdentity.DottedSegmentsCollide`).
- A missing agent named like an operation hides that operation, or is hidden by it, in an effect
  bound (`EffectBound.Bound`, `EffectBound.ShadowingHappens`). The policy check then says nothing
  of a missing agent exactly when an agent's grant of the same name comes before it in the walk;
  for all other operations it is exact (`PolicyCheck.Check`, `PolicyCheck.HiddenIff`,
  `PolicyCheck.SilentCheck`).
- Verification of an audit log calls a broken log Ok when the broken event has sequence number 0
  (`Audit.Verify`, `Audit.BrokenLogCalledOk`).
- A suspended subworkflow can lose its frame, and with it repeat an inner effect, when a resume is
  kept from its leaf: in a graph step with needs, because a sibling gate pauses before the step is
  started (`DroppedFrame.InnerEffectRepeated`); behind a join inside a thread, because the join
  reports the pause of another thread (`DroppedFork.InnerEffectRepeated`). A frame is lost exactly
  when its leaf is not called in the cycle, or is cancelled (`Engine.FrameLostIff`,
  `Engine.GuardStaysIff`); where every frame is claimed no inner effect is repeated
  (`Engine.NoInnerEffectIsRepeated`). Workflows whose subworkflows sit in graph steps without
  needs, or with no join inside a thread before them, always claim theirs
  (`EngineClaims.PromptEffectsHappenOnce`), sequential ones among them.

## Model

| member | source | states |
|---|---|---|
| Replay.ReplayTransparency | internal/execir/interp.go:149-203 | A run resumed from any part of the uninterrupted run's memo and control record, with any pauses and interleaving, makes only that run's calls with the same arguments, calls no seeded leaf, never reports divergence, and unless it pauses or the original fails ends with the same output, bindings and records |
| Replay.CallSim | internal/execir/interp.go:447-485 | One leaf, seeded or not, gives the same binding and records as in the uninterrupted run |
| Lifetime.CheckpointsAreSeeds | internal/execir/interp.go:149-203 | After any number of suspend/resume attempts the checkpoint holds only records of the uninterrupted run |
| Lifetime.LifetimeTransparency | internal/execir/interp.go:149-203 | Every attempt of a lifetime stops at a gate or ends exactly as the uninterrupted run does |
| Lifetime.MemoOnlyGrows | internal/execir/interp.go:217-229 | Across attempts no memo entry disappears |
| Lifetime.NoEffectIsRepeated | internal/execir/interp.go:447-485 | For every program, a leaf that returned a result in one attempt is called in no later one, whatever the invoker answers, cancellations and changed answers included |
| Lifetime.EveryEffectHappened | internal/execir/interp.go:447-485 | When the last attempt completes, every leaf result of the uninterrupted run was produced by some attempt |
| Accounting.RunAccounted | internal/execir/interp.go:356-441 | Every look-up, call, record and gate of a run belongs to the program's leaf at that address, the trace holds all that leaf did, a leaf that failed other than by cancellation has failed the run, and a run ends in a cancellation only if a leaf of it was cancelled |
| Accounting.CalledLeaf | internal/execir/interp.go:447-485 | A called leaf had no memo entry, and unless the run failed it recorded a result, paused or was cancelled |
| Accounting.RecordedWasCalled | internal/execir/interp.go:447-485 | Only a leaf called and answered in this run records a result in it |
| Accounting.GateWasCalled | internal/execir/interp.go:447-485 | Only a leaf without a memo entry that was told to pause pauses |
| Progress.ResumeReachesGate | internal/execir/interp.go:447-485 | A resume of a suspended sequential run makes the very call it stopped at, and gets past it if the invoker now answers |
| Progress.ResumeContinues | internal/execir/interp.go:149-203 | A run seeded with all that an earlier one recorded finds each of its results and decisions, and no entry for its gates |
| Prompt.NodeRepeats | internal/execir/interp.go:371-441 | Code without a join inside a thread that completed completes again in a resume, with the same scope |
| Prompt.PromptResumeRecalls | internal/execir/interp.go:527-877 | Where InvokeWorkflow leaves sit in graph steps without needs or with no join inside a thread before them, a resume makes every subworkflow call again that has no result yet |
| Progress.FinishesAfterAsManyResumesAsGates | internal/execir/interp.go:217-243 | A sequential program with g gated leaves, each approved and dispatched, suspends at most g times |
| Meaning.EvalDenotes | internal/execir/eval.go:33-126 | A value expression evaluates to x exactly when it denotes x: literals themselves, references down to their field or null, the last field of a name, templates the spelling of their parts |
| Meaning.EvalHolds | internal/execir/eval.go:144-229 | A condition comes out as b exactly when it holds so: null is false, a boolean itself, all else true; `&&` and `\|\|` look no further than needed; comparisons follow the extended reals and equality of values; whatever holds neither way is an error |
| Meaning.CollectionIs | internal/execir/eval.go:128-142 | A collection is a list, or null for none |
| Meaning.ArgsAre | internal/execir/eval.go:13-31 | Arguments come out name by name, all or none |
| Control.BranchLaw | internal/execir/interp.go:503-525 | The first arm runs exactly when the condition holds, the second exactly when it fails to, at its own path, after the decision is recorded; a record to the contrary diverges |
| Control.WhileLaw | internal/execir/interp.go:625-655 | A while ends in a given way exactly when some number of turns within its limits lead there, the condition holding before each and not before the next |
| Control.RetryLaw | internal/execir/interp.go:673-702 | A retry ends with the first attempt after which the condition holds, with the body, or exhausted after the attempts within its limits |
| Control.LoopLaw | internal/execir/interp.go:576-607 | A loop runs its body for each item in order on the enclosing scope; a list longer than the cap fails, a recorded length to the contrary diverges |
| Control.ParallelLoopLaw | internal/execir/interp.go:707-735 | Each item's body runs on its own copy of the scope; the loop fails with the first genuine error in item order, else pauses if a body or the session did, else completes |
| Control.SequenceLaw | internal/execir/interp.go:356-369 | Nodes run in order, each on the scope the one before left, until one does not complete |
| Control.LetReturnLaw | internal/execir/interp.go:402-430 | A let binds what its value denotes, a return ends with it; without such a value both fail |
| Control.CallLaw | internal/execir/interp.go:447-485 | A leaf with a memo entry publishes it without a call; otherwise it is called once with what its arguments denote, and pauses, fails, or publishes and records the canonical result |
| Control.PublishIs | internal/execir/interp.go:487-501 | A result is bound under the leaf's name, if it has one; a projecting subworkflow binds the value field of an object, and refuses anything else |
| Control.ParametersLaw | internal/execir/interp.go:300-314 | One parameter gets the whole input; several get the fields of their names, or null |
| Control.RunLaw | internal/execir/interp.go:149-203 | A run is its body's sequence from the parameters |
| Interleaving.LiveIffSeesSeed | internal/execir/interp.go:205-257 | For a trace without repeated addresses, being answered by the live shared maps and by the seed coincide, in any order of operations |
| Interleaving.SeedAnswersAreLegal | internal/execir/interp.go:205-257 | Every interleaving of every run may answer its look-ups from the seed |
| Interleaving.Confluence | internal/execir/interp.go:336-351 | Two legal interleavings of a program end with the same status, bindings, memo and control record and make the same calls, unless one fails or pauses |
| Session.MemoAfterIs | internal/execir/interp.go:217-229 | Without repeated addresses the final memo is the seed plus the recorded results, whatever the order |
| Session.ControlAfterIs | internal/execir/interp.go:245-257 | The same for the control record |
| Joins.ForkSucceedsIff | internal/execir/interp.go:336-351 | A fork succeeds exactly when the session is not suspended and every branch ended normally or by cancellation |
| Joins.ForkFailsFirst | internal/execir/interp.go:336-351 | A fork fails with the first genuine error in branch order; without one it pauses exactly when a branch or the session did |
| Joins.CancelledBranchIsSwallowed | internal/execir/interp.go:527-574 | A lone branch whose leaf is cancelled leaves a successful fork and an unchanged scope |
| Joins.ForkPublishes | internal/execir/interp.go:560-573 | A successful fork binds each name to what the last branch offering it computed and leaves every other name alone |
| Joins.ParallelLoopKeepsScope | internal/execir/interp.go:707-735 | A parallel loop never changes the enclosing scope |
| Addressing.AddressesIdentifyLeaves | internal/execir/interp.go:503-702 | In one run each (path, loop) address is looked up, called, memoised and decided at most once |
| Keys.CallKeyInjective | internal/execir/interp.go:263-274 | Two call sites with one textual key are one site, even when names contain the separator |
| Keys.ControlKeyInjective | internal/execir/interp.go:276-280 | The same for control keys |
| Keys.KeysIdentifyLeaves | internal/execir/interp.go:263-287 | In one run two calls, or two records, under one textual key are one |
| Bounds.InvocationBounds | internal/execir/analyze.go:71-156 | Each callee's bound is the exact unbounded count saturated at MaxInt, and no run from any seed calls a callee more often |
| Bounds.BoundIsNeverAnUndercount | internal/execir/analyze.go:63-70 | No run, under any seed, pauses or interleaving, exceeds the static count |
| Bounds.BoundsOf | internal/execir/analyze.go:90-156 | The accumulated map holds factor times the exact count, saturated, and whether a for-loop is involved |
| Bounds.MergeMaxInto | internal/execir/analyze.go:161-180 | Per callee the maximum of the two arms is added, saturating, to what came before |
| Bounds.MergeSum | internal/execir/analyze.go:102-109 | Per callee the saturating sum |
| Tight.BoundIsAttained | internal/execir/analyze.go:63-70 | For code that skips no call, through any nesting of branches, forks, loops and whiles, some run makes exactly as many calls as the bound says, under every cap |
| Tight.TurnsAreExact | internal/execir/analyze.go:125-145 | A while that goes on and a retry that never succeeds make their bodies' calls exactly once per turn within min(limit, cap) |
| Tight.DataBoundIffGrows | internal/execir/analyze.go:63-70 | A callee is marked as depending on data exactly when larger collections alone let its calls pass every limit; otherwise their size makes no difference |
| GraphLaws.GraphLaw | internal/execir/interp.go:745-877 | Step by step: a step runs when its needs completed and it is not held back, on what those before published; the graph fails with the first genuine error, else with an unexcused cancellation, else pauses exactly when a step did, else completes exactly when every id did |
| GraphScheduler.ReachableInv | internal/execir/interp.go:745-877 | The scheduler's invariant holds in every reachable state, over all interleavings of launches, completions, wake-ups and abandonments |
| GraphScheduler.NeedsBeforeLaunch | internal/execir/interp.go:776-806 | A step starts only after all its needs completed, and never twice |
| GraphScheduler.NeverStuck | internal/execir/interp.go:846-860 | The main loop never waits with nothing running and nothing to collect |
| GraphScheduler.NeverMoreThanConc | internal/execir/interp.go:802-805 | In every reachable state at most as many steps execute as there are slots |
| GraphScheduler.NothingStartsAfterStop | internal/execir/interp.go:785-860 | After a failure, a pause or the end of the main loop no step is ever launched, and the loop ends at its next turn for good |
| GraphScheduler.FailureEnds | internal/execir/interp.go:818-843 | Once a step has failed the graph can end from any reachable state by letting its goroutines go, with that error and nothing more published |
| GraphScheduler.RunsAreFinite | internal/execir/interp.go:745-877 | Every schedule ends within four events per step |
| GraphScheduler.CompletesIffAcyclic | internal/execir/interp.go:846-877 | Without failure or pause a finished graph completed every step exactly when the needs are resolvable and acyclic, and otherwise reports that no step is runnable |
| GraphScheduler.SchedulesAgree | internal/execir/interp.go:745-877 | All completing schedules publish the same bindings and perform the same session operations step by step |
| GraphScheduler.ReachableStop | internal/execir/interp.go:810-843 | No step stops short before a pause or error, each pause and error is some step's own, and without an error every launched step completed, paused or was cancelled after a pause |
| GraphRuns.ScheduleIsARun | internal/execir/interp.go:745-877 | Every ended schedule, completed, paused, broken or stuck, with every interleaving of its steps' operations is what the interpreter does under some pauses and merges: same verdict, same scope where it completed, exactly that trace; it holds back only steps with needs after a step paused, and elsewhere the world is unchanged |
| GraphRuns.PlansFitOneWorld | internal/execir/interp.go:745-877 | Schedules of any number of graphs fit into one world, under which each graph of a run ends as its schedule did |
| GraphRuns.SchedulesMatchSequential | internal/execir/interp.go:745-877 | Where a schedule completes, the sequential topological execution completes too, with the same scope and exactly the operations of the schedule's steps, and memo and control record end the same however those interleaved |
| GraphRuns.SameRecords | internal/execir/interp.go:205-257 | Any two interleavings of one schedule's operations leave the same memo and control record |
| GraphRuns.InterleavingExists | internal/execir/interp.go:745-877 | Every ended schedule has an interleaving |
| GraphRuns.RootsAlwaysRun | internal/execir/interp.go:785-806 | A pause never holds back a step without needs |
| Runner.LiveSession.CheckControl | internal/execir/interp.go:249-257 | A decision is recorded, and refused exactly when it contradicts the record |
| Runner.LiveSession.MarkSuspended | internal/execir/interp.go:230-237 | The first pause keeps the suspension slot |
| Runner.Walker.Invoke | internal/execir/interp.go:447-485 | Looking up the live memo, calling, canonicalizing and recording a leaf is what the function of the seed says |
| Runner.Walker.ExecAll | internal/execir/interp.go:356-369 | Nodes in order, stopping at a return or a fault |
| Runner.Walker.Exec | internal/execir/interp.go:371-441 | Each sequential construct on mutable scope and session refines its denotation |
| Runner.Walker.ExecBranch | internal/execir/interp.go:503-525 | The arm taken and the decision recorded |
| Runner.Walker.ExecLoop | internal/execir/interp.go:576-607 | The collection is bounded by the cap, its length recorded, and the body run per item |
| Runner.Walker.ExecWhile | internal/execir/interp.go:625-655 | The condition is tested and recorded before each of at most min(limit, cap) bodies |
| Runner.Walker.ExecRetry | internal/execir/interp.go:673-702 | The body runs until the recorded condition holds or the attempts are exhausted |
| Runner.SeedMemo | internal/execir/interp.go:149-203 | A seed is accepted exactly when every value has a canonical form |
| Runner.RunResumable | internal/execir/interp.go:149-203 | The imperative run returns the denotation on the canonical seed and input, and hence, unless paused, the output of any uninterrupted run its seed is part of |
| Reorder.CanonicalRanks | internal/execir/interp.go:884-900 | Ranks are a permutation, give each step its place in the order by id, and break ties by authored index |
| Reorder.StrLessIff | internal/execir/interp.go:889-893 | The order of ids: the smaller character where two first differ, a proper prefix first |
| Reorder.CanonicalOrderIsStable | internal/execir/interp.go:884-900 | With unique ids the canonical arrangement ignores the authored order of steps and needs |
| Reorder.ReorderingIsNeutral | internal/execir/interp.go:766-774 | Reordering a graph changes neither addresses, bindings, status nor session operations |
| Reorder.RearrangedRun | internal/execir/interp.go:766-774 | Rearranging graphs anywhere in a program leaves every run exactly as it was |
| Digest.Builder.EncodeNode | internal/execir/digest.go:45-139 | Appends the text of one node and nothing else |
| Digest.Builder.EncodeGraph | internal/execir/digest.go:144-158 | Appends the steps by id, each with sorted needs |
| Digest.Builder.EncodeArgs | internal/execir/digest.go:169-183 | Appends the arguments in key order, whatever order the map is traversed in |
| Digest.Builder.EncodeValue | internal/execir/digest.go:185-224 | Appends the text of one value, object fields in key order |
| Digest.Builder.EncodeExpr | internal/execir/digest.go:226-245 | Appends the text of one condition |
| Digest.SortKeys | internal/execir/digest.go:171-175 | Keys collected in any order come out in the one ascending arrangement |
| Digest.DigestText | internal/execir/digest.go:22-34 | The text that is hashed |
| Digest.ReorderingKeepsDigestAndRuns | internal/execir/digest.go:141-158 | Programs that differ in the order of graph steps or needs share their digest text and all their runs |
| Digest.DigestSurvivesCodecIff | internal/execir/serialize.go:15-19 | A program that encodes hydrates to the same digest text exactly when it holds no absent value |
| DigestIdentity.DigestIdentifiesProgram | internal/execir/digest.go:17-34 | On programs with plain names in canonical arrangement two digest texts are equal exactly when the programs are |
| DigestCanon.DigestIdentifiesArrangement | internal/execir/digest.go:17-34 | On programs with plain names, however authored, two digest texts are equal exactly when the programs have one canonical arrangement |
| DigestCanon.ProgramSame | internal/execir/digest.go:141-224 | Arranging steps, needs, redacted keys and object fields leaves the text alone |
| DigestIdentity.NodeCut | internal/execir/digest.go:45-139 | A node's text followed by a semicolon determines the node and where its text ends |
| DigestIdentity.CallCut | internal/execir/digest.go:45-81 | A leaf's text determines kind, binding, callee, call shape and arguments |
| DigestIdentity.CondThenCut | internal/execir/digest.go:87-93 | A condition is recovered although the word after it is run into its last name |
| DigestIdentity.ValCut | internal/execir/digest.go:185-224 | A value's text determines the value, literals of different types apart |
| DigestIdentity.DottedSegmentsCollide | internal/execir/digest.go:187-189 | Two different references with one text when a segment holds a dot |
| Codec.ParseFormat | internal/execir/serialize.go:324-330 | Decimal strings are lossless over all of int64 |
| Codec.ProgramRoundTrip | internal/execir/serialize.go:138-371 | Encoding succeeds exactly on programs with scalar finite literals and present conditions, and decoding returns the program with absent values made null |
| Codec.PayloadRoundTrip | internal/execir/serialize.go:20-58 | The versioned artifact: absent programs are dropped, all others come back under their names |
| Codec.RoundTripIsIdentityIff | internal/execir/serialize.go:313-314 | Among encodable programs exactly those without an absent value come back unchanged |
| Codec.EncodingIsInjective | internal/execir/serialize.go:138-371 | Two programs with one encoding differ at most in absent against null values |
| CodecLaws.PayloadIff | internal/execir/serialize.go:41-58 | A payload decodes to given programs exactly when it has the one known format and each record means its program under the same name; any other payload is refused |
| CodecLaws.NodeIff | internal/execir/serialize.go:390-497 | A record decodes to a node exactly when its kind and all fields of that kind say so, children included |
| CodecLaws.ValIff | internal/execir/serialize.go:521-598 | The same for values, and for literals by type tag and fitting content |
| CodecLaws.ExprIff | internal/execir/serialize.go:600-636 | The same for conditions |
| CodecLaws.ParseIntIff | internal/execir/serialize.go:566-598 | An integer literal is an optional sign and decimal digits within int64 |
| Codec.NormValEvaluates | internal/execir/serialize.go:514-519 | A decoded value evaluates as the original in every scope |
| Codec.NormExprEvaluates | internal/execir/serialize.go:600-636 | A decoded condition decides as the original in every scope |
| Codec.NormArgsEvaluate | internal/execir/serialize.go:499-512 | Decoded arguments evaluate as the originals |
| CodecRuns.DecodedProgramRunsAlike | internal/execir/serialize.go:15-19 | A decoded program runs as the encoded one under every seed, pause and interleaving: same result, bindings and session operations, the leaves in them being the decoded ones |
| Compare.ToFloat64Exact | internal/execir/eval.go:342-354 | Integers up to 2^53 convert to binary64 without loss |
| Compare.CompareIntFloatExact | internal/execir/eval.go:398-440 | The mixed comparator is the order of the reals for every int64 and finite float |
| Compare.ComparisonIsExact | internal/execir/eval.go:356-383 | Comparison decides the extended-real order exactly and is undefined exactly on NaN |
| Compare.OrderingIsTransitive | internal/execir/eval.go:292-312 | Ordering chains across representations past 2^53 |
| Compare.OrderingTrichotomy | internal/execir/eval.go:292-312 | On numbers every relational operator answers consistently, and all say no on NaN |
| Compare.EqualReflexive | internal/execir/eval.go:252-286 | Equality is reflexive on NaN-free nested values |
| Compare.EqualSymmetric | internal/execir/eval.go:252-286 | Equality is symmetric, objects by equal key sets |
| Compare.EqualTransitive | internal/execir/eval.go:252-286 | Equality is transitive across int64, float64 and nested containers |
| JsonText.CanonicalIsFixedPoint | internal/jsonnum/jsonnum.go:184-289 | Whatever is accepted is left alone by canonicalizing again, nests within MaxDepth, and decodes unchanged from any checkpoint enclosing it in at most 1000 more containers |
| JsonText.CanonicalKeepsValue | internal/jsonnum/jsonnum.go:189-246 | A directly reached value stays equal under the exact comparator, both ways |
| JsonText.ShortcutIsExact | internal/jsonnum/jsonnum.go:255-270 | The byte-length shortcut never changes the depth verdict |
| JsonText.NestingIs | internal/jsonnum/jsonnum.go:274-289 | The measured nesting is the least depth the value fits in |
| JsonText.FloatFixedPoint | internal/jsonnum/jsonnum.go:126-140 | A float left alone decodes back from its own shortest spelling, the ends of int64 included |
| JsonText.BoundarySpelling | internal/jsonnum/jsonnum.go:126-140 | The spelling of plus or minus 2^63 is never an int64 literal |
| JsonText.FromNumberCanonical | internal/jsonnum/jsonnum.go:103-124 | Every literal decodes to a canonical number and never to a clamped integer |
| JsonText.DecodedCanonical | internal/jsonnum/jsonnum.go:395-420 | Decoding yields only canonical values, no deeper than the document |
| JsonLaws.CanonicalIff | internal/jsonnum/jsonnum.go:184-246 | A value is accepted exactly when all its floats are finite and it nests within MaxDepth, which is the decoder's limit less a thousand; whole floats within int64 become integers and nothing else changes |
| JsonLaws.RawBecomes | internal/jsonnum/jsonnum.go:189-289 | The same for Go values: nil containers become null, generic containers element by element, any other type what its encoding reads as, if that fits in the depth left |
| JsonLaws.DecodesAsRead | internal/jsonnum/jsonnum.go:395-420 | A document decodes to exactly what it reads as, the last of several members of one name counting |
| JsonLaws.NumberIs | internal/jsonnum/jsonnum.go:103-140 | A literal reads as the int64 it writes, else as the nearest float, made an integer where it is whole and fits |
| Lang.ExprRoundTrip | internal/lang/parser.go:784-983 | Parsing printed tokens consumes exactly them and returns the tree, or a diagnostic exactly when comparisons chain |
| Lang.ChainRefused | internal/lang/parser.go:826-839 | A printed comparison followed by another comparison operator is rejected |
| Grammar.ParsesIff | internal/lang/parser.go:784-1000 | The parser reads a whole token sequence as e exactly when the grammar spells e so: left-grouped disjunctions and conjunctions, at most one comparison, trailing and optional commas |
| Grammar.ParsedPrefix | internal/lang/parser.go:784-1000 | Whatever it reads off the front of its input is a spelling of the tree it builds |
| Grammar.OneTree | internal/lang/parser.go:784-1000 | The grammar is unambiguous |
| Parser.ExprParser.Or | internal/lang/parser.go:798-806 | The `\|\|` loop over a moving cursor computes the parse function |
| Parser.ExprParser.And | internal/lang/parser.go:808-816 | The `&&` loop likewise |
| Parser.ExprParser.Comparison | internal/lang/parser.go:826-839 | At most one comparison, a second operator being a diagnostic |
| Parser.ExprParser.Primary | internal/lang/parser.go:855-888 | Literals, brackets, objects, references and calls |
| Parser.ExprParser.Args | internal/lang/parser.go:948-968 | The argument loop, trailing comma included |
| Parser.ExprParser.Fields | internal/lang/parser.go:893-919 | The object-literal loop with optional commas |
| LangText.LexPrinted | internal/lang/printer.go:329-419 | Lexing printed text gives the expression's tokens and leaves what follows alone |
| LangText.ReadExpr | internal/lang/parser.go:796-796 | Lexing and parsing a whole text computes the reading function |
| LangText.PrintedReadsBackIff | internal/lang/printer.go:329-419 | Formatted text reads back as the same expression exactly when no comparison is the left operand of a comparison |
| LangText.PrintingIsInjective | internal/lang/printer.go:329-419 | Two accepted expressions with one text are one expression |
| Lexing.LexIff | internal/lang/lexer.go:82-286 | The tokens are the longest words in order between blanks and comments; where no word begins the text is refused |
| Lexing.ReadIff | internal/lang/parser.go:784-1000 | A text reads as e exactly when its longest words spell e |
| Effects.Walk | internal/effects/compute.go:79-164 | The walk lists exactly the operations some reachable node performs, static and autonomous apart, each with a genuine path; it stops on cyclic graphs |
| Effects.ReachIsExact | internal/effects/compute.go:79-164 | The walk function lists exactly the reachable operations, in walk order, each with a genuine path |
| Effects.Walker.WalkWorkflow | internal/effects/compute.go:79-107 | Stack, seen set and list end as the walk function says for this workflow |
| Effects.Walker.WalkStep | internal/effects/compute.go:109-126 | The same for a step: its operation, then its agent, then its callee |
| Effects.Walker.WalkAgent | internal/effects/compute.go:128-150 | The same for an agent: its grants, or itself when unresolved, as autonomous |
| Effects.GenuineOccurs | internal/effects/compute.go:341-367 | A genuine witness shows a reachable occurrence and is autonomous exactly when it is an agent's own grant |
| EffectBound.PickFirst | internal/effects/compute.go:198-212 | One representative per name: the first autonomous entry of the walk, else the first |
| EffectBound.Summarise | internal/effects/compute.go:214-258 | One entry per effect, covering exactly the contributing operations |
| EffectBound.UnreachableFrom | internal/effects/compute.go:278-321 | Exactly the declared operations that nothing reached |
| EffectBound.Bound | internal/effects/compute.go:198-276 | The bound is exact (effects, occurrences, unknowns, autonomy of the witness) if and only if no unresolved agent shares an operation's name; whatever the names, it lists exactly what the representatives declare, each effect shown by its first autonomous occurrence, else its first; reached and unreachable operations partition the manifest |
| EffectBound.ShadowingHappens | internal/effects/compute.go:142-146 | A project in which the failing case occurs |
| EffectBound.MoreEdgesMoreEffects | internal/effects/compute.go:79-164 | Adding steps, calls or grants only adds reachable operations |
| PolicyCheck.CheckBound | internal/effects/enforce.go:105-155 | No violation exactly when every occurrence of every effect is allowed |
| PolicyCheck.FirstNeedingApproval | internal/effects/enforce.go:189-200 | Finds an occurrence that needs approval whenever there is one |
| PolicyCheck.CoversIff | internal/effects/enforce.go:164-175 | One effect covers another exactly when its dotted segments are the other's first ones |
| PolicyCheck.SafeOpIs | internal/effects/enforce.go:105-228 | An operation is safe, said over the policy's own fields and segments, exactly when the check's tests on its effects pass |
| PolicyCheck.WorkflowAgentNames | internal/effects/enforce.go:56-72 | Exactly the agents some workflow step names |
| PolicyCheck.StandingSafeIffClean | internal/effects/enforce.go:105-155 | The operations that stand for their names are safe exactly when every resolved reachable operation is safe and no unresolved agent stands for its name |
| PolicyCheck.CleanIsSafe | internal/effects/enforce.go:105-228 | Without shared names that means every reachable operation is safe |
| PolicyCheck.HiddenIff | internal/effects/compute.go:198-212 | An unresolved agent goes unreported exactly when a resolved operation, then known, stands for its name |
| PolicyCheck.SilentCheck | internal/effects/enforce.go:18-39 | A project whose check reports nothing although an unresolved agent is reached |
| PolicyCheck.CheckRoot | internal/effects/enforce.go:105-155 | One root draws no violation exactly when its resolved operations are all safe and no unresolved agent stands for its name |
| PolicyCheck.Check | internal/effects/enforce.go:18-39 | When some tool declares effects, the violations name exactly the roots of which that fails; for a root without shared names exactly when it is unsafe; and silence makes every resolved operation of every root safe |
| Slots.Invoker.ClaimPending | internal/engine/execir_invoker.go:95-104 | The seeded gate goes to its own key, once |
| Slots.Invoker.SetPendingIfFirst | internal/engine/execir_invoker.go:114-122 | The first gate takes the slot unless a frame holds it |
| Slots.Invoker.SetNestedIfFirst | internal/engine/execir_invoker.go:130-139 | The first frame preempts a gate; a second is refused |
| Slots.Invoker.ClaimNestedSeed | internal/engine/execir_invoker.go:155-164 | The seeded frame goes to its own key, once |
| Slots.Invoker.PauseForHuman | internal/engine/execir_invoker.go:318-322 | A leaf that needs a human suspends whether or not its gate is the one presented; the request is sent only for that one |
| Slots.Invoker.PauseForSubworkflow | internal/engine/execir_invoker.go:597-624 | A leaf whose subworkflow paused suspends with the first frame and fails with a second |
| Slots.SlotsOnlyAdvance | internal/engine/execir_invoker.go:95-164 | Over any sequence of operations a recorded frame is never replaced or lost, a gate yields only to a frame, seeds only disappear |
| Slots.SlotsExclusive | internal/engine/execir_invoker.go:50-57 | Gate and frame are never both set |
| Slots.SeedsAreClaimedOnce | internal/engine/execir_invoker.go:89-104 | Each seed is claimed at most once, only by its key, and unchanged |
| Slots.SuspendFillsOneSlot | internal/engine/execir_invoker.go:597-618 | After any suspend exactly one slot is filled |
| Slots.SuspendAlwaysSucceeds | internal/engine/execir_invoker.go:856-861 | A suspended cycle always has a cause to write down |
| Slots.PresentedIsOwn | internal/engine/execir_invoker.go:50-57 | The presented gate or frame was raised in this cycle |
| Slots.CheckpointHoldsOneGate | internal/engine/execir_invoker.go:892-913 | Every written checkpoint's chain of frames holds exactly one pending gate |
| Slots.FindGate | internal/cli/hitl.go:204-210 | The walk returns the first gate in the chain |
| Slots.PresentGate | internal/cli/hitl.go:192-216 | The operator is shown the one gate of the checkpoint |
| Slots.DecisionReachesOneLevel | internal/engine/execir_invoker.go:570-582 | On resume that gate is seeded at exactly one level, the innermost |
| Slots.OnlyRecordedFramesGoOn | internal/engine/execir_invoker.go:856-871 | The checkpoint carries exactly the first frame recorded in the cycle, never the seeded one as such |
| Slots.FirstGateIsPresented | internal/engine/execir_invoker.go:114-139 | A checkpoint presents the first gate raised in the cycle, unless a frame was recorded |
| Slots.SeedStaysUntilClaimed | internal/engine/execir_invoker.go:155-164 | A seeded frame stays in its seed exactly while no claim by its key happened |
| Slots.GateStaysUntilClaimed | internal/engine/execir_invoker.go:95-104 | A seeded gate stays in its seed exactly while no claim by its key happened |
| Slots.AnswersAre | internal/engine/execir_invoker.go:95-164 | What every operation in any sequence is answered: the first claim by the seed's key gets it and no other does, a gate wins before any gate or frame, a frame before any frame |
| Engine.NoInnerEffectIsRepeated | internal/engine/execir_invoker.go:452-624 | A leaf at any nesting depth (a chain of call keys) that returned a result in one cycle is called in no later one, provided no subworkflow around it was cancelled then and every seeded frame was claimed in the cycles between |
| Engine.FrameLostIff | internal/engine/execir_invoker.go:570-618 | A paused cycle loses a seeded frame exactly when its leaf was not called in it, or was cancelled |
| Engine.GuardStaysIff | internal/engine/execir_invoker.go:570-618 | A cycle keeps an inner result protected exactly when it reaches the leaf of every frame around it and none of them is cancelled |
| Engine.RecordedIsGuardedIff | internal/engine/execir_invoker.go:593-618 | A result recorded at any depth in a cycle that does not fail is in the next checkpoint's memo or frames exactly when no subworkflow around it was cancelled |
| Engine.GuardedIsNotCalled | internal/engine/execir_invoker.go:570-593 | What the memo and frames of a checkpoint answer for is not called in the resume |
| Engine.SubworkflowKept | internal/engine/execir_invoker.go:593-640 | A subworkflow called in a cycle that does not fail left a result, or paused and left its frame with all it recorded, or was cancelled and left nothing |
| EngineCalls.SubworkflowLaw | internal/engine/execir_invoker.go:452-640 | A called subworkflow is its program's run on the claimed frame's input, memo, control record and child frame, or afresh on the document of its arguments, and its caller is told exactly how that ends; without such a run the call fails |
| EngineCalls.WholeDocument | internal/engine/execir_invoker.go:661-673 | A whole-document call hands over its one argument's canonical value and fails with any other number of arguments |
| EngineCalls.LevelLaw | internal/engine/execir_invoker.go:570-593 | Every level runs its own program on its own input from its own records |
| Engine.FramesFit | internal/engine/execir_invoker.go:604-615 | Every frame belongs to an InvokeWorkflow leaf of its callee that has no result yet, at every level |
| Engine.SlotsHoldTheFrame | internal/engine/execir_invoker.go:130-164 | The frame that goes on is what the invoker's slots hold after the cycle's operations, in whatever order |
| EngineGates.CheckpointIsWritten | internal/engine/execir_invoker.go:856-913 | Where each level presents the first gate it raised, the checkpoint of a paused run is one its slots leave, and holds exactly one gate |
| EngineGates.FramesAreGenuine | internal/engine/execir_invoker.go:597-618 | The frames of a paused run are those suspended cycles of its subworkflows leave |
| EngineClaims.PromptClaims | internal/engine/execir_invoker.go:570-582 | A resume of prompt workflows claims every frame, at every level |
| EngineClaims.PromptEffectsHappenOnce | internal/engine/execir_invoker.go:452-624 | For prompt workflows no inner effect is repeated, without a word about frames |
| EngineClaims.SequentialEffectsHappenOnce | internal/engine/execir_invoker.go:452-624 | For sequential workflows the same, under any timing |
| LostFrame.WorksRepeats | internal/engine/execir_invoker.go:570-618 | Where a late cycle is kept from the leaf, the second cycle drops the unclaimed frame and the third calls an inner leaf again that had returned a result in the first |
| DroppedFrame.InnerEffectRepeated | internal/execir/interp.go:785-806 | That happens to a subworkflow in a graph step with needs |
| DroppedFork.InnerEffectRepeated | internal/execir/interp.go:527-574 | That happens to a subworkflow behind a join inside a fork branch |
| DroppedFrame.SecondCycleIsASchedule | internal/execir/interp.go:785-860 | The scheduler can take that second cycle: the gate pauses and the subworkflow step is never launched |
| Recover.BalancedObject | internal/engine/steps.go:102-132 | The shortest brace-balanced prefix, or none when the braces never balance |
| Recover.TopLevelJsonObjects | internal/engine/steps.go:74-96 | Exactly the valid top-level balanced spans, left to right |
| Recover.SpansAreDisjoint | internal/engine/steps.go:70-96 | The spans are balanced, valid, disjoint and in order |
| Recover.SpansAreExact | internal/engine/steps.go:70-96 | A span is taken exactly when it is balanced, valid and begins inside no other top-level balanced span |
| Recover.RecoverObject | internal/engine/steps.go:54-68 | Computes the recovery function |
| Recover.RecoveryIsExact | internal/engine/steps.go:36-68 | Any serialised object between texts without an opening brace is returned exactly, whatever its strings hold |
| Recover.RecoveryNeverGuesses | internal/engine/steps.go:36-68 | The result is the trimmed text or its only valid span; two or more are reported |
| Audit.VerifyRunChain | internal/audit/verify.go:38-91 | No break exactly for an unchained prefix followed by a correctly linked chain; otherwise the first breaking event is named, with what is wrong with it and how many events were read |
| Audit.Verify | internal/audit/verify.go:32-35 | Ok exactly for well-chained logs or a break at an event numbered 0, hence exact for non-zero sequence numbers |
| Audit.BrokenLogCalledOk | internal/audit/verify.go:32-35 | A one-event log numbered 0 with only one of its hashes set is called Ok and is not well chained |
| Audit.PrevHashForAppend | internal/audit/chain.go:85-93 | The newest stored hash, else the genesis hash |
| Audit.AppendKeepsChain | internal/audit/chain.go:66-93 | An appended event keeps any accepted log accepted |
| Audit.CanonicalIsAudited | internal/audit/chain.go:41-64 | Two events share their canonical form exactly when they agree on every audited field, absent data being the empty object |
| Audit.ChainNamesItsRun | internal/audit/chain.go:15-23 | A fully chained log is one run's only, or two texts with one hash are returned |
| Audit.TamperEvident | internal/audit/chain.go:66-74 | Two accepted fully chained logs of one run with the same last hash agree on every audited field, or two texts with one hash are returned |
| Transcript.EnsureToolResultsAnswered | internal/models/anthropic_tools.go:93-122 | The backstop computes the spliced transcript |
| Transcript.EnsureAnswersAll | internal/models/anthropic_tools.go:80-122 | Afterwards every call id has a result and no call was added |
| Transcript.EnsureIdle | internal/models/anthropic_tools.go:86-92 | Where every call has a result the backstop changes nothing |
| Transcript.EnsureCompletes | internal/models/anthropic_tools.go:74-122 | The backstop leaves every message and puts, right after one with unanswered calls, a user message with one error result per missing id saying the call was not executed |
| Transcript.MapIff | internal/models/anthropic_tools.go:124-175 | A transcript is refused exactly for an unacceptable message of its own: a system message with tools, calls not by the assistant or without id, name or sound arguments, a result without id, an unknown role |
| Transcript.MergeConsecutive | internal/models/anthropic_tools.go:180-208 | Adjacent turns of one role are merged |
| Transcript.MapAnthropicMessages | internal/models/anthropic_tools.go:124-175 | The mapping, its errors, and the system texts in order |
| Transcript.MappedIsWellFormed | internal/models/anthropic_tools.go:124-208 | For every accepted transcript the request alternates roles and leaves no tool use unanswered |
| Transcript.MappingKeepsContent | internal/models/anthropic_tools.go:124-208 | The request says what the transcript says, by the same speakers, block by block in the same order: merging drops, duplicates and reorders nothing |
| Transcript.PairedIsAnsweredNext | internal/models/anthropic_tools.go:124-208 | A paired transcript has every tool use answered in the very next turn |
| AgentLoop.RunAgentToolLoop | internal/engine/steps.go:389-476 | At most maxIter + 1 requests, each a paired transcript growing by one exchange that carries exactly the outcome of each call, tools offered exactly up to the cap; it goes on exactly while answers ask for tools that all run within the budget, and returns what the last answer says |
| AgentLoop.RunCalls | internal/engine/steps.go:456-473 | One result per call, in order: its id with exactly the tool's text and error flag; nothing when a call aborts or the budget ends |
| AgentLoop.FinalizeAtCap | internal/engine/steps.go:489-527 | One tool-free request on the transcript without the pending calls |
| AgentLoop.SoundMaps | internal/models/anthropic_tools.go:124-208 | Every request of the loop with usable call ids is accepted, alternates roles and answers each tool use in the next turn |
| AgentLoop.ExactlyOneResult | internal/engine/steps.go:456-473 | With distinct ids each call has exactly one result in the next message |

## Left out

- Command plumbing, HTTP, inspection, provider clients, the SQLite store, tracing, redaction, telemetry and timestamps.
- Lowering, the type checker, the policy compiler, configuration overlays and resource parsing or printing: easy or not part of this model.
- Cancellation timing: a cancelled leaf is an invoker answer; that a failing sibling cancels the others in flight is covered only as their being cancelled. A graph drops a step cancelled after a pause, as the source does.
- Scheduling limits: the concurrency semaphore is modelled in the graph scheduler; forks and parallel loops allow every interleaving.
- Runner.RunResumable: covers programs of sequential constructs in its imperative form; Fork, parallel Loop and Graph are modelled by the interleaving and scheduler state machines, because the language has no threads.
- Replay.ReplayTransparency: an invoker that answers with a cancellation is outside it, because there the property is false (`Joins.CancelledBranchIsSwallowed`); for graphs it asks that ids are unique, each step binds its own id and steps read only the enclosing scope or their transitive needs; without that a step's arguments depend on the schedule.
- GraphRuns.ScheduleIsARun: each graph step holds one invoke or approval leaf, which is what lowering produces; of several failed steps the interpreter names the first in topological order, the scheduler the first in time; operations of a step cut short by a failure are not carried.
- Engine.NoInnerEffectIsRepeated: the output document of a callee and its input schema check are parameters, and the operator's decisions are the invoker's answers.
- EngineClaims.PromptEffectsHappenOnce: no cycle is cancelled from outside, because a cancelled subworkflow leaves no frame; that a run holds back only what the code can is stated of the cycle (`EngineClaims.Plausible`) and shown of the graph scheduler (`GraphRuns.ScheduleIsARun`).
- Progress.FinishesAfterAsManyResumesAsGates: one gate per resume, sequential programs only.
- Codec.ProgramRoundTrip: the JSON bytes are not modelled, so invalid UTF-8 in names and the decoder's own nesting limit are outside it; an operator symbol travels as it is.
- Digest.ReorderingKeepsDigestAndRuns: equal field keys in one object are kept in authored order, where the source's sort leaves their order open.
- DigestIdentity.DigestIdentifiesProgram: plain names are sufficient, not necessary; container literals and unknown operators are outside it; programs in any other arrangement are those of `DigestCanon`.
- DigestCanon.DigestIdentifiesArrangement: the same limits on names, literals and operators; both zeros are one float here, while their spellings differ, so texts are up to the sign of zero.
- CodecRuns.DecodedProgramRunsAlike: the invoker is asked not to look at unevaluated argument trees, which the source does not give it.
- JsonText.CanonicalIsFixedPoint: invalid UTF-8, json.Number and typed containers enter as their encoding (`Typed`); reflection in `walk` is not modelled.
- Lang.ExprRoundTrip: float literals and negative integers are outside it, as is recovery after a first diagnostic.
- Grammar.ParsesIff: a float literal stays the text it is written as, and one too large for a float is not rejected; what follows a first diagnostic is not parsed.
- LangText.LexPrinted: triple-quoted strings are not read.
- Lexing.LexIff: triple-quoted strings are refused here, where the source reads them.
- Tight.BoundIsAttained: calls without arguments, no graphs, and no retry inside other code (`Tight.TurnsAreExact` has retries on their own).
- Transcript.MappingKeepsContent: of a tool use only its id is carried.
- Effects.Walk: the extra call edges that only tests inject, and resolution of an agent's tools, which enters as its list of grants; names are taken as trimmed, and an operation name that does not parse is one the manifest does not hold.
- EffectBound.Bound: entries are not sorted and messages are not built.
- Slots.CheckpointHoldsOneGate: sizes, costs and step results of a checkpoint are not carried.
- Audit.TamperEvident: strings are valid UTF-8 and timestamps are compared by their UTC text.
- AgentLoop.RunAgentToolLoop: costs are a yes or no of the budget, and the output parser is not run.
- Bounds.InvocationBounds: the final ordering of the report.
