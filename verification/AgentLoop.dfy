/** The agent tool loop (internal/engine/steps.go runAgentToolLoop, finalizeAgentAtCap) and the
    transcript it sends to the model at every turn. */
module AgentLoop {
  import opened Values
  import opened Transcript

  datatype Stop = EndTurn | NoReason | ToolUse | MaxTokens | OtherStop

  datatype Response = Response(content: string, calls: seq<Call>, stop: Stop)

  /** One Generate request; `tools` is false on the tool-free final turn. */
  datatype Request = Request(messages: seq<Message>, tools: bool)

  /** What the loop cannot decide: the model's answers, each tool's outcome (None aborts the
      run), whether the run budget still holds, and the wording of the closing prompt. */
  datatype World = World(
    generate: Request -> Option<Response>,
    runTool: (Request, nat) -> Option<(string, bool)>,
    withinBudget: (nat, nat) -> bool,
    finalize: string)

  datatype Result = Output(content: string) | Failed

  /** rs are what the calls of request a came to: per call, in order, one result with the call's
      id and exactly the tool's text and error flag. */
  ghost predicate Outcomes(w: World, a: Request, calls: seq<Call>, rs: seq<ToolResult>) {
    |rs| == |calls| && forall j: nat :: j < |calls| ==> OutcomeAt(w, a, calls[j], j, rs[j])
  }

  ghost predicate OutcomeAt(w: World, a: Request, call: Call, j: nat, r: ToolResult) {
    w.runTool(a, j).Some? && r == ToolResult(call.id, w.runTool(a, j).value.0, w.runTool(a, j).value.1)
  }

  lemma OutcomesMatch(w: World, a: Request, calls: seq<Call>, rs: seq<ToolResult>)
    requires Outcomes(w, a, calls, rs)
    ensures Matches(calls, rs)
  {
    forall j | 0 <= j < |calls| ensures rs[j].id == calls[j].id { assert OutcomeAt(w, a, calls[j], j, rs[j]); }
  }

  /** Requests only grow: one exchange of calls and their outcomes at a time, and at most one
      closing tool-free request, before which nothing is executed. */
  ghost predicate Follows(w: World, a: Request, b: Request) {
    && a.tools
    && if b.tools then
        exists results ::
          && w.generate(a).Some?
          && Outcomes(w, a, w.generate(a).value.calls, results)
          && b.messages == a.messages + Exchange(w.generate(a).value, results)
       else b.messages == a.messages + [Message("user", w.finalize, [], [])]
  }

  function Exchange(r: Response, results: seq<ToolResult>): seq<Message> {
    [Message("assistant", r.content, r.calls, []), Message("user", "", [], results)]
  }

  // ----- when the loop goes on, and what it returns

  /** The answer to request i asks for tools: a stop for tool use, or none given, with calls. */
  predicate Asks(w: World, req: Request, i: nat) {
    && w.generate(req).Some? && w.withinBudget(i, 1)
    && w.generate(req).value.calls != []
    && (w.generate(req).value.stop == ToolUse || w.generate(req).value.stop == NoReason)
  }

  /** Every call runs, within the budget. */
  predicate AllRun(w: World, req: Request, i: nat, calls: seq<Call>) {
    forall j: nat :: j < |calls| ==> RunsAt(w, req, i, j)
  }

  predicate RunsAt(w: World, req: Request, i: nat, j: nat) {
    w.runTool(req, j).Some? && w.withinBudget(i, j + 2)
  }

  /** A further request follows request i: the closing one at the cap, else one with outcomes. */
  predicate GoesOn(w: World, maxIter: int, req: Request, i: nat) {
    && req.tools && Asks(w, req, i)
    && (i == maxIter || (AllRun(w, req, i, w.generate(req).value.calls) && w.withinBudget(i + 1, 0)))
  }

  /** The answer to the last request is the run's output: it ended its turn, or, without tools,
      was not cut short. */
  predicate Answers(w: World, req: Request, i: nat) {
    && w.generate(req).Some? && w.withinBudget(i, 1)
    && var r := w.generate(req).value;
       if req.tools then r.stop == EndTurn || (r.stop == NoReason && r.calls == []) else r.stop != MaxTokens
  }

  /** The result of a loop that sent these requests. */
  function Verdict(w: World, sent: seq<Request>): Result {
    if sent != [] && Answers(w, sent[|sent| - 1], |sent|) then Output(w.generate(sent[|sent| - 1]).value.content)
      else Failed
  }

  ghost predicate PlainMessages(msgs: seq<Message>) {
    forall i :: 0 <= i < |msgs| ==> msgs[i].calls == [] && msgs[i].results == [] && msgs[i].role in {"system", "user"}
  }

  /** The engine's transcripts: paired, closed, and in roles the provider knows. */
  ghost predicate Sound(msgs: seq<Message>) {
    && Paired(msgs)
    && (forall i :: 0 <= i < |msgs| ==> msgs[i].role in {"system", "user", "assistant"})
    && (forall i ::
          0 <= i < |msgs| ==>
            (msgs[i].calls != [] ==> msgs[i].role == "assistant")
            && (msgs[i].role == "system" ==> msgs[i].results == []))
    && (msgs != [] ==> msgs[|msgs| - 1].calls == [])
    && ResultsAnswer(msgs)
  }

  /** Every result follows a message with calls. */
  ghost predicate ResultsAnswer(msgs: seq<Message>) {
    forall i :: 0 <= i < |msgs| && msgs[i].results != [] ==> i > 0 && msgs[i - 1].calls != []
  }

  lemma PlainIsSound(msgs: seq<Message>)
    requires PlainMessages(msgs)
    ensures Sound(msgs)
  {
  }

  lemma ExchangeIsSound(msgs: seq<Message>, content: string, calls: seq<Call>, results: seq<ToolResult>)
    requires Sound(msgs) && calls != [] && Matches(calls, results)
    ensures Sound(msgs + [Message("assistant", content, calls, []), Message("user", "", [], results)])
  {
    var out := msgs + [Message("assistant", content, calls, []), Message("user", "", [], results)];
    forall i | 0 <= i < |out| && out[i].calls != [] ensures AnsweredAt(out, i) {
      if i < |msgs| { assert AnsweredAt(msgs, i) && out[i] == msgs[i] && out[i + 1] == msgs[i + 1]; }
    }
  }

  lemma TextIsSound(msgs: seq<Message>, content: string)
    requires Sound(msgs)
    ensures Sound(msgs + [Message("user", content, [], [])])
  {
    var out := msgs + [Message("user", content, [], [])];
    forall i | 0 <= i < |out| && out[i].calls != [] ensures AnsweredAt(out, i) {
      assert AnsweredAt(msgs, i) && out[i] == msgs[i] && out[i + 1] == msgs[i + 1];
    }
  }

  method RunCalls(w: World, req: Request, calls: seq<Call>, turn: nat) returns (results: Option<seq<ToolResult>>)
    ensures results.Some? <==> AllRun(w, req, turn, calls)
    ensures results.Some? ==> Outcomes(w, req, calls, results.value)
  {
    var rs: seq<ToolResult> := [];
    for j := 0 to |calls|
      invariant |rs| == j && forall k: nat :: k < j ==> OutcomeAt(w, req, calls[k], k, rs[k])
      invariant forall k: nat :: k < j ==> RunsAt(w, req, turn, k)
    {
      var r := w.runTool(req, j);
      assert RunsAt(w, req, turn, j) <==> r.Some? && w.withinBudget(turn, j + 2);
      if r.None? || !w.withinBudget(turn, j + 2) { return None; }
      rs := rs + [ToolResult(calls[j].id, r.value.0, r.value.1)];
    }
    return Some(rs);
  }

  /** A log of requests: each a sound extension of the initial messages, each following from
      the one before. */
  ghost predicate Log(w: World, initial: seq<Message>, sent: seq<Request>) {
    && (forall k :: 0 <= k < |sent| ==> Sound(sent[k].messages) && initial <= sent[k].messages)
    && (forall k :: 0 <= k < |sent| - 1 ==> Follows(w, sent[k], sent[k + 1]))
  }

  lemma LogGrows(w: World, initial: seq<Message>, sent: seq<Request>, req: Request)
    requires Log(w, initial, sent) && Sound(req.messages) && initial <= req.messages
    requires sent != [] ==> Follows(w, sent[|sent| - 1], req)
    ensures Log(w, initial, sent + [req])
  {
    hide Sound, Follows;
    var all := sent + [req];
    forall k | 0 <= k < |all| - 1 ensures Follows(w, all[k], all[k + 1]) {
      if k < |sent| - 1 { assert all[k] == sent[k] && all[k + 1] == sent[k + 1]; }
    }
  }

  predicate AllWithTools(sent: seq<Request>) {
    forall k :: 0 <= k < |sent| ==> sent[k].tools
  }

  /** The last request has just been sent: all before it were ones the loop goes on from. */
  ghost predicate Posed(w: World, maxIter: int, initial: seq<Message>, sent: seq<Request>) {
    && sent != [] && |sent| <= maxIter && AllWithTools(sent) && Log(w, initial, sent)
    && sent[0].messages == initial && w.withinBudget(1, 0)
    && forall k: nat :: k < |sent| - 1 ==> GoesOn(w, maxIter, sent[k], k + 1)
  }

  /** The calls of the last answer have run; messages is the next transcript. */
  ghost predicate Ready(w: World, maxIter: int, initial: seq<Message>, sent: seq<Request>, messages: seq<Message>) {
    && Sound(messages) && initial <= messages
    && if sent == [] then messages == initial
       else
         && Posed(w, maxIter, initial, sent) && Follows(w, sent[|sent| - 1], Request(messages, true))
         && Asks(w, sent[|sent| - 1], |sent|)
         && AllRun(w, sent[|sent| - 1], |sent|, w.generate(sent[|sent| - 1]).value.calls)
  }

  lemma Pose(w: World, maxIter: int, initial: seq<Message>, sent: seq<Request>, messages: seq<Message>)
    requires Ready(w, maxIter, initial, sent, messages) && |sent| < maxIter && w.withinBudget(|sent| + 1, 0)
    ensures Posed(w, maxIter, initial, sent + [Request(messages, true)])
  {
    hide Sound, Follows, Outcomes;
    var req := Request(messages, true);
    if sent == [] { NoLog(w, initial); }
    LogGrows(w, initial, sent, req);
    var all := sent + [req];
    forall k: nat | k < |all| - 1 ensures GoesOn(w, maxIter, all[k], k + 1) {
      assert all[k] == sent[k];
    }
  }

  lemma NoLog(w: World, initial: seq<Message>)
    ensures Log(w, initial, [])
  {
  }

  lemma Replied(w: World, maxIter: int, initial: seq<Message>, sent: seq<Request>, results: seq<ToolResult>)
    requires Posed(w, maxIter, initial, sent) && Asks(w, sent[|sent| - 1], |sent|)
    requires var calls := w.generate(sent[|sent| - 1]).value.calls;
             AllRun(w, sent[|sent| - 1], |sent|, calls) && Outcomes(w, sent[|sent| - 1], calls, results)
    ensures var a := sent[|sent| - 1];
            Ready(w, maxIter, initial, sent, a.messages + Exchange(w.generate(a).value, results))
  {
    hide Sound, Follows;
    var a := sent[|sent| - 1];
    var r := w.generate(a).value;
    OutcomesMatch(w, a, r.calls, results);
    ExchangeIsSound(a.messages, r.content, r.calls, results);
    ExchangeFollows(w, a, Request(a.messages + Exchange(r, results), true), results);
  }

  /** What a loop that sent these requests and returned res did. */
  ghost predicate Done(w: World, maxIter: int, initial: seq<Message>, res: Result, sent: seq<Request>) {
    && Log(w, initial, sent)
    && (forall k :: 0 <= k < |sent| ==> (sent[k].tools <==> k < maxIter))
    && (sent == [] <==> maxIter <= 0 || !w.withinBudget(1, 0))
    && (sent != [] ==> sent[0].messages == initial)
    && (forall k: nat :: k < |sent| ==> (GoesOn(w, maxIter, sent[k], k + 1) <==> k + 1 < |sent|))
    && res == Verdict(w, sent)
  }

  lemma StopsHere(w: World, maxIter: int, initial: seq<Message>, sent: seq<Request>)
    requires Posed(w, maxIter, initial, sent) && !GoesOn(w, maxIter, sent[|sent| - 1], |sent|)
    ensures Done(w, maxIter, initial, Verdict(w, sent), sent)
  {
    hide Log, GoesOn;
  }

  lemma ClosesHere(w: World, maxIter: int, initial: seq<Message>, before: seq<Request>, sent: seq<Request>)
    requires Posed(w, maxIter, initial, before) && |before| == maxIter && Asks(w, before[|before| - 1], |before|)
    requires Log(w, initial, sent) && |sent| == |before| + 1 && before <= sent && !sent[|before|].tools
    ensures Done(w, maxIter, initial, Verdict(w, sent), sent)
  {
    hide Log, AllRun, Asks;
    forall k: nat | k < |sent| ensures GoesOn(w, maxIter, sent[k], k + 1) <==> k + 1 < |sent| {
      if k < |before| { assert sent[k] == before[k]; }
    }
  }

  /** At most maxIter + 1 requests are sent, tools offered up to the cap; each carries a sound
      transcript that grows by the exact outcomes of the calls before. The loop starts when the
      budget allows, goes on exactly while the answers ask for tools that all run, and returns
      what the last answer says. */
  method RunAgentToolLoop(w: World, maxIter: int, initial: seq<Message>) returns (res: Result, sent: seq<Request>)
    requires PlainMessages(initial)
    ensures |sent| <= if maxIter > 0 then maxIter + 1 else 0
    ensures Log(w, initial, sent)
    ensures forall k :: 0 <= k < |sent| ==> (sent[k].tools <==> k < maxIter)
    ensures sent == [] <==> maxIter <= 0 || !w.withinBudget(1, 0)
    ensures sent != [] ==> sent[0].messages == initial
    ensures forall k: nat :: k < |sent| ==> (GoesOn(w, maxIter, sent[k], k + 1) <==> k + 1 < |sent|)
    ensures res == Verdict(w, sent)
  {
    res, sent := Loop(w, maxIter, initial);
    assert |sent| > 1 ==> sent[|sent| - 2].tools;
  }

  method Loop(w: World, maxIter: int, initial: seq<Message>) returns (res: Result, sent: seq<Request>)
    requires PlainMessages(initial)
    ensures Done(w, maxIter, initial, res, sent) && |sent| <= if maxIter > 0 then maxIter + 1 else 0
  {
    var messages := initial;
    sent := [];
    PlainIsSound(initial);
    NoLog(w, initial);
    if maxIter <= 0 { return Failed, sent; }
    hide Log, Follows, Sound, Outcomes, AllRun;
    for i := 1 to maxIter + 1
      invariant |sent| == i - 1 < maxIter && Ready(w, maxIter, initial, sent, messages)
    {
      if !w.withinBudget(i, 0) {
        if sent != [] {
          assert !GoesOn(w, maxIter, sent[|sent| - 1], |sent|);
          StopsHere(w, maxIter, initial, sent);
        }
        return Failed, sent;
      }
      Pose(w, maxIter, initial, sent, messages);
      var req := Request(messages, true);
      sent := sent + [req];
      assert sent[|sent| - 1] == req && |sent| == i;
      hide Ready, Posed, Done;
      var resp := w.generate(req);
      if resp.None? || !w.withinBudget(i, 1) {
        StopsHere(w, maxIter, initial, sent);
        return Failed, sent;
      }
      var r := resp.value;
      var stop := if r.stop == NoReason && r.calls != [] then ToolUse else r.stop;
      if stop == EndTurn || stop == NoReason {
        StopsHere(w, maxIter, initial, sent);
        return Output(r.content), sent;
      }
      if stop != ToolUse || r.calls == [] {
        StopsHere(w, maxIter, initial, sent);
        return Failed, sent;
      }
      if i == maxIter {
        ghost var before := sent;
        res, sent := FinalizeAtCap(w, initial, sent);
        ClosesHere(w, maxIter, initial, before, sent);
        return;
      }
      var results := RunCalls(w, req, r.calls, i);
      if results.None? {
        StopsHere(w, maxIter, initial, sent);
        return Failed, sent;
      }
      Replied(w, maxIter, initial, sent, results.value);
      messages := messages + [Message("assistant", r.content, r.calls, []), Message("user", "", [], results.value)];
    }
    assert false;
  }

  lemma ExchangeFollows(w: World, a: Request, b: Request, results: seq<ToolResult>)
    requires a.tools && b.tools && w.generate(a).Some? && Outcomes(w, a, w.generate(a).value.calls, results)
    requires b.messages == a.messages + Exchange(w.generate(a).value, results)
    ensures Follows(w, a, b)
  {
  }

  /** One last completion without tools after the budget is spent; the pending calls of the
      last response are neither executed nor added to the transcript. */
  method FinalizeAtCap(w: World, initial: seq<Message>, before: seq<Request>) returns (res: Result, sent: seq<Request>)
    requires before != [] && Log(w, initial, before) && AllWithTools(before)
    ensures Log(w, initial, sent)
    ensures sent == before + [Request(before[|before| - 1].messages + [Message("user", w.finalize, [], [])], false)]
    ensures res == Verdict(w, sent)
  {
    hide Sound;
    var last := before[|before| - 1];
    var req := Request(last.messages + [Message("user", w.finalize, [], [])], false);
    TextIsSound(last.messages, w.finalize);
    assert Follows(w, last, req);
    LogGrows(w, initial, before, req);
    sent := before + [req];
    hide Follows, Log;
    var resp := w.generate(req);
    if resp.None? || !w.withinBudget(|sent|, 1) || resp.value.stop == MaxTokens { return Failed, sent; }
    return Output(resp.value.content), sent;
  }

  // ----- what the provider sees

  lemma {:induction false} SoundFlattens(msgs: seq<Message>)
    requires forall i :: 0 <= i < |msgs| ==> TurnsOf(msgs[i]).Some?
    ensures Flatten(msgs).Some?
    decreases |msgs|
  {
    if msgs != [] {
      assert TurnsOf(msgs[0]).Some?;
      forall i | 0 <= i < |msgs[1..]| ensures TurnsOf(msgs[1..][i]).Some? { assert msgs[1..][i] == msgs[i + 1]; }
      SoundFlattens(msgs[1..]);
    }
  }

  /** Every call id the model chose is usable. */
  ghost predicate CallsUsable(msgs: seq<Message>) {
    forall i :: 0 <= i < |msgs| ==> CallsOk(msgs[i].calls)
  }

  lemma TurnsExist(msgs: seq<Message>, i: nat)
    requires Sound(msgs) && CallsUsable(msgs) && i < |msgs| && ResultsOk(msgs[i].results)
    ensures TurnsOf(msgs[i]).Some?
  {
  }

  /** A sound transcript with usable calls is accepted, alternates roles, and has every tool
      use answered in the next turn. */
  lemma SoundMaps(msgs: seq<Message>)
    requires Sound(msgs) && CallsUsable(msgs)
    ensures Map(msgs).Some? && Alternates(Map(msgs).value) && AnsweredNext(Map(msgs).value)
  {
    forall i | 0 <= i < |msgs| ensures TurnsOf(msgs[i]).Some? {
      if msgs[i].results != [] {
        assert AnsweredAt(msgs, i - 1);
        assert forall j :: 0 <= j < |msgs[i].results| ==> msgs[i].results[j].id == msgs[i - 1].calls[j].id;
      }
      TurnsExist(msgs, i);
    }
    SoundFlattens(msgs);
    PairedCallsAnswered(msgs);
    AnsweredIs(msgs);
    EnsureIdle(msgs, Answered(msgs));
    PairedIsAnsweredNext(msgs);
  }

  /** With distinct ids in a message, each call has exactly one result in the next. */
  lemma ExactlyOneResult(calls: seq<Call>, rs: seq<ToolResult>, j: nat, k: nat)
    requires Matches(calls, rs) && j < |calls| && k < |rs| && rs[k].id == calls[j].id
    requires forall a, b :: 0 <= a < b < |calls| ==> calls[a].id != calls[b].id
    ensures k == j
  {
    assert calls[k].id == calls[j].id;
  }
}
