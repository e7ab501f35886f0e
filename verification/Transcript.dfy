/** Chat transcripts as Anthropic requests (internal/models/anthropic_tools.go). Roles and ids
    are trimmed, roles lower-case. */
module Transcript {
  import opened Values

  /** `sound` says the arguments are absent or a JSON object. */
  datatype Call = Call(id: string, name: string, sound: bool)

  datatype ToolResult = ToolResult(id: string, content: string, isError: bool)

  datatype Message = Message(role: string, content: string, calls: seq<Call>, results: seq<ToolResult>)

  datatype Block = TextBlock(text: string) | UseBlock(id: string) | ResultBlock(id: string, content: string,
      isError: bool)

  datatype Turn = Turn(role: string, content: string, blocks: seq<Block>)

  const UNEXECUTED := "{\"error\":\"tool call was not executed\"}"

  // ----- every call gets a result

  function Ids(calls: seq<Call>): set<string> {
    set i | 0 <= i < |calls| && calls[i].id != "" :: calls[i].id
  }

  function ResultIds(rs: seq<ToolResult>): set<string> {
    set i | 0 <= i < |rs| && rs[i].id != "" :: rs[i].id
  }

  function Answered(msgs: seq<Message>): set<string> {
    if msgs == [] then {} else Answered(msgs[..|msgs| - 1]) + ResultIds(msgs[|msgs| - 1].results)
  }

  /** The synthesized results for the calls no result answers, each id once. */
  function Missing(calls: seq<Call>, answered: set<string>): seq<ToolResult> {
    if calls == [] then []
    else if calls[0].id == "" || calls[0].id in answered then Missing(calls[1..], answered)
    else [ToolResult(calls[0].id, UNEXECUTED, true)] + Missing(calls[1..], answered + {calls[0].id})
  }

  function Filler(missing: seq<ToolResult>): seq<Message> {
    if missing == [] then [] else [Message("user", "", [], missing)]
  }

  function Ensure(msgs: seq<Message>, answered: set<string>): seq<Message> {
    if msgs == [] then []
    else [msgs[0]] + Filler(Missing(msgs[0].calls, answered)) + Ensure(msgs[1..], answered + Ids(msgs[0].calls))
  }

  method MissingResults(calls: seq<Call>, answered: set<string>) returns (missing: seq<ToolResult>, now: set<string>)
    ensures missing == Missing(calls, answered) && now == answered + Ids(calls)
  {
    missing, now := [], answered;
    assert calls[0..] == calls;
    for i := 0 to |calls|
      invariant missing + Missing(calls[i..], now) == Missing(calls, answered)
      invariant now == answered + Ids(calls[..i])
    {
      assert calls[i..][1..] == calls[i + 1..] && calls[i..][0] == calls[i];
      IdsSnoc(calls, i);
      if calls[i].id != "" && calls[i].id !in now {
        missing := missing + [ToolResult(calls[i].id, UNEXECUTED, true)];
        now := now + {calls[i].id};
      }
    }
    assert calls[..|calls|] == calls && calls[|calls|..] == [];
  }

  lemma IdsSnoc(calls: seq<Call>, i: nat)
    requires i < |calls|
    ensures Ids(calls[..i + 1]) == Ids(calls[..i]) + if calls[i].id != "" then {calls[i].id} else {}
  {
    var a, b := calls[..i], calls[..i + 1];
    forall x ensures x in Ids(b) <==> x in Ids(a) || (calls[i].id != "" && x == calls[i].id) {
      if x in Ids(a) {
        var j :| 0 <= j < |a| && a[j].id != "" && a[j].id == x;
        assert b[j] == a[j];
      }
      if calls[i].id != "" && x == calls[i].id { assert b[i].id == x; }
      if x in Ids(b) {
        var j :| 0 <= j < |b| && b[j].id != "" && b[j].id == x;
        if j < i { assert a[j] == b[j]; }
      }
    }
  }

  method EnsureToolResultsAnswered(msgs: seq<Message>) returns (out: seq<Message>)
    ensures out == Ensure(msgs, Answered(msgs))
  {
    var answered := {};
    for i := 0 to |msgs|
      invariant answered == Answered(msgs[..i])
    {
      assert msgs[..i + 1][..i] == msgs[..i];
      answered := answered + ResultIds(msgs[i].results);
    }
    assert msgs[..|msgs|] == msgs;
    ghost var start := answered;
    hide Answered;
    out := [];
    assert msgs[0..] == msgs;
    for i := 0 to |msgs|
      invariant out + Ensure(msgs[i..], answered) == Ensure(msgs, start)
    {
      hide Missing, Answered;
      var m := msgs[i];
      var missing, now := MissingResults(m.calls, answered);
      assert msgs[i..][1..] == msgs[i + 1..];
      Regroup(out, m, Filler(missing), Ensure(msgs[i + 1..], now));
      out := out + [m];
      if missing != [] { out := out + [Message("user", "", [], missing)]; } else { assert out + [] == out; }
      answered := now;
    }
    assert msgs[|msgs|..] == [];
  }

  lemma Regroup(out: seq<Message>, m: Message, f: seq<Message>, rest: seq<Message>)
    ensures out + ([m] + f + rest) == (out + [m] + f) + rest
  {
  }

  // ----- turns

  function UseBlocks(calls: seq<Call>): (r: seq<Block>)
    ensures |r| == |calls| && forall i :: 0 <= i < |calls| ==> r[i] == UseBlock(calls[i].id)
  {
    seq(|calls|, i requires 0 <= i < |calls| => UseBlock(calls[i].id))
  }

  function ResultBlocks(rs: seq<ToolResult>): (r: seq<Block>)
    ensures |r| == |rs| && forall i :: 0 <= i < |rs| ==> r[i] == ResultBlock(rs[i].id, rs[i].content, rs[i].isError)
  {
    seq(|rs|, i requires 0 <= i < |rs| => ResultBlock(rs[i].id, rs[i].content, rs[i].isError))
  }

  predicate CallsOk(calls: seq<Call>) {
    forall i :: 0 <= i < |calls| ==> calls[i].id != "" && calls[i].name != "" && calls[i].sound
  }

  predicate ResultsOk(rs: seq<ToolResult>) {
    forall i :: 0 <= i < |rs| ==> rs[i].id != ""
  }

  function UseTurn(m: Message): Turn {
    Turn("assistant", "", (if m.content != "" then [TextBlock(m.content)] else []) + UseBlocks(m.calls))
  }

  function ResultTurn(m: Message): Turn {
    Turn("user", "", ResultBlocks(m.results) + if m.calls == [] && m.content != "" then [TextBlock(m.content)] else [])
  }

  /** The turns of one message; None is a mapping error. A system message gives none. */
  function TurnsOf(m: Message): Option<seq<Turn>> {
    if m.role == "system" then if m.calls == [] && m.results == [] then Some([]) else None
    else if m.calls != [] && (!(m.role == "" || m.role == "assistant") || !CallsOk(m.calls)) then None
    else if !ResultsOk(m.results) then None
    else if m.calls == [] && m.results == [] then
      if m.role == "" then Some([Turn("user", m.content, [])])
      else if m.role == "user" || m.role == "assistant" then Some([Turn(m.role, m.content, [])])
      else None
    else Some((if m.calls != [] then [UseTurn(m)] else []) + (if m.results != [] then [ResultTurn(m)] else []))
  }

  function Flatten(msgs: seq<Message>): Option<seq<Turn>> {
    if msgs == [] then Some([])
    else match (TurnsOf(msgs[0]), Flatten(msgs[1..]))
      case (Some(a), Some(b)) => Some(a + b)
      case _ => None
  }

  function MergeInto(dst: Turn, src: Turn): Turn {
    var head := if dst.blocks == [] && dst.content != "" then [TextBlock(dst.content)] else dst.blocks;
    var content := if dst.blocks == [] && dst.content != "" then "" else dst.content;
    if src.blocks != [] then Turn(dst.role, content, head + src.blocks)
    else if src.content != "" then Turn(dst.role, content, head + [TextBlock(src.content)])
    else Turn(dst.role, content, head)
  }

  function AddTurn(out: seq<Turn>, t: Turn): seq<Turn> {
    if out == [] || out[|out| - 1].role != t.role then out + [t] else out[..|out| - 1] + [MergeInto(out[|out| - 1], t)]
  }

  function Merge(ts: seq<Turn>): seq<Turn> {
    if ts == [] then [] else AddTurn(Merge(ts[..|ts| - 1]), ts[|ts| - 1])
  }

  method MergeConsecutive(ts: seq<Turn>) returns (out: seq<Turn>)
    ensures out == Merge(ts)
  {
    if ts == [] { return ts; }
    out := [ts[0]];
    assert ts[..1][..0] == [];
    for i := 1 to |ts|
      invariant out == Merge(ts[..i]) && out != []
    {
      assert ts[..i + 1][..i] == ts[..i];
      var prev := out[|out| - 1];
      if prev.role != ts[i].role {
        out := out + [ts[i]];
      } else {
        out := out[|out| - 1 := MergeInto(prev, ts[i])];
      }
    }
    assert ts[..|ts|] == ts;
  }

  function Map(msgs: seq<Message>): Option<seq<Turn>> {
    match Flatten(Ensure(msgs, Answered(msgs))) case None => None case Some(ts) => Some(Merge(ts))
  }

  method MapAnthropicMessages(msgs: seq<Message>) returns (out: Option<seq<Turn>>, system: seq<string>)
    ensures out == Map(msgs)
    ensures out.Some? ==> system == SystemTexts(msgs)
  {
    hide Ensure, Answered, Merge, TurnsOf;
    var all := EnsureToolResultsAnswered(msgs);
    var turns: seq<Turn> := [];
    system := [];
    assert all[0..] == all;
    assert all[..0] == [];
    if Flatten(all).Some? { assert [] + Flatten(all).value == Flatten(all).value; }
    for i := 0 to |all|
      invariant Flatten(all) == match Flatten(all[i..]) case None => None case Some(b) => Some(turns + b)
      invariant system == SystemTexts(all[..i])
    {
      assert all[i..][1..] == all[i + 1..] && all[i..][0] == all[i];
      assert all[..i + 1][..i] == all[..i];
      var t := TurnsOf(all[i]);
      if t.None? { return None, system; }
      if Flatten(all[i + 1..]).Some? {
        assert turns + (t.value + Flatten(all[i + 1..]).value) == (turns + t.value) + Flatten(all[i + 1..]).value;
      }
      if all[i].role == "system" { system := system + [all[i].content]; }
      turns := turns + t.value;
    }
    assert all[|all|..] == [] && turns + [] == turns;
    assert all[..|all|] == all;
    SystemUnchanged(msgs, Answered(msgs));
    var merged := MergeConsecutive(turns);
    out := Some(merged);
  }

  function SystemTexts(msgs: seq<Message>): seq<string> {
    if msgs == [] then []
    else SystemTexts(msgs[..|msgs| - 1]) + if msgs[|msgs| - 1].role == "system" then [msgs[|msgs| - 1].content] else []
  }

  lemma {:induction false} SystemJoin(a: seq<Message>, b: seq<Message>)
    ensures SystemTexts(a + b) == SystemTexts(a) + SystemTexts(b)
    decreases |b|
  {
    if b == [] {
      assert a + b == a;
    } else {
      assert (a + b)[..|a + b| - 1] == a + b[..|b| - 1];
      SystemJoin(a, b[..|b| - 1]);
    }
  }

  /** Synthesized turns are never system messages. */
  lemma {:induction false} SystemUnchanged(msgs: seq<Message>, answered: set<string>)
    ensures SystemTexts(Ensure(msgs, answered)) == SystemTexts(msgs)
    decreases |msgs|
  {
    if msgs != [] {
      hide Missing, SystemTexts, Filler;
      var f := Filler(Missing(msgs[0].calls, answered));
      var rest := Ensure(msgs[1..], answered + Ids(msgs[0].calls));
      SystemUnchanged(msgs[1..], answered + Ids(msgs[0].calls));
      SystemJoin([msgs[0]] + f, rest);
      SystemJoin([msgs[0]], f);
      SystemJoin([msgs[0]], msgs[1..]);
      assert msgs == [msgs[0]] + msgs[1..];
      NoSystemFiller(Missing(msgs[0].calls, answered));
    }
  }

  lemma NoSystemFiller(missing: seq<ToolResult>)
    ensures SystemTexts(Filler(missing)) == []
  {
    if missing != [] { assert Filler(missing)[..0] == []; }
  }

  // ----- merging

  ghost predicate Alternates(ts: seq<Turn>) {
    forall i :: 0 <= i < |ts| - 1 ==> ts[i].role != ts[i + 1].role
  }

  lemma {:induction false} MergeAlternates(ts: seq<Turn>)
    ensures Alternates(Merge(ts)) && (ts != []
                                      ==> Merge(ts) != [] && Merge(ts)[|Merge(ts)| - 1].role == ts[|ts| - 1].role)
    decreases |ts|
  {
    if ts != [] {
      hide MergeInto;
      MergeAlternates(ts[..|ts| - 1]);
      AddAlternates(Merge(ts[..|ts| - 1]), ts[|ts| - 1]);
    }
  }

  lemma AddAlternates(out: seq<Turn>, t: Turn)
    requires Alternates(out)
    ensures var r := AddTurn(out, t); Alternates(r) && r != [] && r[|r| - 1].role == t.role
  {
    var r := AddTurn(out, t);
    forall i | 0 <= i < |r| - 1 ensures r[i].role != r[i + 1].role {
      if i < |out| - 1 { assert out[i].role != out[i + 1].role; }
    }
  }

  ghost predicate IsToolBlock(b: Block) {
    !b.TextBlock?
  }

  /** The merged turn that turn i became part of. */
  function Place(ts: seq<Turn>, i: nat): int
    requires i < |ts|
  {
    |Merge(ts[..i + 1])| - 1
  }

  lemma PlaceStep(ts: seq<Turn>, i: nat)
    requires i + 1 < |ts|
    ensures Place(ts, i + 1) == Place(ts, i) + if ts[i].role == ts[i + 1].role then 0 else 1
  {
    var a, b := ts[..i + 1], ts[..i + 2];
    assert b[..|b| - 1] == a && b[|b| - 1] == ts[i + 1] && a[|a| - 1] == ts[i];
    MergeAlternates(a);
  }

  lemma AddTurnKeeps(out: seq<Turn>, t: Turn, p: nat, b: Block)
    requires p < |out| && b in out[p].blocks
    ensures p < |AddTurn(out, t)| && b in AddTurn(out, t)[p].blocks
  {
    var last := |out| - 1;
    if p == last && out[last].role == t.role {
      assert AddTurn(out, t)[p] == MergeInto(out[last], t);
      assert out[last].blocks <= MergeInto(out[last], t).blocks;
    }
  }

  lemma AddTurnHolds(out: seq<Turn>, t: Turn, b: Block)
    requires b in t.blocks
    ensures AddTurn(out, t) != [] && b in AddTurn(out, t)[|AddTurn(out, t)| - 1].blocks
  {
    if out != [] && out[|out| - 1].role == t.role {
      assert b in MergeInto(out[|out| - 1], t).blocks;
    }
  }

  /** Turn i's tool blocks are in its place. */
  lemma {:induction false} BlocksKept(ts: seq<Turn>, i: nat, b: Block)
    requires i < |ts| && b in ts[i].blocks
    ensures 0 <= Place(ts, i) < |Merge(ts)| && b in Merge(ts)[Place(ts, i)].blocks
    decreases |ts|
  {
    hide AddTurn;
    var n := |ts| - 1;
    var front := ts[..n];
    if i < n {
      BlocksKept(front, i, b);
      assert front[..i + 1] == ts[..i + 1];
      AddTurnKeeps(Merge(front), ts[n], Place(ts, i), b);
    } else {
      assert ts[..i + 1] == ts;
      AddTurnHolds(Merge(front), ts[n], b);
    }
  }

  /** A tool block that adding turn t brings to place p is one of t's, and p is the last place. */
  lemma NewBlock(out: seq<Turn>, t: Turn, p: nat, b: Block)
    requires p < |AddTurn(out, t)| && b in AddTurn(out, t)[p].blocks && IsToolBlock(b)
             && !(p < |out| && b in out[p].blocks)
    ensures b in t.blocks && p == |AddTurn(out, t)| - 1
  {
    var last, r := |out| - 1, AddTurn(out, t);
    if out != [] && out[last].role == t.role {
      assert r[last] == MergeInto(out[last], t) && forall q :: 0 <= q < last ==> r[q] == out[q];
    } else {
      assert r[|out|] == t && forall q :: 0 <= q < |out| ==> r[q] == out[q];
    }
  }

  /** A tool block of a merged turn comes from a turn placed there. */
  lemma {:induction false} BlocksFound(ts: seq<Turn>, t: nat, b: Block) returns (i: nat)
    requires t < |Merge(ts)| && b in Merge(ts)[t].blocks && IsToolBlock(b)
    ensures i < |ts| && b in ts[i].blocks && Place(ts, i) == t
    decreases |ts|
  {
    hide AddTurn, IsToolBlock;
    var n := |ts| - 1;
    var front := ts[..n];
    var m := Merge(front);
    if t < |m| && b in m[t].blocks {
      i := BlocksFound(front, t, b);
      assert front[..i + 1] == ts[..i + 1];
    } else {
      i := n;
      assert ts[..n + 1] == ts;
      NewBlock(m, ts[n], t, b);
    }
  }

  // ----- answered in the next turn

  ghost predicate HasResult(t: Turn, id: string) {
    exists i :: 0 <= i < |t.blocks| && t.blocks[i].ResultBlock? && t.blocks[i].id == id
  }

  ghost predicate HasUse(t: Turn, id: string) {
    UseBlock(id) in t.blocks
  }

  /** Every tool use is answered in the very next turn. */
  ghost predicate AnsweredNext(ts: seq<Turn>) {
    forall i, id ::
      0 <= i < |ts| && HasUse(ts[i], id) ==> i + 1 < |ts| && ts[i + 1].role != ts[i].role && HasResult(ts[i + 1], id)
  }

  lemma MergeKeepsAnswers(ts: seq<Turn>)
    requires AnsweredNext(ts)
    ensures AnsweredNext(Merge(ts))
  {
    var m := Merge(ts);
    MergeAlternates(ts);
    forall t, id | 0 <= t < |m| && HasUse(m[t], id) ensures t + 1 < |m| && m[t + 1].role != m[t].role
    && HasResult(m[t + 1], id) {
      var i := BlocksFound(ts, t, UseBlock(id));
      assert HasUse(ts[i], id);
      var j :| 0 <= j < |ts[i + 1].blocks| && ts[i + 1].blocks[j].ResultBlock? && ts[i + 1].blocks[j].id == id;
      PlaceStep(ts, i);
      BlocksKept(ts, i + 1, ts[i + 1].blocks[j]);
    }
  }

  /** Result j answers call j. */
  ghost predicate Matches(calls: seq<Call>, rs: seq<ToolResult>) {
    |calls| == |rs| && forall j :: 0 <= j < |calls| ==> rs[j].id == calls[j].id
  }

  /** Every message with tool calls is an assistant turn whose calls the next message answers,
      one result each and in order. */
  ghost predicate Paired(msgs: seq<Message>) {
    forall i :: 0 <= i < |msgs| && msgs[i].calls != [] ==> AnsweredAt(msgs, i)
  }

  ghost predicate AnsweredAt(msgs: seq<Message>, i: nat)
    requires i < |msgs|
  {
    && msgs[i].results == [] && i + 1 < |msgs|
    && msgs[i + 1].calls == [] && msgs[i + 1].role != "system" && Matches(msgs[i].calls, msgs[i + 1].results)
  }

  lemma {:induction false} PairedFlattens(msgs: seq<Message>)
    requires Paired(msgs) && Flatten(msgs).Some?
    ensures AnsweredNext(Flatten(msgs).value)
    ensures msgs != [] && msgs[0].results != [] && msgs[0].calls == [] && msgs[0].role != "system" ==>
              Flatten(msgs).value != [] && Flatten(msgs).value[0] == ResultTurn(msgs[0])
    decreases |msgs|
  {
    if msgs != [] {
      hide AnsweredNext, UseTurn, ResultTurn, CallsOk, ResultsOk, Matches;
      var a, rest := TurnsOf(msgs[0]).value, Flatten(msgs[1..]).value;
      TailPaired(msgs);
      PairedFlattens(msgs[1..]);
      if msgs[0].calls != [] {
        assert AnsweredAt(msgs, 0) && msgs[1..][0] == msgs[1];
        assert a == [UseTurn(msgs[0])];
        SameCount(msgs[0].calls, msgs[1].results);
        FirstAnswers(msgs[0], msgs[1], rest);
      } else {
        QuietFirst(msgs[0], rest);
      }
    }
  }

  lemma TailPaired(msgs: seq<Message>)
    requires msgs != [] && Paired(msgs)
    ensures Paired(msgs[1..])
  {
    hide Matches;
    forall i | 0 <= i < |msgs[1..]| && msgs[1..][i].calls != [] ensures AnsweredAt(msgs[1..], i) {
      assert AnsweredAt(msgs, i + 1);
    }
  }

  lemma SameCount(calls: seq<Call>, rs: seq<ToolResult>)
    requires calls != [] && Matches(calls, rs)
    ensures rs != []
  {
  }

  /** Turns without tool uses in front leave answers where they are. */
  lemma QuietFirst(m: Message, rest: seq<Turn>)
    requires m.calls == [] && TurnsOf(m).Some? && AnsweredNext(rest)
    ensures AnsweredNext(TurnsOf(m).value + rest)
  {
    hide HasResult, HasUse, TurnsOf;
    var a := TurnsOf(m).value;
    var ts := a + rest;
    forall i, id | 0 <= i < |ts| && HasUse(ts[i], id) ensures i + 1 < |ts| && ts[i + 1].role != ts[i].role
    && HasResult(ts[i + 1], id) {
      if i < |a| {
        NoUses(m, i, id);
        assert false;
      } else {
        assert ts[i] == rest[i - |a|] && HasUse(rest[i - |a|], id);
        assert ts[i + 1] == rest[i - |a| + 1];
      }
    }
  }

  lemma NoUses(m: Message, i: nat, id: string)
    requires m.calls == [] && TurnsOf(m).Some? && i < |TurnsOf(m).value|
    ensures !HasUse(TurnsOf(m).value[i], id)
  {
  }

  lemma FirstAnswers(m: Message, next: Message, rest: seq<Turn>)
    requires m.calls != [] && Matches(m.calls, next.results) && rest != [] && rest[0] == ResultTurn(next)
             && AnsweredNext(rest)
    ensures AnsweredNext([UseTurn(m)] + rest)
  {
    hide HasUse, HasResult;
    var ts := [UseTurn(m)] + rest;
    forall i, id | 0 <= i < |ts| && HasUse(ts[i], id) ensures i + 1 < |ts| && ts[i + 1].role != ts[i].role
    && HasResult(ts[i + 1], id) {
      if i == 0 {
        ResultsMatchUses(m, next, id);
      } else {
        assert ts[i] == rest[i - 1] && HasUse(rest[i - 1], id) && ts[i + 1] == rest[i];
      }
    }
  }

  lemma ResultsMatchUses(m: Message, next: Message, id: string)
    requires Matches(m.calls, next.results) && HasUse(UseTurn(m), id)
    ensures HasResult(ResultTurn(next), id)
  {
    var head := if m.content != "" then [TextBlock(m.content)] else [];
    var k :| 0 <= k < |UseTurn(m).blocks| && UseTurn(m).blocks[k] == UseBlock(id);
    var j := k - |head|;
    assert UseTurn(m).blocks[k] == UseBlocks(m.calls)[j];
    assert ResultTurn(next).blocks[j] == ResultBlocks(next.results)[j];
  }

  // ----- the mapping

  lemma {:induction false} MissingAnswers(calls: seq<Call>, answered: set<string>)
    ensures ResultIds(Missing(calls, answered)) == Ids(calls) - answered
    decreases |calls|
  {
    if calls != [] {
      var c, rest := calls[0], calls[1..];
      IdsCons(calls);
      if c.id == "" || c.id in answered {
        MissingAnswers(rest, answered);
      } else {
        MissingAnswers(rest, answered + {c.id});
        ResultIdsCons(ToolResult(c.id, UNEXECUTED, true), Missing(rest, answered + {c.id}));
      }
    }
  }

  lemma IdsCons(calls: seq<Call>)
    requires calls != []
    ensures Ids(calls) == Ids(calls[1..]) + if calls[0].id != "" then {calls[0].id} else {}
  {
    var rest := calls[1..];
    forall x ensures x in Ids(calls) <==> x in Ids(rest) || (calls[0].id != "" && x == calls[0].id) {
      if x in Ids(rest) {
        var j :| 0 <= j < |rest| && rest[j].id != "" && rest[j].id == x;
        assert calls[j + 1] == rest[j];
      }
      if x in Ids(calls) {
        var j :| 0 <= j < |calls| && calls[j].id != "" && calls[j].id == x;
        if j > 0 { assert rest[j - 1] == calls[j]; }
      }
      if calls[0].id != "" && x == calls[0].id { assert calls[0].id == x; }
    }
  }

  lemma ResultIdsCons(r: ToolResult, rs: seq<ToolResult>)
    requires r.id != ""
    ensures ResultIds([r] + rs) == {r.id} + ResultIds(rs)
  {
    var all := [r] + rs;
    forall x ensures x in ResultIds(all) <==> x == r.id || x in ResultIds(rs) {
      if x in ResultIds(rs) {
        var j :| 0 <= j < |rs| && rs[j].id != "" && rs[j].id == x;
        assert all[j + 1] == rs[j];
      }
      if x == r.id { assert all[0].id == x; }
    }
  }

  /** The ids of every call and of every result in a transcript. */
  function CallIds(msgs: seq<Message>): set<string> {
    if msgs == [] then {} else Ids(msgs[0].calls) + CallIds(msgs[1..])
  }

  function AllResultIds(msgs: seq<Message>): set<string> {
    if msgs == [] then {} else ResultIds(msgs[0].results) + AllResultIds(msgs[1..])
  }

  lemma {:induction false} AnsweredIs(msgs: seq<Message>)
    ensures Answered(msgs) == AllResultIds(msgs)
    decreases |msgs|
  {
    if msgs != [] {
      var n := |msgs| - 1;
      AnsweredIs(msgs[..n]);
      assert msgs == msgs[..n] + [msgs[n]];
      ResultsJoin(msgs[..n], [msgs[n]]);
      assert [msgs[n]][1..] == [];
    }
  }

  lemma {:induction false} ResultsJoin(a: seq<Message>, b: seq<Message>)
    ensures AllResultIds(a + b) == AllResultIds(a) + AllResultIds(b)
    ensures CallIds(a + b) == CallIds(a) + CallIds(b)
    decreases |a|
  {
    if a == [] {
      assert a + b == b;
    } else {
      assert (a + b)[1..] == a[1..] + b;
      ResultsJoin(a[1..], b);
    }
  }

  /** After the backstop every call id has a result, no call is added, and nothing is removed. */
  lemma {:induction false} EnsureAnswersAll(msgs: seq<Message>, answered: set<string>)
    ensures var out := Ensure(msgs, answered);
            && AllResultIds(out) == AllResultIds(msgs) + (CallIds(msgs) - answered)
            && CallIds(out) == CallIds(msgs)
    decreases |msgs|
  {
    if msgs != [] {
      var m, rest := msgs[0], msgs[1..];
      var missing := Missing(m.calls, answered);
      var f := Filler(missing);
      EnsureAnswersAll(rest, answered + Ids(m.calls));
      MissingAnswers(m.calls, answered);
      ResultsJoin([m] + f, Ensure(rest, answered + Ids(m.calls)));
      ResultsJoin([m], f);
      FillerIds(missing);
      assert [m][1..] == [];
    }
  }

  lemma FillerIds(missing: seq<ToolResult>)
    ensures AllResultIds(Filler(missing)) == ResultIds(missing) && CallIds(Filler(missing)) == {}
  {
    if missing != [] { assert Filler(missing)[1..] == []; }
  }

  /** Where every call already has a result the backstop changes nothing. */
  lemma {:induction false} EnsureIdle(msgs: seq<Message>, answered: set<string>)
    requires CallIds(msgs) <= answered
    ensures Ensure(msgs, answered) == msgs
    decreases |msgs|
  {
    if msgs != [] {
      MissingAnswers(msgs[0].calls, answered);
      NothingMissing(msgs[0].calls, answered);
      EnsureIdle(msgs[1..], answered + Ids(msgs[0].calls));
    }
  }

  lemma {:induction false} NothingMissing(calls: seq<Call>, answered: set<string>)
    requires Ids(calls) <= answered
    ensures Missing(calls, answered) == []
    decreases |calls|
  {
    if calls != [] {
      IdsCons(calls);
      NothingMissing(calls[1..], answered);
    }
  }

  lemma {:induction false} FlattenKeepsTools(msgs: seq<Message>, id: string)
    requires Flatten(msgs).Some?
    ensures var ts := Flatten(msgs).value;
            && (forall i :: 0 <= i < |ts| && HasUse(ts[i], id) ==> id in CallIds(msgs))
            && (id in AllResultIds(msgs) ==> exists i :: 0 <= i < |ts| && HasResult(ts[i], id))
    decreases |msgs|
  {
    if msgs != [] {
      var a, rest := TurnsOf(msgs[0]).value, Flatten(msgs[1..]).value;
      var ts := a + rest;
      FlattenKeepsTools(msgs[1..], id);
      TurnTools(msgs[0], id);
      forall i | 0 <= i < |ts| && HasUse(ts[i], id) ensures id in CallIds(msgs) {
        if i >= |a| { assert ts[i] == rest[i - |a|]; }
      }
      if id in ResultIds(msgs[0].results) {
        var i :| 0 <= i < |a| && HasResult(a[i], id);
        assert ts[i] == a[i];
      } else if id in AllResultIds(msgs) {
        var i :| 0 <= i < |rest| && HasResult(rest[i], id);
        assert ts[|a| + i] == rest[i];
      }
    }
  }

  lemma TurnTools(m: Message, id: string)
    requires TurnsOf(m).Some?
    ensures var a := TurnsOf(m).value;
            && (forall i :: 0 <= i < |a| && HasUse(a[i], id) ==> id in Ids(m.calls))
            && (id in ResultIds(m.results) ==> exists i :: 0 <= i < |a| && HasResult(a[i], id))
  {
    hide Ids, HasUse, HasResult, CallsOk, ResultsOk, UseTurn, ResultTurn;
    var a := TurnsOf(m).value;
    forall i | 0 <= i < |a| && HasUse(a[i], id) ensures id in Ids(m.calls) {
      if m.calls == [] {
        NoUses(m, i, id);
        assert false;
      } else {
        assert a[i] == UseTurn(m) || a[i] == ResultTurn(m);
        UseTurnIds(m, id);
        NoUseInResults(m, id);
      }
    }
    if id in ResultIds(m.results) {
      ResultTurnIds(m, id);
      assert a[|a| - 1] == ResultTurn(m);
    }
  }

  lemma NoUseInResults(m: Message, id: string)
    ensures !HasUse(ResultTurn(m), id)
  {
    assert forall i :: 0 <= i < |ResultTurn(m).blocks| ==> !ResultTurn(m).blocks[i].UseBlock?;
  }

  lemma UseTurnIds(m: Message, id: string)
    requires CallsOk(m.calls)
    ensures HasUse(UseTurn(m), id) ==> id in Ids(m.calls)
  {
    if HasUse(UseTurn(m), id) {
      var head := if m.content != "" then [TextBlock(m.content)] else [];
      var k :| 0 <= k < |UseTurn(m).blocks| && UseTurn(m).blocks[k] == UseBlock(id);
      assert UseTurn(m).blocks[k] == UseBlocks(m.calls)[k - |head|];
      assert m.calls[k - |head|].id == id;
    }
  }

  lemma ResultTurnIds(m: Message, id: string)
    requires id in ResultIds(m.results)
    ensures HasResult(ResultTurn(m), id)
  {
    var j :| 0 <= j < |m.results| && m.results[j].id != "" && m.results[j].id == id;
    assert ResultTurn(m).blocks[j] == ResultBlocks(m.results)[j];
  }

  /** Whatever transcript the mapping accepts, the request alternates roles and every tool use
      in it has a tool result. */
  lemma MappedIsWellFormed(msgs: seq<Message>)
    requires Map(msgs).Some?
    ensures var ts := Map(msgs).value;
            && Alternates(ts)
            && forall i, id :: 0 <= i < |ts| && HasUse(ts[i], id) ==> exists j :: 0 <= j < |ts| && HasResult(ts[j], id)
  {
    var all := Ensure(msgs, Answered(msgs));
    var flat := Flatten(all).value;
    var ts := Merge(flat);
    MergeAlternates(flat);
    AnsweredIs(msgs);
    EnsureAnswersAll(msgs, Answered(msgs));
    forall i, id | 0 <= i < |ts| && HasUse(ts[i], id) ensures exists j :: 0 <= j < |ts| && HasResult(ts[j], id) {
      var k := BlocksFound(flat, i, UseBlock(id));
      FlattenKeepsTools(all, id);
      assert HasUse(flat[k], id);
      var r :| 0 <= r < |flat| && HasResult(flat[r], id);
      var b :| 0 <= b < |flat[r].blocks| && flat[r].blocks[b].ResultBlock? && flat[r].blocks[b].id == id;
      BlocksKept(flat, r, flat[r].blocks[b]);
      assert HasResult(ts[Place(flat, r)], id);
    }
  }

  lemma {:induction false} PairedCallsAnswered(msgs: seq<Message>)
    requires Paired(msgs)
    ensures CallIds(msgs) <= AllResultIds(msgs)
    decreases |msgs|
  {
    if msgs != [] {
      var rest := msgs[1..];
      forall i | 0 <= i < |rest| && rest[i].calls != [] ensures AnsweredAt(rest, i) { assert AnsweredAt(msgs, i + 1); }
      PairedCallsAnswered(rest);
      forall id | id in Ids(msgs[0].calls) ensures id in AllResultIds(rest) {
        assert AnsweredAt(msgs, 0) && rest[0] == msgs[1];
        var j :| 0 <= j < |msgs[0].calls| && msgs[0].calls[j].id != "" && msgs[0].calls[j].id == id;
        assert msgs[1].results[j].id == id;
      }
    }
  }

  /** A paired transcript maps to a request whose every tool use is answered in the next turn. */
  lemma PairedIsAnsweredNext(msgs: seq<Message>)
    requires Paired(msgs) && Map(msgs).Some?
    ensures Alternates(Map(msgs).value) && AnsweredNext(Map(msgs).value)
  {
    PairedCallsAnswered(msgs);
    AnsweredIs(msgs);
    EnsureIdle(msgs, Answered(msgs));
    PairedFlattens(msgs);
    MergeKeepsAnswers(Flatten(msgs).value);
    MergeAlternates(Flatten(msgs).value);
  }

  // ----- nothing is lost or reordered

  /** A block and the role that says it. */
  datatype Said = Said(role: string, block: Block)

  function SaidBy(role: string, bs: seq<Block>): (r: seq<Said>)
    ensures |r| == |bs| && forall i :: 0 <= i < |bs| ==> r[i] == Said(role, bs[i])
  {
    seq(|bs|, i requires 0 <= i < |bs| => Said(role, bs[i]))
  }

  lemma SaidJoin(role: string, a: seq<Block>, b: seq<Block>)
    ensures SaidBy(role, a + b) == SaidBy(role, a) + SaidBy(role, b)
  {
  }

  function TextItem(text: string): seq<Block> {
    if text == "" then [] else [TextBlock(text)]
  }

  /** Everything a turn says, in order. */
  function Items(t: Turn): seq<Said> {
    SaidBy(t.role, TextItem(t.content) + t.blocks)
  }

  function AllItems(ts: seq<Turn>): seq<Said> {
    if ts == [] then [] else AllItems(ts[..|ts| - 1]) + Items(ts[|ts| - 1])
  }

  /** Everything a message says and who says it: the assistant a text before its calls, the user
      the results and a text after them, and anyone a text of their own, the user by default. */
  function MessageItems(m: Message): seq<Said> {
    if m.role == "system" then []
    else if m.calls != [] then
      SaidBy("assistant", TextItem(m.content) + UseBlocks(m.calls)) + SaidBy("user", ResultBlocks(m.results))
    else if m.results != [] then SaidBy("user", ResultBlocks(m.results) + TextItem(m.content))
    else SaidBy(if m.role == "" then "user" else m.role, TextItem(m.content))
  }

  function TranscriptItems(msgs: seq<Message>): seq<Said> {
    if msgs == [] then [] else MessageItems(msgs[0]) + TranscriptItems(msgs[1..])
  }

  /** A turn made of blocks has no loose text. */
  predicate WellMade(t: Turn) {
    t.blocks != [] ==> t.content == ""
  }

  lemma {:induction false} ItemsJoin(a: seq<Turn>, b: seq<Turn>)
    ensures AllItems(a + b) == AllItems(a) + AllItems(b)
    decreases |b|
  {
    if b == [] {
      assert a + b == a;
    } else {
      var n := |b| - 1;
      assert (a + b)[..|a + b| - 1] == a + b[..n];
      ItemsJoin(a, b[..n]);
      assert AllItems(a) + AllItems(b[..n]) + Items(b[n]) == AllItems(a) + (AllItems(b[..n]) + Items(b[n]));
    }
  }

  lemma OneTurn(t: Turn)
    ensures AllItems([t]) == Items(t)
  {
    assert [t][..0] == [];
    assert [] + Items(t) == Items(t);
  }

  lemma MergeIntoBlocks(dst: Turn, src: Turn)
    requires WellMade(dst) && WellMade(src)
    ensures var m := MergeInto(dst, src);
            && WellMade(m) && m.role == dst.role
            && TextItem(m.content) + m.blocks ==
                 (TextItem(dst.content) + dst.blocks) + (TextItem(src.content) + src.blocks)
  {
  }

  lemma MergeIntoItems(dst: Turn, src: Turn)
    requires WellMade(dst) && WellMade(src) && dst.role == src.role
    ensures WellMade(MergeInto(dst, src)) && Items(MergeInto(dst, src)) == Items(dst) + Items(src)
  {
    hide SaidBy, TextItem, MergeInto, WellMade;
    MergeIntoBlocks(dst, src);
    SaidJoin(dst.role, TextItem(dst.content) + dst.blocks, TextItem(src.content) + src.blocks);
  }

  lemma AddTurnItems(out: seq<Turn>, t: Turn)
    requires (forall i :: 0 <= i < |out| ==> WellMade(out[i])) && WellMade(t)
    ensures AllItems(AddTurn(out, t)) == AllItems(out) + Items(t)
    ensures forall i :: 0 <= i < |AddTurn(out, t)| ==> WellMade(AddTurn(out, t)[i])
  {
    hide MergeInto, WellMade, Items;
    var n := |out| - 1;
    if out == [] || out[n].role != t.role {
      ItemsJoin(out, [t]);
      OneTurn(t);
    } else {
      MergeIntoItems(out[n], t);
      ItemsJoin(out[..n], [MergeInto(out[n], t)]);
      OneTurn(MergeInto(out[n], t));
      assert AllItems(out[..n]) + (Items(out[n]) + Items(t)) == AllItems(out[..n]) + Items(out[n]) + Items(t);
    }
  }

  lemma {:induction false} MergeKeepsItems(ts: seq<Turn>)
    requires forall i :: 0 <= i < |ts| ==> WellMade(ts[i])
    ensures AllItems(Merge(ts)) == AllItems(ts)
    ensures forall i :: 0 <= i < |Merge(ts)| ==> WellMade(Merge(ts)[i])
    decreases |ts|
  {
    if ts != [] {
      hide AddTurn, WellMade, Items;
      MergeKeepsItems(ts[..|ts| - 1]);
      AddTurnItems(Merge(ts[..|ts| - 1]), ts[|ts| - 1]);
    }
  }

  lemma TurnItems(m: Message)
    ensures Items(UseTurn(m)) == SaidBy("assistant", TextItem(m.content) + UseBlocks(m.calls))
    ensures m.calls != [] ==> Items(ResultTurn(m)) == SaidBy("user", ResultBlocks(m.results))
    ensures m.calls == [] ==> Items(ResultTurn(m)) == SaidBy("user", ResultBlocks(m.results) + TextItem(m.content))
    ensures m.results == [] ==> SaidBy("user", ResultBlocks(m.results)) == []
    ensures forall r: string :: Items(Turn(r, m.content, [])) == SaidBy(r, TextItem(m.content))
    ensures WellMade(UseTurn(m)) && WellMade(ResultTurn(m)) && forall r: string :: WellMade(Turn(r, m.content, []))
  {
    hide SaidBy, UseBlocks, ResultBlocks;
    assert ResultBlocks(m.results) + [] == ResultBlocks(m.results);
    assert TextItem(m.content) + [] == TextItem(m.content);
    assert [] + (TextItem(m.content) + UseBlocks(m.calls)) == TextItem(m.content) + UseBlocks(m.calls);
    NothingSaid(m);
  }

  lemma NothingSaid(m: Message)
    ensures m.results == [] ==> SaidBy("user", ResultBlocks(m.results)) == []
  {
  }

  lemma TurnsSayMessage(m: Message)
    requires TurnsOf(m).Some?
    ensures var a := TurnsOf(m).value;
            AllItems(a) == MessageItems(m) && forall i :: 0 <= i < |a| ==> WellMade(a[i])
  {
    hide AllItems, CallsOk, ResultsOk, SaidBy, UseTurn, ResultTurn, TextItem, Items, WellMade;
    var a := TurnsOf(m).value;
    TurnItems(m);
    if a == [] {
      NoTurns();
    } else if |a| == 1 {
      assert a == [a[0]];
      OneTurn(a[0]);
      assert Items(a[0]) == MessageItems(m);
    } else {
      assert a == [a[0]] + [a[1]];
      ItemsJoin([a[0]], [a[1]]);
      OneTurn(a[0]);
      OneTurn(a[1]);
    }
  }

  lemma NoTurns()
    ensures AllItems([]) == []
  {
  }

  lemma {:induction false} FlattenSaysAll(msgs: seq<Message>)
    requires Flatten(msgs).Some?
    ensures var ts := Flatten(msgs).value;
            AllItems(ts) == TranscriptItems(msgs) && forall i :: 0 <= i < |ts| ==> WellMade(ts[i])
    decreases |msgs|
  {
    if msgs != [] {
      hide TurnsOf, WellMade, MessageItems, AllItems;
      TurnsSayMessage(msgs[0]);
      FlattenSaysAll(msgs[1..]);
      ItemsJoin(TurnsOf(msgs[0]).value, Flatten(msgs[1..]).value);
    } else {
      NoTurns();
    }
  }

  /** The request says exactly what the (completed) transcript says, in the same order: merging
      turns drops, duplicates and reorders nothing. */
  lemma MappingKeepsContent(msgs: seq<Message>)
    requires Map(msgs).Some?
    ensures AllItems(Map(msgs).value) == TranscriptItems(Ensure(msgs, Answered(msgs)))
    ensures CallIds(msgs) <= Answered(msgs) ==> AllItems(Map(msgs).value) == TranscriptItems(msgs)
  {
    hide Ensure, Answered, Flatten, AllItems, TranscriptItems;
    var all := Ensure(msgs, Answered(msgs));
    FlattenSaysAll(all);
    MergeKeepsItems(Flatten(all).value);
    if CallIds(msgs) <= Answered(msgs) { EnsureIdle(msgs, Answered(msgs)); }
  }

  // ----- what is accepted, and what is filled in

  /** A message the mapping accepts: a system message is text only; calls come from the assistant,
      each with an id, a name and sound arguments; results name their calls; and a plain message
      comes from the user or the assistant. */
  predicate Acceptable(m: Message) {
    && (m.role == "system" ==> m.calls == [] && m.results == [])
    && (m.calls != [] ==> m.role in {"", "assistant"})
    && (forall c | c in m.calls :: c.id != "" && c.name != "" && c.sound)
    && (forall r | r in m.results :: r.id != "")
    && (m.calls == [] && m.results == [] ==> m.role in {"", "system", "user", "assistant"})
  }

  lemma AcceptedIff(m: Message)
    ensures TurnsOf(m).Some? <==> Acceptable(m)
  {
    assert CallsOk(m.calls) <==> forall c | c in m.calls :: c.id != "" && c.name != "" && c.sound;
    assert ResultsOk(m.results) <==> forall r | r in m.results :: r.id != "";
  }

  lemma {:induction false} FlattenIff(msgs: seq<Message>)
    ensures Flatten(msgs).Some? <==> forall m | m in msgs :: Acceptable(m)
    decreases |msgs|
  {
    if msgs != [] {
      hide TurnsOf, Acceptable;
      AcceptedIff(msgs[0]);
      FlattenIff(msgs[1..]);
      assert msgs == [msgs[0]] + msgs[1..];
    }
  }

  /** What is filled in for unanswered calls: for each id, at its first call, one result that says
      the call was not executed, flagged as an error. */
  ghost predicate Fills(calls: seq<Call>, answered: set<string>, rs: seq<ToolResult>) {
    && (forall r | r in rs ::
          r == ToolResult(r.id, "{\"error\":\"tool call was not executed\"}", true) && r.id in Ids(calls) - answered)
    && (forall id | id in Ids(calls) - answered :: exists i :: 0 <= i < |rs| && rs[i].id == id)
    && (forall i, j :: 0 <= i < j < |rs| ==> rs[i].id != rs[j].id)
  }

  lemma {:induction false} MissingFills(calls: seq<Call>, answered: set<string>)
    ensures Fills(calls, answered, Missing(calls, answered))
    decreases |calls|
  {
    if calls != [] {
      var c := calls[0];
      IdsCons(calls);
      var rest := calls[1..];
      if c.id == "" || c.id in answered {
        MissingFills(rest, answered);
        assert Ids(calls) - answered == Ids(rest) - answered;
      } else {
        MissingFills(rest, answered + {c.id});
        FillsCons(calls, answered, Missing(rest, answered + {c.id}));
      }
    }
  }

  lemma FillsCons(calls: seq<Call>, answered: set<string>, rs: seq<ToolResult>)
    requires calls != [] && calls[0].id != "" && calls[0].id !in answered
    requires Fills(calls[1..], answered + {calls[0].id}, rs)
    ensures Fills(calls, answered, [ToolResult(calls[0].id, UNEXECUTED, true)] + rs)
  {
    IdsCons(calls);
    var all := [ToolResult(calls[0].id, UNEXECUTED, true)] + rs;
    assert all[0].id == calls[0].id;
    forall id | id in Ids(calls) - answered ensures exists i :: 0 <= i < |all| && all[i].id == id {
      if id != calls[0].id {
        assert id in Ids(calls[1..]) - (answered + {calls[0].id});
        var i :| 0 <= i < |rs| && rs[i].id == id;
        assert all[i + 1].id == id;
      }
    }
    assert forall r | r in all :: r == all[0] || r in rs;
    assert forall i | 0 <= i < |rs| :: rs[i] in rs;
  }

  /** The completed transcript: every message, and after one with unanswered calls a user message
      with the results filled in. */
  ghost predicate Completes(msgs: seq<Message>, answered: set<string>, out: seq<Message>)
    decreases |msgs|
  {
    if msgs == [] then out == []
    else
      && out != [] && out[0] == msgs[0]
      && var now := answered + Ids(msgs[0].calls);
         if Ids(msgs[0].calls) <= answered then Completes(msgs[1..], now, out[1..])
         else
           && |out| > 1 && out[1] == Message("user", "", [], out[1].results)
           && Fills(msgs[0].calls, answered, out[1].results) && Completes(msgs[1..], now, out[2..])
  }

  lemma {:induction false} EnsureCompletes(msgs: seq<Message>, answered: set<string>)
    ensures Completes(msgs, answered, Ensure(msgs, answered))
    decreases |msgs|
  {
    if msgs != [] {
      hide Fills, Missing;
      var m, now := msgs[0], answered + Ids(msgs[0].calls);
      var missing, rest, out := Missing(m.calls, answered), Ensure(msgs[1..], now), Ensure(msgs, answered);
      MissingFills(m.calls, answered);
      EnsureCompletes(msgs[1..], now);
      if Ids(m.calls) <= answered {
        NothingMissing(m.calls, answered);
        assert out[1..] == rest;
      } else {
        SomeMissing(m.calls, answered);
        assert out == [m] + [Message("user", "", [], missing)] + rest;
        assert out[2..] == rest;
      }
    }
  }

  lemma SomeMissing(calls: seq<Call>, answered: set<string>)
    requires !(Ids(calls) <= answered)
    ensures Missing(calls, answered) != []
  {
    MissingAnswers(calls, answered);
    var id :| id in Ids(calls) && id !in answered;
    assert id in ResultIds(Missing(calls, answered));
  }

  /** Transcripts are refused exactly for a message of their own that is not acceptable. */
  lemma MapIff(msgs: seq<Message>)
    ensures Map(msgs).Some? <==> forall m | m in msgs :: Acceptable(m)
  {
    FlattenIff(Ensure(msgs, Answered(msgs)));
    EnsureAcceptable(msgs, Answered(msgs));
  }

  lemma {:induction false} EnsureAcceptable(msgs: seq<Message>, answered: set<string>)
    ensures (forall m | m in Ensure(msgs, answered) :: Acceptable(m)) <==> forall m | m in msgs :: Acceptable(m)
    decreases |msgs|
  {
    if msgs != [] {
      hide Acceptable, Missing;
      EnsureAcceptable(msgs[1..], answered + Ids(msgs[0].calls));
      assert msgs == [msgs[0]] + msgs[1..];
      var f := Filler(Missing(msgs[0].calls, answered));
      FillerAcceptable(msgs[0].calls, answered);
      var rest := Ensure(msgs[1..], answered + Ids(msgs[0].calls));
      assert forall m | m in Ensure(msgs, answered) :: m == msgs[0] || m in f || m in rest;
      assert forall m | m == msgs[0] || m in rest :: m in Ensure(msgs, answered);
    }
  }

  lemma FillerAcceptable(calls: seq<Call>, answered: set<string>)
    ensures forall m | m in Filler(Missing(calls, answered)) :: Acceptable(m)
  {
    MissingFills(calls, answered);
    assert "" !in Ids(calls);
  }
}
