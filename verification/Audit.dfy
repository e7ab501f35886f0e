/** The tamper-evident trace chain of one run (internal/audit/chain.go, verify.go). */
module Audit {
  import opened Values
  import opened Common
  import Codec

  /** A stored trace event. The timestamp is its UTC text; data is the stored JSON text. */
  datatype Event = Event(
    runId: string, seqNo: int64, timestamp: string, typ: string, actorType: string, stepId: string,
    tenantId: string, threadId: string, actorId: string, data: string, prevHash: string, hash: string)

  /** SHA-256 as hex, and encoding/json's string literal. */
  datatype Lib = Lib(hash: string -> string, quote: string -> string)

  /** Hex digests have one length and a quoted string shows where it ends. */
  ghost predicate IsStdlib(lib: Lib) {
    && (forall s :: |lib.hash(s)| == 64)
    && (forall a, b, x, y :: lib.quote(a) + x == lib.quote(b) + y ==> a == b && x == y)
  }

  const GENESIS := "terfyn-audit-genesis-v1:"

  function GenesisHash(lib: Lib, runId: string): string {
    lib.hash(GENESIS + runId)
  }

  /** An empty data column is audited as an empty object. */
  function Data(e: Event): string {
    if e.data == "" then "{}" else e.data
  }

  function TextField(lib: Lib, name: string, value: string): string {
    "\"" + name + "\":" + lib.quote(value)
  }

  /** The record after its sequence number. */
  function Fields(lib: Lib, e: Event): string {
    TextField(lib, "timestamp", e.timestamp) + ("," +
    (TextField(lib, "type", e.typ) + ("," +
    (TextField(lib, "actor_type", e.actorType) + ("," +
    (TextField(lib, "step_id", e.stepId) + ("," +
    (TextField(lib, "tenant_id", e.tenantId) + ("," +
    (TextField(lib, "thread_id", e.threadId) + ("," +
    (TextField(lib, "actor_id", e.actorId) + ("," +
    (TextField(lib, "data_json", Data(e)) + "}"))))))))))))))
  }

  function CanonicalEventBytes(lib: Lib, e: Event): string {
    "{" + TextField(lib, "run_id", e.runId) + (",\"seq\":" + Codec.FormatInt(e.seqNo) + ("," + Fields(lib, e)))
  }

  function EventHash(lib: Lib, e: Event, prev: string): string {
    lib.hash(CanonicalEventBytes(lib, e) + prev)
  }

  function PrevHashForChainTip(lib: Lib, runId: string, last: string): string {
    if last != "" then last else GenesisHash(lib, runId)
  }

  // ----- well-linked logs

  predicate Unchained(e: Event) {
    e.hash == "" && e.prevHash == ""
  }

  /** Event i links to its predecessor, or to the genesis hash at the head k of the chain. */
  ghost predicate LinkedAt(lib: Lib, runId: string, events: seq<Event>, k: nat, i: nat)
    requires k <= i < |events|
  {
    var e := events[i];
    && e.hash != "" && e.prevHash != ""
    && e.prevHash == (if i == k then GenesisHash(lib, runId) else events[i - 1].hash)
    && e.hash == EventHash(lib, e, e.prevHash)
  }

  /** An unchained prefix of length k, then a correctly linked chain. */
  ghost predicate ChainFrom(lib: Lib, runId: string, events: seq<Event>, k: nat) {
    && k <= |events|
    && (forall i :: 0 <= i < k ==> Unchained(events[i]))
    && (forall i :: k <= i < |events| ==> LinkedAt(lib, runId, events, k, i))
  }

  ghost predicate WellChained(lib: Lib, runId: string, events: seq<Event>) {
    exists k: nat :: ChainFrom(lib, runId, events, k)
  }

  datatype Broken = PartialChain | BadPrevHash | BadHash | UnchainedInsertion

  datatype Report = Report(total: nat, chained: nat, unchained: nat, brokenSeq: int, broken: Option<Broken>) {
    predicate Ok() { brokenSeq == 0 }
  }

  lemma ChainedCannotBePrefix(lib: Lib, runId: string, events: seq<Event>, k: nat, j: nat, n: nat)
    requires n <= |events| && ChainFrom(lib, runId, events[..n], j) && j < n && ChainFrom(lib, runId, events, k)
    ensures k == j
  {
    assert events[..n][j] == events[j];
    assert LinkedAt(lib, runId, events[..n], j, j);
    assert forall i :: 0 <= i < j ==> events[i] == events[..n][i];
    assert k < |events| ==> LinkedAt(lib, runId, events, k, k);
  }

  /** No completion of a prefix that breaks at event n is well chained. */
  ghost predicate BreaksAt(lib: Lib, runId: string, events: seq<Event>, n: nat) {
    n < |events| && WellChained(lib, runId, events[..n]) && !WellChained(lib, runId, events[..n + 1])
  }

  lemma {:induction false} PrefixWellChained(lib: Lib, runId: string, events: seq<Event>, n: nat)
    requires n <= |events| && WellChained(lib, runId, events)
    ensures WellChained(lib, runId, events[..n])
  {
    var k: nat :| ChainFrom(lib, runId, events, k);
    var s, m := events[..n], if k <= n then k else n;
    forall i | m <= i < |s| ensures LinkedAt(lib, runId, s, m, i) { assert LinkedAt(lib, runId, events, k, i); }
    assert ChainFrom(lib, runId, s, m);
  }

  /** What the verifier knows after n sound events: where the chain began and its tip. */
  ghost predicate Tracks(lib: Lib, runId: string, events: seq<Event>, n: nat, chained: nat, unchained: nat,
      last: string) {
    && n == chained + unchained <= |events|
    && ChainFrom(lib, runId, events[..n], unchained)
    && last == if chained > 0 then events[n - 1].hash else ""
  }

  /** One more event keeps the log well chained exactly when it passes the verifier's tests. */
  lemma NextEvent(lib: Lib, runId: string, events: seq<Event>, n: nat, chained: nat, unchained: nat, last: string)
    requires Tracks(lib, runId, events, n, chained, unchained, last) && n < |events|
    ensures var e := events[n];
            var links := e.hash != "" && e.prevHash != "" && e.prevHash == PrevHashForChainTip(lib, runId, last)
            && EventHash(lib, e, e.prevHash) == e.hash;
            && (WellChained(lib, runId, events[..n + 1]) <==> (Unchained(e) && chained == 0) || links)
            && (Unchained(e) && chained == 0 ==> ChainFrom(lib, runId, events[..n + 1], unchained + 1))
            && (links ==> ChainFrom(lib, runId, events[..n + 1], unchained))
  {
    hide EventHash, GenesisHash;
    var e, s, t := events[n], events[..n], events[..n + 1];
    assert t[..n] == s && t[n] == e;
    forall i | 0 <= i < n ensures t[i] == s[i] {}
    var links := e.hash != "" && e.prevHash != "" && e.prevHash == PrevHashForChainTip(lib, runId, last)
    && EventHash(lib, e, e.prevHash) == e.hash;
    if chained > 0 { assert LinkedAt(lib, runId, s, unchained, n - 1); }
    if Unchained(e) && chained == 0 { assert ChainFrom(lib, runId, t, unchained + 1); }
    if links {
      forall i | unchained <= i < |t| ensures LinkedAt(lib, runId, t, unchained, i) {
        if i < n { assert LinkedAt(lib, runId, s, unchained, i); }
      }
      assert ChainFrom(lib, runId, t, unchained);
    }
    if WellChained(lib, runId, t) {
      var k: nat :| ChainFrom(lib, runId, t, k);
      if chained > 0 {
        ChainedCannotBePrefix(lib, runId, t, k, unchained, n);
        assert LinkedAt(lib, runId, t, k, n);
      } else if k <= n {
        assert LinkedAt(lib, runId, t, k, n);
        assert LinkedAt(lib, runId, t, k, k);
      }
    }
  }

  /** What is wrong with event n after n - u chained ones: it is unchained behind the head, has
      one of its two links only, or links to another event, or not by its own hash. */
  ghost predicate Why(lib: Lib, runId: string, events: seq<Event>, n: nat, u: nat, why: Broken)
    requires u <= n < |events|
  {
    var e := events[n];
    var before := if n == u then GenesisHash(lib, runId) else events[n - 1].hash;
    match why
    case UnchainedInsertion => Unchained(e) && u < n
    case PartialChain => (e.hash == "") != (e.prevHash == "")
    case BadPrevHash => e.hash != "" && e.prevHash != "" && e.prevHash != before
    case BadHash => e.hash != "" && e.prevHash == before != "" && e.hash != EventHash(lib, e, e.prevHash)
  }

  /** The report on a log that breaks at event n: why, its number, and how many events were read
      unchained and chained, a full pair of links at n counting as chained. */
  ghost predicate BreachAt(lib: Lib, runId: string, events: seq<Event>, n: nat, res: Report) {
    && n < |events| && res.broken.Some? && res.brokenSeq == events[n].seqNo
    && res.unchained <= n && ChainFrom(lib, runId, events[..n], res.unchained)
    && Why(lib, runId, events, n, res.unchained, res.broken.value)
    && res.chained == n - res.unchained + if events[n].hash != "" && events[n].prevHash != "" then 1 else 0
  }

  method VerifyRunChain(lib: Lib, runId: string, events: seq<Event>) returns (res: Report)
    ensures res.total == |events|
    ensures res.broken.None? <==> WellChained(lib, runId, events)
    ensures res.broken.None? ==>
              res.brokenSeq == 0 && res.chained + res.unchained == |events|
              && ChainFrom(lib, runId, events, res.unchained)
    ensures res.broken.Some? ==>
              exists n: nat :: BreaksAt(lib, runId, events, n) && BreachAt(lib, runId, events, n, res)
  {
    hide EventHash, GenesisHash, ChainFrom;
    res := Report(|events|, 0, 0, 0, None);
    var last := "";
    assert ChainFrom(lib, runId, events[..0], 0) by { EmptyChain(lib, runId, events); }
    for n := 0 to |events|
      invariant res.total == |events| && res.brokenSeq == 0 && res.broken.None?
      invariant Tracks(lib, runId, events, n, res.chained, res.unchained, last) && (res.chained > 0 ==> last != "")
    {
      var e := events[n];
      NextEvent(lib, runId, events, n, res.chained, res.unchained, last);
      assert WellChained(lib, runId, events[..n]);
      if e.hash == "" && e.prevHash == "" {
        if res.chained > 0 {
          Breaks(lib, runId, events, n);
          return res.(brokenSeq := e.seqNo, broken := Some(UnchainedInsertion));
        }
        res := res.(unchained := res.unchained + 1);
      } else if e.hash == "" || e.prevHash == "" {
        Breaks(lib, runId, events, n);
        return res.(brokenSeq := e.seqNo, broken := Some(PartialChain));
      } else {
        var expected := if last != "" then last else GenesisHash(lib, runId);
        if e.prevHash != expected {
          Breaks(lib, runId, events, n);
          return res.(chained := res.chained + 1, brokenSeq := e.seqNo, broken := Some(BadPrevHash));
        }
        if EventHash(lib, e, e.prevHash) != e.hash {
          Breaks(lib, runId, events, n);
          return res.(chained := res.chained + 1, brokenSeq := e.seqNo, broken := Some(BadHash));
        }
        last := e.hash;
        res := res.(chained := res.chained + 1);
      }
    }
    assert events[..|events|] == events;
  }

  lemma EmptyChain(lib: Lib, runId: string, events: seq<Event>)
    ensures ChainFrom(lib, runId, events[..0], 0)
  {
  }

  lemma Breaks(lib: Lib, runId: string, events: seq<Event>, n: nat)
    requires n < |events| && WellChained(lib, runId, events[..n]) && !WellChained(lib, runId, events[..n + 1])
    ensures BreaksAt(lib, runId, events, n) && !WellChained(lib, runId, events)
  {
    if WellChained(lib, runId, events) { PrefixWellChained(lib, runId, events, n + 1); }
  }

  /** Acceptance is exact for logs with non-zero sequence numbers. A broken event numbered 0 is
      the one case a report calls Ok although the chain is not sound. */
  method Verify(lib: Lib, runId: string, events: seq<Event>) returns (ok: bool)
    ensures ok <==>
            WellChained(lib, runId, events) || exists n: nat :: BreaksAt(lib, runId, events, n) && events[n].seqNo == 0
    ensures (forall i :: 0 <= i < |events| ==> events[i].seqNo != 0) ==> (ok <==> WellChained(lib, runId, events))
  {
    hide WellChained;
    var res := VerifyRunChain(lib, runId, events);
    ok := res.Ok();
    if res.broken.Some? {
      ghost var n: nat :| BreaksAt(lib, runId, events, n) && res.brokenSeq == events[n].seqNo;
      forall m: nat | BreaksAt(lib, runId, events, m) ensures m == n { BreaksOnce(lib, runId, events, m, n); }
    } else {
      forall m: nat ensures !BreaksAt(lib, runId, events, m) {
        if BreaksAt(lib, runId, events, m) { PrefixWellChained(lib, runId, events, m + 1); }
      }
    }
  }

  /** One event numbered 0 that carries a hash and no previous hash. */
  function StrayEvent(runId: string, hash: string): Event {
    Event(runId, 0, "", "", "", "", "", "", "", "", "", hash)
  }

  /** A broken log that is called Ok, whatever the run and the hash function. */
  method BrokenLogCalledOk(lib: Lib, runId: string, hash: string) returns (ok: bool)
    requires hash != ""
    ensures ok && !WellChained(lib, runId, [StrayEvent(runId, hash)])
  {
    hide EventHash, GenesisHash;
    var log := [StrayEvent(runId, hash)];
    StrayBreaks(lib, runId, hash);
    ok := Verify(lib, runId, log);
    assert BreaksAt(lib, runId, log, 0) && log[0].seqNo == 0;
  }

  lemma StrayBreaks(lib: Lib, runId: string, hash: string)
    requires hash != ""
    ensures var log := [StrayEvent(runId, hash)]; !WellChained(lib, runId, log) && BreaksAt(lib, runId, log, 0)
  {
    hide EventHash, GenesisHash;
    var log := [StrayEvent(runId, hash)];
    forall k: nat ensures !ChainFrom(lib, runId, log, k) {
      assert k == 0 ==> !LinkedAt(lib, runId, log, 0, 0);
      assert k == 1 ==> !Unchained(log[0]);
    }
    assert ChainFrom(lib, runId, log[..0], 0);
    assert log[..0 + 1] == log;
  }

  lemma BreaksOnce(lib: Lib, runId: string, events: seq<Event>, m: nat, n: nat)
    requires BreaksAt(lib, runId, events, m) && BreaksAt(lib, runId, events, n)
    ensures m == n
  {
    hide WellChained;
    if m < n {
      assert events[..n][..m + 1] == events[..m + 1];
      PrefixWellChained(lib, runId, events[..n], m + 1);
    } else if n < m {
      assert events[..m][..n + 1] == events[..n + 1];
      PrefixWellChained(lib, runId, events[..m], n + 1);
    }
  }

  // ----- appending

  /** The newest stored hash, else the genesis hash. */
  method PrevHashForAppend(lib: Lib, runId: string, prior: seq<Event>) returns (prev: string)
    ensures prev == Tip(lib, runId, prior)
  {
    var i := |prior|;
    assert prior[..i] == prior;
    while i > 0
      invariant i <= |prior| && Tip(lib, runId, prior[..i]) == Tip(lib, runId, prior)
    {
      i := i - 1;
      assert prior[..i + 1][..i] == prior[..i];
      if prior[i].hash != "" { return prior[i].hash; }
    }
    return GenesisHash(lib, runId);
  }

  function Tip(lib: Lib, runId: string, prior: seq<Event>): string {
    if prior == [] then GenesisHash(lib, runId)
    else if prior[|prior| - 1].hash != "" then prior[|prior| - 1].hash
    else Tip(lib, runId, prior[..|prior| - 1])
  }

  lemma {:induction false} UnchainedTip(lib: Lib, runId: string, prior: seq<Event>)
    requires forall i :: 0 <= i < |prior| ==> Unchained(prior[i])
    ensures Tip(lib, runId, prior) == GenesisHash(lib, runId)
    decreases |prior|
  {
    if prior != [] { UnchainedTip(lib, runId, prior[..|prior| - 1]); }
  }

  /** An event appended with PrevHashForAppend and its own hash keeps an accepted log accepted. */
  lemma AppendKeepsChain(lib: Lib, runId: string, events: seq<Event>, e: Event)
    requires IsStdlib(lib) && WellChained(lib, runId, events)
    requires e.prevHash == Tip(lib, runId, events) && e.hash == EventHash(lib, e, e.prevHash)
    ensures WellChained(lib, runId, events + [e])
  {
    var k: nat :| ChainFrom(lib, runId, events, k);
    var s := events + [e];
    assert |e.hash| == 64 && |GenesisHash(lib, runId)| == 64;
    hide EventHash, GenesisHash;
    if k < |events| {
      assert LinkedAt(lib, runId, events, k, |events| - 1);
    } else {
      UnchainedTip(lib, runId, events);
    }
    forall i | k <= i < |s| ensures LinkedAt(lib, runId, s, k, i) {
      if i < |events| { assert LinkedAt(lib, runId, events, k, i); }
    }
    assert ChainFrom(lib, runId, s, k);
  }

  // ----- tamper evidence

  /** The fields the hash covers, the empty data column read as "{}". */
  function Audited(e: Event): Event {
    e.(data := if e.data == "" then "{}" else e.data, prevHash := "", hash := "")
  }

  lemma SplitSuffix(a: string, b: string, x: string, y: string)
    requires |x| == |y| && a + x == b + y
    ensures a == b && x == y
  {
    assert |a| == |b|;
    assert a == (a + x)[..|a|] && b == (b + y)[..|b|];
    assert x == (a + x)[|a|..] && y == (b + y)[|b|..];
  }

  /** A text field shows its value and where the rest begins. */
  lemma FieldSplits(lib: Lib, name: string, a: string, b: string, x: string, y: string)
    requires IsStdlib(lib) && TextField(lib, name, a) + x == TextField(lib, name, b) + y
    ensures a == b && x == y
  {
    var head := "\"" + name + "\":";
    Glue(head, lib.quote(a), x);
    Glue(head, lib.quote(b), y);
    Cut(head, lib.quote(a) + x, lib.quote(b) + y);
  }

  /** The same for every field of the record that is followed by a comma. */
  lemma NextField(lib: Lib, name: string, a: string, b: string, x: string, y: string)
    requires IsStdlib(lib) && TextField(lib, name, a) + ("," + x) == TextField(lib, name, b) + ("," + y)
    ensures a == b && x == y
  {
    FieldSplits(lib, name, a, b, "," + x, "," + y);
    Cut(",", x, y);
  }

  lemma NumberSplits(m: int64, n: int64, x: string, y: string)
    requires Codec.FormatInt(m) + ("," + x) == Codec.FormatInt(n) + ("," + y)
    ensures m == n && x == y
  {
    var a, b := Codec.FormatInt(m), Codec.FormatInt(n);
    assert ',' !in a && ',' !in b;
    FirstComma(a, b, x, y);
    Codec.ParseFormat(m);
    Codec.ParseFormat(n);
  }

  lemma FirstComma(a: string, b: string, x: string, y: string)
    requires ',' !in a && ',' !in b && a + ("," + x) == b + ("," + y)
    ensures a == b && x == y
  {
    var s := a + ("," + x);
    assert s[|a|] == ',' && s[|b|] == ',';
    assert (forall i :: 0 <= i < |a| ==> s[i] == a[i]) && (forall i :: 0 <= i < |b| ==> s[i] == b[i]);
    assert |a| == |b|;
    assert a == s[..|a|] && b == s[..|b|];
    assert x == s[|a| + 1..] && y == s[|b| + 1..];
  }

  lemma FieldsInjective(lib: Lib, e: Event, f: Event)
    requires IsStdlib(lib) && Fields(lib, e) == Fields(lib, f)
    ensures Audited(e) == Audited(f.(runId := e.runId, seqNo := e.seqNo))
  {
    hide TextField, IsStdlib;
    var e8, f8 := TextField(lib, "data_json", Data(e)) + "}", TextField(lib, "data_json", Data(f)) + "}";
    var e7, f7 := TextField(lib, "actor_id", e.actorId) + ("," + e8),
        TextField(lib, "actor_id", f.actorId) + ("," + f8);
    var e6, f6 := TextField(lib, "thread_id", e.threadId) + ("," + e7),
        TextField(lib, "thread_id", f.threadId) + ("," + f7);
    var e5, f5 := TextField(lib, "tenant_id", e.tenantId) + ("," + e6),
        TextField(lib, "tenant_id", f.tenantId) + ("," + f6);
    var e4, f4 := TextField(lib, "step_id", e.stepId) + ("," + e5), TextField(lib, "step_id", f.stepId) + ("," + f5);
    var e3, f3 := TextField(lib, "actor_type", e.actorType) + ("," + e4),
        TextField(lib, "actor_type", f.actorType) + ("," + f4);
    var e2, f2 := TextField(lib, "type", e.typ) + ("," + e3), TextField(lib, "type", f.typ) + ("," + f3);
    NextField(lib, "timestamp", e.timestamp, f.timestamp, e2, f2);
    NextField(lib, "type", e.typ, f.typ, e3, f3);
    NextField(lib, "actor_type", e.actorType, f.actorType, e4, f4);
    NextField(lib, "step_id", e.stepId, f.stepId, e5, f5);
    NextField(lib, "tenant_id", e.tenantId, f.tenantId, e6, f6);
    NextField(lib, "thread_id", e.threadId, f.threadId, e7, f7);
    NextField(lib, "actor_id", e.actorId, f.actorId, e8, f8);
    FieldSplits(lib, "data_json", Data(e), Data(f), "}", "}");
  }

  lemma CanonicalShape(lib: Lib, e: Event)
    ensures CanonicalEventBytes(lib, e) ==
        "{" + (TextField(lib, "run_id", e.runId) + ("," + ("\"seq\":" + (Codec.FormatInt(e.seqNo) + ("," + Fields(lib,
            e))))))
  {
    hide TextField;
    var f, n, r := TextField(lib, "run_id", e.runId), Codec.FormatInt(e.seqNo), "," + Fields(lib, e);
    assert CanonicalEventBytes(lib, e) == "{" + f + (",\"seq\":" + n + r);
    Glue(",\"seq\":", n, r);
    assert ",\"seq\":" == "," + "\"seq\":";
    Glue(",", "\"seq\":", n + r);
    Glue("{", f, "," + ("\"seq\":" + (n + r)));
  }

  /** The canonical form holds the audited fields and nothing else: two events share it exactly
      when they agree on all of them. */
  lemma CanonicalIsAudited(lib: Lib, e: Event, f: Event)
    requires IsStdlib(lib)
    ensures CanonicalEventBytes(lib, e) == CanonicalEventBytes(lib, f) <==> Audited(e) == Audited(f)
  {
    if CanonicalEventBytes(lib, e) == CanonicalEventBytes(lib, f) { CanonicalInjective(lib, e, f); }
    if Audited(e) == Audited(f) { SameFields(lib, e, f); }
  }

  lemma SameFields(lib: Lib, e: Event, f: Event)
    requires Audited(e) == Audited(f)
    ensures CanonicalEventBytes(lib, e) == CanonicalEventBytes(lib, f)
  {
  }

  lemma CanonicalInjective(lib: Lib, e: Event, f: Event)
    requires IsStdlib(lib) && CanonicalEventBytes(lib, e) == CanonicalEventBytes(lib, f)
    ensures Audited(e) == Audited(f)
  {
    CanonicalShape(lib, e);
    CanonicalShape(lib, f);
    hide TextField, IsStdlib, CanonicalEventBytes, Fields;
    var x := "\"seq\":" + (Codec.FormatInt(e.seqNo) + ("," + Fields(lib, e)));
    var y := "\"seq\":" + (Codec.FormatInt(f.seqNo) + ("," + Fields(lib, f)));
    Cut("{", TextField(lib, "run_id", e.runId) + ("," + x), TextField(lib, "run_id", f.runId) + ("," + y));
    NextField(lib, "run_id", e.runId, f.runId, x, y);
    Cut("\"seq\":", Codec.FormatInt(e.seqNo) + ("," + Fields(lib, e)),
        Codec.FormatInt(f.seqNo) + ("," + Fields(lib, f)));
    NumberSplits(e.seqNo, f.seqNo, Fields(lib, e), Fields(lib, f));
    FieldsInjective(lib, e, f);
  }

  ghost predicate SameAudited(a: seq<Event>, b: seq<Event>) {
    |a| == |b| && forall i :: 0 <= i < |a| ==> Audited(a[i]) == Audited(b[i])
  }

  lemma OpensWithBrace(lib: Lib, e: Event, rest: string)
    ensures |CanonicalEventBytes(lib, e) + rest| > 0 && (CanonicalEventBytes(lib, e) + rest)[0] == '{'
  {
    CanonicalShape(lib, e);
  }

  /** Event i's stored links are hashes of the standard length. */
  lemma LinkLengths(lib: Lib, runId: string, a: seq<Event>, i: nat)
    requires IsStdlib(lib) && ChainFrom(lib, runId, a, 0) && i < |a|
    ensures |a[i].prevHash| == 64 && a[i].hash == lib.hash(CanonicalEventBytes(lib, a[i]) + a[i].prevHash)
    ensures a[i].prevHash == if i == 0 then GenesisHash(lib, runId) else a[i - 1].hash
  {
    hide CanonicalEventBytes;
    assert LinkedAt(lib, runId, a, 0, i);
    if i > 0 { assert LinkedAt(lib, runId, a, 0, i - 1); }
  }

  /** Two fully chained logs of one run that end in the same hash agree on every audited field
      of every event, or two texts with one hash are at hand. */
  lemma {:induction false} TamperEvident(lib: Lib, runId: string, a: seq<Event>, b: seq<Event>)
    returns (x: string, y: string)
    requires IsStdlib(lib) && a != [] && b != []
    requires ChainFrom(lib, runId, a, 0) && ChainFrom(lib, runId, b, 0) && a[|a| - 1].hash == b[|b| - 1].hash
    ensures SameAudited(a, b) || (x != y && lib.hash(x) == lib.hash(y))
    decreases |a|
  {
    hide CanonicalEventBytes, IsStdlib, Audited, ChainFrom, GenesisHash;
    var m, n := |a| - 1, |b| - 1;
    LinkLengths(lib, runId, a, m);
    LinkLengths(lib, runId, b, n);
    var ca, cb := CanonicalEventBytes(lib, a[m]), CanonicalEventBytes(lib, b[n]);
    x, y := ca + a[m].prevHash, cb + b[n].prevHash;
    if x == y {
      SplitSuffix(ca, cb, a[m].prevHash, b[n].prevHash);
      CanonicalInjective(lib, a[m], b[n]);
      if m > 0 && n > 0 {
        PrefixChain(lib, runId, a);
        PrefixChain(lib, runId, b);
        x, y := TamperEvident(lib, runId, a[..m], b[..n]);
        if SameAudited(a[..m], b[..n]) {
          forall i | 0 <= i < |a| ensures Audited(a[i]) == Audited(b[i]) {
            if i < m { assert a[i] == a[..m][i] && b[i] == b[..n][i]; }
          }
        }
      } else if m > 0 {
        x, y := GenesisClash(lib, runId, a, m);
      } else if n > 0 {
        x, y := GenesisClash(lib, runId, b, n);
      }
    }
  }

  lemma PrefixChain(lib: Lib, runId: string, a: seq<Event>)
    requires a != [] && ChainFrom(lib, runId, a, 0)
    ensures ChainFrom(lib, runId, a[..|a| - 1], 0)
  {
    hide EventHash, GenesisHash;
    var s := a[..|a| - 1];
    forall i | 0 <= i < |s| ensures LinkedAt(lib, runId, s, 0, i) { assert LinkedAt(lib, runId, a, 0, i); }
  }

  /** An event hash equal to the genesis hash is a collision: one text opens with a brace. */
  lemma GenesisClash(lib: Lib, runId: string, a: seq<Event>, m: nat) returns (x: string, y: string)
    requires IsStdlib(lib) && ChainFrom(lib, runId, a, 0) && 0 < m < |a| && a[m].prevHash == GenesisHash(lib, runId)
    ensures x != y && lib.hash(x) == lib.hash(y)
  {
    LinkLengths(lib, runId, a, m);
    LinkLengths(lib, runId, a, m - 1);
    x, y := CanonicalEventBytes(lib, a[m - 1]) + a[m - 1].prevHash, GENESIS + runId;
    OpensWithBrace(lib, a[m - 1], a[m - 1].prevHash);
    assert y[0] == 't';
  }

  /** A fully chained log is the log of one run only, or two texts with one hash are at hand. */
  lemma ChainNamesItsRun(lib: Lib, run: string, other: string, a: seq<Event>) returns (x: string, y: string)
    requires a != [] && ChainFrom(lib, run, a, 0) && ChainFrom(lib, other, a, 0)
    ensures run == other || (x != y && lib.hash(x) == lib.hash(y))
  {
    hide EventHash;
    x, y := GENESIS + run, GENESIS + other;
    assert LinkedAt(lib, run, a, 0, 0) && LinkedAt(lib, other, a, 0, 0);
    assert run == x[|GENESIS|..] && other == y[|GENESIS|..];
  }
}
