/** Recovering the one JSON object in an agent completion (internal/engine/steps.go
    recoverAgentJSONObject, topLevelJSONObjects, balancedObject). Texts are bytes. */
module Recover {
  import opened Values
  import opened Common

  // ----- the brace scanner

  datatype State = State(depth: int, inStr: bool, esc: bool)

  const START := State(0, false, false)

  function Step(st: State, c: char): State {
    if st.inStr then
      if st.esc then st.(esc := false)
      else if c == '\\' then st.(esc := true)
      else if c == '"' then st.(inStr := false)
      else st
    else if c == '"' then st.(inStr := true)
    else if c == '{' then st.(depth := st.depth + 1)
    else if c == '}' then st.(depth := st.depth - 1)
    else st
  }

  /** The scanner's state after a whole text. */
  function After(st: State, s: string): State {
    if s == "" then st else Step(After(st, s[..|s| - 1]), s[|s| - 1])
  }

  /** The byte at n - 1 is a brace outside strings that brings the depth back to zero. */
  predicate Closes(s: string, n: nat) {
    0 < n <= |s| && s[n - 1] == '}' && !After(START, s[..n - 1]).inStr && After(START, s[..n]).depth == 0
  }

  /** Length of the shortest brace-balanced prefix, None when the braces never balance. */
  method BalancedObject(s: string) returns (end: Option<nat>)
    ensures end.Some? ==> Closes(s, end.value) && forall m :: 0 <= m < end.value ==> !Closes(s, m)
    ensures end.None? ==> forall m :: 0 <= m <= |s| ==> !Closes(s, m)
  {
    var depth, inStr, esc := 0, false, false;
    for i := 0 to |s|
      invariant State(depth, inStr, esc) == After(START, s[..i])
      invariant forall m :: 0 <= m <= i ==> !Closes(s, m)
    {
      var c := s[i];
      assert s[..i + 1][..i] == s[..i];
      if inStr {
        if esc {
          esc := false;
        } else if c == '\\' {
          esc := true;
        } else if c == '"' {
          inStr := false;
        }
      } else if c == '"' {
        inStr := true;
      } else if c == '{' {
        depth := depth + 1;
      } else if c == '}' {
        depth := depth - 1;
        if depth == 0 { return Some(i + 1); }
      }
    }
    return None;
  }

  /** The first closing position, as BalancedObject finds it. */
  function First(s: string, n: nat): Option<nat>
    requires n <= |s|
    decreases |s| - n
  {
    if Closes(s, n) then Some(n) else if n == |s| then None else First(s, n + 1)
  }

  lemma {:induction false} FirstIs(s: string, n: nat, end: Option<nat>)
    requires n <= |s| && (forall m :: 0 <= m < n ==> !Closes(s, m))
    requires if end.Some? then Closes(s, end.value)
             && forall m :: 0 <= m < end.value ==> !Closes(s, m) else forall m :: 0 <= m <= |s| ==> !Closes(s, m)
    ensures First(s, n) == end
    decreases |s| - n
  {
    if !Closes(s, n) && n < |s| {
      FirstIs(s, n + 1, end);
    } else if Closes(s, n) && end.Some? {
      if n < end.value { assert false; }
    }
  }

  // ----- all top-level objects

  datatype Span = Span(lo: nat, hi: nat)

  /** A balanced object span of s, no shorter prefix of which is balanced. */
  ghost predicate IsObjectSpan(s: string, sp: Span) {
    && sp.lo < sp.hi <= |s| && s[sp.lo] == '{'
    && Closes(s[sp.lo..], sp.hi - sp.lo)
    && forall m :: 0 <= m < sp.hi - sp.lo ==> !Closes(s[sp.lo..], m)
  }

  ghost predicate Ordered(spans: seq<Span>) {
    forall i, j :: 0 <= i < j < |spans| ==> spans[i].hi <= spans[j].lo
  }

  /** The scan from position i: skip other bytes and unbalanced braces, take balanced spans. */
  function Spans(valid: string -> bool, s: string, i: nat): seq<Span>
    requires i <= |s|
    decreases |s| - i
  {
    if i == |s| then []
    else if s[i] != '{' then Spans(valid, s, i + 1)
    else match First(s[i..], 0)
      case None => Spans(valid, s, i + 1)
      case Some(n) =>
        if n == 0 || n > |s| - i then []
        else (if valid(s[i..i + n]) then [Span(i, i + n)] else []) + Spans(valid, s, i + n)
  }

  lemma {:induction false} FirstCloses(s: string, n: nat)
    requires n <= |s|
    ensures First(s, n).Some? ==>
              n <= First(s, n).value <= |s| && Closes(s, First(s, n).value)
              && forall m :: n <= m < First(s, n).value ==> !Closes(s, m)
    ensures First(s, n).None? ==> forall m :: n <= m <= |s| ==> !Closes(s, m)
    decreases |s| - n
  {
    if !Closes(s, n) && n < |s| { FirstCloses(s, n + 1); }
  }

  /** The spans are balanced, valid, disjoint and in order, and none starts before i. */
  lemma {:induction false} SpansAreDisjoint(valid: string -> bool, s: string, i: nat)
    requires i <= |s|
    ensures var r := Spans(valid, s, i);
            && Ordered(r)
            && (forall j :: 0 <= j < |r| ==> IsObjectSpan(s, r[j]) && i <= r[j].lo && valid(s[r[j].lo..r[j].hi]))
    decreases |s| - i
  {
    if i < |s| && s[i] == '{' {
      FirstCloses(s[i..], 0);
      var f := First(s[i..], 0);
      if f.Some? {
        assert s[i..][..f.value] == s[i..i + f.value];
        SpansAreDisjoint(valid, s, i + f.value);
      } else {
        SpansAreDisjoint(valid, s, i + 1);
      }
    } else if i < |s| {
      SpansAreDisjoint(valid, s, i + 1);
    }
  }

  /** A balanced span that begins inside no other top-level one. */
  ghost predicate TopLevel(s: string, sp: Span)
    decreases sp.lo
  {
    IsObjectSpan(s, sp) && forall q: Span :: q.lo < sp.lo < q.hi ==> !TopLevel(s, q)
  }

  /** No top-level span lies across position i. */
  ghost predicate Free(s: string, i: nat) {
    forall q: Span :: q.lo < i < q.hi ==> !TopLevel(s, q)
  }

  lemma OneSpanAt(s: string, a: Span, b: Span)
    requires IsObjectSpan(s, a) && IsObjectSpan(s, b) && a.lo == b.lo
    ensures a == b
  {
    hide Closes;
  }

  /** Where no span begins, the scan moves on by one. */
  lemma NextIsFree(s: string, i: nat)
    requires i < |s| && Free(s, i) && forall q: Span :: q.lo == i ==> !IsObjectSpan(s, q)
    ensures Free(s, i + 1)
  {
    forall q: Span | q.lo < i + 1 < q.hi ensures !TopLevel(s, q) {
      if q.lo < i { assert q.lo < i < q.hi; }
    }
  }

  /** A span found at a free position is top-level, the only one there, and its end is free. */
  lemma FoundIsTop(s: string, sp: Span)
    requires IsObjectSpan(s, sp) && Free(s, sp.lo)
    ensures TopLevel(s, sp) && Free(s, sp.hi)
    ensures forall q: Span :: TopLevel(s, q) && sp.lo <= q.lo < sp.hi ==> q == sp
  {
    hide Closes;
    assert TopLevel(s, sp);
    forall q: Span | TopLevel(s, q) && sp.lo <= q.lo < sp.hi ensures q == sp {
      if q.lo == sp.lo { OneSpanAt(s, q, sp); }
    }
    assert forall q: Span :: q.lo < sp.hi < q.hi ==> q.lo < sp.lo < q.hi || sp.lo <= q.lo < sp.hi;
  }

  /** The scan takes exactly the top-level spans that are valid. */
  lemma {:induction false} SpansAreExact(valid: string -> bool, s: string, i: nat, sp: Span)
    requires i <= |s| && Free(s, i)
    ensures sp in Spans(valid, s, i) <==> TopLevel(s, sp) && i <= sp.lo && valid(s[sp.lo..sp.hi])
    decreases |s| - i
  {
    hide Free, Closes;
    if i < |s| && s[i] == '{' {
      FirstCloses(s[i..], 0);
      var f := First(s[i..], 0);
      if f.Some? {
        FirstPositive(s, i);
        var here := Span(i, i + f.value);
        FoundIsTop(s, here);
        SpansAreExact(valid, s, i + f.value, sp);
      } else {
        NextIsFree(s, i);
        SpansAreExact(valid, s, i + 1, sp);
      }
    } else if i < |s| {
      NextIsFree(s, i);
      SpansAreExact(valid, s, i + 1, sp);
    }
  }

  lemma FirstPositive(s: string, i: nat)
    requires i < |s| && s[i] == '{' && First(s[i..], 0).Some?
    ensures 0 < First(s[i..], 0).value <= |s| - i && IsObjectSpan(s, Span(i, i + First(s[i..], 0).value))
  {
    FirstCloses(s[i..], 0);
    var f := First(s[i..], 0);
    assert Closes(s[i..], f.value);
  }

  method TopLevelJsonObjects(valid: string -> bool, s: string) returns (out: seq<string>, ghost spans: seq<Span>)
    ensures spans == Spans(valid, s, 0)
    ensures forall sp :: sp in spans <==> TopLevel(s, sp) && valid(s[sp.lo..sp.hi])
    ensures |out| == |spans| && forall j ::
                                  0 <= j < |out| ==> IsObjectSpan(s, spans[j]) && out[j] == s[spans[j].lo..spans[j].hi]
  {
    out, spans := [], [];
    var i := 0;
    while i < |s|
      invariant i <= |s| && spans + Spans(valid, s, i) == Spans(valid, s, 0)
      invariant |out| == |spans| && forall j ::
                                      0 <= j < |out|
                                      ==> spans[j].lo <= spans[j].hi <= |s| && out[j] == s[spans[j].lo..spans[j].hi]
      decreases |s| - i
    {
      if s[i] != '{' {
        i := i + 1;
      } else {
        var end := BalancedObject(s[i..]);
        FirstIs(s[i..], 0, end);
        if end.None? {
          i := i + 1;
        } else {
          var span := s[i..i + end.value];
          if valid(span) {
            out := out + [span];
            spans := spans + [Span(i, i + end.value)];
          }
          i := i + end.value;
        }
      }
    }
    assert spans + [] == spans;
    SpansAreDisjoint(valid, s, 0);
    forall sp ensures sp in spans <==> TopLevel(s, sp) && valid(s[sp.lo..sp.hi]) { SpansAreExact(valid, s, 0, sp); }
  }

  // ----- recovery

  datatype Result = Ok(text: string) | Ambiguous(count: nat)

  function TrimLeft(space: char -> bool, s: string): string {
    if s != "" && space(s[0]) then TrimLeft(space, s[1..]) else s
  }

  function TrimRight(space: char -> bool, s: string): string {
    if s != "" && space(s[|s| - 1]) then TrimRight(space, s[..|s| - 1]) else s
  }

  function Trim(space: char -> bool, s: string): string {
    TrimRight(space, TrimLeft(space, s))
  }

  method RecoverObject(space: char -> bool, valid: string -> bool, content: string) returns (r: Result)
    ensures r == Recovered(space, valid, content)
  {
    var trimmed := Trim(space, content);
    if trimmed == "" || valid(trimmed) { return Ok(trimmed); }
    var objs, spans := TopLevelJsonObjects(valid, trimmed);
    if |objs| == 0 { return Ok(trimmed); }
    if |objs| == 1 { return Ok(objs[0]); }
    return Ambiguous(|objs|);
  }

  function Recovered(space: char -> bool, valid: string -> bool, content: string): Result {
    var t := Trim(space, content);
    var spans := Spans(valid, t, 0);
    if t == "" || valid(t) || spans == [] then Ok(t)
    else if |spans| == 1 then if spans[0].lo <= spans[0].hi <= |t| then Ok(t[spans[0].lo..spans[0].hi]) else Ok(t)
    else Ambiguous(|spans|)
  }

  // ----- serialised JSON (sections 4 and 7 of RFC 8259)

  /** A character of a string literal: as it is, or after a backslash. */
  datatype StrChar = Plain(c: char) | Escaped(c: char)

  /** JSON syntax with its white space: `pre` and `post` surround a value. */
  datatype Json =
    | Scalar(text: string)
    | Str(chars: seq<StrChar>)
    | Arr(elems: seq<Spaced>)
    | Obj(members: seq<Member>)

  datatype Spaced = Spaced(pre: string, val: Json, post: string)

  datatype Member = Member(pre: string, key: seq<StrChar>, mid: string, val: Spaced)

  predicate Inert(s: string) {
    forall i :: 0 <= i < |s| ==> s[i] != '{' && s[i] != '}' && s[i] != '"'
  }

  predicate PlainChars(cs: seq<StrChar>) {
    forall i :: 0 <= i < |cs| ==> cs[i].Plain? ==> cs[i].c != '"' && cs[i].c != '\\'
  }

  /** Numbers, words and white space hold no braces or quotes; unescaped string characters are
      neither quotes nor backslashes. */
  predicate WellFormed(j: Json) {
    match j
    case Scalar(text) => Inert(text)
    case Str(cs) => PlainChars(cs)
    case Arr(elems) => forall i ::
                         0 <= i < |elems| ==> Inert(elems[i].pre) && Inert(elems[i].post) && WellFormed(elems[i].val)
    case Obj(members) =>
      forall i :: 0 <= i < |members| ==>
        && Inert(members[i].pre) && PlainChars(members[i].key) && Inert(members[i].mid)
        && Inert(members[i].val.pre) && Inert(members[i].val.post) && WellFormed(members[i].val.val)
  }

  function CharsText(cs: seq<StrChar>): string {
    if cs == [] then "" else (match cs[0] case Plain(c) => [c] case Escaped(c) => ['\\', c]) + CharsText(cs[1..])
  }

  function StrText(cs: seq<StrChar>): string {
    "\"" + CharsText(cs) + "\""
  }

  function Text(j: Json): string
    decreases j, 0
  {
    match j
    case Scalar(text) => text
    case Str(cs) => StrText(cs)
    case Arr(elems) => "[" + (ElemsText(elems) + "]")
    case Obj(members) => "{" + MembersText(members) + "}"
  }

  function SpacedText(v: Spaced): string
    decreases v, 1
  {
    v.pre + Text(v.val) + v.post
  }

  function ElemsText(elems: seq<Spaced>): string
    decreases elems, 2
  {
    if elems == [] then "" else SpacedText(elems[0]) + ((if |elems| > 1 then "," else "") + ElemsText(elems[1..]))
  }

  function MembersText(members: seq<Member>): string
    decreases members, 2
  {
    if members == [] then ""
    else MemberText(members[0]) + ((if |members| > 1 then "," else "") + MembersText(members[1..]))
  }

  function MemberText(m: Member): string
    decreases m, 2
  {
    m.pre + StrText(m.key) + (m.mid + ":" + SpacedText(m.val))
  }

  // ----- the scanner over serialised JSON

  lemma {:induction false} AfterSplit(st: State, a: string, b: string)
    ensures After(st, a + b) == After(After(st, a), b)
    decreases |b|
  {
    if b == "" {
      assert a + b == a;
    } else {
      assert (a + b)[..|a + b| - 1] == a + b[..|b| - 1];
      AfterSplit(st, a, b[..|b| - 1]);
    }
  }

  /** Scanning t outside strings changes nothing in the end, and inside t every brace outside
      strings keeps the depth above the one t starts at. */
  ghost predicate Neutral(t: string) {
    forall d: int :: NeutralAt(t, d)
  }

  ghost predicate NeutralAt(t: string, d: int) {
    var st := State(d, false, false);
    After(st, t) == st && forall k :: 0 <= k <= |t| ==> After(st, t[..k]).depth >= d
  }

  lemma NeutralJoin(a: string, b: string)
    requires Neutral(a) && Neutral(b)
    ensures Neutral(a + b)
  {
    forall d: int ensures NeutralAt(a + b, d) {
      var st := State(d, false, false);
      assert NeutralAt(a, d) && NeutralAt(b, d);
      AfterSplit(st, a, b);
      forall k | 0 <= k <= |a + b| ensures After(st, (a + b)[..k]).depth >= d {
        if k <= |a| {
          assert (a + b)[..k] == a[..k];
        } else {
          assert (a + b)[..k] == a + b[..k - |a|];
          AfterSplit(st, a, b[..k - |a|]);
        }
      }
    }
  }

  lemma {:induction false} InertNeutral(s: string)
    requires Inert(s)
    ensures Neutral(s)
    decreases |s|
  {
    forall d: int ensures NeutralAt(s, d) { InertAt(s, d); }
  }

  lemma {:induction false} InertAt(s: string, d: int)
    requires Inert(s)
    ensures NeutralAt(s, d)
    decreases |s|
  {
    if s != "" {
      var t := s[..|s| - 1];
      InertAt(t, d);
      forall k | 0 <= k <= |s| ensures After(State(d, false, false), s[..k]).depth >= d {
        if k < |s| { assert s[..k] == t[..k]; } else { assert s[..k] == s; }
      }
    }
  }

  lemma {:induction false} CharsStayInside(cs: seq<StrChar>, d: int)
    requires PlainChars(cs)
    ensures var st := State(d, true, false);
            && After(st, CharsText(cs)) == st
            && forall k :: 0 <= k <= |CharsText(cs)| ==> After(st, CharsText(cs)[..k]).depth == d
    decreases |cs|
  {
    var st := State(d, true, false);
    if cs != [] {
      var head := match cs[0] case Plain(c) => [c] case Escaped(c) => ['\\', c];
      var tail := CharsText(cs[1..]);
      CharsStayInside(cs[1..], d);
      HeadStays(cs[0], d);
      AfterSplit(st, head, tail);
      forall k | 0 <= k <= |head + tail| ensures After(st, (head + tail)[..k]).depth == d {
        if k <= |head| {
          assert (head + tail)[..k] == head[..k];
        } else {
          assert (head + tail)[..k] == head + tail[..k - |head|];
          AfterSplit(st, head, tail[..k - |head|]);
        }
      }
    }
  }

  lemma HeadStays(c: StrChar, d: int)
    requires c.Plain? ==> c.c != '"' && c.c != '\\'
    ensures var st := State(d, true, false);
            var head := match c case Plain(x) => [x] case Escaped(x) => ['\\', x];
            After(st, head) == st && forall k :: 0 <= k <= |head| ==> After(st, head[..k]).depth == d
  {
    var st := State(d, true, false);
    match c
    case Plain(x) =>
      assert [x][..0] == "" && [x][..1] == [x];
      assert After(st, [x]) == Step(After(st, ""), x);
    case Escaped(x) =>
      var h := ['\\', x];
      assert h[..0] == "" && h[..1] == ['\\'] && h[..2] == h && ['\\'][..0] == "";
      assert After(st, ['\\']) == Step(After(st, ""), '\\');
      assert After(st, h) == Step(After(st, ['\\']), x);
  }

  lemma StringNeutral(cs: seq<StrChar>)
    requires PlainChars(cs)
    ensures Neutral(StrText(cs))
  {
    forall d: int ensures NeutralAt(StrText(cs), d) {
      var st, inside, body := State(d, false, false), State(d, true, false), CharsText(cs);
      var s := StrText(cs);
      CharsStayInside(cs, d);
      assert After(st, "\"") == Step(After(st, ""), '"') == inside by { assert "\""[..0] == ""; }
      assert s == ("\"" + body) + "\"";
      AfterSplit(st, "\"", body);
      assert s[..|s| - 1] == "\"" + body;
      forall k | 0 <= k <= |s| ensures After(st, s[..k]).depth >= d {
        if 1 <= k < |s| {
          assert s[..k] == "\"" + body[..k - 1];
          AfterSplit(st, "\"", body[..k - 1]);
        } else if k == 0 {
          assert s[..k] == "";
        } else {
          assert s[..k] == s;
        }
      }
    }
  }

  /** Inside an object the depth is one up, so its closing brace is the first to come back down. */
  lemma ObjectScan(body: string, d: int)
    requires Neutral(body)
    ensures var st := State(d, false, false);
            var s := "{" + body + "}";
            After(st, s) == st && forall k :: 1 <= k < |s| ==> After(st, s[..k]).depth >= d + 1
    ensures !After(State(d, false, false), "{" + body).inStr
  {
    var st, up, s := State(d, false, false), State(d + 1, false, false), "{" + body + "}";
    assert NeutralAt(body, d + 1);
    assert After(st, "{") == up by { assert "{"[..0] == ""; assert After(st, "{") == Step(After(st, ""), '{'); }
    AfterSplit(st, "{", body);
    assert s[..|s| - 1] == "{" + body;
    forall k | 1 <= k < |s| ensures After(st, s[..k]).depth >= d + 1 {
      assert s[..k] == "{" + body[..k - 1];
      AfterSplit(st, "{", body[..k - 1]);
    }
  }

  lemma ObjectNeutral(body: string)
    requires Neutral(body)
    ensures Neutral("{" + body + "}")
  {
    var s := "{" + body + "}";
    forall d: int ensures NeutralAt(s, d) {
      ObjectScan(body, d);
      assert s[..0] == "" && s[..|s|] == s;
    }
  }

  lemma {:induction false} JsonNeutral(j: Json)
    requires WellFormed(j)
    ensures Neutral(Text(j))
    decreases j, 0
  {
    hide Neutral;
    match j
    case Scalar(text) => InertNeutral(text);
    case Str(cs) => StringNeutral(cs);
    case Arr(elems) =>
      ElemsNeutral(elems);
      InertNeutral("[");
      InertNeutral("]");
      NeutralJoin(ElemsText(elems), "]");
      NeutralJoin("[", ElemsText(elems) + "]");
    case Obj(members) =>
      MembersNeutral(members);
      ObjectNeutral(MembersText(members));
  }

  lemma {:induction false} SpacedNeutral(v: Spaced)
    requires Inert(v.pre) && Inert(v.post) && WellFormed(v.val)
    ensures Neutral(SpacedText(v))
    decreases v, 1
  {
    hide Neutral;
    InertNeutral(v.pre);
    JsonNeutral(v.val);
    InertNeutral(v.post);
    NeutralJoin(v.pre, Text(v.val));
    NeutralJoin(v.pre + Text(v.val), v.post);
  }

  lemma {:induction false} ElemsNeutral(elems: seq<Spaced>)
    requires forall i :: 0 <= i < |elems| ==> Inert(elems[i].pre) && Inert(elems[i].post) && WellFormed(elems[i].val)
    ensures Neutral(ElemsText(elems))
    decreases elems, 2
  {
    hide Neutral;
    if elems == [] {
      InertNeutral("");
    } else {
      var sep := if |elems| > 1 then "," else "";
      SpacedNeutral(elems[0]);
      ElemsNeutral(elems[1..]);
      InertNeutral(sep);
      NeutralJoin(sep, ElemsText(elems[1..]));
      NeutralJoin(SpacedText(elems[0]), sep + ElemsText(elems[1..]));
    }
  }

  lemma {:induction false} MembersNeutral(members: seq<Member>)
    requires WellFormed(Json.Obj(members))
    ensures Neutral(MembersText(members))
    decreases members, 2
  {
    hide Neutral;
    if members == [] {
      InertNeutral("");
    } else {
      var m, sep := members[0], if |members| > 1 then "," else "";
      MemberNeutral(m);
      MembersNeutral(members[1..]);
      InertNeutral(sep);
      NeutralJoin(sep, MembersText(members[1..]));
      NeutralJoin(MemberText(m), sep + MembersText(members[1..]));
    }
  }

  lemma {:induction false} MemberNeutral(m: Member)
    requires Inert(m.pre) && PlainChars(m.key) && Inert(m.mid) && Inert(m.val.pre) && Inert(m.val.post)
             && WellFormed(m.val.val)
    ensures Neutral(MemberText(m))
    decreases m, 3
  {
    hide Neutral;
    InertNeutral(m.pre);
    StringNeutral(m.key);
    InertNeutral(m.mid);
    InertNeutral(":");
    SpacedNeutral(m.val);
    NeutralJoin(m.pre, StrText(m.key));
    NeutralJoin(m.mid, ":");
    NeutralJoin(m.mid + ":", SpacedText(m.val));
    NeutralJoin(m.pre + StrText(m.key), m.mid + ":" + SpacedText(m.val));
  }

  /** Whatever follows, the shortest balanced prefix of an object's text is that text. */
  lemma ObjectIsFirst(body: string, rest: string)
    requires Neutral(body)
    ensures First("{" + body + "}" + rest, 0) == Some(|body| + 2)
  {
    var o := "{" + body + "}";
    var s := o + rest;
    var n := |o|;
    ObjectScan(body, 0);
    assert s[..n] == o && s[..n - 1] == "{" + body && s[n - 1] == '}';
    assert Closes(s, n);
    forall m | 0 <= m < n ensures !Closes(s, m) {
      if m >= 1 {
        assert s[..m] == o[..m];
        assert After(START, o[..m]).depth >= 1;
      }
    }
    FirstIs(s, 0, Some(n));
  }

  // ----- exact recovery

  lemma {:induction false} SkipPlain(valid: string -> bool, p: string, s: string, i: nat)
    requires i <= |p| && '{' !in p
    ensures Spans(valid, p + s, i) == Spans(valid, p + s, |p|)
    decreases |p| - i
  {
    if i < |p| {
      assert (p + s)[i] == p[i] && p[i] in p;
      SkipPlain(valid, p, s, i + 1);
    }
  }

  lemma {:induction false} NoneAfter(valid: string -> bool, s: string, i: nat)
    requires i <= |s| && '{' !in s[i..]
    ensures Spans(valid, s, i) == []
    decreases |s| - i
  {
    if i < |s| {
      assert s[i] == s[i..][0] && s[i] in s[i..];
      assert s[i + 1..] == s[i..][1..];
      NoneAfter(valid, s, i + 1);
    }
  }

  lemma {:induction false} TrimLeftStops(space: char -> bool, p: string, s: string)
    requires s != "" && !space(s[0])
    ensures TrimLeft(space, p + s) == TrimLeft(space, p) + s
    decreases |p|
  {
    if p == "" {
      assert p + s == s;
    } else if space(p[0]) {
      assert (p + s)[1..] == p[1..] + s;
      TrimLeftStops(space, p[1..], s);
    }
  }

  lemma {:induction false} TrimRightStops(space: char -> bool, s: string, q: string)
    requires s != "" && !space(s[|s| - 1])
    ensures TrimRight(space, s + q) == s + TrimRight(space, q)
    decreases |q|
  {
    if q == "" {
      assert s + q == s;
    } else if space(q[|q| - 1]) {
      assert (s + q)[..|s + q| - 1] == s + q[..|q| - 1];
      TrimRightStops(space, s, q[..|q| - 1]);
    } else {
      assert (s + q)[|s + q| - 1] == q[|q| - 1];
    }
  }

  lemma {:induction false} TrimmedSubset(space: char -> bool, s: string)
    requires '{' !in s
    ensures '{' !in TrimLeft(space, s) && '{' !in TrimRight(space, s)
    decreases |s|
  {
    if s != "" {
      assert '{' !in s[1..] && '{' !in s[..|s| - 1];
      TrimmedSubset(space, s[1..]);
      TrimmedSubset(space, s[..|s| - 1]);
    }
  }

  /** For any serialised JSON object between texts without an opening brace, recovery returns
      exactly that object, whatever braces, quotes and escapes its strings hold. */
  lemma RecoveryIsExact(space: char -> bool, valid: string -> bool, p: string, o: Json, q: string)
    requires o.Obj? && WellFormed(o) && valid(Text(o)) && '{' !in p && '{' !in q
    requires !space('{') && !space('}')
    requires !valid(Trim(space, p + Text(o) + q))
    ensures Recovered(space, valid, p + Text(o) + q) == Ok(Text(o))
  {
    hide Spans, Neutral, WellFormed, MembersText, Trim, TrimLeft, TrimRight;
    var body, t := MembersText(o.members), Text(o);
    var l, r := TrimLeft(space, p), TrimRight(space, q);
    assert t == "{" + body + "}";
    TrimAround(space, p, t, q);
    TrimmedSubset(space, p);
    TrimmedSubset(space, q);
    MembersNeutralOf(o);
    OneSpan(valid, l, body, r);
    assert (l + (t + r))[|l|..|l| + |t|] == t;
  }

  lemma TrimAround(space: char -> bool, p: string, t: string, q: string)
    requires t != "" && !space(t[0]) && !space(t[|t| - 1])
    ensures Trim(space, p + t + q) == TrimLeft(space, p) + (t + TrimRight(space, q))
  {
    hide TrimLeft, TrimRight;
    var l, r := TrimLeft(space, p), TrimRight(space, q);
    Glue(p, t, q);
    assert (t + q)[0] == t[0];
    TrimLeftStops(space, p, t + q);
    Glue(l, t, q);
    assert (l + t)[|l + t| - 1] == t[|t| - 1];
    TrimRightStops(space, l + t, q);
    Glue(l, t, r);
  }

  lemma Pieces(l: string, t: string, r: string)
    ensures var s := l + (t + r); s[|l|..] == t + r && s[|l|..|l| + |t|] == t && s[|l| + |t|..] == r
  {
  }

  lemma SpanHere(valid: string -> bool, s: string, i: nat, n: nat)
    requires 0 < n && i + n <= |s| && s[i] == '{' && First(s[i..], 0) == Some(n) && valid(s[i..i + n])
             && '{' !in s[i + n..]
    ensures Spans(valid, s, i) == [Span(i, i + n)]
  {
    hide First;
    NoneAfter(valid, s, i + n);
  }

  lemma OneSpan(valid: string -> bool, l: string, body: string, r: string)
    requires '{' !in l && '{' !in r && Neutral(body) && valid("{" + body + "}")
    ensures var t := "{" + body + "}"; Spans(valid, l + (t + r), 0) == [Span(|l|, |l| + |t|)]
  {
    hide First, Neutral, Spans;
    var t := "{" + body + "}";
    var s := l + (t + r);
    SkipPlain(valid, l, t + r, 0);
    Pieces(l, t, r);
    assert s[|l|] == (t + r)[0] == '{';
    ObjectIsFirst(body, r);
    SpanHere(valid, s, |l|, |t|);
  }

  lemma MembersNeutralOf(o: Json)
    requires o.Obj? && WellFormed(o)
    ensures Neutral(MembersText(o.members))
  {
    MembersNeutral(o.members);
  }

  /** Otherwise recovery never guesses: what it returns is the trimmed text itself, or the only
      valid balanced span in it; two or more are reported. */
  lemma RecoveryNeverGuesses(space: char -> bool, valid: string -> bool, content: string)
    ensures var t := Trim(space, content);
            var spans := Spans(valid, t, 0);
            match Recovered(space, valid, content)
            case Ambiguous(n) => n >= 2 && n == |spans| && !valid(t)
            case Ok(text) => text == t || (|spans| == 1 && IsObjectSpan(t, spans[0])
                                           && text == t[spans[0].lo..spans[0].hi] && valid(text))
  {
    SpansAreDisjoint(valid, Trim(space, content), 0);
  }
}
