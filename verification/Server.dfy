/** The gateway's handlers: what one request does to the response, the metrics and the audit log. */
module Server {
  import opened Bytes
  import opened Wrappers
  import opened Errors
  import opened LineDecoder
  import opened Sse
  import opened Streaming
  import Audit
  import AskRuns
  import RateLimit

  /** A problem+json document. */
  datatype Problem = Problem(status: int, title: string, detail: string)

  /**
   The response as its handler sees it. The connection may break for good after `limit` bytes of frames;
   `sent` is every frame byte that the handler wanted to send, and `events` the events that it framed. A
   problem document is kept beside them, and a JSON answer is what the handler returns.
  */
  class ResponseWriter {
    const limit: Option<nat>
    var code: Option<int>
    var problem: Option<Problem>
    var wire: bytes
    ghost var sent: bytes
    ghost var events: seq<Event>

    ghost predicate Valid()
      reads this
    {
      wire == Delivered(sent, limit)
    }

    /** Nothing has been written yet. */
    ghost predicate Fresh()
      reads this
    {
      code.None? && problem.None? && wire == [] && sent == [] && events == []
    }

    /** The body is the frames of the events and nothing else. */
    ghost predicate Framed(encode: Encoder)
      reads this
    {
      Valid() && sent == Wire(ToFrames(encode, events))
    }

    /** The client, parsing what arrived, gets every frame, or those that arrived whole before the break. */
    ghost predicate Received(encode: Encoder)
      reads this
    {
      var frames := ToFrames(encode, events);
      OneLine(encode) ==> Parse(wire) == if limit.None? then frames else frames[..Whole(frames, limit.value)]
    }

    constructor (limit: Option<nat>)
      ensures Valid() && Fresh() && this.limit == limit
    {
      this.limit := limit;
      code, problem, wire, sent, events := None, None, [], [], [];
    }

    method WriteHeader(status: int)
      modifies this`code
      ensures code == if old(code).None? then Some(status) else old(code)
    {
      if code.None? {
        code := Some(status);
      }
    }

    method Write(bs: bytes) returns (ok: bool)
      requires Valid()
      modifies this`wire, this`sent
      ensures Valid() && sent == old(sent) + bs
      ensures !ok ==> limit.Some? && limit.value < |sent|
    {
      ok := limit.None? || |wire| + |bs| <= limit.value;
      wire := wire + if ok then bs else bs[..if |wire| < limit.value then limit.value - |wire| else 0];
      sent := sent + bs;
    }

    /** What a broken connection never gets makes no difference to what it got. */
    ghost method Abandon(bs: bytes)
      requires Valid() && limit.Some? && limit.value < |sent|
      modifies this`sent
      ensures Valid() && sent == old(sent) + bs
    {
      sent := sent + bs;
    }

    method WriteProblem(p: Problem)
      requires code.None?
      modifies this`code, this`problem
      ensures code == Some(p.status) && problem == Some(p)
    {
      WriteHeader(p.status);
      problem := Some(p);
    }
  }

  lemma FramesReceived(w: ResponseWriter, encode: Encoder)
    requires w.Framed(encode)
    ensures w.Received(encode)
  {
    if OneLine(encode) {
      FramesWellFormed(encode, w.events);
      RoundTrip(ToFrames(encode, w.events), w.limit);
    }
  }

  /** One frame in three writes; the first that fails abandons it. */
  method WriteSSE(w: ResponseWriter, encode: Encoder, e: Event)
    requires w.Valid()
    modifies w`wire, w`sent
    ensures w.Valid() && w.sent == old(w.sent) + FrameBytes(ToFrame(encode, e))
  {
    ghost var before := w.sent;
    var payload := encode(e);
    var ok := w.Write(Head(Kind(e)));
    if !ok {
      w.Abandon((payload + [LF]) + [LF]);
      assert w.sent == before + FrameBytes(ToFrame(encode, e));
      return;
    }
    ok := w.Write(payload + [LF]);
    if !ok {
      w.Abandon([LF]);
      assert w.sent == before + FrameBytes(ToFrame(encode, e));
      return;
    }
    ok := w.Write([LF]);
    assert w.sent == before + FrameBytes(ToFrame(encode, e));
  }

  /** The response to a bridge failure, for every error chain: its status and title are the ones other reports use. */
  method MapBridgeError(w: ResponseWriter, err: Error)
    requires w.code.None?
    modifies w`code, w`problem
    ensures w.code == Some(BridgeErrorStatus(err)) && w.problem.Some?
    ensures w.problem.value.status == BridgeErrorStatus(err)
    ensures w.problem.value.title == ProblemTitleFor(BridgeErrorStatus(err))
  {
    var b := AsBridge(err);
    if b.Some? {
      if b.value.status == 0 {
        w.WriteProblem(Problem(502, "Bad Gateway", "upstream bridge is unreachable"));
        return;
      }
      if b.value.status == 404 {
        w.WriteProblem(Problem(502, "Bad Gateway", "requested upstream resource not found"));
      } else if b.value.status == 503 {
        w.WriteProblem(Problem(503, "Service Unavailable", "upstream bridge is not ready"));
      } else {
        w.WriteProblem(Problem(502, "Bad Gateway", "upstream bridge returned an error"));
      }
      return;
    }
    w.WriteProblem(Problem(502, "Bad Gateway", "upstream bridge returned an error"));
  }

  lemma {:induction false} WireAppend(encode: Encoder, es: seq<Event>, more: seq<Event>)
    ensures Wire(ToFrames(encode, es + more)) == Wire(ToFrames(encode, es)) + Wire(ToFrames(encode, more))
  {
    if es == [] {
      assert es + more == more;
    } else {
      var rest := es[1..];
      assert (es + more)[1..] == rest + more;
      assert ToFrames(encode, es + more)[1..] == ToFrames(encode, rest + more);
      assert ToFrames(encode, es)[1..] == ToFrames(encode, rest);
      WireAppend(encode, rest, more);
    }
  }

  lemma WireOne(encode: Encoder, e: Event)
    ensures Wire(ToFrames(encode, [e])) == FrameBytes(ToFrame(encode, e))
  {
    assert ToFrames(encode, [e]) == [ToFrame(encode, e)];
    assert [ToFrame(encode, e)][1..] == [];
  }

  /** Sends one event after the events already sent. */
  method Emit(w: ResponseWriter, encode: Encoder, e: Event)
    requires w.Framed(encode)
    modifies w`wire, w`sent, w`events
    ensures w.Framed(encode) && w.events == old(w.events) + [e]
  {
    WriteSSE(w, encode, e);
    WireAppend(encode, w.events, [e]);
    WireOne(encode, e);
    w.events := w.events + [e];
  }

  /** The writes of one chunk. */
  method EmitChunk(w: ResponseWriter, encode: Encoder, c: Chunk)
    requires w.Framed(encode)
    modifies w`wire, w`sent, w`events
    ensures w.Framed(encode) && w.events == old(w.events) + ChunkEvents(c)
  {
    ghost var before, a := w.events, [];
    if c.thinking != "" {
      Emit(w, encode, Thinking(c.thinking));
      a := [Thinking(c.thinking)];
    }
    assert w.events == before + a;
    EmitToolCalls(w, encode, c.message.toolCalls);
    ghost var d := [];
    if c.message.role == "tool" && c.message.content != "" {
      Emit(w, encode, ToolResult(c.message.content));
      d := [ToolResult(c.message.content)];
    }
    if c.message.role != "tool" && c.message.content != "" {
      Emit(w, encode, Token(c.message.content));
      d := [Token(c.message.content)];
    }
    Regroup(before, a, ToolCalls(c.message.toolCalls), d);
  }

  lemma Regroup<T>(s: seq<T>, a: seq<T>, b: seq<T>, d: seq<T>)
    ensures ((s + a) + b) + d == s + ((a + b) + d)
    ensures (s + a) + b == ((s + a) + b) + []
  {
  }

  method EmitToolCalls(w: ResponseWriter, encode: Encoder, calls: seq<ToolCall>)
    requires w.Framed(encode)
    modifies w`wire, w`sent, w`events
    ensures w.Framed(encode) && w.events == old(w.events) + ToolCalls(calls)
  {
    for i := 0 to |calls|
      invariant w.Framed(encode) && w.events == old(w.events) + ToolCalls(calls[..i])
    {
      Emit(w, encode, ToolCalled(calls[i]));
      assert ToolCalls(calls[..i + 1]) == ToolCalls(calls[..i]) + [ToolCalled(calls[i])];
    }
    assert calls[..|calls|] == calls;
  }

  // ---------------------------------------------------------------- metrics

  const MAX_TOOL_NAME_LABEL_LEN: nat := 64

  const INVALID_LABEL: string := "_invalid"

  predicate LabelChar(c: char) {
    'A' <= c <= 'Z' || 'a' <= c <= 'z' || '0' <= c <= '9' || c == '_' || c == '.' || c == '-'
  }

  function SanitizeToolNameLabel(name: string): (tag: string)
    ensures 0 < |tag| <= 64
    ensures forall c :: c in tag ==>
      'A' <= c <= 'Z' || 'a' <= c <= 'z' || '0' <= c <= '9' || c in ['_', '.', '-']
    ensures tag == name || tag == "_invalid"
    ensures tag == "_invalid" && name != "_invalid" ==>
      || name == "" || |name| > 64
      || exists c :: c in name && !('A' <= c <= 'Z' || 'a' <= c <= 'z' || '0' <= c <= '9' || c in ['_', '.', '-'])
  {
    if name == "" || |name| > MAX_TOOL_NAME_LABEL_LEN || exists c :: c in name && !LabelChar(c) then INVALID_LABEL
    else name
  }

  type Counter<K> = map<K, int>

  function Get<K>(m: Counter<K>, key: K): int {
    if key in m then m[key] else 0
  }

  function Bump<K(!new)>(m: Counter<K>, key: K, amount: int): (m': Counter<K>)
    ensures forall k :: Get(m', k) == Get(m, k) + if k == key then amount else 0
  {
    m[key := Get(m, key) + amount]
  }

  /** How often a label occurs among tool calls. */
  function Occurrences(tools: seq<ToolCall>, tag: string): nat {
    if tools == [] then 0
    else (if SanitizeToolNameLabel(tools[0].name) == tag then 1 else 0) + Occurrences(tools[1..], tag)
  }

  lemma {:induction false} OccurrencesAppend(tools: seq<ToolCall>, t: ToolCall, tag: string)
    ensures Occurrences(tools + [t], tag)
         == Occurrences(tools, tag) + if SanitizeToolNameLabel(t.name) == tag then 1 else 0
  {
    if tools == [] {
      assert [t][1..] == [];
    } else {
      assert (tools + [t])[1..] == tools[1..] + [t];
      OccurrencesAppend(tools[1..], t, tag);
    }
  }

  /** The labels that can occur. */
  function Tags(tools: seq<ToolCall>): set<string> {
    set t | t in tools :: SanitizeToolNameLabel(t.name)
  }

  function SumOver(tools: seq<ToolCall>, tags: seq<string>): nat {
    if tags == [] then 0 else Occurrences(tools, tags[0]) + SumOver(tools, tags[1..])
  }

  lemma {:induction false} SumOverCons(t: ToolCall, rest: seq<ToolCall>, tags: seq<string>)
    requires forall i, j :: 0 <= i < j < |tags| ==> tags[i] != tags[j]
    ensures SumOver([t] + rest, tags)
         == SumOver(rest, tags) + if SanitizeToolNameLabel(t.name) in tags then 1 else 0
  {
    assert ([t] + rest)[1..] == rest;
    if tags != [] {
      SumOverCons(t, rest, tags[1..]);
    }
  }

  /** Counting one more call. */
  lemma OneMoreCall(m: Counter<string>, start: Counter<string>, tools: seq<ToolCall>, t: ToolCall)
    requires forall tag :: Get(m, tag) == Get(start, tag) + Occurrences(tools, tag)
    requires m.Keys == start.Keys + Tags(tools)
    ensures
      var m' := Bump(m, SanitizeToolNameLabel(t.name), 1);
      && (forall tag :: Get(m', tag) == Get(start, tag) + Occurrences(tools + [t], tag))
      && m'.Keys == start.Keys + Tags(tools + [t])
  {
    forall tag {
      OccurrencesAppend(tools, t, tag);
    }
  }

  /** Over any list of distinct labels that covers them, the increments sum to the number of tool calls. */
  lemma {:induction false} IncrementsSum(tools: seq<ToolCall>, tags: seq<string>)
    requires forall i, j :: 0 <= i < j < |tags| ==> tags[i] != tags[j]
    requires forall t :: t in tools ==> SanitizeToolNameLabel(t.name) in tags
    ensures SumOver(tools, tags) == |tools|
  {
    if tools == [] {
      SumOverNone(tags);
    } else {
      assert tools == [tools[0]] + tools[1..];
      SumOverCons(tools[0], tools[1..], tags);
      IncrementsSum(tools[1..], tags);
    }
  }

  lemma {:induction false} SumOverNone(tags: seq<string>)
    ensures SumOver([], tags) == 0
  {
    if tags != [] {
      SumOverNone(tags[1..]);
    }
  }

  /** What the bridge answers to a non-streaming chat. */
  datatype ChatResponse = ChatResponse(
    model: string,
    content: string,
    toolCalls: seq<ToolCall>,
    promptEvalCount: int,
    evalCount: int)

  /** The JSON answer to a non-streaming request. */
  datatype Answer = Answer(
    requestId: string,
    model: string,
    query: string,
    answer: string,
    toolCalls: seq<ToolCall>,
    usage: Usage,
    latencyMs: int)

  function UpstreamKind(err: Error): string {
    var b := AsBridge(err);
    if b.None? then "unknown"
    else if b.value.status == 0 then "transport"
    else if b.value.status >= 500 then "http_5xx"
    else if b.value.status >= 400 then "http_4xx"
    else "http_other"
  }

  /** The kind says whether the chain has a *bridge.Error, and in which range the outermost one's status is. */
  lemma UpstreamKindIs(err: Error)
    ensures UpstreamKind(err) == "unknown" <==> forall k :: 0 <= k < |Chain(err)| ==> !Chain(err)[k].Bridge?
    ensures forall k: nat :: FirstBridge(err, k) ==>
      var status := Chain(err)[k].status;
      && (UpstreamKind(err) == "transport" <==> status == 0)
      && (UpstreamKind(err) == "http_5xx" <==> 500 <= status)
      && (UpstreamKind(err) == "http_4xx" <==> 400 <= status < 500)
      && (UpstreamKind(err) == "http_other" <==> status < 400 && status != 0)
    ensures BridgeErrorStatus(err) == 503 ==> UpstreamKind(err) == "http_5xx"
  {
    AsBridgeIsFirst(err);
    KindsDiffer();
  }

  lemma KindsDiffer()
    ensures |"unknown"| == |"http_5xx"| - 1 == |"http_4xx"| - 1 == |"transport"| - 2 == |"http_other"| - 3
    ensures "http_5xx" != "http_4xx"
  {
    assert "http_5xx"[5] != "http_4xx"[5];
  }

  /** A stream that breaks, or that the decoder gives up, is a transport error and a 502. */
  lemma StreamFailureIs(cause: Error)
    ensures UpstreamKind(Wrap(cause)) == "transport" && BridgeErrorStatus(Wrap(cause)) == 502
  {
  }

  function Positive(n: int): nat {
    if n > 0 then n else 0
  }

  /** The token counter after one observation: only positive counts are recorded. */
  function TokensObserved(m: Counter<(string, string)>, model: string, u: Usage): Counter<(string, string)> {
    var m1 := if u.promptTokens > 0 then Bump(m, (model, "prompt"), u.promptTokens) else m;
    if u.completionTokens > 0 then Bump(m1, (model, "completion"), u.completionTokens) else m1
  }

  /** What one observation adds to a cell. */
  function TokensFor(model: string, u: Usage, key: (string, string)): nat {
    if key == (model, "prompt") then Positive(u.promptTokens)
    else if key == (model, "completion") then Positive(u.completionTokens)
    else 0
  }

  lemma TokensObservedAt(m: Counter<(string, string)>, model: string, u: Usage, key: (string, string))
    ensures Get(TokensObserved(m, model, u), key) == Get(m, key) + TokensFor(model, u, key)
    ensures key in TokensObserved(m, model, u) <==> key in m || TokensFor(model, u, key) > 0
  {
    assert "prompt"[0] != "completion"[0];
  }

  /** What a sequence of observations adds to a cell. */
  function TokensSum(seen: seq<(string, Usage)>, key: (string, string)): nat {
    if seen == [] then 0 else TokensFor(seen[0].0, seen[0].1, key) + TokensSum(seen[1..], key)
  }

  function TokensAfter(m: Counter<(string, string)>, seen: seq<(string, Usage)>): Counter<(string, string)>
    decreases |seen|
  {
    if seen == [] then m else TokensAfter(TokensObserved(m, seen[0].0, seen[0].1), seen[1..])
  }

  /**
   Over any sequence of requests every cell is the sum of the positive counts reported for its model and
   kind, never falls, and exists only once such a count has been reported.
  */
  lemma {:induction false} TokensAccumulate(m: Counter<(string, string)>, seen: seq<(string, Usage)>, key: (string, string))
    ensures Get(TokensAfter(m, seen), key) == Get(m, key) + TokensSum(seen, key)
    ensures key in TokensAfter(m, seen) <==> key in m || TokensSum(seen, key) > 0
    decreases |seen|
  {
    if seen != [] {
      TokensObservedAt(m, seen[0].0, seen[0].1, key);
      TokensAccumulate(TokensObserved(m, seen[0].0, seen[0].1), seen[1..], key);
    }
  }

  /** What a handler leaves behind besides its response: calls made, metrics, audit log. */
  datatype Ledger = Ledger(
    bridgeCalls: nat,
    toolCalls: Counter<string>,
    modelTokens: Counter<(string, string)>,
    upstreamErrors: Counter<(string, string)>,
    sink: bytes)

  predicate SameNames(uses: seq<Audit.ToolUse>, tools: seq<ToolCall>) {
    |uses| == |tools| && forall i :: 0 <= i < |tools| ==> uses[i].name == tools[i].name
  }

  /** The decoded body of the stream that the bridge opened, if it opened one. */
  ghost function Opened(stream: ChatStream?): Option<Decoded>
    requires stream != null ==> stream.Valid()
    reads if stream == null then {} else {stream, stream.reader, stream.body}
  {
    if stream == null then None else Some(stream.Pending())
  }

  /** The outcome of the bridge call that a finished request has made, if it made one. */
  function ReplyOf(end: AskRuns.Phase): Option<bool> {
    match end
    case Called(ok) => Some(ok)
    case Audited(ok) => Some(ok)
    case Unanswered => Some(false)
    case _ => None
  }

  /** A request like this one, with this verdict of the limiter, can end in this phase. */
  predicate EndsAs(ask: Ask, valid: bool, flusher: bool, verdict: Option<bool>, end: AskRuns.Phase) {
    && AskRuns.Final(end)
    && AskRuns.Consistent(
         AskRuns.Req(AskRuns.Post(ask.caller, valid, ask.stream, flusher), end, verdict, ReplyOf(end)))
  }

  lemma AdmittedEnds(ask: Ask, flusher: bool, end: AskRuns.Phase)
    requires
      if ask.stream then (if flusher then end.Audited? else end.Unflushable?)
      else end.Unanswered? || end == AskRuns.Audited(true)
    ensures EndsAs(ask, true, flusher, Some(true), end) && AskRuns.Contribution(end).rateLimited == 0
  {
  }

  lemma LimitedEnds(ask: Ask, flusher: bool)
    ensures EndsAs(ask, true, flusher, Some(false), AskRuns.Limited)
  {
  }

  class Handlers {
    const limiter: RateLimit.Limiter
    const audit: Audit.Logger
    const encode: Encoder
    const defaultModel: string
    var rateLimited: int
    var toolCalls: Counter<string>
    var modelTokens: Counter<(string, string)>
    var upstreamErrors: Counter<(string, string)>
    ghost var bridgeCalls: nat

    constructor (limiter: RateLimit.Limiter, audit: Audit.Logger, encode: Encoder, defaultModel: string)
      ensures this.limiter == limiter && this.audit == audit && this.encode == encode
      ensures this.defaultModel == defaultModel
      ensures rateLimited == 0 && toolCalls == map[] && modelTokens == map[] && upstreamErrors == map[]
      ensures bridgeCalls == 0
    {
      this.limiter, this.audit, this.encode, this.defaultModel := limiter, audit, encode, defaultModel;
      rateLimited, toolCalls, modelTokens, upstreamErrors, bridgeCalls := 0, map[], map[], map[], 0;
    }

    method ObserveTokens(model: string, usage: Usage)
      modifies this`modelTokens
      ensures forall key :: Get(modelTokens, key) == Get(old(modelTokens), key) + TokensFor(model, usage, key)
      ensures forall key :: key in modelTokens <==> key in old(modelTokens) || TokensFor(model, usage, key) > 0
      ensures modelTokens == TokensObserved(old(modelTokens), model, usage)
    {
      forall key {
        TokensObservedAt(modelTokens, model, usage, key);
      }
      if usage.promptTokens > 0 {
        modelTokens := Bump(modelTokens, (model, "prompt"), usage.promptTokens);
      }
      if usage.completionTokens > 0 {
        modelTokens := Bump(modelTokens, (model, "completion"), usage.completionTokens);
      }
    }

    method ObserveToolCalls(tools: seq<ToolCall>)
      modifies this`toolCalls
      ensures forall tag :: Get(toolCalls, tag) == Get(old(toolCalls), tag) + Occurrences(tools, tag)
      ensures toolCalls.Keys == old(toolCalls).Keys + Tags(tools)
    {
      for i := 0 to |tools|
        invariant forall tag :: Get(toolCalls, tag) == Get(old(toolCalls), tag) + Occurrences(tools[..i], tag)
        invariant toolCalls.Keys == old(toolCalls).Keys + Tags(tools[..i])
      {
        var name := SanitizeToolNameLabel(tools[i].name);
        assert tools[..i + 1] == tools[..i] + [tools[i]];
        OneMoreCall(toolCalls, old(toolCalls), tools[..i], tools[i]);
        toolCalls := Bump(toolCalls, name, 1);
      }
      assert tools[..|tools|] == tools;
    }

    method RecordUpstreamError(op: string, err: Error)
      modifies this`upstreamErrors
      ensures forall key :: Get(upstreamErrors, key)
                         == Get(old(upstreamErrors), key) + if key == (op, UpstreamKind(err)) then 1 else 0
      ensures upstreamErrors == Bump(old(upstreamErrors), (op, UpstreamKind(err)), 1)
    {
      var kind := "unknown";
      var b := AsBridge(err);
      if b.Some? {
        if b.value.status == 0 {
          kind := "transport";
        } else if b.value.status >= 500 {
          kind := "http_5xx";
        } else if b.value.status >= 400 {
          kind := "http_4xx";
        } else {
          kind := "http_other";
        }
      }
      upstreamErrors := Bump(upstreamErrors, (op, kind), 1);
    }
  
    method LogAudit(e: Audit.Event, now: int)
      modifies audit
      ensures audit.sink == old(audit.sink) + Line(e, now)
    {
      audit.Log(e, now);
      assert audit.sink == old(audit.sink) + (audit.marshal(Audit.Redacted(e, audit.logQuery, now)) + [LF]);
    }

    /** The audit line an event becomes. */
    function Line(e: Audit.Event, now: int): bytes {
      audit.marshal(Audit.Redacted(e, audit.logQuery, now)) + [LF]
    }

    /**
     The metrics after a stream, given their values before: a clean finish observes tokens and tools and
     counts no error, a broken one counts one error and observes nothing.
    */
    ghost predicate Observed(d: Decoded, ask: Ask, errors: Counter<(string, string)>,
                             tokens: Counter<(string, string)>, tools: Counter<string>)
      reads this
    {
      if IsEof(d.end) then
        var t := Summary(ask.model, d.chunks, audit.logQuery);
        && upstreamErrors == errors
        && modelTokens == TokensObserved(tokens, t.model, t.usage)
        && forall tag :: Get(toolCalls, tag) == Get(tools, tag) + Occurrences(t.tools, tag)
      else
        && upstreamErrors == Bump(errors, ("chat_stream", UpstreamKind(d.end)), 1)
        && toolCalls == tools && modelTokens == tokens
    }

    /** After an opened stream: one terminal frame, the metrics of a clean finish, and one audit line. */
    method FinishStream(w: ResponseWriter, ask: Ask, nerr: Error, t: Totals, ghost chunks: seq<Chunk>,
                        elapsed: int, now: int)
      requires w.Framed(encode) && w.events == Events(chunks)
      requires t == Summary(ask.model, chunks, audit.logQuery)
      modifies this`upstreamErrors, this`modelTokens, this`toolCalls, audit, w`wire, w`sent, w`events
      ensures w.Framed(encode)
      ensures w.events == StreamEvents(Decoded(chunks, nerr), ask, audit.logQuery, elapsed)
      ensures audit.sink == old(audit.sink)
                            + Line(StreamAudit(Decoded(chunks, nerr), ask, audit.logQuery, elapsed), now)
      ensures Observed(Decoded(chunks, nerr), ask, old(upstreamErrors), old(modelTokens), old(toolCalls))
    {
      if !IsEof(nerr) {
        RecordUpstreamError("chat_stream", nerr);
        var status := BridgeErrorStatus(nerr);
        Emit(w, encode, Failed(ask.requestId, status, ProblemTitleFor(status), "upstream bridge stream failed"));
        LogAudit(Audit.Event(None, ask.requestId, ask.caller, t.model, 0, 0, [], elapsed, status, Audit.Error,
                             ask.query, ""), now);
        return;
      }
      Emit(w, encode, Done(ask.requestId, t.model, t.doneReason, t.usage, t.tools,
                           TruncatedDiv(t.duration, NANOS_PER_MILLI), elapsed));
      CountStream(ask, t, elapsed, now);
    }

    /** The metrics and the audit line of a clean finish. */
    method CountStream(ask: Ask, t: Totals, elapsed: int, now: int)
      modifies this`modelTokens, this`toolCalls, audit
      ensures modelTokens == TokensObserved(old(modelTokens), t.model, t.usage)
      ensures forall tag :: Get(toolCalls, tag) == Get(old(toolCalls), tag) + Occurrences(t.tools, tag)
      ensures audit.sink == old(audit.sink)
                            + Line(Audit.Event(None, ask.requestId, ask.caller, t.model, t.usage.promptTokens,
                                               t.usage.completionTokens, ToAuditToolCalls(t.tools), elapsed, 200,
                                               Audit.Ok, ask.query, t.answer), now)
    {
      ObserveTokens(t.model, t.usage);
      ObserveToolCalls(t.tools);
      var names := AuditToolCalls(t.tools);
      LogAudit(Audit.Event(None, ask.requestId, ask.caller, t.model, t.usage.promptTokens, t.usage.completionTokens,
                           names, elapsed, 200, Audit.Ok, ask.query, t.answer), now);
    }

    /** The bridge refused the stream: a problem document whose status is also the audited one. */
    method RefuseStream(w: ResponseWriter, ask: Ask, refusal: Error, elapsed: int, now: int)
      requires w.code.None?
      modifies this`bridgeCalls, this`upstreamErrors, audit, w`code, w`problem
      ensures bridgeCalls == old(bridgeCalls) + 1
      ensures w.code == Some(BridgeErrorStatus(refusal)) && w.problem.Some?
      ensures w.problem.value.status == RefusalAudit(ask, refusal, elapsed).status
      ensures audit.sink == old(audit.sink) + Line(RefusalAudit(ask, refusal, elapsed), now)
      ensures upstreamErrors == Bump(old(upstreamErrors), ("chat_stream", UpstreamKind(refusal)), 1)
    {
      bridgeCalls := bridgeCalls + 1;
      RecordUpstreamError("chat_stream", refusal);
      MapBridgeError(w, refusal);
      LogAudit(RefusalAudit(ask, refusal, elapsed), now);
    }

    /** The bridge opened the stream: the frames and the audit line are those of its decoded body. */
    method ServeStream(w: ResponseWriter, ask: Ask, stream: ChatStream, elapsed: int, now: int)
      requires w.Fresh() && stream.Valid()
      modifies this`bridgeCalls, this`upstreamErrors, this`modelTokens, this`toolCalls, audit
      modifies w`code, w`wire, w`sent, w`events, stream, stream.reader, stream.body
      ensures bridgeCalls == old(bridgeCalls) + 1
      ensures w.Framed(encode) && w.Received(encode) && w.code == Some(200) && stream.closed
      ensures w.events == StreamEvents(old(stream.Pending()), ask, audit.logQuery, elapsed)
      ensures audit.sink == old(audit.sink)
                            + Line(StreamAudit(old(stream.Pending()), ask, audit.logQuery, elapsed), now)
      ensures Observed(old(stream.Pending()), ask, old(upstreamErrors), old(modelTokens), old(toolCalls))
    {
      bridgeCalls := bridgeCalls + 1;
      w.WriteHeader(200);
      var nerr, t, chunks := CopyChunks(w, ask, stream);
      FinishStream(w, ask, nerr, t, chunks, elapsed, now);
      stream.Close();
      FramesReceived(w, encode);
    }

    ghost function Books(): Ledger
      reads this, audit
    {
      Ledger(bridgeCalls, toolCalls, modelTokens, upstreamErrors, audit.sink)
    }

    /** How a streaming request ends, given the ledger before it. */
    ghost predicate Streamed(w: ResponseWriter, ask: Ask, flusher: bool, body: Option<Decoded>, refusal: Error,
                             elapsed: int, now: int, before: Ledger, end: AskRuns.Phase)
      reads this, audit, w
    {
      if !flusher then
        // a writer that cannot flush: a plain 500, and nothing else happens
        && end == AskRuns.Unflushable && w.code == Some(500) && w.wire == [] && w.events == [] && Books() == before
        && w.problem.Some? && w.problem.value.status == 500 && w.problem.value.title == "Internal Server Error"
      else if body.None? then
        // refused by the bridge
        && end == AskRuns.Audited(false) && w.wire == [] && w.events == [] && w.code == Some(BridgeErrorStatus(refusal))
        && w.problem.Some? && w.problem.value.status == BridgeErrorStatus(refusal)
        && Books() == before.(
             bridgeCalls := before.bridgeCalls + 1,
             upstreamErrors := Bump(before.upstreamErrors, ("chat_stream", UpstreamKind(refusal)), 1),
             sink := before.sink + Line(RefusalAudit(ask, refusal, elapsed), now))
      else
        var d := body.value;
        && end == AskRuns.Audited(IsEof(d.end)) && w.code == Some(200)
        && w.Framed(encode) && w.Received(encode)
        && w.events == StreamEvents(d, ask, audit.logQuery, elapsed)
        && bridgeCalls == before.bridgeCalls + 1
        && audit.sink == before.sink + Line(StreamAudit(d, ask, audit.logQuery, elapsed), now)
        && Observed(d, ask, before.upstreamErrors, before.modelTokens, before.toolCalls)
    }

    /** How a non-streaming request ends, given the ledger before it. */
    ghost predicate Replied(w: ResponseWriter, ask: Ask, reply: Option<ChatResponse>, refusal: Error, elapsed: int,
                            now: int, before: Ledger, answer: Option<Answer>, end: AskRuns.Phase)
      reads this, audit, w
    {
      if reply.None? then
        // a failed call is counted and answered, but not audited
        && end == AskRuns.Unanswered && answer.None? && w.code == Some(BridgeErrorStatus(refusal))
        && Books() == before.(
             bridgeCalls := before.bridgeCalls + 1,
             upstreamErrors := Bump(before.upstreamErrors, ("chat", UpstreamKind(refusal)), 1))
      else
        var r, usage := reply.value, Usage(reply.value.promptEvalCount, reply.value.evalCount);
        && end == AskRuns.Audited(true) && w.code == Some(200)
        && answer == Some(Answer(ask.requestId, r.model, ask.query, r.content, r.toolCalls, usage, elapsed))
        && bridgeCalls == before.bridgeCalls + 1 && upstreamErrors == before.upstreamErrors
        && audit.sink == before.sink + Line(AnswerAudit(ask, r, elapsed), now)
        && modelTokens == TokensObserved(before.modelTokens, r.model, usage)
        && forall tag :: Get(toolCalls, tag) == Get(before.toolCalls, tag) + Occurrences(r.toolCalls, tag)
    }

    /**
     The streaming variant. `stream` is what the bridge opened, or null when it refused with `refusal`;
     `elapsed` and `now` are the clock readings at the end.
    */
    method AskStream(w: ResponseWriter, flusher: bool, ask: Ask, stream: ChatStream?, refusal: Error,
                     elapsed: int, now: int) returns (ghost end: AskRuns.Phase)
      requires w.Fresh()
      requires stream != null ==> stream.Valid() && !stream.closed
      modifies this`bridgeCalls, this`upstreamErrors, this`modelTokens, this`toolCalls, audit
      modifies w`code, w`problem, w`wire, w`sent, w`events
      modifies if stream == null then {} else {stream, stream.reader, stream.body}
      ensures Streamed(w, ask, flusher, old(Opened(stream)), refusal, elapsed, now, old(Books()), end)
    {
      if !flusher {
        w.WriteProblem(Problem(500, ProblemTitleFor(500), "streaming is not supported by the response writer"));
        return AskRuns.Unflushable;
      }
      if stream == null {
        RefuseStream(w, ask, refusal, elapsed, now);
        return AskRuns.Audited(false);
      }
      ghost var d := stream.Pending();
      ServeStream(w, ask, stream, elapsed, now);
      return AskRuns.Audited(IsEof(d.end));
    }

    /** The non-streaming variant; `reply` is the bridge's answer, or None when it failed with `refusal`. */
    method AskPlain(w: ResponseWriter, ask: Ask, reply: Option<ChatResponse>, refusal: Error,
                    elapsed: int, now: int) returns (answer: Option<Answer>, ghost end: AskRuns.Phase)
      requires w.code.None?
      modifies this`bridgeCalls, this`upstreamErrors, this`modelTokens, this`toolCalls, audit, w`code, w`problem
      ensures Replied(w, ask, reply, refusal, elapsed, now, old(Books()), answer, end)
    {
      bridgeCalls := bridgeCalls + 1;
      if reply.None? {
        RecordUpstreamError("chat", refusal);
        MapBridgeError(w, refusal);
        return None, AskRuns.Unanswered;
      }
      var r := reply.value;
      var usage := Usage(r.promptEvalCount, r.evalCount);
      ObserveTokens(r.model, usage);
      ObserveToolCalls(r.toolCalls);
      var names := AuditToolCalls(r.toolCalls);
      LogAudit(Audit.Event(None, ask.requestId, ask.caller, r.model, r.promptEvalCount, r.evalCount, names, elapsed,
                           200, Audit.Ok, ask.query, r.content), now);
      w.WriteHeader(200);
      return Some(Answer(ask.requestId, r.model, ask.query, r.content, r.toolCalls, usage, elapsed)),
             AskRuns.Audited(true);
    }

    /** The status that the client has been given: that of an error frame, or else that of the response. */
    ghost function Given(w: ResponseWriter): Option<int>
      reads w
    {
      if w.events != [] && w.events[|w.events| - 1].Failed? then Some(w.events[|w.events| - 1].status) else w.code
    }

    /** The audit event says whose request it was, how it ended and what the client was told. */
    ghost predicate Describes(e: Audit.Event, ask: Ask, elapsed: int, w: ResponseWriter, answer: Option<Answer>,
                              end: AskRuns.Phase)
      reads this, audit, w
    {
      && (e.requestId, e.caller, e.query) == (ask.requestId, ask.caller, ask.query)
      && e.timestamp.None? && Given(w) == Some(e.status)
      && (end.Limited? ==>
           e.outcome == Audit.RateLimited && e.status == 429 && e.model == ask.model && e.latencyMs == 0)
      && (end.Audited? ==> e.latencyMs == elapsed)
      && (if end == AskRuns.Audited(true)
          then e.outcome == Audit.Ok && e.status == 200 && if answer.Some? then TellsAnswer(e, answer.value) else TellsStream(e, w)
          else e.outcome != Audit.Ok && (e.promptTokens, e.completionTokens, e.toolCalls, e.answer) == (0, 0, [], ""))
      && (end == AskRuns.Audited(false) ==> e.outcome == Audit.Error && (w.events == [] ==> e.model == ask.model))
    }

    /** The event has the model, usage, tool names and text of the JSON answer. */
    ghost predicate TellsAnswer(e: Audit.Event, a: Answer) {
      && e.model == a.model && e.answer == a.answer
      && Usage(e.promptTokens, e.completionTokens) == a.usage
      && SameNames(e.toolCalls, a.toolCalls)
    }

    /** The event has the model, usage and tool names of the done frame, and the text of the tokens if that is logged. */
    ghost predicate TellsStream(e: Audit.Event, w: ResponseWriter)
      reads w
    {
      && w.events != [] && w.events[|w.events| - 1].Done?
      && var f := w.events[|w.events| - 1];
         && e.model == f.model && Usage(e.promptTokens, e.completionTokens) == f.usage
         && SameNames(e.toolCalls, f.toolCalls) && f.toolCalls == ToolsOf(w.events)
         && e.answer == if audit.logQuery then TextOf(w.events) else ""
    }

    /** The ledger moves as the phase in which a request ends says, and a line it adds describes the request. */
    ghost predicate Balanced(before: Ledger, ask: Ask, elapsed: int, now: int, w: ResponseWriter,
                             answer: Option<Answer>, end: AskRuns.Phase)
      reads this, audit, w
    {
      && bridgeCalls == before.bridgeCalls + AskRuns.Contribution(end).calls
      && if AskRuns.Contribution(end).lines == 0 then audit.sink == before.sink
         else exists e :: audit.sink == before.sink + Line(e, now) && Describes(e, ask, elapsed, w, answer, end)
    }

    /** What an admitted request gets and leaves behind. */
    ghost predicate Served(w: ResponseWriter, ask: Ask, flusher: bool, body: Option<Decoded>,
                           reply: Option<ChatResponse>, refusal: Error, elapsed: int, now: int, before: Ledger,
                           answer: Option<Answer>, end: AskRuns.Phase)
      reads this, audit, w
    {
      if ask.stream then answer.None? && Streamed(w, ask, flusher, body, refusal, elapsed, now, before, end)
      else Replied(w, ask, reply, refusal, elapsed, now, before, answer, end)
    }

    lemma RefusalDescribes(w: ResponseWriter, ask: Ask, refusal: Error, elapsed: int)
      requires w.events == [] && w.code == Some(BridgeErrorStatus(refusal))
      ensures Describes(RefusalAudit(ask, refusal, elapsed), ask, elapsed, w, None, AskRuns.Audited(false))
    {
    }

    lemma StreamDescribes(w: ResponseWriter, ask: Ask, d: Decoded, elapsed: int)
      requires w.code == Some(200) && w.events == StreamEvents(d, ask, audit.logQuery, elapsed)
      ensures Describes(StreamAudit(d, ask, audit.logQuery, elapsed), ask, elapsed, w, None, AskRuns.Audited(IsEof(d.end)))
    {
      var f := Terminal(d, ask, audit.logQuery, elapsed);
      assert w.events[|w.events| - 1] == f;
      AuditMatchesFrame(d, ask, audit.logQuery, elapsed);
      if IsEof(d.end) {
        StreamTotalsAgree(d, ask, audit.logQuery, elapsed);
        AuditToolNames(f.toolCalls);
      }
    }

    lemma AnswerDescribes(w: ResponseWriter, ask: Ask, r: ChatResponse, answer: Answer, elapsed: int)
      requires w.events == [] && w.code == Some(200)
      requires answer == Answer(ask.requestId, r.model, ask.query, r.content, r.toolCalls,
                                Usage(r.promptEvalCount, r.evalCount), elapsed)
      ensures Describes(AnswerAudit(ask, r, elapsed), ask, elapsed, w, Some(answer), AskRuns.Audited(true))
    {
      AuditToolNames(r.toolCalls);
    }

    lemma LimitDescribes(w: ResponseWriter, requested: Ask, elapsed: int)
      requires w.events == [] && w.code == Some(429)
      ensures Describes(LimitAudit(requested, defaultModel), Resolved(requested), elapsed, w, None, AskRuns.Limited)
    {
    }

    lemma StreamedBalances(w: ResponseWriter, ask: Ask, flusher: bool, body: Option<Decoded>, refusal: Error,
                           elapsed: int, now: int, before: Ledger, end: AskRuns.Phase)
      requires Streamed(w, ask, flusher, body, refusal, elapsed, now, before, end)
      ensures Balanced(before, ask, elapsed, now, w, None, end)
      ensures if flusher then end.Audited? else end.Unflushable?
    {
      if flusher {
        var e := if body.None? then RefusalAudit(ask, refusal, elapsed)
                 else StreamAudit(body.value, ask, audit.logQuery, elapsed);
        assert audit.sink == before.sink + Line(e, now);
        if body.None? {
          RefusalDescribes(w, ask, refusal, elapsed);
        } else {
          StreamDescribes(w, ask, body.value, elapsed);
        }
      }
    }

    lemma RepliedBalances(w: ResponseWriter, ask: Ask, reply: Option<ChatResponse>, refusal: Error, elapsed: int,
                          now: int, before: Ledger, answer: Option<Answer>, end: AskRuns.Phase)
      requires w.events == [] && Replied(w, ask, reply, refusal, elapsed, now, before, answer, end)
      ensures Balanced(before, ask, elapsed, now, w, answer, end)
      ensures end.Unanswered? || end == AskRuns.Audited(true)
    {
      if reply.Some? {
        assert audit.sink == before.sink + Line(AnswerAudit(ask, reply.value, elapsed), now);
        AnswerDescribes(w, ask, reply.value, answer.value, elapsed);
      }
    }

    lemma LimitBalances(w: ResponseWriter, requested: Ask, elapsed: int, now: int, before: Ledger)
      requires w.events == [] && w.code == Some(429)
      requires Books() == before.(sink := before.sink + Line(LimitAudit(requested, defaultModel), now))
      ensures Balanced(before, Resolved(requested), elapsed, now, w, None, AskRuns.Limited)
    {
      assert audit.sink == before.sink + Line(LimitAudit(requested, defaultModel), now);
      LimitDescribes(w, requested, elapsed);
    }

    /** The part of Ask behind the limiter. */
    method AskAdmitted(w: ResponseWriter, requested: Ask, flusher: bool, stream: ChatStream?,
                       reply: Option<ChatResponse>, refusal: Error, elapsed: int, now: int)
      returns (answer: Option<Answer>, ghost end: AskRuns.Phase)
      requires w.Fresh()
      requires stream != null ==> stream.Valid() && !stream.closed
      modifies this`bridgeCalls, this`upstreamErrors, this`modelTokens, this`toolCalls, audit
      modifies w`code, w`problem, w`wire, w`sent, w`events
      modifies if stream == null then {} else {stream, stream.reader, stream.body}
      ensures Balanced(old(Books()), Resolved(requested), elapsed, now, w, answer, end)
      ensures rateLimited == old(rateLimited) + AskRuns.Contribution(end).rateLimited
      ensures EndsAs(requested, true, flusher, Some(true), end)
      ensures Served(w, Resolved(requested), flusher, old(Opened(stream)), reply, refusal, elapsed, now, old(Books()),
                     answer, end)
    {
      var ask := Resolved(requested);
      ghost var before, body := Books(), Opened(stream);
      if ask.stream {
        answer := None;
        end := AskStream(w, flusher, ask, stream, refusal, elapsed, now);
        StreamedBalances(w, ask, flusher, body, refusal, elapsed, now, before, end);
        AdmittedEnds(requested, flusher, end);
      } else {
        answer, end := AskPlain(w, ask, reply, refusal, elapsed, now);
        RepliedBalances(w, ask, reply, refusal, elapsed, now, before, answer, end);
        AdmittedEnds(requested, flusher, end);
      }
    }

    /** The request with the model it will be served by. */
    function Resolved(requested: Ask): Ask {
      requested.(model := ModelOrDefault(requested.model, defaultModel))
    }

    /** The limiter said no. */
    method Limit(w: ResponseWriter, requested: Ask, now: int)
      requires w.code.None?
      modifies this`rateLimited, audit, w`code, w`problem
      ensures rateLimited == old(rateLimited) + 1 && w.code == Some(429)
      ensures w.problem.Some? && w.problem.value.status == 429 && w.problem.value.title == "Too Many Requests"
      ensures Books() == old(Books()).(sink := old(audit.sink) + Line(LimitAudit(requested, defaultModel), now))
    {
      rateLimited := rateLimited + 1;
      LogAudit(LimitAudit(requested, defaultModel), now);
      w.WriteProblem(Problem(429, ProblemTitleFor(429), "rate limit exceeded"));
    }

    /**
     POST /v1/ask. `rejected` is the problem found before the limiter is asked, if any, and `requested`
     carries the model as the caller gave it. The clock is read twice: `asked` by the limiter and `now`
     by the audit log.
    */
    method Ask(w: ResponseWriter, rejected: Option<Problem>, requested: Ask, flusher: bool, stream: ChatStream?,
               reply: Option<ChatResponse>, refusal: Error, asked: int, elapsed: int, now: int)
      returns (answer: Option<Answer>, ghost end: AskRuns.Phase)
      requires w.Fresh()
      requires stream != null ==> stream.Valid() && !stream.closed
      modifies this, limiter, audit, w, if stream == null then {} else {stream, stream.reader, stream.body}
      // a rejected request leaves nothing behind but its problem document
      ensures rejected.Some? ==>
        && end == AskRuns.Rejected && w.code == Some(rejected.value.status) && w.problem == rejected
        && limiter.limiters == old(limiter.limiters) && Books() == old(Books()) && rateLimited == old(rateLimited)
        && EndsAs(requested, false, flusher, None, end)
      // a valid one is charged by the limiter and gets everything that its variant promises
      ensures rejected.None? ==>
        && limiter.limiters == old(limiter.Charged(requested.caller, asked))
        && Decided(w, requested, flusher, old(limiter.Admits(requested.caller, asked)), old(Opened(stream)), reply,
                   refusal, elapsed, now, old(rateLimited), old(Books()), answer, end)
    {
      if rejected.Some? {
        w.WriteProblem(rejected.value);
        return None, AskRuns.Rejected;
      }
      answer, end := AskValid(w, requested, flusher, stream, reply, refusal, asked, elapsed, now);
    }

    /** The part of Ask behind the validation; the limiter's decision comes first. */
    method AskValid(w: ResponseWriter, requested: Ask, flusher: bool, stream: ChatStream?,
                    reply: Option<ChatResponse>, refusal: Error, asked: int, elapsed: int, now: int)
      returns (answer: Option<Answer>, ghost end: AskRuns.Phase)
      requires w.Fresh()
      requires stream != null ==> stream.Valid() && !stream.closed
      modifies this`rateLimited, this`bridgeCalls, this`upstreamErrors, this`modelTokens, this`toolCalls
      modifies limiter, audit, w`code, w`problem, w`wire, w`sent, w`events
      modifies if stream == null then {} else {stream, stream.reader, stream.body}
      ensures limiter.limiters == old(limiter.Charged(requested.caller, asked))
      ensures Decided(w, requested, flusher, old(limiter.Admits(requested.caller, asked)), old(Opened(stream)), reply,
                      refusal, elapsed, now, old(rateLimited), old(Books()), answer, end)
    {
      ghost var before, body := Books(), Opened(stream);
      var allowed := limiter.Allow(requested.caller, asked);
      assert Books() == before && Opened(stream) == body;
      answer, end := AskDecided(w, requested, allowed, flusher, stream, reply, refusal, elapsed, now);
    }

    /** What follows the limiter's decision. */
    method AskDecided(w: ResponseWriter, requested: Ask, allowed: bool, flusher: bool, stream: ChatStream?,
                      reply: Option<ChatResponse>, refusal: Error, elapsed: int, now: int)
      returns (answer: Option<Answer>, ghost end: AskRuns.Phase)
      requires w.Fresh()
      requires stream != null ==> stream.Valid() && !stream.closed
      modifies this`rateLimited, this`bridgeCalls, this`upstreamErrors, this`modelTokens, this`toolCalls
      modifies audit, w`code, w`problem, w`wire, w`sent, w`events
      modifies if stream == null then {} else {stream, stream.reader, stream.body}
      ensures Decided(w, requested, flusher, allowed, old(Opened(stream)), reply, refusal, elapsed, now,
                      old(rateLimited), old(Books()), answer, end)
    {
      if !allowed {
        ghost var before := Books();
        Limit(w, requested, now);
        LimitBalances(w, requested, elapsed, now, before);
        LimitedEnds(requested, flusher);
        return None, AskRuns.Limited;
      }
      answer, end := AskAdmitted(w, requested, flusher, stream, reply, refusal, elapsed, now);
    }

    /** How a valid request ends, given the limiter's decision: the books move as its final phase says. */
    ghost predicate Decided(w: ResponseWriter, requested: Ask, flusher: bool, allowed: bool, body: Option<Decoded>,
                            reply: Option<ChatResponse>, refusal: Error, elapsed: int, now: int, limited: int,
                            before: Ledger, answer: Option<Answer>, end: AskRuns.Phase)
      reads this, audit, w
    {
      && Balanced(before, Resolved(requested), elapsed, now, w, answer, end)
      && rateLimited == limited + AskRuns.Contribution(end).rateLimited
      && EndsAs(requested, true, flusher, Some(allowed), end)
      && if allowed
         then Served(w, Resolved(requested), flusher, body, reply, refusal, elapsed, now, before, answer, end)
         else
           && end == AskRuns.Limited && w.code == Some(429)
           && w.problem.Some? && w.problem.value.status == 429 && w.problem.value.title == "Too Many Requests"
           && Books() == before.(sink := before.sink + Line(LimitAudit(requested, defaultModel), now))
    }

    /** The chunk loop: translates until Next reports an error. */
    method CopyChunks(w: ResponseWriter, ask: Ask, stream: ChatStream)
      returns (nerr: Error, t: Totals, ghost seen: seq<Chunk>)
      requires w.Framed(encode) && w.events == [] && stream.Valid()
      modifies w`wire, w`sent, w`events, stream.reader, stream.body
      ensures w.Framed(encode) && stream.Valid()
      ensures old(stream.Pending()) == Decoded(seen, nerr)
      ensures t == Summary(ask.model, seen, audit.logQuery)
      ensures w.events == Events(seen)
    {
      var captureAnswer := audit.logQuery;
      var finalModel, finalReason, promptTokens, completionTokens, totalDuration := ask.model, "", 0, 0, 0;
      var tools: seq<ToolCall>, answer: string := [], "";
      seen := [];
      ghost var whole := stream.Pending();
      ghost var rest := whole.chunks;
      while true
        invariant w.Framed(encode) && stream.Valid()
        invariant stream.Pending() == Decoded(rest, whole.end)
        invariant whole.chunks == seen + rest
        invariant w.events == Events(seen)
        invariant Totals(finalModel, finalReason, Usage(promptTokens, completionTokens), totalDuration, tools, answer)
               == Summary(ask.model, seen, captureAnswer)
        decreases |stream.reader.Remaining()|
      {
        var next;
        next, nerr := stream.Next();
        if next.None? {
          t := Totals(finalModel, finalReason, Usage(promptTokens, completionTokens), totalDuration, tools, answer);
          return;
        }
        var chunk := next.value;
        Shift(seen, chunk, stream.Pending().chunks);
        rest := stream.Pending().chunks;
        EmitChunk(w, encode, chunk);
        EventsAppend(seen, chunk);
        SummaryAppend(ask.model, seen, chunk, captureAnswer);
        if chunk.model != "" {
          finalModel := chunk.model;
        }
        tools := tools + chunk.message.toolCalls;
        if chunk.message.role != "tool" && chunk.message.content != "" && captureAnswer {
          answer := answer + chunk.message.content;
        }
        if chunk.done {
          finalReason := chunk.doneReason;
          promptTokens, completionTokens := chunk.promptEvalCount, chunk.evalCount;
          totalDuration := chunk.totalDuration;
        }
        seen := seen + [chunk];
      }
    }
  }

  lemma Shift<T>(done: seq<T>, x: T, rest: seq<T>)
    ensures done + ([x] + rest) == (done + [x]) + rest
  {
  }

  /** What is audited when the bridge refuses a stream. */
  function RefusalAudit(ask: Ask, refusal: Error, latencyMs: int): Audit.Event {
    Audit.Event(None, ask.requestId, ask.caller, ask.model, 0, 0, [], latencyMs,
                BridgeErrorStatus(refusal), Audit.Error, ask.query, "")
  }

  /** What is audited when the limiter refuses a request. */
  function LimitAudit(requested: Ask, fallback: string): Audit.Event {
    Audit.Event(None, requested.requestId, requested.caller, ModelOrDefault(requested.model, fallback), 0, 0, [], 0,
                429, Audit.RateLimited, requested.query, "")
  }

  /** What is audited for an answered non-streaming request. */
  function AnswerAudit(ask: Ask, r: ChatResponse, latencyMs: int): Audit.Event {
    Audit.Event(None, ask.requestId, ask.caller, r.model, r.promptEvalCount, r.evalCount,
                ToAuditToolCalls(r.toolCalls), latencyMs, 200, Audit.Ok, ask.query, r.content)
  }

  function ModelOrDefault(requested: string, fallback: string): (model: string)
    ensures requested != "" ==> model == requested
    ensures requested == "" ==> model == fallback
  {
    if requested == "" then fallback else requested
  }

  method AuditToolCalls(tools: seq<ToolCall>) returns (out: seq<Audit.ToolUse>)
    ensures out == ToAuditToolCalls(tools)
  {
    out := [];
    for i := 0 to |tools|
      invariant out == ToAuditToolCalls(tools[..i])
    {
      out := out + [Audit.ToolUse(tools[i].name, 0)];
      assert tools[..i + 1] == tools[..i] + [tools[i]];
    }
    assert tools[..|tools|] == tools;
  }
}
