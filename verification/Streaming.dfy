/** POST /v1/ask with stream=true: from the chunks of the bridge to the frames of the client. */
module Streaming {
  import opened Bytes
  import opened LineDecoder
  import opened Errors
  import opened Sse
  import opened Wrappers
  import Audit

  // ---------------------------------------------------------------- events

  datatype Usage = Usage(promptTokens: int, completionTokens: int)

  datatype Event =
    | Thinking(text: string)
    | ToolCalled(call: ToolCall)
    | ToolResult(content: string)
    | Token(text: string)
    | Done(requestId: string, model: string, doneReason: string, usage: Usage,
           toolCalls: seq<ToolCall>, totalDurationMs: int, latencyMs: int)
    | Failed(requestId: string, status: int, title: string, detail: string)

  /** The event names in ASCII. */
  function Kind(e: Event): bytes {
    match e
    case Thinking(_) => THINKING
    case ToolCalled(_) => TOOL_CALL
    case ToolResult(_) => TOOL_RESULT
    case Token(_) => TOKEN
    case Done(_, _, _, _, _, _, _) => DONE
    case Failed(_, _, _, _) => ERROR
  }

  const THINKING: bytes := [116, 104, 105, 110, 107, 105, 110, 103]
  const TOOL_CALL: bytes := [116, 111, 111, 108, 95, 99, 97, 108, 108]
  const TOOL_RESULT: bytes := [116, 111, 111, 108, 95, 114, 101, 115, 117, 108, 116]
  const TOKEN: bytes := [116, 111, 107, 101, 110]
  const DONE: bytes := [100, 111, 110, 101]
  const ERROR: bytes := [101, 114, 114, 111, 114]

  /** Which event goes under which name. */
  lemma KindNames(e: Event)
    ensures e.Thinking? ==> Kind(e) == Ascii("thinking")
    ensures e.ToolCalled? ==> Kind(e) == Ascii("tool_call")
    ensures e.ToolResult? ==> Kind(e) == Ascii("tool_result")
    ensures e.Token? ==> Kind(e) == Ascii("token")
    ensures e.Done? ==> Kind(e) == Ascii("done")
    ensures e.Failed? ==> Kind(e) == Ascii("error")
  {
    match e
    case Thinking(_) => assert THINKING == Ascii("thinking");
    case ToolCalled(_) => assert TOOL_CALL == Ascii("tool_call");
    case ToolResult(_) => assert TOOL_RESULT == Ascii("tool_result");
    case Token(_) => assert TOKEN == Ascii("token");
    case Done(_, _, _, _, _, _, _) => assert DONE == Ascii("done");
    case Failed(_, _, _, _) => assert ERROR == Ascii("error");
  }

  /** JSON encoding of an event's data; json.Encoder escapes line breaks. */
  type Encoder = Event -> bytes

  ghost predicate OneLine(encode: Encoder) {
    forall e :: NoBreak(encode(e))
  }

  function ToFrame(encode: Encoder, e: Event): Frame {
    Frame(Kind(e), encode(e))
  }

  function ToFrames(encode: Encoder, es: seq<Event>): seq<Frame> {
    seq(|es|, i requires 0 <= i < |es| => ToFrame(encode, es[i]))
  }

  lemma KindWellFormed(e: Event)
    ensures Kind(e) != [] && NoBreak(Kind(e))
  {
    match e
    case Thinking(_) => assert NoBreak(THINKING);
    case ToolCalled(_) => assert NoBreak(TOOL_CALL);
    case ToolResult(_) => assert NoBreak(TOOL_RESULT);
    case Token(_) => assert NoBreak(TOKEN);
    case Done(_, _, _, _, _, _, _) => assert NoBreak(DONE);
    case Failed(_, _, _, _) => assert NoBreak(ERROR);
  }

  lemma FramesWellFormed(encode: Encoder, es: seq<Event>)
    requires OneLine(encode)
    ensures AllWellFormed(ToFrames(encode, es))
  {
    forall i | 0 <= i < |es|
      ensures WellFormed(ToFrames(encode, es)[i])
    {
      KindWellFormed(es[i]);
    }
  }

  // ---------------------------------------------------------------- one chunk

  predicate IsToken(c: Chunk) {
    c.message.role != "tool" && c.message.content != ""
  }

  function ToolCalls(calls: seq<ToolCall>): seq<Event> {
    seq(|calls|, i requires 0 <= i < |calls| => ToolCalled(calls[i]))
  }

  /** Thinking, then tool calls, then at most one of tool_result and token. */
  function ChunkEvents(c: Chunk): seq<Event> {
    (if c.thinking != "" then [Thinking(c.thinking)] else [])
    + ToolCalls(c.message.toolCalls)
    + (if c.message.content == "" then []
       else if c.message.role == "tool" then [ToolResult(c.message.content)]
       else [Token(c.message.content)])
  }

  function Events(chunks: seq<Chunk>): seq<Event> {
    if chunks == [] then [] else ChunkEvents(chunks[0]) + Events(chunks[1..])
  }

  lemma {:induction false} EventsAppend(chunks: seq<Chunk>, c: Chunk)
    ensures Events(chunks + [c]) == Events(chunks) + ChunkEvents(c)
  {
    if chunks == [] {
      assert Events([c]) == ChunkEvents(c) + Events([]);
    } else {
      assert (chunks + [c])[1..] == chunks[1..] + [c];
      EventsAppend(chunks[1..], c);
    }
  }

  // ---------------------------------------------------------------- what the events say

  /** What `f` picks from a sequence, in order. */
  function Pick<A, B>(s: seq<A>, f: A -> Option<B>): seq<B> {
    if s == [] then []
    else (if f(s[0]).Some? then [f(s[0]).value] else []) + Pick(s[1..], f)
  }

  lemma {:induction false} PickAppend<A, B>(a: seq<A>, b: seq<A>, f: A -> Option<B>)
    ensures Pick(a + b, f) == Pick(a, f) + Pick(b, f)
  {
    if a == [] {
      assert a + b == b;
    } else {
      var own := if f(a[0]).Some? then [f(a[0]).value] else [];
      assert (a + b)[1..] == a[1..] + b;
      PickAppend(a[1..], b, f);
      assert own + (Pick(a[1..], f) + Pick(b, f)) == (own + Pick(a[1..], f)) + Pick(b, f);
    }
  }

  lemma {:induction false} PickNone<A, B>(s: seq<A>, f: A -> Option<B>)
    requires forall i :: 0 <= i < |s| ==> f(s[i]).None?
    ensures Pick(s, f) == []
  {
    if s != [] {
      PickNone(s[1..], f);
    }
  }

  function ThinkingOf(e: Event): Option<string> { if e.Thinking? then Some(e.text) else None }
  function ResultOf(e: Event): Option<string> { if e.ToolResult? then Some(e.content) else None }
  function TokenOf(e: Event): Option<string> { if e.Token? then Some(e.text) else None }

  /** The fields of a chunk that are to be shown, and under which circumstances. */
  function Thought(c: Chunk): Option<string> { if c.thinking == "" then None else Some(c.thinking) }

  function ToolSaid(c: Chunk): Option<string> {
    if c.message.content == "" || c.message.role != "tool" then None else Some(c.message.content)
  }

  function ModelSaid(c: Chunk): Option<string> {
    if c.message.content == "" || c.message.role == "tool" then None else Some(c.message.content)
  }

  function AllCalls(chunks: seq<Chunk>): seq<ToolCall> {
    if chunks == [] then [] else chunks[0].message.toolCalls + AllCalls(chunks[1..])
  }

  function AtMostOne<T>(o: Option<T>): seq<T> {
    if o.Some? then [o.value] else []
  }

  /** The events of one chunk are its three parts. */
  lemma ChunkParts(c: Chunk) returns (a: seq<Event>, b: seq<Event>, d: seq<Event>)
    ensures ChunkEvents(c) == a + b + d && b == ToolCalls(c.message.toolCalls)
    ensures a == if Thought(c).Some? then [Thinking(Thought(c).value)] else []
    ensures d == if ToolSaid(c).Some? then [ToolResult(ToolSaid(c).value)]
                 else if ModelSaid(c).Some? then [Token(ModelSaid(c).value)] else []
  {
    a := if c.thinking != "" then [Thinking(c.thinking)] else [];
    b := ToolCalls(c.message.toolCalls);
    d := if c.message.content == "" then []
         else if c.message.role == "tool" then [ToolResult(c.message.content)]
         else [Token(c.message.content)];
  }

  lemma PickParts<B>(a: seq<Event>, b: seq<Event>, d: seq<Event>, f: Event -> Option<B>)
    ensures Pick(a + b + d, f) == Pick(a, f) + Pick(b, f) + Pick(d, f)
  {
    PickAppend(a + b, d, f);
    PickAppend(a, b, f);
  }

  lemma PickOne<A, B>(x: A, f: A -> Option<B>)
    ensures Pick([x], f) == AtMostOne(f(x))
  {
    assert [x][1..] == [];
  }

  lemma ChunkThinks(c: Chunk)
    ensures Pick(ChunkEvents(c), ThinkingOf) == AtMostOne(Thought(c))
  {
    var a, b, d := ChunkParts(c);
    PickParts(a, b, d, ThinkingOf);
    PickNone(b, ThinkingOf);
    PickNone(d, ThinkingOf);
    if a != [] {
      PickOne(a[0], ThinkingOf);
    }
  }

  lemma ChunkResults(c: Chunk)
    ensures Pick(ChunkEvents(c), ResultOf) == AtMostOne(ToolSaid(c))
  {
    var a, b, d := ChunkParts(c);
    PickParts(a, b, d, ResultOf);
    PickNone(a, ResultOf);
    PickNone(b, ResultOf);
    if d != [] {
      PickOne(d[0], ResultOf);
    }
  }

  lemma ChunkTokens(c: Chunk)
    ensures Pick(ChunkEvents(c), TokenOf) == AtMostOne(ModelSaid(c))
  {
    var a, b, d := ChunkParts(c);
    PickParts(a, b, d, TokenOf);
    PickNone(a, TokenOf);
    PickNone(b, TokenOf);
    if d != [] {
      PickOne(d[0], TokenOf);
    }
  }

  /**
   What the client is told, kind by kind: the thinking texts, the tool results and the tokens are the
   non-empty fields of the chunks in order, and the tool calls are all of theirs.
  */
  lemma {:induction false} EventsSay(chunks: seq<Chunk>)
    ensures Pick(Events(chunks), ThinkingOf) == Pick(chunks, Thought)
    ensures Pick(Events(chunks), ResultOf) == Pick(chunks, ToolSaid)
    ensures Pick(Events(chunks), TokenOf) == Pick(chunks, ModelSaid)
    ensures ToolsOf(Events(chunks)) == AllCalls(chunks)
  {
    if chunks != [] {
      var c, rest := chunks[0], chunks[1..];
      EventsSay(rest);
      ChunkThinks(c);
      ChunkResults(c);
      ChunkTokens(c);
      ChunkTotals(c);
      PickAppend(ChunkEvents(c), Events(rest), ThinkingOf);
      PickAppend(ChunkEvents(c), Events(rest), ResultOf);
      PickAppend(ChunkEvents(c), Events(rest), TokenOf);
      ToolsOfAppend(ChunkEvents(c), Events(rest));
    }
  }

  /**
   Within a chunk nothing precedes the thinking text, nothing but that precedes a tool call, and nothing
   follows a tool result or a token, so there is at most one of those two.
  */
  lemma ChunkOrder(c: Chunk)
    ensures
      var es := ChunkEvents(c);
      forall i, j :: 0 <= i < j < |es| ==>
        && !es[j].Thinking? && !es[i].ToolResult? && !es[i].Token?
        && (es[j].ToolCalled? ==> es[i].Thinking? || es[i].ToolCalled?)
        && !es[i].Done? && !es[i].Failed? && !es[j].Done? && !es[j].Failed?
  {
    var a, b, d := ChunkParts(c);
  }

  // ---------------------------------------------------------------- totals

  /** What the loop accumulates. */
  datatype Totals = Totals(
    model: string,
    doneReason: string,
    usage: Usage,
    duration: int,
    tools: seq<ToolCall>,
    answer: string)

  function Start(model: string): Totals {
    Totals(model, "", Usage(0, 0), 0, [], "")
  }

  function Add(t: Totals, c: Chunk, capture: bool): Totals {
    var named := t.(
      model := if c.model != "" then c.model else t.model,
      tools := t.tools + c.message.toolCalls,
      answer := if capture && IsToken(c) then t.answer + c.message.content else t.answer);
    if c.done
    then named.(doneReason := c.doneReason, usage := Usage(c.promptEvalCount, c.evalCount), duration := c.totalDuration)
    else named
  }

  function Summary(model: string, chunks: seq<Chunk>, capture: bool): Totals {
    if chunks == [] then Start(model)
    else Add(Summary(model, chunks[..|chunks| - 1], capture), chunks[|chunks| - 1], capture)
  }

  lemma SummaryAppend(model: string, chunks: seq<Chunk>, c: Chunk, capture: bool)
    ensures Summary(model, chunks + [c], capture) == Add(Summary(model, chunks, capture), c, capture)
  {
    assert (chunks + [c])[..|chunks|] == chunks;
  }

  function ToolsOf(es: seq<Event>): seq<ToolCall> {
    if es == [] then []
    else (if es[0].ToolCalled? then [es[0].call] else []) + ToolsOf(es[1..])
  }

  function TextOf(es: seq<Event>): string {
    if es == [] then ""
    else (if es[0].Token? then es[0].text else "") + TextOf(es[1..])
  }

  lemma {:induction false} ToolsOfAppend(a: seq<Event>, b: seq<Event>)
    ensures ToolsOf(a + b) == ToolsOf(a) + ToolsOf(b)
  {
    if a == [] {
      assert a + b == b;
    } else {
      var rest, own := a[1..], if a[0].ToolCalled? then [a[0].call] else [];
      assert (a + b)[1..] == rest + b;
      ToolsOfAppend(rest, b);
      assert own + (ToolsOf(rest) + ToolsOf(b)) == (own + ToolsOf(rest)) + ToolsOf(b);
    }
  }

  lemma {:induction false} TextOfAppend(a: seq<Event>, b: seq<Event>)
    ensures TextOf(a + b) == TextOf(a) + TextOf(b)
  {
    if a == [] {
      assert a + b == b;
    } else {
      var rest, own := a[1..], if a[0].Token? then a[0].text else "";
      assert (a + b)[1..] == rest + b;
      TextOfAppend(rest, b);
      assert own + (TextOf(rest) + TextOf(b)) == (own + TextOf(rest)) + TextOf(b);
    }
  }

  lemma {:induction false} ToolsOfCalls(calls: seq<ToolCall>)
    ensures ToolsOf(ToolCalls(calls)) == calls && TextOf(ToolCalls(calls)) == ""
  {
    if calls != [] {
      assert ToolCalls(calls)[1..] == ToolCalls(calls[1..]);
      ToolsOfCalls(calls[1..]);
    }
  }

  lemma ToolsOfOne(e: Event)
    ensures ToolsOf([e]) == if e.ToolCalled? then [e.call] else []
    ensures TextOf([e]) == if e.Token? then e.text else ""
  {
    assert [e][1..] == [];
  }

  lemma ChunkTotals(c: Chunk)
    ensures ToolsOf(ChunkEvents(c)) == c.message.toolCalls
    ensures TextOf(ChunkEvents(c)) == if IsToken(c) then c.message.content else ""
  {
    var a, b, d := ChunkParts(c);
    ToolsOfAppend(a + b, d);
    ToolsOfAppend(a, b);
    TextOfAppend(a + b, d);
    TextOfAppend(a, b);
    ToolsOfCalls(c.message.toolCalls);
    if a != [] {
      ToolsOfOne(a[0]);
    }
    if d != [] {
      ToolsOfOne(d[0]);
    }
  }

  /** The tools and the captured answer are what the emitted frames say, in the same order. */
  lemma {:induction false} TotalsAgree(model: string, chunks: seq<Chunk>, capture: bool)
    ensures Summary(model, chunks, capture).tools == ToolsOf(Events(chunks))
    ensures Summary(model, chunks, capture).answer == if capture then TextOf(Events(chunks)) else ""
    decreases |chunks|
  {
    if chunks != [] {
      var init, c := chunks[..|chunks| - 1], chunks[|chunks| - 1];
      TotalsAgree(model, init, capture);
      EventsLast(chunks);
      ChunkTotals(c);
    }
  }

  lemma EventsLast(chunks: seq<Chunk>)
    requires chunks != []
    ensures
      var init, c := chunks[..|chunks| - 1], chunks[|chunks| - 1];
      && ToolsOf(Events(chunks)) == ToolsOf(Events(init)) + ToolsOf(ChunkEvents(c))
      && TextOf(Events(chunks)) == TextOf(Events(init)) + TextOf(ChunkEvents(c))
  {
    var init, c := chunks[..|chunks| - 1], chunks[|chunks| - 1];
    assert chunks == init + [c];
    EventsAppend(init, c);
    ToolsOfAppend(Events(init), ChunkEvents(c));
    TextOfAppend(Events(init), ChunkEvents(c));
  }

  /** The last Done chunk sets reason, usage and duration, even when chunks follow it. */
  lemma {:induction false} LastDoneWins(model: string, chunks: seq<Chunk>, capture: bool, k: nat)
    requires k < |chunks| && chunks[k].done && forall i :: k < i < |chunks| ==> !chunks[i].done
    ensures
      var t := Summary(model, chunks, capture);
      && t.doneReason == chunks[k].doneReason && t.duration == chunks[k].totalDuration
      && t.usage == Usage(chunks[k].promptEvalCount, chunks[k].evalCount)
    decreases |chunks|
  {
    if k < |chunks| - 1 {
      LastDoneWins(model, chunks[..|chunks| - 1], capture, k);
    }
  }

  /** Without a Done chunk nothing is reported. */
  lemma {:induction false} NeverDone(model: string, chunks: seq<Chunk>, capture: bool)
    requires forall i :: 0 <= i < |chunks| ==> !chunks[i].done
    ensures
      var t := Summary(model, chunks, capture);
      t.doneReason == "" && t.duration == 0 && t.usage == Usage(0, 0)
    decreases |chunks|
  {
    if chunks != [] {
      NeverDone(model, chunks[..|chunks| - 1], capture);
    }
  }

  /** The model reported is the last one named, from position `k` on, or the one asked for. */
  lemma {:induction false} LastModelWins(model: string, chunks: seq<Chunk>, capture: bool, k: nat)
    requires k <= |chunks| && (k > 0 ==> chunks[k - 1].model != "")
    requires forall i :: k <= i < |chunks| ==> chunks[i].model == ""
    ensures Summary(model, chunks, capture).model == if k == 0 then model else chunks[k - 1].model
    decreases |chunks|
  {
    if k < |chunks| {
      LastModelWins(model, chunks[..|chunks| - 1], capture, k);
    }
  }

  function Concatenated(texts: seq<string>): string {
    if texts == [] then "" else texts[0] + Concatenated(texts[1..])
  }

  /** The text of the tokens is all of them, one after the other. */
  lemma {:induction false} TextIsTokens(es: seq<Event>)
    ensures TextOf(es) == Concatenated(Pick(es, TokenOf))
  {
    if es != [] {
      TextIsTokens(es[1..]);
      var own := AtMostOne(TokenOf(es[0]));
      assert Pick(es, TokenOf) == own + Pick(es[1..], TokenOf);
      if es[0].Token? {
        assert (own + Pick(es[1..], TokenOf))[1..] == Pick(es[1..], TokenOf);
      } else {
        assert own + Pick(es[1..], TokenOf) == Pick(es[1..], TokenOf);
      }
    }
  }

  // ---------------------------------------------------------------- the end of the stream

  /** The request as the handler has resolved it. */
  datatype Ask = Ask(requestId: string, caller: string, model: string, query: string, stream: bool)

  /** Go's division, which truncates toward zero. */
  function TruncatedDiv(a: int, b: nat): int
    requires 0 < b
  {
    if a >= 0 then a / b else -((-a) / b)
  }

  const NANOS_PER_MILLI: nat := 1_000_000

  function BridgeErrorStatus(err: Error): int {
    var b := AsBridge(err);
    if b.Some? && b.value.status == 503 then 503 else 502
  }

  /** The title table, and http.StatusText for the other status the handlers use. */
  function ProblemTitleFor(status: int): string {
    match status
    case 400 => "Bad Request"
    case 413 => "Payload Too Large"
    case 415 => "Unsupported Media Type"
    case 429 => "Too Many Requests"
    case 500 => "Internal Server Error"
    case 502 => "Bad Gateway"
    case 503 => "Service Unavailable"
    case _ => ""
  }

  /** The last frame: `done` exactly when errors.Is(err, io.EOF). */
  function Terminal(d: Decoded, ask: Ask, capture: bool, latencyMs: int): Event {
    if IsEof(d.end) then
      var t := Summary(ask.model, d.chunks, capture);
      Done(ask.requestId, t.model, t.doneReason, t.usage, t.tools,
           TruncatedDiv(t.duration, NANOS_PER_MILLI), latencyMs)
    else
      var status := BridgeErrorStatus(d.end);
      Failed(ask.requestId, status, ProblemTitleFor(status), "upstream bridge stream failed")
  }

  function StreamEvents(d: Decoded, ask: Ask, capture: bool, latencyMs: int): seq<Event> {
    Events(d.chunks) + [Terminal(d, ask, capture, latencyMs)]
  }

  function ToAuditToolCalls(tools: seq<ToolCall>): seq<Audit.ToolUse> {
    seq(|tools|, i requires 0 <= i < |tools| => Audit.ToolUse(tools[i].name, 0))
  }

  /** The event a finished stream hands to the audit logger. */
  function StreamAudit(d: Decoded, ask: Ask, capture: bool, latencyMs: int): Audit.Event {
    var t := Summary(ask.model, d.chunks, capture);
    if IsEof(d.end) then
      Audit.Event(None, ask.requestId, ask.caller, t.model, t.usage.promptTokens, t.usage.completionTokens,
                  ToAuditToolCalls(t.tools), latencyMs, 200, Audit.Ok, ask.query, t.answer)
    else
      Audit.Event(None, ask.requestId, ask.caller, t.model, 0, 0, [], latencyMs,
                  BridgeErrorStatus(d.end), Audit.Error, ask.query, "")
  }

  lemma {:induction false} NoTerminalInside(chunks: seq<Chunk>)
    ensures forall i :: 0 <= i < |Events(chunks)| ==> !Events(chunks)[i].Done? && !Events(chunks)[i].Failed?
  {
    if chunks != [] {
      NoTerminalInside(chunks[1..]);
    }
  }

  lemma Quotient(m: nat, b: nat)
    requires 0 < b
    ensures b * (m / b) <= m < b * (m / b) + b
  {
    assert m == b * (m / b) + m % b;
  }

  /** The division that loses less than one whole, toward zero. */
  lemma TruncatedDivIs(a: nat, b: nat)
    requires 0 < b
    ensures TruncatedDiv(a, b) >= 0 && b * TruncatedDiv(a, b) <= a < b * TruncatedDiv(a, b) + b
  {
    Quotient(a, b);
  }

  lemma TruncatedDivMirrors(a: nat, b: nat)
    requires 0 < b
    ensures TruncatedDiv(-(a as int), b) == -TruncatedDiv(a, b)
  {
    if a == 0 {
      assert 0 / b == 0;
    }
  }

  /**
   The done frame: the last model named, or the one asked for; reason, counts and duration, in whole
   milliseconds, of the last Done chunk, at position `d`; and every tool call of the stream.
  */
  lemma DoneFrameIs(chunks: seq<Chunk>, end: Error, ask: Ask, capture: bool, latencyMs: int, m: nat, d: nat)
    requires IsEof(end)
    requires m <= |chunks| && (m > 0 ==> chunks[m - 1].model != "") && forall i :: m <= i < |chunks| ==> chunks[i].model == ""
    requires d < |chunks| && chunks[d].done && forall i :: d < i < |chunks| ==> !chunks[i].done
    ensures
      Terminal(Decoded(chunks, end), ask, capture, latencyMs)
      == Done(ask.requestId, if m == 0 then ask.model else chunks[m - 1].model, chunks[d].doneReason,
              Usage(chunks[d].promptEvalCount, chunks[d].evalCount), AllCalls(chunks),
              TruncatedDiv(chunks[d].totalDuration, 1_000_000), latencyMs)
  {
    LastModelWins(ask.model, chunks, capture, m);
    LastDoneWins(ask.model, chunks, capture, d);
    TotalsAgree(ask.model, chunks, capture);
    EventsSay(chunks);
  }

  /** The error frame has the status that the response would have had before it was committed, and its title. */
  lemma ErrorFrameIs(d: Decoded, ask: Ask, capture: bool, latencyMs: int)
    requires !IsEof(d.end)
    ensures
      var e := Terminal(d, ask, capture, latencyMs);
      && e.Failed? && e.requestId == ask.requestId
      && (e.status == 503 || e.status == 502)
      && (e.status == 503 <==> exists k: nat :: FirstBridge(d.end, k) && Chain(d.end)[k].status == 503)
      && e.title == if e.status == 503 then "Service Unavailable" else "Bad Gateway"
  {
    BridgeErrorStatusIs(d.end);
  }

  /** 503 exactly when the outermost bridge error of the chain has it, and 502 otherwise. */
  lemma BridgeErrorStatusIs(err: Error)
    ensures BridgeErrorStatus(err) == 503 || BridgeErrorStatus(err) == 502
    ensures BridgeErrorStatus(err) == 503 <==> exists k: nat :: FirstBridge(err, k) && Chain(err)[k].status == 503
  {
    AsBridgeIsFirst(err);
    if AsBridge(err).Some? {
      var k := AsBridgeFound(err);
      assert AsBridge(err) == Some(Chain(err)[k]);
    }
  }

  /** The model in the audit line, of a broken stream too: the last one named, or the one asked for. */
  lemma AuditModelIs(d: Decoded, ask: Ask, capture: bool, latencyMs: int, m: nat)
    requires m <= |d.chunks| && (m > 0 ==> d.chunks[m - 1].model != "")
    requires forall i :: m <= i < |d.chunks| ==> d.chunks[i].model == ""
    ensures StreamAudit(d, ask, capture, latencyMs).model == if m == 0 then ask.model else d.chunks[m - 1].model
  {
    LastModelWins(ask.model, d.chunks, capture, m);
  }

  lemma AuditToolNames(tools: seq<ToolCall>)
    ensures
      var names := ToAuditToolCalls(tools);
      |names| == |tools| && forall i :: 0 <= i < |tools| ==> names[i].name == tools[i].name && names[i].durationMs == 0
  {
  }

  /** The audit line of a stream tells what its last frame tells. */
  lemma AuditMatchesFrame(d: Decoded, ask: Ask, capture: bool, latencyMs: int)
    ensures
      var e, f := StreamAudit(d, ask, capture, latencyMs), Terminal(d, ask, capture, latencyMs);
      && e.timestamp == None && e.requestId == ask.requestId == f.requestId && e.caller == ask.caller && e.query == ask.query
      && e.latencyMs == latencyMs && e.outcome == (if IsEof(d.end) then Audit.Ok else Audit.Error)
      && if f.Done?
         then e.status == 200 && e.model == f.model && e.promptTokens == f.usage.promptTokens
              && e.completionTokens == f.usage.completionTokens && e.toolCalls == ToAuditToolCalls(f.toolCalls)
              && f.latencyMs == latencyMs
         else f.Failed? && e.status == f.status && e.promptTokens == e.completionTokens == 0 && e.toolCalls == []
              && e.answer == ""
  {
  }

  /** Frames, `done` frame and audit line name the same tools; the audit answer is the token text. */
  lemma StreamTotalsAgree(d: Decoded, ask: Ask, capture: bool, latencyMs: int)
    requires IsEof(d.end)
    ensures
      var es := StreamEvents(d, ask, capture, latencyMs);
      var audit := StreamAudit(d, ask, capture, latencyMs);
      && es[|es| - 1].Done? && es[|es| - 1].toolCalls == ToolsOf(es)
      && audit.toolCalls == ToAuditToolCalls(ToolsOf(es))
      && audit.answer == (if capture then TextOf(es) else "")
  {
    TotalsAgree(ask.model, d.chunks, capture);
    ToolsOfAppend(Events(d.chunks), [Terminal(d, ask, capture, latencyMs)]);
    TextOfAppend(Events(d.chunks), [Terminal(d, ask, capture, latencyMs)]);
  }

  // ---------------------------------------------------------------- bytes in, frames out

  /** Nothing in the body stops the decoding before its end. */
  ghost predicate Decodable(input: bytes, e: Ending, parse: Parser) {
    var s := SplitLF(input);
    && (forall i :: 0 <= i < |s.lines| ==> !DecodeLine(s.lines[i], parse).Stop?)
    && TailFits(s.tail, e)
    && (e.fin == Eof ==> !DecodeText(s.tail, parse).Stop?)
  }

  lemma {:induction false} CutEnd(items: seq<Item>)
    ensures
      if forall i :: 0 <= i < |items| ==> !items[i].Stop? then Cut(items).end == Eof
      else exists i :: 0 <= i < |items| && items[i] == Stop(Cut(items).end)
                       && forall j :: 0 <= j < i ==> !items[j].Stop?
  {
    if items != [] && !items[0].Stop? {
      var rest := items[1..];
      CutEnd(rest);
      assert forall i :: 0 < i < |items| ==> items[i] == rest[i - 1];
      if j :| 0 <= j < |rest| && rest[j] == Stop(Cut(rest).end) && forall k :: 0 <= k < j ==> !rest[k].Stop? {
        assert items[j + 1] == Stop(Cut(items).end);
      }
    }
  }

  /**
   The client sees `done` exactly when the whole body decodes and the transport's own error is, or
   wraps, io.EOF.
  */
  lemma DoneIff(input: bytes, e: Ending, parse: Parser)
    ensures IsEof(Decode(input, e, parse).end) <==> Decodable(input, e, parse) && IsEof(e.fin)
  {
    var s := SplitLF(input);
    var items := Items(input, e, parse);
    var tail := DecodeTail(s.tail, e, parse);
    CutEnd(items);
    assert items[|s.lines|] == tail;
    assert forall i :: 0 <= i < |s.lines| ==> items[i] == DecodeLine(s.lines[i], parse);
  }

  /**
   End to end: for every upstream body, however the transport cuts it and wherever the client's
   connection breaks, the client parses a prefix of the specified frames, and all of them if it does
   not break. They are the chunks' events in order and one terminal frame, last, which is `done`
   exactly when the body decoded to its end.
  */
  lemma EndToEnd(input: bytes, e: Ending, parse: Parser, ask: Ask, capture: bool, latencyMs: int,
                 encode: Encoder, limit: Option<nat>)
    requires OneLine(encode)
    ensures
      var d := Decode(input, e, parse);
      var es := StreamEvents(d, ask, capture, latencyMs);
      var frames := ToFrames(encode, es);
      var seen := Parse(Delivered(Wire(frames), limit));
      && seen <= frames && (limit.None? ==> seen == frames)
      && (limit.Some? ==> |seen| == Whole(frames, limit.value))
      && |es| == |Events(d.chunks)| + 1
      && (forall i :: 0 <= i < |es| - 1 ==> es[i] == Events(d.chunks)[i] && !es[i].Done? && !es[i].Failed?)
      && (if Decodable(input, e, parse) && IsEof(e.fin) then es[|es| - 1].Done? else es[|es| - 1].Failed?)
  {
    var d := Decode(input, e, parse);
    var es := StreamEvents(d, ask, capture, latencyMs);
    FramesWellFormed(encode, es);
    RoundTrip(ToFrames(encode, es), limit);
    NoTerminalInside(d.chunks);
    DoneIff(input, e, parse);
  }

  // ---------------------------------------------------------------- what the audit line reveals

  /** Two chunks that differ at most in thinking, role, content, tool arguments, reason and duration. */
  ghost predicate SamePublic(a: Chunk, b: Chunk) {
    && a.model == b.model && a.done == b.done
    && a.promptEvalCount == b.promptEvalCount && a.evalCount == b.evalCount
    && |a.message.toolCalls| == |b.message.toolCalls|
    && forall i :: 0 <= i < |a.message.toolCalls| ==> a.message.toolCalls[i].name == b.message.toolCalls[i].name
  }

  lemma {:induction false} SameSummary(model: string, a: seq<Chunk>, b: seq<Chunk>)
    requires |a| == |b| && forall i :: 0 <= i < |a| ==> SamePublic(a[i], b[i])
    ensures
      var s, t := Summary(model, a, false), Summary(model, b, false);
      && s.model == t.model && s.usage == t.usage && s.answer == t.answer == ""
      && |s.tools| == |t.tools|
      && forall i :: 0 <= i < |s.tools| ==> s.tools[i].name == t.tools[i].name
    decreases |a|
  {
    if a != [] {
      SameSummary(model, a[..|a| - 1], b[..|b| - 1]);
      assert SamePublic(a[|a| - 1], b[|b| - 1]);
    }
  }

  /**
   Non-interference: with query logging off, two streams that differ only in the query, in thinking,
   roles, contents and tool arguments, and in how an error came about, leave the same audit line.
  */
  lemma AuditNonInterference(d: Decoded, d': Decoded, ask: Ask, ask': Ask, latencyMs: int, now: int,
                             marshal: Audit.Marshal)
    requires |d.chunks| == |d'.chunks| && forall i :: 0 <= i < |d.chunks| ==> SamePublic(d.chunks[i], d'.chunks[i])
    requires IsEof(d.end) == IsEof(d'.end) && BridgeErrorStatus(d.end) == BridgeErrorStatus(d'.end)
    requires ask' == ask.(query := ask'.query)
    ensures marshal(Audit.Redacted(StreamAudit(d, ask, false, latencyMs), false, now))
         == marshal(Audit.Redacted(StreamAudit(d', ask', false, latencyMs), false, now))
  {
    SameSummary(ask.model, d.chunks, d'.chunks);
    var s, t := Summary(ask.model, d.chunks, false), Summary(ask.model, d'.chunks, false);
    assert ToAuditToolCalls(s.tools) == ToAuditToolCalls(t.tools);
  }
}
