/** The audit log: one redacted JSON line per event, written whole. */
module Audit {
  import opened Bytes
  import opened Wrappers

  datatype Outcome = Ok | Error | RateLimited

  /** A tool invocation; its arguments are never logged. */
  datatype ToolUse = ToolUse(name: string, durationMs: int)

  datatype Event = Event(
    timestamp: Option<int>,
    requestId: string,
    caller: string,
    model: string,
    promptTokens: int,
    completionTokens: int,
    toolCalls: seq<ToolUse>,
    latencyMs: int,
    status: int,
    outcome: Outcome,
    query: string,
    answer: string)

  /** JSON encoding of an event. */
  type Marshal = Event -> bytes

  /** JSON escapes line breaks, so an encoded event never contains one. */
  ghost predicate OneLine(marshal: Marshal) {
    forall e :: LF !in marshal(e)
  }

  /** The event as it reaches the log. */
  function Redacted(e: Event, logQuery: bool, now: int): Event {
    var stamped := if e.timestamp.None? then e.(timestamp := Some(now)) else e;
    if logQuery then stamped else stamped.(query := "", answer := "")
  }

  /**
   What redaction does: a missing timestamp is filled in, query and answer are erased unless they are to be
   logged, and everything else is as it was.
  */
  lemma RedactedIs(e: Event, logQuery: bool, now: int)
    ensures
      var r := Redacted(e, logQuery, now);
      && r.timestamp == Some(if e.timestamp.Some? then e.timestamp.value else now)
      && (r.requestId, r.caller, r.model) == (e.requestId, e.caller, e.model)
      && (r.promptTokens, r.completionTokens, r.toolCalls) == (e.promptTokens, e.completionTokens, e.toolCalls)
      && (r.latencyMs, r.status, r.outcome) == (e.latencyMs, e.status, e.outcome)
      && (r.query, r.answer) == if logQuery then (e.query, e.answer) else ("", "")
  {
  }

  class Logger {
    const logQuery: bool
    const marshal: Marshal
    var sink: bytes

    constructor (logQuery: bool, marshal: Marshal)
      ensures this.logQuery == logQuery && this.marshal == marshal && sink == []
    {
      this.logQuery, this.marshal, sink := logQuery, marshal, [];
    }

    /** One event on a sink that accepts the write. */
    method Log(e: Event, now: int)
      modifies this
      ensures sink == old(sink) + marshal(Redacted(e, logQuery, now)) + [LF]
    {
      var event := e;
      if event.timestamp.None? {
        event := event.(timestamp := Some(now));
      }
      if !logQuery {
        event := event.(query := "", answer := "");
      }
      var buf := marshal(event);
      buf := buf + [LF];
      sink := sink + buf;
      assert sink == old(sink) + marshal(event) + [LF];
    }
  }
}
