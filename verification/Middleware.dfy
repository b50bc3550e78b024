/** The metrics middleware: the status it records, and the counters it keeps. */
module Middleware {
  import opened Wrappers

  /** What a handler does to its response; a write `spills` when net/http can no longer hold the body back. */
  datatype Op = WriteHeader(code: int) | Write(spills: bool) | Flush

  /** The operations after which the status line is on its way. */
  predicate Pushes(op: Op) {
    op.Flush? || (op.Write? && op.spills)
  }

  /**
   Codes that commit the response. An informational one is sent ahead without committing it, and on one
   that is out of range net/http panics before it commits to anything.
  */
  predicate Commits(code: int) {
    100 <= code <= 999 && (code == 101 || 200 <= code)
  }

  /** net/http's response: the code it has committed to, and whether that has left for the client. */
  class Response {
    var committed: Option<int>
    var sent: bool

    constructor ()
      ensures committed == None && !sent
    {
      committed, sent := None, false;
    }

    method WriteHeader(code: int)
      modifies this
      ensures committed == Committed(old(committed), Op.WriteHeader(code)) && sent == old(sent)
    {
      if committed.None? && Commits(code) {
        committed := Some(code);
      }
    }

    method Write(spills: bool)
      modifies this
      ensures committed == Committed(old(committed), Op.Write(spills)) && sent == (old(sent) || spills)
    {
      if committed.None? {
        committed := Some(200);
      }
      sent := sent || spills;
    }

    method Flush()
      modifies this
      ensures committed == Committed(old(committed), Op.Flush) && sent
    {
      if committed.None? {
        committed := Some(200);
      }
      sent := true;
    }
  }

  function Committed(c: Option<int>, op: Op): Option<int> {
    if c.Some? then c
    else match op
      case WriteHeader(code) => if Commits(code) then Some(code) else None
      case Write(_) => Some(200)
      case Flush => Some(200)
  }

  /** A statusWriter and the response under it, as a value. */
  datatype Wrapped = Wrapped(status: int, wroteHeader: bool, committed: Option<int>, sent: bool)

  const UNTOUCHED: Wrapped := Wrapped(200, false, None, false)
  const FLUSHED: Wrapped := Wrapped(200, false, Some(200), true)

  function Apply(s: Wrapped, op: Op): Wrapped {
    match op
    case WriteHeader(code) =>
      if s.wroteHeader then s else Wrapped(code, true, Committed(s.committed, op), s.sent)
    case Write(spills) =>
      if s.wroteHeader then s.(committed := Committed(s.committed, op), sent := s.sent || spills)
      else Wrapped(200, true, Committed(s.committed, op), s.sent || spills)
    case Flush => s.(committed := Committed(s.committed, op), sent := true)
  }

  class StatusWriter {
    const inner: Response
    var status: int
    var wroteHeader: bool

    function Snapshot(): Wrapped
      reads this, inner
    {
      Wrapped(status, wroteHeader, inner.committed, inner.sent)
    }

    constructor (inner: Response)
      requires inner.committed.None? && !inner.sent
      ensures this.inner == inner && Snapshot() == UNTOUCHED
    {
      this.inner, status, wroteHeader := inner, 200, false;
    }

    method WriteHeader(code: int)
      modifies this, inner
      ensures Snapshot() == Apply(old(Snapshot()), Op.WriteHeader(code))
    {
      if wroteHeader {
        return;
      }
      status, wroteHeader := code, true;
      inner.WriteHeader(code);
    }

    method Write(spills: bool)
      modifies this, inner
      ensures Snapshot() == Apply(old(Snapshot()), Op.Write(spills))
    {
      if !wroteHeader {
        WriteHeader(200);
      }
      inner.Write(spills);
    }

    method Flush()
      modifies inner
      ensures Snapshot() == Apply(old(Snapshot()), Op.Flush)
    {
      inner.Flush();
    }
  }

  function ApplyAll(s: Wrapped, ops: seq<Op>): Wrapped
    decreases |ops|
  {
    if ops == [] then s else ApplyAll(Apply(s, ops[0]), ops[1..])
  }

  /** The code that net/http sends when it finishes the response: 200 when nothing was committed. */
  function Answered(s: Wrapped): int {
    if s.committed.Some? then s.committed.value else 200
  }

  /** The code the client gets: none when the handler panics before anything has left for it. */
  function OnWire(s: Wrapped, panicked: bool): Option<int> {
    if panicked && !s.sent then None else Some(Answered(s))
  }

  /** Once the wrapper has seen a header, nothing a handler does changes what it records or what is committed. */
  lemma {:induction false} Settled(s: Wrapped, ops: seq<Op>)
    requires s.wroteHeader
    ensures ApplyAll(s, ops).status == s.status && Answered(ApplyAll(s, ops)) == Answered(s)
    decreases |ops|
  {
    if ops != [] {
      Settled(Apply(s, ops[0]), ops[1..]);
    }
  }

  lemma {:induction false} SentIff(s: Wrapped, ops: seq<Op>)
    ensures ApplyAll(s, ops).sent <==> s.sent || exists i :: 0 <= i < |ops| && Pushes(ops[i])
    decreases |ops|
  {
    if ops != [] {
      SentIff(Apply(s, ops[0]), ops[1..]);
      assert forall i :: 0 < i < |ops| ==> ops[i] == ops[1..][i - 1];
    }
  }

  /** Position `k` holds the handler's first header, with nothing but flushes before it. */
  ghost predicate FirstHeader(ops: seq<Op>, k: nat) {
    k < |ops| && ops[k].WriteHeader? && forall i :: 0 <= i < k ==> ops[i].Flush?
  }

  lemma {:induction false} RecordedAfterFlush(ops: seq<Op>)
    ensures
      var s := ApplyAll(FLUSHED, ops);
      s.status == Answered(s) <==> forall k: nat :: FirstHeader(ops, k) ==> ops[k].code == 200
  {
    if ops != [] {
      var rest := ops[1..];
      if ops[0].Flush? {
        RecordedAfterFlush(rest);
        assert forall k: nat :: k < |rest| ==> (FirstHeader(rest, k) <==> FirstHeader(ops, k + 1));
        assert forall k: nat :: FirstHeader(ops, k) ==> FirstHeader(rest, k - 1);
      } else {
        Settled(Apply(FLUSHED, ops[0]), rest);
        assert forall k: nat :: FirstHeader(ops, k) ==> k == 0;
        assert ops[0].WriteHeader? ==> FirstHeader(ops, 0);
      }
    }
  }

  /** The first header, if only flushes precede it, is 200, or is one that net/http commits to and is not flushed over. */
  ghost predicate HeaderSurvives(ops: seq<Op>) {
    forall k: nat :: FirstHeader(ops, k) ==> ops[k].code == 200 || (k == 0 && Commits(ops[k].code))
  }

  lemma RecordedAnswerIff(ops: seq<Op>)
    ensures
      var s := ApplyAll(UNTOUCHED, ops);
      s.status == Answered(s) <==> HeaderSurvives(ops)
  {
    if ops != [] {
      var rest := ops[1..];
      if ops[0].Flush? {
        RecordedAfterFlush(rest);
        assert forall k: nat :: k < |rest| ==> (FirstHeader(rest, k) <==> FirstHeader(ops, k + 1));
        assert forall k: nat :: FirstHeader(ops, k) ==> FirstHeader(rest, k - 1);
      } else {
        Settled(Apply(UNTOUCHED, ops[0]), rest);
        assert forall k: nat :: FirstHeader(ops, k) ==> k == 0;
        assert ops[0].WriteHeader? ==> FirstHeader(ops, 0);
      }
    }
  }

  /** What is recorded: the first header, if only flushes precede it, and otherwise 200. */
  lemma {:induction false} RecordedIs(s: Wrapped, ops: seq<Op>)
    requires !s.wroteHeader && s.status == 200
    ensures forall k: nat :: FirstHeader(ops, k) ==> ApplyAll(s, ops).status == ops[k].code
    ensures (forall k: nat :: !FirstHeader(ops, k)) ==> ApplyAll(s, ops).status == 200
    decreases |ops|
  {
    if ops != [] {
      var rest, s' := ops[1..], Apply(s, ops[0]);
      if ops[0].Flush? {
        RecordedIs(s', rest);
        assert forall k: nat :: k < |rest| ==> (FirstHeader(rest, k) <==> FirstHeader(ops, k + 1));
        assert forall k: nat :: FirstHeader(ops, k) ==> FirstHeader(rest, k - 1);
      } else {
        Settled(s', rest);
        assert forall k: nat :: FirstHeader(ops, k) ==> k == 0;
        assert ops[0].WriteHeader? ==> FirstHeader(ops, 0);
      }
    }
  }

  /** What is sent: the code of a first operation that is a header with a final code in range, and otherwise 200. */
  lemma {:induction false} AnsweredIs(ops: seq<Op>)
    ensures
      Answered(ApplyAll(UNTOUCHED, ops)) ==
        if ops != [] && ops[0].WriteHeader? && (ops[0].code == 101 || 200 <= ops[0].code <= 999)
        then ops[0].code else 200
  {
    if ops != [] {
      var s := Apply(UNTOUCHED, ops[0]);
      if ops[0].Flush? {
        CommittedStays(s, ops[1..]);
      } else {
        Settled(s, ops[1..]);
      }
    }
  }

  lemma {:induction false} CommittedStays(s: Wrapped, ops: seq<Op>)
    requires s.committed.Some?
    ensures ApplyAll(s, ops).committed == s.committed
    decreases |ops|
  {
    if ops != [] {
      CommittedStays(Apply(s, ops[0]), ops[1..]);
    }
  }

  /** What a handler must do for its recorded status to be true. */
  ghost predicate Truthful(ops: seq<Op>, panicked: bool) {
    && HeaderSurvives(ops)
    && (panicked ==> exists i :: 0 <= i < |ops| && Pushes(ops[i]))
  }

  /**
   The recorded status is the code the client gets exactly when the handler's first header, if only
   flushes precede it, is 200, or is one that net/http commits to and is not flushed over, and the handler does not
   panic before it has flushed or outgrown the buffer.
  */
  lemma RecordedStatusIff(ops: seq<Op>, panicked: bool)
    ensures
      var s := ApplyAll(UNTOUCHED, ops);
      Some(s.status) == OnWire(s, panicked) <==> Truthful(ops, panicked)
  {
    RecordedAnswerIff(ops);
    SentIff(UNTOUCHED, ops);
  }
}
