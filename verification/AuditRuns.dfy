/** Concurrent Log calls on a sink that receives each write in pieces. */
module AuditRuns {
  import opened Bytes
  import opened Wrappers
  import opened Audit

  /** A call marshals first, then writes under the lock; `left` is what its write still has to deliver. */
  datatype Phase = Marshalled | Writing(left: bytes) | Returned

  datatype LogCall = LogCall(line: bytes, phase: Phase)

  /** `order` lists the calls in the order in which they took the lock. */
  datatype State = State(sink: bytes, lock: Option<nat>, calls: seq<LogCall>, order: seq<nat>)

  datatype Action = Begin(e: Event, now: int) | Lock(id: nat) | Deliver(id: nat, n: nat) | Unlock(id: nat)

  function Init(): State {
    State([], None, [], [])
  }

  predicate Enabled(s: State, a: Action) {
    match a
    case Begin(_, _) => true
    case Lock(id) => id < |s.calls| && s.calls[id].phase.Marshalled? && s.lock.None?
    case Deliver(id, n) => id < |s.calls| && s.calls[id].phase.Writing? && 0 < n <= |s.calls[id].phase.left|
    case Unlock(id) => id < |s.calls| && s.calls[id].phase == Writing([])
  }

  function Move(s: State, id: nat, p: Phase): State
    requires id < |s.calls|
  {
    s.(calls := s.calls[id := s.calls[id].(phase := p)])
  }

  function Step(logQuery: bool, marshal: Marshal, s: State, a: Action): State
    requires Enabled(s, a)
  {
    match a
    case Begin(e, now) => s.(calls := s.calls + [LogCall(marshal(Redacted(e, logQuery, now)), Marshalled)])
    case Lock(id) => Move(s, id, Writing(s.calls[id].line + [LF])).(lock := Some(id), order := s.order + [id])
    case Deliver(id, n) =>
      var left := s.calls[id].phase.left;
      Move(s, id, Writing(left[n..])).(sink := s.sink + left[..n])
    case Unlock(id) => Move(s, id, Returned).(lock := None)
  }

  function Run(logQuery: bool, marshal: Marshal, s: State, acts: seq<Action>): Option<State>
    decreases |acts|
  {
    if acts == [] then Some(s)
    else if Enabled(s, acts[0]) then Run(logQuery, marshal, Step(logQuery, marshal, s, acts[0]), acts[1..])
    else None
  }

  ghost predicate OrderInv(s: State) {
    && (forall i :: 0 <= i < |s.order| ==> s.order[i] < |s.calls|)
    && (forall i, j :: 0 <= i < j < |s.order| ==> s.order[i] != s.order[j])
    && (forall id :: 0 <= id < |s.calls| ==> (id in s.order <==> !s.calls[id].phase.Marshalled?))
    && (forall id :: 0 <= id < |s.calls| ==> (s.calls[id].phase.Writing? <==> s.lock == Some(id)))
    && (s.lock.Some? ==> s.order != [] && s.order[|s.order| - 1] == s.lock.value)
  }

  /** The lines of the calls in lock order. */
  function Texts(s: State): (t: seq<bytes>)
    requires forall i :: 0 <= i < |s.order| ==> s.order[i] < |s.calls|
    ensures |t| == |s.order|
  {
    seq(|s.order|, i requires 0 <= i < |s.order| => s.calls[s.order[i]].line)
  }

  /** What the lock holder has yet to deliver. */
  function Owed(s: State): bytes {
    if s.lock.Some? && s.lock.value < |s.calls| && s.calls[s.lock.value].phase.Writing?
    then s.calls[s.lock.value].phase.left else []
  }

  ghost predicate Inv(s: State) {
    && OrderInv(s)
    && (forall id :: 0 <= id < |s.calls| ==> LF !in s.calls[id].line)
    && s.sink + Owed(s) == Joined(Texts(s), [])
  }

  lemma OrderStep(logQuery: bool, marshal: Marshal, s: State, a: Action)
    requires OrderInv(s) && Enabled(s, a)
    ensures OrderInv(Step(logQuery, marshal, s, a))
  {
  }

  lemma InvQuiet(logQuery: bool, marshal: Marshal, s: State, a: Action)
    requires OneLine(marshal) && Inv(s) && Enabled(s, a) && (a.Begin? || a.Unlock?)
    ensures Inv(Step(logQuery, marshal, s, a))
  {
    OrderStep(logQuery, marshal, s, a);
    assert Texts(Step(logQuery, marshal, s, a)) == Texts(s);
  }

  lemma InvLock(logQuery: bool, marshal: Marshal, s: State, id: nat)
    requires Inv(s) && Enabled(s, Lock(id))
    ensures Inv(Step(logQuery, marshal, s, Lock(id)))
  {
    var s' := Step(logQuery, marshal, s, Lock(id));
    var line := s.calls[id].line;
    OrderStep(logQuery, marshal, s, Lock(id));
    assert Texts(s') == Texts(s) + [line];
    JoinedAppend(Texts(s), line);
    assert s.sink + Owed(s) == s.sink;
    assert s.sink + (line + [LF]) == s.sink + line + [LF];
  }

  lemma InvDeliver(logQuery: bool, marshal: Marshal, s: State, id: nat, n: nat)
    requires Inv(s) && Enabled(s, Deliver(id, n))
    ensures Inv(Step(logQuery, marshal, s, Deliver(id, n)))
  {
    var left := s.calls[id].phase.left;
    OrderStep(logQuery, marshal, s, Deliver(id, n));
    assert Texts(Step(logQuery, marshal, s, Deliver(id, n))) == Texts(s);
    assert s.sink + left[..n] + left[n..] == s.sink + left;
  }

  lemma InvStep(logQuery: bool, marshal: Marshal, s: State, a: Action)
    requires OneLine(marshal) && Inv(s) && Enabled(s, a)
    ensures Inv(Step(logQuery, marshal, s, a))
  {
    match a
    case Lock(id) => InvLock(logQuery, marshal, s, id);
    case Deliver(id, n) => InvDeliver(logQuery, marshal, s, id, n);
    case _ => InvQuiet(logQuery, marshal, s, a);
  }

  lemma {:induction false} InvRun(logQuery: bool, marshal: Marshal, s: State, acts: seq<Action>)
    requires OneLine(marshal) && Inv(s) && Run(logQuery, marshal, s, acts).Some?
    ensures Inv(Run(logQuery, marshal, s, acts).value)
    decreases |acts|
  {
    if acts != [] {
      InvStep(logQuery, marshal, s, acts[0]);
      InvRun(logQuery, marshal, Step(logQuery, marshal, s, acts[0]), acts[1..]);
    }
  }

  /**
   Line atomicity: however Log calls and the pieces of their writes interleave, the sink is at all
   times a prefix of the whole lines in lock order, and whenever nobody is writing it splits into
   exactly one line per finished call.
  */
  lemma LinesNeverInterleave(logQuery: bool, marshal: Marshal, acts: seq<Action>)
    requires OneLine(marshal) && Run(logQuery, marshal, Init(), acts).Some?
    ensures
      var s := Run(logQuery, marshal, Init(), acts).value;
      && OrderInv(s)
      && s.sink <= Joined(Texts(s), [])
      && (s.lock.None? ==>
           && SplitLF(s.sink) == Split(Texts(s), [])
           && forall id :: 0 <= id < |s.calls| ==> (id in s.order <==> s.calls[id].phase.Returned?))
  {
    assert Texts(Init()) == [];
    InvRun(logQuery, marshal, Init(), acts);
    var s := Run(logQuery, marshal, Init(), acts).value;
    assert s.sink <= s.sink + Owed(s);
    if s.lock.None? {
      assert s.sink + Owed(s) == s.sink;
      SplitJoined(Texts(s), []);
    }
  }

  /** The line of an event, told by what becomes of its fields. */
  function Rendered(logQuery: bool, marshal: Marshal, e: Event, now: int): bytes {
    marshal(e.(
      timestamp := if e.timestamp.Some? then e.timestamp else Some(now),
      query := if logQuery then e.query else "",
      answer := if logQuery then e.answer else ""))
  }

  /** The lines of the events that are logged, in the order of the calls. */
  function Logged(logQuery: bool, marshal: Marshal, acts: seq<Action>): seq<bytes> {
    if acts == [] then []
    else (if acts[0].Begin? then [Rendered(logQuery, marshal, acts[0].e, acts[0].now)] else [])
         + Logged(logQuery, marshal, acts[1..])
  }

  function Lines(s: State): seq<bytes> {
    seq(|s.calls|, i requires 0 <= i < |s.calls| => s.calls[i].line)
  }

  lemma StepLines(logQuery: bool, marshal: Marshal, s: State, a: Action)
    requires Enabled(s, a)
    ensures Lines(Step(logQuery, marshal, s, a))
         == Lines(s) + if a.Begin? then [Rendered(logQuery, marshal, a.e, a.now)] else []
  {
    RedactedIsRendered(logQuery, marshal);
  }

  lemma RedactedIsRendered(logQuery: bool, marshal: Marshal)
    ensures forall e, now :: marshal(Redacted(e, logQuery, now)) == Rendered(logQuery, marshal, e, now)
  {
  }

  /** Each call's line is that of its own event, redacted. */
  lemma {:induction false} LinesAreEvents(logQuery: bool, marshal: Marshal, s: State, acts: seq<Action>)
    requires Run(logQuery, marshal, s, acts).Some?
    ensures Lines(Run(logQuery, marshal, s, acts).value) == Lines(s) + Logged(logQuery, marshal, acts)
    decreases |acts|
  {
    if acts != [] {
      StepLines(logQuery, marshal, s, acts[0]);
      LinesAreEvents(logQuery, marshal, Step(logQuery, marshal, s, acts[0]), acts[1..]);
    }
  }
}
