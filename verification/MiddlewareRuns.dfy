/** requests_in_flight and requests_total over every interleaving of requests. */
module MiddlewareRuns {
  import opened Wrappers
  import opened Tallies
  import opened Middleware

  /**
   Running: the gauge is incremented and the handler has done `ops`. Unwinding: the handler has returned
   or panicked and the deferred function is about to run. Left: the gauge is decremented. Recorded: the
   request is in requests_total under its status.
  */
  datatype Phase =
    | Arrived
    | Running(ops: seq<Op>)
    | Unwinding(ops: seq<Op>, panicked: bool)
    | Left(ops: seq<Op>, panicked: bool)
    | Recorded(ops: seq<Op>, panicked: bool)

  /** The status under which a handler's response is recorded. */
  function Status(ops: seq<Op>): int {
    ApplyAll(UNTOUCHED, ops).status
  }

  /** requests_total holds one element per counted request: its status label. */
  datatype State = State(reqs: seq<Phase>, gauge: int, total: multiset<int>)

  datatype Action =
    | Arrive
    | Enter(id: nat)
    | Handle(id: nat, op: Op)
    | Return(id: nat, panicked: bool)
    | Decrement(id: nat)
    | Count(id: nat)

  function Init(): State {
    State([], 0, multiset{})
  }

  predicate Enabled(s: State, a: Action) {
    match a
    case Arrive => true
    case Enter(id) => id < |s.reqs| && s.reqs[id].Arrived?
    case Handle(id, _) => id < |s.reqs| && s.reqs[id].Running?
    case Return(id, _) => id < |s.reqs| && s.reqs[id].Running?
    case Decrement(id) => id < |s.reqs| && s.reqs[id].Unwinding?
    case Count(id) => id < |s.reqs| && s.reqs[id].Left?
  }

  function Step(s: State, a: Action): State
    requires Enabled(s, a)
  {
    match a
    case Arrive => s.(reqs := s.reqs + [Arrived])
    case Enter(id) => s.(reqs := s.reqs[id := Running([])], gauge := s.gauge + 1)
    case Handle(id, op) => s.(reqs := s.reqs[id := Running(s.reqs[id].ops + [op])])
    case Return(id, panicked) => s.(reqs := s.reqs[id := Unwinding(s.reqs[id].ops, panicked)])
    case Decrement(id) => s.(reqs := s.reqs[id := Left(s.reqs[id].ops, s.reqs[id].panicked)], gauge := s.gauge - 1)
    case Count(id) =>
      s.(reqs := s.reqs[id := Recorded(s.reqs[id].ops, s.reqs[id].panicked)],
         total := s.total + multiset{Status(s.reqs[id].ops)})
  }

  function Run(s: State, acts: seq<Action>): Option<State>
    decreases |acts|
  {
    if acts == [] then Some(s)
    else if Enabled(s, acts[0]) then Run(Step(s, acts[0]), acts[1..])
    else None
  }

  function InFlight(p: Phase): int {
    if p.Running? || p.Unwinding? then 1 else 0
  }

  function Done(p: Phase): int {
    if p.Recorded? then 1 else 0
  }

  /** Requests between two counters: not yet in the gauge, or out of it and not yet in the total. */
  function Between(p: Phase): int {
    if p.Arrived? || p.Left? then 1 else 0
  }

  function DoneAs(status: int): Phase -> int {
    (p: Phase) => if p.Recorded? && Status(p.ops) == status then 1 else 0
  }

  ghost predicate Conserved(s: State) {
    && s.gauge == Tally(s.reqs, InFlight)
    && |s.total| == Tally(s.reqs, Done)
    && forall status :: s.total[status] == Tally(s.reqs, DoneAs(status))
  }

  lemma ConservedStep(s: State, a: Action)
    requires Conserved(s) && Enabled(s, a)
    ensures Conserved(Step(s, a))
  {
    var s' := Step(s, a);
    if a.Arrive? {
      TallyAppend(s.reqs, InFlight, Arrived);
      TallyAppend(s.reqs, Done, Arrived);
      forall status {
        TallyAppend(s.reqs, DoneAs(status), Arrived);
      }
    } else {
      TallyUpdate(s.reqs, InFlight, a.id, s'.reqs[a.id]);
      TallyUpdate(s.reqs, Done, a.id, s'.reqs[a.id]);
      forall status {
        TallyUpdate(s.reqs, DoneAs(status), a.id, s'.reqs[a.id]);
      }
    }
  }

  lemma {:induction false} ConservedRun(s: State, acts: seq<Action>)
    requires Conserved(s) && Run(s, acts).Some?
    ensures Conserved(Run(s, acts).value)
    decreases |acts|
  {
    if acts != [] {
      ConservedStep(s, acts[0]);
      ConservedRun(Step(s, acts[0]), acts[1..]);
    }
  }

  lemma {:induction false} EveryRequestSomewhere(reqs: seq<Phase>)
    ensures Tally(reqs, InFlight) + Tally(reqs, Done) + Tally(reqs, Between) == |reqs|
  {
    if reqs != [] {
      EveryRequestSomewhere(reqs[1..]);
    }
  }

  /**
   Counter conservation: at every moment of every interleaving, panics included, the gauge is the number
   of handlers running or unwinding, every label of requests_total has the number of requests recorded
   with that status, and gauge and total miss the arrivals only by the requests between two counters.
  */
  lemma CounterConservation(acts: seq<Action>)
    requires Run(Init(), acts).Some?
    ensures
      var s := Run(Init(), acts).value;
      && s.gauge == Tally(s.reqs, InFlight)
      && (forall status :: s.total[status] == Tally(s.reqs, DoneAs(status)))
      && s.gauge + |s.total| + Tally(s.reqs, Between) == |s.reqs|
  {
    ConservedRun(Init(), acts);
    EveryRequestSomewhere(Run(Init(), acts).value.reqs);
  }

  // ---------------------------------------------------------------- what the clients got

  /** Recorded requests whose client got this status. */
  function GotStatus(status: int): Phase -> int {
    (p: Phase) => if p.Recorded? && OnWire(ApplyAll(UNTOUCHED, p.ops), p.panicked) == Some(status) then 1 else 0
  }

  /** Recorded requests whose handler did not keep its record true. */
  ghost function Misrecorded(p: Phase): int {
    if p.Recorded? && !Truthful(p.ops, p.panicked) then 1 else 0
  }

  lemma LabelOfOne(p: Phase, status: int)
    ensures -Misrecorded(p) <= DoneAs(status)(p) - GotStatus(status)(p) <= Misrecorded(p)
  {
    if p.Recorded? {
      RecordedStatusIff(p.ops, p.panicked);
    }
  }

  ghost function MisrecordedIn(reqs: seq<Phase>): int {
    if reqs == [] then 0 else Misrecorded(reqs[0]) + MisrecordedIn(reqs[1..])
  }

  lemma {:induction false} LabelsOf(reqs: seq<Phase>, status: int)
    ensures -MisrecordedIn(reqs) <= Tally(reqs, DoneAs(status)) - Tally(reqs, GotStatus(status)) <= MisrecordedIn(reqs)
  {
    if reqs != [] {
      LabelOfOne(reqs[0], status);
      LabelsOf(reqs[1..], status);
    }
  }

  /**
   At every moment of every interleaving, each label of requests_total misses the number of clients that
   got that status by no more than the recorded requests whose handlers panicked unseen or lost their header.
  */
  lemma LabelsTrackTheWire(acts: seq<Action>, status: int)
    requires Run(Init(), acts).Some?
    ensures
      var s := Run(Init(), acts).value;
      -MisrecordedIn(s.reqs) <= s.total[status] - Tally(s.reqs, GotStatus(status)) <= MisrecordedIn(s.reqs)
  {
    ConservedRun(Init(), acts);
    LabelsOf(Run(Init(), acts).value.reqs, status);
  }

  /** A handler that panics before its first write is counted as a 200 that no client ever got. */
  lemma PanicCountedAs200() returns (acts: seq<Action>)
    ensures acts == [Arrive, Enter(0), Return(0, true), Decrement(0), Count(0)]
    ensures Run(Init(), acts).Some?
    ensures
      var s := Run(Init(), acts).value;
      s.total == multiset{200} && forall status :: Tally(s.reqs, GotStatus(status)) == 0
  {
    acts := [Arrive, Enter(0), Return(0, true), Decrement(0), Count(0)];
    var ending := [Return(0, true), Decrement(0), Count(0)];
    assert acts[1..] == [Enter(0)] + ending && acts[1..][1..] == ending;
    var s := Step(Step(Init(), Arrive), Enter(0));
    assert s == State([Running([])], 1, multiset{});
    assert Run(Step(Init(), Arrive), acts[1..]) == Run(s, ending);
    PanicEnding(s, ending);
  }

  lemma PanicEnding(s: State, ending: seq<Action>)
    requires s == State([Running([])], 1, multiset{}) && ending == [Return(0, true), Decrement(0), Count(0)]
    ensures Run(s, ending) == Some(State([Recorded([], true)], 0, multiset{200}))
    ensures forall status :: Tally([Recorded([], true)], GotStatus(status)) == 0
  {
    assert ending[1..] == [Decrement(0), Count(0)] && ending[1..][1..] == [Count(0)] && ending[1..][1..][1..] == [];
    var s1 := Step(s, Return(0, true));
    var s2 := Step(s1, Decrement(0));
    var s3 := Step(s2, Count(0));
    assert s1.reqs == [Unwinding([], true)] && s2.reqs == [Left([], true)] && s3.reqs == [Recorded([], true)];
    assert Run(s2, [Count(0)]) == Some(s3);
    assert Run(s1, ending[1..]) == Run(s2, [Count(0)]);
    assert Run(s, ending) == Run(s1, ending[1..]);
    assert s3 == State([Recorded([], true)], 0, multiset{200}) by {
      assert Status([]) == 200;
    }
    assert OnWire(ApplyAll(UNTOUCHED, []), true) == None;
    var reqs := [Recorded([], true)];
    assert reqs[1..] == [];
    forall status
      ensures Tally(reqs, GotStatus(status)) == 0
    {
      assert GotStatus(status)(reqs[0]) == 0;
      assert Tally(reqs, GotStatus(status)) == GotStatus(status)(reqs[0]) + Tally(reqs[1..], GotStatus(status));
    }
  }
}
