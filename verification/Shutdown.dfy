/** The life of the process: two listeners, a result channel with two slots, a signal and the main routine. */
module Shutdown {
  import opened Wrappers

  datatype Name = Api | Metrics

  /** A listener goroutine: ListenAndServe runs, has returned, its result is sent, the WaitGroup is told. */
  datatype Listener = Serving | Returned(failed: bool) | Sent | Finished

  datatype Result = Result(name: Name, failed: bool)

  datatype Outcome = ListenerError(name: Name) | ShutdownError | Clean

  /**
   The main routine. `cause` is the result it selected, if it selected one; `ok` is whether every
   Shutdown call so far succeeded.
  */
  datatype Main =
    | Selecting
    | StoppingApi(cause: Option<Result>)
    | StoppingMetrics(cause: Option<Result>, ok: bool)
    | Waiting(cause: Option<Result>, ok: bool)
    | Draining(ok: bool)
    | Exited(outcome: Outcome)

  datatype State = State(
    api: Listener,
    metrics: Listener,
    stopped: set<Name>,           // Shutdown has been called on these
    channel: seq<Result>,
    signalled: bool,
    main: Main)

  const SLOTS: nat := 2

  datatype Action =
    | Fail(name: Name)            // ListenAndServe returns an unexpected error
    | Close(name: Name)           // ListenAndServe returns http.ErrServerClosed
    | Send(name: Name)
    | Leave(name: Name)           // wg.Done()
    | Signal
    | TakeResult
    | TakeSignal
    | StopApi(succeeds: bool)
    | StopMetrics(succeeds: bool)
    | Proceed                     // wg.Wait() returns
    | Drain
    | Exit

  /** Steps the environment may or may not take; the others are taken in every fair run. */
  predicate External(a: Action) {
    a.Fail? || a.Signal?
  }

  function Init(): State {
    State(Serving, Serving, {}, [], false, Selecting)
  }

  function Of(s: State, n: Name): Listener {
    if n.Api? then s.api else s.metrics
  }

  function With(s: State, n: Name, l: Listener): State {
    if n.Api? then s.(api := l) else s.(metrics := l)
  }

  predicate Failure(cause: Option<Result>) {
    cause.Some? && cause.value.failed
  }

  predicate Enabled(s: State, a: Action)
  {
    match a
    case Fail(n) => Of(s, n).Serving?
    case Close(n) => Of(s, n).Serving? && n in s.stopped
    case Send(n) => Of(s, n).Returned? && |s.channel| < SLOTS
    case Leave(n) => Of(s, n).Sent?
    case Signal => !s.signalled
    case TakeResult => s.main.Selecting? && s.channel != []
    case TakeSignal => s.main.Selecting? && s.signalled
    case StopApi(_) => s.main.StoppingApi?
    case StopMetrics(_) => s.main.StoppingMetrics?
    case Proceed => s.main.Waiting? && s.api.Finished? && s.metrics.Finished?
    case Drain => s.main.Draining? && s.channel != []
    case Exit => s.main.Draining? && s.channel == []
  }

  function Step(s: State, a: Action): State
    requires Enabled(s, a)
  {
    match a
    case Fail(n) => With(s, n, Returned(true))
    case Close(n) => With(s, n, Returned(false))
    case Send(n) => With(s, n, Sent).(channel := s.channel + [Result(n, Of(s, n).failed)])
    case Leave(n) => With(s, n, Finished)
    case Signal => s.(signalled := true)
    case TakeResult => s.(main := StoppingApi(Some(s.channel[0])), channel := s.channel[1..])
    case TakeSignal => s.(main := StoppingApi(None))
    case StopApi(succeeds) => s.(main := StoppingMetrics(s.main.cause, succeeds), stopped := s.stopped + {Api})
    case StopMetrics(succeeds) =>
      s.(main := Waiting(s.main.cause, s.main.ok && succeeds), stopped := s.stopped + {Metrics})
    case Proceed =>
      if Failure(s.main.cause) then s.(main := Exited(ListenerError(s.main.cause.value.name)))
      else s.(main := Draining(s.main.ok))
    case Drain => s.(channel := s.channel[1..])
    case Exit => s.(main := Exited(if s.main.ok then Clean else ShutdownError))
  }

  function Run(s: State, acts: seq<Action>): Option<State>
    decreases |acts|
  {
    if acts == [] then Some(s)
    else if Enabled(s, acts[0]) then Run(Step(s, acts[0]), acts[1..])
    else None
  }

  // ---------------------------------------------------------------- every run ends

  function ListenerRank(l: Listener): nat {
    match l
    case Serving => 3
    case Returned(_) => 2
    case Sent => 1
    case Finished => 0
  }

  function MainRank(m: Main): nat {
    match m
    case Selecting => 5
    case StoppingApi(_) => 4
    case StoppingMetrics(_, _) => 3
    case Waiting(_, _) => 2
    case Draining(_) => 1
    case Exited(_) => 0
  }

  function Rank(s: State): nat
  {
    2 * ListenerRank(s.api) + 2 * ListenerRank(s.metrics) + |s.channel|
    + (if s.signalled then 0 else 1) + MainRank(s.main)
  }

  lemma RankDrops(s: State, a: Action)
    requires Enabled(s, a)
    ensures Rank(Step(s, a)) < Rank(s)
  {
  }

  /** No step can be repeated for ever: a run is never longer than the rank it starts from. */
  lemma {:induction false} RunsAreFinite(s: State, acts: seq<Action>)
    requires Run(s, acts).Some?
    ensures |acts| + Rank(Run(s, acts).value) <= Rank(s)
    decreases |acts|
  {
    if acts != [] {
      RankDrops(s, acts[0]);
      RunsAreFinite(Step(s, acts[0]), acts[1..]);
    }
  }

  // ---------------------------------------------------------------- the invariant

  function Unsent(l: Listener): nat {
    if l.Serving? || l.Returned? then 1 else 0
  }

  ghost predicate Inv(s: State) {
    // the slots suffice for everything still to be sent
    && |s.channel| + Unsent(s.api) + Unsent(s.metrics) <= SLOTS
    // nothing closes normally before its Shutdown
    && (s.api == Returned(false) ==> Api in s.stopped)
    && (s.metrics == Returned(false) ==> Metrics in s.stopped)
    && (forall i :: 0 <= i < |s.channel| && !s.channel[i].failed ==> s.channel[i].name in s.stopped)
    && (s.main.Selecting? || s.main.StoppingApi? ==> s.stopped == {})
    && (s.main.StoppingMetrics? ==> s.stopped == {Api})
    && (s.main.Waiting? ==> s.stopped == {Api, Metrics})
    && (s.main.Draining? || s.main.Exited? ==> s.api.Finished? && s.metrics.Finished?)
    && (s.main.StoppingApi? || s.main.StoppingMetrics? || s.main.Waiting? ==>
         s.main.cause.Some? ==> s.main.cause.value.failed)
    // while main waits for a first event, every listener that left has its result in the channel
    && (s.main.Selecting? ==> |s.channel| + Unsent(s.api) + Unsent(s.metrics) == SLOTS)
  }

  predicate ByListener(a: Action) {
    a.Fail? || a.Close? || a.Send? || a.Leave?
  }

  lemma InvSend(s: State, a: Action)
    requires Inv(s) && Enabled(s, a) && a.Send?
    ensures Inv(Step(s, a))
  {
  }

  lemma InvListener(s: State, a: Action)
    requires Inv(s) && Enabled(s, a) && ByListener(a) && !a.Send?
    ensures Inv(Step(s, a))
  {
  }

  lemma InvMain(s: State, a: Action)
    requires Inv(s) && Enabled(s, a) && !ByListener(a)
    ensures Inv(Step(s, a))
  {
  }

  lemma InvStep(s: State, a: Action)
    requires Inv(s) && Enabled(s, a)
    ensures Inv(Step(s, a))
  {
    if a.Send? {
      InvSend(s, a);
    } else if ByListener(a) {
      InvListener(s, a);
    } else {
      InvMain(s, a);
    }
  }

  lemma {:induction false} InvRun(s: State, acts: seq<Action>)
    requires Inv(s) && Run(s, acts).Some?
    ensures Inv(Run(s, acts).value)
    decreases |acts|
  {
    if acts != [] {
      InvStep(s, acts[0]);
      InvRun(Step(s, acts[0]), acts[1..]);
    }
  }

  lemma {:induction false} RunAppend(s: State, acts: seq<Action>, a: Action)
    requires Run(s, acts).Some? && Enabled(Run(s, acts).value, a)
    ensures Run(s, acts + [a]) == Some(Step(Run(s, acts).value, a))
    decreases |acts|
  {
    if acts == [] {
      assert [a][1..] == [];
    } else {
      assert (acts + [a])[1..] == acts[1..] + [a];
      RunAppend(Step(s, acts[0]), acts[1..], a);
    }
  }

  lemma {:induction false} Then(acts: seq<Action>, s: State, a: Action) returns (acts': seq<Action>, s': State)
    requires Run(Init(), acts) == Some(s) && Enabled(s, a)
    ensures acts' == acts + [a] && s' == Step(s, a) && Run(Init(), acts') == Some(s')
  {
    acts', s' := acts + [a], Step(s, a);
    RunAppend(Init(), acts, a);
  }

  // ---------------------------------------------------------------- who reports what

  lemma {:induction false} RunPrefix(s: State, acts: seq<Action>, k: nat)
    requires Run(s, acts).Some? && k <= |acts|
    ensures Run(s, acts[..k]).Some? && Run(Run(s, acts[..k]).value, acts[k..]) == Run(s, acts)
    decreases |acts|
  {
    if k > 0 {
      assert acts[..k][1..] == acts[1..][..k - 1] && acts[k..] == acts[1..][k - 1..];
      RunPrefix(Step(s, acts[0]), acts[1..], k - 1);
    } else {
      assert acts[..0] == [] && acts[0..] == acts;
    }
  }

  /** The results that the goroutines send, told by what happened to each: a failure or a normal close. */
  function Reported(acts: seq<Action>): seq<Result> {
    if acts == [] then []
    else
      var before, a := acts[..|acts| - 1], acts[|acts| - 1];
      Reported(before) + if a.Send? then [Result(a.name, Fail(a.name) in before)] else []
  }

  /** How many of them main has taken out of the channel. */
  function Received(acts: seq<Action>): nat {
    if acts == [] then 0
    else Received(acts[..|acts| - 1]) + if acts[|acts| - 1].TakeResult? || acts[|acts| - 1].Drain? then 1 else 0
  }

  /** What a listener's state says about its part of the run. */
  predicate Tells(l: Listener, n: Name, acts: seq<Action>) {
    && (l.Serving? ==> Fail(n) !in acts && Close(n) !in acts)
    && (l.Returned? ==> if l.failed then Fail(n) in acts else Fail(n) !in acts && Close(n) in acts)
    && (l.Serving? || l.Returned? <==> Send(n) !in acts)
    && (Leave(n) in acts <==> l.Finished?)
  }

  predicate NamesSent(acts: seq<Action>, rs: seq<Result>) {
    && (forall i :: 0 <= i < |rs| ==> Send(rs[i].name) in acts && (rs[i].failed <==> Fail(rs[i].name) in acts))
    && (forall i, j :: 0 <= i < j < |rs| ==> rs[i].name != rs[j].name)
  }

  /** The channel holds what has been reported and not yet received. */
  ghost predicate Recorded(s: State, acts: seq<Action>) {
    && Tells(s.api, Api, acts) && Tells(s.metrics, Metrics, acts)
    && NamesSent(acts, Reported(acts))
    && Received(acts) <= |Reported(acts)| && s.channel == Reported(acts)[Received(acts)..]
    && (s.main.Selecting? ==> Received(acts) == 0)
  }

  lemma Snoc(acts: seq<Action>, a: Action)
    ensures (acts + [a])[..|acts|] == acts
    ensures Reported(acts + [a]) == Reported(acts) + if a.Send? then [Result(a.name, Fail(a.name) in acts)] else []
    ensures Received(acts + [a]) == Received(acts) + if a.TakeResult? || a.Drain? then 1 else 0
    ensures forall x :: x in acts + [a] <==> x in acts || x == a
  {
    assert (acts + [a])[..|acts|] == acts;
  }

  lemma TellsStep(s: State, acts: seq<Action>, a: Action, n: Name)
    requires Enabled(s, a) && Tells(Of(s, n), n, acts)
    ensures Tells(Of(Step(s, a), n), n, acts + [a])
  {
    Snoc(acts, a);
  }

  lemma SendIsNews(s: State, acts: seq<Action>, n: Name)
    requires Enabled(s, Send(n)) && Tells(Of(s, n), n, acts)
    ensures Send(n) !in acts && Of(s, n).failed == (Fail(n) in acts)
  {
  }

  lemma NamesSentStep(s: State, acts: seq<Action>, a: Action)
    requires Enabled(s, a) && Tells(s.api, Api, acts) && Tells(s.metrics, Metrics, acts)
    requires NamesSent(acts, Reported(acts))
    ensures NamesSent(acts + [a], Reported(acts + [a]))
  {
    var rs := Reported(acts);
    Snoc(acts, a);
    forall i | 0 <= i < |rs|
      ensures rs[i].failed <==> Fail(rs[i].name) in acts + [a]
    {
      assert Send(rs[i].name) in acts;
    }
    if a.Send? {
      SendIsNews(s, acts, a.name);
    }
  }

  lemma ChannelStep(s: State, acts: seq<Action>, a: Action)
    requires Enabled(s, a) && Tells(s.api, Api, acts) && Tells(s.metrics, Metrics, acts)
    requires Received(acts) <= |Reported(acts)| && s.channel == Reported(acts)[Received(acts)..]
    ensures
      var rs, k := Reported(acts + [a]), Received(acts + [a]);
      k <= |rs| && Step(s, a).channel == rs[k..]
  {
    Snoc(acts, a);
    if a.Send? {
      SendIsNews(s, acts, a.name);
    }
  }

  lemma RecordedStep(s: State, acts: seq<Action>, a: Action)
    requires Enabled(s, a) && Recorded(s, acts)
    ensures Recorded(Step(s, a), acts + [a])
  {
    TellsStep(s, acts, a, Api);
    TellsStep(s, acts, a, Metrics);
    NamesSentStep(s, acts, a);
    ChannelStep(s, acts, a);
    Snoc(acts, a);
  }

  lemma {:induction false} RecordedRun(acts: seq<Action>)
    requires Run(Init(), acts).Some?
    ensures Recorded(Run(Init(), acts).value, acts)
    decreases |acts|
  {
    if acts != [] {
      var k := |acts| - 1;
      RunPrefix(Init(), acts, k);
      RecordedRun(acts[..k]);
      var s := Run(Init(), acts[..k]).value;
      assert acts[k..] == [acts[k]] && [acts[k]][1..] == [];
      assert Run(s, acts[k..]) == Some(Step(s, acts[k]));
      RecordedStep(s, acts[..k], acts[k]);
      assert acts[..k] + [acts[k]] == acts;
    }
  }

  /**
   Every listener reports at most once, under its own name and as failed exactly when it failed, and the
   channel holds the reports in the order in which they were sent, less those already received.
  */
  lemma ReportsAreTrue(acts: seq<Action>)
    requires Run(Init(), acts).Some?
    ensures
      var s, rs := Run(Init(), acts).value, Reported(acts);
      && Received(acts) <= |rs| && s.channel == rs[Received(acts)..]
      && (forall i :: 0 <= i < |rs| ==> Send(rs[i].name) in acts && (rs[i].failed <==> Fail(rs[i].name) in acts))
      && (forall i, j :: 0 <= i < j < |rs| ==> rs[i].name != rs[j].name)
      && (s.api.Finished? ==> exists i :: 0 <= i < |rs| && rs[i].name == Api)
      && (s.metrics.Finished? ==> exists i :: 0 <= i < |rs| && rs[i].name == Metrics)
  {
    RecordedRun(acts);
    var s := Run(Init(), acts).value;
    if s.api.Finished? {
      SentIsReported(acts, Api);
    }
    if s.metrics.Finished? {
      SentIsReported(acts, Metrics);
    }
  }

  lemma {:induction false} SentIsReported(acts: seq<Action>, n: Name)
    requires Send(n) in acts
    ensures exists i :: 0 <= i < |Reported(acts)| && Reported(acts)[i].name == n
  {
    var before, a := acts[..|acts| - 1], acts[|acts| - 1];
    assert acts == before + [a];
    if a == Send(n) {
      assert Reported(acts)[|Reported(before)|].name == n;
    } else {
      SentIsReported(before, n);
      var i :| 0 <= i < |Reported(before)| && Reported(before)[i].name == n;
      assert Reported(acts)[i].name == n;
    }
  }

  // ---------------------------------------------------------------- what holds in every run

  /** A send never blocks: a goroutine with a result to deliver finds a free slot. */
  lemma SendsNeverBlock(acts: seq<Action>, n: Name)
    requires Run(Init(), acts).Some? && Of(Run(Init(), acts).value, n).Returned?
    ensures Enabled(Run(Init(), acts).value, Send(n))
  {
    InvRun(Init(), acts);
  }

  /** Main waits for the first event: nothing has happened yet. */
  predicate Idle(s: State) {
    s.main.Selecting? && !s.signalled && s.channel == [] && s.api.Serving? && s.metrics.Serving?
  }

  function Next(s: State): Action {
    if s.api.Returned? then Send(Api)
    else if s.metrics.Returned? then Send(Metrics)
    else if s.api.Sent? then Leave(Api)
    else if s.metrics.Sent? then Leave(Metrics)
    else if s.api.Serving? && Api in s.stopped then Close(Api)
    else if s.metrics.Serving? && Metrics in s.stopped then Close(Metrics)
    else match s.main
      case Selecting => if s.channel != [] then TakeResult else TakeSignal
      case StoppingApi(_) => StopApi(true)
      case StoppingMetrics(_, _) => StopMetrics(true)
      case Waiting(_, _) => Proceed
      case Draining(_) => if s.channel != [] then Drain else Exit
      case Exited(_) => Exit
  }

  /**
   Progress: until main has returned, some step of the program itself can be taken, unless nothing has
   happened yet; once it has returned, both goroutines have finished. With RunsAreFinite every fair run
   in which something happens ends there.
  */
  lemma Progress(acts: seq<Action>)
    requires Run(Init(), acts).Some?
    ensures
      var s := Run(Init(), acts).value;
      if s.main.Exited? then s.api.Finished? && s.metrics.Finished?
      else Idle(s) || (Enabled(s, Next(s)) && !External(Next(s)))
  {
    InvRun(Init(), acts);
  }

  predicate Stopping(a: Action) {
    a.StopApi? || a.StopMetrics?
  }

  /** Whether every Shutdown call of the run succeeded. */
  predicate StopsOk(acts: seq<Action>) {
    forall i :: 0 <= i < |acts| && Stopping(acts[i]) ==> acts[i].succeeds
  }

  /** The result that the select took, if it did not take the signal. */
  function Selected(s: State, acts: seq<Action>): Option<Result>
    requires Run(s, acts).Some?
    decreases |acts|
  {
    if acts == [] || acts[0].TakeSignal? then None
    else if acts[0].TakeResult? then Some(s.channel[0])
    else Selected(Step(s, acts[0]), acts[1..])
  }

  function Verdict(cause: Option<Result>, ok: bool): Outcome {
    if Failure(cause) then ListenerError(cause.value.name) else if ok then Clean else ShutdownError
  }

  /** The outcome that a state and the rest of its run determine. */
  function Foreseen(s: State, acts: seq<Action>): Outcome
    requires Run(s, acts).Some?
  {
    match s.main
    case Selecting => Verdict(Selected(s, acts), StopsOk(acts))
    case StoppingApi(cause) => Verdict(cause, StopsOk(acts))
    case StoppingMetrics(cause, ok) => Verdict(cause, ok && StopsOk(acts))
    case Waiting(cause, ok) => Verdict(cause, ok && StopsOk(acts))
    case Draining(ok) => Verdict(None, ok && StopsOk(acts))
    case Exited(outcome) => outcome
  }

  lemma StopsOkCons(acts: seq<Action>)
    requires acts != []
    ensures StopsOk(acts) == ((Stopping(acts[0]) ==> acts[0].succeeds) && StopsOk(acts[1..]))
  {
    assert forall i :: 0 < i < |acts| ==> acts[i] == acts[1..][i - 1];
  }

  lemma {:induction false} NoMoreStops(s: State, acts: seq<Action>)
    requires s.main.Exited? && Run(s, acts).Some?
    ensures StopsOk(acts)
    decreases |acts|
  {
    if acts != [] {
      StopsOkCons(acts);
      NoMoreStops(Step(s, acts[0]), acts[1..]);
    }
  }

  lemma {:induction false} OutcomeForeseen(s: State, acts: seq<Action>)
    requires Run(s, acts).Some? && Run(s, acts).value.main.Exited?
    ensures Run(s, acts).value.main.outcome == Foreseen(s, acts)
    decreases |acts|
  {
    if acts != [] {
      StopsOkCons(acts);
      if acts[0].Exit? {
        NoMoreStops(Step(s, acts[0]), acts[1..]);
      }
      OutcomeForeseen(Step(s, acts[0]), acts[1..]);
    }
  }

  /** Where the select takes a result, and what it takes. */
  lemma {:induction false} SelectedAt(s: State, acts: seq<Action>) returns (k: nat)
    requires Run(s, acts).Some? && Selected(s, acts).Some?
    ensures k < |acts| && acts[k].TakeResult? && Run(s, acts[..k]).Some?
    ensures
      var t := Run(s, acts[..k]).value;
      t.main.Selecting? && t.channel != [] && Selected(s, acts).value == t.channel[0]
    decreases |acts|
  {
    if acts[0].TakeResult? {
      k := 0;
      assert acts[..0] == [];
    } else {
      var j := SelectedAt(Step(s, acts[0]), acts[1..]);
      k := j + 1;
      assert acts[..k][1..] == acts[1..][..j] && acts[..k][0] == acts[0];
    }
  }

  /** The listener that run's error names is the one that failed, before the select took its result. */
  lemma FailureIsNamed(acts: seq<Action>) returns (k: nat)
    requires Run(Init(), acts).Some? && Selected(Init(), acts).Some?
    ensures k < |acts| && acts[k].TakeResult?
    ensures
      var name := Selected(Init(), acts).value.name;
      && Fail(name) in acts[..k] && Send(name) in acts[..k]
      && Reported(acts[..k]) != [] && Selected(Init(), acts).value == Reported(acts[..k])[0]
  {
    k := SelectedAt(Init(), acts);
    RecordedRun(acts[..k]);
    SelectedFailed(Init(), acts);
  }

  /**
   The result of run: an error naming the listener exactly when the select took that listener's
   failure, otherwise nil exactly when both Shutdown calls succeeded. A result taken is always a failure.
  */
  lemma OutcomeExact(acts: seq<Action>)
    requires Run(Init(), acts).Some? && Run(Init(), acts).value.main.Exited?
    ensures
      var selected := Selected(Init(), acts);
      && (selected.Some? ==> selected.value.failed && Fail(selected.value.name) in acts)
      && Run(Init(), acts).value.main.outcome ==
         if selected.Some? then ListenerError(selected.value.name)
         else if StopsOk(acts) then Clean
         else ShutdownError
  {
    OutcomeForeseen(Init(), acts);
    SelectedFailed(Init(), acts);
    if Selected(Init(), acts).Some? {
      var k := FailureIsNamed(acts);
      assert forall a :: a in acts[..k] ==> a in acts;
    }
  }

  lemma {:induction false} SelectedFailed(s: State, acts: seq<Action>)
    requires Inv(s) && Run(s, acts).Some?
    ensures Selected(s, acts).Some? ==> Selected(s, acts).value.failed
    decreases |acts|
  {
    if acts != [] {
      InvStep(s, acts[0]);
      if !acts[0].TakeResult? && !acts[0].TakeSignal? {
        SelectedFailed(Step(s, acts[0]), acts[1..]);
      }
    }
  }

  function Other(n: Name): Name {
    if n.Api? then Metrics else Api
  }

  /** Listener n fails, but main takes the signal and has begun to stop. */
  lemma SignalFirst(n: Name) returns (acts: seq<Action>, s: State)
    ensures Run(Init(), acts) == Some(s) && Fail(n) in acts
    ensures s == With(Init(), n, Finished).(
      stopped := {Api}, channel := [Result(n, true)], signalled := true, main := StoppingMetrics(None, true))
  {
    s := Init();
    acts, s := Then([], s, Fail(n));
    acts, s := Then(acts, s, Send(n));
    acts, s := Then(acts, s, Leave(n));
    acts, s := Then(acts, s, Signal);
    acts, s := Then(acts, s, TakeSignal);
    acts, s := Then(acts, s, StopApi(true));
  }

  /** Main goes on to stop the other listener, and waits until both goroutines have finished. */
  lemma StopOther(acts: seq<Action>, s: State, n: Name, cause: Option<Result>) returns (acts': seq<Action>, s': State)
    requires Run(Init(), acts) == Some(s) && |s.channel| <= 1
    requires Of(s, n).Finished? && Of(s, Other(n)).Serving? && s.stopped == {Api} && s.main == StoppingMetrics(cause, true)
    ensures acts <= acts' && Run(Init(), acts') == Some(s')
    ensures s' == s.(
      api := Finished, metrics := Finished, stopped := {Api, Metrics}, main := Waiting(cause, true),
      channel := s.channel + [Result(Other(n), false)])
  {
    acts', s' := Then(acts, s, StopMetrics(true));
    acts', s' := Then(acts', s', Close(Other(n)));
    acts', s' := Then(acts', s', Send(Other(n)));
    acts', s' := Then(acts', s', Leave(Other(n)));
  }

  /** The failure of either listener, if it loses the race against the signal, is drained away: run returns nil. */
  lemma FailureSwallowed(n: Name) returns (acts: seq<Action>)
    ensures Fail(n) in acts && Run(Init(), acts).Some?
    ensures Run(Init(), acts).value.main == Exited(Clean)
  {
    var s: State;
    acts, s := SignalFirst(n);
    acts, s := StopOther(acts, s, n, None);
    acts, s := Then(acts, s, Proceed);
    acts, s := Then(acts, s, Drain);
    acts, s := Then(acts, s, Drain);
    acts, s := Then(acts, s, Exit);
  }

  /** And if it wins, run returns an error that names the listener. */
  lemma FailureReturned(n: Name) returns (acts: seq<Action>)
    ensures [Fail(n), Send(n), TakeResult] <= acts && Run(Init(), acts).Some?
    ensures Run(Init(), acts).value.main == Exited(ListenerError(n))
  {
    var s := Init();
    acts, s := Then([], s, Fail(n));
    acts, s := Then(acts, s, Send(n));
    acts, s := Then(acts, s, TakeResult);
    assert s == With(Init(), n, Sent).(main := StoppingApi(Some(Result(n, true))));
    acts, s := Then(acts, s, Leave(n));
    acts, s := Then(acts, s, StopApi(true));
    acts, s := StopOther(acts, s, n, Some(Result(n, true)));
    acts, s := Then(acts, s, Proceed);
  }
}
