/** The life of a POST /v1/ask request, and the books that any interleaving of requests keeps. */
module AskRuns {
  import opened Wrappers
  import Audit
  import RateLimit
  import opened Tallies

  /** What is known about a POST before it is served. */
  datatype Post = Post(caller: string, valid: bool, stream: bool, flushable: bool)

  /**
   Where a request stands. The steps in between touch shared state: the caller's bucket, the
   rate-limit counter, the bridge and the audit log. `ok` is the outcome of the bridge call.
  */
  datatype Phase =
    | Received
    | Rejected            // 413, 415 or 400, before the limiter is asked
    | Refused             // the limiter said no
    | Counted             // rate_limited_total has been incremented
    | Limited             // the audit line is written: 429
    | Admitted            // the limiter said yes
    | Unflushable         // stream requested on a writer that cannot flush: 500
    | Called(ok: bool)    // the bridge has been called
    | Unanswered          // a non-streaming call failed
    | Audited(ok: bool)   // the audit line is written

  predicate Final(p: Phase) {
    p.Rejected? || p.Limited? || p.Unflushable? || p.Unanswered? || p.Audited?
  }

  /** Counts that the rest of the gateway keeps, or could keep, about requests. */
  datatype Books = Books(
    decisions: int,
    admitted: int,
    calls: int,
    rateLimited: int,
    limitLines: int,
    lines: int)

  function Plus(a: Books, b: Books): Books {
    Books(a.decisions + b.decisions, a.admitted + b.admitted, a.calls + b.calls,
          a.rateLimited + b.rateLimited, a.limitLines + b.limitLines, a.lines + b.lines)
  }

  const NOTHING: Books := Books(0, 0, 0, 0, 0, 0)

  /** What a request has contributed to the books by the time it is in a phase. */
  function Contribution(p: Phase): Books {
    match p
    case Received => NOTHING
    case Rejected => NOTHING
    case Refused => Books(1, 0, 0, 0, 0, 0)
    case Counted => Books(1, 0, 0, 1, 0, 0)
    case Limited => Books(1, 0, 0, 1, 1, 1)
    case Admitted => Books(1, 1, 0, 0, 0, 0)
    case Unflushable => Books(1, 1, 0, 0, 0, 0)
    case Called(_) => Books(1, 1, 1, 0, 0, 0)
    case Unanswered => Books(1, 1, 1, 0, 0, 0)
    case Audited(_) => Books(1, 1, 1, 0, 0, 1)
  }

  /** A request, with what it was told on the way: the limiter's verdict and the outcome of its bridge call. */
  datatype Req = Req(post: Post, phase: Phase, verdict: Option<bool>, reply: Option<bool>)

  function New(post: Post): Req {
    Req(post, Received, None, None)
  }

  /** `trace` lists the limiter's decisions in order; `lines` the outcomes of the audit log. */
  datatype State = State(
    reqs: seq<Req>,
    buckets: RateLimit.Buckets,
    trace: seq<RateLimit.Request>,
    verdicts: seq<bool>,
    admitted: nat,
    calls: nat,
    rateLimited: nat,
    lines: seq<Audit.Outcome>)

  datatype Action =
    | Arrive(post: Post)
    | Reject(id: nat)
    | Allow(id: nat, now: int)
    | CountLimit(id: nat)
    | LogLimit(id: nat)
    | NoFlusher(id: nat)
    | Call(id: nat, ok: bool)
    | GiveUp(id: nat)
    | LogAnswer(id: nat)

  function Init(): State {
    State([], map[], [], [], 0, 0, 0, [])
  }

  predicate Enabled(s: State, a: Action) {
    match a
    case Arrive(_) => true
    case Reject(id) => id < |s.reqs| && s.reqs[id].phase.Received? && !s.reqs[id].post.valid
    case Allow(id, now) =>
      && id < |s.reqs| && s.reqs[id].phase.Received? && s.reqs[id].post.valid
      && (s.trace != [] ==> s.trace[|s.trace| - 1].time <= now)
    case CountLimit(id) => id < |s.reqs| && s.reqs[id].phase.Refused?
    case LogLimit(id) => id < |s.reqs| && s.reqs[id].phase.Counted?
    case NoFlusher(id) =>
      id < |s.reqs| && s.reqs[id].phase.Admitted? && s.reqs[id].post.stream && !s.reqs[id].post.flushable
    case Call(id, ok) =>
      id < |s.reqs| && s.reqs[id].phase.Admitted? && (s.reqs[id].post.stream ==> s.reqs[id].post.flushable)
    case GiveUp(id) => id < |s.reqs| && s.reqs[id].phase == Called(false) && !s.reqs[id].post.stream
    case LogAnswer(id) =>
      id < |s.reqs| && s.reqs[id].phase.Called? && (s.reqs[id].post.stream || s.reqs[id].phase.ok)
  }

  function Update(s: State, id: nat, r: Req): State
    requires id < |s.reqs|
  {
    s.(reqs := s.reqs[id := r])
  }

  function Move(s: State, id: nat, p: Phase): State
    requires id < |s.reqs|
  {
    Update(s, id, s.reqs[id].(phase := p))
  }

  function Step(rate: RateLimit.Rate, s: State, a: Action): State
    requires Enabled(s, a)
  {
    match a
    case Arrive(post) => s.(reqs := s.reqs + [New(post)])
    case Reject(id) => Move(s, id, Rejected)
    case Allow(id, now) =>
      var caller := s.reqs[id].post.caller;
      var (b, ok) := RateLimit.Decide(rate, RateLimit.Held(s.buckets, caller), now);
      Update(s, id, s.reqs[id].(phase := if ok then Admitted else Refused, verdict := Some(ok))).(
        buckets := s.buckets[caller := b],
        trace := s.trace + [RateLimit.Request(caller, now)],
        verdicts := s.verdicts + [ok],
        admitted := s.admitted + if ok then 1 else 0)
    case CountLimit(id) => Move(s, id, Counted).(rateLimited := s.rateLimited + 1)
    case LogLimit(id) => Move(s, id, Limited).(lines := s.lines + [Audit.RateLimited])
    case NoFlusher(id) => Move(s, id, Unflushable)
    case Call(id, ok) => Update(s, id, s.reqs[id].(phase := Called(ok), reply := Some(ok))).(calls := s.calls + 1)
    case GiveUp(id) => Move(s, id, Unanswered)
    case LogAnswer(id) =>
      var ok := s.reqs[id].phase.ok;
      Move(s, id, Audited(ok)).(lines := s.lines + [if ok then Audit.Ok else Audit.Error])
  }

  function Run(rate: RateLimit.Rate, s: State, acts: seq<Action>): Option<State>
    decreases |acts|
  {
    if acts == [] then Some(s)
    else if Enabled(s, acts[0]) then Run(rate, Step(rate, s, acts[0]), acts[1..])
    else None
  }

  function Sum(reqs: seq<Req>): Books {
    if reqs == [] then NOTHING else Plus(Contribution(reqs[0].phase), Sum(reqs[1..]))
  }

  lemma {:induction false} SumUpdate(reqs: seq<Req>, id: nat, r: Req)
    requires id < |reqs|
    ensures Plus(Sum(reqs[id := r]), Contribution(reqs[id].phase)) == Plus(Sum(reqs), Contribution(r.phase))
  {
    if id == 0 {
      assert reqs[id := r][1..] == reqs[1..];
    } else {
      assert reqs[id := r][1..] == reqs[1..][id - 1 := r];
      SumUpdate(reqs[1..], id - 1, r);
    }
  }

  /** A request that has just arrived has contributed nothing. */
  lemma {:induction false} SumArrival(reqs: seq<Req>, post: Post)
    ensures Sum(reqs + [New(post)]) == Sum(reqs)
  {
    if reqs == [] {
      assert [New(post)][1..] == [];
    } else {
      assert (reqs + [New(post)])[1..] == reqs[1..] + [New(post)];
      SumArrival(reqs[1..], post);
    }
  }

  /** The books as kept by the limiter, the counters, the bridge and the audit log. */
  function Kept(s: State): Books {
    Books(|s.trace|, s.admitted, s.calls, s.rateLimited, multiset(s.lines)[Audit.RateLimited], |s.lines|)
  }

  /** The books balance at every moment, whoever is in the middle of what. */
  ghost predicate Balanced(s: State) {
    Kept(s) == Sum(s.reqs)
  }

  lemma OutcomeCount(lines: seq<Audit.Outcome>, line: Audit.Outcome)
    ensures multiset(lines + [line])[Audit.RateLimited]
         == multiset(lines)[Audit.RateLimited] + if line == Audit.RateLimited then 1 else 0
  {
    assert multiset(lines + [line]) == multiset(lines) + multiset{line};
  }

  /** A step enters in the books what the request's new phase adds to its old one. */
  ghost predicate Entered(s: State, s': State, id: nat) {
    && id < |s.reqs| == |s'.reqs| && s'.reqs == s.reqs[id := s'.reqs[id]]
    && Plus(Kept(s'), Contribution(s.reqs[id].phase)) == Plus(Kept(s), Contribution(s'.reqs[id].phase))
  }

  lemma KeptAllow(rate: RateLimit.Rate, s: State, a: Action)
    requires Enabled(s, a) && a.Allow?
    ensures Entered(s, Step(rate, s, a), a.id)
  {
  }

  lemma KeptLog(rate: RateLimit.Rate, s: State, a: Action)
    requires Enabled(s, a) && (a.LogLimit? || a.LogAnswer?)
    ensures Entered(s, Step(rate, s, a), a.id)
  {
    var line := if a.LogLimit? then Audit.RateLimited else if s.reqs[a.id].phase.ok then Audit.Ok else Audit.Error;
    OutcomeCount(s.lines, line);
  }

  lemma KeptQuiet(rate: RateLimit.Rate, s: State, a: Action)
    requires Enabled(s, a) && (a.Reject? || a.CountLimit? || a.NoFlusher? || a.Call? || a.GiveUp?)
    ensures Entered(s, Step(rate, s, a), a.id)
  {
  }

  lemma StepEnters(rate: RateLimit.Rate, s: State, a: Action)
    requires Enabled(s, a) && !a.Arrive?
    ensures Entered(s, Step(rate, s, a), a.id)
  {
    match a
    case Allow(_, _) => KeptAllow(rate, s, a);
    case LogLimit(_) => KeptLog(rate, s, a);
    case LogAnswer(_) => KeptLog(rate, s, a);
    case _ => KeptQuiet(rate, s, a);
  }

  lemma EnteredBalances(s: State, s': State, id: nat)
    requires Balanced(s) && Entered(s, s', id)
    ensures Balanced(s')
  {
    SumUpdate(s.reqs, id, s'.reqs[id]);
  }

  lemma BalancedStep(rate: RateLimit.Rate, s: State, a: Action)
    requires Balanced(s) && Enabled(s, a)
    ensures Balanced(Step(rate, s, a))
  {
    if a.Arrive? {
      SumArrival(s.reqs, a.post);
    } else {
      StepEnters(rate, s, a);
      EnteredBalances(s, Step(rate, s, a), a.id);
    }
  }

  lemma {:induction false} BalancedRun(rate: RateLimit.Rate, s: State, acts: seq<Action>)
    requires Balanced(s) && Run(rate, s, acts).Some?
    ensures Balanced(Run(rate, s, acts).value)
    decreases |acts|
  {
    if acts != [] {
      BalancedStep(rate, s, acts[0]);
      BalancedRun(rate, Step(rate, s, acts[0]), acts[1..]);
    }
  }

  // ---------------------------------------------------------------- which requests end how

  /** A verdict or a reply that is known to be `b`. */
  predicate Was(o: Option<bool>, b: bool) {
    o.Some? && o.value == b
  }

  /** What a phase says about its request and about what the request has been told. */
  predicate Consistent(r: Req) {
    && (r.verdict.None? <==> r.phase.Received? || r.phase.Rejected?)
    && (Was(r.verdict, false) <==> r.phase.Refused? || r.phase.Counted? || r.phase.Limited?)
    && (r.reply.Some? <==> r.phase.Called? || r.phase.Unanswered? || r.phase.Audited?)
    && (r.verdict.Some? ==> r.post.valid)
    && (r.reply.Some? && r.post.stream ==> r.post.flushable)
    && match r.phase
       case Rejected => !r.post.valid
       case Unflushable => r.post.stream && !r.post.flushable
       case Called(ok) => Was(r.reply, ok)
       case Unanswered => Was(r.reply, false) && !r.post.stream
       case Audited(ok) => Was(r.reply, ok) && (r.post.stream || ok)
       case _ => true
  }

  lemma {:induction false} ConsistentRun(rate: RateLimit.Rate, s: State, acts: seq<Action>)
    requires Run(rate, s, acts).Some? && forall id :: 0 <= id < |s.reqs| ==> Consistent(s.reqs[id])
    ensures
      var s' := Run(rate, s, acts).value;
      forall id :: 0 <= id < |s'.reqs| ==> Consistent(s'.reqs[id])
    decreases |acts|
  {
    if acts != [] {
      ConsistentRun(rate, Step(rate, s, acts[0]), acts[1..]);
    }
  }

  /** How many requests ended in each way. */
  datatype Ends = Ends(rejected: int, limited: int, unflushable: int, unanswered: int, audited: int)

  function EndOf(p: Phase): Ends {
    match p
    case Rejected => Ends(1, 0, 0, 0, 0)
    case Limited => Ends(0, 1, 0, 0, 0)
    case Unflushable => Ends(0, 0, 1, 0, 0)
    case Unanswered => Ends(0, 0, 0, 1, 0)
    case Audited(_) => Ends(0, 0, 0, 0, 1)
    case _ => Ends(0, 0, 0, 0, 0)
  }

  function AddEnds(a: Ends, b: Ends): Ends {
    Ends(a.rejected + b.rejected, a.limited + b.limited, a.unflushable + b.unflushable,
         a.unanswered + b.unanswered, a.audited + b.audited)
  }

  function EndsOf(reqs: seq<Req>): Ends {
    if reqs == [] then Ends(0, 0, 0, 0, 0) else AddEnds(EndOf(reqs[0].phase), EndsOf(reqs[1..]))
  }

  function BooksOf(e: Ends): Books {
    Books(e.limited + e.unflushable + e.unanswered + e.audited, e.unflushable + e.unanswered + e.audited,
          e.unanswered + e.audited, e.limited, e.limited, e.limited + e.audited)
  }

  lemma AddBooks(a: Ends, b: Ends)
    ensures BooksOf(AddEnds(a, b)) == Plus(BooksOf(a), BooksOf(b))
  {
  }

  lemma FinalContribution(p: Phase)
    requires Final(p)
    ensures Contribution(p) == BooksOf(EndOf(p))
  {
  }

  lemma {:induction false} EndsCount(reqs: seq<Req>)
    requires forall id :: 0 <= id < |reqs| ==> Final(reqs[id].phase)
    ensures
      var e := EndsOf(reqs);
      |reqs| == e.rejected + e.limited + e.unflushable + e.unanswered + e.audited
  {
    if reqs != [] {
      var e := EndOf(reqs[0].phase);
      assert e.rejected + e.limited + e.unflushable + e.unanswered + e.audited == 1;
      EndsCount(reqs[1..]);
    }
  }

  /** The books of requests that have all been served. */
  lemma {:induction false} FinalBooks(reqs: seq<Req>)
    requires forall id :: 0 <= id < |reqs| ==> Final(reqs[id].phase)
    ensures Sum(reqs) == BooksOf(EndsOf(reqs))
  {
    if reqs != [] {
      var p, rest := reqs[0].phase, reqs[1..];
      FinalContribution(p);
      FinalBooks(rest);
      AddBooks(EndOf(p), EndsOf(rest));
      calc {
        Sum(reqs);
        Plus(Contribution(p), Sum(rest));
        BooksOf(AddEnds(EndOf(p), EndsOf(rest)));
        BooksOf(EndsOf(reqs));
      }
    }
  }

  /**
   Ask accounting: once every request of a run has been served, bridge calls are limiter admissions
   (less streams that could not be flushed), rejected requests never reached the limiter,
   rate_limited_total counts the audit lines marked rate_limited, and the other lines are one per
   finished stream and per answered call. A failed non-streaming call writes none.
  */
  lemma AskAccounting(rate: RateLimit.Rate, acts: seq<Action>)
    requires Run(rate, Init(), acts).Some?
    requires
      var s := Run(rate, Init(), acts).value;
      forall id :: 0 <= id < |s.reqs| ==> Final(s.reqs[id].phase)
    ensures
      var s := Run(rate, Init(), acts).value;
      var e := EndsOf(s.reqs);
      && s.admitted == s.calls + e.unflushable
      && |s.trace| == |s.reqs| - e.rejected
      && s.rateLimited == multiset(s.lines)[Audit.RateLimited] == e.limited
      && |s.lines| == s.rateLimited + e.audited
      && |s.lines| == |s.reqs| - e.rejected - e.unflushable - e.unanswered
    ensures forall id :: 0 <= id < |Run(rate, Init(), acts).value.reqs| ==> Consistent(Run(rate, Init(), acts).value.reqs[id])
  {
    BalancedRun(rate, Init(), acts);
    ConsistentRun(rate, Init(), acts);
    FinalBooks(Run(rate, Init(), acts).value.reqs);
    EndsCount(Run(rate, Init(), acts).value.reqs);
  }

  lemma {:induction false} NoneUnflushable(reqs: seq<Req>)
    requires forall id :: 0 <= id < |reqs| ==> !reqs[id].phase.Unflushable?
    ensures EndsOf(reqs).unflushable == 0
  {
    if reqs != [] {
      NoneUnflushable(reqs[1..]);
      assert EndsOf(reqs).unflushable == EndOf(reqs[0].phase).unflushable + EndsOf(reqs[1..]).unflushable;
    }
  }

  lemma Flushed(r: Req)
    requires Consistent(r) && r.post.flushable
    ensures !r.phase.Unflushable?
  {
  }

  /** On writers that can flush, which the metrics middleware always passes, every admission is a bridge call. */
  lemma AdmissionsAreCalls(rate: RateLimit.Rate, acts: seq<Action>)
    requires Run(rate, Init(), acts).Some?
    requires
      var s := Run(rate, Init(), acts).value;
      forall id :: 0 <= id < |s.reqs| ==> Final(s.reqs[id].phase) && s.reqs[id].post.flushable
    ensures Run(rate, Init(), acts).value.admitted == Run(rate, Init(), acts).value.calls
  {
    var s := Run(rate, Init(), acts).value;
    AskAccounting(rate, acts);
    forall id | 0 <= id < |s.reqs|
      ensures !s.reqs[id].phase.Unflushable?
    {
      Flushed(s.reqs[id]);
    }
    NoneUnflushable(s.reqs);
  }

  predicate WritesLine(p: Phase) {
    p.Limited? || p.Audited?
  }

  /** The number of requests that were served without an audit line. */
  function Missing(reqs: seq<Req>): nat {
    if reqs == [] then 0 else (if WritesLine(reqs[0].phase) then 0 else 1) + Missing(reqs[1..])
  }

  lemma MissingOne(p: Phase)
    requires Final(p)
    ensures
      var e := EndOf(p);
      e.rejected + e.unflushable + e.unanswered == if WritesLine(p) then 0 else 1
  {
  }

  lemma {:induction false} MissingEnds(reqs: seq<Req>)
    requires forall id :: 0 <= id < |reqs| ==> Final(reqs[id].phase)
    ensures
      var e := EndsOf(reqs);
      e.rejected + e.unflushable + e.unanswered == Missing(reqs)
  {
    if reqs != [] {
      var p, rest := reqs[0].phase, reqs[1..];
      MissingEnds(rest);
      MissingOne(p);
      assert EndsOf(reqs) == AddEnds(EndOf(p), EndsOf(rest));
    }
  }

  lemma {:induction false} NoneMissing(reqs: seq<Req>)
    ensures Missing(reqs) == 0 <==> forall id :: 0 <= id < |reqs| ==> WritesLine(reqs[id].phase)
  {
    if reqs != [] {
      NoneMissing(reqs[1..]);
      assert forall id :: 0 < id < |reqs| ==> reqs[id] == reqs[1..][id - 1];
    }
  }

  /** What a request needs to leave an audit line: to be valid and, once admitted, a flushable stream or an answer. */
  predicate Auditable(r: Req) {
    && r.post.valid
    && (Was(r.verdict, true) ==> if r.post.stream then r.post.flushable else Was(r.reply, true))
  }

  lemma AuditableWrites(r: Req)
    requires Consistent(r) && Final(r.phase)
    ensures WritesLine(r.phase) <==> Auditable(r)
  {
  }

  /**
   One audit line per served request: exactly when every request is valid, every admitted stream has a
   writer that can flush, and the bridge answers every admitted non-streaming request.
  */
  lemma OneLineEachIff(rate: RateLimit.Rate, acts: seq<Action>)
    requires Run(rate, Init(), acts).Some?
    requires
      var s := Run(rate, Init(), acts).value;
      forall id :: 0 <= id < |s.reqs| ==> Final(s.reqs[id].phase)
    ensures
      var s := Run(rate, Init(), acts).value;
      |s.lines| == |s.reqs| <==> forall id :: 0 <= id < |s.reqs| ==> Auditable(s.reqs[id])
  {
    var s := Run(rate, Init(), acts).value;
    AskAccounting(rate, acts);
    MissingEnds(s.reqs);
    NoneMissing(s.reqs);
    forall id | 0 <= id < |s.reqs|
      ensures WritesLine(s.reqs[id].phase) <==> Auditable(s.reqs[id])
    {
      AuditableWrites(s.reqs[id]);
    }
  }

  lemma {:induction false} RunAppend(rate: RateLimit.Rate, s: State, acts: seq<Action>, more: seq<Action>)
    requires Run(rate, s, acts).Some?
    ensures Run(rate, s, acts + more) == Run(rate, Run(rate, s, acts).value, more)
    decreases |acts|
  {
    if acts == [] {
      assert acts + more == more;
    } else {
      assert (acts + more)[1..] == acts[1..] + more;
      RunAppend(rate, Step(rate, s, acts[0]), acts[1..], more);
    }
  }

  /** The run serves its one request and leaves the audit log empty. */
  ghost predicate ServesSilently(rate: RateLimit.Rate, acts: seq<Action>) {
    && Run(rate, Init(), acts).Some?
    && var s := Run(rate, Init(), acts).value;
       |s.reqs| == 1 && Final(s.reqs[0].phase) && s.lines == []
  }

  /** A valid first request is admitted. */
  lemma FirstAdmitted(rate: RateLimit.Rate, post: Post, now: int) returns (s: State)
    requires post.valid && rate.interval <= rate.capacity
    ensures Run(rate, Init(), [Arrive(post), Allow(0, now)]) == Some(s)
    ensures s.reqs == [Req(post, Admitted, Some(true), None)] && s.lines == []
  {
    var acts := [Arrive(post), Allow(0, now)];
    assert acts[1..] == [Allow(0, now)] && [Allow(0, now)][1..] == [];
    var s1 := Step(rate, Init(), Arrive(post));
    assert s1.reqs == [New(post)] && Enabled(s1, Allow(0, now));
    assert RateLimit.Decide(rate, RateLimit.Held(s1.buckets, post.caller), now).1;
    s := Step(rate, s1, Allow(0, now));
    assert Run(rate, s1, [Allow(0, now)]) == Some(s);
  }

  lemma RejectedSilently(rate: RateLimit.Rate, post: Post)
    requires !post.valid
    ensures ServesSilently(rate, [Arrive(post), Reject(0)])
  {
    var acts := [Arrive(post), Reject(0)];
    assert acts[1..] == [Reject(0)] && [Reject(0)][1..] == [];
    var s := Step(rate, Init(), Arrive(post));
    assert Run(rate, s, [Reject(0)]) == Some(Step(rate, s, Reject(0)));
  }

  lemma UnflushableSilently(rate: RateLimit.Rate, post: Post, now: int)
    requires post.valid && post.stream && !post.flushable && rate.interval <= rate.capacity
    ensures ServesSilently(rate, [Arrive(post), Allow(0, now), NoFlusher(0)])
  {
    var start, last := [Arrive(post), Allow(0, now)], [NoFlusher(0)];
    var s := FirstAdmitted(rate, post, now);
    RunAppend(rate, Init(), start, last);
    assert start + last == [Arrive(post), Allow(0, now), NoFlusher(0)];
    assert last[1..] == [] && Run(rate, s, last) == Some(Step(rate, s, NoFlusher(0)));
  }

  lemma UnansweredSilently(rate: RateLimit.Rate, post: Post, now: int)
    requires post.valid && !post.stream && rate.interval <= rate.capacity
    ensures ServesSilently(rate, [Arrive(post), Allow(0, now), Call(0, false), GiveUp(0)])
  {
    var start, last := [Arrive(post), Allow(0, now)], [Call(0, false), GiveUp(0)];
    var s := FirstAdmitted(rate, post, now);
    RunAppend(rate, Init(), start, last);
    assert start + last == [Arrive(post), Allow(0, now), Call(0, false), GiveUp(0)];
    assert last[1..] == [GiveUp(0)] && [GiveUp(0)][1..] == [];
    var s' := Step(rate, s, Call(0, false));
    assert Run(rate, s, last) == Some(Step(rate, s', GiveUp(0)));
  }

  /**
   Each kind of request that OneLineEachIff excludes, alone on an idle gateway, is served without an
   audit line: an invalid one, a stream on a writer that cannot flush, and a valid non-streaming one
   whose bridge call fails.
  */
  lemma ServedUnaudited(rate: RateLimit.Rate, post: Post, now: int) returns (acts: seq<Action>)
    requires rate.interval <= rate.capacity && (post.stream ==> !post.valid || !post.flushable)
    ensures ServesSilently(rate, acts) && [Arrive(post)] <= acts
  {
    if !post.valid {
      acts := [Arrive(post), Reject(0)];
      RejectedSilently(rate, post);
    } else if post.stream {
      acts := [Arrive(post), Allow(0, now), NoFlusher(0)];
      UnflushableSilently(rate, post, now);
    } else {
      acts := [Arrive(post), Allow(0, now), Call(0, false), GiveUp(0)];
      UnansweredSilently(rate, post, now);
    }
  }

  // ---------------------------------------------------------------- what the lines say

  /** Whether a request has left a line with this outcome: one per 429, per clean finish and per broken one. */
  function Left(o: Audit.Outcome): Req -> int {
    (r: Req) =>
      if (o.RateLimited? && r.phase.Limited?)
         || (o.Ok? && r.phase.Audited? && r.phase.ok)
         || (o.Error? && r.phase.Audited? && !r.phase.ok)
      then 1 else 0
  }

  ghost predicate OutcomesTally(s: State) {
    forall o :: multiset(s.lines)[o] == Tally(s.reqs, Left(o))
  }

  lemma AnyOutcomeCount(lines: seq<Audit.Outcome>, line: Audit.Outcome, o: Audit.Outcome)
    ensures multiset(lines + [line])[o] == multiset(lines)[o] + if line == o then 1 else 0
  {
    assert multiset(lines + [line]) == multiset(lines) + multiset{line};
  }

  /** A step leaves the lines alone or adds one, and the request it concerns tells which. */
  lemma StepLeaves(rate: RateLimit.Rate, s: State, a: Action, o: Audit.Outcome)
    requires Enabled(s, a) && !a.Arrive?
    ensures
      var s' := Step(rate, s, a);
      && s'.reqs == s.reqs[a.id := s'.reqs[a.id]]
      && multiset(s'.lines)[o] == multiset(s.lines)[o] + Left(o)(s'.reqs[a.id]) - Left(o)(s.reqs[a.id])
  {
    if a.LogLimit? {
      AnyOutcomeCount(s.lines, Audit.RateLimited, o);
    } else if a.LogAnswer? {
      AnyOutcomeCount(s.lines, if s.reqs[a.id].phase.ok then Audit.Ok else Audit.Error, o);
    }
  }

  lemma OutcomesTallyStep(rate: RateLimit.Rate, s: State, a: Action)
    requires OutcomesTally(s) && Enabled(s, a)
    ensures OutcomesTally(Step(rate, s, a))
  {
    var s' := Step(rate, s, a);
    forall o
      ensures multiset(s'.lines)[o] == Tally(s'.reqs, Left(o))
    {
      if a.Arrive? {
        TallyAppend(s.reqs, Left(o), New(a.post));
      } else {
        StepLeaves(rate, s, a, o);
        TallyUpdate(s.reqs, Left(o), a.id, s'.reqs[a.id]);
      }
    }
  }

  /** At every moment the log has as many lines of each outcome as requests that have come to it. */
  lemma {:induction false} OutcomesTallyRun(rate: RateLimit.Rate, s: State, acts: seq<Action>)
    requires OutcomesTally(s) && Run(rate, s, acts).Some?
    ensures OutcomesTally(Run(rate, s, acts).value)
    decreases |acts|
  {
    if acts != [] {
      OutcomesTallyStep(rate, s, acts[0]);
      OutcomesTallyRun(rate, Step(rate, s, acts[0]), acts[1..]);
    }
  }

  lemma LinesByOutcome(rate: RateLimit.Rate, acts: seq<Action>)
    requires Run(rate, Init(), acts).Some?
    ensures
      var s := Run(rate, Init(), acts).value;
      && multiset(s.lines)[Audit.RateLimited] == Tally(s.reqs, (r: Req) => if r.phase.Limited? then 1 else 0)
      && multiset(s.lines)[Audit.Ok] == Tally(s.reqs, (r: Req) => if r.phase == Audited(true) then 1 else 0)
      && multiset(s.lines)[Audit.Error] == Tally(s.reqs, (r: Req) => if r.phase == Audited(false) then 1 else 0)
  {
    OutcomesTallyRun(rate, Init(), acts);
    var reqs := Run(rate, Init(), acts).value.reqs;
    TallySame(reqs, Left(Audit.RateLimited), (r: Req) => if r.phase.Limited? then 1 else 0);
    TallySame(reqs, Left(Audit.Ok), (r: Req) => if r.phase == Audited(true) then 1 else 0);
    TallySame(reqs, Left(Audit.Error), (r: Req) => if r.phase == Audited(false) then 1 else 0);
  }

  // ---------------------------------------------------------------- the quota, seen from upstream

  predicate PastLimiter(p: Phase) {
    Contribution(p).admitted == 1
  }

  function AdmittedBy(reqs: seq<Req>, caller: string): nat {
    if reqs == [] then 0
    else Passed(reqs[0], caller) + AdmittedBy(reqs[1..], caller)
  }

  function CallsBy(reqs: seq<Req>, caller: string): nat {
    if reqs == [] then 0
    else (if reqs[0].post.caller == caller && Contribution(reqs[0].phase).calls == 1 then 1 else 0) + CallsBy(reqs[1..], caller)
  }

  function Passed(r: Req, caller: string): nat {
    if r.post.caller == caller && PastLimiter(r.phase) then 1 else 0
  }

  lemma {:induction false} AdmittedByUpdate(reqs: seq<Req>, id: nat, r: Req, caller: string)
    requires id < |reqs|
    ensures AdmittedBy(reqs[id := r], caller) + Passed(reqs[id], caller) == AdmittedBy(reqs, caller) + Passed(r, caller)
  {
    if id == 0 {
      assert reqs[id := r][1..] == reqs[1..];
    } else {
      assert reqs[id := r][1..] == reqs[1..][id - 1 := r];
      AdmittedByUpdate(reqs[1..], id - 1, r, caller);
    }
  }

  lemma {:induction false} AdmittedByArrival(reqs: seq<Req>, post: Post, caller: string)
    ensures AdmittedBy(reqs + [New(post)], caller) == AdmittedBy(reqs, caller)
  {
    if reqs != [] {
      assert (reqs + [New(post)])[1..] == reqs[1..] + [New(post)];
      AdmittedByArrival(reqs[1..], post, caller);
    }
  }

  /** The limiter state is that of its trace, and the trace has the admissions of the requests. */
  ghost predicate Metered(rate: RateLimit.Rate, s: State, caller: string) {
    && RateLimit.Serve(rate, map[], s.trace) == (s.buckets, s.verdicts)
    && |s.verdicts| == |s.trace|
    && RateLimit.Ordered(s.trace)
    && AdmittedBy(s.reqs, caller) == RateLimit.Admitted(s.trace, s.verdicts, caller)
  }

  lemma {:induction false} AdmittedOne(trace: seq<RateLimit.Request>, vs: seq<bool>, r: RateLimit.Request, ok: bool,
                                       caller: string)
    requires |vs| == |trace|
    ensures RateLimit.Admitted(trace + [r], vs + [ok], caller)
         == RateLimit.Admitted(trace, vs, caller) + if r.caller == caller && ok then 1 else 0
  {
    if trace == [] {
      assert trace + [r] == [r] && vs + [ok] == [ok];
    } else {
      assert (trace + [r])[1..] == trace[1..] + [r] && (vs + [ok])[1..] == vs[1..] + [ok];
      AdmittedOne(trace[1..], vs[1..], r, ok, caller);
    }
  }

  /** What a limiter decision does to the state. */
  lemma AllowStep(rate: RateLimit.Rate, s: State, a: Action, caller: string)
    requires Enabled(s, a) && a.Allow?
    ensures
      var s', r := Step(rate, s, a), RateLimit.Request(s.reqs[a.id].post.caller, a.now);
      var (b, ok) := RateLimit.Decide(rate, RateLimit.Held(s.buckets, r.caller), a.now);
      && s'.trace == s.trace + [r] && s'.verdicts == s.verdicts + [ok] && s'.buckets == s.buckets[r.caller := b]
      && s'.reqs == s.reqs[a.id := s'.reqs[a.id]]
      && Passed(s.reqs[a.id], caller) == 0
      && Passed(s'.reqs[a.id], caller) == if r.caller == caller && ok then 1 else 0
  {
  }

  lemma OrderedAppend(trace: seq<RateLimit.Request>, r: RateLimit.Request)
    requires RateLimit.Ordered(trace) && (trace != [] ==> trace[|trace| - 1].time <= r.time)
    ensures RateLimit.Ordered(trace + [r])
  {
  }

  lemma MeteredAllow(rate: RateLimit.Rate, s: State, a: Action, caller: string)
    requires Metered(rate, s, caller) && Enabled(s, a) && a.Allow?
    ensures Metered(rate, Step(rate, s, a), caller)
  {
    var s' := Step(rate, s, a);
    var r := RateLimit.Request(s.reqs[a.id].post.caller, a.now);
    var ok := RateLimit.Decide(rate, RateLimit.Held(s.buckets, r.caller), a.now).1;
    AllowStep(rate, s, a, caller);
    RateLimit.ServeOne(rate, map[], s.trace, r);
    OrderedAppend(s.trace, r);
    AdmittedOne(s.trace, s.verdicts, r, ok, caller);
    AdmittedByUpdate(s.reqs, a.id, s'.reqs[a.id], caller);
  }

  /** Only the limiter moves a request past the limiter. */
  lemma QuietPhase(rate: RateLimit.Rate, s: State, a: Action)
    requires Enabled(s, a) && !a.Allow? && !a.Arrive?
    ensures PastLimiter(Step(rate, s, a).reqs[a.id].phase) == PastLimiter(s.reqs[a.id].phase)
  {
  }

  lemma MeteredQuiet(rate: RateLimit.Rate, s: State, a: Action, caller: string)
    requires Metered(rate, s, caller) && Enabled(s, a) && !a.Allow? && !a.Arrive?
    ensures Metered(rate, Step(rate, s, a), caller)
  {
    var s' := Step(rate, s, a);
    assert s'.reqs == s.reqs[a.id := s'.reqs[a.id]] && s'.reqs[a.id].post == s.reqs[a.id].post;
    assert (s'.trace, s'.verdicts, s'.buckets) == (s.trace, s.verdicts, s.buckets);
    QuietPhase(rate, s, a);
    AdmittedByUpdate(s.reqs, a.id, s'.reqs[a.id], caller);
  }

  lemma MeteredStep(rate: RateLimit.Rate, s: State, a: Action, caller: string)
    requires Metered(rate, s, caller) && Enabled(s, a)
    ensures Metered(rate, Step(rate, s, a), caller)
  {
    match a
    case Arrive(post) => AdmittedByArrival(s.reqs, post, caller);
    case Allow(_, _) => MeteredAllow(rate, s, a, caller);
    case _ => MeteredQuiet(rate, s, a, caller);
  }

  lemma {:induction false} MeteredRun(rate: RateLimit.Rate, s: State, acts: seq<Action>, caller: string)
    requires Metered(rate, s, caller) && Run(rate, s, acts).Some?
    ensures Metered(rate, Run(rate, s, acts).value, caller)
    decreases |acts|
  {
    if acts != [] {
      MeteredStep(rate, s, acts[0], caller);
      MeteredRun(rate, Step(rate, s, acts[0]), acts[1..], caller);
    }
  }

  lemma {:induction false} CallsWithinAdmissions(reqs: seq<Req>, caller: string)
    ensures CallsBy(reqs, caller) <= AdmittedBy(reqs, caller)
  {
    if reqs != [] {
      CallsWithinAdmissions(reqs[1..], caller);
    }
  }

  lemma {:induction false} AdmittedAppend(a: seq<RateLimit.Request>, b: seq<RateLimit.Request>, vs: seq<bool>,
                                          ws: seq<bool>, caller: string)
    requires |vs| == |a| && |ws| == |b|
    ensures RateLimit.Admitted(a + b, vs + ws, caller)
         == RateLimit.Admitted(a, vs, caller) + RateLimit.Admitted(b, ws, caller)
  {
    if a == [] {
      assert a + b == b && vs + ws == ws;
    } else {
      assert (a + b)[1..] == a[1..] + b && (vs + ws)[1..] == vs[1..] + ws;
      AdmittedAppend(a[1..], b, vs[1..], ws, caller);
    }
  }

  lemma TraceStep(rate: RateLimit.Rate, s: State, a: Action)
    requires Enabled(s, a)
    ensures s.trace <= Step(rate, s, a).trace && s.verdicts <= Step(rate, s, a).verdicts
  {
  }

  /** Decisions once made stay on record. */
  lemma {:induction false} TraceGrows(rate: RateLimit.Rate, s: State, acts: seq<Action>)
    requires Run(rate, s, acts).Some?
    ensures s.trace <= Run(rate, s, acts).value.trace && s.verdicts <= Run(rate, s, acts).value.verdicts
    decreases |acts|
  {
    if acts != [] {
      TraceStep(rate, s, acts[0]);
      TraceGrows(rate, Step(rate, s, acts[0]), acts[1..]);
    }
  }

  /** The limiter's decisions since `s` lie within `length` nanoseconds of `start`. */
  ghost predicate DecidedWithin(s: State, s': State, start: int, length: nat) {
    s.trace <= s'.trace && RateLimit.Within(s'.trace[|s.trace|..], start, length)
  }

  lemma WindowAdmissions(n: nat, s: State, s': State, caller: string, start: int, length: nat)
    requires 1 <= n <= RateLimit.MINUTE
    requires Metered(RateLimit.PerMinute(n), s, caller) && Metered(RateLimit.PerMinute(n), s', caller)
    requires s.verdicts <= s'.verdicts && DecidedWithin(s, s', start, length)
    ensures AdmittedBy(s'.reqs, caller) <= AdmittedBy(s.reqs, caller) + n + length / RateLimit.PerMinute(n).interval
  {
    var k := |s.trace|;
    var window, ws := s'.trace[k..], s'.verdicts[k..];
    assert s'.trace == s.trace + window && s'.verdicts == s.verdicts + ws;
    RateLimit.WindowBound(n, s.trace, window, caller, start, length);
    AdmittedAppend(s.trace, window, s.verdicts, ws, caller);
  }

  /**
   Whatever went before, while the limiter's decisions lie within `length` nanoseconds one caller causes
   at most n + length / interval bridge calls, besides those of requests that were already admitted.
  */
  lemma UpstreamQuota(n: nat, before: seq<Action>, during: seq<Action>, caller: string, start: int, length: nat)
    requires 1 <= n <= RateLimit.MINUTE
    requires Run(RateLimit.PerMinute(n), Init(), before).Some?
    requires Run(RateLimit.PerMinute(n), Run(RateLimit.PerMinute(n), Init(), before).value, during).Some?
    requires
      var s := Run(RateLimit.PerMinute(n), Init(), before).value;
      DecidedWithin(s, Run(RateLimit.PerMinute(n), s, during).value, start, length)
    ensures
      var s := Run(RateLimit.PerMinute(n), Init(), before).value;
      CallsBy(Run(RateLimit.PerMinute(n), s, during).value.reqs, caller)
      <= AdmittedBy(s.reqs, caller) + n + length / RateLimit.PerMinute(n).interval
  {
    var rate := RateLimit.PerMinute(n);
    var s := Run(rate, Init(), before).value;
    var s' := Run(rate, s, during).value;
    MeteredRun(rate, Init(), before, caller);
    MeteredRun(rate, s, during, caller);
    TraceGrows(rate, s, during);
    WindowAdmissions(n, s, s', caller, start, length);
    CallsWithinAdmissions(s'.reqs, caller);
  }

  /** The quota of a gateway that has just been started. */
  lemma UpstreamQuotaAtStart(n: nat, acts: seq<Action>, caller: string, start: int, length: nat)
    requires 1 <= n <= RateLimit.MINUTE
    requires Run(RateLimit.PerMinute(n), Init(), acts).Some?
    requires RateLimit.Within(Run(RateLimit.PerMinute(n), Init(), acts).value.trace, start, length)
    ensures CallsBy(Run(RateLimit.PerMinute(n), Init(), acts).value.reqs, caller)
         <= n + length / RateLimit.PerMinute(n).interval
  {
    var s := Run(RateLimit.PerMinute(n), Init(), acts).value;
    assert s.trace[0..] == s.trace;
    UpstreamQuota(n, [], acts, caller, start, length);
  }
}
