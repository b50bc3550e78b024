/**
 Every interleaving of Allow calls. A call is two critical sections: under the limiter's lock it finds or
 creates the caller's bucket, and under the bucket's own lock it decides.
*/
module RateLimitRuns {
  import opened Wrappers
  import opened RateLimit

  /** Where a call stands: not yet in the map, holding its bucket, or answered. */
  datatype Call = Entered(caller: string) | Holding(caller: string) | Answered(caller: string, ok: bool)

  /** `trace` lists the decisions in order; `clock` is the latest reading of the clock. */
  datatype State = State(calls: seq<Call>, buckets: Buckets, trace: seq<Request>, verdicts: seq<bool>, clock: int)

  datatype Action = Enter(caller: string) | Lookup(id: nat, now: int) | Settle(id: nat, now: int)

  function Init(clock: int): State {
    State([], map[], [], [], clock)
  }

  predicate Enabled(s: State, a: Action) {
    match a
    case Enter(_) => true
    case Lookup(id, now) => id < |s.calls| && s.calls[id].Entered? && s.clock <= now
    case Settle(id, now) => id < |s.calls| && s.calls[id].Holding? && s.clock <= now && s.calls[id].caller in s.buckets
  }

  function Step(rate: Rate, s: State, a: Action): State
    requires Enabled(s, a)
  {
    match a
    case Enter(caller) => s.(calls := s.calls + [Entered(caller)])
    case Lookup(id, now) =>
      var caller := s.calls[id].caller;
      s.(calls := s.calls[id := Holding(caller)], clock := now,
         buckets := if caller in s.buckets then s.buckets else s.buckets[caller := FullBucket(rate, now)])
    case Settle(id, now) =>
      var caller := s.calls[id].caller;
      var (b, ok) := Take(rate, s.buckets[caller], now);
      s.(calls := s.calls[id := Answered(caller, ok)], clock := now, buckets := s.buckets[caller := b],
         trace := s.trace + [Request(caller, now)], verdicts := s.verdicts + [ok])
  }

  function Run(rate: Rate, s: State, acts: seq<Action>): Option<State>
    decreases |acts|
  {
    if acts == [] then Some(s)
    else if Enabled(s, acts[0]) then Run(rate, Step(rate, s, acts[0]), acts[1..])
    else None
  }

  /** The limiter that decides whole calls in the order of `trace` has given the same verdicts. */
  ghost predicate Atomic(rate: Rate, s: State) {
    && Ordered(s.trace) && (s.trace != [] ==> s.trace[|s.trace| - 1].time <= s.clock)
    && Verdicts(rate, map[], s.trace) == s.verdicts
    && (0 < rate.interval ==> SameUpToCreation(rate, Serve(rate, map[], s.trace).0, s.buckets, s.clock))
  }

  /** A bucket made on lookup decides as one made on the decision would. */
  lemma SameDecision(rate: Rate, lazy: Buckets, eager: Buckets, caller: string, now: int, clock: int)
    requires SameUpToCreation(rate, lazy, eager, clock) && caller in eager && clock <= now
    requires 0 < rate.interval <= rate.capacity
    ensures Decide(rate, Held(lazy, caller), now) == Take(rate, eager[caller], now)
    ensures
      var b := Take(rate, eager[caller], now).0;
      SameUpToCreation(rate, lazy[caller := b], eager[caller := b], now)
  {
  }

  lemma OrderedAppend(trace: seq<Request>, r: Request)
    requires Ordered(trace) && (trace != [] ==> trace[|trace| - 1].time <= r.time)
    ensures Ordered(trace + [r])
  {
  }

  lemma AtomicSettle(rate: Rate, s: State, a: Action)
    requires rate.interval <= rate.capacity
    requires Atomic(rate, s) && Enabled(s, a) && a.Settle?
    ensures Atomic(rate, Step(rate, s, a))
  {
    var r := Request(s.calls[a.id].caller, a.now);
    ServeOne(rate, map[], s.trace, r);
    OrderedAppend(s.trace, r);
    if 0 < rate.interval {
      SameDecision(rate, Serve(rate, map[], s.trace).0, s.buckets, r.caller, a.now, s.clock);
    }
  }

  lemma AtomicStep(rate: Rate, s: State, a: Action)
    requires rate.interval <= rate.capacity
    requires Atomic(rate, s) && Enabled(s, a)
    ensures Atomic(rate, Step(rate, s, a))
  {
    if a.Settle? {
      AtomicSettle(rate, s, a);
    }
  }

  lemma {:induction false} AtomicRun(rate: Rate, s: State, acts: seq<Action>)
    requires rate.interval <= rate.capacity
    requires Atomic(rate, s) && Run(rate, s, acts).Some?
    ensures Atomic(rate, Run(rate, s, acts).value)
    decreases |acts|
  {
    if acts != [] {
      AtomicStep(rate, s, acts[0]);
      AtomicRun(rate, Step(rate, s, acts[0]), acts[1..]);
    }
  }

  /**
   However the two sections of the calls interleave, the verdicts are those of whole calls made one after
   another in the order of their decisions, and every caller gets the answers that it would get alone.
  */
  lemma SectionsAreAtomic(n: nat, clock: int, acts: seq<Action>, caller: string)
    requires 0 < n && Run(PerMinute(n), Init(clock), acts).Some?
    ensures
      var s := Run(PerMinute(n), Init(clock), acts).value;
      && Ordered(s.trace) && s.verdicts == Verdicts(PerMinute(n), map[], s.trace)
      && Answers(s.trace, s.verdicts, caller) == Verdicts(PerMinute(n), map[], Only(s.trace, caller))
  {
    var rate := PerMinute(n);
    assert rate.interval <= rate.capacity by {
      MulOrder(rate.interval, 1, n);
    }
    AtomicRun(rate, Init(clock), acts);
    CallerIsolation(rate, map[], map[], Run(rate, Init(clock), acts).value.trace, caller);
  }

  /** No call is ever stuck between its sections: the bucket it looked up is there. */
  ghost predicate Reachable(s: State) {
    forall id :: 0 <= id < |s.calls| && s.calls[id].Holding? ==> s.calls[id].caller in s.buckets
  }

  lemma {:induction false} BucketsStay(rate: Rate, s: State, acts: seq<Action>)
    requires Reachable(s) && Run(rate, s, acts).Some?
    ensures Reachable(Run(rate, s, acts).value)
    decreases |acts|
  {
    if acts != [] {
      BucketsStay(rate, Step(rate, s, acts[0]), acts[1..]);
    }
  }
}
