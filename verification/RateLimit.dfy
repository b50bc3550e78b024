/** The per-caller token bucket, with credit counted exactly in nanoseconds. */
module RateLimit {
  import opened Wrappers

  const MINUTE: nat := 60_000_000_000

  /** One admission costs `interval`; a bucket holds at most `capacity`. */
  datatype Rate = Rate(interval: nat, capacity: nat)

  /** The rate of New(perMinute): time.Minute / perMinute, and a burst of perMinute admissions. */
  function PerMinute(n: nat): Rate
    requires 0 < n
  {
    Rate(MINUTE / n, n * (MINUTE / n))
  }

  /** Credit earned up to time `last`. */
  datatype Bucket = Bucket(credit: nat, last: int)

  type Buckets = map<string, Bucket>

  /** What rate.NewLimiter gives a caller on first use. */
  function FullBucket(rate: Rate, now: int): Bucket {
    Bucket(rate.capacity, now)
  }

  function Available(rate: Rate, b: Bucket, now: int): (c: nat)
    ensures c <= rate.capacity
  {
    var c := b.credit + (if now < b.last then 0 else now - b.last);
    if c < rate.capacity then c else rate.capacity
  }

  /** One decision; a zero interval is the unlimited rate, and a refusal leaves the bucket alone. */
  function Take(rate: Rate, b: Bucket, now: int): (Bucket, bool) {
    if rate.interval == 0 then (b, true)
    else if Available(rate, b, now) < rate.interval then (b, false)
    else (Bucket(Available(rate, b, now) - rate.interval, now), true)
  }

  function Held(m: Buckets, caller: string): Option<Bucket> {
    if caller in m then Some(m[caller]) else None
  }

  /** A decision for a caller whose bucket may not have been created yet. */
  function Decide(rate: Rate, held: Option<Bucket>, now: int): (Bucket, bool) {
    Take(rate, if held.Some? then held.value else FullBucket(rate, now), now)
  }

  class Limiter {
    const perMinute: int
    var limiters: Buckets

    constructor (perMinute: int)
      ensures this.perMinute == (if perMinute <= 0 then 0 else perMinute) && limiters == map[]
    {
      this.perMinute := if perMinute <= 0 then 0 else perMinute;
      limiters := map[];
    }

    /** Whether a request would be admitted now; a limiter for no requests a minute is switched off. */
    function Admits(caller: string, now: int): bool
      reads this
    {
      perMinute <= 0 || Decide(PerMinute(perMinute), Held(limiters, caller), now).1
    }

    /** The buckets after a decision for the caller: its own has moved on, the others are as they were. */
    function Charged(caller: string, now: int): (m: Buckets)
      reads this
      ensures forall c :: c != caller ==> Held(m, c) == Held(limiters, c)
    {
      if perMinute <= 0 then limiters
      else limiters[caller := Decide(PerMinute(perMinute), Held(limiters, caller), now).0]
    }

    method Allow(caller: string, now: int) returns (ok: bool)
      modifies this
      ensures ok == old(Admits(caller, now)) && limiters == old(Charged(caller, now))
      ensures perMinute <= 0 ==> ok && limiters == old(limiters)
      ensures perMinute > 0 ==>
        var (b, verdict) := Decide(PerMinute(perMinute), Held(old(limiters), caller), now);
        ok == verdict && limiters == old(limiters)[caller := b]
    {
      if perMinute <= 0 {
        return true;
      }
      var rate := PerMinute(perMinute);
      if caller !in limiters {
        limiters := limiters[caller := FullBucket(rate, now)];
      }
      var (b, verdict) := Take(rate, limiters[caller], now);
      limiters := limiters[caller := b];
      ok := verdict;
    }
  }

  // ---------------------------------------------------------------- traces

  datatype Request = Request(caller: string, time: int)

  /** The buckets after a sequence of requests, and the answers to them. */
  function Serve(rate: Rate, m: Buckets, trace: seq<Request>): (r: (Buckets, seq<bool>))
    ensures |r.1| == |trace|
    decreases |trace|
  {
    if trace == [] then (m, [])
    else
      var (b, ok) := Decide(rate, Held(m, trace[0].caller), trace[0].time);
      var (m', rest) := Serve(rate, m[trace[0].caller := b], trace[1..]);
      (m', [ok] + rest)
  }

  function Verdicts(rate: Rate, m: Buckets, trace: seq<Request>): (vs: seq<bool>)
    ensures |vs| == |trace|
  {
    Serve(rate, m, trace).1
  }

  lemma VerdictsCons(rate: Rate, m: Buckets, trace: seq<Request>)
    requires trace != []
    ensures
      var (b, ok) := Decide(rate, Held(m, trace[0].caller), trace[0].time);
      Verdicts(rate, m, trace) == [ok] + Verdicts(rate, m[trace[0].caller := b], trace[1..])
  {
  }

  /** One more request at the end of a trace. */
  lemma {:induction false} ServeOne(rate: Rate, m: Buckets, trace: seq<Request>, r: Request)
    ensures
      var (m1, vs) := Serve(rate, m, trace);
      var (b, ok) := Decide(rate, Held(m1, r.caller), r.time);
      && Serve(rate, m, trace + [r]).0 == m1[r.caller := b]
      && Serve(rate, m, trace + [r]).1 == vs + [ok]
    decreases |trace|
  {
    if trace == [] {
      assert trace + [r] == [r] && [r][1..] == [];
    } else {
      var (b0, ok0) := Decide(rate, Held(m, trace[0].caller), trace[0].time);
      var m0 := m[trace[0].caller := b0];
      assert (trace + [r])[0] == trace[0] && (trace + [r])[1..] == trace[1..] + [r];
      ServeOne(rate, m0, trace[1..], r);
      var (m1, vs) := Serve(rate, m0, trace[1..]);
      assert Serve(rate, m, trace) == (m1, [ok0] + vs);
      assert [ok0] + Serve(rate, m0, trace[1..] + [r]).1 == Serve(rate, m, trace + [r]).1;
    }
  }

  ghost predicate Ordered(trace: seq<Request>) {
    forall i, j :: 0 <= i < j < |trace| ==> trace[i].time <= trace[j].time
  }

  /** One caller's part of a trace, and of the answers to it. */
  function Only(trace: seq<Request>, caller: string): seq<Request> {
    if trace == [] then []
    else if trace[0].caller == caller then [trace[0]] + Only(trace[1..], caller)
    else Only(trace[1..], caller)
  }

  function Answers(trace: seq<Request>, vs: seq<bool>, caller: string): seq<bool>
    requires |vs| == |trace|
  {
    if trace == [] then []
    else if trace[0].caller == caller then [vs[0]] + Answers(trace[1..], vs[1..], caller)
    else Answers(trace[1..], vs[1..], caller)
  }

  /** Isolation: a caller gets the answers it would get if nobody else used the limiter. */
  lemma {:induction false} CallerIsolation(rate: Rate, m: Buckets, alone: Buckets, trace: seq<Request>, caller: string)
    requires Held(m, caller) == Held(alone, caller)
    ensures Answers(trace, Verdicts(rate, m, trace), caller) == Verdicts(rate, alone, Only(trace, caller))
    decreases |trace|
  {
    if trace != [] {
      var r, rest := trace[0], trace[1..];
      var (b, ok) := Decide(rate, Held(m, r.caller), r.time);
      VerdictsCons(rate, m, trace);
      if r.caller == caller {
        VerdictsCons(rate, alone, Only(trace, caller));
        CallerIsolation(rate, m[caller := b], alone[caller := b], rest, caller);
      } else {
        CallerIsolation(rate, m[r.caller := b], alone, rest, caller);
      }
    }
  }

  /** Buckets that differ only in that some callers' full ones have not been created yet. */
  ghost predicate SameUpToCreation(rate: Rate, lazy: Buckets, eager: Buckets, now: int) {
    && (forall c :: c in lazy ==> c in eager && lazy[c] == eager[c])
    && (forall c :: c in eager && c !in lazy ==> eager[c].credit == rate.capacity && eager[c].last <= now)
  }

  /** Creating buckets on first use is the same as having given callers a full one beforehand. */
  lemma {:induction false} LazyCreation(rate: Rate, lazy: Buckets, eager: Buckets, trace: seq<Request>, now: int)
    requires rate.interval <= rate.capacity && SameUpToCreation(rate, lazy, eager, now)
    requires Ordered(trace) && (trace != [] ==> now <= trace[0].time)
    ensures Verdicts(rate, lazy, trace) == Verdicts(rate, eager, trace)
    decreases |trace|
  {
    if rate.interval == 0 {
      Unlimited(rate, lazy, trace);
      Unlimited(rate, eager, trace);
    } else if trace != [] {
      var r := trace[0];
      var (b, ok) := Decide(rate, Held(lazy, r.caller), r.time);
      assert Decide(rate, Held(eager, r.caller), r.time) == (b, ok);
      VerdictsCons(rate, lazy, trace);
      VerdictsCons(rate, eager, trace);
      LazyCreation(rate, lazy[r.caller := b], eager[r.caller := b], trace[1..], r.time);
    }
  }

  /** Above 60e9 requests per minute the interval rounds to zero and nothing is ever refused. */
  lemma {:induction false} Unlimited(rate: Rate, m: Buckets, trace: seq<Request>)
    requires rate.interval == 0
    ensures Verdicts(rate, m, trace) == seq(|trace|, i => true)
    decreases |trace|
  {
    if trace != [] {
      var (b, ok) := Decide(rate, Held(m, trace[0].caller), trace[0].time);
      VerdictsCons(rate, m, trace);
      Unlimited(rate, m[trace[0].caller := b], trace[1..]);
    }
  }

  // ---------------------------------------------------------------- how many are admitted

  function Admitted(trace: seq<Request>, vs: seq<bool>, caller: string): nat
    requires |vs| == |trace|
  {
    if trace == [] then 0
    else (if trace[0].caller == caller && vs[0] then 1 else 0) + Admitted(trace[1..], vs[1..], caller)
  }

  ghost predicate Within(trace: seq<Request>, start: int, length: nat) {
    forall i :: 0 <= i < |trace| ==> start <= trace[i].time <= start + length
  }

  /** What the caller could spend at time `now`. */
  function Purse(rate: Rate, m: Buckets, caller: string, now: int): nat {
    if caller in m then Available(rate, m[caller], now) else rate.capacity
  }

  /** A decision moves the purse on: what it adds is the time that passed, less an interval per admission. */
  lemma PurseStep(rate: Rate, m: Buckets, r: Request, caller: string, start: int)
    requires start <= r.time
    ensures
      var (b, ok) := Decide(rate, Held(m, r.caller), r.time);
      Purse(rate, m[r.caller := b], caller, r.time) + (if r.caller == caller && ok then rate.interval else 0)
      <= Purse(rate, m, caller, start) + (r.time - start)
  {
  }

  /** Admissions are paid for out of what was available when the window opened and what it added. */
  lemma {:induction false} Spending(rate: Rate, m: Buckets, trace: seq<Request>, caller: string, start: int, length: nat)
    requires 0 < rate.interval <= rate.capacity
    requires Ordered(trace) && Within(trace, start, length)
    ensures rate.interval * Admitted(trace, Verdicts(rate, m, trace), caller)
         <= Purse(rate, m, caller, start) + length
    decreases |trace|
  {
    if trace != [] {
      var r, rest := trace[0], trace[1..];
      var (b, ok) := Decide(rate, Held(m, r.caller), r.time);
      var m' := m[r.caller := b];
      var left := start + length - r.time;
      VerdictsCons(rate, m, trace);
      PurseStep(rate, m, r, caller, start);
      assert Within(rest, r.time, left);
      Spending(rate, m', rest, caller, r.time, left);
      var vs := Verdicts(rate, m', rest);
      assert ([ok] + vs)[1..] == vs;
      var a := Admitted(rest, vs, caller);
      assert Admitted(trace, [ok] + vs, caller) == if r.caller == caller && ok then a + 1 else a;
      OneMore(rate.interval, a);
    }
  }

  lemma MulOrder(i: nat, a: nat, b: nat)
    ensures a < b ==> i * a + i <= i * b
  {
    if a < b {
      assert i * b == i * a + i + i * (b - a - 1);
    }
  }

  lemma OneMore(i: nat, a: nat)
    ensures i * (a + 1) == i * a + i
  {
  }

  lemma DivPositive(m: nat, n: nat)
    requires 1 <= n <= m
    ensures 1 <= m / n && m == n * (m / n) + m % n && m / n <= n * (m / n)
  {
    MulOrder(n, 0, m / n);
    MulOrder(m / n, 1, n);
  }

  lemma IntervalPositive(n: nat)
    requires 1 <= n <= MINUTE
    ensures 0 < PerMinute(n).interval <= PerMinute(n).capacity <= MINUTE
    ensures PerMinute(n).capacity == PerMinute(n).interval * n
    ensures MINUTE == PerMinute(n).capacity + MINUTE % n
  {
    DivPositive(MINUTE, n);
  }

  /** A purse of n intervals and `length` more pays for n + length / interval admissions. */
  lemma Affordable(n: nat, interval: nat, count: nat, length: nat)
    requires 0 < interval && interval * count <= n * interval + length
    ensures count <= n + length / interval
  {
    var q := length / interval;
    assert length == interval * q + length % interval;
    assert n * interval + interval * q == interval * (n + q);
    MulOrder(interval, n + q, count);
  }

  lemma {:induction false} ServeAppend(rate: Rate, m: Buckets, before: seq<Request>, after: seq<Request>)
    ensures Serve(rate, m, before + after).1
         == Verdicts(rate, m, before) + Verdicts(rate, Serve(rate, m, before).0, after)
    decreases |before|
  {
    if before == [] {
      assert before + after == after;
    } else {
      var (b, ok) := Decide(rate, Held(m, before[0].caller), before[0].time);
      assert (before + after)[1..] == before[1..] + after;
      ServeAppend(rate, m[before[0].caller := b], before[1..], after);
    }
  }

  /**
   Window bound: whatever came before and whoever else calls, within any window of `length`
   nanoseconds a caller is admitted at most n + length / interval times.
  */
  lemma WindowBound(n: nat, before: seq<Request>, window: seq<Request>, caller: string, start: int, length: nat)
    requires 1 <= n <= MINUTE
    requires Ordered(before + window) && Within(window, start, length)
    ensures
      var vs := Verdicts(PerMinute(n), map[], before + window)[|before|..];
      Admitted(window, vs, caller) <= n + length / PerMinute(n).interval
  {
    var rate := PerMinute(n);
    IntervalPositive(n);
    var m := Serve(rate, map[], before).0;
    ServeAppend(rate, map[], before, window);
    assert Ordered(window) by {
      assert window == (before + window)[|before|..];
    }
    Spending(rate, m, window, caller, start, length);
    Affordable(n, rate.interval, Admitted(window, Verdicts(rate, m, window), caller), length);
  }

  function GreedyTime(n: nat, interval: nat, k: nat): nat {
    if k < n then 0 else (k - n + 1) * interval
  }

  /** A burst of n at time 0, then one request per interval until `count` have been made. */
  function Greedy(caller: string, n: nat, interval: nat, count: nat): seq<Request> {
    seq(count, k requires 0 <= k => Request(caller, GreedyTime(n, interval, k)))
  }

  /** The rate of a bucket that holds exactly n admissions. */
  ghost predicate HoldsBurst(rate: Rate, n: nat) {
    0 < n && 0 < rate.interval && rate.capacity == n * rate.interval
  }

  /** The greedy trace from position `from` on finds its credit. */
  lemma {:induction false} GreedyServed(rate: Rate, n: nat, caller: string, count: nat, from: nat, m: Buckets)
    requires HoldsBurst(rate, n) && from <= count
    requires
      if from == 0 then caller !in m
      else caller in m && m[caller] ==
           if from <= n then Bucket((n - from) * rate.interval, 0) else Bucket(0, (from - n) * rate.interval)
    ensures Verdicts(rate, m, Greedy(caller, n, rate.interval, count)[from..]) == seq(count - from, i => true)
    decreases count - from
  {
    var trace := Greedy(caller, n, rate.interval, count);
    if from < count {
      var (b, ok) := Decide(rate, Held(m, caller), trace[from].time);
      GreedyStep(n, from, rate.interval);
      assert ok;
      VerdictsCons(rate, m, trace[from..]);
      assert trace[from..][1..] == trace[from + 1..];
      GreedyServed(rate, n, caller, count, from + 1, m[caller := b]);
    }
  }

  lemma GreedyStep(n: nat, from: nat, interval: nat)
    requires 0 < n
    ensures from < n ==> (n - from) * interval == (n - (from + 1)) * interval + interval
    ensures from < n ==> interval <= (n - from) * interval <= n * interval
    ensures n <= from ==> (from - n + 1) * interval == (from - n) * interval + interval
    ensures interval <= n * interval
  {
    if from < n {
      assert (n - from) * interval == (n - (from + 1)) * interval + interval;
      assert 0 <= (n - (from + 1)) * interval && 0 <= from * interval;
      assert n * interval == (n - from) * interval + from * interval;
    }
    assert 0 <= (n - 1) * interval;
  }

  lemma {:induction false} AllAdmitted(trace: seq<Request>, vs: seq<bool>, caller: string)
    requires |vs| == |trace| && forall i :: 0 <= i < |trace| ==> trace[i].caller == caller && vs[i]
    ensures Admitted(trace, vs, caller) == |trace|
  {
    if trace != [] {
      AllAdmitted(trace[1..], vs[1..], caller);
    }
  }

  lemma GreedyAdmitted(rate: Rate, n: nat, count: nat, caller: string)
    requires HoldsBurst(rate, n)
    ensures
      var trace := Greedy(caller, n, rate.interval, count);
      Admitted(trace, Verdicts(rate, map[], trace), caller) == count
  {
    var trace := Greedy(caller, n, rate.interval, count);
    GreedyServed(rate, n, caller, count, 0, map[]);
    assert trace[0..] == trace;
    AllAdmitted(trace, Verdicts(rate, map[], trace), caller);
  }

  lemma GreedyTimeOrder(n: nat, interval: nat, a: nat, b: nat)
    requires a <= b
    ensures GreedyTime(n, interval, a) <= GreedyTime(n, interval, b)
  {
    if n <= a {
      MulOrder(interval, a - n + 1, b - n + 1);
    }
  }

  lemma GreedyTimes(caller: string, n: nat, interval: nat, more: nat, length: nat)
    requires interval * more <= length
    ensures Ordered(Greedy(caller, n, interval, n + more))
    ensures Within(Greedy(caller, n, interval, n + more), 0, length)
  {
    forall a: nat, b: nat | a <= b
      ensures GreedyTime(n, interval, a) <= GreedyTime(n, interval, b)
    {
      GreedyTimeOrder(n, interval, a, b);
    }
    assert GreedyTime(n, interval, n + more) <= length + interval;
    assert more > 0 ==> GreedyTime(n, interval, n + more - 1) == interval * more;
  }

  /** The window bound is exact: the greedy caller attains it for every n and every window length. */
  lemma WindowAttained(rate: Rate, n: nat, length: nat, caller: string) returns (trace: seq<Request>)
    requires HoldsBurst(rate, n)
    ensures Ordered(trace) && Within(trace, 0, length)
    ensures Admitted(trace, Verdicts(rate, map[], trace), caller) == n + length / rate.interval
  {
    var more := length / rate.interval;
    Quotient(length, rate.interval);
    trace := Greedy(caller, n, rate.interval, n + more);
    GreedyAdmitted(rate, n, n + more, caller);
    GreedyTimes(caller, n, rate.interval, more, length);
  }

  lemma Quotient(a: nat, b: nat)
    requires 0 < b
    ensures b * (a / b) <= a
  {
    assert a == b * (a / b) + a % b;
  }

  lemma DivUnique(x: nat, i: nat, q: nat, rem: nat)
    requires rem < i && x == i * q + rem
    ensures x / i == q
  {
    var q' := x / i;
    assert x == i * q' + x % i;
    MulOrder(i, q, q');
    MulOrder(i, q', q);
  }

  lemma DivShift(n: nat, i: nat, r: nat)
    requires 0 < i
    ensures (n * i + r) / i == n + r / i
  {
    var q, rem := r / i, r % i;
    assert r == i * q + rem;
    assert n * i + r == i * (n + q) + rem;
    DivUnique(n * i + r, i, n + q, rem);
  }

  /** No caller is ever admitted more than 2n times in a minute. */
  ghost predicate AtMostTwiceAMinute(n: nat)
    requires 0 < n
  {
    forall before, window, caller, start ::
      Ordered(before + window) && Within(window, start, MINUTE) ==>
        Admitted(window, Verdicts(PerMinute(n), map[], before + window)[|before|..], caller) <= 2 * n
  }

  /** Intervals that a minute holds: n, and as many as its remainder holds. */
  lemma MinuteQuotient(n: nat)
    requires 1 <= n <= MINUTE
    ensures
      var i := PerMinute(n).interval;
      0 < i && n + MINUTE / i <= 2 * n <==> MINUTE % n < MINUTE / n
  {
    var i, rem := MINUTE / n, (MINUTE % n) as nat;
    IntervalPositive(n);
    DivShift(n, i, rem);
    if rem < i {
      DivUnique(rem, i, 0, rem);
    } else {
      DivPositive(rem, i);
    }
  }

  lemma TwiceIsEnough(n: nat)
    requires 1 <= n <= MINUTE
    requires n + MINUTE / PerMinute(n).interval <= 2 * n
    ensures AtMostTwiceAMinute(n)
  {
    forall before, window, caller, start | Ordered(before + window) && Within(window, start, MINUTE)
      ensures Admitted(window, Verdicts(PerMinute(n), map[], before + window)[|before|..], caller) <= 2 * n
    {
      WindowBound(n, before, window, caller, start, MINUTE);
    }
  }

  lemma TwiceIsExceeded(n: nat)
    requires 1 <= n <= MINUTE && 0 < PerMinute(n).interval
    requires n + MINUTE / PerMinute(n).interval > 2 * n
    ensures !AtMostTwiceAMinute(n)
  {
    var trace := WindowAttained(PerMinute(n), n, MINUTE, "");
    var before: seq<Request> := [];
    assert before + trace == trace;
    assert Verdicts(PerMinute(n), map[], before + trace)[|before|..] == Verdicts(PerMinute(n), map[], trace);
  }

  /** Without an interval, any number of requests at one instant are all admitted. */
  lemma UnlimitedBurst(rate: Rate, count: nat, caller: string) returns (trace: seq<Request>)
    requires rate.interval == 0
    ensures Ordered(trace) && Within(trace, 0, MINUTE)
    ensures Admitted(trace, Verdicts(rate, map[], trace), caller) == count
  {
    trace := seq(count, i => Request(caller, 0));
    Unlimited(rate, map[], trace);
    AllAdmitted(trace, Verdicts(rate, map[], trace), caller);
  }

  lemma UnlimitedExceeds(n: nat)
    requires n > MINUTE
    ensures !AtMostTwiceAMinute(n)
  {
    DivUnique(MINUTE, n, 0, MINUTE);
    var trace := UnlimitedBurst(PerMinute(n), 2 * n + 1, "");
    var before: seq<Request> := [];
    assert before + trace == trace;
    assert Verdicts(PerMinute(n), map[], before + trace)[|before|..] == Verdicts(PerMinute(n), map[], trace);
  }

  /**
   The quota of twice n a minute holds exactly when the rounding error of the interval is smaller
   than the interval.
  */
  lemma TwiceAMinuteIff(n: nat)
    requires 1 <= n
    ensures AtMostTwiceAMinute(n) <==> MINUTE % n < MINUTE / n
  {
    if n > MINUTE {
      DivUnique(MINUTE, n, 0, MINUTE);
      UnlimitedExceeds(n);
    } else {
      MinuteQuotient(n);
      if MINUTE % n < MINUTE / n {
        TwiceIsEnough(n);
      } else {
        TwiceIsExceeded(n);
      }
    }
  }

  /** A quota that fails: its interval is 244836 ns, and a minute leaves 245004 over. */
  lemma FailingQuota()
    ensures !AtMostTwiceAMinute(245_061)
  {
    TwiceAMinuteIff(245_061);
  }

  /** It does for every n up to the square root of a minute. */
  lemma SmallQuotas(n: nat)
    requires 1 <= n && n * n <= MINUTE
    ensures AtMostTwiceAMinute(n)
  {
    MulOrder(n, 0, n - 1);
    DivPositive(MINUTE, n);
    MulOrder(n, MINUTE / n, n);
    TwiceAMinuteIff(n);
  }

  // ---------------------------------------------------------------- who is never refused

  /** Credit for k admissions serves the caller's next k requests, whoever else calls in between. */
  lemma {:induction false} Funded(rate: Rate, m: Buckets, trace: seq<Request>, caller: string, start: int, k: nat)
    requires Ordered(trace) && forall i :: 0 <= i < |trace| ==> start <= trace[i].time
    requires 0 < rate.interval && rate.interval * k <= Purse(rate, m, caller, start) && |Only(trace, caller)| <= k
    ensures Answers(trace, Verdicts(rate, m, trace), caller) == seq(|Only(trace, caller)|, i => true)
    decreases |trace|
  {
    if trace != [] {
      var r, rest := trace[0], trace[1..];
      var (b, ok) := Decide(rate, Held(m, r.caller), r.time);
      var m' := m[r.caller := b];
      VerdictsCons(rate, m, trace);
      if r.caller == caller {
        OneLess(rate.interval, k);
        PursePays(rate, m, r, start);
        Funded(rate, m', rest, caller, r.time, k - 1);
      } else {
        PurseKept(rate, m, r, caller, start);
        Funded(rate, m', rest, caller, r.time, k);
      }
      AnswersCons(trace, ok, Verdicts(rate, m', rest), caller);
      AllTrueCons(|Only(rest, caller)|);
    }
  }

  lemma OneLess(i: nat, k: nat)
    requires 0 < k
    ensures i * k == i * (k - 1) + i && 0 <= i * (k - 1)
  {
  }

  lemma AllTrueCons(n: nat)
    ensures [true] + seq(n, i => true) == seq(n + 1, i => true)
  {
  }

  /** Whoever can pay for an admission gets it, and keeps the rest. */
  lemma PursePays(rate: Rate, m: Buckets, r: Request, start: int)
    requires start <= r.time && 0 < rate.interval <= Purse(rate, m, r.caller, start)
    ensures
      var (b, ok) := Decide(rate, Held(m, r.caller), r.time);
      ok && Purse(rate, m, r.caller, start) <= Purse(rate, m[r.caller := b], r.caller, r.time) + rate.interval
  {
  }

  lemma PurseKept(rate: Rate, m: Buckets, r: Request, caller: string, start: int)
    requires start <= r.time && r.caller != caller
    ensures
      var (b, ok) := Decide(rate, Held(m, r.caller), r.time);
      Purse(rate, m, caller, start) <= Purse(rate, m[r.caller := b], caller, r.time)
  {
  }

  lemma AnswersCons(trace: seq<Request>, ok: bool, vs: seq<bool>, caller: string)
    requires trace != [] && |vs| == |trace| - 1
    ensures Answers(trace, [ok] + vs, caller)
         == (if trace[0].caller == caller then [ok] else []) + Answers(trace[1..], vs, caller)
  {
    assert ([ok] + vs)[1..] == vs;
  }

  /** A bucket's clock never passes its caller's last request. */
  lemma {:induction false} ClockBound(rate: Rate, m: Buckets, trace: seq<Request>, caller: string, bound: int)
    requires caller in m ==> m[caller].last <= bound
    requires forall i :: 0 <= i < |trace| && trace[i].caller == caller ==> trace[i].time <= bound
    ensures caller in Serve(rate, m, trace).0 ==> Serve(rate, m, trace).0[caller].last <= bound
    decreases |trace|
  {
    if trace != [] {
      var (b, ok) := Decide(rate, Held(m, trace[0].caller), trace[0].time);
      ClockBound(rate, m[trace[0].caller := b], trace[1..], caller, bound);
    }
  }

  lemma IdlePurse(rate: Rate, m: Buckets, caller: string, start: int)
    requires rate.capacity <= MINUTE && (caller in m ==> m[caller].last <= start - MINUTE)
    ensures Purse(rate, m, caller, start) == rate.capacity
  {
  }

  /** A caller that has been idle for a minute gets its next n requests, whatever came before. */
  lemma IdleMinute(n: nat, before: seq<Request>, after: seq<Request>, caller: string, start: int)
    requires 1 <= n <= MINUTE
    requires forall i :: 0 <= i < |before| && before[i].caller == caller ==> before[i].time + MINUTE <= start
    requires Ordered(after) && forall i :: 0 <= i < |after| ==> start <= after[i].time
    requires |Only(after, caller)| <= n
    ensures
      var vs := Verdicts(PerMinute(n), map[], before + after)[|before|..];
      Answers(after, vs, caller) == seq(|Only(after, caller)|, i => true)
  {
    var rate := PerMinute(n);
    IntervalPositive(n);
    ServeAppend(rate, map[], before, after);
    ClockBound(rate, map[], before, caller, start - MINUTE);
    var m := Serve(rate, map[], before).0;
    IdlePurse(rate, m, caller, start);
    Funded(rate, m, after, caller, start, n);
  }

  ghost predicate Spaced(trace: seq<Request>, gap: nat) {
    forall i :: 0 < i < |trace| ==> trace[i - 1].time + gap <= trace[i].time
  }

  lemma {:induction false} SpacedServed(rate: Rate, m: Buckets, trace: seq<Request>, caller: string)
    requires 0 < rate.interval <= rate.capacity
    requires Spaced(trace, rate.interval) && forall i :: 0 <= i < |trace| ==> trace[i].caller == caller
    requires caller in m && trace != [] ==> m[caller].last + rate.interval <= trace[0].time
    ensures Verdicts(rate, m, trace) == seq(|trace|, i => true)
    decreases |trace|
  {
    if trace != [] {
      var (b, ok) := Decide(rate, Held(m, caller), trace[0].time);
      VerdictsCons(rate, m, trace);
      assert Spaced(trace[1..], rate.interval) by {
        forall i | 0 < i < |trace[1..]|
          ensures trace[1..][i - 1].time + rate.interval <= trace[1..][i].time
        {
          assert trace[1..][i] == trace[i + 1] && trace[1..][i - 1] == trace[i + 1 - 1];
        }
      }
      SpacedServed(rate, m[caller := b], trace[1..], caller);
    }
  }

  lemma {:induction false} OnlyCaller(trace: seq<Request>, caller: string)
    ensures forall i :: 0 <= i < |Only(trace, caller)| ==> Only(trace, caller)[i].caller == caller
  {
    if trace != [] {
      OnlyCaller(trace[1..], caller);
    }
  }

  /** A caller whose requests are at least one interval apart is never refused, whoever else calls. */
  lemma SpacedNeverRefused(n: nat, trace: seq<Request>, caller: string)
    requires 1 <= n <= MINUTE && Spaced(Only(trace, caller), PerMinute(n).interval)
    ensures Answers(trace, Verdicts(PerMinute(n), map[], trace), caller) == seq(|Only(trace, caller)|, i => true)
  {
    IntervalPositive(n);
    OnlyCaller(trace, caller);
    CallerIsolation(PerMinute(n), map[], map[], trace, caller);
    SpacedServed(PerMinute(n), map[], Only(trace, caller), caller);
  }

  // ---------------------------------------------------------------- who is refused

  /** How many requests of the caller at or after `start` have been admitted. */
  function AdmittedSince(trace: seq<Request>, vs: seq<bool>, caller: string, start: int): nat
    requires |vs| == |trace|
    decreases |trace|
  {
    if trace == [] then 0
    else
      var k := |trace| - 1;
      AdmittedSince(trace[..k], vs[..k], caller, start)
      + if trace[k].caller == caller && vs[k] && start <= trace[k].time then 1 else 0
  }

  lemma AdmittedSinceOne(trace: seq<Request>, vs: seq<bool>, r: Request, ok: bool, caller: string, start: int)
    requires |vs| == |trace|
    ensures AdmittedSince(trace + [r], vs + [ok], caller, start)
         == AdmittedSince(trace, vs, caller, start) + if r.caller == caller && ok && start <= r.time then 1 else 0
  {
    assert (trace + [r])[..|trace|] == trace && (vs + [ok])[..|trace|] == vs;
  }

  /** Serving a trace is serving all but its last request, and then that one. */
  lemma ServeLast(rate: Rate, trace: seq<Request>)
    requires trace != [] && Ordered(trace)
    ensures
      var init, r := trace[..|trace| - 1], trace[|trace| - 1];
      var (m, vs) := Serve(rate, map[], init);
      var (b, ok) := Decide(rate, Held(m, r.caller), r.time);
      && Ordered(init) && Serve(rate, map[], trace) == (m[r.caller := b], vs + [ok])
      && forall caller, start :: AdmittedSince(trace, vs + [ok], caller, start)
           == AdmittedSince(init, vs, caller, start) + if r.caller == caller && ok && start <= r.time then 1 else 0
  {
    var init, r := trace[..|trace| - 1], trace[|trace| - 1];
    var (m, vs) := Serve(rate, map[], init);
    var (b, ok) := Decide(rate, Held(m, r.caller), r.time);
    assert trace == init + [r];
    ServeOne(rate, map[], init, r);
    forall caller, start {
      AdmittedSinceOne(init, vs, r, ok, caller, start);
    }
  }

  /** No bucket's clock is ahead of the trace, and what it holds is less than full. */
  lemma {:induction false} ClockOf(rate: Rate, trace: seq<Request>, caller: string)
    requires 0 < rate.interval <= rate.capacity && Ordered(trace)
    ensures
      var (m, vs) := Serve(rate, map[], trace);
      caller in m ==>
        && trace != [] && m[caller].last <= trace[|trace| - 1].time
        && m[caller].credit + rate.interval <= rate.capacity
    decreases |trace|
  {
    if trace != [] {
      ServeLast(rate, trace);
      ClockOf(rate, trace[..|trace| - 1], caller);
    }
  }

  /** A decision keeps the account of a bucket: the admission is paid for, and a refusal costs nothing. */
  lemma TakeKeepsAccount(rate: Rate, b: Bucket, now: int, a: nat, start: int)
    requires 0 < rate.interval <= rate.capacity && start <= b.last <= now
    requires b.credit + rate.interval * a <= rate.capacity + (b.last - start)
    ensures
      var (b', ok) := Take(rate, b, now);
      && start <= b'.last && b'.credit + rate.interval * (if ok then a + 1 else a) <= rate.capacity + (b'.last - start)
      && (Available(rate, b, now) < rate.capacity
          && b.credit + rate.interval * a == rate.capacity + (b.last - start) ==>
            b'.credit + rate.interval * (if ok then a + 1 else a) == rate.capacity + (b'.last - start))
  {
    OneMore(rate.interval, a);
  }

  /** A first request and one that finds the bucket full are admitted, and open a new account. */
  lemma FullAdmits(rate: Rate, m: Buckets, caller: string, now: int)
    requires 0 < rate.interval <= rate.capacity && Purse(rate, m, caller, now) == rate.capacity
    ensures Decide(rate, Held(m, caller), now) == (Bucket(rate.capacity - rate.interval, now), true)
  {
  }

  /** What a caller holds is at most a full bucket and what time has added, less what it was admitted for. */
  lemma {:induction false} SpentSince(rate: Rate, trace: seq<Request>, caller: string, start: int)
    requires 0 < rate.interval <= rate.capacity && Ordered(trace)
    ensures
      var (m, vs) := Serve(rate, map[], trace);
      var a := AdmittedSince(trace, vs, caller, start);
      if caller !in m || m[caller].last < start then a == 0
      else m[caller].credit + rate.interval * a <= rate.capacity + (m[caller].last - start)
    decreases |trace|
  {
    if trace != [] {
      var init, r := trace[..|trace| - 1], trace[|trace| - 1];
      var (m, vs) := Serve(rate, map[], init);
      var a := AdmittedSince(init, vs, caller, start);
      ServeLast(rate, trace);
      ClockOf(rate, init, caller);
      SpentSince(rate, init, caller, start);
      if caller in m && start <= m[caller].last {
        TakeKeepsAccount(rate, m[caller], r.time, a, start);
      } else {
        assert rate.interval * 1 == rate.interval && rate.interval * 0 == 0;
      }
    }
  }

  /** And exactly that, counted from when its bucket was last full. */
  lemma {:induction false} SpentExactly(rate: Rate, trace: seq<Request>, caller: string) returns (start: int)
    requires 0 < rate.interval <= rate.capacity && Ordered(trace)
    ensures
      var (m, vs) := Serve(rate, map[], trace);
      caller in m ==>
        && start <= m[caller].last
        && m[caller].credit + rate.interval * AdmittedSince(trace, vs, caller, start)
           == rate.capacity + (m[caller].last - start)
    decreases |trace|
  {
    start := 0;
    if trace != [] {
      var init, r := trace[..|trace| - 1], trace[|trace| - 1];
      var (m, vs) := Serve(rate, map[], init);
      start := SpentExactly(rate, init, caller);
      ServeLast(rate, trace);
      ClockOf(rate, init, caller);
      if r.caller == caller {
        if Purse(rate, m, caller, r.time) == rate.capacity {
          FullAdmits(rate, m, caller, r.time);
          NoneYet(rate, init, caller, r.time);
          start := r.time;
          assert rate.interval * 1 == rate.interval;
        } else {
          TakeKeepsAccount(rate, m[caller], r.time, AdmittedSince(init, vs, caller, start), start);
        }
      }
    }
  }

  /** A caller whose bucket is full at the moment has not been admitted at that moment. */
  lemma NoneYet(rate: Rate, trace: seq<Request>, caller: string, now: int)
    requires 0 < rate.interval <= rate.capacity && Ordered(trace)
    requires trace != [] ==> trace[|trace| - 1].time <= now
    requires Purse(rate, Serve(rate, map[], trace).0, caller, now) == rate.capacity
    ensures AdmittedSince(trace, Serve(rate, map[], trace).1, caller, now) == 0
  {
    ClockOf(rate, trace, caller);
    SpentSince(rate, trace, caller, now);
  }

  /** The decisions of a trace are those that its prefixes lead to. */
  lemma VerdictAt(rate: Rate, trace: seq<Request>, k: nat)
    requires k < |trace|
    ensures
      var (m, vs) := Serve(rate, map[], trace[..k]);
      && Verdicts(rate, map[], trace)[..k] == vs
      && Verdicts(rate, map[], trace)[k] == Decide(rate, Held(m, trace[k].caller), trace[k].time).1
  {
    var (m, vs) := Serve(rate, map[], trace[..k]);
    assert trace == trace[..k] + trace[k..];
    ServeAppend(rate, map[], trace[..k], trace[k..]);
    VerdictsCons(rate, m, trace[k..]);
  }

  /** An interval does not go into what is short of one: the account in whole admissions. */
  lemma Overdrawn(n: nat, interval: nat, a: nat, elapsed: nat)
    requires 0 < interval
    ensures n + elapsed / interval <= a <==> n * interval + elapsed < interval * (a + 1)
  {
    var q, rem := elapsed / interval, elapsed % interval;
    assert elapsed == interval * q + rem;
    assert n * interval + interval * q == interval * (n + q);
    MulOrder(interval, n + q, a + 1);
    MulOrder(interval, a + 1, n + q);
    if a + 1 == n + q {
      assert interval * (a + 1) == interval * (n + q);
    }
  }

  /** With the caller's account as it stands, what it can spend decides. */
  lemma RefusedByPurse(rate: Rate, m: Buckets, caller: string, now: int)
    requires 0 < rate.interval <= rate.capacity
    ensures !Decide(rate, Held(m, caller), now).1 <==> Purse(rate, m, caller, now) < rate.interval
  {
  }

  /**
   Who is refused: for every quota n up to 60e9 a minute, whatever went before and whoever else calls, a
   request at time t is refused if and only if, for some s up to t, its caller has been admitted
   n + (t - s) / interval times since s.
  */
  lemma RefusedIff(n: nat, trace: seq<Request>, k: nat)
    requires 1 <= n <= 60_000_000_000 && Ordered(trace) && k < |trace|
    ensures
      var vs, t, caller := Verdicts(PerMinute(n), map[], trace), trace[k].time, trace[k].caller;
      !vs[k] <==> exists s ::
        s <= t && n + (t - s) / (60_000_000_000 / n) <= AdmittedSince(trace[..k], vs[..k], caller, s)
  {
    var rate, r, init := PerMinute(n), trace[k], trace[..k];
    var (m, vs) := Serve(rate, map[], init);
    IntervalPositive(n);
    VerdictAt(rate, trace, k);
    RefusedByPurse(rate, m, r.caller, r.time);
    if Purse(rate, m, r.caller, r.time) < rate.interval {
      var s := RefusalWitness(rate, init, r.caller, r.time);
      Overdrawn(n, rate.interval, AdmittedSince(init, vs, r.caller, s), r.time - s);
    } else {
      forall s | s <= r.time
        ensures n + (r.time - s) / rate.interval > AdmittedSince(init, vs, r.caller, s)
      {
        AdmittedHasCredit(rate, init, r.caller, r.time, s);
        Overdrawn(n, rate.interval, AdmittedSince(init, vs, r.caller, s), r.time - s);
      }
    }
  }

  /** Short of one interval, a caller's account since its bucket was last full is overdrawn. */
  lemma RefusalWitness(rate: Rate, trace: seq<Request>, caller: string, now: int) returns (s: int)
    requires 0 < rate.interval <= rate.capacity && Ordered(trace)
    requires trace != [] ==> trace[|trace| - 1].time <= now
    requires Purse(rate, Serve(rate, map[], trace).0, caller, now) < rate.interval
    ensures s <= now
    ensures rate.capacity + (now - s) < rate.interval * (AdmittedSince(trace, Serve(rate, map[], trace).1, caller, s) + 1)
  {
    ClockOf(rate, trace, caller);
    s := SpentExactly(rate, trace, caller);
    OneMore(rate.interval, AdmittedSince(trace, Serve(rate, map[], trace).1, caller, s));
  }

  /** With an interval to spend, no account of the caller's is overdrawn. */
  lemma AdmittedHasCredit(rate: Rate, trace: seq<Request>, caller: string, now: int, s: int)
    requires 0 < rate.interval <= rate.capacity && Ordered(trace) && s <= now
    requires trace != [] ==> trace[|trace| - 1].time <= now
    requires rate.interval <= Purse(rate, Serve(rate, map[], trace).0, caller, now)
    ensures rate.interval * (AdmittedSince(trace, Serve(rate, map[], trace).1, caller, s) + 1) <= rate.capacity + (now - s)
  {
    ClockOf(rate, trace, caller);
    SpentSince(rate, trace, caller, s);
    OneMore(rate.interval, AdmittedSince(trace, Serve(rate, map[], trace).1, caller, s));
  }
}
