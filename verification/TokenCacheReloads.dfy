/** How often the token file is read after its last rewrite. */
module TokenCacheReloads {
  import opened Wrappers
  import opened TokenCache
  import opened TokenCacheRuns
  import opened Tallies

  /** Successful reads; an attempt that fails stores nothing, and is made again by the next call that looks. */
  function Reads(acts: seq<Action>): nat {
    if acts == [] then 0 else (if acts[0].Read? then 1 else 0) + Reads(acts[1..])
  }

  function Last(h: History): Stamp {
    h[|h| - 1].stamp
  }

  /** The call stat'ed a version with another stamp than the last one and has yet to act on it. */
  predicate Outdated(h: History, p: Phase) {
    match p
    case Statted(v) => v < |h| && h[v].stamp != Last(h)
    case Stale(v) => v < |h| && h[v].stamp != Last(h)
    case Locked(v) => v < |h| && h[v].stamp != Last(h)
    case Fetched(v, _) => v < |h| && h[v].stamp != Last(h)
    case _ => false
  }

  function One(h: History): Call -> int {
    (c: Call) => if Outdated(h, c.phase) then 1 else 0
  }

  /** The number of calls in flight that stat'ed an earlier version. */
  function OutdatedCalls(h: History, s: State): int {
    Tally(s.calls, One(h))
  }

  /** Reads a call can still cause: its own, and one that repairs the stamp it leaves behind. */
  function Weight(h: History): Call -> int {
    (c: Call) => if !Outdated(h, c.phase) then 0 else if c.phase.Fetched? then 1 else 2
  }

  predicate FreshlyFetched(h: History, s: State) {
    && s.lock.Some? && s.lock.value < |s.calls|
    && s.calls[s.lock.value].phase.Fetched?
    && !Outdated(h, s.calls[s.lock.value].phase)
  }

  /** One more read is due while the cache is behind and no goroutine is about to catch up. */
  function Due(h: History, s: State): int {
    if Unchanged(s.cache, Last(h)) || FreshlyFetched(h, s) then 0 else 1
  }

  function Potential(h: History, s: State): int {
    Tally(s.calls, Weight(h)) + Due(h, s)
  }

  /** What the recheck under the write lock establishes and the lock then protects. */
  ghost predicate Rechecked(h: History, s: State) {
    && LockInv(s)
    && (forall id :: 0 <= id < |s.calls| && s.calls[id].phase.Locked? ==>
         s.calls[id].phase.v < |h| && !Unchanged(s.cache, h[s.calls[id].phase.v].stamp))
    && (forall id :: 0 <= id < |s.calls| && s.calls[id].phase.Fetched? ==> s.calls[id].phase.v < |h|)
  }

  lemma RecheckedStep(h: History, s: State, a: Action)
    requires Rechecked(h, s) && Enabled(h, s, a)
    ensures Rechecked(h, Step(h, s, a))
  {
  }

  lemma {:induction false} RecheckedRun(h: History, s: State, acts: seq<Action>)
    requires Rechecked(h, s) && Run(h, s, acts).Some?
    ensures Rechecked(h, Run(h, s, acts).value)
    decreases |acts|
  {
    if acts != [] {
      RecheckedStep(h, s, acts[0]);
      RecheckedRun(h, Step(h, s, acts[0]), acts[1..]);
    }
  }

  /** Every step pays for the read it makes. */
  lemma PotentialStep(h: History, s: State, a: Action)
    requires Rechecked(h, s) && s.cur == |h| - 1 && Enabled(h, s, a)
    ensures Potential(h, Step(h, s, a)) + Reads([a]) <= Potential(h, s)
    ensures Step(h, s, a).cur == s.cur
  {
    var s' := Step(h, s, a);
    if a.Invoke? {
      TallyAppend(s.calls, Weight(h), s'.calls[|s.calls|]);
    } else {
      TallyUpdate(s.calls, Weight(h), a.id, s'.calls[a.id]);
      assert s'.calls == s.calls[a.id := s'.calls[a.id]];
    }
  }

  lemma {:induction false} PotentialRun(h: History, s: State, acts: seq<Action>)
    requires Rechecked(h, s) && s.cur == |h| - 1 && Run(h, s, acts).Some?
    ensures Reads(acts) <= Potential(h, s)
    decreases |acts|
  {
    if acts == [] {
      PotentialNonNegative(h, s);
    } else {
      PotentialStep(h, s, acts[0]);
      RecheckedStep(h, s, acts[0]);
      PotentialRun(h, Step(h, s, acts[0]), acts[1..]);
    }
  }

  lemma PotentialNonNegative(h: History, s: State)
    ensures 0 <= Potential(h, s)
  {
    var zero := (c: Call) => 0;
    TallyOrdered(s.calls, zero, Weight(h));
    TallyZero(s.calls, zero);
  }

  lemma {:induction false} TallyZero(calls: seq<Call>, zero: Call -> int)
    requires forall c :: zero(c) == 0
    ensures Tally(calls, zero) == 0
  {
    if calls != [] {
      TallyZero(calls[1..], zero);
    }
  }

  lemma {:induction false} WeightAtMostTwice(h: History, calls: seq<Call>)
    ensures Tally(calls, Weight(h)) <= 2 * Tally(calls, One(h))
  {
    if calls != [] {
      WeightAtMostTwice(h, calls[1..]);
    }
  }

  /**
   Bounded reloading: once the file is at its last version, with k calls in flight that stat'ed an
   earlier one, no interleaving reads the file successfully more than 2k + 1 times.
  */
  lemma ReloadsBounded(h: History, before: seq<Action>, after: seq<Action>)
    requires Run(h, Init(), before).Some?
    requires Run(h, Init(), before).value.cur == |h| - 1
    requires Run(h, Run(h, Init(), before).value, after).Some?
    ensures Reads(after) <= 2 * OutdatedCalls(h, Run(h, Init(), before).value) + 1
  {
    var s := Run(h, Init(), before).value;
    RecheckedRun(h, Init(), before);
    PotentialRun(h, s, after);
    WeightAtMostTwice(h, s.calls);
  }

  // ---------------------------------------------------------------- exactly once

  /** Whatever a call has stat'ed is a version of the file. */
  ghost predicate InRange(h: History, s: State) {
    forall id :: 0 <= id < |s.calls| ==>
      var p := s.calls[id].phase;
      p.Statted? || p.Stale? || p.Locked? ==> p.v < |h|
  }

  lemma {:induction false} InRangeRun(h: History, s: State, acts: seq<Action>)
    requires InRange(h, s) && Run(h, s, acts).Some?
    ensures InRange(h, Run(h, s, acts).value)
    decreases |acts|
  {
    if acts != [] {
      InRangeRun(h, Step(h, s, acts[0]), acts[1..]);
    }
  }

  /** Nobody has read the last version, and no call numbered `first` or higher has passed the check. */
  ghost predicate NotReloaded(h: History, s: State, first: nat) {
    && s.cur == |h| - 1
    && !Unchanged(s.cache, Last(h))
    && forall id :: 0 <= id < |s.calls| ==>
         var p := s.calls[id].phase;
         && !p.Fetched?
         && (p.Statted? || p.Stale? || p.Locked? ==> p.v < |h| && h[p.v].stamp == Last(h))
         && (first <= id && (p.Ready? || p.Finished?) ==> !p.statOk)
  }

  lemma NotReloadedStep(h: History, s: State, a: Action, first: nat)
    requires NotReloaded(h, s, first) && Enabled(h, s, a) && !a.Read? && first <= |s.calls|
    ensures NotReloaded(h, Step(h, s, a), first) && first <= |Step(h, s, a).calls|
  {
  }

  lemma {:induction false} NotReloadedRun(h: History, s: State, acts: seq<Action>, first: nat)
    requires NotReloaded(h, s, first) && Run(h, s, acts).Some? && Reads(acts) == 0 && first <= |s.calls|
    ensures NotReloaded(h, Run(h, s, acts).value, first)
    decreases |acts|
  {
    if acts != [] {
      NotReloadedStep(h, s, acts[0], first);
      NotReloadedRun(h, Step(h, s, acts[0]), acts[1..], first);
    }
  }

  /**
   With the last version on disk under a new stamp, and no call in flight that stat'ed an earlier one or has
   read the file and not yet stored it, the file is read successfully exactly once as soon as one later
   call that could stat it has been answered.
  */
  lemma ReloadedExactlyOnce(h: History, before: seq<Action>, after: seq<Action>, id: nat)
    requires Run(h, Init(), before).Some? && Run(h, Init(), before).value.cur == |h| - 1
    requires
      var s := Run(h, Init(), before).value;
      && !Unchanged(s.cache, Last(h))
      && (forall i :: 0 <= i < |s.calls| ==> !Outdated(h, s.calls[i].phase) && !s.calls[i].phase.Fetched?)
      && Run(h, s, after).Some?
      && |s.calls| <= id < |Run(h, s, after).value.calls|
      && var p := Run(h, s, after).value.calls[id].phase;
         p.Finished? && p.statOk
    ensures Reads(after) == 1
  {
    var s := Run(h, Init(), before).value;
    RecheckedRun(h, Init(), before);
    InRangeRun(h, Init(), before);
    PotentialRun(h, s, after);
    TallyOrdered(s.calls, Weight(h), (c: Call) => 0);
    TallyZero(s.calls, (c: Call) => 0);
    if Reads(after) == 0 {
      NotReloadedRun(h, s, after, |s.calls|);
    }
  }

  // ---------------------------------------------------------------- the bound is attained

  lemma {:induction false} ReadsAppend(a: seq<Action>, b: seq<Action>)
    ensures Reads(a + b) == Reads(a) + Reads(b)
  {
    if a == [] {
      assert a + b == b;
    } else {
      assert (a + b)[1..] == a[1..] + b;
      ReadsAppend(a[1..], b);
    }
  }

  /** Two versions with different stamps. */
  const TWO: History := [Version(Stamp(0, 0), []), Version(Stamp(1, 0), [])]

  /** k calls that found the first version changed, none of which has taken the lock yet. */
  lemma {:induction false} Gather(k: nat) returns (acts: seq<Action>)
    ensures Run(TWO, Init(), acts).Some?
    ensures Run(TWO, Init(), acts).value == State(0, Cache(false, [], Stamp(0, 0)), None, seq(k, i => Call([], 0, Stale(0))), [])
  {
    if k == 0 {
      acts := [];
    } else {
      var s: State;
      acts := Gather(k - 1);
      acts, s := Then(TWO, Init(), acts, Invoke([]));
      acts, s := Then(TWO, Init(), acts, Stat(k - 1));
      acts, s := Then(TWO, Init(), acts, Check(k - 1));
    }
  }

  lemma ThenCounted(s0: State, acts: seq<Action>, a: Action) returns (acts': seq<Action>, s': State)
    requires Run(TWO, s0, acts).Some? && Enabled(TWO, Run(TWO, s0, acts).value, a)
    ensures s' == Step(TWO, Run(TWO, s0, acts).value, a)
    ensures Run(TWO, s0, acts') == Some(s') && Reads(acts') == Reads(acts) + (if a.Read? then 1 else 0)
  {
    acts', s' := Then(TWO, s0, acts, a);
    ReadsAppend(acts, [a]);
  }

  /** A call that stats the last version reads it when the cache is behind. */
  lemma FreshRead(s: State) returns (acts: seq<Action>, s': State)
    requires s.cur == 1 && s.lock.None? && !Unchanged(s.cache, Last(TWO))
    ensures Run(TWO, s, acts) == Some(s') && Reads(acts) == 1
    ensures s'.cur == 1 && s'.lock.None? && !Unchanged(s'.cache, TWO[0].stamp)
    ensures |s'.calls| == |s.calls| + 1 && forall i :: 0 <= i < |s.calls| ==> s'.calls[i] == s.calls[i]
  {
    var id := |s.calls|;
    acts, s' := ThenCounted(s, [], Invoke([]));
    acts, s' := ThenCounted(s, acts, Stat(id));
    MoveLast(s, [], Begun, Statted(1));
    acts, s' := ThenCounted(s, acts, Check(id));
    MoveLast(s, [], Statted(1), Stale(1));
    acts, s' := ThenCounted(s, acts, Acquire(id));
    MoveLast(s, [], Stale(1), Locked(1));
    acts, s' := ThenCounted(s, acts, Read(id));
    MoveLast(s, [], Locked(1), Fetched(1, 1));
    acts, s' := ThenCounted(s, acts, Store(id));
    MoveLast(s, [], Fetched(1, 1), Ready(true));
  }

  /** A call that stat'ed the first version then reads again, and puts the old stamp back. */
  lemma OutdatedRead(s: State, id: nat) returns (acts: seq<Action>, s': State)
    requires s.cur == 1 && s.lock.None? && !Unchanged(s.cache, TWO[0].stamp)
    requires id < |s.calls| && s.calls[id].phase == Stale(0)
    ensures Run(TWO, s, acts) == Some(s') && Reads(acts) == 1
    ensures s'.cur == 1 && s'.lock.None? && !Unchanged(s'.cache, Last(TWO))
    ensures |s'.calls| == |s.calls| && forall i :: 0 <= i < |s.calls| && i != id ==> s'.calls[i] == s.calls[i]
  {
    acts, s' := ThenCounted(s, [], Acquire(id));
    acts, s' := ThenCounted(s, acts, Read(id));
    acts, s' := ThenCounted(s, acts, Store(id));
  }

  /** Calls `from` to k - 1 still wait for the lock: every one of them costs two more reads. */
  lemma {:induction false} Alternate(s: State, from: nat, k: nat) returns (acts: seq<Action>)
    requires s.cur == 1 && s.lock.None? && !Unchanged(s.cache, Last(TWO)) && from <= k <= |s.calls|
    requires forall i :: from <= i < k ==> s.calls[i].phase == Stale(0)
    ensures Run(TWO, s, acts).Some? && Reads(acts) == 2 * (k - from) + 1
    decreases k - from
  {
    var s1, s2: State;
    var first, stale, rest: seq<Action>;
    first, s1 := FreshRead(s);
    if from == k {
      return first;
    }
    stale, s2 := OutdatedRead(s1, from);
    rest := Alternate(s2, from + 1, k);
    acts := first + (stale + rest);
    RunAppend(TWO, s, first, stale + rest);
    RunAppend(TWO, s1, stale, rest);
    ReadsAppend(first, stale + rest);
    ReadsAppend(stale, rest);
  }

  lemma {:induction false} AllOutdated(h: History, calls: seq<Call>)
    requires forall i :: 0 <= i < |calls| ==> Outdated(h, calls[i].phase)
    ensures Tally(calls, One(h)) == |calls|
  {
    if calls != [] {
      AllOutdated(h, calls[1..]);
    }
  }

  /** The bound of ReloadsBounded is attained for every number of outdated calls. */
  lemma ReloadsAttained(k: nat) returns (before: seq<Action>, after: seq<Action>)
    ensures Run(TWO, Init(), before).Some?
    ensures
      var s := Run(TWO, Init(), before).value;
      && s.cur == |TWO| - 1 && OutdatedCalls(TWO, s) == k
      && Run(TWO, s, after).Some? && Reads(after) == 2 * k + 1
  {
    var s: State;
    before := Gather(k);
    before, s := Then(TWO, Init(), before, Rewrite);
    AllOutdated(TWO, s.calls);
    after := Alternate(s, 0, k);
  }
}
