/**
 Every interleaving of Validate calls with rewrites of the token file.

 The file's whole history is `history`; `State.cur` is the version on disk now. A call goes through
 the steps that other goroutines can interleave with: stat, the read-locked check, the write-locked
 recheck, the file read and the store (both under the write lock), and the final token read.
*/
module TokenCacheRuns {
  import opened Bytes
  import opened Wrappers
  import opened TokenCache

  datatype Version = Version(stamp: Stamp, raw: bytes)

  type History = h: seq<Version> | h != [] witness [Version(Stamp(0, 0), [])]

  function TokenOf(v: Version): bytes {
    TrimRight(v.raw)
  }

  /** Where a call stands; `v` is the version it stat'ed and `u` the version it read. */
  datatype Phase =
    | Begun
    | StatFailed
    | Statted(v: nat)
    | Stale(v: nat)
    | Locked(v: nat)
    | Fetched(v: nat, u: nat)
    | Ready(statOk: bool)
    | Failed
    | Finished(statOk: bool, verdict: Verdict, end: nat)

  /** `begin` is the version on disk when the call was made. */
  datatype Call = Call(candidate: bytes, begin: nat, phase: Phase)

  /** `order` lists the finished calls in the order of their final token reads. */
  datatype State = State(cur: nat, cache: Cache, lock: Option<nat>, calls: seq<Call>, order: seq<nat>)

  datatype Action =
    | Rewrite
    | Invoke(candidate: bytes)
    | Stat(id: nat)
    | StatFails(id: nat)
    | CheckCached(id: nat)
    | Check(id: nat)
    | Acquire(id: nat)
    | Read(id: nat)
    | ReadFails(id: nat)
    | Store(id: nat)
    | Finish(id: nat)

  function Init(): State {
    State(0, Cache(false, [], Stamp(0, 0)), None, [], [])
  }

  predicate Enabled(h: History, s: State, a: Action) {
    match a
    case Rewrite => s.cur + 1 < |h|
    case Invoke(_) => true
    case Stat(id) => id < |s.calls| && s.calls[id].phase.Begun? && s.cur < |h|
    case StatFails(id) => id < |s.calls| && s.calls[id].phase.Begun?
    case CheckCached(id) => id < |s.calls| && s.calls[id].phase.StatFailed? && s.lock.None?
    case Check(id) => id < |s.calls| && s.calls[id].phase.Statted? && s.calls[id].phase.v < |h| && s.lock.None?
    case Acquire(id) => id < |s.calls| && s.calls[id].phase.Stale? && s.calls[id].phase.v < |h| && s.lock.None?
    case Read(id) => id < |s.calls| && s.calls[id].phase.Locked? && s.cur < |h|
    case ReadFails(id) => id < |s.calls| && s.calls[id].phase.Locked?
    case Store(id) =>
      && id < |s.calls| && s.calls[id].phase.Fetched?
      && s.calls[id].phase.v < |h| && s.calls[id].phase.u < |h|
    case Finish(id) => id < |s.calls| && s.calls[id].phase.Ready? && s.lock.None?
  }

  function Move(s: State, id: nat, p: Phase): State
    requires id < |s.calls|
  {
    s.(calls := s.calls[id := s.calls[id].(phase := p)])
  }

  function Step(h: History, s: State, a: Action): State
    requires Enabled(h, s, a)
  {
    match a
    case Rewrite => s.(cur := s.cur + 1)
    case Invoke(candidate) => s.(calls := s.calls + [Call(candidate, s.cur, Begun)])
    case Stat(id) => Move(s, id, Statted(s.cur))
    case StatFails(id) => Move(s, id, StatFailed)
    case CheckCached(id) => Move(s, id, if s.cache.token != [] then Ready(false) else Failed)
    case Check(id) =>
      var v := s.calls[id].phase.v;
      Move(s, id, if Unchanged(s.cache, h[v].stamp) then Ready(true) else Stale(v))
    case Acquire(id) =>
      var v := s.calls[id].phase.v;
      if Unchanged(s.cache, h[v].stamp) then Move(s, id, Ready(true))
      else Move(s, id, Locked(v)).(lock := Some(id))
    case Read(id) => Move(s, id, Fetched(s.calls[id].phase.v, s.cur))
    case ReadFails(id) => Move(s, id, Failed).(lock := None)
    case Store(id) =>
      var p := s.calls[id].phase;
      Move(s, id, Ready(true)).(cache := Refreshed(h[p.v].stamp, h[p.u].raw), lock := None)
    case Finish(id) =>
      var c := s.calls[id];
      Move(s, id, Finished(c.phase.statOk, Judge(c.candidate, s.cache.token), s.cur)).(order := s.order + [id])
  }

  /** The state after a run, or None when some action is not enabled where it occurs. */
  function Run(h: History, s: State, acts: seq<Action>): Option<State>
    decreases |acts|
  {
    if acts == [] then Some(s)
    else if Enabled(h, s, acts[0]) then Run(h, Step(h, s, acts[0]), acts[1..])
    else None
  }

  // ---------------------------------------------------------------- what is promised

  /** Two versions share a stamp only if the token never changed from the one to the other. */
  ghost predicate Coherent(h: History) {
    forall i, k, j :: 0 <= i <= k <= j < |h| && h[i].stamp == h[j].stamp ==> TokenOf(h[k]) == TokenOf(h[j])
  }

  /**
   The verdict is the direct comparison with version `w` of the file, which for a call that could stat
   the file is one that was current during the call. A call whose stat failed is answered from the cache,
   and `w` may have been replaced before it began.
  */
  predicate Explains(h: History, c: Call, w: nat)
    requires c.phase.Finished?
  {
    && w <= c.phase.end && w < |h|
    && c.phase.verdict == Judge(c.candidate, TokenOf(h[w]))
    && (c.phase.statOk ==> c.begin <= w)
  }

  /** `seen[i]` is a version that explains the i-th finished call, and later calls never see an older one. */
  ghost predicate Linearization(h: History, s: State, seen: seq<nat>) {
    && |seen| == |s.order|
    && (forall i :: 0 <= i < |s.order| ==>
         && s.order[i] < |s.calls| && s.calls[s.order[i]].phase.Finished?
         && Explains(h, s.calls[s.order[i]], seen[i]))
    && (forall i, j :: 0 <= i < j < |seen| ==> seen[i] <= seen[j])
    && (forall id :: 0 <= id < |s.calls| && s.calls[id].phase.Finished? ==> id in s.order)
  }

  ghost predicate Linearizable(h: History, s: State) {
    exists seen :: Linearization(h, s, seen)
  }

  // ---------------------------------------------------------------- the invariant

  /** `sv` is the version whose stamp is stored, `tv` a version whose token is stored. */
  ghost predicate CacheInv(h: History, s: State, sv: nat, tv: nat) {
    && s.cur < |h|
    && (!s.cache.loaded ==> s.cache.token == [] && tv == 0)
    && (s.cache.loaded ==>
         sv <= tv <= s.cur && s.cache.stamp == h[sv].stamp && s.cache.token == TokenOf(h[tv]))
  }

  predicate HoldsLock(p: Phase) {
    p.Locked? || p.Fetched?
  }

  ghost predicate CallInv(s: State, c: Call, tv: nat) {
    && c.begin <= s.cur
    && match c.phase
       case Statted(v) => c.begin <= v <= s.cur
       case Stale(v) => c.begin <= v <= s.cur
       case Locked(v) => c.begin <= v <= s.cur
       case Fetched(v, u) => c.begin <= v <= u <= s.cur && tv <= u
       case Ready(statOk) => s.cache.loaded && (statOk ==> c.begin <= tv)
       case _ => true
  }

  ghost predicate LockInv(s: State) {
    && (s.lock.Some? ==> s.lock.value < |s.calls|)
    && forall id :: 0 <= id < |s.calls| ==> (HoldsLock(s.calls[id].phase) <==> s.lock == Some(id))
  }

  ghost predicate Inv(h: History, s: State, sv: nat, tv: nat, seen: seq<nat>) {
    && CacheInv(h, s, sv, tv)
    && LockInv(s)
    && (forall id :: 0 <= id < |s.calls| ==> CallInv(s, s.calls[id], tv))
    && Linearization(h, s, seen)
    && (forall i :: 0 <= i < |seen| ==> seen[i] <= tv)
  }

  lemma InvInit(h: History)
    ensures Inv(h, Init(), 0, 0, [])
  {
  }

  lemma MoveKeepsLinearization(h: History, s: State, id: nat, p: Phase, seen: seq<nat>)
    requires Linearization(h, s, seen)
    requires id < |s.calls| && !s.calls[id].phase.Finished? && !p.Finished?
    ensures Linearization(h, Move(s, id, p), seen)
  {
  }

  lemma MoveKeepsLock(s: State, id: nat, p: Phase)
    requires LockInv(s) && id < |s.calls| && HoldsLock(p) == HoldsLock(s.calls[id].phase)
    ensures LockInv(Move(s, id, p))
  {
  }

  /** A call that moves on without finishing, the cache left as it is. */
  lemma InvMove(h: History, s: State, id: nat, p: Phase, sv: nat, tv: nat, seen: seq<nat>)
    requires Inv(h, s, sv, tv, seen)
    requires id < |s.calls| && !s.calls[id].phase.Finished? && !p.Finished?
    requires HoldsLock(p) == HoldsLock(s.calls[id].phase)
    requires CallInv(s, s.calls[id].(phase := p), tv)
    ensures Inv(h, Move(s, id, p), sv, tv, seen)
  {
    MoveKeepsLinearization(h, s, id, p, seen);
    MoveKeepsLock(s, id, p);
  }

  lemma InvArrival(h: History, s: State, a: Action, sv: nat, tv: nat, seen: seq<nat>)
    requires Inv(h, s, sv, tv, seen) && Enabled(h, s, a) && (a.Rewrite? || a.Invoke?)
    ensures Inv(h, Step(h, s, a), sv, tv, seen)
  {
  }

  lemma InvUnlock(h: History, s: State, a: Action, sv: nat, tv: nat, seen: seq<nat>)
    requires Inv(h, s, sv, tv, seen) && Enabled(h, s, a) && a.ReadFails?
    ensures Inv(h, Step(h, s, a), sv, tv, seen)
  {
    MoveKeepsLinearization(h, s, a.id, Failed, seen);
  }

  /** Steps that leave the cache and the finished calls alone. */
  lemma InvQuiet(h: History, s: State, a: Action, sv: nat, tv: nat, seen: seq<nat>)
    requires Inv(h, s, sv, tv, seen) && Enabled(h, s, a)
    requires a.Rewrite? || a.Invoke? || a.Stat? || a.StatFails? || a.CheckCached? || a.Read? || a.ReadFails?
    ensures Inv(h, Step(h, s, a), sv, tv, seen)
  {
    if a.Rewrite? || a.Invoke? {
      InvArrival(h, s, a, sv, tv, seen);
    } else if a.ReadFails? {
      InvUnlock(h, s, a, sv, tv, seen);
    } else {
      assert CallInv(s, s.calls[a.id], tv);
      InvMove(h, s, a.id, Step(h, s, a).calls[a.id].phase, sv, tv, seen);
    }
  }

  /** Between stores, the stored token is as well that of a later version with the stored stamp. */
  lemma InvLater(h: History, s: State, sv: nat, tv: nat, tv': nat, seen: seq<nat>)
    requires Coherent(h)
    requires Inv(h, s, sv, tv, seen) && s.lock.None?
    requires tv <= tv' <= s.cur && Unchanged(s.cache, h[tv'].stamp)
    ensures Inv(h, s, sv, tv', seen)
  {
    assert TokenOf(h[tv]) == TokenOf(h[tv']);
    forall id | 0 <= id < |s.calls|
      ensures CallInv(s, s.calls[id], tv')
    {
      assert CallInv(s, s.calls[id], tv);
      assert !HoldsLock(s.calls[id].phase);
    }
  }

  lemma InvLock(h: History, s: State, id: nat, sv: nat, tv: nat, seen: seq<nat>)
    requires Inv(h, s, sv, tv, seen) && Enabled(h, s, Acquire(id))
    ensures Inv(h, Move(s, id, Locked(s.calls[id].phase.v)).(lock := Some(id)), sv, tv, seen)
  {
    assert CallInv(s, s.calls[id], tv);
    MoveKeepsLinearization(h, s, id, Locked(s.calls[id].phase.v), seen);
  }

  /** A check that finds the cache unchanged: the stored token is that of the stat'ed version too. */
  lemma InvCheck(h: History, s: State, a: Action, sv: nat, tv: nat, seen: seq<nat>) returns (tv': nat)
    requires Coherent(h)
    requires Inv(h, s, sv, tv, seen) && Enabled(h, s, a) && (a.Check? || a.Acquire?)
    ensures Inv(h, Step(h, s, a), sv, tv', seen)
  {
    var v := s.calls[a.id].phase.v;
    tv' := tv;
    assert CallInv(s, s.calls[a.id], tv);
    if Unchanged(s.cache, h[v].stamp) {
      if tv < v {
        tv' := v;
        InvLater(h, s, sv, tv, v, seen);
      }
      InvMove(h, s, a.id, Ready(true), sv, tv', seen);
    } else if a.Check? {
      InvMove(h, s, a.id, Stale(v), sv, tv, seen);
    } else {
      InvLock(h, s, a.id, sv, tv, seen);
    }
  }

  lemma InvStore(h: History, s: State, a: Action, sv: nat, tv: nat, seen: seq<nat>) returns (sv': nat, tv': nat)
    requires Inv(h, s, sv, tv, seen) && Enabled(h, s, a) && a.Store?
    ensures Inv(h, Step(h, s, a), sv', tv', seen)
  {
    var p := s.calls[a.id].phase;
    assert CallInv(s, s.calls[a.id], tv);
    sv', tv' := p.v, p.u;
  }

  lemma InvFinish(h: History, s: State, a: Action, sv: nat, tv: nat, seen: seq<nat>)
    requires Inv(h, s, sv, tv, seen) && Enabled(h, s, a) && a.Finish?
    ensures Inv(h, Step(h, s, a), sv, tv, seen + [tv])
  {
    assert CallInv(s, s.calls[a.id], tv);
    FinishLinearization(h, s, a, tv, seen);
    MoveKeepsLock(s, a.id, Step(h, s, a).calls[a.id].phase);
  }

  /** A call that finishes comes last in the linearization, with the version of the stored token. */
  lemma FinishLinearization(h: History, s: State, a: Action, tv: nat, seen: seq<nat>)
    requires Linearization(h, s, seen) && Enabled(h, s, a) && a.Finish?
    requires forall i :: 0 <= i < |seen| ==> seen[i] <= tv
    requires Explains(h, Step(h, s, a).calls[a.id], tv)
    ensures Linearization(h, Step(h, s, a), seen + [tv])
  {
    var s' := Step(h, s, a);
    assert forall i :: 0 <= i < |s.order| ==> s'.order[i] == s.order[i] && s'.calls[s'.order[i]] == s.calls[s.order[i]];
    assert s'.order[|s.order|] == a.id;
  }

  lemma InvStep(h: History, s: State, a: Action, sv: nat, tv: nat, seen: seq<nat>)
    returns (sv': nat, tv': nat, seen': seq<nat>)
    requires Coherent(h)
    requires Inv(h, s, sv, tv, seen) && Enabled(h, s, a)
    ensures Inv(h, Step(h, s, a), sv', tv', seen')
  {
    sv', tv', seen' := sv, tv, seen;
    match a
    case Check(_) => tv' := InvCheck(h, s, a, sv, tv, seen);
    case Acquire(_) => tv' := InvCheck(h, s, a, sv, tv, seen);
    case Store(_) => sv', tv' := InvStore(h, s, a, sv, tv, seen);
    case Finish(_) =>
      InvFinish(h, s, a, sv, tv, seen);
      seen' := seen + [tv];
    case _ => InvQuiet(h, s, a, sv, tv, seen);
  }

  lemma {:induction false} InvRun(h: History, s: State, acts: seq<Action>, sv: nat, tv: nat, seen: seq<nat>)
    requires Coherent(h)
    requires Inv(h, s, sv, tv, seen) && Run(h, s, acts).Some?
    ensures Linearizable(h, Run(h, s, acts).value)
    decreases |acts|
  {
    if acts != [] {
      var sv', tv', seen' := InvStep(h, s, acts[0], sv, tv, seen);
      InvRun(h, Step(h, s, acts[0]), acts[1..], sv', tv', seen');
    }
  }

  // ---------------------------------------------------------------- runs put together

  lemma {:induction false} RunAppend(h: History, s: State, acts: seq<Action>, more: seq<Action>)
    requires Run(h, s, acts).Some?
    ensures Run(h, s, acts + more) == Run(h, Run(h, s, acts).value, more)
    decreases |acts|
  {
    if acts == [] {
      assert acts + more == more;
    } else {
      assert (acts + more)[1..] == acts[1..] + more;
      RunAppend(h, Step(h, s, acts[0]), acts[1..], more);
    }
  }

  /** Appends one enabled action to a run. */
  lemma Then(h: History, s0: State, acts: seq<Action>, a: Action) returns (acts': seq<Action>, s': State)
    requires Run(h, s0, acts).Some? && Enabled(h, Run(h, s0, acts).value, a)
    ensures acts' == acts + [a] && s' == Step(h, Run(h, s0, acts).value, a)
    ensures Run(h, s0, acts') == Some(s')
  {
    acts', s' := acts + [a], Step(h, Run(h, s0, acts).value, a);
    RunAppend(h, s0, acts, [a]);
  }

  lemma {:induction false} ThenRewrite(h: History, s0: State, acts: seq<Action>, target: nat)
    returns (acts': seq<Action>, s': State)
    requires Run(h, s0, acts).Some? && Run(h, s0, acts).value.cur <= target < |h|
    ensures Run(h, s0, acts') == Some(s') && s' == Run(h, s0, acts).value.(cur := target)
    decreases target - Run(h, s0, acts).value.cur
  {
    acts', s' := acts, Run(h, s0, acts).value;
    if s'.cur < target {
      acts', s' := Then(h, s0, acts, Rewrite);
      acts', s' := ThenRewrite(h, s0, acts', target);
    }
  }

  /** The state with one more call, in a given phase. */
  function With(s: State, candidate: bytes, p: Phase): State {
    s.(calls := s.calls + [Call(candidate, s.cur, p)])
  }

  lemma MoveLast(s: State, candidate: bytes, p: Phase, q: Phase)
    ensures Move(With(s, candidate, p), |s.calls|, q) == With(s, candidate, q)
  {
  }

  /** How a call with the token at hand ends. */
  lemma SoloFinish(h: History, s0: State, s: State, acts: seq<Action>, candidate: bytes, statOk: bool)
    returns (acts': seq<Action>)
    requires s.lock.None? && Run(h, s0, acts) == Some(With(s, candidate, Ready(statOk)))
    ensures
      var verdict := Judge(candidate, s.cache.token);
      Run(h, s0, acts') == Some(With(s, candidate, Finished(statOk, verdict, s.cur)).(order := s.order + [|s.calls|]))
  {
    var t: State;
    acts', t := Then(h, s0, acts, Finish(|s.calls|));
    MoveLast(s, candidate, Ready(statOk), Finished(statOk, Judge(candidate, s.cache.token), s.cur));
  }

  /** A call that has found its stamp stale either fails to read the file or refreshes the cache. */
  lemma SoloRefresh(h: History, s: State, acts: seq<Action>, candidate: bytes, readOk: bool) returns (acts': seq<Action>)
    requires s.cur < |h| && s.lock.None? && !Unchanged(s.cache, h[s.cur].stamp)
    requires Run(h, s, acts) == Some(With(s, candidate, Stale(s.cur)))
    ensures
      Run(h, s, acts') == Some(
        if readOk
        then With(s, candidate, Ready(true)).(cache := Refreshed(h[s.cur].stamp, h[s.cur].raw))
        else With(s, candidate, Failed))
  {
    var id := |s.calls|;
    var t: State;
    acts', t := Then(h, s, acts, Acquire(id));
    MoveLast(s, candidate, Stale(s.cur), Locked(s.cur));
    if !readOk {
      acts', t := Then(h, s, acts', ReadFails(id));
      MoveLast(s, candidate, Locked(s.cur), Failed);
    } else {
      acts', t := Then(h, s, acts', Read(id));
      MoveLast(s, candidate, Locked(s.cur), Fetched(s.cur, s.cur));
      acts', t := Then(h, s, acts', Store(id));
      MoveLast(s, candidate, Fetched(s.cur, s.cur), Ready(true));
    }
  }

  lemma SoloStat(h: History, s: State, candidate: bytes, statOk: bool) returns (acts: seq<Action>)
    requires s.cur < |h| && s.lock.None?
    ensures
      Run(h, s, acts) == Some(With(s, candidate,
        if !statOk then (if s.cache.token != [] then Ready(false) else Failed)
        else if Unchanged(s.cache, h[s.cur].stamp) then Ready(true)
        else Stale(s.cur)))
  {
    var id := |s.calls|;
    var t: State;
    acts, t := Then(h, s, [], Invoke(candidate));
    if statOk {
      acts, t := Then(h, s, acts, Stat(id));
      MoveLast(s, candidate, Begun, Statted(s.cur));
      acts, t := Then(h, s, acts, Check(id));
      MoveLast(s, candidate, Statted(s.cur), t.calls[id].phase);
    } else {
      acts, t := Then(h, s, acts, StatFails(id));
      MoveLast(s, candidate, Begun, StatFailed);
      acts, t := Then(h, s, acts, CheckCached(id));
      MoveLast(s, candidate, StatFailed, t.calls[id].phase);
    }
  }

  // ---------------------------------------------------------------- linearizability

  /** The race itself: a call that stats version i and reads version k stores i's stamp with k's token. */
  lemma MixedStore(h: History, candidate: bytes, i: nat, k: nat) returns (acts: seq<Action>, s: State)
    requires i <= k < |h|
    ensures Run(h, Init(), acts) == Some(s)
    ensures s == State(k, Refreshed(h[i].stamp, h[k].raw), None, [Call(candidate, i, Ready(true))], [])
  {
    acts, s := ThenRewrite(h, Init(), [], i);
    acts, s := Then(h, Init(), acts, Invoke(candidate));
    acts, s := Then(h, Init(), acts, Stat(0));
    acts, s := Then(h, Init(), acts, Check(0));
    acts, s := ThenRewrite(h, Init(), acts, k);
    acts, s := Then(h, Init(), acts, Acquire(0));
    acts, s := Then(h, Init(), acts, Read(0));
    acts, s := Then(h, Init(), acts, Store(0));
  }

  /**
   The run that breaks an incoherent history: after MixedStore, a call made and finished while
   version j is on disk takes version k's token for version j's.
  */
  lemma StaleVerdict(h: History, i: nat, k: nat, j: nat) returns (acts: seq<Action>)
    requires i <= k <= j < |h| && h[i].stamp == h[j].stamp && TokenOf(h[k]) != TokenOf(h[j])
    ensures Run(h, Init(), acts).Some? && !Linearizable(h, Run(h, Init(), acts).value)
  {
    var candidate := if TokenOf(h[k]) != [] then TokenOf(h[k]) else TokenOf(h[j]);
    acts := StaleRun(h, i, k, j, candidate);
    if Linearizable(h, Run(h, Init(), acts).value) {
      var w := Explained(h, Run(h, Init(), acts).value, 1);
      assert false;
    }
  }

  lemma StaleRun(h: History, i: nat, k: nat, j: nat, candidate: bytes) returns (acts: seq<Action>)
    requires i <= k <= j < |h| && h[i].stamp == h[j].stamp
    ensures Run(h, Init(), acts).Some?
    ensures
      var s := Run(h, Init(), acts).value;
      |s.calls| == 2 && s.calls[1] == Call(candidate, j, Finished(true, Judge(candidate, TokenOf(h[k])), j))
  {
    var s: State;
    acts, s := MixedStore(h, candidate, i, k);
    acts, s := ThenRewrite(h, Init(), acts, j);
    var solo := SoloStat(h, s, candidate, true);
    solo := SoloFinish(h, s, s, solo, candidate, true);
    RunAppend(h, Init(), acts, solo);
    acts := acts + solo;
  }

  /** In a linearizable state every finished call is explained by some version. */
  lemma Explained(h: History, s: State, id: nat) returns (w: nat)
    requires Linearizable(h, s)
    requires id < |s.calls| && s.calls[id].phase.Finished?
    ensures Explains(h, s.calls[id], w)
  {
    var seen :| Linearization(h, s, seen);
    var i :| 0 <= i < |s.order| && s.order[i] == id;
    w := seen[i];
  }

  /**
   Exactly when no stamp is reused around a change of the token is Validate linearizable in every
   interleaving: each verdict is the direct comparison with a version of the file, no call is judged by an
   older version than the calls before it, and a call that could stat the file is judged by one that was
   current during the call. In particular that holds when no (mtime, size) pair is ever revisited. Calls
   that end in a stat or read error have no verdict.
  */
  lemma ValidateLinearizableIff(h: History)
    ensures Coherent(h) <==>
            forall acts :: Run(h, Init(), acts).Some? ==> Linearizable(h, Run(h, Init(), acts).value)
  {
    if Coherent(h) {
      InvInit(h);
      forall acts | Run(h, Init(), acts).Some?
        ensures Linearizable(h, Run(h, Init(), acts).value)
      {
        InvRun(h, Init(), acts, 0, 0, []);
      }
    } else {
      var i, k, j :| 0 <= i <= k <= j < |h| && h[i].stamp == h[j].stamp && TokenOf(h[k]) != TokenOf(h[j]);
      var acts := StaleVerdict(h, i, k, j);
    }
  }

  /** Nothing that the call has done so far comes from a failed stat. */
  predicate StatHeld(p: Phase) {
    !p.StatFailed? && (p.Ready? || p.Finished? ==> p.statOk)
  }

  lemma {:induction false} StattedRun(h: History, s: State, acts: seq<Action>, id: nat)
    requires Run(h, s, acts).Some? && StatFails(id) !in acts
    requires id < |s.calls| ==> StatHeld(s.calls[id].phase)
    ensures
      var s' := Run(h, s, acts).value;
      id < |s'.calls| ==> StatHeld(s'.calls[id].phase)
    decreases |acts|
  {
    if acts != [] {
      assert acts[0] in acts && StatFails(id) !in acts[1..];
      StattedRun(h, Step(h, s, acts[0]), acts[1..], id);
    }
  }

  /** Where a call's own stat does not fail, its verdict is that of a version current at some instant during it. */
  lemma VerdictIsCurrent(h: History, acts: seq<Action>, id: nat)
    requires Coherent(h) && Run(h, Init(), acts).Some? && StatFails(id) !in acts
    requires
      var s := Run(h, Init(), acts).value;
      id < |s.calls| && s.calls[id].phase.Finished?
    ensures
      var c := Run(h, Init(), acts).value.calls[id];
      exists w :: c.begin <= w <= c.phase.end && w < |h|
        && (c.phase.verdict == NoToken <==> TokenOf(h[w]) == [])
        && (c.phase.verdict == Accepted <==> TokenOf(h[w]) != [] && c.candidate == TokenOf(h[w]))
        && (c.phase.verdict == InvalidToken <==> TokenOf(h[w]) != [] && c.candidate != TokenOf(h[w]))
  {
    ValidateLinearizableIff(h);
    StattedRun(h, Init(), acts, id);
    var w := Explained(h, Run(h, Init(), acts).value, id);
  }

  /**
   A call whose stat fails is not so lucky, even in a coherent history: with version k's token in the
   cache and version j on disk from the call's beginning to its end, it accepts version k's token.
  */
  lemma FailedStatServesCache(h: History, k: nat, j: nat) returns (acts: seq<Action>)
    requires k <= j < |h| && TokenOf(h[k]) != [] && TokenOf(h[k]) != TokenOf(h[j])
    ensures Run(h, Init(), acts).Some?
    ensures
      var s := Run(h, Init(), acts).value;
      && |s.calls| == 2 && s.calls[1] == Call(TokenOf(h[k]), j, Finished(false, Accepted, j))
      && Judge(TokenOf(h[k]), TokenOf(h[j])) != Accepted
  {
    var candidate := TokenOf(h[k]);
    var s: State;
    acts, s := MixedStore(h, [], k, k);
    acts, s := ThenRewrite(h, Init(), acts, j);
    var solo := SoloStat(h, s, candidate, false);
    solo := SoloFinish(h, s, s, solo, candidate, false);
    RunAppend(h, Init(), acts, solo);
    acts := acts + solo;
  }

  /** Once the file is at its last version, a new call that can stat it gets that version's verdict. */
  lemma RotationTakesEffect(h: History, acts: seq<Action>, id: nat)
    requires Coherent(h)
    requires Run(h, Init(), acts).Some?
    requires
      var s := Run(h, Init(), acts).value;
      && id < |s.calls| && s.calls[id].begin == |h| - 1
      && s.calls[id].phase.Finished? && s.calls[id].phase.statOk
    ensures
      var c, token := Run(h, Init(), acts).value.calls[id], TokenOf(h[|h| - 1]);
      && (c.phase.verdict == NoToken <==> token == [])
      && (c.phase.verdict == Accepted <==> token != [] && c.candidate == token)
      && (c.phase.verdict == InvalidToken <==> token != [] && c.candidate != token)
  {
    ValidateLinearizableIff(h);
    var w := Explained(h, Run(h, Init(), acts).value, id);
  }

  /** In particular a token that has been rotated out is refused as invalid once another one is in force. */
  lemma RotatedOutIsInvalid(h: History, acts: seq<Action>, id: nat, k: nat)
    requires Coherent(h) && Run(h, Init(), acts).Some? && StatFails(id) !in acts
    requires
      var s := Run(h, Init(), acts).value;
      && id < |s.calls| && s.calls[id].begin == |h| - 1 && s.calls[id].phase.Finished?
      && k < |h| && s.calls[id].candidate == TokenOf(h[k])
    requires TokenOf(h[|h| - 1]) != [] && TokenOf(h[k]) != TokenOf(h[|h| - 1])
    ensures Run(h, Init(), acts).value.calls[id].phase.verdict == InvalidToken
  {
    StattedRun(h, Init(), acts, id);
    RotationTakesEffect(h, acts, id);
  }

  /** Left alone, a call's steps do what Source.Validate does. */
  lemma SoloRun(h: History, s: State, candidate: bytes, statOk: bool, readOk: bool) returns (acts: seq<Action>)
    requires s.cur < |h| && s.lock.None?
    ensures
      var stat := if statOk then Some(h[s.cur].stamp) else None;
      var file := if readOk then Some(h[s.cur].raw) else None;
      var (cache, verdict) := Alone(s.cache, candidate, stat, file);
      && Run(h, s, acts).Some?
      && var s' := Run(h, s, acts).value;
         && s'.cache == cache && s'.lock.None? && s'.cur == s.cur
         && |s'.calls| == |s.calls| + 1
         && var p := s'.calls[|s.calls|].phase;
            p == Finished(statOk, verdict, s.cur) || (p == Failed && verdict == NoToken)
  {
    acts := SoloStat(h, s, candidate, statOk);
    if !statOk {
      if s.cache.token != [] {
        acts := SoloFinish(h, s, s, acts, candidate, false);
      }
    } else if Unchanged(s.cache, h[s.cur].stamp) {
      acts := SoloFinish(h, s, s, acts, candidate, true);
    } else {
      acts := SoloRefresh(h, s, acts, candidate, readOk);
      if readOk {
        acts := SoloFinish(h, s, s.(cache := Refreshed(h[s.cur].stamp, h[s.cur].raw)), acts, candidate, true);
      }
    }
  }
}
