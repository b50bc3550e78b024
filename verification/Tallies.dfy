/** Weighted sums over sequences, and how they move when one element changes. */
module Tallies {
  function Tally<T>(s: seq<T>, w: T -> int): int {
    if s == [] then 0 else w(s[0]) + Tally(s[1..], w)
  }

  lemma {:induction false} TallyUpdate<T>(s: seq<T>, w: T -> int, i: nat, x: T)
    requires i < |s|
    ensures Tally(s[i := x], w) == Tally(s, w) - w(s[i]) + w(x)
  {
    if i == 0 {
      assert s[i := x][1..] == s[1..];
    } else {
      assert s[i := x][1..] == s[1..][i - 1 := x];
      TallyUpdate(s[1..], w, i - 1, x);
    }
  }

  lemma {:induction false} TallyAppend<T>(s: seq<T>, w: T -> int, x: T)
    ensures Tally(s + [x], w) == Tally(s, w) + w(x)
  {
    if s != [] {
      assert (s + [x])[1..] == s[1..] + [x];
      TallyAppend(s[1..], w, x);
    }
  }

  /** Weights that are pointwise ordered have ordered sums. */
  lemma {:induction false} TallyOrdered<T>(s: seq<T>, low: T -> int, high: T -> int)
    requires forall i :: 0 <= i < |s| ==> low(s[i]) <= high(s[i])
    ensures Tally(s, low) <= Tally(s, high)
  {
    if s != [] {
      assert forall i :: 0 <= i < |s[1..]| ==> s[1..][i] == s[i + 1];
      TallyOrdered(s[1..], low, high);
    }
  }

  lemma {:induction false} TallySame<T>(s: seq<T>, v: T -> int, w: T -> int)
    requires forall i :: 0 <= i < |s| ==> v(s[i]) == w(s[i])
    ensures Tally(s, v) == Tally(s, w)
  {
    TallyOrdered(s, v, w);
    TallyOrdered(s, w, v);
  }
}
