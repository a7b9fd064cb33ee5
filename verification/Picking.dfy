/** Subsequences given by the indices that are wanted. */
module Picking {
  /** The wanted indices below n, in order. */
  function Picked(want: nat -> bool, n: nat): (r: seq<nat>)
    ensures forall k :: 0 <= k < |r| ==> r[k] < n && want(r[k])
    ensures forall k, m :: 0 <= k < m < |r| ==> r[k] < r[m]
    ensures forall i: nat :: i < n && want(i) ==> i in r
  {
    if n == 0 then []
    else if want(n - 1) then Picked(want, n - 1) + [n - 1]
    else Picked(want, n - 1)
  }

  predicate Inside(picks: seq<nat>, n: nat) { forall k :: 0 <= k < |picks| ==> picks[k] < n }

  /** The elements at some indices. */
  function At<T>(s: seq<T>, picks: seq<nat>): (r: seq<T>)
    requires Inside(picks, |s|)
    ensures |r| == |picks| && forall k :: 0 <= k < |r| ==> r[k] == s[picks[k]]
  {
    seq(|picks|, k requires 0 <= k < |picks| => s[picks[k]])
  }

  lemma AtSnoc<T>(s: seq<T>, picks: seq<nat>, i: nat)
    requires Inside(picks, |s|) && i < |s|
    ensures At(s, picks + [i]) == At(s, picks) + [s[i]]
  {
  }

  /** The wanted elements among the first n. */
  function Wanted<T>(s: seq<T>, want: nat -> bool, n: nat): seq<T>
    requires n <= |s|
  {
    At(s, Picked(want, n))
  }

  lemma WantedNext<T>(s: seq<T>, want: nat -> bool, n: nat)
    requires n < |s|
    ensures Wanted(s, want, n + 1) == if want(n) then Wanted(s, want, n) + [s[n]] else Wanted(s, want, n)
  {
    AtSnoc(s, Picked(want, n), n);
  }
}
