/**
 * `shuffleArray`: the in-place Fisher–Yates shuffle. Walking `i` down from the
 * last index to 1, it swaps cell `i` with a cell `j` drawn from `0..i`. The
 * draws are a parameter: `draws[i]` is the `j` drawn at step `i`.
 */
module Shuffle {

  /** Every draw lies in `0..i`, as `Math.floor(Math.random() * (i + 1))` does. */
  predicate ValidDraws(draws: seq<nat>, n: nat) {
    |draws| == n && forall i :: 0 <= i < n ==> draws[i] <= i
  }

  function Swap<T>(s: seq<T>, i: nat, j: nat): (r: seq<T>)
    requires i < |s| && j < |s|
    ensures |r| == |s| && r[i] == s[j] && r[j] == s[i]
    ensures forall k :: 0 <= k < |s| && k != i && k != j ==> r[k] == s[k]
  {
    s[i := s[j]][j := s[i]]
  }

  /** The sequence after the steps `i`, `i - 1`, ..., 1 of the shuffle have run on `s`. */
  function ShuffleFrom<T>(s: seq<T>, draws: seq<nat>, i: int): (r: seq<T>)
    requires ValidDraws(draws, |s|) && i < |s|
    ensures |r| == |s|
    decreases i
  {
    if i <= 0 then s else ShuffleFrom(Swap(s, i, draws[i]), draws, i - 1)
  }

  /** The whole shuffle of `s` under the given draws. */
  function Shuffled<T>(s: seq<T>, draws: seq<nat>): (r: seq<T>)
    requires ValidDraws(draws, |s|)
    ensures |r| == |s|
  {
    ShuffleFrom(s, draws, |s| - 1)
  }

  lemma SwapPermutes<T>(s: seq<T>, i: nat, j: nat)
    requires i < |s| && j < |s|
    ensures multiset(Swap(s, i, j)) == multiset(s)
  {
  }

  /** Every run of steps only swaps, so it keeps the length and the elements with their multiplicities. */
  lemma {:induction false} ShuffleFromPermutes<T>(s: seq<T>, draws: seq<nat>, i: int)
    requires ValidDraws(draws, |s|) && i < |s|
    ensures multiset(ShuffleFrom(s, draws, i)) == multiset(s)
    decreases i
  {
    if i > 0 {
      SwapPermutes(s, i, draws[i]);
      ShuffleFromPermutes(Swap(s, i, draws[i]), draws, i - 1);
    }
  }

  /** The shuffle is a permutation of its input. */
  lemma ShuffledPermutes<T>(s: seq<T>, draws: seq<nat>)
    requires ValidDraws(draws, |s|)
    ensures multiset(Shuffled(s, draws)) == multiset(s)
  {
    ShuffleFromPermutes(s, draws, |s| - 1);
  }

  /** Drawing `j == i` at every step leaves every cell where it was. */
  lemma {:induction false} StayingDrawsKeepOrder<T>(s: seq<T>, draws: seq<nat>, i: int)
    requires ValidDraws(draws, |s|) && i < |s|
    requires forall k :: 0 <= k < |s| ==> draws[k] == k
    ensures ShuffleFrom(s, draws, i) == s
    decreases i
  {
    if i > 0 {
      assert Swap(s, i, draws[i]) == s;
      StayingDrawsKeepOrder(s, draws, i - 1);
    }
  }

  method ShuffleArray<T>(a: array<T>, draws: seq<nat>)
    requires ValidDraws(draws, a.Length)
    modifies a
    ensures a[..] == Shuffled(old(a[..]), draws)
    ensures multiset(a[..]) == multiset(old(a[..]))
  {
    var i := a.Length - 1;
    while i > 0
      invariant -1 <= i < a.Length
      invariant a.Length == 0 ==> i == -1
      invariant ShuffleFrom(a[..], draws, i) == Shuffled(old(a[..]), draws)
    {
      var j := draws[i];
      ghost var before := a[..];
      a[i], a[j] := a[j], a[i];
      assert a[..] == Swap(before, i, j);
      i := i - 1;
    }
    ShuffledPermutes(old(a[..]), draws);
  }
}
