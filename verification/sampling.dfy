/**
 * The selection branch of `loadGames`: with a positive `count` the page shows
 * the first `count` items of a shuffled copy of the dataset; otherwise it shows
 * the dataset itself, in its order.
 */
module Sampling {
  import opened Shuffle

  function Min(a: int, b: int): int {
    if a < b then a else b
  }

  /** No value occurs twice. */
  ghost predicate Distinct<T>(s: seq<T>) {
    forall i, j :: 0 <= i < j < |s| ==> s[i] != s[j]
  }

  lemma {:induction false} DistinctAtMostOnce<T>(s: seq<T>)
    requires Distinct(s)
    ensures forall x :: multiset(s)[x] <= 1
  {
    if s != [] {
      var init, last := s[..|s| - 1], s[|s| - 1];
      assert s == init + [last];
      assert Distinct(init);
      DistinctAtMostOnce(init);
      assert last !in init;
    }
  }

  lemma RepeatCountsTwice<T>(s: seq<T>, i: nat, j: nat)
    requires i < j < |s|
    ensures s[i] == s[j] ==> multiset(s)[s[i]] >= 2
  {
    assert s == s[..i] + [s[i]] + s[i + 1..j] + [s[j]] + s[j + 1..];
  }

  /** Taking elements out of a collection without repeats cannot create a repeat. */
  lemma SubMultisetDistinct<T>(a: seq<T>, b: seq<T>)
    requires multiset(a) <= multiset(b) && Distinct(b)
    ensures Distinct(a)
  {
    DistinctAtMostOnce(b);
    forall i, j | 0 <= i < j < |a| ensures a[i] != a[j] {
      RepeatCountsTwice(a, i, j);
      assert multiset(a)[a[i]] <= multiset(b)[a[i]] <= 1;
    }
  }

  lemma PrefixSubMultiset<T>(s: seq<T>, n: nat)
    requires n <= |s|
    ensures multiset(s[..n]) <= multiset(s)
  {
    assert s == s[..n] + s[n..];
  }

  /**
   * `itemsToDisplay`. The shuffle runs on a fresh array copied from `data`,
   * so `data` (a value here) is never touched.
   */
  method SelectItems<T>(data: seq<T>, count: int, draws: seq<nat>) returns (items: seq<T>)
    requires count > 0 ==> ValidDraws(draws, |data|)
    ensures count <= 0 ==> items == data
    ensures count > 0 ==> |items| == Min(count, |data|)
    ensures count > 0 ==> multiset(items) <= multiset(data)
    ensures count > 0 && Distinct(data) ==> Distinct(items)
    ensures count > 0 ==> items == Shuffled(data, draws)[..Min(count, |data|)]
    ensures count >= |data| ==> multiset(items) == multiset(data)
  {
    items := data;
    if count > 0 {
      var copy := new T[|data|](i requires 0 <= i < |data| => data[i]);
      assert copy[..] == data;
      ShuffleArray(copy, draws);
      ShuffledPermutes(data, draws);
      var n := Min(count, copy.Length);
      items := copy[..n];
      PrefixSubMultiset(copy[..], n);
      assert copy[..][..n] == items;
      if Distinct(data) {
        SubMultisetDistinct(items, data);
      }
      if count >= |data| {
        assert items == copy[..];
      }
    }
  }
}
