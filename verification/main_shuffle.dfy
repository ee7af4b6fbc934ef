/**
 * main.js, `shuffleArray`: the Durstenfeld form of the Fisher-Yates shuffle,
 * which puts the star indexes `0..59` in the random order the visibility
 * pass walks. Step `i` (from the last index down to 1) swaps element `i` with
 * element `Math.floor(r * (i + 1))`; the draw of step `i` is `draws[i]`.
 */
module MainShuffle {
  import opened Utils

  /** `STAR_NUMBER`. */
  const StarNumber: nat := 60

  /** The index step `i` swaps with. */
  function Pick(r: real, i: nat): (j: int)
    ensures IsDraw(r) ==> 0 <= j <= i
  {
    ScaledDraw(r, (i + 1) as real);
    (r * (i + 1) as real).Floor
  }

  /** `[array[i], array[j]] = [array[j], array[i]]`, on the index list. */
  function Swap(s: seq<int>, i: nat, j: nat): (s': seq<int>)
    requires i < |s| && j < |s|
    ensures |s'| == |s| && s'[i] == s[j] && s'[j] == s[i]
    ensures forall k :: 0 <= k < |s| && k != i && k != j ==> s'[k] == s[k]
  {
    s[i := s[j]][j := s[i]]
  }

  /** A swap moves elements without adding or losing any. */
  lemma SwapPermutes(s: seq<int>, i: nat, j: nat)
    requires i < |s| && j < |s|
    ensures multiset(Swap(s, i, j)) == multiset(s)
  {
    var t := s[i := s[j]];
    assert multiset(t) == multiset(s) - multiset{s[i]} + multiset{s[j]};
    assert multiset(t[j := s[i]]) == multiset(t) - multiset{t[j]} + multiset{s[i]};
  }

  /** Every draw is a value `Math.random()` can return. */
  predicate Draws(draws: seq<real>) {
    forall k :: 0 <= k < |draws| ==> IsDraw(draws[k])
  }

  /** The steps from `i` down to 1, as a reference definition: whatever the
      draws, they only reorder the elements. */
  function ShuffleDown(s: seq<int>, draws: seq<real>, i: nat): (s': seq<int>)
    requires i < |s| && |draws| == |s| && Draws(draws)
    ensures |s'| == |s| && multiset(s') == multiset(s)
    decreases i
  {
    if i == 0 then s
    else
      var j := Pick(draws[i], i);
      SwapPermutes(s, i, j);
      ShuffleDown(Swap(s, i, j), draws, i - 1)
  }

  /** `shuffleArray(array)` on a copy: the loop over `i = length - 1 .. 1`
      performs exactly the reference steps. */
  method Shuffle(a: seq<int>, draws: seq<real>) returns (s: seq<int>)
    requires |draws| == |a| && Draws(draws)
    ensures |a| > 0 ==> s == ShuffleDown(a, draws, |a| - 1)
    ensures |a| == 0 ==> s == []
  {
    s := a;
    if |a| == 0 {
      return;
    }
    var i := |a| - 1;
    while i > 0
      invariant 0 <= i < |a| && |s| == |a|
      invariant ShuffleDown(s, draws, i) == ShuffleDown(a, draws, |a| - 1)
      decreases i
    {
      var s' := Swap(s, i, Pick(draws[i], i));
      assert ShuffleDown(s', draws, i - 1) == ShuffleDown(s, draws, i);
      s, i := s', i - 1;
    }
  }

  /** `[0, 1, …, n - 1]`, what `Array.apply(null, {length: n}).map((_, i) => i)` builds. */
  function Range(n: nat): (s: seq<int>)
    ensures |s| == n && forall k :: 0 <= k < n ==> s[k] == k
  {
    seq(n, k => k)
  }

  /** Each index below `n` appears exactly once in `Range(n)`, and nothing else does. */
  lemma {:induction false} RangeCounts(n: nat)
    ensures forall k :: 0 <= k < n ==> multiset(Range(n))[k] == 1
    ensures forall x :: x in multiset(Range(n)) ==> 0 <= x < n
  {
    if n > 0 {
      RangeCounts(n - 1);
      assert Range(n) == Range(n - 1) + [n - 1];
      assert multiset(Range(n)) == multiset(Range(n - 1)) + multiset{n - 1};
    }
  }

  /** `rand_star_indexes`: a shuffle of the sixty star indexes holds every
      index exactly once, so the visibility pass visits each star once. */
  method StarOrder(draws: seq<real>) returns (order: seq<int>)
    requires |draws| == StarNumber && Draws(draws)
    ensures |order| == StarNumber
    ensures forall x :: x in order ==> 0 <= x < StarNumber
    ensures forall k :: 0 <= k < StarNumber ==> multiset(order)[k] == 1
  {
    order := Shuffle(Range(StarNumber), draws);
    assert multiset(order) == multiset(Range(StarNumber));
    RangeCounts(StarNumber);
    assert forall x :: x in order ==> x in multiset(order);
  }
}
