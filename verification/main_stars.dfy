/**
 * main.js, the sixty background stars: built hidden at random heights with
 * an alpha that fades with height, then on every frame walked in the
 * shuffled order, where every twentieth frame shows or hides at most one of
 * them and each visible one may twinkle.
 */
module MainStars {
  import opened Utils
  import MainShuffle

  const Width: int := 256
  const Height: int := 144

  /** `STARS_SPAWN_HEIGHT = 2 * HEIGHT / 3`. */
  const SpawnHeight: real := 96.0

  /** `STARS_APPEAR_SPEED`: frames between two visibility changes. */
  const AppearSpeed: nat := 20

  /** `1 / 40`, the twinkle chance, as the `~~(r * 40)` test. */
  const TwinkleOdds: real := 40.0

  const StarSprites: seq<string> := ["assets/sprites/stars/1.png", "assets/sprites/stars/2.png"]

  /** `starAlpha(y)`: opaque on the top row, fading linearly to transparent
      at the spawn height. */
  function StarAlpha(y: real): (a: real)
    ensures 0.0 <= y <= SpawnHeight ==> 0.0 <= a <= 1.0
    ensures y == 0.0 ==> a == 1.0
    ensures y == SpawnHeight ==> a == 0.0
  {
    (SpawnHeight - y) / SpawnHeight
  }

  /** Fully opaque at the top, positive and at most 1 over the spawn band,
      and strictly fading downwards. */
  lemma StarAlphaShape(y: real, y': real)
    ensures StarAlpha(0.0) == 1.0
    ensures 0.0 <= y < SpawnHeight ==> 0.0 < StarAlpha(y) <= 1.0
    ensures y < y' ==> StarAlpha(y') < StarAlpha(y)
  {
  }

  datatype Star = Star(image: string, x: int, y: int, alpha: real, visible: bool)

  /** The `i`-th star of the start-up loop, given the draws for its sprite
      and its height. */
  function NewStar(i: nat, rImage: real, rHeight: real): (s: Star)
    requires i < MainShuffle.StarNumber
    ensures !s.visible
    ensures IsDraw(rImage) ==> s.image in StarSprites
    ensures IsDraw(rHeight) ==> 0 <= s.y < 96 && 0.0 < s.alpha <= 1.0
    ensures 1 <= s.x <= Width && s.alpha == StarAlpha(s.y as real)
  {
    var k := Trunc(rImage * |StarSprites| as real);
    var image := if 0 <= k < |StarSprites| then StarSprites[k] else "undefined";
    var x := Trunc(i as real / MainShuffle.StarNumber as real * Width as real) + 1;
    var y := Trunc(rHeight * SpawnHeight);
    ScaledDraw(rHeight, SpawnHeight);
    ScaledDraw(rImage, |StarSprites| as real);
    StarAlphaShape(y as real, y as real);
    Star(image, x, y, StarAlpha(y as real), false)
  }

  /** The two draws a visible star may consume: the twinkle test and the
      offset, `Math.random() / 4`. */
  datatype TwinkleDraw = TwinkleDraw(gate: real, offset: real)

  predicate Draws(draws: seq<TwinkleDraw>) {
    forall k :: 0 <= k < |draws| ==> IsDraw(draws[k].gate) && IsDraw(draws[k].offset)
  }

  /** `!~~(Math.random() * 40)`. */
  predicate Twinkles(d: TwinkleDraw) {
    Trunc(d.gate * TwinkleOdds) == 0
  }

  /** `order` lists every star index exactly once. */
  predicate Permutation(order: seq<int>, n: nat) {
    && |order| == n
    && (forall k :: 0 <= k < |order| ==> 0 <= order[k] < n)
    && (forall i :: 0 <= i < n ==> multiset(order)[i] == 1)
  }

  /** The first position, in walking order, of a star whose visibility
      differs from `want`; `|order|` when there is none. */
  function FirstMismatch(stars: seq<Star>, order: seq<int>, want: bool, from: nat): (k: nat)
    requires from <= |order| && forall k :: 0 <= k < |order| ==> 0 <= order[k] < |stars|
    ensures from <= k <= |order|
    ensures forall m :: from <= m < k ==> stars[order[m]].visible == want
    ensures k < |order| ==> stars[order[k]].visible != want
    decreases |order| - from
  {
    if from == |order| then from
    else if stars[order[from]].visible != want then from
    else FirstMismatch(stars, order, want, from + 1)
  }

  /** What a visit does to one star: flip its visibility when it is the one
      chosen this frame, then twinkle it when it is visible and the test fires. */
  function Visit(s: Star, flip: bool, d: TwinkleDraw): (s': Star)
    ensures s'.image == s.image && s'.x == s.x && s'.y == s.y
    ensures s'.visible == (s.visible != flip)
    ensures s'.visible && Twinkles(d) ==> s'.alpha == StarAlpha(s.y as real) - d.offset / 4.0
    ensures !(s'.visible && Twinkles(d)) ==> s'.alpha == s.alpha
  {
    var s1 := if flip then s.(visible := !s.visible) else s;
    if s1.visible && Twinkles(d) then s1.(alpha := StarAlpha(s1.y as real) - d.offset / 4.0) else s1
  }

  /** A twinkle never lifts a star above its height's alpha, and dims it by
      less than a quarter. */
  lemma TwinkleBelowBaseline(s: Star, flip: bool, d: TwinkleDraw)
    requires IsDraw(d.offset)
    ensures var s' := Visit(s, flip, d);
      s'.alpha != s.alpha ==> StarAlpha(s.y as real) - 0.25 < s'.alpha <= StarAlpha(s.y as real)
  {
  }

  /** An element found at two positions is counted at least twice. */
  lemma RepeatCounted(s: seq<int>, a: nat, b: nat)
    requires a < b < |s|
    ensures s[a] == s[b] ==> multiset(s)[s[a]] >= 2
  {
    if s[a] == s[b] {
      var v := s[a];
      assert s == s[..b] + s[b..];
      assert v in s[..b] && v in s[b..];
      assert multiset(s)[v] == multiset(s[..b])[v] + multiset(s[b..])[v];
    }
  }

  /** Two positions of a permutation name different stars. */
  lemma PermutationDistinct(order: seq<int>, n: nat, a: nat, b: nat)
    requires Permutation(order, n) && a < b < |order|
    ensures order[a] != order[b]
  {
    RepeatCounted(order, a, b);
  }

  lemma PermutationInjective(order: seq<int>, n: nat, a: nat, b: nat)
    requires Permutation(order, n) && a < |order| && b < |order|
    ensures order[a] == order[b] ==> a == b
  {
    if a < b {
      PermutationDistinct(order, n, a, b);
    } else if b < a {
      PermutationDistinct(order, n, b, a);
    }
  }

  /** Every star has a position in a permutation. */
  lemma PermutationCovers(order: seq<int>, n: nat, i: int)
    requires Permutation(order, n) && 0 <= i < n
    ensures exists k :: 0 <= k < |order| && order[k] == i
  {
    assert i in multiset(order);
    assert i in order;
  }

  /** The stars whose visibility is not `want` yet. */
  function Pending(stars: seq<Star>, want: bool): set<int> {
    set i | 0 <= i < |stars| && stars[i].visible != want
  }

  /** The star-update loop of a frame. `visibleStars` is the night test;
      `draws[k]` are the draws of the `k`-th visited star. */
  method UpdateStars(stars: seq<Star>, order: seq<int>, draws: seq<TwinkleDraw>, counter: nat, visibleStars: bool)
    returns (stars': seq<Star>)
    requires Permutation(order, |stars|)
    requires |draws| == |order| && Draws(draws)
    ensures |stars'| == |stars|
    ensures var first := FirstMismatch(stars, order, visibleStars, 0);
      forall k :: 0 <= k < |order| ==>
        stars'[order[k]] == Visit(stars[order[k]], counter % AppearSpeed == 0 && k == first, draws[k])
    ensures counter % AppearSpeed != 0 ==> Pending(stars', visibleStars) == Pending(stars, visibleStars)
    ensures counter % AppearSpeed == 0 && |Pending(stars, visibleStars)| > 0 ==>
      |Pending(stars', visibleStars)| == |Pending(stars, visibleStars)| - 1
    ensures counter % AppearSpeed == 0 && |Pending(stars, visibleStars)| == 0 ==>
      |Pending(stars', visibleStars)| == 0
  {
    var update := counter % AppearSpeed == 0;
    var first := FirstMismatch(stars, order, visibleStars, 0);
    var checked := false;
    stars' := stars;
    var i := 0;
    while i < |order|
      invariant 0 <= i <= |order| && |stars'| == |stars|
      invariant checked <==> update && first < i
      invariant forall k :: 0 <= k < i ==>
        stars'[order[k]] == Visit(stars[order[k]], update && k == first, draws[k])
      invariant forall k :: i <= k < |order| ==> stars'[order[k]] == stars[order[k]]
    {
      var idx := order[i];
      var star := stars'[idx];
      if update {
        if !checked && !visibleStars && star.visible {
          star := star.(visible := false);
          checked := true;
        } else if !checked && visibleStars && !star.visible {
          star := star.(visible := true);
          checked := true;
        }
      }
      if star.visible && Twinkles(draws[i]) {
        star := star.(alpha := StarAlpha(star.y as real) - draws[i].offset / 4.0);
      }
      forall k | 0 <= k < |order| && k != i
        ensures order[k] != idx
      {
        PermutationInjective(order, |stars|, k, i);
      }
      stars' := stars'[idx := star];
      i := i + 1;
    }
    PendingAfter(stars, stars', order, update, visibleStars, draws);
  }

  /** The visibility bookkeeping of a frame: on an update frame exactly the
      first pending star in walking order stops pending, otherwise nothing
      changes. */
  lemma PendingAfter(stars: seq<Star>, stars': seq<Star>, order: seq<int>, update: bool, want: bool,
                     draws: seq<TwinkleDraw>)
    requires Permutation(order, |stars|) && |stars'| == |stars| && |draws| == |order|
    requires var first := FirstMismatch(stars, order, want, 0);
      forall k :: 0 <= k < |order| ==> stars'[order[k]] == Visit(stars[order[k]], update && k == first, draws[k])
    ensures !update ==> Pending(stars', want) == Pending(stars, want)
    ensures update && |Pending(stars, want)| > 0 ==> |Pending(stars', want)| == |Pending(stars, want)| - 1
    ensures update && |Pending(stars, want)| == 0 ==> |Pending(stars', want)| == 0
  {
    var first := FirstMismatch(stars, order, want, 0);
    var chosen := if update && first < |order| then {order[first]} else {};
    var before, after := Pending(stars, want), Pending(stars', want);
    PendingMinusChosen(stars, stars', order, update, want, draws);
    assert after == before - chosen by {
      forall i | 0 <= i < |stars|
        ensures i in after <==> i in before - chosen
      {
      }
    }
    if !update {
      assert chosen == {};
    } else if |before| > 0 {
      var i :| i in before;
      PermutationCovers(order, |stars|, i);
      assert first < |order|;
      assert order[first] in before;
      assert chosen == {order[first]};
    }
  }

  lemma PendingMinusChosen(stars: seq<Star>, stars': seq<Star>, order: seq<int>, update: bool, want: bool,
                           draws: seq<TwinkleDraw>)
    requires Permutation(order, |stars|) && |stars'| == |stars| && |draws| == |order|
    requires var first := FirstMismatch(stars, order, want, 0);
      forall k :: 0 <= k < |order| ==> stars'[order[k]] == Visit(stars[order[k]], update && k == first, draws[k])
    ensures var first := FirstMismatch(stars, order, want, 0);
      forall i :: 0 <= i < |stars| ==>
        (stars'[i].visible != want) == (stars[i].visible != want && !(update && first < |order| && i == order[first]))
  {
    var first := FirstMismatch(stars, order, want, 0);
    var n := |stars|;
    forall i | 0 <= i < n
      ensures (stars'[i].visible != want) == (stars[i].visible != want && !(update && first < |order| && i == order[first]))
    {
      PermutationCovers(order, n, i);
      var k :| 0 <= k < |order| && order[k] == i;
      if update && first < |order| {
        PermutationInjective(order, n, k, first);
      }
    }
  }
}
