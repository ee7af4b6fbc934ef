/**
 * data/model/skyLayer.js: the twinkling stars and the shooting stars of the
 * night sky. Every random draw a frame makes is a parameter.
 */
module SkyLayer {
  import opened Utils
  import opened Canvas
  import Sprite
  import AnimatedSprite
  import Config
  import SpliceLoop

  const StarSprites: seq<string> := ["assets/img/star1.png", "assets/img/star2.png", "assets/img/star3.png"]

  const ShootingStarSprites: seq<string> := [
    "assets/img/shooting_star/1.png",
    "assets/img/shooting_star/2.png",
    "assets/img/shooting_star/3.png",
    "assets/img/shooting_star/4.png",
    "assets/img/shooting_star/5.png"
  ]

  /** Number of updates a shooting star lives for (`ShootingStar.SPRITES.length`). */
  const Lifetime: nat := |ShootingStarSprites|

  /** `new Star(x, y)`, `rFile` and `rMode` being the draws behind its sprite
      choice and behind `randomFloat(0.01, 0.5)`. That random number is the
      fifth constructor argument, which Sprite binds to `mode`; the alpha
      keeps its default 1.0. */
  function NewStar(x: real, y: real, rFile: real, rMode: real): (s: Sprite.Sprite)
    ensures s.rect.originalAlpha == 1.0 && s.rect.alpha == 1.0
    ensures s.rect.centered && s.rect.x == x && s.rect.y == y
    ensures s.mode == Num(RandomFloat(0.01, 0.5, rMode))
    ensures IsDraw(rFile) ==> s.image in StarSprites
  {
    var i := RandomInt(0, |StarSprites|, rFile);
    var file := if 0 <= i < |StarSprites| then StarSprites[i] else "undefined";
    Sprite.New(x, y, file, true, Num(RandomFloat(0.01, 0.5, rMode)))
  }

  /** The two draws behind one `Star.update()`: the 1-in-50 gate, and the
      offset drawn only when the gate opens. */
  datatype Twinkle = Twinkle(gate: real, offset: real)

  predicate Fires(t: Twinkle) {
    RandomInt(0, 50, t.gate) == 0
  }

  /** `Star.update()`: on a 1-in-50 draw the alpha is reset to the original
      alpha jittered by [-0.1, 0.1) and clamped to [0.1, 1.0]. */
  function UpdateStar(s: Sprite.Sprite, t: Twinkle): (s': Sprite.Sprite)
    ensures s'.rect.(alpha := s.rect.alpha) == s.rect
    ensures s'.image == s.image && s'.mode == s.mode && s'.orientation == s.orientation
    ensures !Fires(t) ==> s' == s
    ensures Fires(t) && IsDraw(t.offset) ==>
      && 0.1 <= s'.rect.alpha <= 1.0
      && Clamp(s.rect.originalAlpha - 0.1, 0.1, 1.0) <= s'.rect.alpha <= Clamp(s.rect.originalAlpha + 0.1, 0.1, 1.0)
  {
    if Fires(t) then
      var a := s.rect.originalAlpha + RandomFloat(-0.1, 0.1, t.offset);
      ClampMonotone(s.rect.originalAlpha - 0.1, a, 0.1, 1.0);
      ClampMonotone(a, s.rect.originalAlpha + 0.1, 0.1, 1.0);
      s.(rect := s.rect.(alpha := Clamp(a, 0.1, 1.0)))
    else s
  }

  /** The gate opens exactly for draws below 1/50. */
  lemma FiresIff(t: Twinkle)
    requires IsDraw(t.gate)
    ensures Fires(t) <==> t.gate < 0.02
  {
    RandomIntZero(50, t.gate);
  }

  /** Because the original alpha of a constructed star is 1.0, a twinkle
      always leaves it in [0.9, 1.0]. */
  lemma ConstructedStarTwinkle(x: real, y: real, rFile: real, rMode: real, t: Twinkle)
    requires IsDraw(t.offset) && Fires(t)
    ensures 0.9 <= UpdateStar(NewStar(x, y, rFile, rMode), t).rect.alpha <= 1.0
  {
  }

  datatype ShootingStar = ShootingStar(anim: AnimatedSprite.AnimatedSprite, updateCounter: nat)

  predicate Animating(s: ShootingStar) {
    AnimatedSprite.Valid(s.anim)
  }

  /** `new ShootingStar(x, y)`. */
  function NewShootingStar(x: int, y: int): (s: ShootingStar)
    ensures Animating(s) && s.updateCounter == 0
    ensures s.anim.frames == ShootingStarSprites && s.anim.currentIndex == 0
    ensures s.anim.base.rect.x == x as real && s.anim.base.rect.y == y as real
  {
    ShootingStar(AnimatedSprite.New(x as real, y as real, ShootingStarSprites), 0)
  }

  /** `ShootingStar.update()`: next frame, one more update counted. */
  function UpdateShootingStar(s: ShootingStar): (s': ShootingStar)
    requires Animating(s)
    ensures Animating(s')
    ensures s'.updateCounter == s.updateCounter + 1
    ensures s'.anim == AnimatedSprite.Update(s.anim)
  {
    ShootingStar(AnimatedSprite.Update(s.anim), s.updateCounter + 1)
  }

  /** A shooting star that can still be updated; every constructed one is. */
  type LiveShootingStar = s: ShootingStar | Animating(s) witness NewShootingStar(0, 0)

  /** What the loop body does to each visited shooting star. */
  function Step(s: LiveShootingStar): (s': LiveShootingStar)
    ensures s'.updateCounter == s.updateCounter + 1
  {
    UpdateShootingStar(s)
  }

  predicate Finished(s: LiveShootingStar) {
    s.updateCounter >= Lifetime
  }

  predicate AllYoung(a: seq<LiveShootingStar>) {
    forall k :: 0 <= k < |a| ==> a[k].updateCounter < Lifetime
  }

  predicate Young(s: LiveShootingStar) {
    s.updateCounter < Lifetime
  }

  /** What one pass of the loop over the shooting stars leaves behind: each
      visited star is updated and, once finished, spliced out, which also
      spares its successor that frame. */
  function Sweep(a: seq<LiveShootingStar>): (out: seq<LiveShootingStar>)
    ensures |out| <= |a|
  {
    SpliceLoop.Sweep(a, Step, Finished)
  }

  /** No shooting star survives a frame with a full update count. */
  lemma SweepKeepsYoung(a: seq<LiveShootingStar>)
    requires AllYoung(a)
    ensures AllYoung(Sweep(a))
  {
    SpliceLoop.SweepPreserves(a, Step, Finished, Young);
  }

  /** The skip, on the smallest input that shows it: when the first of two
      shooting stars finishes, the second one is neither updated nor removed
      in that frame, even if it is one update from finishing as well. */
  lemma SplicedSuccessorSkipped(first: LiveShootingStar, second: LiveShootingStar)
    requires first.updateCounter == Lifetime - 1 && second.updateCounter == Lifetime - 1
    ensures Sweep([first, second]) == [second]
  {
  }

  /** k updates of a new shooting star count k; it is finished exactly from
      the fifth on. */
  function UpdatedTimes(s: LiveShootingStar, k: nat): (s': LiveShootingStar)
    ensures s'.updateCounter == s.updateCounter + k
    decreases k
  {
    if k == 0 then s else UpdatedTimes(Step(s), k - 1)
  }

  lemma ShootingStarLifetime(x: int, y: int, k: nat)
    ensures Finished(UpdatedTimes(NewShootingStar(x, y), k)) <==> k >= 5
  {
  }

  /** The draws of one frame: one twinkle per star, the spawn gate and the
      spawn position. */
  datatype SkyDraws = SkyDraws(twinkles: seq<Twinkle>, spawn: real, x: real, y: real)

  datatype SkyLayer = SkyLayer(stars: seq<Sprite.Sprite>, shootingStars: seq<LiveShootingStar>)

  /** The shooting star a frame spawns, if any: only when the stars are
      being drawn (dawn alpha at most 0.3), the 1-in-1000 draw hits and the
      dawn alpha is at most 0. */
  function Spawned(k: Config.Constants, dawnAlpha: real, d: SkyDraws): (o: seq<LiveShootingStar>)
    ensures |o| <= 1
    ensures |o| == 1 ==> dawnAlpha <= 0.0
    ensures |o| == 1 && IsDraw(d.x) && IsDraw(d.y) && k.width > 0 && k.seaLevel > 50 ==>
      var r := o[0].anim.base.rect;
      && o[0].updateCounter == 0
      && 0.0 <= r.x < k.width as real && r.x == r.x.Floor as real
      && 0.0 <= r.y < (k.seaLevel - 50) as real && r.y == r.y.Floor as real
  {
    if dawnAlpha <= 0.3 && RandomInt(0, 1000, d.spawn) == 0 && dawnAlpha <= 0.0 then
      [NewShootingStar(RandomInt(0, k.width, d.x), RandomInt(0, k.seaLevel - 50, d.y))]
    else []
  }

  /** `updateAndDisplay(ctx, canvas, sunAltitude, dawnAlpha)` without its
      drawing: stars twinkle while dawn alpha is at most 0.3, at most one
      shooting star spawns, then every shooting star is updated and finished
      ones are spliced out. */
  method UpdateAndDisplay(layer: SkyLayer, k: Config.Constants, dawnAlpha: real, d: SkyDraws)
    returns (next: SkyLayer)
    requires |d.twinkles| == |layer.stars|
    ensures dawnAlpha > 0.3 ==> next.stars == layer.stars
    ensures dawnAlpha <= 0.3 ==> |next.stars| == |layer.stars|
    ensures dawnAlpha <= 0.3 ==>
      forall i :: 0 <= i < |layer.stars| ==> next.stars[i] == UpdateStar(layer.stars[i], d.twinkles[i])
    ensures next.shootingStars == Sweep(layer.shootingStars + Spawned(k, dawnAlpha, d))
    ensures |next.shootingStars| <= |layer.shootingStars| + 1
    ensures AllYoung(layer.shootingStars) ==> AllYoung(next.shootingStars)
  {
    var stars := layer.stars;
    if dawnAlpha <= 0.3 {
      stars := seq(|layer.stars|, i requires 0 <= i < |layer.stars| => UpdateStar(layer.stars[i], d.twinkles[i]));
    }
    var pending := layer.shootingStars + Spawned(k, dawnAlpha, d);
    var shooting := SpliceLoop.SpliceWhileIterating(pending, Step, Finished);
    if AllYoung(layer.shootingStars) {
      assert AllYoung(pending);
      SweepKeepsYoung(pending);
    }
    next := SkyLayer(stars, shooting);
  }
}
