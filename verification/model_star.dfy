/**
 * model/star.js: a star of the older canvas engine, which fades with the
 * night and twinkles once the night is complete. Its sprite class
 * (model/sprite.js) takes `(x, y, file, centered, alpha)`, so the random
 * number the constructor passes becomes the star's alpha and original alpha.
 */
module ModelStar {
  import opened Utils
  import Rect
  import SkyLayer

  const Sprites: seq<string> := ["assets/img/star1.png", "assets/img/star2.png"]

  datatype Star = Star(rect: Rect.Rect, image: string)

  /** `new Star(x, y)`, `rFile` and `rAlpha` being the draws behind the
      sprite choice and `randomFloat(0.01, 0.5)`. */
  function New(x: real, y: real, rFile: real, rAlpha: real): (s: Star)
    ensures s.rect.alpha == s.rect.originalAlpha
    ensures IsDraw(rAlpha) ==> 0.01 <= s.rect.originalAlpha < 0.5
    ensures IsDraw(rFile) ==> s.image in Sprites
    ensures s.rect.centered && s.rect.x == x && s.rect.y == y && s.rect.visible
  {
    var i := RandomInt(0, |Sprites|, rFile);
    var file := if 0 <= i < |Sprites| then Sprites[i] else "undefined";
    Star(Rect.New(x, y, 0.0, 0.0, Rect.DefaultColor, true, RandomFloat(0.01, 0.5, rAlpha)), file)
  }

  /** `update(globalAlpha)`: below full night the star is its original alpha
      scaled by the night's alpha; at full night a 1-in-50 draw jitters it
      around the original alpha within [0.1, 1.0]. The twinkle's draws are
      taken only at full night. */
  function Update(s: Star, globalAlpha: real, t: SkyLayer.Twinkle): (s': Star)
    ensures s'.rect.(alpha := s.rect.alpha) == s.rect && s'.image == s.image
    ensures globalAlpha < 1.0 ==> s'.rect.alpha == s.rect.originalAlpha * globalAlpha
    ensures globalAlpha >= 1.0 && !SkyLayer.Fires(t) ==> s' == s
    ensures globalAlpha >= 1.0 && SkyLayer.Fires(t) && IsDraw(t.offset) ==>
      && 0.1 <= s'.rect.alpha <= 1.0
      && Clamp(s.rect.originalAlpha - 0.1, 0.1, 1.0) <= s'.rect.alpha <= Clamp(s.rect.originalAlpha + 0.1, 0.1, 1.0)
  {
    if globalAlpha < 1.0 then s.(rect := s.rect.(alpha := s.rect.originalAlpha * globalAlpha))
    else if SkyLayer.Fires(t) && globalAlpha >= 1.0 then
      var a := s.rect.originalAlpha + RandomFloat(-0.1, 0.1, t.offset);
      ClampMonotone(s.rect.originalAlpha - 0.1, a, 0.1, 1.0);
      ClampMonotone(a, s.rect.originalAlpha + 0.1, 0.1, 1.0);
      s.(rect := s.rect.(alpha := Clamp(a, 0.1, 1.0)))
    else s
  }

  /** While the night is fading in or out, a star is never brighter than its
      original alpha, and is dark when the night alpha is 0. */
  lemma FadeNeverBrighter(s: Star, globalAlpha: real, t: SkyLayer.Twinkle)
    requires 0.0 <= globalAlpha < 1.0 && s.rect.originalAlpha >= 0.0
    ensures 0.0 <= Update(s, globalAlpha, t).rect.alpha <= s.rect.originalAlpha
    ensures globalAlpha == 0.0 ==> Update(s, globalAlpha, t).rect.alpha == 0.0
  {
    var o := s.rect.originalAlpha;
    MulNonNegative(o, 1.0 - globalAlpha);
    MulNonNegative(o, globalAlpha);
    assert o * (1.0 - globalAlpha) == o - o * globalAlpha;
  }

  /** The fade is a pure function of the night alpha: the draws do not matter
      and the alpha before does not matter. */
  lemma FadeDeterministic(s: Star, alpha: real, globalAlpha: real, t1: SkyLayer.Twinkle, t2: SkyLayer.Twinkle)
    requires globalAlpha < 1.0
    ensures Update(s, globalAlpha, t1) == Update(s.(rect := s.rect.(alpha := alpha)), globalAlpha, t2)
  {
  }

  /** Updates over any run of frames. */
  function Updates(s: Star, frames: seq<(real, SkyLayer.Twinkle)>): Star
    decreases |frames|
  {
    if |frames| == 0 then s else Updates(Update(s, frames[0].0, frames[0].1), frames[1..])
  }

  /** No run of frames changes a star's original alpha, so a constructed star
      keeps one in [0.01, 0.5) for ever. */
  lemma {:induction false} OriginalAlphaFixed(s: Star, frames: seq<(real, SkyLayer.Twinkle)>)
    ensures Updates(s, frames).rect.originalAlpha == s.rect.originalAlpha
    ensures Updates(s, frames).image == s.image
    decreases |frames|
  {
    if |frames| > 0 {
      OriginalAlphaFixed(Update(s, frames[0].0, frames[0].1), frames[1..]);
    }
  }
}
