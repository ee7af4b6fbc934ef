/**
 * model/screen.js: the older engine's frame. The sun's altitude (in
 * degrees) is an input, since the ephemeris is not part of this model. It
 * sets how much of the dawn tint shows, where the sun sits, and, through
 * model/skyLayer.js, how bright the stars are below the horizon.
 */
module ModelScreen {
  import opened Utils
  import Rect
  import Config
  import ModelUi
  import ModelStar
  import SkyLayer

  /** Pixels the sun rises per degree of altitude. */
  const SunRise: real := 8.0

  /** How much of the dawn shows, from 0 (hidden) to 1 (fully visible):
      `clamp(2 - |altitude|, 0, 1)`. */
  function DawnAlpha(altitude: real): (a: real)
    ensures 0.0 <= a <= 1.0
    ensures Abs(altitude) <= 1.0 ==> a == 1.0
    ensures Abs(altitude) >= 2.0 ==> a == 0.0
    ensures 1.0 < Abs(altitude) < 2.0 ==> a == 2.0 - Abs(altitude)
  {
    Clamp(2.0 - Abs(altitude), 0.0, 1.0)
  }

  /** The dawn looks the same at the same height above or below the horizon. */
  lemma DawnAlphaSymmetric(altitude: real)
    ensures DawnAlpha(-altitude) == DawnAlpha(altitude)
  {
    assert Abs(-altitude) == Abs(altitude);
  }

  /** The dawn only fades as the sun moves away from the horizon. */
  lemma DawnAlphaFades(a: real, b: real)
    requires Abs(a) <= Abs(b)
    ensures DawnAlpha(b) <= DawnAlpha(a)
  {
    ClampMonotone(2.0 - Abs(b), 2.0 - Abs(a), 0.0, 1.0);
  }

  /** `this.sun.update(this.sun.x, SEALEVEL - sunAltitude * 8)`. */
  function PlaceSun(sun: Rect.Rect, k: Config.Constants, altitude: real): (sun': Rect.Rect)
    ensures sun'.x == sun.x
    ensures sun'.(y := sun.y) == sun
  {
    Rect.Update(sun, sun.x, k.seaLevel as real - altitude * SunRise)
  }

  /** The sun's height tells the altitude back, and placing it twice for the
      same altitude is placing it once. */
  lemma PlaceSunFaithful(sun: Rect.Rect, k: Config.Constants, altitude: real)
    ensures (k.seaLevel as real - PlaceSun(sun, k, altitude).y) / SunRise == altitude
    ensures PlaceSun(PlaceSun(sun, k, altitude), k, altitude) == PlaceSun(sun, k, altitude)
  {
  }

  /** The star pass of the sky layer's `display`: below the horizon every
      star updates with the night's alpha `1 - dawnAlpha`, taking the draws
      `twinkles[i]`; from the horizon up the stars are left as they are. */
  function NightStars(stars: seq<ModelStar.Star>, altitude: real, twinkles: seq<SkyLayer.Twinkle>)
    : (stars': seq<ModelStar.Star>)
    requires |twinkles| == |stars|
    ensures |stars'| == |stars|
    ensures altitude >= 0.0 ==> stars' == stars
    ensures forall i :: 0 <= i < |stars| ==>
      stars'[i].image == stars[i].image && stars'[i].rect.(alpha := stars[i].rect.alpha) == stars[i].rect
  {
    if altitude < 0.0 then
      seq(|stars|, i requires 0 <= i < |stars| => ModelStar.Update(stars[i], 1.0 - DawnAlpha(altitude), twinkles[i]))
    else stars
  }

  /** Just below the horizon the dawn is full, so every star is dark. */
  lemma StarsDarkAtDusk(stars: seq<ModelStar.Star>, altitude: real, twinkles: seq<SkyLayer.Twinkle>)
    requires |twinkles| == |stars| && -1.0 <= altitude < 0.0
    ensures forall i :: 0 <= i < |stars| ==> NightStars(stars, altitude, twinkles)[i].rect.alpha == 0.0
  {
    assert 1.0 - DawnAlpha(altitude) == 0.0;
  }

  /** Between one and two degrees below the horizon the stars come out in
      proportion to the depth: each shows `-1 - altitude` of its original alpha. */
  lemma StarsFadeIn(stars: seq<ModelStar.Star>, altitude: real, twinkles: seq<SkyLayer.Twinkle>)
    requires |twinkles| == |stars| && -2.0 < altitude < -1.0
    ensures forall i :: 0 <= i < |stars| ==>
      NightStars(stars, altitude, twinkles)[i].rect.alpha == stars[i].rect.originalAlpha * (-1.0 - altitude)
  {
    assert 1.0 - DawnAlpha(altitude) == -1.0 - altitude;
  }

  /** Two degrees or more below the horizon the night is complete: a star
      either keeps its alpha or twinkles within [0.1, 1.0]. */
  lemma StarsTwinkleAtNight(stars: seq<ModelStar.Star>, altitude: real, twinkles: seq<SkyLayer.Twinkle>)
    requires |twinkles| == |stars| && altitude <= -2.0
    requires forall i :: 0 <= i < |twinkles| ==> IsDraw(twinkles[i].offset)
    ensures forall i :: 0 <= i < |stars| ==>
      var s := NightStars(stars, altitude, twinkles)[i];
      s == stars[i] || 0.1 <= s.rect.alpha <= 1.0
  {
    assert 1.0 - DawnAlpha(altitude) == 1.0;
  }

  /** What a frame of `updateCanvas()` leaves behind: the dawn alpha, the
      placed sun, the sky layer's stars and the user interface. */
  datatype Frame = Frame(dawn: real, sun: Rect.Rect, stars: seq<ModelStar.Star>, ui: ModelUi.ModelUi)

  /** `updateCanvas()` without its drawing. */
  function UpdateCanvas(sun: Rect.Rect, stars: seq<ModelStar.Star>, ui: ModelUi.ModelUi, k: Config.Constants,
                        altitude: real, twinkles: seq<SkyLayer.Twinkle>): (f: Frame)
    requires |twinkles| == |stars|
    ensures 0.0 <= f.dawn <= 1.0
    ensures f.sun.x == sun.x && f.sun.y == k.seaLevel as real - SunRise * altitude
    ensures |f.stars| == |stars|
    ensures altitude < 0.0 ==> forall i :: 0 <= i < |stars| ==>
      f.stars[i] == ModelStar.Update(stars[i], 1.0 - f.dawn, twinkles[i])
    ensures altitude >= 0.0 ==> f.stars == stars
    ensures ModelUi.Valid(ui) ==> ModelUi.Valid(f.ui)
  {
    ModelUi.ValidKept(ui);
    Frame(DawnAlpha(altitude), PlaceSun(sun, k, altitude), NightStars(stars, altitude, twinkles), ModelUi.Display(ui))
  }
}
