/**
 * data/model/screen.js: one frame of the canvas. The frame nudges the
 * longitude, classifies the sun's altitude into day, night or sunset, places
 * the sun, and draws the sky, the sun, the sea and the tinted overlays of
 * that period. The ephemeris is not part of this model: the sun's altitude
 * and azimuth (in degrees) are inputs.
 */
module Screen {
  import opened Canvas
  import Sprite
  import Config

  /** Rows: day, night, sunset. Columns: sea tint, sky tint, overlay. */
  const BlendingFiles: seq<seq<string>> := [
    ["assets/img/day_color_sea.png", "assets/img/day_color_sky.png", "assets/img/day_overlay.png"],
    ["assets/img/night_color_sea.png", "assets/img/night_color_sky.png", "assets/img/night_overlay.png"],
    ["assets/img/sunset_color_sea.png", "assets/img/sunset_color_sky.png", "assets/img/sunset_overlay.png"]
  ]

  const Day: nat := 0
  const Night: nat := 1
  const Sunset: nat := 2

  const SeaTint: nat := 0
  const SkyTint: nat := 1
  const Overlay: nat := 2

  /** Longitude added on every frame. */
  const LongitudeStep: real := 0.5

  /** The period of the day for a sun altitude, as an index into the
      blending table: day above 2 degrees, night below -2, sunset between. */
  function PeriodOf(altitude: real): (p: nat)
    ensures p < |BlendingFiles|
    ensures p == Day <==> altitude > 2.0
    ensures p == Night <==> altitude < -2.0
    ensures p == Sunset <==> -2.0 <= altitude <= 2.0
  {
    if altitude > 2.0 then Day
    else if altitude < -2.0 then Night
    else Sunset
  }

  /** A higher sun never gives a darker period: night, then sunset, then day. */
  lemma PeriodMonotone(a: real, b: real)
    requires a <= b
    ensures PeriodOf(b) == Night ==> PeriodOf(a) == Night
    ensures PeriodOf(a) == Day ==> PeriodOf(b) == Day
  {
  }

  datatype Screen = Screen(sun: Sprite.Sprite, sky: Sprite.Sprite, sea: Sprite.Sprite,
                           blending: seq<seq<Sprite.Sprite>>)

  /** Three rows of three sprites, as the constructor builds them. */
  predicate WellFormed(s: Screen) {
    |s.blending| == 3 && forall i :: 0 <= i < 3 ==> |s.blending[i]| == 3
  }

  /** The constructor: a centred sun in the middle of the canvas, the sky at
      the origin, the sea on the sea line, and one sprite per blending file
      composited with "overlay". */
  function New(k: Config.Constants): (s: Screen)
    ensures WellFormed(s)
    ensures forall i, j :: 0 <= i < 3 && 0 <= j < 3 ==>
      s.blending[i][j] == Sprite.New(0.0, 0.0, BlendingFiles[i][j], false, Text("overlay"))
    ensures s.sun.rect.centered && s.sun.rect.x == k.width as real / 2.0 && s.sun.rect.y == k.height as real / 2.0
    ensures s.sea.rect.y == k.seaLevel as real && s.sky.rect.x == 0.0 && s.sky.rect.y == 0.0
  {
    var rows := seq(3, i requires 0 <= i < 3 =>
      seq(3, j requires 0 <= j < 3 => Sprite.New(0.0, 0.0, BlendingFiles[i][j], false, Text("overlay"))));
    Screen(Sprite.New(k.width as real / 2.0, k.height as real / 2.0, "assets/img/sun.png", true),
           Sprite.New(0.0, 0.0, "assets/img/sky.png"),
           Sprite.New(0.0, k.seaLevel as real, "assets/img/sea.png"),
           rows)
  }

  /** Where the sun is placed: across the canvas with the azimuth, and 1.5
      pixels above the sea line per degree of altitude. */
  function SunPosition(k: Config.Constants, altitude: real, azimuth: real): (p: (real, real))
    ensures p.1 == k.seaLevel as real <==> altitude == 0.0
    ensures (k.seaLevel as real - p.1) / 1.5 == altitude
    ensures azimuth == 0.0 ==> p.0 == 0.0
    ensures azimuth == 180.0 ==> p.0 == k.width as real
  {
    (k.width as real * azimuth / 180.0, k.seaLevel as real - altitude * 1.5)
  }

  /** The sun rises strictly with the altitude. */
  lemma SunHeight(k: Config.Constants, a: real, b: real, azimuth: real)
    ensures a < b ==> SunPosition(k, b, azimuth).1 < SunPosition(k, a, azimuth).1
  {
  }

  /** The images a list of sprites puts on the canvas, in order: the visible ones. */
  function Shown(ss: seq<Sprite.Sprite>): seq<string> {
    if |ss| == 0 then []
    else (if ss[0].rect.visible then [ss[0].image] else []) + Shown(ss[1..])
  }

  function Files(drawn: seq<Draw>): seq<string> {
    if |drawn| == 0 then []
    else (if drawn[0].Image? then [drawn[0].file] else []) + Files(drawn[1..])
  }

  lemma {:induction false} FilesAppend(a: seq<Draw>, b: seq<Draw>)
    ensures Files(a + b) == Files(a) + Files(b)
    decreases |a|
  {
    if |a| > 0 {
      assert (a + b)[1..] == a[1..] + b;
      FilesAppend(a[1..], b);
    } else {
      assert a + b == b;
    }
  }

  /** `display(ctx)` on each sprite in turn. */
  function DisplayAll(ss: seq<Sprite.Sprite>, ctx: Ctx): (c: Ctx)
    ensures Files(c.drawn) == Files(ctx.drawn) + Shown(ss)
    ensures c.flipped == ctx.flipped
    decreases |ss|
  {
    if |ss| == 0 then ctx
    else
      var c1 := Sprite.Display(ss[0], ctx).1;
      var head := if ss[0].rect.visible then [ss[0].image] else [];
      DisplayFiles(ss[0], ctx);
      assert Files(c1.drawn) == Files(ctx.drawn) + head && c1.flipped == ctx.flipped;
      assert Shown(ss) == head + Shown(ss[1..]);
      var c := DisplayAll(ss[1..], c1);
      assert Files(ctx.drawn) + head + Shown(ss[1..]) == Files(ctx.drawn) + Shown(ss);
      c
  }

  /** One sprite's display adds its image to the drawing when it is visible. */
  lemma DisplayFiles(s: Sprite.Sprite, ctx: Ctx)
    ensures Files(Sprite.Display(s, ctx).1.drawn) == Files(ctx.drawn) + (if s.rect.visible then [s.image] else [])
  {
    var c1 := Sprite.Display(s, ctx).1;
    if s.rect.visible {
      var d := c1.drawn[|c1.drawn| - 1];
      assert c1.drawn == ctx.drawn + [d];
      FilesAppend(ctx.drawn, [d]);
      assert Files([d]) == [s.image];
    }
  }

  /** `updateCanvas()` without the ephemeris and without the next frame
      request. `clearRect` starts an empty drawing. */
  function UpdateCanvas(s: Screen, c: Config.Config, k: Config.Constants,
                        altitude: real, azimuth: real, ctx: Ctx): (res: (Screen, Config.Config, Ctx))
    requires WellFormed(s)
    ensures res.1 == c.(long := c.long + LongitudeStep)
    ensures var (x, y) := SunPosition(k, altitude, azimuth);
      res.0 == s.(sun := Sprite.SetCoordinates(s.sun, x, y))
    ensures var p := PeriodOf(altitude);
      Files(res.2.drawn) == Shown([s.sky, s.blending[p][SkyTint], res.0.sun,
                                   s.sea, s.blending[p][SeaTint], s.blending[p][Overlay]])
  {
    var c' := c.(long := c.long + LongitudeStep);
    var p := PeriodOf(altitude);
    var (x, y) := SunPosition(k, altitude, azimuth);
    var sun := Sprite.SetCoordinates(s.sun, x, y);
    var drawing := DisplayAll([s.sky, s.blending[p][SkyTint], sun, s.sea, s.blending[p][SeaTint], s.blending[p][Overlay]],
                              ctx.(drawn := []));
    (s.(sun := sun), c', drawing)
  }

  /** On a freshly built screen every sprite is visible, so a frame draws the
      sky, the period's sky tint, the sun, the sea, the period's sea tint and
      the period's overlay. */
  lemma FrameDrawOrder(k: Config.Constants, c: Config.Config, altitude: real, azimuth: real, ctx: Ctx)
    ensures var p := PeriodOf(altitude);
      var res := UpdateCanvas(New(k), c, k, altitude, azimuth, ctx);
      Files(res.2.drawn) == ["assets/img/sky.png", BlendingFiles[p][SkyTint], "assets/img/sun.png",
                             "assets/img/sea.png", BlendingFiles[p][SeaTint], BlendingFiles[p][Overlay]]
  {
    var s := New(k);
    var p := PeriodOf(altitude);
    var res := UpdateCanvas(s, c, k, altitude, azimuth, ctx);
    var ss := [s.sky, s.blending[p][SkyTint], res.0.sun, s.sea, s.blending[p][SeaTint], s.blending[p][Overlay]];
    assert forall i :: 0 <= i < 6 ==> ss[i].rect.visible;
    ShownAllVisible(ss);
  }

  lemma {:induction false} ShownAllVisible(ss: seq<Sprite.Sprite>)
    requires forall i :: 0 <= i < |ss| ==> ss[i].rect.visible
    ensures Shown(ss) == seq(|ss|, i requires 0 <= i < |ss| => ss[i].image)
    decreases |ss|
  {
    if |ss| > 0 {
      ShownAllVisible(ss[1..]);
    }
  }

  /** `n` frames, given the sun's altitude and azimuth seen by each. */
  function Frames(s: Screen, c: Config.Config, k: Config.Constants, suns: seq<(real, real)>): (res: (Screen, Config.Config))
    requires WellFormed(s)
    ensures WellFormed(res.0)
    decreases |suns|
  {
    if |suns| == 0 then (s, c)
    else
      var r := UpdateCanvas(s, c, k, suns[0].0, suns[0].1, Ctx(1.0, SourceOver, false, "", []));
      Frames(r.0, r.1, k, suns[1..])
  }

  /** The longitude grows by exactly 0.5 a frame, without wrapping, and
      nothing else in the configuration changes. */
  lemma {:induction false} LongitudeDrift(s: Screen, c: Config.Config, k: Config.Constants, suns: seq<(real, real)>)
    requires WellFormed(s)
    ensures var c' := Frames(s, c, k, suns).1;
      c' == c.(long := c.long + LongitudeStep * |suns| as real)
    decreases |suns|
  {
    if |suns| > 0 {
      var r := UpdateCanvas(s, c, k, suns[0].0, suns[0].1, Ctx(1.0, SourceOver, false, "", []));
      LongitudeDrift(r.0, r.1, k, suns[1..]);
    }
  }
}
