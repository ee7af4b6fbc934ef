/**
 * main.js, the ticker callback: one frame of the scene. The clock, the sine
 * and cosine of the day angle, the date fields, the sampled sky colour and
 * every random draw of the frame are inputs; the PIXI drawing and the sky
 * texture are not modelled.
 */
module MainFrame {
  import opened Utils
  import MainDrift
  import MainStars
  import MainCelestial
  import MainColor

  datatype Scene = Scene(boats: seq<MainDrift.Boat>, clouds: seq<MainDrift.Cloud>,
                         stars: seq<MainStars.Star>, order: seq<int>,
                         shootingStars: seq<MainCelestial.ShootingStar>, counter: nat)

  /** What a frame reads from the outside world. */
  datatype Input = Input(
    now: real, lastMidnight: real, nextMidnight: real,
    sin: real, cos: real,
    day: int, month: int, year: int,
    spawnGate: real, spawnX: real, spawnY: real,
    twinkles: seq<MainStars.TwinkleDraw>,
    bottomColor: MainColor.Pixel)

  /** What a frame shows besides the scene: the sun and moon, the moon's
      phase and the front group's brightness. */
  datatype View = View(sky: MainCelestial.Sky, moonPhase: int, brightness: Option<real>)

  /** The scene the start-up code leaves: `rand_star_indexes` a permutation. */
  predicate Ready(s: Scene) {
    MainStars.Permutation(s.order, |s.stars|)
  }

  method Tick(s: Scene, world: Input) returns (s': Scene, v: View)
    requires Ready(s)
    requires world.lastMidnight < world.nextMidnight
    requires |world.twinkles| == |s.order| && MainStars.Draws(world.twinkles)
    ensures Ready(s') && s'.order == s.order && s'.counter == s.counter + 1
    ensures s'.boats == MainDrift.UpdateBoats(s.boats) && s'.clouds == MainDrift.UpdateClouds(s.clouds)
    ensures var p := MainCelestial.DayProgression(world.now, world.lastMidnight, world.nextMidnight);
      var out := MainCelestial.StarsOut(p);
      && (s.counter % MainStars.AppearSpeed != 0 ==> MainStars.Pending(s'.stars, out) == MainStars.Pending(s.stars, out))
      && (s.counter % MainStars.AppearSpeed == 0 && |MainStars.Pending(s.stars, out)| > 0 ==>
            |MainStars.Pending(s'.stars, out)| == |MainStars.Pending(s.stars, out)| - 1)
      && (|s'.shootingStars| == |s.shootingStars| + 1 <==> out && MainCelestial.SpawnDraw(world.spawnGate))
    ensures |s.shootingStars| <= |s'.shootingStars| <= |s.shootingStars| + 1 && s'.shootingStars[..|s.shootingStars|] == s.shootingStars
    ensures var out := MainCelestial.StarsOut(MainCelestial.DayProgression(world.now, world.lastMidnight, world.nextMidnight));
      s'.shootingStars == s.shootingStars +
        match MainCelestial.SpawnShootingStar(out, world.spawnGate, world.spawnX, world.spawnY)
        case Some(x) => [x]
        case None => []
    ensures var out := MainCelestial.StarsOut(MainCelestial.DayProgression(world.now, world.lastMidnight, world.nextMidnight));
      var first := MainStars.FirstMismatch(s.stars, s.order, out, 0);
      && |s'.stars| == |s.stars|
      && forall k :: 0 <= k < |s.order| ==>
           s'.stars[s.order[k]] == MainStars.Visit(s.stars[s.order[k]], s.counter % MainStars.AppearSpeed == 0 && k == first, world.twinkles[k])
    ensures v.sky == MainCelestial.PlaceSunAndMoon(world.sin, world.cos)
    ensures v.moonPhase == MainCelestial.MoonPhase(world.day, world.month, world.year)
    ensures v.brightness == MainColor.Brightness(world.bottomColor)
    ensures v.sky.sunX + v.sky.moonX == MainCelestial.Width
    ensures MainColor.IsByte(world.bottomColor) ==> v.brightness.Some? && 0.0 <= v.brightness.value <= 1.0
    ensures MainCelestial.JulianDays(world.day, world.month, world.year) >= 0.0 ==> 0 <= v.moonPhase < 8
  {
    var p := MainCelestial.DayProgression(world.now, world.lastMidnight, world.nextMidnight);
    var boats := MainDrift.UpdateBoats(s.boats);
    var clouds := MainDrift.UpdateClouds(s.clouds);
    var out := MainCelestial.StarsOut(p);
    var shooting := s.shootingStars;
    var spawned := MainCelestial.SpawnShootingStar(out, world.spawnGate, world.spawnX, world.spawnY);
    if spawned.Some? {
      shooting := shooting + [spawned.value];
    }
    var stars := MainStars.UpdateStars(s.stars, s.order, world.twinkles, s.counter, out);
    var sky := MainCelestial.PlaceSunAndMoon(world.sin, world.cos);
    MainCelestial.SunMoonMirrored(world.sin, world.cos);
    MainCelestial.MoonPhaseInRange(world.day, world.month, world.year);
    var phase := MainCelestial.MoonPhase(world.day, world.month, world.year);
    s' := Scene(boats, clouds, stars, s.order, shooting, s.counter + 1);
    v := View(sky, phase, MainColor.Brightness(world.bottomColor));
  }
}
