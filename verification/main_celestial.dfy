/**
 * main.js, the sky clock: how far the day has gone, whether stars (and
 * shooting stars) are out, where the sun and the moon stand, and which
 * phase the moon shows. The clock is an input: the current time with the
 * last and next midnights, or the calendar fields of the date; so are the
 * sine and cosine of the day angle and the random draws.
 */
module MainCelestial {
  import opened Utils
  import MainStars

  /** `SUNRISE_PROGRESSION`, `NIGHT_PROGRESSION` and `GRAD_TRANSITION`. */
  const SunriseProgression: real := 0.24
  const NightProgression: real := 0.77
  const GradTransition: real := 0.03

  const Width: real := 256.0
  const SeaLevel: real := 120.0

  /** `dayProgression(date)`: the fraction of the day elapsed at time `t`
      between the last midnight `a` and the next one `b`. */
  function DayProgression(t: real, a: real, b: real): (p: real)
    requires a < b
    ensures a <= t < b ==> 0.0 <= p < 1.0
    ensures t == a <==> p == 0.0
  {
    FractionBelowOne(t - a, b - a);
    (t - a) / (b - a)
  }

  lemma FractionBelowOne(x: real, d: real)
    requires d > 0.0
    ensures 0.0 <= x < d ==> 0.0 <= x / d < 1.0
  {
    QuotientBounds(x, d, 0.0, 1.0);
  }

  /** Later in the day is further in the day. */
  lemma DayProgressionMonotone(t: real, t': real, a: real, b: real)
    requires a < b && t < t'
    ensures DayProgression(t, a, b) < DayProgression(t', a, b)
  {
    var d := b - a;
    assert (t' - a) / d - (t - a) / d == (t' - t) / d;
  }

  /** `visibleStars`: from the end of the sunset to the start of sunrise,
      with the gradient's transition taken off both ends. */
  predicate StarsOut(p: real) {
    p >= NightProgression - GradTransition || p <= SunriseProgression - GradTransition
  }

  /** Stars are out exactly before 0.21 and from 0.74 of the day on. */
  lemma StarsOutWindow(p: real)
    ensures StarsOut(p) <==> p <= 0.21 || p >= 0.74
  {
  }

  /** A shooting star just spawned: position and alpha. */
  datatype ShootingStar = ShootingStar(x: int, y: int, alpha: real)

  /** `!~~(Math.random() * 200)`: one frame in 200. */
  predicate SpawnDraw(r: real) {
    Trunc(r * 200.0) == 0
  }

  /** The spawn block of a frame, given the draws of the test and the
      position. */
  function SpawnShootingStar(starsOut: bool, gate: real, rx: real, ry: real): (s: Option<ShootingStar>)
    ensures s.Some? <==> starsOut && SpawnDraw(gate)
    ensures s.Some? && IsDraw(rx) ==> 0 <= s.value.x < 256
    ensures s.Some? && IsDraw(ry) ==> 0 <= s.value.y < 96 && 0.0 < s.value.alpha <= 1.0
    ensures s.Some? ==> s.value.alpha == MainStars.StarAlpha(s.value.y as real)
  {
    if starsOut && SpawnDraw(gate) then
      var y := Trunc(ry * MainStars.SpawnHeight);
      ScaledDraw(rx, Width);
      ScaledDraw(ry, MainStars.SpawnHeight);
      MainStars.StarAlphaShape(y as real, y as real);
      Some(ShootingStar(Trunc(rx * Width), y, MainStars.StarAlpha(y as real)))
    else None
  }

  /** For a draw, the spawn test passes exactly when the draw is below 1/200. */
  lemma SpawnOdds(r: real)
    requires IsDraw(r)
    ensures SpawnDraw(r) <==> r < 1.0 / 200.0
  {
    ScaledDraw(r, 200.0);
  }

  /** Sun and moon for a day angle whose sine is `s` and cosine is `c`. */
  datatype Sky = Sky(sunX: real, sunY: real, moonX: real, moonY: real, moonAlpha: real)

  function PlaceSunAndMoon(s: real, c: real): (k: Sky)
    ensures k.sunX + k.moonX == Width && k.sunY + k.moonY == 2.0 * SeaLevel
    ensures k.moonAlpha == MainStars.StarAlpha(k.moonY)
  {
    var sunX := 10.0 + (Width - 20.0) * (1.0 - (1.0 + s) / 2.0);
    var sunY := SeaLevel + (SeaLevel - 10.0) * c;
    var moonX := 10.0 + (Width - 20.0) * ((1.0 + s) / 2.0);
    var moonY := SeaLevel - (SeaLevel - 10.0) * c;
    Sky(sunX, sunY, moonX, moonY, MainStars.StarAlpha(moonY))
  }

  /** The moon stands point-mirrored to the sun about the middle of the sea
      line, both stay within 10 pixels of the sides, and whenever the sun is
      under the sea line the moon is above it. */
  lemma SunMoonMirrored(s: real, c: real)
    ensures var k := PlaceSunAndMoon(s, c);
      k.sunX + k.moonX == Width && k.sunY + k.moonY == 2.0 * SeaLevel
    ensures var k := PlaceSunAndMoon(s, c);
      -1.0 <= s <= 1.0 ==> 10.0 <= k.sunX <= 246.0 && 10.0 <= k.moonX <= 246.0
    ensures var k := PlaceSunAndMoon(s, c);
      -1.0 <= c <= 1.0 ==> 10.0 <= k.sunY <= 230.0 && 10.0 <= k.moonY <= 230.0
    ensures var k := PlaceSunAndMoon(s, c);
      (k.sunY > SeaLevel <==> k.moonY < SeaLevel) && k.moonAlpha == (MainStars.SpawnHeight - k.moonY) / MainStars.SpawnHeight
  {
  }

  /** The elapsed days of the moon-phase formula, for the calendar fields
      `getDate()`, the zero-based `getMonth()` and `getFullYear()`. The
      formula was written for months numbered from 1, so January, February
      and March are moved to the previous year. */
  function JulianDays(day: int, month: int, year: int): real {
    var year' := if month < 3 then year - 1 else year;
    var month' := (if month < 3 then month + 12 else month) + 1;
    365.25 * year' as real + 30.6 * month' as real + day as real - 694039.09
  }

  /** The length of a lunation, in days. */
  const Lunation: real := 29.5305882

  /** The phase sprite for `d` elapsed days: the fraction of the current
      lunation, `parseInt` of the quotient taken off, scaled to eighths and
      rounded, with 8 folded back to 0. */
  function PhaseOfDays(d: real): (b: int)
    ensures b < 8
    ensures d >= 0.0 ==> 0 <= b
  {
    var jd := d / Lunation;
    assert d >= 0.0 ==> jd >= 0.0;
    var frac := jd - Trunc(jd) as real;
    var b := Round(frac * 8.0);
    if b >= 8 then 0 else b
  }

  /** `getMoonPhase(date)`. */
  function MoonPhase(day: int, month: int, year: int): (b: int)
    ensures b < 8
    ensures JulianDays(day, month, year) >= 0.0 ==> 0 <= b
  {
    PhaseOfDays(JulianDays(day, month, year))
  }

  /** From the formula's epoch on, the phase is one of the eight sprites. */
  lemma MoonPhaseInRange(day: int, month: int, year: int)
    ensures JulianDays(day, month, year) >= 0.0 ==> 0 <= MoonPhase(day, month, year) < 8
  {
    var jd := JulianDays(day, month, year) / Lunation;
    if JulianDays(day, month, year) >= 0.0 {
      assert jd >= 0.0;
    }
  }

  /** Before the epoch `parseInt` truncates toward zero, the fraction is
      negative, and so is the phase: 1 January 1000 gives -6. */
  lemma MoonPhaseBeforeEpoch()
    ensures JulianDays(1, 0, 1000) < 0.0 && MoonPhase(1, 0, 1000) == -6
  {
    var jd := JulianDays(1, 0, 1000) / Lunation;
    assert JulianDays(1, 0, 1000) == -328755.54;
    QuotientBounds(JulianDays(1, 0, 1000), Lunation, -11133.0, -11132.0);
    assert -11133.0 <= jd < -11132.0;
    assert Trunc(jd) == -11132;
  }

  /** Whole lunations later the phase is the same. */
  lemma PhaseOfDaysPeriodic(d: real, n: nat)
    requires d >= 0.0
    ensures PhaseOfDays(d + n as real * Lunation) == PhaseOfDays(d)
  {
    var jd := d / Lunation;
    assert (d + n as real * Lunation) / Lunation == jd + n as real;
    assert Trunc(jd + n as real) == Trunc(jd) + n;
  }

  /** A date whole lunations after another from the epoch on shows the same
      phase. */
  lemma MoonPhasePeriodic(day: int, month: int, year: int, n: nat)
    requires JulianDays(day, month, year) >= 0.0
    ensures PhaseOfDays(JulianDays(day, month, year) + n as real * Lunation) == PhaseOfDays(JulianDays(day, month, year))
    ensures PhaseOfDays(JulianDays(day, month, year) + n as real * Lunation) == MoonPhase(day, month, year)
  {
    PhaseOfDaysPeriodic(JulianDays(day, month, year), n);
  }
}
