/**
 * data/config.js: the shared position and sound settings, and the scene
 * constants (`Constants.*`) that the data/ classes read. The constants are
 * not part of this model's sources, so they are a record every step takes.
 */
module Config {

  /** Scene constants: canvas size, sea level, the margin beyond which boats
      are dropped, and the sound volume used when sound is on. */
  datatype Constants = Constants(width: int, height: int, seaLevel: int, outOfBound: real, volume: real)

  const DefaultLat: real := 48.85341
  const DefaultLong: real := 2.3488

  /** The static fields of `Config`. `watching` stands for a live geolocation
      watch (`Config.positionId` not yet cleared); `volume` is the audio
      element's volume. */
  datatype Config = Config(lat: real, long: real, positionSet: bool, watching: bool, volume: real)

  /** The class's initial state, for an audio element whose volume is `volume`. */
  function Initial(volume: real): (c: Config)
    ensures c.lat == 48.85341 && c.long == 2.3488
    ensures !c.positionSet && !c.watching && c.volume == volume
  {
    Config(DefaultLat, DefaultLong, false, false, volume)
  }

  /** `toggleVolume()`: silent becomes `level`, anything else becomes silent;
      the result says whether sound is now on. */
  function ToggleVolume(c: Config, level: real): (res: (Config, bool))
    ensures c.volume == 0.0 ==> res.0.volume == level
    ensures c.volume != 0.0 ==> res.0.volume == 0.0
    ensures res.1 <==> res.0.volume != 0.0
    ensures res.0.(volume := c.volume) == c
  {
    var v := if c.volume == 0.0 then level else 0.0;
    (c.(volume := v), v != 0.0)
  }

  /** Toggling twice restores silence, and restores `level` when it is not 0. */
  lemma ToggleVolumeTwice(c: Config, level: real)
    requires level != 0.0
    requires c.volume == 0.0 || c.volume == level
    ensures ToggleVolume(ToggleVolume(c, level).0, level).0 == c
  {
  }

  /** Which of the two callbacks given to `setPosition` the browser invokes. */
  datatype Callback = Succeeded | Failed

  /** `setPosition(success, error)`: starts watching the position and sets
      `positionSet` at once, before any answer. */
  function SetPosition(c: Config): (c': Config)
    ensures c'.positionSet && c'.watching
    ensures c'.lat == c.lat && c'.long == c.long && c'.volume == c.volume
  {
    c.(positionSet := true, watching := true)
  }

  /** The watch reports a position: the coordinates are stored, the watch is
      cleared, and then the success callback runs. No report arrives once the
      watch is cleared. */
  function PositionFound(c: Config, lat: real, long: real): (res: (Config, seq<Callback>))
    ensures c.watching ==> res.0 == c.(lat := lat, long := long, watching := false) && res.1 == [Succeeded]
    ensures !c.watching ==> res == (c, [])
  {
    if c.watching then (c.(lat := lat, long := long, watching := false), [Succeeded])
    else (c, [])
  }

  /** The watch reports an error: only the error callback runs; the
      coordinates stay and the watch stays live. */
  function PositionError(c: Config): (res: (Config, seq<Callback>))
    ensures res.0 == c
    ensures res.1 == (if c.watching then [Failed] else [])
  {
    (c, if c.watching then [Failed] else [])
  }

  /** After `setPosition`, errors leave the coordinates and the watch alone;
      the first position reported is stored and ends the watch, and nothing
      is reported after it. */
  lemma WatchLifecycle(c: Config, lat: real, long: real, lat': real, long': real)
    ensures var c1 := SetPosition(c);
      var (c2, e) := PositionError(c1);
      var (c3, f) := PositionFound(c2, lat, long);
      var (c4, g) := PositionFound(c3, lat', long');
      && e == [Failed] && c2 == c1
      && f == [Succeeded] && c3.lat == lat && c3.long == long && !c3.watching && c3.positionSet
      && g == [] && c4 == c3
  {
  }
}
