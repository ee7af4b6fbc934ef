# seaside, modelled in Dafny

seaside is a pixel-art seaside scene that runs in a browser and follows the
real time of day. The repository holds three generations of the same scene:

- `main.js`, the PIXI version. A frame moves the boats and clouds, shows or
  hides the sixty stars one at a time in a shuffled order, and places the
  sun and the moon from the fraction of the day elapsed. It also picks the
  moon phase from the date. It reads the sky colour back from a CSS
  `rgb(r,g,b)` string to get the brightness of the front sprites, weighted
  by the Rec. 709 luma coefficients 0.2126, 0.7152 and 0.0722.
- `data/`, a canvas engine. It has value objects (`Rect`, `Sprite`,
  `AnimatedSprite`) and layers driven by the sun's altitude: the sky with
  twinkling and shooting stars, the front with boats and sea particles, a
  three-period screen, and a UI with volume and position buttons. It keeps
  a shared configuration.
- `model/`, the older canvas engine. It has the night-fading star, the
  dawn alpha, and a UI whose buttons fire when a click lands inside them.

The model turns each of these into pure functions over immutable records.
Where the program loops with real bookkeeping, the model uses methods with
loop invariants: the shuffle, the star-visibility pass, and the two
"splice while iterating" removal loops. Everything the program takes from
outside becomes a parameter:

- `Math.random()` draws;
- the clock, the midnights, and the date fields;
- `Math.sin` and `Math.cos`;
- the SunCalc altitude and azimuth;
- the browser's number-to-text conversion;
- the `Constants.*` values, which are not among the modelled sources.

Two quirks of the source are modelled as written:

- The data/ `Sprite` binds its parameters as `(centered, mode, alpha,
  orientation)`. `Star`, `Boat` and `AnimatedSprite` pass them as if the
  order were `(centered, alpha, orientation)`:
  - a star's original alpha is 1.0;
  - every boat has orientation 1;
  - every animation has orientation 1.
- Removing from an array inside `for…of` skips the element after the
  removed one for that frame.

Further choices:

- The moon-phase formula is kept with its zero-based `getMonth()`. It is
  evaluated with exact reals, with `parseInt` as truncation toward zero and
  `Math.round` as rounding halves up.
- The older engine's click handler is modelled with the numeric hit test
  its code evidently intends (see "## Left out"). Under that test, clicking
  the gear button would call a `null` callback and throw; the model
  represents that as an aborted click rather than excluding it.

## Model

| member | source | states |
|---|---|---|
| Utils.Clamp | data/utils.js:8-10 | within [min, max] when min <= max; n itself inside the range, min below it, max above it; max whenever min > max |
| Utils.ClampIdempotent | data/utils.js:8-10 | clamping a clamped value changes nothing |
| Utils.ClampMonotone | data/utils.js:8-10 | clamping never reverses the order of two values |
| Utils.RandomInt | data/utils.js:12-14 | for a draw in [0, 1) and min < max, an integer in [min, max) |
| Utils.RandomIntZero | data/utils.js:12-14 | `randomInt(0, k)` is 0 exactly when the draw times k is below 1 |
| Utils.RandomFloat | data/utils.js:16-18 | for a draw in [0, 1) and min < max, a value in [min, max) |
| Utils.Trunc | main.js:53-54 | `~~x` truncates toward zero: the integer part from below for x >= 0, from above for x < 0 |
| Utils.Round | main.js:419 | `Math.round` lies within one half of its argument, halves going up |
| Text.NatToString | data/engine/rect.js:20 | the decimal text of a component: non-empty, only digits, no leading zero |
| Text.NatToStringRoundTrip | main.js:443 | reading the decimal text back as a number gives the number |
| Text.DigitRuns | main.js:442 | every run `match(/\d+/g)` returns is a non-empty string of digits |
| Text.DigitRunsTake | main.js:442 | a digit string followed by a non-digit is matched as exactly one run |
| Rect.New | data/engine/rect.js:5-15 | alpha equals the original alpha; the rectangle is visible and holds the given geometry, colour and centring |
| Rect.ColorString | data/engine/rect.js:17-23 | empty exactly for an empty colour; holds exactly one comma per component |
| Rect.ColorStringSplits | data/engine/rect.js:17-23 | splitting the colour string on "," gives each component's decimal text in order, then one empty piece |
| Rect.FillStyle | data/engine/rect.js:33 | the style starts "rgba(" and ends ")", with one comma per colour component plus those of the alpha text |
| Rect.FillStyleShape | data/engine/rect.js:33 | for three components the fill style is `rgba(` + r,g,b,alpha + `)`, its inside splitting into the three decimals and the alpha text |
| Rect.Update | data/engine/rect.js:25-28 | sets x and y and leaves size, colour, centring, both alphas and visibility unchanged |
| Rect.FillOrigin | data/engine/rect.js:34-38 | a centred rectangle fills from the floor of its centre minus half its size; otherwise from its position |
| Rect.Display | data/engine/rect.js:30-40 | an invisible rectangle leaves the context untouched; a visible one fills once in "source-over" with its fill style |
| Sprite.New | data/engine/sprite.js:3-13 | the parameters after the file bind as (centered, mode, alpha, orientation); alpha becomes the original alpha; size 0 until load |
| Sprite.OnLoad | data/engine/sprite.js:16-19 | the loaded image's width and height become the sprite's, nothing else changes |
| Sprite.SetCoordinates | data/model/screen.js:53 | moves the sprite to (x, y) and changes nothing else |
| Sprite.DrawOrigin | data/engine/sprite.js:34-40 | floored draw position, shifted by half the size when centred |
| Sprite.Display | data/engine/sprite.js:22-51 | the sprite is unchanged afterwards (x negated and restored); orientation -1 draws at -x in a flipped context; the flip is undone, alpha reset to 1.0 and mode to "source-over"; invisible sprites touch nothing |
| AnimatedSprite.New | data/engine/animatedSprite.js:3-14 | index 0, one frame per file in order, first file shown; the caller's alpha lands in the mode slot and its orientation in the alpha slot, so the orientation is 1 |
| AnimatedSprite.Update | data/engine/animatedSprite.js:16-19 | index advances by one modulo the frame count, stays in range, and the shown image is the frame at the new index |
| AnimatedSprite.UpdatesIndex | data/engine/animatedSprite.js:17 | after k updates the index has moved by k modulo the frame count |
| AnimatedSprite.FullCycle | data/engine/animatedSprite.js:16-19 | as many updates as frames bring the animation back to its starting state |
| AnimatedSprite.UpdatesFrame | data/engine/animatedSprite.js:16-19 | updates change only the index and the image it selects |
| Config.Initial | data/config.js:2-8 | latitude 48.85341, longitude 2.3488, position not set |
| Config.ToggleVolume | data/config.js:12-15 | silence becomes `VOLUME`, anything else silence; the result is true exactly when the new volume is non-zero |
| Config.ToggleVolumeTwice | data/config.js:12-15 | with a non-zero `VOLUME`, toggling twice from silence or from `VOLUME` restores the volume |
| Config.SetPosition | data/config.js:17-29 | `positionSet` becomes true at once and a watch starts; coordinates and volume are untouched |
| Config.PositionFound | data/config.js:19-24 | a reported position is stored before the success callback runs, and the watch is cleared |
| Config.PositionError | data/config.js:25-27 | an error only runs the error callback; the coordinates stay |
| Config.WatchLifecycle | data/config.js:17-29 | after `setPosition`, an error keeps the coordinates and the watch; the first position found is stored and ends the watch; nothing is reported after it |
| SeaParticle.New | model/seaParticle.js:3-6 | a white 1x1 rectangle at alpha 1.0 with a step in [0.004, 0.02) |
| SeaParticle.Update | model/seaParticle.js:8-13 | the step keeps its size, flips sign exactly when alpha is at or past 0 or 1, and the new alpha is the old one plus the new step |
| SeaParticle.FirstUpdateFalls | model/seaParticle.js:3-13 | a new particle's first update turns it downwards |
| SeaParticle.NewBounded | model/seaParticle.js:3-6 | a new particle satisfies the reachable-state bound |
| SeaParticle.UpdateBounded | model/seaParticle.js:8-13 | an update keeps the bound: alpha within one step of [0, 1], heading back once outside |
| SeaParticle.AlphaStaysNearUnit | model/seaParticle.js:3-13 | from construction, alpha stays in (-step, 1 + step) for any number of updates |
| SeaParticle.UpdatesBounded | data/model/frontLayer.js:127-139 | any number of updates keeps the bound and the step's size |
| SpliceLoop.Sweep | data/model/skyLayer.js:59-68 | the reference for one pass of update-then-maybe-splice: never longer than its input |
| SpliceLoop.SpliceWhileIterating | data/model/skyLayer.js:59-68 | the index loop that splices the visited element out equals the reference pass |
| SpliceLoop.SweepDropsOnlyDone | data/model/skyLayer.js:62-65 | every element missing after the pass was visited and found due for removal |
| SpliceLoop.SweepKeepsOrder | data/model/frontLayer.js:99-103 | survivors keep their relative order; each is its stepped self, or its untouched self when the element before it was spliced out |
| SpliceLoop.KeepsNotDone | data/model/frontLayer.js:99-103 | an element not due for removal after its step is never removed |
| SpliceLoop.SweepPreserves | data/model/skyLayer.js:59-68 | any property held by every element and kept by the step of survivors holds after the pass |
| SkyLayer.NewStar | data/model/skyLayer.js:80-82 | the random alpha lands in the mode slot, so the original alpha is 1.0; the image is one of the three star files |
| SkyLayer.UpdateStar | data/model/skyLayer.js:84-89 | without the 1-in-50 draw nothing changes; with it the alpha is the original alpha plus an offset in [-0.1, 0.1), clamped to [0.1, 1.0]; the original alpha never changes |
| SkyLayer.FiresIff | data/model/skyLayer.js:85 | the twinkle fires exactly for draws below 1/50 |
| SkyLayer.ConstructedStarTwinkle | data/model/skyLayer.js:80-89 | a twinkle of a constructed star yields an alpha in [0.9, 1.0] |
| SkyLayer.NewShootingStar | data/model/skyLayer.js:104-107 | starts at frame 0 of the five shooting-star images with an update count of 0 |
| SkyLayer.UpdateShootingStar | data/model/skyLayer.js:109-112 | advances the animation and adds exactly 1 to the update count |
| SkyLayer.Sweep | data/model/skyLayer.js:59-68 | the shooting-star pass leaves no more stars than it started with |
| SkyLayer.SweepKeepsYoung | data/model/skyLayer.js:59-68 | after the pass every remaining shooting star has fewer than 5 updates |
| SkyLayer.SplicedSuccessorSkipped | data/model/skyLayer.js:59-68 | two stars due together: the first is removed and the second is skipped for that frame |
| SkyLayer.UpdatedTimes | data/model/skyLayer.js:109-112 | k updates add exactly k to the count |
| SkyLayer.ShootingStarLifetime | data/model/skyLayer.js:63 | a new shooting star is due for removal exactly from its 5th update on |
| SkyLayer.Spawned | data/model/skyLayer.js:42-54 | at most one shooting star a frame, only when the dawn alpha is at most 0, at x in [0, WIDTH) and y in [0, SEALEVEL - 50), with count 0 |
| SkyLayer.UpdateAndDisplay | data/model/skyLayer.js:21-71 | stars update only when the dawn alpha is at most 0.3; the shooting stars are the reference pass over old plus spawned; the pass keeps every count below 5 |
| FrontLayer.NewBoat | data/model/frontLayer.js:116-118 | the orientation lands in the alpha slot, so the boat's orientation is 1 and its alpha is the orientation |
| FrontLayer.UpdateBoat | data/model/frontLayer.js:120-122 | x moves by SPEED times the orientation; nothing else changes |
| FrontLayer.BoatsDriftRight | data/model/frontLayer.js:114-122 | whatever orientation it was given, a boat moves +0.04 a frame |
| FrontLayer.DrawnOrientation | data/model/frontLayer.js:48 | the orientation is -1 or 1, and 1 exactly for draws of at least 0.5 |
| FrontLayer.AddRandomBoat | data/model/frontLayer.js:47-51 | appends one boat at x = -6 for orientation 1, x = WIDTH + 6 for -1, at y = SEALEVEL - 7 |
| FrontLayer.Prune | data/model/frontLayer.js:99-103 | the removal pass leaves no more boats than it started with |
| FrontLayer.PruneKeepsInBounds | data/model/frontLayer.js:99-103 | survivors are original boats in their original order, and every boat within [-OUTOFBOUND, WIDTH + OUTOFBOUND] survives |
| FrontLayer.PruneDropsOnlyOutOfBounds | data/model/frontLayer.js:99-103 | a removed boat was out of bounds |
| FrontLayer.SplicedBoatSkipped | data/model/frontLayer.js:99-103 | of two boats both out of bounds only the first is removed in that frame |
| FrontLayer.Display | data/model/frontLayer.js:53-107 | boats move, at most one is added and only below 3, then the removal pass runs; never more than 3 boats; every particle updates once; the sea is untouched |
| FrontLayer.DisplayKeepsParticlesBounded | data/model/frontLayer.js:81-84 | a frame keeps every particle within the reachable-state bound |
| Screen.PeriodOf | data/model/screen.js:36-43 | day exactly above 2 degrees, night exactly below -2, sunset exactly between: a total partition indexing the 3-row table |
| Screen.PeriodMonotone | data/model/screen.js:36-43 | a higher sun never gives a darker period |
| Screen.New | data/model/screen.js:3-25 | a 3x3 table of "overlay" sprites of the blending files; the sun centred, the sky at the origin, the sea on the sea line |
| Screen.SunPosition | data/model/screen.js:53 | the sun is on the sea line exactly at altitude 0 and its height gives the altitude back at 1.5 pixels a degree; azimuth 0 puts it at x = 0 and azimuth 180 at x = WIDTH |
| Screen.SunHeight | data/model/screen.js:53 | the sun rises strictly with the altitude |
| Screen.DisplayAll | data/model/screen.js:49-61 | displaying sprites in turn draws exactly the visible ones' images, in order |
| Screen.UpdateCanvas | data/model/screen.js:27-64 | longitude +0.5; the sun moves to the ephemeris position; the frame draws sky, sky tint, sun, sea, sea tint, overlay of the period |
| Screen.FrameDrawOrder | data/model/screen.js:45-61 | on a fresh screen the frame draws the six files of the period in that order |
| Screen.Frames | data/model/screen.js:27-64 | frames keep the 3x3 table |
| Screen.LongitudeDrift | data/model/screen.js:29-30 | n frames add exactly 0.5 n to the longitude, with no wrap, and change nothing else in the configuration |
| UiLayer.New | data/model/uiLayer.js:5-15 | hidden, mouse at (0, 0), counter 100, sound on, position inactive and not loading |
| UiLayer.MousePosition | data/model/uiLayer.js:34-41 | a page point inside the canvas's bounding rectangle lands inside [0, WIDTH] x [0, HEIGHT] |
| UiLayer.ScaleInverse | data/model/uiLayer.js:36-39 | the scaling of one coordinate is invertible: the page coordinate can be read back from the canvas one |
| UiLayer.MousePositionCorners | data/model/uiLayer.js:34-41 | the canvas's top-left maps to (0, 0) and its bottom-right to (WIDTH, HEIGHT) |
| UiLayer.MousePositionInverse | data/model/uiLayer.js:34-41 | the mapping is linear and invertible: page coordinates can be read back |
| UiLayer.Show | data/model/uiLayer.js:43-46 | visible with counter 100, nothing else changed |
| UiLayer.MouseMove | data/model/uiLayer.js:18-21 | stores the mapped mouse position and shows the layer |
| UiLayer.Hover | data/model/uiLayer.js:53-61 | a button's alpha is its original alpha under the mouse, 0.5 elsewhere; its visibility mirrors the layer's |
| UiLayer.UpdateAndDisplay | data/model/uiLayer.js:48-71 | every button hovers; the counter drops by one, and at 0 the layer hides with counter 0 and cursor "none" |
| UiLayer.UpdateKeepsCounterInRange | data/model/uiLayer.js:43-71 | the counter stays in [0, 100] |
| UiLayer.Countdown | data/model/uiLayer.js:63-70 | after a show the layer stays visible for 99 frames and hides on the 100th |
| UiLayer.CountdownFrom | data/model/uiLayer.js:63-70 | a visible layer with counter c stays visible c - 1 frames and is hidden after c |
| UiLayer.PressVolume | data/model/uiLayer.js:79-83 | `on` flips, the icon matches, the volume becomes `VOLUME` when on and 0 when off |
| UiLayer.PressVolumeSyncs | data/model/uiLayer.js:79-84 | one press brings icon and volume in line with `on` |
| UiLayer.PressVolumeTwice | data/model/uiLayer.js:79-84 | two presses restore the button and, when in line, the volume |
| UiLayer.PressPosition | data/model/uiLayer.js:97-136 | ignored while loading; otherwise `active` flips; activating starts loading and a watch; deactivating restores the default coordinates |
| UiLayer.Click | data/model/uiLayer.js:24-31 | each button under the mouse, volume then position, shows the layer and fires once; the configuration is the one the volume press and then the position press leave, and untouched on a miss |
| UiLayer.GeoSuccess | data/model/uiLayer.js:110-120 | a found position is stored, the button shows active, loading ends, the watch clears |
| UiLayer.GeoError | data/model/uiLayer.js:121-124 | an error makes the button inactive but leaves it loading |
| UiLayer.PositionRoundTrip | data/model/uiLayer.js:99-133 | activate, position found, deactivate: the coordinates go from the found ones back to the defaults, and the button ends inactive, not loading, with the inactive icon |
| UiLayer.LoadingIgnoresClicks | data/model/uiLayer.js:97-135 | while the button is loading and the watch is live, any run of clicks leaves the button, the coordinates and the watch unchanged |
| UiLayer.ErrorLocksButton | data/model/uiLayer.js:99-124 | after an error the button shows inactive but keeps loading, so until the watch reports a position any run of clicks leaves it and the coordinates alone |
| UiLayer.ErrorThenFound | data/model/uiLayer.js:110-124 | the watch outlives an error: a position reported later is stored, ends the loading with the active icon while `active` stays false, and the next click starts loading again |
| ModelStar.New | model/star.js:5-7 | the random alpha in [0.01, 0.5) becomes both alpha and original alpha; the image is one of the two star files |
| ModelStar.Update | model/star.js:9-17 | below full night the alpha is the original alpha times the night alpha; at full night a 1-in-50 draw jitters it within the clamp to [0.1, 1.0], otherwise nothing changes |
| ModelStar.FadeNeverBrighter | model/star.js:10-12 | while the night fades, a star is never brighter than its original alpha, and dark at night alpha 0 |
| ModelStar.FadeDeterministic | model/star.js:10-12 | the fade depends only on the night alpha, not on draws or the previous alpha |
| ModelStar.OriginalAlphaFixed | model/star.js:9-18 | no run of frames changes the original alpha or the image |
| ModelScreen.DawnAlpha | model/screen.js:25 | in [0, 1]; 1 within 1 degree of the horizon, 0 from 2 degrees away, linear between |
| ModelScreen.DawnAlphaSymmetric | model/screen.js:25 | the same above and below the horizon |
| ModelScreen.DawnAlphaFades | model/screen.js:25 | never grows as the sun moves away from the horizon |
| ModelScreen.PlaceSun | model/screen.js:34 | keeps the sun's x and changes only its y |
| ModelScreen.PlaceSunFaithful | model/screen.js:34 | the sun's height gives the altitude back at 8 pixels a degree; placing twice is placing once |
| ModelScreen.NightStars | model/skyLayer.js:40-45 | below the horizon every star updates with the night's alpha 1 - dawn alpha; from the horizon up the stars are untouched; only alphas ever change |
| ModelScreen.StarsDarkAtDusk | model/skyLayer.js:40-45 | within 1 degree below the horizon every star is dark |
| ModelScreen.StarsFadeIn | model/skyLayer.js:40-45 | between 1 and 2 degrees below the horizon each star shows -1 - altitude of its original alpha |
| ModelScreen.StarsTwinkleAtNight | model/skyLayer.js:40-45 | from 2 degrees below the horizon each star keeps its alpha or twinkles within [0.1, 1.0] |
| ModelScreen.UpdateCanvas | model/screen.js:19-48 | the dawn alpha is in [0, 1]; the sun sits at SEALEVEL - 8 altitude; below the horizon the sky layer updates every star with 1 - dawn alpha, otherwise the stars are kept; the UI display keeps the layer valid |
| Clickable.NewVolumeButton | model/clickable.js:17-24 | the volume button starts with sound on |
| Clickable.Toggled | model/clickable.js:18-20 | `on` flips and the icon matches |
| Clickable.Action | model/clickable.js:8-10 | the callback runs once; a `null` callback, and only that, throws |
| Clickable.ActionTwice | model/clickable.js:15-26 | one action syncs icon and volume with `on`; two restore `on`, and everything when in sync |
| ModelUi.New | model/uiLayer.js:5-14 | alpha 0, counter 100 |
| ModelUi.Show | model/uiLayer.js:43-47 | alpha 1, counter 100, cursor "default" |
| ModelUi.Display | model/uiLayer.js:49-63 | every element takes the layer's alpha; the counter drops by one, and at 0 the layer gets alpha 0, counter 0, cursor "none" |
| ModelUi.ValidKept | model/uiLayer.js:43-63 | the layer's alpha is exactly 0 or 1 and its counter within [0, 100], before and after show and display |
| ModelUi.ClickFrom | model/uiLayer.js:31-39 | every element whose closed rectangle holds the point, and only those, fires in order and shows the layer; the handler finishes exactly when none of them has a `null` callback |
| ModelUi.ClickFromVolumeOnly | model/uiLayer.js:31-39 | a click changes no configuration field but the volume |
| ModelUi.ClickFromNoToggle | model/uiLayer.js:31-39 | with no sound button under the point the configuration is untouched |
| ModelUi.ClickFromVolume | model/uiLayer.js:31-39 | a finished click leaves the volume that the hit sound buttons set, in order |
| ModelUi.LastVolumeFromLastHit | model/clickable.js:18-22 | the volume set by a run of hits is the one the last sound button hit sets |
| ModelUi.LastVolumeNoHit | model/uiLayer.js:33-34 | elements not under the point leave the volume alone |
| ModelUi.ClickFromLastToggle | model/uiLayer.js:31-39 | once every hit element has fired, the volume is `VOLUME` or 0 as set by the last sound button hit |
| ModelUi.Click | model/uiLayer.js:22-40 | the page point is scaled onto the canvas; elements keep their rectangles; a miss changes nothing; a hit shows the layer; only the volume of the configuration can change |
| MainShuffle.Pick | main.js:455 | for a draw, the swap partner of step i is in [0, i] |
| MainShuffle.Swap | main.js:456 | exchanges two entries and keeps the others |
| MainShuffle.SwapPermutes | main.js:456 | a swap keeps the multiset of entries |
| MainShuffle.ShuffleDown | main.js:453-458 | the reference steps from any index down to 1 keep the length and the multiset of entries, whatever the draws |
| MainShuffle.Shuffle | main.js:453-458 | the loop from the last index down to 1 performs exactly the reference steps, so it returns a permutation of its input; an empty list stays empty |
| MainShuffle.RangeCounts | main.js:59-61 | the index list holds each of 0 to n - 1 exactly once and nothing else |
| MainShuffle.StarOrder | main.js:59-62 | `rand_star_indexes` holds each star index 0 to 59 exactly once and nothing else |
| MainStars.StarAlpha | main.js:304-306 | within the spawn band the alpha is in [0, 1]: 1 at the top and 0 at the band's bottom |
| MainStars.StarAlphaShape | main.js:304-306 | `starAlpha` is 1 at the top, in (0, 1] over the spawn band, and strictly decreasing |
| MainStars.NewStar | main.js:50-58 | a star starts hidden, at x within [1, WIDTH], y in [0, 96), with the alpha of its height |
| MainStars.FirstMismatch | main.js:250-257 | the first position in walking order whose star's visibility differs from the night test |
| MainStars.Visit | main.js:249-264 | a visit flips visibility only for the chosen star; a visible star that twinkles gets its height's alpha minus the offset; otherwise alpha stays |
| MainStars.TwinkleBelowBaseline | main.js:260-264 | a twinkle never lifts a star above its height's alpha and dims it by less than 0.25 |
| MainStars.UpdateStars | main.js:243-265 | each star is visited once; only on every 20th frame does one star change visibility, the first mismatched one in shuffled order; the number of mismatched stars drops by one |
| MainStars.PendingAfter | main.js:244-258 | the pending-star set loses exactly the chosen star on an update frame and is unchanged otherwise |
| MainDrift.NewBoat | main.js:119-129 | facing ±1, on the sea line, x in [-80, 336), speed in [0, 0.1) |
| MainDrift.UpdateBoat | main.js:193-203 | x always ends in [-80, 336]; leaving left sets facing 1 and x = -8; leaving right sets facing -1 and x = 264; otherwise it moves by speed times facing |
| MainDrift.BoatTurnsInwards | main.js:194-203 | a boat only leaves on the side it faces and is turned round |
| MainDrift.UpdateBoats | main.js:192-204 | every boat updates and every x ends in [-80, 336] |
| MainDrift.NewCloud | main.js:141-153 | facing ±1; x in [-40, 296), y in [12, 62), speed under 0.1 in the facing direction |
| MainDrift.UpdateCloud | main.js:208-218 | x always ends in [-40, 296]; a cloud leaving an edge is put back at it with its velocity negated; the speed is kept |
| MainDrift.CloudBouncesInwards | main.js:209-218 | a cloud that bounces heads back in |
| MainDrift.UpdateClouds | main.js:207-219 | every cloud updates and every x ends in [-40, 296] |
| MainDrift.CloudSpeedKept | main.js:207-219 | any number of frames keeps every cloud's speed and its x in [-40, 296] |
| MainCelestial.DayProgression | main.js:383-390 | in [0, 1) between the midnights, 0 exactly at the last one |
| MainCelestial.DayProgressionMonotone | main.js:383-390 | later times give a larger progression |
| MainCelestial.StarsOutWindow | main.js:222-226 | stars are out exactly up to 0.21 and from 0.74 of the day |
| MainCelestial.SpawnShootingStar | main.js:229-241 | a shooting star spawns exactly when stars are out and the 1-in-200 test passes, at x in [0, 256), y in [0, 96), with its height's alpha |
| MainCelestial.SpawnOdds | main.js:229 | the spawn test passes exactly for draws below 1/200 |
| MainCelestial.PlaceSunAndMoon | main.js:268-274 | sun and moon x sum to WIDTH and y to twice the sea line; the moon has its height's star alpha |
| MainCelestial.SunMoonMirrored | main.js:268-274 | sun and moon x sum to 256 and y to 240; both x stay in [10, 246]; the sun is under the sea line exactly when the moon is above it; the moon has its height's star alpha |
| MainCelestial.MoonPhase | main.js:401-423 | the phase is below 8, and not negative from the formula's epoch on |
| MainCelestial.MoonPhaseInRange | main.js:401-423 | from the formula's epoch on, the phase is in [0, 7] |
| MainCelestial.MoonPhaseBeforeEpoch | main.js:401-423 | before the epoch truncation gives a negative phase: 1 January 1000 gives -6 |
| MainCelestial.PhaseOfDays | main.js:416-422 | the phase for a count of elapsed days is below 8, and not negative for a count from the epoch on |
| MainCelestial.PhaseOfDaysPeriodic | main.js:416-422 | adding whole lunations to the elapsed days, from the epoch on, leaves the phase unchanged |
| MainCelestial.MoonPhasePeriodic | main.js:401-422 | a date whole lunations after another, from the epoch on, shows the same phase as that date |
| MainColor.RgbStr | main.js:431-433 | the text starts with "rgb(" and ends with ")" |
| MainColor.RgbStrCommas | main.js:432 | exactly two commas separate the channels |
| MainColor.RgbStrRuns | main.js:431-443 | the digit runs of the text are the three channels' decimals, in order |
| MainColor.Luminosity | main.js:441-444 | defined exactly when the text has at least three digit runs |
| MainColor.LuminosityRoundTrip | main.js:431-444 | reading a written pixel back gives 0.2126 r + 0.7152 g + 0.0722 b |
| MainColor.LumaBounds | main.js:443 | for byte channels the luma is in [0, 255], and white gives 255 |
| MainColor.Brightness | main.js:289 | for byte channels the brightness is defined and in [0, 1] |
| MainFrame.Tick | main.js:181-294 | the counter grows by one and the star order is kept; boats and clouds update; every star in visiting order twinkles and only the first one on the wrong side of the visibility flips, on appearance frames; the star-visibility bookkeeping holds; the shooting stars gain exactly the spawned star, when stars are out and the test passes; the view is the frame's sun and moon placement, moon phase and brightness, with the sun and moon mirrored, the brightness in [0, 1] and the phase in range from the epoch on |

## Left out

- Rendering is not modelled: PIXI containers, textures and filters, canvas
  pixels, the sky gradients and their sampling (`createSkyGradients`,
  `createSkyTexture`), and the colour masks of data/model/frontLayer.js. A
  drawing is a log of draw calls.
- The sampled sky colour of a frame is an input. It is the browser's
  gradient interpolation, not the program's code.
- SunCalc and `Utils.radiansToDegrees` are not part of this model; the
  altitude and azimuth are inputs.
- `Math.sin`, `Math.cos` and `Math.random` are inputs.
- Dates, time zones and `setHours` are not modelled; the midnights and the
  calendar fields are inputs.
- IEEE-754 rounding is not modelled; all arithmetic is on exact reals.
- The 32-bit wrap of `~~` is not modelled; it is never reached by the
  magnitudes the program uses.
- Audio, DOM listeners, `requestAnimationFrame` and geolocation are
  events or parameters, not behaviour. A live geolocation watch is a
  `watching` flag instead of a watch id.
- `Constants.*`, `Utils.isInsideRect` and `ClickableSprite` are not part of
  this model. The constants are a record parameter, the hit test is a
  function parameter, and `setCoordinates` is taken to move a sprite like
  `Rect.update`.
- The browser ignores an invalid `globalAlpha` or composite operation. The
  model keeps the value assigned instead, so a number bound to `mode` is
  recorded as a number.
- The drawing done by model/skyLayer.js, model/frontLayer.js and
  model/sprite.js is not modelled. The star pass of model/skyLayer.js
  (lines 40-45) is modelled in `ModelScreen.NightStars`.
- ModelScreen.UpdateCanvas: does not update the particles of
  model/frontLayer.js. Its lines 53-55 call `particle.updateAndDisplay`,
  which model/seaParticle.js does not define (it defines `update`), and
  model/rect.js, which it extends, is not part of this model.
- The sky images of data/model/skyLayer.js, including the night sky drawn
  with `clamp(altitude - 179, 0, 1)`, are not modelled; they are draw
  calls only.
- In the older engine, `Clickable` hands `(file, x, y)` to a sprite that
  expects `(x, y, file)`. The garbled coordinates are not modelled; an
  element's rectangle and first image are given.
- ModelUi.ClickFrom: models the numeric hit test the handler evidently
  intends. As written, model/clickable.js line 4 makes an element's `x` its
  file name, so `element.x <= x` compares a string with a number, is
  false, and no click of the older engine ever fires. ModelUi.Click
  inherits the same assumption.
- The destruction of main.js shooting stars when their PIXI animation
  completes is not modelled. Once spawned they stay in the scene's list.
- The moon sprite's `gotoAndStop` with a negative phase is not modelled.
- AnimatedSprite.Update: requires at least one frame. With none the source
  computes `NaN` as the index.
- UiLayer.MousePosition: requires a bounding rectangle with area. A
  zero-sized canvas receives no mouse events.
- ModelUi.Click: requires a bounding rectangle with area, for the same
  reason.
- MainCelestial.DayProgression: requires the last midnight to come before
  the next. The clock always gives that.
- FrontLayer.AddRandomBoat: requires its orientation draw to be a value
  `Math.random()` can return.
- FrontLayer.Display: requires its orientation draw to be a value
  `Math.random()` can return.
- MainStars.UpdateStars: requires the walking order to be a permutation of
  the star indexes, which `MainShuffle.StarOrder` establishes.
- SpliceLoop.Sweep: its own contract only bounds the length; what survives
  and in which order is stated by the lemmas after it.
- SkyLayer.Sweep: its own contract only bounds the length; what survives
  and in which order is stated by the lemmas after it.
- FrontLayer.Prune: its own contract only bounds the length; what survives
  and in which order is stated by the lemmas after it.
