/**
 * data/model/uiLayer.js: the two buttons in the corner of the canvas (sound
 * and position), shown while the mouse moves and hidden after a delay.
 *
 * `Utils.isInsideRect` is not part of this model; it is the parameter
 * `inside`. A geolocation watch is `Config.watching`; the browser's answers
 * are the events `GeoSuccess` and `GeoError`.
 */
module UiLayer {
  import Sprite
  import Config
  import Utils

  /** `UiLayer.VISIBILITYDELAY`: frames the buttons stay up after the last move. */
  const VisibilityDelay: int := 100

  /** Alpha of a button the mouse is not over. */
  const DimAlpha: real := 0.5

  const VolumeIcon: string := "assets/img/volume.png"
  const VolumeOffIcon: string := "assets/img/volume_off.png"
  const InactiveIcon: string := "assets/img/marker.png"
  const ActiveIcon: string := "assets/img/marker_red.png"
  const LoadingIcon: string := "assets/img/marker_loading.png"

  datatype Point = Point(x: real, y: real)

  datatype VolumeButton = VolumeButton(sprite: Sprite.Sprite, on: bool)

  datatype PositionButton = PositionButton(sprite: Sprite.Sprite, active: bool, loading: bool)

  /** The layer's fields; `buttons` is `[volume, position]` in the source. */
  datatype UiLayer = UiLayer(visible: bool, mouse: Point, counter: int, cursor: string,
                             volume: VolumeButton, position: PositionButton)

  /** `new UiLayer(canvas)`, given the sprites the two buttons are built
      with (`ClickableSprite` is not part of this model). */
  function New(volumeSprite: Sprite.Sprite, positionSprite: Sprite.Sprite): (ui: UiLayer)
    ensures !ui.visible && ui.mouse == Point(0.0, 0.0) && ui.counter == 100
    ensures ui.volume.on && !ui.position.active && !ui.position.loading
  {
    UiLayer(false, Point(0.0, 0.0), VisibilityDelay, "", VolumeButton(volumeSprite, true),
            PositionButton(positionSprite, false, false))
  }

  /** The canvas's `getBoundingClientRect()`. Mouse events only reach a
      canvas that covers some area, so its sides are apart. */
  datatype ClientRect = ClientRect(left: real, top: real, right: real, bottom: real)

  predicate HasArea(b: ClientRect) {
    b.left < b.right && b.top < b.bottom
  }

  /** `getMousePositionOnCanvas(event)`: page coordinates scaled into canvas
      coordinates. */
  function MousePosition(k: Config.Constants, pageX: real, pageY: real, b: ClientRect): (p: Point)
    requires HasArea(b)
    ensures b.left <= pageX <= b.right && k.width >= 0 ==> 0.0 <= p.x <= k.width as real
    ensures b.top <= pageY <= b.bottom && k.height >= 0 ==> 0.0 <= p.y <= k.height as real
  {
    ScaleWithin(pageX, b.left, b.right, k.width as real);
    ScaleWithin(pageY, b.top, b.bottom, k.height as real);
    Point(Scale(pageX, b.left, b.right, k.width as real),
          Scale(pageY, b.top, b.bottom, k.height as real))
  }

  /** The page coordinate `x`, between `lo` and `hi`, scaled onto `size`. */
  function Scale(x: real, lo: real, hi: real, size: real): real
    requires lo < hi
  {
    (x - lo) * size / (hi - lo)
  }

  /** A coordinate within the span lands within the size. */
  lemma ScaleWithin(x: real, lo: real, hi: real, size: real)
    requires lo < hi
    ensures lo <= x <= hi && size >= 0.0 ==> 0.0 <= Scale(x, lo, hi, size) <= size
  {
    if lo <= x <= hi && size >= 0.0 {
      var d, span := x - lo, hi - lo;
      Utils.MulNonNegative(d, size);
      Utils.MulNonNegative(span - d, size);
      assert (span - d) * size == size * span - d * size;
      Utils.QuotientBounds(d * size, span, 0.0, size);
    }
  }

  /** Scaling is linear, so the page coordinate can be read back. */
  lemma ScaleInverse(x: real, lo: real, hi: real, size: real)
    requires lo < hi && size != 0.0
    ensures x == lo + Scale(x, lo, hi, size) * (hi - lo) / size
  {
    var r := Scale(x, lo, hi, size);
    assert r * (hi - lo) == (x - lo) * size;
    Utils.CancelFactor(x - lo, size);
  }

  /** The mapping sends the canvas's edges to 0 and to the canvas size. */
  lemma MousePositionCorners(k: Config.Constants, b: ClientRect)
    requires HasArea(b)
    ensures MousePosition(k, b.left, b.top, b) == Point(0.0, 0.0)
    ensures MousePosition(k, b.right, b.bottom, b) == Point(k.width as real, k.height as real)
  {
    ScaleEnds(b.left, b.right, k.width as real);
    ScaleEnds(b.top, b.bottom, k.height as real);
  }

  /** The ends of the span land on 0 and on the size. */
  lemma ScaleEnds(lo: real, hi: real, size: real)
    requires lo < hi
    ensures Scale(lo, lo, hi, size) == 0.0 && Scale(hi, lo, hi, size) == size
  {
    assert (lo - lo) * size == 0.0;
    assert (hi - lo) * size == size * (hi - lo);
    Utils.CancelFactor(size, hi - lo);
  }

  /** The mapping is linear, so page coordinates can be read back from it. */
  lemma MousePositionInverse(k: Config.Constants, pageX: real, pageY: real, b: ClientRect)
    requires HasArea(b) && k.width != 0 && k.height != 0
    ensures var p := MousePosition(k, pageX, pageY, b);
      && pageX == b.left + p.x * (b.right - b.left) / k.width as real
      && pageY == b.top + p.y * (b.bottom - b.top) / k.height as real
  {
    var w, h := k.width as real, k.height as real;
    assert w != 0.0 && h != 0.0;
    ScaleInverse(pageX, b.left, b.right, w);
    ScaleInverse(pageY, b.top, b.bottom, h);
    var p := MousePosition(k, pageX, pageY, b);
    assert p.x == Scale(pageX, b.left, b.right, w);
    assert p.y == Scale(pageY, b.top, b.bottom, h);
  }

  /** `show()`. */
  function Show(ui: UiLayer): (ui': UiLayer)
    ensures ui'.visible && ui'.counter == VisibilityDelay
    ensures ui'.(visible := ui.visible, counter := ui.counter) == ui
  {
    ui.(visible := true, counter := VisibilityDelay)
  }

  /** The `mousemove` handler. */
  function MouseMove(ui: UiLayer, k: Config.Constants, pageX: real, pageY: real, b: ClientRect): (ui': UiLayer)
    requires HasArea(b)
    ensures ui' == Show(ui).(mouse := MousePosition(k, pageX, pageY, b))
  {
    Show(ui.(mouse := MousePosition(k, pageX, pageY, b)))
  }

  /** One button in `updateAndDisplay`: full alpha under the mouse, dimmed
      otherwise, and as visible as the layer. */
  function Hover(s: Sprite.Sprite, hit: bool, visible: bool): (s': Sprite.Sprite)
    ensures s'.rect.alpha == (if hit then s.rect.originalAlpha else DimAlpha)
    ensures s'.rect.visible == visible
    ensures s'.rect.(alpha := s.rect.alpha, visible := s.rect.visible) == s.rect
    ensures s'.image == s.image && s'.orientation == s.orientation && s'.mode == s.mode
  {
    s.(rect := s.rect.(alpha := if hit then s.rect.originalAlpha else DimAlpha, visible := visible))
  }

  /** `updateAndDisplay(ctx)` without its drawing. */
  function UpdateAndDisplay(ui: UiLayer, inside: (Point, Sprite.Sprite) -> bool): (ui': UiLayer)
    ensures ui'.volume.sprite == Hover(ui.volume.sprite, inside(ui.mouse, ui.volume.sprite), ui.visible)
    ensures ui'.position.sprite == Hover(ui.position.sprite, inside(ui.mouse, ui.position.sprite), ui.visible)
    ensures ui'.volume.on == ui.volume.on && ui'.position.(sprite := ui.position.sprite) == ui.position
    ensures ui'.mouse == ui.mouse
    ensures ui.counter > 1 ==> ui'.counter == ui.counter - 1 && ui'.visible == ui.visible
    ensures ui.counter <= 1 ==> ui'.counter == 0 && !ui'.visible && ui'.cursor == "none"
    ensures ui.counter > 1 ==>
      (ui'.cursor == "pointer" <==> inside(ui.mouse, ui.volume.sprite) || inside(ui.mouse, ui.position.sprite))
    ensures ui.counter > 1 ==> ui'.cursor == "pointer" || ui'.cursor == "default"
  {
    var overVolume := inside(ui.mouse, ui.volume.sprite);
    var overPosition := inside(ui.mouse, ui.position.sprite);
    var cursor := if overVolume || overPosition then "pointer" else "default";
    var shown := ui.(cursor := cursor,
                     volume := ui.volume.(sprite := Hover(ui.volume.sprite, overVolume, ui.visible)),
                     position := ui.position.(sprite := Hover(ui.position.sprite, overPosition, ui.visible)),
                     counter := ui.counter - 1);
    if shown.counter <= 0 then shown.(visible := false, cursor := "none", counter := 0)
    else shown
  }

  /** The counter never leaves [0, VISIBILITYDELAY]. */
  predicate CounterInRange(ui: UiLayer) {
    0 <= ui.counter <= VisibilityDelay
  }

  lemma UpdateKeepsCounterInRange(ui: UiLayer, inside: (Point, Sprite.Sprite) -> bool)
    requires CounterInRange(ui)
    ensures CounterInRange(UpdateAndDisplay(ui, inside))
    ensures CounterInRange(Show(ui))
  {
  }

  /** `n` frames without a mouse move. */
  function Frames(ui: UiLayer, inside: (Point, Sprite.Sprite) -> bool, n: nat): UiLayer
    decreases n
  {
    if n == 0 then ui else Frames(UpdateAndDisplay(ui, inside), inside, n - 1)
  }

  /** After a mouse move the buttons stay up for 99 frames and are hidden
      by the 100th. */
  lemma {:induction false} Countdown(ui: UiLayer, inside: (Point, Sprite.Sprite) -> bool, n: nat)
    requires n <= VisibilityDelay
    ensures var u := Frames(Show(ui), inside, n);
      && (n < VisibilityDelay ==> u.visible && u.counter == VisibilityDelay - n)
      && (n == VisibilityDelay ==> !u.visible && u.counter == 0)
  {
    CountdownFrom(Show(ui), inside, n);
  }

  lemma {:induction false} CountdownFrom(ui: UiLayer, inside: (Point, Sprite.Sprite) -> bool, n: nat)
    requires ui.visible && 0 < ui.counter && n <= ui.counter
    ensures var u := Frames(ui, inside, n);
      && (n < ui.counter ==> u.visible && u.counter == ui.counter - n)
      && (n == ui.counter ==> !u.visible && u.counter == 0)
    decreases n
  {
    if n > 0 {
      var next := UpdateAndDisplay(ui, inside);
      if ui.counter > 1 {
        CountdownFrom(next, inside, n - 1);
      } else {
        assert Frames(ui, inside, n) == Frames(next, inside, 0) == next;
      }
    }
  }

  /** The volume button's callback. */
  function PressVolume(b: VolumeButton, c: Config.Config, k: Config.Constants): (res: (VolumeButton, Config.Config))
    ensures res.0.on == !b.on
    ensures res.0.sprite == b.sprite.(image := if res.0.on then VolumeIcon else VolumeOffIcon)
    ensures res.1 == c.(volume := if res.0.on then k.volume else 0.0)
  {
    var on := !b.on;
    (VolumeButton(b.sprite.(image := if on then VolumeIcon else VolumeOffIcon), on),
     c.(volume := if on then k.volume else 0.0))
  }

  /** Icon and volume agree with `on`. */
  predicate VolumeInSync(b: VolumeButton, c: Config.Config, k: Config.Constants) {
    && b.sprite.image == (if b.on then VolumeIcon else VolumeOffIcon)
    && c.volume == (if b.on then k.volume else 0.0)
  }

  /** One press brings icon and volume in line with `on`, whatever they were. */
  lemma PressVolumeSyncs(b: VolumeButton, c: Config.Config, k: Config.Constants)
    ensures var res := PressVolume(b, c, k);
      VolumeInSync(res.0, res.1, k)
  {
  }

  /** Two presses restore the button and, when they agreed, the volume. */
  lemma PressVolumeTwice(b: VolumeButton, c: Config.Config, k: Config.Constants)
    ensures var r1 := PressVolume(b, c, k);
      var r2 := PressVolume(r1.0, r1.1, k);
      && r2.0.on == b.on
      && (VolumeInSync(b, c, k) ==> r2 == (b, c))
  {
  }

  /** The position button's callback. While a position is loading it does
      nothing. Otherwise it toggles `active`: activating starts a watch and
      shows the loading icon; deactivating restores the default position. */
  function PressPosition(b: PositionButton, c: Config.Config): (res: (PositionButton, Config.Config))
    ensures b.loading ==> res == (b, c)
    ensures !b.loading ==> res.0.active == !b.active
    ensures !b.loading && !b.active ==>
      && res.0 == PositionButton(b.sprite.(image := LoadingIcon), true, true)
      && res.1 == c.(watching := true)
    ensures !b.loading && b.active ==>
      && res.0 == PositionButton(b.sprite.(image := InactiveIcon), false, false)
      && res.1 == c.(lat := Config.DefaultLat, long := Config.DefaultLong)
  {
    if b.loading then (b, c)
    else if !b.active then (PositionButton(b.sprite.(image := LoadingIcon), true, true), c.(watching := true))
    else (b.(active := false, sprite := b.sprite.(image := InactiveIcon)),
          c.(lat := Config.DefaultLat, long := Config.DefaultLong))
  }

  /** The `click` handler: each button under the mouse, in order, shows the
      layer and runs its callback. */
  function Click(ui: UiLayer, c: Config.Config, k: Config.Constants, inside: (Point, Sprite.Sprite) -> bool)
    : (res: (UiLayer, Config.Config))
    ensures var hitV, hitP := inside(ui.mouse, ui.volume.sprite), inside(ui.mouse, ui.position.sprite);
      && (!hitV && !hitP ==> res == (ui, c))
      && (hitV || hitP ==> res.0.visible && res.0.counter == VisibilityDelay)
      && res.0.volume == (if hitV then PressVolume(ui.volume, c, k).0 else ui.volume)
      && res.0.position == (if hitP then PressPosition(ui.position, c).0 else ui.position)
      && res.0.mouse == ui.mouse && res.0.cursor == ui.cursor
      && res.1 == (var cV := if hitV then PressVolume(ui.volume, c, k).1 else c;
                   if hitP then PressPosition(ui.position, cV).1 else cV)
  {
    var (u1, c1) := if inside(ui.mouse, ui.volume.sprite) then
      var (v, cv) := PressVolume(ui.volume, c, k);
      (Show(ui).(volume := v), cv)
    else (ui, c);
    if inside(ui.mouse, ui.position.sprite) then
      var (p, cp) := PressPosition(u1.position, c1);
      (Show(u1).(position := p), cp)
    else (u1, c1)
  }

  /** The watch reports a position: the coordinates are stored, the button
      turns active and stops loading, and the watch is cleared. */
  function GeoSuccess(ui: UiLayer, c: Config.Config, lat: real, long: real): (res: (UiLayer, Config.Config))
    ensures !c.watching ==> res == (ui, c)
    ensures c.watching ==>
      && res.1 == c.(lat := lat, long := long, watching := false)
      && res.0 == ui.(position := ui.position.(sprite := ui.position.sprite.(image := ActiveIcon), loading := false))
  {
    if !c.watching then (ui, c)
    else
      (ui.(position := ui.position.(sprite := ui.position.sprite.(image := ActiveIcon), loading := false)),
       c.(lat := lat, long := long, watching := false))
  }

  /** The watch reports an error: the button shows inactive and is no longer
      active, but it keeps loading and the watch stays live. */
  function GeoError(ui: UiLayer, c: Config.Config): (res: (UiLayer, Config.Config))
    ensures res.1 == c
    ensures !c.watching ==> res.0 == ui
    ensures c.watching ==>
      res.0 == ui.(position := ui.position.(sprite := ui.position.sprite.(image := InactiveIcon), active := false))
  {
    if !c.watching then (ui, c)
    else (ui.(position := ui.position.(sprite := ui.position.sprite.(image := InactiveIcon), active := false)), c)
  }

  /** Activation, a position found, deactivation: the coordinates go from
      the default to the found ones and back to the default. */
  lemma PositionRoundTrip(ui: UiLayer, c: Config.Config, k: Config.Constants,
                          inside: (Point, Sprite.Sprite) -> bool, lat: real, long: real)
    requires !ui.position.active && !ui.position.loading
    requires !inside(ui.mouse, ui.volume.sprite)
    requires forall img :: inside(ui.mouse, ui.position.sprite.(image := img))
    ensures var (u1, c1) := Click(ui, c, k, inside);
      var (u2, c2) := GeoSuccess(u1, c1, lat, long);
      var (u3, c3) := Click(u2, c2, k, inside);
      && u1.position.loading && u1.position.active && c1.watching
      && u2.position.active && !u2.position.loading && u2.position.sprite.image == ActiveIcon
      && c2.lat == lat && c2.long == long && !c2.watching
      && c3.lat == Config.DefaultLat && c3.long == Config.DefaultLong
      && !u3.position.active && !u3.position.loading && u3.position.sprite.image == InactiveIcon
  {
    assert inside(ui.mouse, ui.position.sprite.(image := ui.position.sprite.image));
    var (u1, c1) := Click(ui, c, k, inside);
    var (u2, c2) := GeoSuccess(u1, c1, lat, long);
    assert u2.mouse == ui.mouse && u2.volume == ui.volume;
    assert u2.position.sprite == ui.position.sprite.(image := ActiveIcon);
    assert inside(u2.mouse, u2.position.sprite);
    assert u2.position.active && !u2.position.loading;
  }

  /** Clicks in a row, each with what lies under the mouse at that time. */
  function Clicks(ui: UiLayer, c: Config.Config, k: Config.Constants,
                  hits: seq<(Point, Sprite.Sprite) -> bool>): (UiLayer, Config.Config)
    decreases |hits|
  {
    if |hits| == 0 then (ui, c)
    else
      var (u1, c1) := Click(ui, c, k, hits[0]);
      Clicks(u1, c1, k, hits[1..])
  }

  /** While the button is loading and the watch is live, no click changes
      the button, the coordinates or the watch. */
  lemma {:induction false} LoadingIgnoresClicks(ui: UiLayer, c: Config.Config, k: Config.Constants,
                                                 hits: seq<(Point, Sprite.Sprite) -> bool>)
    requires c.watching && ui.position.loading
    ensures var (u, c') := Clicks(ui, c, k, hits);
      && u.position == ui.position
      && c'.lat == c.lat && c'.long == c.long && c'.watching
    decreases |hits|
  {
    if |hits| > 0 {
      var (u1, c1) := Click(ui, c, k, hits[0]);
      LoadingIgnoresClicks(u1, c1, k, hits[1..]);
    }
  }

  /** After an error report the button shows inactive but keeps loading, so
      until the watch reports a position every click leaves the button and
      the coordinates alone. */
  lemma ErrorLocksButton(ui: UiLayer, c: Config.Config, k: Config.Constants,
                         hits: seq<(Point, Sprite.Sprite) -> bool>)
    requires c.watching && ui.position.loading
    ensures var (u1, c1) := GeoError(ui, c);
      var (u2, c2) := Clicks(u1, c1, k, hits);
      && !u1.position.active && u1.position.loading && u1.position.sprite.image == InactiveIcon
      && u2.position == u1.position
      && c2.lat == c.lat && c2.long == c.long && c2.watching
  {
    var (u1, c1) := GeoError(ui, c);
    LoadingIgnoresClicks(u1, c1, k, hits);
  }

  /** The watch outlives an error: a position reported afterwards unlocks
      the button, which then shows active but is not active, and the next
      click on it starts loading again. */
  lemma ErrorThenFound(ui: UiLayer, c: Config.Config, k: Config.Constants,
                       inside: (Point, Sprite.Sprite) -> bool, lat: real, long: real)
    requires c.watching && ui.position.loading
    requires !inside(ui.mouse, ui.volume.sprite)
    requires forall img :: inside(ui.mouse, ui.position.sprite.(image := img))
    ensures var (u1, c1) := GeoError(ui, c);
      var (u2, c2) := GeoSuccess(u1, c1, lat, long);
      var (u3, c3) := Click(u2, c2, k, inside);
      && !u2.position.loading && !u2.position.active && u2.position.sprite.image == ActiveIcon
      && c2.lat == lat && c2.long == long && !c2.watching
      && u3.position.loading && u3.position.active && u3.position.sprite.image == LoadingIcon
      && c3.watching
  {
    var (u1, c1) := GeoError(ui, c);
    var (u2, c2) := GeoSuccess(u1, c1, lat, long);
    assert u2.mouse == ui.mouse && u2.volume == ui.volume;
    assert inside(u2.mouse, u2.position.sprite);
  }
}
