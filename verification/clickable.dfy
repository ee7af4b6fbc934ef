/**
 * model/clickable.js: a sprite with a callback, and the sound button built
 * on it.
 *
 * `Clickable` hands `(spriteFile, x, y, …)` to a sprite class that expects
 * `(x, y, spriteFile, …)`, so its position and initial image are garbled;
 * the model takes the element's rectangle and first image as given.
 */
module Clickable {
  import Config
  import Rect

  const VolumeIcon: string := "img/volume.png"
  const VolumeOffIcon: string := "img/volume_off.png"

  /** The stored callback: none (`null`), or the sound button's toggle,
      which closes over the button's `on` flag. */
  datatype Callback = Null | VolumeToggle(on: bool)

  datatype Clickable = Clickable(rect: Rect.Rect, image: string, callback: Callback)

  /** What `action()` does: the callback ran and left this element and
      configuration, or calling `null` threw a `TypeError`. */
  datatype Outcome = Returned(element: Clickable, config: Config.Config) | Threw

  /** `new VolumeButton(x, y)`: sound on. */
  function NewVolumeButton(rect: Rect.Rect, image: string): (b: Clickable)
    ensures b.callback == VolumeToggle(true)
    ensures b.rect == rect && b.image == image
  {
    Clickable(rect, image, VolumeToggle(true))
  }

  /** The sound button after its toggle: `on` flipped, matching icon. */
  function Toggled(e: Clickable): (e': Clickable)
    requires e.callback.VolumeToggle?
    ensures e'.callback == VolumeToggle(!e.callback.on) && e'.rect == e.rect
    ensures e'.image == (if e'.callback.on then VolumeIcon else VolumeOffIcon)
  {
    var on := !e.callback.on;
    e.(callback := VolumeToggle(on), image := if on then VolumeIcon else VolumeOffIcon)
  }

  /** `action()`: run the callback once. The sound toggle flips `on`, shows
      the matching icon, and sets the volume to `VOLUME` or 0. */
  function Action(e: Clickable, c: Config.Config, k: Config.Constants): (res: Outcome)
    ensures e.callback.Null? <==> res.Threw?
    ensures res.Returned? ==> res.element.rect == e.rect
    ensures e.callback.VolumeToggle? ==>
      res == Returned(Toggled(e), c.(volume := if !e.callback.on then k.volume else 0.0))
  {
    match e.callback
    case Null => Threw
    case VolumeToggle(on) => Returned(Toggled(e), c.(volume := if !on then k.volume else 0.0))
  }

  /** Icon and volume agree with the toggle's `on`. */
  predicate InSync(e: Clickable, c: Config.Config, k: Config.Constants)
    requires e.callback.VolumeToggle?
  {
    && e.image == (if e.callback.on then VolumeIcon else VolumeOffIcon)
    && c.volume == (if e.callback.on then k.volume else 0.0)
  }

  /** One action brings icon and volume in line with `on`; two actions
      restore `on`, and everything when they were in line. */
  lemma ActionTwice(e: Clickable, c: Config.Config, k: Config.Constants)
    requires e.callback.VolumeToggle?
    ensures var r1 := Action(e, c, k);
      var r2 := Action(r1.element, r1.config, k);
      && InSync(r1.element, r1.config, k)
      && r2.element.callback == e.callback
      && (InSync(e, c, k) ==> r2 == Returned(e, c))
  {
  }
}
