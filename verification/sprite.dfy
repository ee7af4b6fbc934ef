/**
 * data/engine/sprite.js: an image drawn at a rectangle's position.
 *
 * The constructor's parameters after the file are `(centered, mode, alpha,
 * orientation)`. Several callers pass their values positionally as if the
 * order were `(centered, alpha, orientation)`, so a number lands in `mode`
 * and an orientation lands in `alpha`; the model keeps that binding.
 * The image's width and height arrive later, when it has loaded (`OnLoad`).
 */
module Sprite {
  import opened Canvas
  import Rect

  datatype Sprite = Sprite(rect: Rect.Rect, image: string, orientation: int, mode: Arg)

  const Normal: Arg := Text("normal")

  /** `new Sprite(x, y, spriteFile, centered, mode, alpha, orientation)`. */
  function New(x: real, y: real, file: string,
               centered: bool := false, mode: Arg := Normal,
               alpha: real := 1.0, orientation: int := 1): (s: Sprite)
    ensures s.rect.alpha == s.rect.originalAlpha == alpha
    ensures s.rect.centered == centered && s.mode == mode && s.orientation == orientation
    ensures s.rect.x == x && s.rect.y == y && s.rect.w == 0.0 && s.rect.h == 0.0
    ensures s.rect.visible && s.image == file && s.rect.color == Rect.DefaultColor
  {
    Sprite(Rect.New(x, y, 0.0, 0.0, Rect.DefaultColor, centered, alpha), file, orientation, mode)
  }

  /** The image's `onload` handler: the sprite takes the image's size. */
  function OnLoad(s: Sprite, w: real, h: real): (s': Sprite)
    ensures s'.rect == s.rect.(w := w, h := h)
    ensures s'.image == s.image && s'.orientation == s.orientation && s'.mode == s.mode
  {
    s.(rect := s.rect.(w := w, h := h))
  }

  /** `setCoordinates(x, y)`, used by boats and the sun. Its definition is not
      part of this model; it is taken to move the sprite like `Rect.update`. */
  function SetCoordinates(s: Sprite, x: real, y: real): (s': Sprite)
    ensures s'.rect.x == x && s'.rect.y == y
    ensures s'.rect.(x := s.rect.x, y := s.rect.y) == s.rect
    ensures s'.image == s.image && s'.orientation == s.orientation && s'.mode == s.mode
  {
    s.(rect := Rect.Update(s.rect, x, y))
  }

  /** The integer position `drawImage` receives for a sprite whose x
      coordinate is `x`: floored, and shifted by half the size when centred. */
  function DrawOrigin(x: real, r: Rect.Rect): (o: (int, int))
    ensures r.centered ==> o.0 as real <= x - r.w / 2.0 < o.0 as real + 1.0
    ensures r.centered ==> o.1 as real <= r.y - r.h / 2.0 < o.1 as real + 1.0
    ensures !r.centered ==> o.0 as real <= x < o.0 as real + 1.0
    ensures !r.centered ==> o.1 as real <= r.y < o.1 as real + 1.0
  {
    if r.centered then ((x - r.w / 2.0).Floor, (r.y - r.h / 2.0).Floor)
    else (x.Floor, r.y.Floor)
  }

  function NegateX(s: Sprite): Sprite {
    s.(rect := s.rect.(x := -s.rect.x))
  }

  /** `display(ctx)`. A sprite with orientation -1 mirrors the context,
      negates its own x, draws, and undoes both; the model performs those
      steps rather than skipping them. */
  function Display(s: Sprite, ctx: Ctx): (res: (Sprite, Ctx))
    ensures res.0 == s
    ensures !s.rect.visible ==> res.1 == ctx
    ensures s.rect.visible ==>
      && res.1.alpha == 1.0
      && res.1.mode == SourceOver
      && res.1.flipped == ctx.flipped
      && res.1.style == ctx.style
    ensures s.rect.visible && s.orientation == -1 ==>
      var o := DrawOrigin(-s.rect.x, s.rect);
      res.1.drawn == ctx.drawn + [Image(s.image, o.0, o.1, s.rect.alpha, s.mode, !ctx.flipped)]
    ensures s.rect.visible && s.orientation != -1 ==>
      var o := DrawOrigin(s.rect.x, s.rect);
      res.1.drawn == ctx.drawn + [Image(s.image, o.0, o.1, s.rect.alpha, s.mode, ctx.flipped)]
  {
    if !s.rect.visible then (s, ctx)
    else
      var c1 := ctx.(alpha := s.rect.alpha, mode := s.mode);
      var flip := s.orientation == -1;
      var c2 := if flip then FlipX(c1) else c1;
      var s2 := if flip then NegateX(s) else s;
      var o := DrawOrigin(s2.rect.x, s2.rect);
      var c3 := Emit(c2, Image(s2.image, o.0, o.1, c2.alpha, c2.mode, c2.flipped));
      var c4 := if flip then FlipX(c3) else c3;
      var s4 := if flip then NegateX(s2) else s2;
      (s4, c4.(alpha := 1.0, mode := SourceOver))
  }
}
