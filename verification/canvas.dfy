/**
 * The parts of a 2D canvas context that the engine classes write: the global
 * alpha, the compositing mode, the horizontal flip set by `ctx.scale(-1, 1)`,
 * the fill style, and the log of what was drawn (with the alpha, mode and flip
 * in force at the time). Pixels are not modelled.
 */
module Canvas {

  /** A JavaScript argument slot that callers fill either with text or with a
      number: the `mode` parameter of data/engine/sprite.js receives both. */
  datatype Arg = Text(s: string) | Num(n: real)

  const SourceOver: Arg := Text("source-over")

  datatype Draw =
    | Image(file: string, ix: int, iy: int, alpha: real, mode: Arg, flipped: bool)
    | Fill(x: real, y: real, w: real, h: real, style: string, mode: Arg)

  datatype Ctx = Ctx(alpha: real, mode: Arg, flipped: bool, style: string, drawn: seq<Draw>)

  /** `ctx.scale(-1, 1)`: mirrors the x axis, so applying it twice undoes it. */
  function FlipX(ctx: Ctx): (c: Ctx)
    ensures c.flipped != ctx.flipped
    ensures c.(flipped := ctx.flipped) == ctx
  {
    ctx.(flipped := !ctx.flipped)
  }

  /** Appends one entry to the drawing log. */
  function Emit(ctx: Ctx, d: Draw): (c: Ctx)
    ensures c.drawn == ctx.drawn + [d]
    ensures c.(drawn := ctx.drawn) == ctx
  {
    ctx.(drawn := ctx.drawn + [d])
  }
}
