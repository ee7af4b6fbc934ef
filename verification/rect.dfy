/**
 * data/engine/rect.js: a coloured rectangle, the base of every drawable.
 * Colour components are non-negative integers; the alpha is written into the
 * fill style through JavaScript's number-to-text conversion, which is passed
 * in as `show`.
 */
module Rect {
  import opened Canvas
  import opened Text

  const DefaultColor: seq<nat> := [255, 0, 0]

  datatype Rect = Rect(
    x: real, y: real, w: real, h: real,
    centered: bool,
    color: seq<nat>,
    originalAlpha: real,
    alpha: real,
    visible: bool)

  /** `new Rect(x, y, w, h, color, centered, alpha)`. */
  function New(x: real, y: real, w: real, h: real,
               color: seq<nat> := DefaultColor, centered: bool := false, alpha: real := 1.0): (r: Rect)
    ensures r.alpha == r.originalAlpha == alpha
    ensures r.visible
    ensures r.x == x && r.y == y && r.w == w && r.h == h
    ensures r.color == color && r.centered == centered
  {
    Rect(x, y, w, h, centered, color, alpha, alpha, true)
  }

  /** The decimal texts of the components, in order. */
  function Decimals(color: seq<nat>): (ds: seq<string>)
    ensures |ds| == |color|
    ensures forall k :: 0 <= k < |color| ==> ds[k] == NatToString(color[k])
  {
    if |color| == 0 then [] else [NatToString(color[0])] + Decimals(color[1..])
  }

  /** `getColorString()`: each component in decimal followed by one comma. */
  function ColorString(color: seq<nat>): (s: string)
    ensures |color| == 0 <==> s == ""
    ensures Count(s, ',') == |color|
  {
    if |color| == 0 then ""
    else
      var head := NatToString(color[0]);
      CommaFree(color[0]);
      CountAppend(head + ",", ColorString(color[1..]), ',');
      CountAppend(head, ",", ',');
      head + "," + ColorString(color[1..])
  }

  lemma CommaFree(n: nat)
    ensures ',' !in NatToString(n)
    ensures Count(NatToString(n), ',') == 0
  {
    var s := NatToString(n);
    assert forall i :: 0 <= i < |s| ==> s[i] != ',' by {
      forall i | 0 <= i < |s| ensures s[i] != ',' {
        assert IsDigit(s[i]);
      }
    }
    CountZero(s, ',');
  }

  /** Splitting the colour string on commas gives back every component's
      decimal text, then the empty piece after the trailing comma. */
  lemma {:induction false} ColorStringSplits(color: seq<nat>)
    ensures Split(ColorString(color), ',') == Decimals(color) + [""]
    decreases |color|
  {
    if |color| > 0 {
      var head := NatToString(color[0]);
      CommaFree(color[0]);
      SplitPiece(head, ',', ColorString(color[1..]));
      assert ColorString(color) == head + [','] + ColorString(color[1..]);
      ColorStringSplits(color[1..]);
    }
  }

  /** The fill style `"rgba(" + getColorString() + alpha + ")"`. */
  function FillStyle(r: Rect, show: real -> string): (s: string)
    ensures |s| >= 6 && s[..5] == "rgba(" && s[|s| - 1] == ')'
    ensures Count(s, ',') == |r.color| + Count(show(r.alpha), ',')
  {
    CountAppend("rgba(" + ColorString(r.color), show(r.alpha), ',');
    CountAppend("rgba(", ColorString(r.color), ',');
    CountAppend("rgba(" + ColorString(r.color) + show(r.alpha), ")", ',');
    "rgba(" + ColorString(r.color) + show(r.alpha) + ")"
  }

  /** For a three-component colour the fill style reads `rgba(r,g,b,a)`:
      its inner text splits into the three components and the alpha text. */
  lemma FillStyleShape(r: Rect, show: real -> string)
    requires |r.color| == 3
    requires ',' !in show(r.alpha) && ')' !in show(r.alpha)
    ensures var s := FillStyle(r, show);
      && s[..5] == "rgba("
      && s[|s| - 1] == ')'
      && Split(s[5..|s| - 1], ',')
         == Decimals(r.color) + [show(r.alpha)]
  {
    var c := r.color;
    var a := show(r.alpha);
    var s := FillStyle(r, show);
    var inner := ColorString(c) + a;
    assert s == "rgba(" + inner + ")";
    assert s[5..|s| - 1] == inner;
    var d0, d1, d2 := NatToString(c[0]), NatToString(c[1]), NatToString(c[2]);
    ColorStringOfThree(c);
    assert inner == d0 + [','] + (d1 + [','] + (d2 + [','] + a));
    CommaFree(c[0]); CommaFree(c[1]); CommaFree(c[2]);
    SplitThree(d0, d1, d2, a);
    assert Decimals(c) + [a] == [d0, d1, d2, a];
  }

  /** The text of a three-component colour, component by component. */
  lemma ColorStringOfThree(c: seq<nat>)
    requires |c| == 3
    ensures ColorString(c) == NatToString(c[0]) + [','] + (NatToString(c[1]) + [','] + (NatToString(c[2]) + [',']))
  {
    var c1 := c[1..];
    var c2 := c1[1..];
    assert c2[1..] == [];
    assert ColorString(c2) == NatToString(c[2]) + [','];
    assert ColorString(c1) == NatToString(c[1]) + [','] + ColorString(c2);
  }

  /** Three comma-free pieces and a comma-free tail, joined by commas,
      split back into the four. */
  lemma SplitThree(d0: string, d1: string, d2: string, a: string)
    requires ',' !in d0 && ',' !in d1 && ',' !in d2 && ',' !in a
    ensures Split(d0 + [','] + (d1 + [','] + (d2 + [','] + a)), ',') == [d0, d1, d2, a]
  {
    SplitWhole(a, ',');
    SplitPiece(d2, ',', a);
    SplitPiece(d1, ',', d2 + [','] + a);
    SplitPiece(d0, ',', d1 + [','] + (d2 + [','] + a));
  }

  /** `update(x, y)`: moves the rectangle and changes nothing else. */
  function Update(r: Rect, x: real, y: real): (r': Rect)
    ensures r'.x == x && r'.y == y
    ensures r'.w == r.w && r'.h == r.h && r'.centered == r.centered && r'.color == r.color
    ensures r'.alpha == r.alpha && r'.originalAlpha == r.originalAlpha && r'.visible == r.visible
  {
    r.(x := x, y := y)
  }

  /** The top-left corner `fillRect` receives: shifted by half the size and
      floored when centred, the position itself otherwise. */
  function FillOrigin(r: Rect): (o: (real, real))
    ensures r.centered ==> o.0 <= r.x - r.w / 2.0 < o.0 + 1.0 && o.1 <= r.y - r.h / 2.0 < o.1 + 1.0
    ensures !r.centered ==> o == (r.x, r.y)
  {
    if r.centered then ((r.x - r.w / 2.0).Floor as real, (r.y - r.h / 2.0).Floor as real)
    else (r.x, r.y)
  }

  /** `display(ctx)`: an invisible rectangle draws nothing; a visible one
      fills itself in "source-over" mode with its fill style. */
  function Display(r: Rect, ctx: Ctx, show: real -> string): (c: Ctx)
    ensures !r.visible ==> c == ctx
    ensures r.visible ==>
      && c.mode == SourceOver
      && c.style == FillStyle(r, show)
      && c.alpha == ctx.alpha && c.flipped == ctx.flipped
      && c.drawn == ctx.drawn + [Fill(FillOrigin(r).0, FillOrigin(r).1, r.w, r.h, c.style, SourceOver)]
  {
    if !r.visible then ctx
    else
      var c1 := ctx.(mode := SourceOver, style := FillStyle(r, show));
      var o := FillOrigin(r);
      Emit(c1, Fill(o.0, o.1, r.w, r.h, c1.style, c1.mode))
  }
}
