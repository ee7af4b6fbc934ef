/**
 * main.js, the boats and clouds of the front group: each frame every boat
 * sails along its facing and every cloud drifts with its velocity; one that
 * leaves the screen by more than its margin is brought back at the edge,
 * turned to face inwards.
 */
module MainDrift {
  import opened Utils

  const Width: real := 256.0

  /** `BOAT_LENGTH` and `BOAT_OFFSCREEN_MARGIN = BOAT_LENGTH * 10`. */
  const BoatLength: real := 8.0
  const BoatMargin: real := 80.0

  /** `CLOUD_LENGTH`, which is also `CLOUD_OFFSCREEN_MARGIN`. */
  const CloudLength: real := 40.0
  const CloudMargin: real := 40.0

  const SeaLevel: real := 120.0

  const CloudSprites: seq<string> := ["assets/sprites/clouds/1.png", "assets/sprites/clouds/2.png",
                                      "assets/sprites/clouds/3.png", "assets/sprites/clouds/4.png"]

  /** `scale.x` is the facing, +1 (right) or -1 (left); `vx` is the speed. */
  datatype Boat = Boat(x: real, y: real, scale: real, vx: real)

  datatype Cloud = Cloud(image: string, x: real, y: real, scale: real, vx: real)

  predicate Facing(scale: real) {
    scale == 1.0 || scale == -1.0
  }

  /** A boat from the start-up loop, given its draws for facing, position
      and speed. */
  function NewBoat(rScale: real, rX: real, rVx: real): (b: Boat)
    ensures Facing(b.scale) && (b.scale == 1.0 <==> rScale > 0.5)
    ensures b.y == SeaLevel
    ensures IsDraw(rX) ==> -BoatMargin <= b.x < Width + BoatMargin
    ensures IsDraw(rVx) ==> 0.0 <= b.vx < 0.1
  {
    Boat(RandomFloat(-BoatMargin, Width + BoatMargin, rX), SeaLevel,
         if rScale > 0.5 then 1.0 else -1.0, RandomFloat(0.0, 0.1, rVx))
  }

  /** One frame of a boat. */
  function UpdateBoat(b: Boat): (b': Boat)
    ensures -BoatMargin <= b'.x <= Width + BoatMargin
    ensures b'.y == b.y && b'.vx == b.vx
    ensures b.x + b.vx * b.scale < -BoatMargin ==> b'.scale == 1.0 && b'.x == -BoatLength
    ensures b.x + b.vx * b.scale > Width + BoatMargin ==> b'.scale == -1.0 && b'.x == Width + BoatLength
    ensures -BoatMargin <= b.x + b.vx * b.scale <= Width + BoatMargin ==>
      b'.scale == b.scale && b'.x == b.x + b.vx * b.scale
  {
    var x := b.x + b.vx * b.scale;
    if x < -BoatMargin then b.(scale := 1.0, x := -BoatLength)
    else if x > Width + BoatMargin then b.(scale := -1.0, x := Width + BoatLength)
    else b.(x := x)
  }

  /** A boat with a forward speed keeps a facing, and only leaves by the
      side it faces: one put back behind the right margin was facing right
      and now faces left, one put back in front of the left margin the other
      way round. */
  lemma BoatTurnsInwards(b: Boat)
    requires Facing(b.scale) && b.vx >= 0.0 && -BoatMargin <= b.x <= Width + BoatMargin
    ensures Facing(UpdateBoat(b).scale)
    ensures UpdateBoat(b).x < b.x + b.vx * b.scale ==> b.scale == 1.0 && UpdateBoat(b).scale == -1.0
    ensures UpdateBoat(b).x > b.x + b.vx * b.scale ==> b.scale == -1.0 && UpdateBoat(b).scale == 1.0
  {
    if b.scale == 1.0 {
      assert b.vx * b.scale == b.vx;
      assert b.x + b.vx * b.scale >= -BoatMargin;
    } else {
      assert b.vx * b.scale == -b.vx;
    }
  }

  /** The boats loop. */
  function UpdateBoats(bs: seq<Boat>): (bs': seq<Boat>)
    ensures |bs'| == |bs|
    ensures forall i :: 0 <= i < |bs| ==> bs'[i] == UpdateBoat(bs[i])
    ensures forall i :: 0 <= i < |bs| ==> -BoatMargin <= bs'[i].x <= Width + BoatMargin
  {
    seq(|bs|, i requires 0 <= i < |bs| => UpdateBoat(bs[i]))
  }

  /** A cloud from the start-up loop, given its draws for sprite, position,
      height, direction and speed. */
  function NewCloud(rImage: real, rX: real, rY: real, rSign: real, rVx: real): (c: Cloud)
    ensures Facing(c.scale) && (c.scale == 1.0 <==> rSign > 0.5)
    ensures IsDraw(rImage) ==> c.image in CloudSprites
    ensures IsDraw(rX) ==> -CloudMargin <= c.x < Width + CloudMargin
    ensures IsDraw(rY) ==> 12.0 <= c.y < 62.0
    ensures IsDraw(rVx) ==> Abs(c.vx) < 0.1 && c.vx * c.scale >= 0.0
  {
    var k := Trunc(rImage * |CloudSprites| as real);
    ScaledDraw(rImage, |CloudSprites| as real);
    var sign := if rSign > 0.5 then 1.0 else -1.0;
    var speed := RandomFloat(0.0, 0.1, rVx);
    Cloud(if 0 <= k < |CloudSprites| then CloudSprites[k] else "undefined",
          RandomFloat(-CloudMargin, Width + CloudMargin, rX),
          RandomFloat(12.0, 62.0, rY) , sign, speed * sign)
  }

  /** One frame of a cloud. */
  function UpdateCloud(c: Cloud): (c': Cloud)
    ensures -CloudMargin <= c'.x <= Width + CloudMargin
    ensures Abs(c'.vx) == Abs(c.vx) && c'.y == c.y && c'.scale == c.scale && c'.image == c.image
    ensures c.x + c.vx < -CloudMargin ==> c'.x == -CloudLength && c'.vx == -c.vx
    ensures c.x + c.vx > Width + CloudMargin ==> c'.x == Width + CloudLength && c'.vx == -c.vx
    ensures -CloudMargin <= c.x + c.vx <= Width + CloudMargin ==> c'.x == c.x + c.vx && c'.vx == c.vx
  {
    var x := c.x + c.vx;
    if x < -CloudMargin then c.(x := -CloudLength, vx := -c.vx)
    else if x > Width + CloudMargin then c.(x := Width + CloudLength, vx := -c.vx)
    else c.(x := x)
  }

  /** A cloud that starts on screen and bounces off an edge leaves it with
      its velocity pointing back in. */
  lemma CloudBouncesInwards(c: Cloud)
    requires -CloudMargin <= c.x <= Width + CloudMargin
    ensures c.x + c.vx < -CloudMargin ==> UpdateCloud(c).vx > 0.0
    ensures c.x + c.vx > Width + CloudMargin ==> UpdateCloud(c).vx < 0.0
  {
  }

  /** The clouds loop. */
  function UpdateClouds(cs: seq<Cloud>): (cs': seq<Cloud>)
    ensures |cs'| == |cs|
    ensures forall i :: 0 <= i < |cs| ==> cs'[i] == UpdateCloud(cs[i])
    ensures forall i :: 0 <= i < |cs| ==> -CloudMargin <= cs'[i].x <= Width + CloudMargin
  {
    seq(|cs|, i requires 0 <= i < |cs| => UpdateCloud(cs[i]))
  }

  /** Frames of clouds: every cloud keeps its speed, whatever the number of
      bounces. */
  function CloudFrames(cs: seq<Cloud>, n: nat): seq<Cloud>
    decreases n
  {
    if n == 0 then cs else CloudFrames(UpdateClouds(cs), n - 1)
  }

  lemma {:induction false} CloudSpeedKept(cs: seq<Cloud>, n: nat)
    ensures |CloudFrames(cs, n)| == |cs|
    ensures forall i :: 0 <= i < |cs| ==> Abs(CloudFrames(cs, n)[i].vx) == Abs(cs[i].vx)
    ensures n > 0 ==> forall i :: 0 <= i < |cs| ==> -CloudMargin <= CloudFrames(cs, n)[i].x <= Width + CloudMargin
    decreases n
  {
    if n > 0 {
      CloudSpeedKept(UpdateClouds(cs), n - 1);
    }
  }
}
