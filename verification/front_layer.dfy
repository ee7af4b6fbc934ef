/**
 * data/model/frontLayer.js without its drawing: the boats crossing the sea
 * and the twinkling sea particles. Every random draw of a frame is a
 * parameter.
 */
module FrontLayer {
  import opened Utils
  import opened Canvas
  import Sprite
  import SeaParticle
  import Config
  import SpliceLoop

  const BoatFile: string := "assets/img/boat.png"

  /** `Boat.SPEED`. */
  const Speed: real := 0.04

  /** Spawning stops once this many boats are on screen. */
  const MaxBoats: nat := 3

  /** `new Boat(x, y, orientation)`. Boat hands `(false, 1.0, orientation)`
      to Sprite's `(centered, mode, alpha)` slots: the mode becomes the
      number 1.0, the alpha becomes the orientation, and the orientation
      field keeps Sprite's default 1. */
  function NewBoat(x: real, y: real, orientation: int): (b: Sprite.Sprite)
    ensures b.orientation == 1
    ensures b.rect.alpha == b.rect.originalAlpha == orientation as real
    ensures b.mode == Num(1.0) && !b.rect.centered && b.image == BoatFile
    ensures b.rect.x == x && b.rect.y == y && b.rect.visible
  {
    Sprite.New(x, y, BoatFile, false, Num(1.0), orientation as real)
  }

  /** `Boat.update()`: move by `SPEED * orientation` along x. */
  function UpdateBoat(b: Sprite.Sprite): (b': Sprite.Sprite)
    ensures b'.rect.x == b.rect.x + Speed * b.orientation as real
    ensures b'.rect.(x := b.rect.x) == b.rect
    ensures b'.image == b.image && b'.orientation == b.orientation && b'.mode == b.mode
  {
    Sprite.SetCoordinates(b, b.rect.x + Speed * b.orientation as real, b.rect.y)
  }

  /** Whatever orientation it was built with, a boat drifts 0.04 to the right
      every frame. */
  lemma BoatsDriftRight(x: real, y: real, orientation: int)
    ensures UpdateBoat(NewBoat(x, y, orientation)).rect.x == x + 0.04
    ensures UpdateBoat(NewBoat(x, y, orientation)).orientation == 1
  {
  }

  /** The orientation `[-1, 1][randomInt(0, 2)]` picks for a draw `r`. */
  function DrawnOrientation(r: real): (o: int)
    requires IsDraw(r)
    ensures o == -1 || o == 1
    ensures o == 1 <==> r >= 0.5
  {
    var i := RandomInt(0, 2, r);
    assert i == 0 || i == 1;
    RandomIntZero(2, r);
    [-1, 1][i]
  }

  /** `addRandomBoat()`: a boat heading right enters at the left edge, one
      heading left at the right edge, both on the sea line. `r` is the draw
      behind the orientation; `Math.random()` is always in [0, 1). */
  function AddRandomBoat(boats: seq<Sprite.Sprite>, k: Config.Constants, r: real): (boats': seq<Sprite.Sprite>)
    requires IsDraw(r)
    ensures |boats'| == |boats| + 1 && boats'[..|boats|] == boats
    ensures var b, o := boats'[|boats|], DrawnOrientation(r);
      && b == NewBoat(b.rect.x, b.rect.y, o)
      && b.rect.y == (k.seaLevel - 7) as real
      && (o == 1 ==> b.rect.x == -6.0)
      && (o == -1 ==> b.rect.x == (k.width + 6) as real)
  {
    var o := DrawnOrientation(r);
    var x := if o == 1 then -6 else k.width + 6;
    boats + [NewBoat(x as real, (k.seaLevel - 7) as real, o)]
  }

  /** The removal test of the last loop of `display`. */
  predicate OutOfBounds(k: Config.Constants, b: Sprite.Sprite) {
    b.rect.x < -k.outOfBound || k.width as real + k.outOfBound < b.rect.x
  }

  /** What the removal loop leaves: out-of-bounds boats spliced out, the
      boat behind each removed one spared for that frame. */
  function Prune(k: Config.Constants, boats: seq<Sprite.Sprite>): (out: seq<Sprite.Sprite>)
    ensures |out| <= |boats|
  {
    SpliceLoop.Sweep(boats, b => b, b => OutOfBounds(k, b))
  }

  /** Every boat left was in the list, in the same order, and every
      boat within bounds is left. */
  lemma PruneKeepsInBounds(k: Config.Constants, boats: seq<Sprite.Sprite>)
    ensures var pos := SpliceLoop.Kept(boats, b => b, b => OutOfBounds(k, b));
      && |pos| == |Prune(k, boats)|
      && (forall j :: 0 <= j < |pos| ==> Prune(k, boats)[j] == boats[pos[j]])
      && (forall i :: 0 <= i < |boats| && !OutOfBounds(k, boats[i]) ==> i in pos)
  {
    var done := b => OutOfBounds(k, b);
    var pos := SpliceLoop.Kept(boats, b => b, done);
    SpliceLoop.SweepKeepsOrder(boats, b => b, done);
    forall j | 0 <= j < |pos|
      ensures Prune(k, boats)[j] == boats[pos[j]]
    {
      assert SpliceLoop.Survivor(boats, Prune(k, boats), pos, j, b => b, done);
    }
    SpliceLoop.SweepDropsOnlyDone(boats, b => b, done);
  }

  /** A removed boat was out of bounds. */
  lemma PruneDropsOnlyOutOfBounds(k: Config.Constants, boats: seq<Sprite.Sprite>, i: nat)
    requires i < |boats| && i !in SpliceLoop.Kept(boats, b => b, b => OutOfBounds(k, b))
    ensures OutOfBounds(k, boats[i])
  {
    SpliceLoop.SweepDropsOnlyDone(boats, b => b, b => OutOfBounds(k, b));
  }

  /** The skip, on two boats both past the edge: only the first goes. */
  lemma SplicedBoatSkipped(k: Config.Constants, first: Sprite.Sprite, second: Sprite.Sprite)
    requires OutOfBounds(k, first) && OutOfBounds(k, second)
    ensures Prune(k, [first, second]) == [second]
  {
  }

  /** The draws of one frame: the 1-in-5000 spawn gate and the orientation. */
  datatype FrontDraws = FrontDraws(spawn: real, side: real)

  datatype FrontLayer = FrontLayer(sea: Sprite.Sprite, boats: seq<Sprite.Sprite>, particles: seq<SeaParticle.SeaParticle>)

  /** `display(ctx, canvas, sunAltitude, dawnAlpha)` without its drawing:
      boats move, one may spawn while fewer than three exist, particles
      update, and boats out of bounds are spliced out. */
  method Display(layer: FrontLayer, k: Config.Constants, d: FrontDraws) returns (next: FrontLayer)
    requires IsDraw(d.side)
    ensures var moved := seq(|layer.boats|, i requires 0 <= i < |layer.boats| => UpdateBoat(layer.boats[i]));
      var spawns := RandomInt(0, 5000, d.spawn) == 0 && |layer.boats| < MaxBoats;
      next.boats == Prune(k, if spawns then AddRandomBoat(moved, k, d.side) else moved)
    ensures |layer.boats| <= MaxBoats ==> |next.boats| <= MaxBoats
    ensures |next.particles| == |layer.particles|
    ensures forall i :: 0 <= i < |layer.particles| ==> next.particles[i] == SeaParticle.Update(layer.particles[i])
    ensures next.sea == layer.sea
  {
    var boats := seq(|layer.boats|, i requires 0 <= i < |layer.boats| => UpdateBoat(layer.boats[i]));
    if RandomInt(0, 5000, d.spawn) == 0 && |boats| < MaxBoats {
      boats := AddRandomBoat(boats, k, d.side);
    }
    var particles := seq(|layer.particles|, i requires 0 <= i < |layer.particles| => SeaParticle.Update(layer.particles[i]));
    boats := SpliceLoop.SpliceWhileIterating(boats, b => b, b => OutOfBounds(k, b));
    next := FrontLayer(layer.sea, boats, particles);
  }

  /** Every particle a frame leaves behind keeps the bound of a constructed one. */
  lemma DisplayKeepsParticlesBounded(layer: FrontLayer, next: FrontLayer)
    requires forall i :: 0 <= i < |layer.particles| ==> SeaParticle.Bounded(layer.particles[i])
    requires |next.particles| == |layer.particles|
    requires forall i :: 0 <= i < |layer.particles| ==> next.particles[i] == SeaParticle.Update(layer.particles[i])
    ensures forall i :: 0 <= i < |next.particles| ==> SeaParticle.Bounded(next.particles[i])
  {
    forall i | 0 <= i < |next.particles|
      ensures SeaParticle.Bounded(next.particles[i])
    {
      SeaParticle.UpdateBounded(layer.particles[i]);
    }
  }
}
