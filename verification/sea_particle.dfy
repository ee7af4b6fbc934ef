/**
 * The sea particle, written identically in model/seaParticle.js and
 * data/model/frontLayer.js: a one-pixel white rectangle whose alpha moves by
 * a fixed step and turns back once it has reached 0 or 1.
 */
module SeaParticle {
  import Rect
  import opened Utils

  datatype SeaParticle = SeaParticle(rect: Rect.Rect, increment: real)

  /** `new SeaParticle(x, y)` with `r` the draw behind `randomFloat(0.004, 0.02)`. */
  function New(x: real, y: real, r: real): (p: SeaParticle)
    ensures p.rect.alpha == 1.0 && p.rect.visible
    ensures p.rect.w == 1.0 && p.rect.h == 1.0 && p.rect.color == [255, 255, 255]
    ensures IsDraw(r) ==> 0.004 <= p.increment < 0.02
  {
    SeaParticle(Rect.New(x, y, 1.0, 1.0, [255, 255, 255], false, 1.0), RandomFloat(0.004, 0.02, r))
  }

  /** `update()`: reverse the step when alpha is at or past a bound, then step. */
  function Update(p: SeaParticle): (p': SeaParticle)
    ensures Abs(p'.increment) == Abs(p.increment)
    ensures p.increment != 0.0 ==>
      (p'.increment != p.increment <==> p.rect.alpha <= 0.0 || p.rect.alpha >= 1.0)
    ensures p'.rect.alpha == p.rect.alpha + p'.increment
    ensures p'.rect.(alpha := p.rect.alpha) == p.rect
  {
    var inc := if p.rect.alpha <= 0.0 || p.rect.alpha >= 1.0 then -p.increment else p.increment;
    SeaParticle(p.rect.(alpha := p.rect.alpha + inc), inc)
  }

  /** What every reachable particle satisfies: alpha within one step of
      [0, 1], and a particle at or past a bound is still heading past it. */
  predicate Bounded(p: SeaParticle) {
    var a, d := p.rect.alpha, Abs(p.increment);
    && d > 0.0
    && -d < a < 1.0 + d
    && (a <= 0.0 ==> p.increment < 0.0)
    && (a >= 1.0 ==> p.increment > 0.0)
  }

  /** A new particle's first update turns it downwards. */
  lemma FirstUpdateFalls(x: real, y: real, r: real)
    requires IsDraw(r)
    ensures Update(New(x, y, r)).increment < 0.0
    ensures Update(New(x, y, r)).rect.alpha < 1.0
  {
  }

  lemma NewBounded(x: real, y: real, r: real)
    requires IsDraw(r)
    ensures Bounded(New(x, y, r))
  {
  }

  lemma UpdateBounded(p: SeaParticle)
    requires Bounded(p)
    ensures Bounded(Update(p))
  {
  }

  function Updates(p: SeaParticle, k: nat): SeaParticle
    decreases k
  {
    if k == 0 then p else Updates(Update(p), k - 1)
  }

  /** From its constructed state, a particle's alpha never leaves
      (-|increment|, 1 + |increment|), however many frames pass. */
  lemma {:induction false} AlphaStaysNearUnit(x: real, y: real, r: real, k: nat)
    requires IsDraw(r)
    ensures var p, q := New(x, y, r), Updates(New(x, y, r), k);
      -Abs(p.increment) < q.rect.alpha < 1.0 + Abs(p.increment)
  {
    NewBounded(x, y, r);
    UpdatesBounded(New(x, y, r), k);
  }

  lemma {:induction false} UpdatesBounded(p: SeaParticle, k: nat)
    requires Bounded(p)
    ensures Bounded(Updates(p, k)) && Abs(Updates(p, k).increment) == Abs(p.increment)
    decreases k
  {
    if k > 0 {
      UpdateBounded(p);
      UpdatesBounded(Update(p), k - 1);
    }
  }
}
