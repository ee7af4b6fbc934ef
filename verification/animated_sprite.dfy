/**
 * data/engine/animatedSprite.js: a sprite cycling through a list of frames.
 *
 * Its constructor passes its own `(centered, alpha, orientation)` on to
 * Sprite's `(centered, mode, alpha)` slots, so the caller's alpha becomes
 * the mode, the caller's orientation becomes the alpha, and the orientation
 * is always Sprite's default 1.
 */
module AnimatedSprite {
  import opened Canvas
  import Sprite

  datatype AnimatedSprite = AnimatedSprite(base: Sprite.Sprite, frames: seq<string>, currentIndex: nat)

  /** The state every constructed and updated animation keeps. */
  predicate Valid(a: AnimatedSprite) {
    0 < |a.frames| && a.currentIndex < |a.frames|
  }

  /** `new AnimatedSprite(x, y, spriteFiles, centered, alpha, orientation)`.
      With no file the first image's source is `undefined`, which the browser
      reads as the text "undefined". */
  function New(x: real, y: real, files: seq<string>,
               centered: bool := false, alpha: real := 1.0, orientation: real := 1.0): (a: AnimatedSprite)
    ensures a.currentIndex == 0 && a.frames == files
    ensures |files| > 0 ==> Valid(a) && a.base.image == files[0]
    ensures a.base.orientation == 1
    ensures a.base.mode == Num(alpha) && a.base.rect.alpha == orientation
    ensures a.base.rect.centered == centered && a.base.rect.x == x && a.base.rect.y == y
  {
    var first := if |files| > 0 then files[0] else "undefined";
    AnimatedSprite(Sprite.New(x, y, first, centered, Num(alpha), orientation), files, 0)
  }

  /** `update()`: advance to the next frame, wrapping after the last one. */
  function Update(a: AnimatedSprite): (a': AnimatedSprite)
    requires Valid(a)
    ensures Valid(a')
    ensures a'.currentIndex == (a.currentIndex + 1) % |a.frames|
    ensures a'.base.image == a'.frames[a'.currentIndex]
    ensures a'.frames == a.frames && a'.base.rect == a.base.rect
    ensures a'.base.orientation == a.base.orientation && a'.base.mode == a.base.mode
  {
    var i := (a.currentIndex + 1) % |a.frames|;
    a.(currentIndex := i, base := a.base.(image := a.frames[i]))
  }

  /** `k` consecutive updates. */
  function Updates(a: AnimatedSprite, k: nat): (a': AnimatedSprite)
    requires Valid(a)
    ensures Valid(a') && a'.frames == a.frames
    decreases k
  {
    if k == 0 then a else Updates(Update(a), k - 1)
  }

  /** After `k` updates the index has advanced by `k` modulo the frame count. */
  lemma {:induction false} UpdatesIndex(a: AnimatedSprite, k: nat)
    requires Valid(a)
    ensures Updates(a, k).currentIndex == (a.currentIndex + k) % |a.frames|
    decreases k
  {
    if k > 0 {
      var n := |a.frames|;
      var b := Update(a);
      UpdatesIndex(b, k - 1);
      var i := a.currentIndex;
      assert b.currentIndex == (i + 1) % n;
      ModShift(i, k, n);
    }
  }

  lemma ModShift(i: nat, k: nat, n: nat)
    requires n > 0 && k > 0
    ensures ((i + 1) % n + (k - 1)) % n == (i + k) % n
  {
    var q := (i + 1) / n;
    assert i + 1 == q * n + (i + 1) % n;
    assert i + k == q * n + ((i + 1) % n + (k - 1));
    ModAddMultiple(q, n, (i + 1) % n + (k - 1));
  }

  lemma ModAddMultiple(q: nat, n: nat, m: nat)
    requires n > 0
    ensures (q * n + m) % n == m % n
  {
    var d, r := m / n, m % n;
    assert m == d * n + r;
    assert q * n + m == (q + d) * n + r;
    ModUnique(q * n + m, q + d, r, n);
  }

  /** Euclidean division is unique: `x == a * n + r` with `0 <= r < n` fixes `x % n`. */
  lemma ModUnique(x: int, a: int, r: int, n: int)
    requires n > 0 && 0 <= r < n && x == a * n + r
    ensures x % n == r
  {
    var b, s := x / n, x % n;
    assert x == b * n + s;
    assert (a - b) * n == s - r;
    MulBound(a - b, n);
  }

  lemma MulBound(d: int, n: int)
    requires n > 0
    ensures d >= 1 ==> d * n >= n
    ensures d <= -1 ==> d * n <= -n
  {
    if d >= 1 {
      assert d * n == (d - 1) * n + n;
      assert (d - 1) * n >= 0;
    } else if d <= -1 {
      assert d * n == (d + 1) * n - n;
      assert (d + 1) * n <= 0;
    }
  }

  /** A full cycle of updates brings a valid animation back to where it was. */
  lemma FullCycle(a: AnimatedSprite)
    requires Valid(a) && a.base.image == a.frames[a.currentIndex]
    ensures Updates(a, |a.frames|).currentIndex == a.currentIndex
    ensures Updates(a, |a.frames|) == a
  {
    var n := |a.frames|;
    var b := Updates(a, n);
    UpdatesIndex(a, n);
    ModUnique(a.currentIndex + n, 1, a.currentIndex, n);
    assert b.currentIndex == a.currentIndex;
    UpdatesFrame(a, n);
    assert b.base == a.base;
  }

  /** Updates change nothing but the index and the image it selects. */
  lemma {:induction false} UpdatesFrame(a: AnimatedSprite, k: nat)
    requires Valid(a)
    ensures var b := Updates(a, k);
      b.base.rect == a.base.rect && b.base.orientation == a.base.orientation && b.base.mode == a.base.mode
      && (k > 0 ==> b.base.image == b.frames[b.currentIndex])
    decreases k
  {
    if k > 0 {
      UpdatesFrame(Update(a), k - 1);
    }
  }
}
