/**
 * The removal idiom used by data/model/skyLayer.js and
 * data/model/frontLayer.js: a `for…of` loop over an array that, for some
 * visited elements, calls `array.splice(array.indexOf(element), 1)`.
 *
 * A `for…of` loop over an array keeps an index and re-reads the array's
 * length on every step. Removing the current element moves its successor
 * into the slot the index has just left, so that successor is not visited in
 * the same pass. `step` is what the loop body does to a visited element
 * before deciding, and `done` is the removal test on the stepped element.
 */
module SpliceLoop {

  /** What one pass leaves behind, defined element by element. */
  function Sweep<T(==)>(a: seq<T>, step: T -> T, done: T -> bool): (out: seq<T>)
    ensures |out| <= |a|
    decreases |a|
  {
    if |a| == 0 then []
    else if done(step(a[0])) then (if |a| == 1 then [] else [a[1]] + Sweep(a[2..], step, done))
    else [step(a[0])] + Sweep(a[1..], step, done)
  }

  /** The loop invariant: the visited prefix followed by the pass over the
      rest is the pass over the whole; an index one past the end means the
      last element has just been removed. */
  predicate SweepInvariant<T(==)>(orig: seq<T>, a: seq<T>, i: nat, step: T -> T, done: T -> bool) {
    && i <= |a| + 1
    && (i <= |a| ==> a[..i] + Sweep(a[i..], step, done) == Sweep(orig, step, done))
    && (i == |a| + 1 ==> a == Sweep(orig, step, done))
  }

  /** The loop as the program writes it. Objects are distinct, so `indexOf`
      of the current element is the loop index. */
  method SpliceWhileIterating<T(==)>(orig: seq<T>, step: T -> T, done: T -> bool) returns (out: seq<T>)
    ensures out == Sweep(orig, step, done)
  {
    var a := orig;
    var i := 0;
    while i < |a|
      invariant SweepInvariant(orig, a, i, step, done)
      decreases |a| + 1 - i
    {
      var e := step(a[i]);
      VisitKeepsInvariant(orig, a, i, step, done);
      a := a[i := e];
      if done(e) {
        a := a[..i] + a[i + 1..];
      }
      i := i + 1;
    }
    out := a;
  }

  /** One pass of the loop body keeps the invariant. */
  lemma VisitKeepsInvariant<T>(orig: seq<T>, a: seq<T>, i: nat, step: T -> T, done: T -> bool)
    requires i < |a| && SweepInvariant(orig, a, i, step, done)
    ensures var e := step(a[i]);
      var b := a[i := e];
      && (done(e) ==> SweepInvariant(orig, b[..i] + b[i + 1..], i + 1, step, done))
      && (!done(e) ==> SweepInvariant(orig, b, i + 1, step, done))
  {
    var e := step(a[i]);
    var b := a[i := e];
    var pre, rest := a[..i], a[i..];
    assert rest[0] == a[i];
    if done(e) {
      var c := b[..i] + b[i + 1..];
      assert c == pre + rest[1..];
      if |rest| > 1 {
        assert Sweep(rest, step, done) == [rest[1]] + Sweep(rest[2..], step, done);
        assert c[..i + 1] == pre + [rest[1]];
        assert c[i + 1..] == rest[2..];
        assert (pre + [rest[1]]) + Sweep(rest[2..], step, done) == pre + Sweep(rest, step, done);
      } else {
        assert Sweep(rest, step, done) == [];
        assert c == pre;
      }
    } else {
      assert Sweep(rest, step, done) == [e] + Sweep(rest[1..], step, done);
      assert b[..i + 1] == pre + [e];
      assert b[i + 1..] == rest[1..];
      assert (pre + [e]) + Sweep(rest[1..], step, done) == pre + Sweep(rest, step, done);
    }
  }

  /** The positions, in the array before the pass, of the elements left after it. */
  function Kept<T(==)>(a: seq<T>, step: T -> T, done: T -> bool): (pos: seq<nat>)
    ensures |pos| == |Sweep(a, step, done)|
    ensures forall k :: 0 <= k < |pos| ==> pos[k] < |a|
    ensures forall k, l :: 0 <= k < l < |pos| ==> pos[k] < pos[l]
    decreases |a|
  {
    if |a| == 0 then []
    else if done(step(a[0])) then
      (if |a| == 1 then [] else [1] + Shift(Kept(a[2..], step, done), 2))
    else [0] + Shift(Kept(a[1..], step, done), 1)
  }

  function Shift(pos: seq<nat>, d: nat): (r: seq<nat>)
    ensures |r| == |pos|
    ensures forall k :: 0 <= k < |pos| ==> r[k] == pos[k] + d
  {
    seq(|pos|, k requires 0 <= k < |pos| => pos[k] + d)
  }

  lemma ShiftMember(pos: seq<nat>, d: nat, x: int)
    ensures x in Shift(pos, d) <==> x >= d && x - d in pos
  {
    if x >= d && x - d in pos {
      var k :| 0 <= k < |pos| && pos[k] == x - d;
      assert Shift(pos, d)[k] == x;
    }
  }

  /** `Sweep` and `Kept` after the first visit, which consumes `d` elements. */
  lemma SweepUnfold<T>(a: seq<T>, step: T -> T, done: T -> bool)
    requires |Sweep(a, step, done)| > 0
    ensures var fin := done(step(a[0]));
      var d := if fin then 2 else 1;
      && d <= |a|
      && Sweep(a, step, done) == [if fin then a[1] else step(a[0])] + Sweep(a[d..], step, done)
      && Kept(a, step, done) == [d - 1] + Shift(Kept(a[d..], step, done), d)
  {
  }

  /** Every element missing after the pass was visited, and its stepped
      value was due for removal. */
  lemma {:induction false} SweepDropsOnlyDone<T>(a: seq<T>, step: T -> T, done: T -> bool)
    ensures forall i :: 0 <= i < |a| && i !in Kept(a, step, done) ==> done(step(a[i]))
    decreases |a|
  {
    if |a| > 0 {
      var pos := Kept(a, step, done);
      var d := if done(step(a[0])) then 2 else 1;
      if |a| >= d {
        var b := a[d..];
        var rest := Shift(Kept(b, step, done), d);
        assert pos == [d - 1] + rest;
        SweepDropsOnlyDone(b, step, done);
        forall i | 0 <= i < |a| && i !in pos
          ensures done(step(a[i]))
        {
          if i >= d {
            ShiftMember(Kept(b, step, done), d, i);
            assert i !in rest;
            assert a[i] == b[i - d];
          } else {
            assert i != d - 1;
          }
        }
      }
    }
  }

  /** What the `k`-th survivor is: its stepped self when that was not due for
      removal, or, when it sat right behind an element removed in this pass,
      its unvisited self. */
  predicate Survivor<T(==)>(a: seq<T>, out: seq<T>, pos: seq<nat>, k: nat, step: T -> T, done: T -> bool)
    requires k < |out| && k < |pos| && pos[k] < |a|
  {
    || (out[k] == step(a[pos[k]]) && !done(out[k]))
    || (out[k] == a[pos[k]] && pos[k] > 0 && pos[k] - 1 !in pos)
  }

  /** A survivor's description carries over when a prefix is put in front. */
  lemma SurvivorExtend<T>(a: seq<T>, d: nat, outA: seq<T>, posA: seq<nat>,
                          outB: seq<T>, posB: seq<nat>, k: nat, step: T -> T, done: T -> bool)
    requires 1 <= d <= |a|
    requires 0 < k < |outA| && |outA| == |posA| && |outB| == |posB|
    requires outA == [outA[0]] + outB && posA == [d - 1] + Shift(posB, d)
    requires forall m :: 0 <= m < |posB| ==> posB[m] < |a| - d
    requires Survivor(a[d..], outB, posB, k - 1, step, done)
    ensures Survivor(a, outA, posA, k, step, done)
  {
    var j := k - 1;
    assert outA[k] == outB[j] && posA[k] == posB[j] + d && a[posA[k]] == a[d..][posB[j]];
    ShiftMember(posB, d, posA[k] - 1);
  }

  lemma {:induction false} SweepEntry<T>(a: seq<T>, k: nat, step: T -> T, done: T -> bool)
    requires k < |Sweep(a, step, done)|
    ensures Survivor(a, Sweep(a, step, done), Kept(a, step, done), k, step, done)
    decreases |a|
  {
    SweepUnfold(a, step, done);
    var fin := done(step(a[0]));
    var d := if fin then 2 else 1;
    if k > 0 {
      SweepEntry(a[d..], k - 1, step, done);
      SurvivorExtend(a, d, Sweep(a, step, done), Kept(a, step, done),
                     Sweep(a[d..], step, done), Kept(a[d..], step, done), k, step, done);
    } else if fin {
      ShiftMember(Kept(a[d..], step, done), d, 0);
    }
  }

  /** Survivors keep their relative order, and each is described by `Survivor`. */
  lemma SweepKeepsOrder<T>(a: seq<T>, step: T -> T, done: T -> bool)
    ensures forall k :: 0 <= k < |Sweep(a, step, done)| ==>
      Survivor(a, Sweep(a, step, done), Kept(a, step, done), k, step, done)
  {
    forall k | 0 <= k < |Sweep(a, step, done)| {
      SweepEntry(a, k, step, done);
    }
  }

  /** An element whose stepped value is not due for removal is never removed. */
  lemma KeepsNotDone<T>(a: seq<T>, step: T -> T, done: T -> bool, i: nat)
    requires i < |a| && !done(step(a[i]))
    ensures i in Kept(a, step, done)
  {
    SweepDropsOnlyDone(a, step, done);
  }

  /** Whatever invariant `ok` the stepped-and-kept and the unvisited elements
      share holds of every survivor. */
  lemma {:induction false} SweepPreserves<T>(a: seq<T>, step: T -> T, done: T -> bool, ok: T -> bool)
    requires forall k :: 0 <= k < |a| ==> ok(a[k])
    requires forall x :: ok(x) && !done(step(x)) ==> ok(step(x))
    ensures forall k :: 0 <= k < |Sweep(a, step, done)| ==> ok(Sweep(a, step, done)[k])
    decreases |a|
  {
    if |a| > 0 {
      if done(step(a[0])) {
        if |a| > 1 {
          SweepPreserves(a[2..], step, done, ok);
        }
      } else {
        SweepPreserves(a[1..], step, done, ok);
      }
    }
  }
}
