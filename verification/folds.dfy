/**
  Folds of `min` and `max` over non-empty sequences of reals.

  The optimiser folds distances with `f64::min` / `f64::max` starting from an
  infinite seed. Over a non-empty sequence of finite values the seed never
  wins, so the fold is the fold of the sequence itself, taken left to right.
 */
module Folds {

  /** `f64::min` on finite values. */
  function Min(a: real, b: real): (r: real)
    ensures r <= a && r <= b
    ensures r == a || r == b
  {
    if a <= b then a else b
  }

  /** `f64::max` on finite values. */
  function Max(a: real, b: real): (r: real)
    ensures a <= r && b <= r
    ensures r == a || r == b
  {
    if a >= b then a else b
  }

  /** Left-to-right fold of `Min`: the least element, and one that occurs. */
  function MinOf(xs: seq<real>): (r: real)
    requires |xs| > 0
    ensures forall i :: 0 <= i < |xs| ==> r <= xs[i]
    ensures exists i :: 0 <= i < |xs| && r == xs[i]
  {
    if |xs| == 1 then xs[0]
    else
      var front := xs[..|xs| - 1];
      assert forall i :: 0 <= i < |front| ==> front[i] == xs[i];
      Min(MinOf(front), xs[|xs| - 1])
  }

  /** Left-to-right fold of `Max`: the greatest element, and one that occurs. */
  function MaxOf(xs: seq<real>): (r: real)
    requires |xs| > 0
    ensures forall i :: 0 <= i < |xs| ==> xs[i] <= r
    ensures exists i :: 0 <= i < |xs| && r == xs[i]
  {
    if |xs| == 1 then xs[0]
    else
      var front := xs[..|xs| - 1];
      assert forall i :: 0 <= i < |front| ==> front[i] == xs[i];
      Max(MaxOf(front), xs[|xs| - 1])
  }

  /** Raising no element lowers the maximum. */
  lemma MaxOfMonotone(xs: seq<real>, ys: seq<real>)
    requires |xs| == |ys| > 0
    requires forall i :: 0 <= i < |xs| ==> xs[i] <= ys[i]
    ensures MaxOf(xs) <= MaxOf(ys)
  {
    var i :| 0 <= i < |xs| && MaxOf(xs) == xs[i];
    assert ys[i] <= MaxOf(ys);
  }
}
