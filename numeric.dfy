/** Arithmetic shared by the scorers, measures and evaluators. Scores are
    32-bit floats in the library; here they are reals, so rounding, NaN and
    infinities are not modelled. */
module Numeric {

  /** `f32::clamp(lo, hi)`, which panics when `lo > hi`. */
  function Clamp(v: real, lo: real, hi: real): (r: real)
    requires lo <= hi
    ensures lo <= r <= hi
    ensures lo <= v <= hi ==> r == v
    ensures v < lo ==> r == lo
    ensures v > hi ==> r == hi
  {
    if v < lo then lo else if v > hi then hi else v
  }

  /** Clamping twice into the same range is clamping once. */
  lemma ClampIdempotent(v: real, lo: real, hi: real)
    requires lo <= hi
    ensures Clamp(Clamp(v, lo, hi), lo, hi) == Clamp(v, lo, hi)
  {
  }

  /** Clamping keeps order. */
  lemma ClampMonotone(u: real, v: real, lo: real, hi: real)
    requires lo <= hi && u <= v
    ensures Clamp(u, lo, hi) <= Clamp(v, lo, hi)
  {
  }

  /** True iff every element lies in [0, 1]. */
  predicate AllUnit(s: seq<real>)
  {
    forall i :: 0 <= i < |s| ==> 0.0 <= s[i] <= 1.0
  }

  /** Left-to-right sum, as `for x in s { sum += x }` computes it. */
  function Sum(s: seq<real>): real
  {
    if |s| == 0 then 0.0 else Sum(s[..|s| - 1]) + s[|s| - 1]
  }

  /** Left-to-right product; the empty product is 1. */
  function Product(s: seq<real>): real
  {
    if |s| == 0 then 1.0 else Product(s[..|s| - 1]) * s[|s| - 1]
  }

  /** The sum of non-negative values is non-negative. */
  lemma {:induction false} SumNonNegative(s: seq<real>)
    requires forall i :: 0 <= i < |s| ==> s[i] >= 0.0
    ensures Sum(s) >= 0.0
  {
    if |s| > 0 {
      SumNonNegative(s[..|s| - 1]);
    }
  }

  /** The product of two non-negative reals is non-negative. */
  lemma MulNonNegative(x: real, y: real)
    requires x >= 0.0 && y >= 0.0
    ensures x * y >= 0.0
  {
  }

  lemma MulUnit(a: real, b: real)
    requires 0.0 <= a <= 1.0 && 0.0 <= b <= 1.0
    ensures 0.0 <= a * b <= b && a * b <= a
  {
    assert (1.0 - a) * b >= 0.0;
    assert a * (1.0 - b) >= 0.0;
  }

  /** A product of values in [0, 1] lies in [0, 1] and is at most each of
      its factors. */
  lemma {:induction false} ProductUnit(s: seq<real>)
    requires AllUnit(s)
    ensures 0.0 <= Product(s) <= 1.0
    ensures forall i :: 0 <= i < |s| ==> Product(s) <= s[i]
  {
    if |s| > 0 {
      var init := s[..|s| - 1];
      assert AllUnit(init) by {
        forall i | 0 <= i < |init| ensures 0.0 <= init[i] <= 1.0 {
          assert init[i] == s[i];
        }
      }
      ProductUnit(init);
      var a, b := Product(init), s[|s| - 1];
      MulUnit(a, b);
      assert Product(s) == a * b;
      forall i | 0 <= i < |s| ensures Product(s) <= s[i] {
        if i < |s| - 1 {
          assert init[i] == s[i];
          assert a <= init[i];
        } else {
          assert s[i] == b;
        }
      }
    }
  }

  /** The largest element of a non-empty sequence: the last element after
      sorting in ascending order. */
  function Max(s: seq<real>): (m: real)
    requires |s| > 0
    ensures forall i :: 0 <= i < |s| ==> s[i] <= m
    ensures exists i :: 0 <= i < |s| && s[i] == m
  {
    if |s| == 1 then s[0]
    else
      var rest := Max(s[..|s| - 1]);
      assert forall i :: 0 <= i < |s| - 1 ==> s[..|s| - 1][i] == s[i];
      if s[|s| - 1] > rest then s[|s| - 1] else rest
  }
}
