/** The measures of src/measures.rs: ways to fold a list of (score, weight)
    inputs into one number. */
module Measures {
  import opened Numeric

  /** One input of a measure: a child's score and the weight it was pushed
      with. */
  datatype Input = Input(score: real, weight: real)

  /** Every input's score lies in [0, 1] and its weight is non-negative. */
  predicate WellFormed(inputs: seq<Input>)
  {
    forall i :: 0 <= i < |inputs| ==> 0.0 <= inputs[i].score <= 1.0 && inputs[i].weight >= 0.0
  }

  /** `score * weight` for each input, in order. */
  function Weighted(inputs: seq<Input>): (ws: seq<real>)
    ensures |ws| == |inputs|
    ensures forall i :: 0 <= i < |inputs| ==> ws[i] == inputs[i].score * inputs[i].weight
  {
    seq(|inputs|, i requires 0 <= i < |inputs| => inputs[i].score * inputs[i].weight)
  }

  /** The weights, in order. */
  function Weights(inputs: seq<Input>): (ws: seq<real>)
    ensures |ws| == |inputs|
    ensures forall i :: 0 <= i < |inputs| ==> ws[i] == inputs[i].weight
  {
    seq(|inputs|, i requires 0 <= i < |inputs| => inputs[i].weight)
  }

  /** Every input's score and weight lie in [0, 1]. */
  predicate UnitInputs(inputs: seq<Input>)
  {
    forall i :: 0 <= i < |inputs| ==> 0.0 <= inputs[i].score <= 1.0 && 0.0 <= inputs[i].weight <= 1.0
  }

  /** `WeightedSum::calculate`: the sum of the weighted scores. No inputs
      give 0; with scores in [0, 1] and non-negative weights the result lies
      between 0 and the total weight. */
  function WeightedSumOf(inputs: seq<Input>): (r: real)
    ensures |inputs| == 0 ==> r == 0.0
    ensures WellFormed(inputs) ==> 0.0 <= r <= Sum(Weights(inputs))
  {
    assert |inputs| == 0 ==> Weighted(inputs) == [];
    assert WellFormed(inputs) ==> 0.0 <= Sum(Weighted(inputs)) <= Sum(Weights(inputs)) by {
      if WellFormed(inputs) { WeightedSumBounds(inputs); }
    }
    Sum(Weighted(inputs))
  }

  /** `WeightedProduct::calculate`: the product of the weighted scores. No
      inputs give 1; non-negative weights give a non-negative result; with
      scores and weights in [0, 1] the result lies in [0, 1] and is at most
      each weighted score. */
  function WeightedProductOf(inputs: seq<Input>): (r: real)
    ensures |inputs| == 0 ==> r == 1.0
    ensures WellFormed(inputs) ==> r >= 0.0
    ensures UnitInputs(inputs) ==>
      (0.0 <= r <= 1.0 && forall i :: 0 <= i < |inputs| ==> r <= inputs[i].score * inputs[i].weight)
  {
    assert |inputs| == 0 ==> Weighted(inputs) == [];
    assert WellFormed(inputs) ==> Product(Weighted(inputs)) >= 0.0 by {
      if WellFormed(inputs) { WeightedProductNonNegative(inputs); }
    }
    assert UnitInputs(inputs) ==>
      (0.0 <= Product(Weighted(inputs)) <= 1.0 &&
       forall i :: 0 <= i < |inputs| ==> Product(Weighted(inputs)) <= inputs[i].score * inputs[i].weight) by {
      if UnitInputs(inputs) { WeightedProductUnit(inputs); }
    }
    Product(Weighted(inputs))
  }

  lemma WeightedPrefix(inputs: seq<Input>)
    requires |inputs| > 0
    ensures Weighted(inputs)[..|inputs| - 1] == Weighted(inputs[..|inputs| - 1])
    ensures Weights(inputs)[..|inputs| - 1] == Weights(inputs[..|inputs| - 1])
  {
    var init := inputs[..|inputs| - 1];
    assert forall i :: 0 <= i < |init| ==> Weighted(inputs)[..|inputs| - 1][i] == Weighted(init)[i];
    assert forall i :: 0 <= i < |init| ==> Weights(inputs)[..|inputs| - 1][i] == Weights(init)[i];
  }

  /** With scores in [0, 1] and non-negative weights, the weighted sum is
      non-negative and at most the total weight. */
  lemma {:induction false} WeightedSumBounds(inputs: seq<Input>)
    requires WellFormed(inputs)
    ensures 0.0 <= Sum(Weighted(inputs)) <= Sum(Weights(inputs))
  {
    if |inputs| > 0 {
      var init := inputs[..|inputs| - 1];
      var last := inputs[|inputs| - 1];
      assert WellFormed(init) by {
        forall i | 0 <= i < |init| ensures 0.0 <= init[i].score <= 1.0 && init[i].weight >= 0.0 {
          assert init[i] == inputs[i];
        }
      }
      WeightedSumBounds(init);
      WeightedSumStep(inputs);
      AddWeighted(Sum(Weighted(init)), Sum(Weights(init)), last.score, last.weight);
    } else {
      assert Weighted(inputs) == [] && Weights(inputs) == [];
    }
  }

  lemma WeightedSumStep(inputs: seq<Input>)
    requires |inputs| > 0
    ensures var init, last := inputs[..|inputs| - 1], inputs[|inputs| - 1];
      Sum(Weighted(inputs)) == Sum(Weighted(init)) + last.score * last.weight &&
      Sum(Weights(inputs)) == Sum(Weights(init)) + last.weight
  {
    WeightedPrefix(inputs);
  }

  lemma AddWeighted(a: real, b: real, s: real, w: real)
    requires 0.0 <= a <= b && 0.0 <= s <= 1.0 && w >= 0.0
    ensures 0.0 <= a + s * w <= b + w
  {
    MulUnitWeight(s, w);
  }

  lemma MulUnitWeight(s: real, w: real)
    requires 0.0 <= s <= 1.0 && w >= 0.0
    ensures 0.0 <= s * w <= w
  {
    assert (1.0 - s) * w >= 0.0;
  }

  /** With every score and weight in [0, 1], the weighted product lies in
      [0, 1] and is at most each weighted score. */
  lemma WeightedProductUnit(inputs: seq<Input>)
    requires UnitInputs(inputs)
    ensures 0.0 <= Product(Weighted(inputs)) <= 1.0
    ensures forall i :: 0 <= i < |inputs| ==> Product(Weighted(inputs)) <= inputs[i].score * inputs[i].weight
  {
    var ws := Weighted(inputs);
    forall i | 0 <= i < |ws| ensures 0.0 <= ws[i] <= 1.0 {
      MulUnit(inputs[i].score, inputs[i].weight);
    }
    ProductUnit(ws);
  }

  /** The fold of `max` over `ws`, left to right, starting from 0. */
  function FoldMax(ws: seq<real>): (r: real)
    ensures r >= 0.0
  {
    if |ws| == 0 then 0.0
    else
      var best := FoldMax(ws[..|ws| - 1]);
      if ws[|ws| - 1] > best then ws[|ws| - 1] else best
  }

  lemma {:induction false} FoldMaxIsMax(ws: seq<real>)
    ensures forall i :: 0 <= i < |ws| ==> ws[i] <= FoldMax(ws)
    ensures FoldMax(ws) == 0.0 || exists i :: 0 <= i < |ws| && ws[i] == FoldMax(ws)
  {
    if |ws| > 0 {
      var init := ws[..|ws| - 1];
      FoldMaxIsMax(init);
      assert forall i :: 0 <= i < |init| ==> init[i] == ws[i];
    }
  }

  /** `ChebyshevDistance::calculate`: the fold of `max` over the weighted
      scores, starting from 0. */
  function ChebyshevOf(inputs: seq<Input>): (r: real)
    ensures r >= 0.0
  {
    FoldMax(Weighted(inputs))
  }

  /** The Chebyshev measure is the largest weighted score, or 0 when every
      weighted score is below 0: it bounds every weighted score and is the
      starting 0 or one of them. */
  lemma ChebyshevIsMax(inputs: seq<Input>)
    ensures forall i :: 0 <= i < |inputs| ==> inputs[i].score * inputs[i].weight <= ChebyshevOf(inputs)
    ensures ChebyshevOf(inputs) == 0.0 ||
      exists i :: 0 <= i < |inputs| && inputs[i].score * inputs[i].weight == ChebyshevOf(inputs)
  {
    FoldMaxIsMax(Weighted(inputs));
  }

  /** The total weight, `wsum`. */
  function WeightSum(inputs: seq<Input>): real
  {
    Sum(Weights(inputs))
  }

  /** The sum of `weight / wsum * score^2`, left to right. */
  function MeanSquare(inputs: seq<Input>, wsum: real): real
    requires wsum != 0.0
  {
    if |inputs| == 0 then 0.0
    else
      var last := inputs[|inputs| - 1];
      MeanSquare(inputs[..|inputs| - 1], wsum) + last.weight / wsum * (last.score * last.score)
  }

  /** `sqrt` is the non-negative square root on non-negative reals. */
  ghost predicate IsSquareRoot(sqrt: real -> real)
  {
    forall x :: x >= 0.0 ==> sqrt(x) >= 0.0 && sqrt(x) * sqrt(x) == x
  }

  /** `WeightedMeasure::calculate`: 0 when the weights sum to 0, else the
      square root (`powf(0.5)`, supplied as `sqrt`) of the weighted mean of
      the squared scores. */
  function WeightedMeasureOf(inputs: seq<Input>, sqrt: real -> real): (r: real)
    ensures WeightSum(inputs) == 0.0 ==> r == 0.0
    ensures WeightSum(inputs) != 0.0 && IsSquareRoot(sqrt) && MeanSquare(inputs, WeightSum(inputs)) >= 0.0 ==>
      r >= 0.0 && r * r == MeanSquare(inputs, WeightSum(inputs))
  {
    var wsum := WeightSum(inputs);
    if wsum == 0.0 then 0.0 else sqrt(MeanSquare(inputs, wsum))
  }

  lemma DivAdd(a: real, b: real, w: real)
    requires w != 0.0
    ensures a / w + b / w == (a + b) / w
  {
    var q, r := a / w, b / w;
    assert q * w == a && r * w == b;
    assert (q + r) * w == a + b;
  }

  /** With scores in [0, 1] and a positive total of non-negative weights,
      the mean square is non-negative and at most the weights seen so far
      over the total. */
  lemma {:induction false} MeanSquareBounds(inputs: seq<Input>, wsum: real)
    requires WellFormed(inputs) && wsum > 0.0
    ensures 0.0 <= MeanSquare(inputs, wsum) <= WeightSum(inputs) / wsum
  {
    if |inputs| > 0 {
      var init := inputs[..|inputs| - 1];
      var last := inputs[|inputs| - 1];
      assert WellFormed(init) by {
        forall i | 0 <= i < |init| ensures 0.0 <= init[i].score <= 1.0 && init[i].weight >= 0.0 {
          assert init[i] == inputs[i];
        }
      }
      MeanSquareBounds(init, wsum);
      WeightedPrefix(inputs);
      var a, b := MeanSquare(init, wsum), WeightSum(init);
      assert WeightSum(inputs) == b + last.weight;
      assert MeanSquare(inputs, wsum) == a + last.weight / wsum * (last.score * last.score);
      AddMeanSquare(a, b, last.score, last.weight, wsum);
    } else {
      assert Weights(inputs) == [];
    }
  }

  lemma AddMeanSquare(a: real, b: real, s: real, w: real, wsum: real)
    requires wsum > 0.0 && 0.0 <= a <= b / wsum && 0.0 <= s <= 1.0 && w >= 0.0
    ensures 0.0 <= a + w / wsum * (s * s) <= (b + w) / wsum
  {
    var f := w / wsum;
    assert f * wsum == w;
    assert f >= 0.0;
    MulUnit(s, s);
    MulUnitWeight(s * s, f);
    var g := w / wsum * (s * s);
    assert g == (s * s) * f;
    assert g <= f;
    DivAdd(b, w, wsum);
    assert b / wsum + f == (b + w) / wsum;
  }

  /** With scores in [0, 1] and non-negative weights, `WeightedMeasure`
      lies in [0, 1]. */
  lemma WeightedMeasureUnit(inputs: seq<Input>, sqrt: real -> real)
    requires WellFormed(inputs) && IsSquareRoot(sqrt)
    ensures 0.0 <= WeightedMeasureOf(inputs, sqrt) <= 1.0
  {
    var wsum := WeightSum(inputs);
    SumNonNegative(Weights(inputs));
    if wsum != 0.0 {
      MeanSquareBounds(inputs, wsum);
      assert wsum / wsum == 1.0 by {
        assert (wsum / wsum) * wsum == wsum;
        assert (wsum / wsum - 1.0) * wsum == 0.0;
      }
    }
  }

  /** The four measures the library ships. */
  datatype Measure = WeightedSum | WeightedProduct | ChebyshevDistance | WeightedMeasure

  /** `Measure::calculate` for the shipped measures. With scores in [0, 1]
      and non-negative weights every measure is non-negative, and
      `WeightedMeasure` is at most 1. */
  function Calculate(m: Measure, inputs: seq<Input>, sqrt: real -> real): (r: real)
    ensures WellFormed(inputs) && IsSquareRoot(sqrt) ==> r >= 0.0
    ensures WellFormed(inputs) && IsSquareRoot(sqrt) && m == WeightedMeasure ==> r <= 1.0
  {
    match m
    case WeightedSum => WeightedSumOf(inputs)
    case WeightedProduct => WeightedProductOf(inputs)
    case ChebyshevDistance => ChebyshevOf(inputs)
    case WeightedMeasure =>
      assert WellFormed(inputs) && IsSquareRoot(sqrt) ==> 0.0 <= WeightedMeasureOf(inputs, sqrt) <= 1.0 by {
        if WellFormed(inputs) && IsSquareRoot(sqrt) { WeightedMeasureUnit(inputs, sqrt); }
      }
      WeightedMeasureOf(inputs, sqrt)
  }

  lemma WeightedProductNonNegative(inputs: seq<Input>)
    requires WellFormed(inputs)
    ensures Product(Weighted(inputs)) >= 0.0
  {
    var ws := Weighted(inputs);
    forall i | 0 <= i < |ws| ensures ws[i] >= 0.0 {
      MulUnitWeight(inputs[i].score, inputs[i].weight);
    }
    ProductNonNegative(ws);
  }

  lemma {:induction false} ProductNonNegative(s: seq<real>)
    requires forall i :: 0 <= i < |s| ==> s[i] >= 0.0
    ensures Product(s) >= 0.0
  {
    if |s| > 0 {
      ProductNonNegative(s[..|s| - 1]);
      var a, b := Product(s[..|s| - 1]), s[|s| - 1];
      assert a * b >= 0.0;
    }
  }
}
