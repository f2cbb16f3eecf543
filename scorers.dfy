/** The older scorer API of src/scorers.rs. Its `Score`, all-or-nothing,
    sum and winning systems compute exactly what the current ones in module
    `Scorer` compute, so they are those members; what differs is modelled
    here: the product scorer's optional compensation, the evaluating scorer
    that reads one named inner scorer, and the measured scorer. */
module Scorers {
  import opened Ecs
  import opened Numeric
  import opened Scorer
  import opened Measures

  /** `ProductOfScorersBuilder`: the threshold, whether to compensate, and
      the child templates in push order. */
  datatype ProductOfScorersBuilder = ProductOfScorersBuilder(threshold: real, useCompensation: bool, scorers: seq<Template>)
  {
    /** `use_compensation`. */
    function UseCompensation(on: bool): (b: ProductOfScorersBuilder)
      ensures b == this.(useCompensation := on)
    {
      this.(useCompensation := on)
    }

    /** `push`: one more child, after the others. */
    function Push(scorer: Template): (b: ProductOfScorersBuilder)
      ensures b.scorers == scorers + [scorer] && b.threshold == threshold && b.useCompensation == useCompensation
    {
      this.(scorers := scorers + [scorer])
    }
  }

  /** `ProductOfScorers::build`: no compensation unless asked for. */
  function BuildProduct(threshold: real): (b: ProductOfScorersBuilder)
    ensures b.threshold == threshold && !b.useCompensation && b.scorers == []
  {
    ProductOfScorersBuilder(threshold, false, [])
  }

  /** What `product_of_scorers_system` writes: the compensated product when
      compensation is on, the plain one otherwise. */
  function ProductScore(threshold: real, useCompensation: bool, s: seq<real>): (r: real)
    ensures 0.0 <= r <= 1.0
    ensures !useCompensation ==> r == ProductOfScorers(threshold, s)
    ensures useCompensation ==> r == CompensatedProduct(threshold, s)
  {
    if useCompensation then CompensatedProduct(threshold, s) else ProductOfScorers(threshold, s)
  }

  /** Turning compensation on never lowers the output when the children's
      scores are in range, and changes nothing for a single child. */
  lemma CompensationNeverLowers(threshold: real, s: seq<real>)
    requires AllUnit(s)
    ensures ProductScore(threshold, true, s) >= ProductScore(threshold, false, s)
    ensures |s| == 1 ==> ProductScore(threshold, true, s) == ProductScore(threshold, false, s)
  {
    CompensatedAtLeastPlain(threshold, s);
  }

  /** `product_of_scorers_system` (src/scorers.rs:305-342) for one scorer. */
  method ProductSystem(threshold: real, useCompensation: bool, children: seq<Score>, parent: Score)
    requires parent !in children
    modifies parent
    ensures parent.value == ProductScore(threshold, useCompensation, Values(children))
  {
    var product, numScorers := ProductValues(children);
    EmptyProductIsOne(Values(children));
    if useCompensation && product < 1.0 {
      var modFactor := 1.0 - 1.0 / (numScorers as real);
      var makeup := (1.0 - product) * modFactor;
      product := product + makeup * product;
    }
    if product < threshold {
      product := 0.0;
    }
    parent.Set(Clamp(product, 0.0, 1.0));
  }

  /** What `evaluating_scorer_system` writes for an inner score `inner`. */
  function EvaluatedScore(evaluate: real -> real, inner: real): (r: real)
    ensures 0.0 <= r <= 1.0
    // an evaluator already in range passes through unchanged
    ensures 0.0 <= evaluate(inner) <= 1.0 ==> r == evaluate(inner)
    ensures evaluate(inner) < 0.0 ==> r == 0.0
    ensures evaluate(inner) > 1.0 ==> r == 1.0
  {
    Clamp(evaluate(inner), 0.0, 1.0)
  }

  /** `evaluating_scorer_system` for one scorer: reads the inner scorer it
      was built with, applies the evaluator and writes the clamped value. */
  method EvaluatingScorerSystem(evaluate: real -> real, inner: Score, parent: Score)
    requires parent != inner
    modifies parent
    ensures parent.value == EvaluatedScore(evaluate, old(inner.value))
  {
    var value := evaluate(inner.value);
    parent.Set(Clamp(value, 0.0, 1.0));
  }

  /** The `MeasuredScorer` component: threshold, measure, and each child
      with the weight it was pushed with. */
  datatype MeasuredScorer = MeasuredScorer(threshold: real, measure: Measure, scorers: seq<(Entity, real)>)

  /** `MeasuredScorerBuilder`: threshold, measure, and the child templates
      with their weights, in push order. */
  datatype MeasuredScorerBuilder = MeasuredScorerBuilder(threshold: real, measure: Measure, scorers: seq<(Template, real)>)
  {
    /** `measure`: replaces the measure. */
    function WithMeasure(m: Measure): (b: MeasuredScorerBuilder)
      ensures b == this.(measure := m)
    {
      this.(measure := m)
    }

    /** `push`: one more child with its weight, after the others. */
    function Push(scorer: Template, weight: real): (b: MeasuredScorerBuilder)
      ensures b.scorers == scorers + [(scorer, weight)] && b.threshold == threshold && b.measure == measure
    {
      this.(scorers := scorers + [(scorer, weight)])
    }
  }

  /** `MeasuredScorer::build`: the default measure is `WeightedMeasure`. */
  function BuildMeasured(threshold: real): (b: MeasuredScorerBuilder)
    ensures b.threshold == threshold && b.measure == WeightedMeasure && b.scorers == []
  {
    MeasuredScorerBuilder(threshold, WeightedMeasure, [])
  }

  /** The component `MeasuredScorerBuilder::spawn` inserts once the
      children have been spawned as `children`, in push order: each child
      is paired with the weight pushed at the same position. */
  function SpawnMeasured(b: MeasuredScorerBuilder, children: seq<Entity>): (m: MeasuredScorer)
    requires |children| == |b.scorers|
    ensures m.threshold == b.threshold && m.measure == b.measure
    ensures |m.scorers| == |b.scorers|
    ensures forall i :: 0 <= i < |m.scorers| ==> m.scorers[i].0 == children[i] && m.scorers[i].1 == b.scorers[i].1
  {
    MeasuredScorer(b.threshold, b.measure,
                   seq(|children|, i requires 0 <= i < |children| => (children[i], b.scorers[i].1)))
  }

  /** Pushing one more child and spawning pairs the new child with its
      weight at the end and leaves the earlier pairs as they were. */
  lemma {:induction false} SpawnAfterPush(b: MeasuredScorerBuilder, scorer: Template, weight: real,
                                          children: seq<Entity>, child: Entity)
    requires |children| == |b.scorers|
    ensures SpawnMeasured(b.Push(scorer, weight), children + [child]).scorers ==
            SpawnMeasured(b, children).scorers + [(child, weight)]
  {
    var lhs := SpawnMeasured(b.Push(scorer, weight), children + [child]).scorers;
    var rhs := SpawnMeasured(b, children).scorers + [(child, weight)];
    assert |lhs| == |rhs|;
    forall i | 0 <= i < |lhs| ensures lhs[i] == rhs[i] {
      if i < |children| {
        assert (children + [child])[i] == children[i];
      }
    }
  }

  /** Every child of the measured scorer has a score. */
  predicate AllScored(scorers: seq<(Entity, real)>, scores: map<Entity, real>)
  {
    forall i :: 0 <= i < |scorers| ==> scorers[i].0 in scores
  }

  /** The measure's inputs: each child's current score with its weight. */
  function Inputs(scorers: seq<(Entity, real)>, scores: map<Entity, real>): (inputs: seq<Input>)
    requires AllScored(scorers, scores)
    ensures |inputs| == |scorers|
    ensures forall i :: 0 <= i < |inputs| ==> inputs[i] == Input(scores[scorers[i].0], scorers[i].1)
  {
    seq(|scorers|, i requires 0 <= i < |scorers| => Input(scores[scorers[i].0], scorers[i].1))
  }

  /** What `measured_scorers_system` writes for a measured value. */
  function MeasuredScore(threshold: real, measured: real): (r: real)
    ensures 0.0 <= r <= 1.0
    ensures measured < threshold ==> r == 0.0
    ensures measured >= threshold ==> r == Clamp(measured, 0.0, 1.0)
  {
    if measured < threshold then 0.0 else Clamp(measured, 0.0, 1.0)
  }

  /** With the default measure, in-range scores and non-negative weights, a
      measured value that reaches the threshold is written unchanged. */
  lemma DefaultMeasureUnclamped(threshold: real, inputs: seq<Input>, sqrt: real -> real)
    requires WellFormed(inputs) && IsSquareRoot(sqrt)
    requires Calculate(WeightedMeasure, inputs, sqrt) >= threshold
    ensures MeasuredScore(threshold, Calculate(WeightedMeasure, inputs, sqrt)) == Calculate(WeightedMeasure, inputs, sqrt)
  {
    WeightedMeasureUnit(inputs, sqrt);
  }

  /** `measured_scorers_system` (src/scorers.rs:645-666) for one scorer:
      collects the inputs, applies the measure (`sqrt` stands for
      `f32::powf(0.5)`) and writes the thresholded, clamped value. */
  method MeasuredScorerSystem(m: MeasuredScorer, scores: map<Entity, real>, sqrt: real -> real, parent: Score)
    requires AllScored(m.scorers, scores)
    modifies parent
    ensures parent.value == MeasuredScore(m.threshold, Calculate(m.measure, Inputs(m.scorers, scores), sqrt))
  {
    var inputs: seq<Input> := [];
    var i := 0;
    while i < |m.scorers|
      invariant 0 <= i <= |m.scorers|
      invariant inputs == Inputs(m.scorers, scores)[..i]
    {
      var (scorer, weight) := m.scorers[i];
      inputs := inputs + [Input(scores[scorer], weight)];
      i := i + 1;
    }
    assert inputs == Inputs(m.scorers, scores);
    var measured := Calculate(m.measure, inputs, sqrt);
    if measured < m.threshold {
      parent.Set(0.0);
    } else {
      parent.Set(Clamp(measured, 0.0, 1.0));
    }
  }
}
