/** The evaluators of src/evaluator.rs: curves that map a raw value onto a
    score range, and the evaluating scorer that applies one to its first
    child's score. */
module Evaluator {
  import opened Ecs
  import opened Numeric
  import opened Scorer
  import Scorers

  /** The four arguments of `LinearEvaluator::new`: two calibration points
      (xa, ya) and (xb, yb). */
  datatype LinearArgs = LinearArgs(xa: real, ya: real, xb: real, yb: real)
  {
    /** The two points have different x, so the slope is defined. */
    predicate Constructible()
    {
      xa != xb
    }
  }

  /** `LinearEvaluator`: the first point, the output range and the slope. */
  datatype LinearEvaluator = LinearEvaluator(xa: real, ya: real, yb: real, dyOverDx: real)

  /** `LinearEvaluator::new`. */
  function NewLinear(a: LinearArgs): (e: LinearEvaluator)
    requires a.Constructible()
    ensures e.xa == a.xa && e.ya == a.ya && e.yb == a.yb
    // the slope carries the first point onto the second
    ensures e.dyOverDx * (a.xb - a.xa) == a.yb - a.ya
  {
    LinearEvaluator(a.xa, a.ya, a.yb, (a.yb - a.ya) / (a.xb - a.xa))
  }

  /** `LinearEvaluator::evaluate`: the line through the first point with
      the stored slope, clamped into [ya, yb]; `f32::clamp` panics when
      ya > yb. */
  function EvaluateLinear(e: LinearEvaluator, x: real): (r: real)
    requires e.ya <= e.yb
    ensures e.ya <= r <= e.yb
    ensures e.ya < e.yb ==> (r == e.ya <==> e.ya + e.dyOverDx * (x - e.xa) <= e.ya)
    ensures e.ya < e.yb ==> (r == e.yb <==> e.ya + e.dyOverDx * (x - e.xa) >= e.yb)
    // between the bounds the point on the line itself
    ensures e.ya <= e.ya + e.dyOverDx * (x - e.xa) <= e.yb ==> r == e.ya + e.dyOverDx * (x - e.xa)
  {
    Clamp(e.ya + e.dyOverDx * (x - e.xa), e.ya, e.yb)
  }

  /** A linear evaluator maps its calibration points onto themselves. */
  lemma LinearCalibration(a: LinearArgs)
    requires a.Constructible() && a.ya <= a.yb
    ensures EvaluateLinear(NewLinear(a), a.xa) == a.ya
    ensures EvaluateLinear(NewLinear(a), a.xb) == a.yb
  {
    var e := NewLinear(a);
    assert e.ya + e.dyOverDx * (a.xb - e.xa) == a.yb;
  }

  /** With a non-negative slope the evaluator keeps order. */
  lemma LinearMonotone(e: LinearEvaluator, u: real, v: real)
    requires e.ya <= e.yb && e.dyOverDx >= 0.0 && u <= v
    ensures EvaluateLinear(e, u) <= EvaluateLinear(e, v)
  {
    assert e.dyOverDx * (v - e.xa) - e.dyOverDx * (u - e.xa) == e.dyOverDx * (v - u);
    MulNonNegative(e.dyOverDx, v - u);
    ClampMonotone(e.ya + e.dyOverDx * (u - e.xa), e.ya + e.dyOverDx * (v - e.xa), e.ya, e.yb);
  }

  /** `LinearEvaluator::default()`: the points (0, 0) and (1, 1). */
  function DefaultLinear(): (e: LinearEvaluator)
    ensures e.ya == 0.0 && e.yb == 1.0
  {
    NewLinear(LinearArgs(0.0, 0.0, 1.0, 1.0))
  }

  /** The default linear evaluator is the clamp into [0, 1]. */
  lemma DefaultLinearIsClamp(x: real)
    ensures EvaluateLinear(DefaultLinear(), x) == Clamp(x, 0.0, 1.0)
  {
    assert DefaultLinear().dyOverDx == 1.0;
  }

  /** `LinearEvaluator::ranged(min, max)`: the points (min, 0) and
      (max, 1). */
  function Ranged(min: real, max: real): (e: LinearEvaluator)
    requires min != max
    ensures e.ya == 0.0 && e.yb == 1.0 && e.xa == min
  {
    NewLinear(LinearArgs(min, 0.0, max, 1.0))
  }

  /** `ranged(min, max)` maps min to 0 and max to 1, and a value between
      them to its relative position. */
  lemma RangedCalibration(min: real, max: real, x: real)
    requires min < max
    ensures EvaluateLinear(Ranged(min, max), min) == 0.0
    ensures EvaluateLinear(Ranged(min, max), max) == 1.0
    ensures min <= x <= max ==> EvaluateLinear(Ranged(min, max), x) == (x - min) / (max - min)
  {
    LinearCalibration(LinearArgs(min, 0.0, max, 1.0));
    var e := Ranged(min, max);
    if min <= x <= max {
      var t := (x - min) / (max - min);
      assert e.dyOverDx == 1.0 / (max - min);
      assert e.dyOverDx * (x - min) == t;
      assert t * (max - min) == x - min;
      FractionUnit(x - min, max - min);
    }
  }

  /** The arguments `LinearEvaluator::inversed()` passes to `new` as
      written (src/evaluator.rs:79). */
  function InversedArgsAsWritten(): (a: LinearArgs)
    ensures a.ya == 0.0 && a.yb == 1.0
  {
    LinearArgs(1.0, 0.0, 1.0, 1.0)
  }

  /** As written, both calibration points have x = 1, so `NewLinear`'s
      precondition fails. The f32 code still builds an evaluator, with an
      infinite slope: a step from 0 to 1 at x = 1, and NaN at x = 1 itself. */
  lemma InversedAsWrittenDegenerate()
    ensures !InversedArgsAsWritten().Constructible()
    ensures InversedArgsAsWritten().xa == InversedArgsAsWritten().xb == 1.0
  {
  }

  /** The evidently intended `inversed()`: the points (1, 0) and (0, 1). */
  function Inversed(): (e: LinearEvaluator)
    ensures e.ya == 0.0 && e.yb == 1.0
  {
    NewLinear(LinearArgs(1.0, 0.0, 0.0, 1.0))
  }

  /** The intended inverse maps x to 1 - x, clamped into [0, 1]: 0 goes to
      1 and 1 goes to 0. */
  lemma InversedIsComplement(x: real)
    ensures EvaluateLinear(Inversed(), x) == Clamp(1.0 - x, 0.0, 1.0)
    ensures EvaluateLinear(Inversed(), 0.0) == 1.0 && EvaluateLinear(Inversed(), 1.0) == 0.0
  {
    assert Inversed().dyOverDx == -1.0;
  }

  /** `PowerEvaluator`: the input range, the output start, the exponent and
      the output span. */
  datatype PowerEvaluator = PowerEvaluator(xa: real, ya: real, xb: real, power: real, dy: real)

  /** `PowerEvaluator::new_full`: the exponent is clamped into [0, 10000]. */
  function NewPowerFull(power: real, xa: real, ya: real, xb: real, yb: real): (e: PowerEvaluator)
    ensures 0.0 <= e.power <= 10000.0
    ensures 0.0 <= power <= 10000.0 ==> e.power == power
    ensures e.xa == xa && e.xb == xb && e.ya == ya && e.ya + e.dy == yb
  {
    PowerEvaluator(xa, ya, xb, Clamp(power, 0.0, 10000.0), yb - ya)
  }

  /** `PowerEvaluator::new`: input and output range [0, 1]. */
  function NewPower(power: real): (e: PowerEvaluator)
    ensures e.xa == 0.0 && e.xb == 1.0 && e.ya == 0.0 && e.dy == 1.0
    ensures 0.0 <= power <= 10000.0 ==> e.power == power
  {
    NewPowerFull(power, 0.0, 0.0, 1.0, 1.0)
  }

  /** `PowerEvaluator::new_ranged`: input range [min, max], output [0, 1]. */
  function NewPowerRanged(power: real, min: real, max: real): (e: PowerEvaluator)
    ensures e.xa == min && e.xb == max && e.ya == 0.0 && e.dy == 1.0
    ensures 0.0 <= power <= 10000.0 ==> e.power == power
  {
    NewPowerFull(power, min, 0.0, max, 1.0)
  }

  /** `PowerEvaluator::default()`: the square curve. */
  function DefaultPower(): (e: PowerEvaluator)
    ensures e.power == 2.0 && e.xa == 0.0 && e.xb == 1.0 && e.ya == 0.0 && e.dy == 1.0
  {
    NewPower(2.0)
  }

  /** The base the curve raises to `power`: the input clamped into
      [xa, xb], as a fraction of the input range. */
  function PowerBase(e: PowerEvaluator, x: real): (t: real)
    requires e.xa < e.xb
    ensures 0.0 <= t <= 1.0
    ensures x <= e.xa ==> t == 0.0
    ensures x >= e.xb ==> t == 1.0
  {
    var cx := Clamp(x, e.xa, e.xb);
    FractionUnit(cx - e.xa, e.xb - e.xa);
    (cx - e.xa) / (e.xb - e.xa)
  }

  lemma FractionUnit(a: real, b: real)
    requires 0.0 <= a <= b && b > 0.0
    ensures 0.0 <= a / b <= 1.0
    ensures a == b ==> a / b == 1.0
  {
    var q := a / b;
    assert q * b == a;
    if a == b {
      assert (q - 1.0) * b == 0.0;
    }
  }

  /** `PowerEvaluator::evaluate`, with `pow` standing for `f32::powf`. */
  function EvaluatePower(e: PowerEvaluator, x: real, pow: (real, real) -> real): (r: real)
    requires e.xa < e.xb
    ensures x <= e.xa && pow(0.0, e.power) == 0.0 ==> r == e.ya
    ensures x >= e.xb && pow(1.0, e.power) == 1.0 ==> r == e.ya + e.dy
  {
    e.dy * pow(PowerBase(e, x), e.power) + e.ya
  }

  /** With a `pow` that keeps [0, 1] in [0, 1] and a non-decreasing output
      range, every power-curve output lies between ya and yb. */
  lemma PowerInRange(e: PowerEvaluator, x: real, pow: (real, real) -> real)
    requires e.xa < e.xb && e.dy >= 0.0
    requires 0.0 <= pow(PowerBase(e, x), e.power) <= 1.0
    ensures e.ya <= EvaluatePower(e, x, pow) <= e.ya + e.dy
  {
    var p := pow(PowerBase(e, x), e.power);
    MulNonNegative(e.dy, p);
    MulNonNegative(e.dy, 1.0 - p);
  }

  /** `SigmoidEvaluator`: input range, output range and the steepness k. */
  datatype SigmoidEvaluator = SigmoidEvaluator(xa: real, xb: real, ya: real, yb: real, k: real)

  /** `SigmoidEvaluator::new_full`: k is clamped into
      [-0.99999, 0.99999]. */
  function NewSigmoidFull(k: real, xa: real, ya: real, xb: real, yb: real): (e: SigmoidEvaluator)
    ensures -0.99999 <= e.k <= 0.99999
    ensures -0.99999 <= k <= 0.99999 ==> e.k == k
    ensures e.xa == xa && e.xb == xb && e.ya == ya && e.yb == yb
  {
    SigmoidEvaluator(xa, xb, ya, yb, Clamp(k, -0.99999, 0.99999))
  }

  /** `SigmoidEvaluator::new`: input and output range [0, 1]. */
  function NewSigmoid(k: real): (e: SigmoidEvaluator)
    ensures e.xa == 0.0 && e.xb == 1.0 && e.ya == 0.0 && e.yb == 1.0
    ensures -0.99999 <= e.k <= 0.99999 && (-0.99999 <= k <= 0.99999 ==> e.k == k)
  {
    NewSigmoidFull(k, 0.0, 0.0, 1.0, 1.0)
  }

  /** `SigmoidEvaluator::new_ranged`: input range [min, max], output [0, 1]. */
  function NewSigmoidRanged(k: real, min: real, max: real): (e: SigmoidEvaluator)
    ensures e.xa == min && e.xb == max && e.ya == 0.0 && e.yb == 1.0
    ensures -0.99999 <= e.k <= 0.99999 && (-0.99999 <= k <= 0.99999 ==> e.k == k)
  {
    NewSigmoidFull(k, min, 0.0, max, 1.0)
  }

  /** `SigmoidEvaluator::default()`: k = -0.5. */
  function DefaultSigmoid(): (e: SigmoidEvaluator)
    ensures e.k == -0.5 && e.xa == 0.0 && e.xb == 1.0 && e.ya == 0.0 && e.yb == 1.0
  {
    NewSigmoid(-0.5)
  }

  function Abs(v: real): real
  {
    if v < 0.0 then -v else v
  }

  /** The clamped input's offset from the middle of [xa, xb]. */
  function SigmoidOffset(e: SigmoidEvaluator, x: real): real
    requires e.xa <= e.xb
  {
    Clamp(x, e.xa, e.xb) - (e.xa + e.xb) / 2.0
  }

  /** `two_over_dx` as written (src/evaluator.rs:190): 2 over xb - ya. */
  function TwoOverDxAsWritten(e: SigmoidEvaluator): real
    requires e.xb != e.ya
  {
    Abs(2.0 / (e.xb - e.ya))
  }

  /** As written, a ranged sigmoid whose range does not start at 0 does not
      normalise its input: for `new_ranged(k, 2, 4)` the input 4, the top
      of the range, is scaled to 0.5 rather than 1. */
  lemma TwoOverDxAsWrittenCounterexample(k: real)
    ensures var e := NewSigmoidRanged(k, 2.0, 4.0);
      TwoOverDxAsWritten(e) * SigmoidOffset(e, 4.0) == 0.5
  {
  }

  /** The evidently intended `two_over_dx`: 2 over the input width. */
  function TwoOverDx(e: SigmoidEvaluator): real
    requires e.xa < e.xb
  {
    2.0 / (e.xb - e.xa)
  }

  /** The intended factor scales the clamped input onto [-1, 1], reaching
      -1 at xa and 1 at xb. */
  lemma TwoOverDxNormalises(e: SigmoidEvaluator, x: real)
    requires e.xa < e.xb
    ensures -1.0 <= TwoOverDx(e) * SigmoidOffset(e, x) <= 1.0
    ensures TwoOverDx(e) * SigmoidOffset(e, e.xa) == -1.0
    ensures TwoOverDx(e) * SigmoidOffset(e, e.xb) == 1.0
  {
    var w := e.xb - e.xa;
    var f := TwoOverDx(e);
    assert f * w == 2.0;
    var o := SigmoidOffset(e, x);
    assert -w / 2.0 <= o <= w / 2.0;
    assert f > 0.0;
    assert f * o <= f * (w / 2.0) by {
      MulNonNegative(f, w / 2.0 - o);
    }
    assert f * o >= f * (-w / 2.0) by {
      MulNonNegative(f, o + w / 2.0);
    }
    assert SigmoidOffset(e, e.xa) == -w / 2.0;
    assert SigmoidOffset(e, e.xb) == w / 2.0;
  }

  /** The steepness every constructor leaves in a `SigmoidEvaluator`. */
  predicate SteepnessInRange(e: SigmoidEvaluator)
  {
    -0.99999 <= e.k <= 0.99999
  }

  /** The denominator of the tunable sigmoid as written
      (src/evaluator.rs:194): the absolute value is taken of 1 - 2u. */
  function DenominatorAsWritten(k: real, u: real): real
  {
    k * Abs(1.0 - 2.0 * u) + 1.0
  }

  /** `SigmoidEvaluator::evaluate` as written (src/evaluator.rs:185-196).
      `None` marks the inputs where one of its two divisions is by zero,
      which real arithmetic cannot follow. */
  function EvaluateSigmoidAsWritten(e: SigmoidEvaluator, x: real): (r: Option<real>)
    requires e.xa <= e.xb && e.ya <= e.yb
    ensures r.None? <==> e.xb == e.ya || DenominatorAsWritten(e.k, TwoOverDxAsWritten(e) * SigmoidOffset(e, x)) == 0.0
    ensures r.Some? ==> e.ya <= r.value <= e.yb
  {
    if e.xb == e.ya then None
    else
      var u := TwoOverDxAsWritten(e) * SigmoidOffset(e, x);
      var d := DenominatorAsWritten(e.k, u);
      if d == 0.0 then None
      else Some(SigmoidOutput(e, u * (1.0 - e.k) / d))
  }

  /** The last step of `SigmoidEvaluator::evaluate`: a shaped value in
      [-1, 1] mapped onto [ya, yb] about the middle of the output range,
      then clamped into it. */
  function SigmoidOutput(e: SigmoidEvaluator, shaped: real): (r: real)
    requires e.ya <= e.yb
    ensures e.ya <= r <= e.yb
    ensures shaped == -1.0 ==> r == e.ya
    ensures shaped == 1.0 ==> r == e.yb
    ensures shaped == 0.0 ==> r == (e.ya + e.yb) / 2.0
  {
    Clamp((e.yb - e.ya) / 2.0 * shaped + (e.ya + e.yb) / 2.0, e.ya, e.yb)
  }

  /** As written, the default sigmoid sends 0, the bottom of its range, to
      1 (the top of the output range) and divides by zero at 0.25; the
      intended curve sends 0 to 0. */
  lemma SigmoidAsWrittenCounterexample()
    ensures EvaluateSigmoidAsWritten(DefaultSigmoid(), 0.0) == Some(1.0)
    ensures EvaluateSigmoidAsWritten(DefaultSigmoid(), 0.25) == None
    ensures EvaluateSigmoid(DefaultSigmoid(), 0.0) == 0.0
  {
    var e := SigmoidEvaluator(0.0, 1.0, 0.0, 1.0, -0.5);
    assert DefaultSigmoid() == e;
    AsWrittenAtBottom(e);
    AsWrittenAtQuarter(e);
  }

  lemma AsWrittenAtBottom(e: SigmoidEvaluator)
    requires e == SigmoidEvaluator(0.0, 1.0, 0.0, 1.0, -0.5)
    ensures EvaluateSigmoidAsWritten(e, 0.0) == Some(1.0)
  {
    var u := TwoOverDxAsWritten(e) * SigmoidOffset(e, 0.0);
    assert u == -1.0;
    var d := DenominatorAsWritten(e.k, u);
    assert d == -0.5;
    var q := u * (1.0 - e.k) / d;
    assert q * d == u * (1.0 - e.k);
    assert u * (1.0 - e.k) == -1.5;
    assert q * -0.5 == -1.5;
    assert SigmoidOutput(e, q) == 1.0;
  }

  lemma AsWrittenAtQuarter(e: SigmoidEvaluator)
    requires e == SigmoidEvaluator(0.0, 1.0, 0.0, 1.0, -0.5)
    ensures EvaluateSigmoidAsWritten(e, 0.25) == None
  {
    var u := TwoOverDxAsWritten(e) * SigmoidOffset(e, 0.25);
    assert u == -0.5;
    assert DenominatorAsWritten(e.k, u) == 0.0;
  }

  /** The evidently intended denominator k (1 - 2|u|) + 1 of the normalised
      tunable sigmoid: positive on [-1, 1] for any |k| < 1. */
  function Denominator(k: real, u: real): (d: real)
    requires -1.0 < k < 1.0 && -1.0 <= u <= 1.0
    ensures d > 0.0
  {
    var w := 1.0 - 2.0 * Abs(u);
    ScaledAboveMinusOne(k, w);
    k * w + 1.0
  }

  /** The normalised tunable sigmoid on [-1, 1]: it maps [-1, 1] onto
      itself and fixes -1, 0 and 1. */
  function SigmoidShape(k: real, u: real): (r: real)
    requires -1.0 < k < 1.0 && -1.0 <= u <= 1.0
    ensures -1.0 <= r <= 1.0
    ensures u == -1.0 ==> r == -1.0
    ensures u == 0.0 ==> r == 0.0
    ensures u == 1.0 ==> r == 1.0
  {
    var d := Denominator(k, u);
    ShapeBounds(k, u, d);
    u * (1.0 - k) / d
  }

  lemma ScaledAboveMinusOne(k: real, w: real)
    requires -1.0 < k < 1.0 && -1.0 <= w <= 1.0
    ensures k * w > -1.0
  {
    if w >= 0.0 {
      MulNonNegative(k + 1.0, w);
      assert (k + 1.0) * w == k * w + w;
      if w == 1.0 {
        assert k * w == k;
      }
    } else {
      MulNonNegative(1.0 - k, -w);
      assert (1.0 - k) * -w == k * w - w;
      if w == -1.0 {
        assert k * w == -k;
      }
    }
  }

  lemma ShapeBounds(k: real, u: real, d: real)
    requires -1.0 < k < 1.0 && -1.0 <= u <= 1.0 && d == k * (1.0 - 2.0 * Abs(u)) + 1.0 && d > 0.0
    ensures -1.0 <= u * (1.0 - k) / d <= 1.0
    ensures Abs(u) == 1.0 ==> u * (1.0 - k) / d == u
  {
    var a := Abs(u);
    var n := u * (1.0 - k);
    // |u| (1 - k) <= d, because the difference is (1 + k) (1 - |u|)
    var m := a * (1.0 - k);
    assert d - m == (1.0 + k) * (1.0 - a);
    MulNonNegative(1.0 + k, 1.0 - a);
    MulNonNegative(a, 1.0 - k);
    assert n == m || n == -m by {
      if u < 0.0 { assert a == -u; assert n == -(a * (1.0 - k)); }
    }
    QuotientUnit(n, d);
    if a == 1.0 {
      assert d == 1.0 - k;
      QuotientOfMultiple(n, u, d);
    }
  }

  lemma QuotientUnit(n: real, d: real)
    requires d > 0.0 && -d <= n <= d
    ensures -1.0 <= n / d <= 1.0
  {
    var q := n / d;
    assert q * d == n;
    if q > 1.0 {
      MulNonNegative(q - 1.0, d);
    }
    if q < -1.0 {
      MulNonNegative(-1.0 - q, d);
    }
  }

  lemma QuotientOfMultiple(n: real, u: real, d: real)
    requires d != 0.0 && n == u * d
    ensures n / d == u
  {
    var q := n / d;
    assert q * d == n;
    assert (q - u) * d == 0.0;
  }

  /** `SigmoidEvaluator::evaluate` with both divisions corrected: the
      clamped input is scaled onto [-1, 1], shaped, and mapped onto
      [ya, yb]. The bottom of the input range gives ya, the top gives yb and
      the middle gives the middle of the output range. */
  function EvaluateSigmoid(e: SigmoidEvaluator, x: real): (r: real)
    requires e.xa < e.xb && e.ya <= e.yb && SteepnessInRange(e)
    ensures e.ya <= r <= e.yb
    ensures x <= e.xa ==> r == e.ya
    ensures x >= e.xb ==> r == e.yb
    ensures x == (e.xa + e.xb) / 2.0 ==> r == (e.ya + e.yb) / 2.0
  {
    TwoOverDxNormalises(e, x);
    var u := TwoOverDx(e) * SigmoidOffset(e, x);
    assert x <= e.xa ==> u == -1.0 by {
      if x <= e.xa { assert SigmoidOffset(e, x) == SigmoidOffset(e, e.xa); }
    }
    assert x >= e.xb ==> u == 1.0 by {
      if x >= e.xb { assert SigmoidOffset(e, x) == SigmoidOffset(e, e.xb); }
    }
    SigmoidOutput(e, SigmoidShape(e.k, u))
  }

  /** `evaluating_scorer_system` (src/evaluator.rs:55-65) for one scorer:
      takes the first child's score (the unwrap panics without one),
      evaluates it and writes the clamped value. */
  method EvaluatingScorerSystem(evaluate: real -> real, children: seq<Score>, parent: Score)
    requires |children| >= 1 && parent !in children
    modifies parent
    ensures parent.value == Scorers.EvaluatedScore(evaluate, old(children[0].value))
  {
    var inner := children[0];
    Scorers.EvaluatingScorerSystem(evaluate, inner, parent);
  }
}
