/**
 * IncValueRelaxFunction: relaxes an increasing value (a time or a cost,
 * smaller is better) to v * ratio + slack, with the ratio rounded to the
 * nearest 1/16 so that Raptor can divide by 16 with integer arithmetic.
 */
module IncValueRelaxFunction {
  import opened Wrappers
  import opened JavaInt

  const ONE_HOUR: int := 3600
  const SLACK_TIME_MAX: int := ONE_HOUR
  const SLACK_COST_MAX: int := ONE_HOUR * 100
  const SLACK_MIN: int := 0
  const RATIO_RESOLUTION: int := 16
  const RATIO_MIN: real := 1.0
  const RATIO_MAX: real := 4.0

  /** The two fields of a relax function: the ratio in sixteenths and the slack. */
  datatype RelaxFn = RelaxFn(ratioOf16s: int, slack: int)

  /** The IllegalArgumentException thrown by the range checks. */
  datatype RangeError = RatioOutOfRange(ratio: real) | SlackOutOfRange(slack: int, max: int)

  /** Math.round: the nearest integer, halves rounded up. */
  function Round(x: real): (r: int)
    ensures x - 0.5 < r as real <= x + 0.5
  {
    (x + 0.5).Floor
  }

  function AssertRatioInRange(ratio: real): (r: Result<real, RangeError>)
    ensures r.Ok? <==> RATIO_MIN <= ratio <= RATIO_MAX
    ensures r.Ok? ==> r.value == ratio
    ensures r.Err? ==> r.error == RatioOutOfRange(ratio)
  {
    if ratio < RATIO_MIN || ratio > RATIO_MAX then Err(RatioOutOfRange(ratio)) else Ok(ratio)
  }

  function AssertSlackInRange(slack: int, max: int): (r: Result<int, RangeError>)
    ensures r.Ok? <==> SLACK_MIN <= slack <= max
    ensures r.Ok? ==> r.value == slack
    ensures r.Err? ==> r.error == SlackOutOfRange(slack, max)
  {
    if slack < SLACK_MIN || slack > max then Err(SlackOutOfRange(slack, max)) else Ok(slack)
  }

  /** A relax function the constructor can return. */
  predicate Valid(f: RelaxFn) {
    RATIO_RESOLUTION <= f.ratioOf16s <= 4 * RATIO_RESOLUTION && SLACK_MIN <= f.slack <= SLACK_COST_MAX
  }

  /**
   * The private constructor: the ratio is checked (and its error thrown) before
   * the slack, then stored as the nearest number of sixteenths.
   */
  function Make(ratio: real, slack: int, maxSlack: int): (r: Result<RelaxFn, RangeError>)
    requires maxSlack <= SLACK_COST_MAX
    ensures r.Ok? <==> RATIO_MIN <= ratio <= RATIO_MAX && SLACK_MIN <= slack <= maxSlack
    ensures !(RATIO_MIN <= ratio <= RATIO_MAX) ==> r == Err(RatioOutOfRange(ratio))
    ensures RATIO_MIN <= ratio <= RATIO_MAX && !(SLACK_MIN <= slack <= maxSlack) ==>
      r == Err(SlackOutOfRange(slack, maxSlack))
    ensures r.Ok? ==> Valid(r.value) && r.value.slack == slack
    ensures r.Ok? ==>
      ratio * 16.0 - 0.5 < r.value.ratioOf16s as real <= ratio * 16.0 + 0.5
  {
    match AssertRatioInRange(ratio)
    case Err(e) => Err(e)
    case Ok(checkedRatio) =>
      var ratioOf16s := Round(checkedRatio * RATIO_RESOLUTION as real);
      match AssertSlackInRange(slack, maxSlack)
      case Err(e) => Err(e)
      case Ok(checkedSlack) => Ok(RelaxFn(ratioOf16s, checkedSlack))
  }

  function OfIncreasingTime(ratio: real, slack: int): (r: Result<RelaxFn, RangeError>)
    ensures r.Ok? <==> RATIO_MIN <= ratio <= RATIO_MAX && SLACK_MIN <= slack <= SLACK_TIME_MAX
  {
    Make(ratio, slack, SLACK_TIME_MAX)
  }

  function OfCost(ratio: real, slack: int): (r: Result<RelaxFn, RangeError>)
    ensures r.Ok? <==> RATIO_MIN <= ratio <= RATIO_MAX && SLACK_MIN <= slack <= SLACK_COST_MAX
  {
    Make(ratio, slack, SLACK_COST_MAX)
  }

  function OfCostNoSlack(ratio: real): (r: Result<RelaxFn, RangeError>)
    ensures r.Ok? <==> RATIO_MIN <= ratio <= RATIO_MAX
    ensures r.Ok? ==> r.value.slack == SLACK_MIN
  {
    OfCost(ratio, SLACK_MIN)
  }

  /**
   * relax: (value * ratioOf16s) / 16 + slack in Java int arithmetic, the
   * product and the sum wrapping and the division truncating toward zero.
   */
  function Relax(f: RelaxFn, value: int): (r: int)
    ensures InRange(r)
  {
    Wrap(Quot(Wrap(value * f.ratioOf16s), RATIO_RESOLUTION) + f.slack)
  }

  /** The largest value whose relaxed product cannot overflow, for any valid function. */
  const NO_OVERFLOW_MAX: int := MAX_INT / 64 - SLACK_COST_MAX

  lemma MulBounds(v: nat, r: int)
    requires 16 <= r <= 64
    ensures 16 * v <= v * r <= 64 * v
  {
  }

  /** Below overflow, relax is v * ratio rounded down, plus the slack, and never less than v. */
  lemma RelaxIncreases(f: RelaxFn, v: int)
    requires Valid(f) && 0 <= v <= NO_OVERFLOW_MAX
    ensures Relax(f, v) == (v * f.ratioOf16s) / 16 + f.slack
    ensures v + f.slack <= Relax(f, v) <= 4 * v + f.slack
  {
    var p := v * f.ratioOf16s;
    MulBounds(v, f.ratioOf16s);
    var q := p / 16;
    DivBounds(p, 16);
    assert Quot(p, 16) == q;
    assert Relax(f, v) == q + f.slack;
  }

  /** relax keeps the order of values below overflow. */
  lemma RelaxMonotone(f: RelaxFn, u: int, v: int)
    requires Valid(f) && 0 <= u <= v <= NO_OVERFLOW_MAX
    ensures Relax(f, u) <= Relax(f, v)
  {
    RelaxIncreases(f, u);
    RelaxIncreases(f, v);
    MulMonotone(u, v, f.ratioOf16s);
    DivMonotone(u * f.ratioOf16s, v * f.ratioOf16s);
  }

  lemma MulMonotone(u: nat, v: nat, r: nat)
    requires u <= v
    ensures u * r <= v * r
  {
  }

  lemma DivMonotone(a: nat, b: nat)
    requires a <= b
    ensures a / 16 <= b / 16
  {
    DivBounds(a, 16);
    DivBounds(b, 16);
  }

  /** The cases of the unit tests: results of relax and the rejected arguments. */
  lemma RelaxExamples()
    ensures OfIncreasingTime(1.25, 25) == Ok(RelaxFn(20, 25)) && Relax(RelaxFn(20, 25), 100) == 150
    ensures OfCostNoSlack(1.5) == Ok(RelaxFn(24, 0)) && Relax(RelaxFn(24, 0), 50) == 75
    ensures OfIncreasingTime(32.99 / 32.0, 0) == Ok(RelaxFn(16, 0)) && Relax(RelaxFn(16, 0), 16) == 16
    ensures OfIncreasingTime(33.01 / 32.0, 0) == Ok(RelaxFn(17, 0)) && Relax(RelaxFn(17, 0), 16) == 17
    ensures OfCostNoSlack(-0.1).Err? && OfCostNoSlack(4.01).Err?
    ensures OfCost(1.0, -1).Err? && OfCost(1.0, SLACK_COST_MAX + 1).Err?
    ensures OfIncreasingTime(17.0 / 16.0, 12) != OfIncreasingTime(1.0, 12)
  {
    assert Round(1.25 * 16.0) == 20;
    assert Round(1.5 * 16.0) == 24;
    assert Round(32.99 / 32.0 * 16.0) == 16;
    assert Round(33.01 / 32.0 * 16.0) == 17;
    assert Round(17.0 / 16.0 * 16.0) == 17;
    assert Round(1.0 * 16.0) == 16;
  }

  /** Two functions are equal exactly when their sixteenths and slacks are; ratios rounding alike give equal functions. */
  lemma EqualRoundedRatios(r1: real, r2: real, slack: int)
    requires RATIO_MIN <= r1 <= RATIO_MAX && RATIO_MIN <= r2 <= RATIO_MAX && SLACK_MIN <= slack <= SLACK_TIME_MAX
    ensures OfIncreasingTime(r1, slack) == OfIncreasingTime(r2, slack) <==> Round(r1 * 16.0) == Round(r2 * 16.0)
  {
  }
}
