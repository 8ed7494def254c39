/** The fee formula shared by the fees service and the Fixed Outputs quote. */
module FeeRules {
  import opened Rounding
  import opened Wrappers

  datatype FeeType = Percent | Fixed | Mixed

  /** `percent` is in percent (3.0 is 3 %); the three amounts are in cents before they are rounded to whole cents. */
  datatype FeeRule = FeeRule(feeType: FeeType, percent: real, fixed: real, minFee: real, maxFee: real)

  /** A percentage between 0 and 100 and a fixed part that is not negative. */
  predicate WellFormed(rule: Option<FeeRule>) {
    rule.Some? ==> 0.0 <= rule.value.percent <= 100.0 && 0.0 <= rule.value.fixed
  }

  function PercentPart(percent: real, amount: int): int {
    Round(amount as real * percent / 100.0)
  }

  /** The fee before the minimum and the maximum apply. */
  function RawFee(rule: FeeRule, amount: int): int {
    var percentPart := PercentPart(rule.percent, amount);
    match rule.feeType
    case Percent => percentPart
    case Fixed => Round(rule.fixed)
    case Mixed => Round(rule.fixed) + percentPart
  }

  /** A minimum or maximum that is not positive does not apply; the maximum wins over the minimum. */
  function Clamped(minCents: int, maxCents: int, fee: int): int {
    var floored := if minCents > 0 then Max(fee, minCents) else fee;
    if maxCents > 0 then Min(floored, maxCents) else floored
  }

  /** The fee of `amount` cents, in cents. No rule means no fee. */
  function FeeCents(rule: Option<FeeRule>, amount: int): int {
    match rule
    case None => 0
    case Some(r) =>
      Clamped(Round(r.minFee), Round(r.maxFee), RawFee(r, amount))
  }

  method ComputeFee(amount: int, rule: Option<FeeRule>) returns (feeCents: int)
    ensures feeCents == FeeCents(rule, amount)
  {
    if rule.None? {
      return 0;
    }
    var r := rule.value;
    var fixedCents := Round(r.fixed);
    feeCents := 0;
    if r.feeType.Percent? {
      feeCents := Round(amount as real * r.percent / 100.0);
    } else if r.feeType.Fixed? {
      feeCents := fixedCents;
    } else if r.feeType.Mixed? {
      feeCents := fixedCents + Round(amount as real * r.percent / 100.0);
    }
    var minCents := Round(r.minFee);
    var maxCents := Round(r.maxFee);
    if minCents > 0 {
      feeCents := Max(feeCents, minCents);
    }
    if maxCents > 0 {
      feeCents := Min(feeCents, maxCents);
    }
  }

  /** `n` is the whole number nearest to `x`, the upper one of two. */
  predicate IsNearest(n: int, x: real) {
    n as real - 0.5 <= x < n as real + 0.5
  }

  /**
   * The fee is the rounded percentage of the amount, the rounded fixed part, or both, and nothing else unless that is
   * below a positive minimum or above a positive maximum; the maximum is never exceeded, the minimum only for its sake
   * not reached.
   */
  lemma FeeIs(r: FeeRule, amount: int, percentage: int, fixed: int, least: int, most: int)
    requires IsNearest(percentage, amount as real * r.percent / 100.0) && IsNearest(fixed, r.fixed)
    requires IsNearest(least, r.minFee) && IsNearest(most, r.maxFee)
    ensures
      var fee := FeeCents(Some(r), amount);
      var raw := (if r.feeType == Fixed then 0 else percentage) + (if r.feeType == Percent then 0 else fixed);
      && (most > 0 ==> fee <= most) && (least > 0 && (most <= 0 || least <= most) ==> least <= fee)
      && (fee == raw || (least > 0 && raw < least && fee == least) || (most > 0 && fee == most && most < Max(raw, least)))
    ensures FeeCents(None, amount) == 0
  {
    NearestIsRound(percentage, amount as real * r.percent / 100.0);
    NearestIsRound(fixed, r.fixed);
    NearestIsRound(least, r.minFee);
    NearestIsRound(most, r.maxFee);
  }

  lemma NearestIsRound(n: int, x: real)
    requires IsNearest(n, x)
    ensures Round(x) == n
  {
    RoundGalois(x, n);
  }

  lemma PercentPartGrowth(p: real, a: int, b: int)
    requires 0.0 <= p <= 100.0 && a <= b
    ensures 0 <= PercentPart(p, b) - PercentPart(p, a) <= b - a
  {
    var x, y, d := a as real * p / 100.0, b as real * p / 100.0, (b - a) as real;
    assert y == x + d * p / 100.0;
    MulMonotone(0.0, d, p);
    MulMonotone(p, 100.0, d);
    assert x <= y <= x + d;
    assert (x + 0.5 + d).Floor == (x + 0.5).Floor + (b - a);
  }

  /** The rounded and clamped fee never decreases and never grows faster than the amount. */
  lemma {:induction false} FeeGrowth(rule: Option<FeeRule>, a: int, b: int)
    requires WellFormed(rule) && a <= b
    ensures 0 <= FeeCents(rule, b) - FeeCents(rule, a) <= b - a
  {
    if rule.Some? {
      PercentPartGrowth(rule.value.percent, a, b);
      var r := rule.value;
    }
  }

  /** For an amount that is not negative the fee is not negative either. */
  lemma FeeNonNegative(rule: Option<FeeRule>, a: int)
    requires WellFormed(rule) && 0 <= a
    ensures 0 <= FeeCents(rule, a)
  {
    FeeGrowth(rule, 0, a);
    assert Round(0.0) == 0;
  }
}
