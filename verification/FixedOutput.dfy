/** Quotes with a guaranteed output: the smallest debit that delivers a target amount after the fee. */
module FixedOutput {
  import opened Rounding
  import opened Wrappers
  import opened FeeRules

  /** Each of the two adjusting loops takes at most this many one-cent steps. */
  const STEP_CAP: int := 100_000

  datatype Amounts = Amounts(
    source: int, fee: int, net: int, destination: int, clientRate: real, bridgeMinSource: int, fxBuffer: int)

  datatype QuoteError = InvalidAmountsOrRates

  function BridgeMinSource(destination: int, sellRate: real, fee: int): int
    requires sellRate > 0.0
  {
    Ceil(destination as real / sellRate + fee as real)
  }

  /** What a debit of `source` cents can guarantee at the destination. */
  function DestinationFromSource(source: int, clientRate: real, rule: Option<FeeRule>): int {
    Deliverable(source - FeeCents(rule, source), clientRate)
  }

  function Deliverable(net: int, clientRate: real): int {
    if net > 0 then (net as real * clientRate).Floor else 0
  }

  function NetRequired(destination: int, clientRate: real): int
    requires clientRate > 0.0
  {
    Ceil(destination as real / clientRate)
  }

  function PercentShare(rule: Option<FeeRule>): real {
    if rule.Some? && !rule.value.feeType.Fixed? then rule.value.percent / 100.0 else 0.0
  }

  function FixedShare(rule: Option<FeeRule>): real {
    if rule.Some? && !rule.value.feeType.Percent? then rule.value.fixed else 0.0
  }

  /** The closed-form first guess. */
  function Seed(rule: Option<FeeRule>, netRequired: int): int {
    var share, fixed := PercentShare(rule), FixedShare(rule);
    Ceil(if share < 1.0 then (netRequired as real + fixed) / (1.0 - share) else netRequired as real + fixed)
  }

  predicate Covers(rule: Option<FeeRule>, netRequired: int, source: int) {
    source - FeeCents(rule, source) >= netRequired
  }

  /** `least` is the smallest positive debit that leaves `netRequired` after its own fee. */
  ghost predicate IsLeastCover(rule: Option<FeeRule>, netRequired: int, least: int) {
    && 1 <= least
    && Covers(rule, netRequired, least)
    && forall s :: 1 <= s < least ==> !Covers(rule, netRequired, s)
  }

  function Within(low: int, x: int, high: int): int {
    Max(low, Min(x, high))
  }

  method CalculateFixedOutputAmounts(
      destination: int, clientRate: real, sellRate: real, rule: Option<FeeRule>)
    returns (r: Result<Amounts, QuoteError>)
    ensures r.Err? <==> !(destination > 0 && clientRate > 0.0 && sellRate > 0.0)
    ensures r.Ok? ==>
              var q := r.value;
              && q.destination == destination && q.clientRate == clientRate
              && q.fee == FeeCents(rule, q.source)
              && q.net == q.source - q.fee
              && q.bridgeMinSource == BridgeMinSource(destination, sellRate, q.fee)
              && q.fxBuffer == q.source - q.bridgeMinSource
    ensures r.Ok? && WellFormed(rule) ==>
              var required := NetRequired(destination, clientRate);
              var seed := Seed(rule, required);
              && (forall least | IsLeastCover(rule, required, least) ::
                    r.value.source == Within(seed - STEP_CAP, least, seed + STEP_CAP))
              && ((forall s | 1 <= s :: !Covers(rule, required, s)) ==> r.value.source == seed + STEP_CAP)
  {
    if !(destination > 0) || !(clientRate > 0.0) || !(sellRate > 0.0) {
      return Err(InvalidAmountsOrRates);
    }
    var netRequired := Ceil(destination as real / clientRate);
    var pct := if rule.Some? && !rule.value.feeType.Fixed? then rule.value.percent / 100.0 else 0.0;
    var fixed := if rule.Some? && !rule.value.feeType.Percent? then rule.value.fixed else 0.0;
    var source := Ceil(if pct < 1.0 then (netRequired as real + fixed) / (1.0 - pct) else netRequired as real + fixed);
    ghost var seed := source;
    assert seed == Seed(rule, netRequired);
    var i := 0;
    while i < STEP_CAP && !Covers(rule, netRequired, source)
      invariant 0 <= i <= STEP_CAP && source == seed + i
      invariant i > 0 ==> !Covers(rule, netRequired, source - 1)
    {
      source := source + 1;
      i := i + 1;
    }
    ghost var top := source;
    var j := 0;
    while j < STEP_CAP && source > 1 && Covers(rule, netRequired, source - 1)
      invariant 0 <= j <= STEP_CAP && source == top - j
      invariant j > 0 ==> Covers(rule, netRequired, source)
      invariant top >= 1 ==> source >= 1
    {
      source := source - 1;
      j := j + 1;
    }
    if WellFormed(rule) {
      SeedAtLeastRequired(rule, netRequired);
      RequiredPositive(destination, clientRate);
      forall least | IsLeastCover(rule, netRequired, least)
        ensures source == Within(seed - STEP_CAP, least, seed + STEP_CAP)
      {
        CoversIffAtLeast(rule, netRequired, least);
      }
    }
    var fee := ComputeFee(source, rule);
    var bridgeMin := BridgeMinSource(destination, sellRate, fee);
    return Ok(Amounts(source, fee, source - fee, destination, clientRate, bridgeMin, source - bridgeMin));
  }

  lemma RequiredPositive(destination: int, clientRate: real)
    requires destination > 0 && clientRate > 0.0
    ensures NetRequired(destination, clientRate) >= 1
  {
    CeilGalois(destination as real / clientRate, 0);
    DivLe(destination as real, clientRate, 0.0);
  }

  /** Coverage is upward closed, so the least cover describes all covers. */
  lemma CoversIffAtLeast(rule: Option<FeeRule>, netRequired: int, least: int)
    requires WellFormed(rule) && IsLeastCover(rule, netRequired, least)
    ensures forall s :: 1 <= s ==> (Covers(rule, netRequired, s) <==> least <= s)
  {
    forall s | least <= s
      ensures Covers(rule, netRequired, s)
    {
      FeeGrowth(rule, least, s);
    }
  }

  lemma SeedAtLeastRequired(rule: Option<FeeRule>, netRequired: int)
    requires WellFormed(rule) && 1 <= netRequired
    ensures netRequired <= Seed(rule, netRequired)
  {
    var share, n, below := PercentShare(rule), netRequired as real + FixedShare(rule), (netRequired - 1) as real;
    if share < 1.0 {
      CeilGalois(n / (1.0 - share), netRequired - 1);
      DivLe(n, 1.0 - share, below);
      MulMonotone(1.0 - share, 1.0, below);
    } else {
      CeilGalois(n, netRequired - 1);
    }
  }

  // ---- When the least cover exists, and where it lies ----

  function WithoutLimits(rule: Option<FeeRule>): Option<FeeRule> {
    match rule
    case None => None
    case Some(r) => Some(r.(minFee := 0.0, maxFee := 0.0))
  }

  function MinCents(rule: Option<FeeRule>): int {
    if rule.Some? then Round(rule.value.minFee) else 0
  }

  function MaxCents(rule: Option<FeeRule>): int {
    if rule.Some? then Round(rule.value.maxFee) else 0
  }

  /** The rule charges a fixed part of exactly half a cent and the closed form lands exactly on a cent. */
  predicate HalfCentTie(rule: Option<FeeRule>, netRequired: int) {
    && PercentShare(rule) < 1.0
    && IsWhole(FixedShare(rule) + 0.5)
    && IsWhole((netRequired as real + FixedShare(rule)) / (1.0 - PercentShare(rule)))
  }

  /** With neither minimum nor maximum, the fee is the rounded fixed share plus the rounded percent share. */
  lemma UnlimitedFee(rule: Option<FeeRule>, s: int) returns (share: real)
    requires MinCents(rule) <= 0 && MaxCents(rule) <= 0
    ensures share == s as real * PercentShare(rule)
    ensures FeeCents(rule, s) == Round(FixedShare(rule)) + Round(share)
  {
    share := s as real * PercentShare(rule);
    assert Round(0.0) == 0;
    if rule.Some? && !rule.value.feeType.Fixed? {
      assert s as real * rule.value.percent / 100.0 == s as real * (rule.value.percent / 100.0);
    } else {
      assert s as real * 0.0 == 0.0;
    }
  }

  /** Without minimum or maximum the closed form already covers, except exactly on a half-cent tie. */
  lemma {:induction false} SeedCoversIff(rule: Option<FeeRule>, netRequired: int)
    requires WellFormed(rule) && 1 <= netRequired && PercentShare(rule) < 1.0
    requires MinCents(rule) <= 0 && MaxCents(rule) <= 0
    ensures Covers(rule, netRequired, Seed(rule, netRequired)) <==> !HalfCentTie(rule, netRequired)
  {
    var q := GrossUp(rule, netRequired);
    CeilReached(q);
    CoversAbove(rule, netRequired, q, Ceil(q));
  }

  /** The exact gross-up, which the closed form rounds up. */
  lemma {:induction false} GrossUp(rule: Option<FeeRule>, netRequired: int) returns (q: real)
    requires PercentShare(rule) < 1.0
    ensures q * (1.0 - PercentShare(rule)) == netRequired as real + FixedShare(rule)
    ensures Seed(rule, netRequired) == Ceil(q)
    ensures HalfCentTie(rule, netRequired) <==> IsWhole(FixedShare(rule) + 0.5) && IsWhole(q)
  {
    q := (netRequired as real + FixedShare(rule)) / (1.0 - PercentShare(rule));
  }

  /** From the exact gross-up on a debit covers, unless it is the gross-up itself and the fixed part a half. */
  lemma {:induction false} CoversAbove(rule: Option<FeeRule>, netRequired: int, q: real, s: int)
    requires MinCents(rule) <= 0 && MaxCents(rule) <= 0 && PercentShare(rule) < 1.0
    requires q * (1.0 - PercentShare(rule)) == netRequired as real + FixedShare(rule) && q <= s as real
    ensures Covers(rule, netRequired, s) <==> !(IsWhole(FixedShare(rule) + 0.5) && q == s as real)
  {
    var share := UnlimitedFee(rule, s);
    SeedSlack(netRequired as real + FixedShare(rule), q, s, PercentShare(rule), share);
    RoundedShares(netRequired, s, FixedShare(rule), share);
  }

  /** Rounding both parts of the fee costs nothing, unless both are halves and nothing is left over. */
  lemma {:induction false} RoundedShares(netRequired: int, s: int, fixed: real, share: real)
    requires s as real - share >= netRequired as real + fixed
    ensures s - (Round(fixed) + Round(share)) >= netRequired
            <==> !(IsWhole(fixed + 0.5) && s as real - share == netRequired as real + fixed)
  {
    var k := s - netRequired;
    assert fixed + share <= k as real;
  }

  lemma {:induction false} CeilReached(q: real)
    ensures q <= Ceil(q) as real
    ensures q == Ceil(q) as real <==> IsWhole(q)
  {
    CeilGalois(q, Ceil(q));
    if IsWhole(q) {
      CeilGalois(q, q.Floor);
    } else if q == Ceil(q) as real {
      FloorGalois(Ceil(q), q);
    }
  }

  /** What is left of `s` after `wanted` and the percent share, when `q` is the exact gross-up of `wanted`. */
  lemma SeedSlack(wanted: real, q: real, s: int, p: real, share: real)
    requires p < 1.0 && q * (1.0 - p) == wanted && q <= s as real && share == s as real * p
    ensures s as real - share >= wanted
    ensures s as real - share == wanted <==> q == s as real
  {
    var x := s as real;
    assert x - x * p == x * (1.0 - p);
    QuotientLe(q, 1.0 - p, x);
    QuotientLe(x, 1.0 - p, q);
  }

  /** One cent above the closed form is always enough when no limit applies. */
  lemma {:induction false} AboveSeedCovers(rule: Option<FeeRule>, netRequired: int)
    requires WellFormed(rule) && 1 <= netRequired && PercentShare(rule) < 1.0
    requires MinCents(rule) <= 0 && MaxCents(rule) <= 0
    ensures Covers(rule, netRequired, Seed(rule, netRequired) + 1)
  {
    var q := GrossUp(rule, netRequired);
    CeilReached(q);
    CoversAbove(rule, netRequired, q, Ceil(q) + 1);
  }

  /** Going down from the closed form takes fewer than 1 + 1/(1 - p) steps when no limit applies. */
  lemma {:induction false} DownwardStepBound(rule: Option<FeeRule>, netRequired: int, s: int)
    requires WellFormed(rule) && 1 <= netRequired && PercentShare(rule) < 1.0
    requires MinCents(rule) <= 0 && MaxCents(rule) <= 0
    requires Covers(rule, netRequired, s)
    ensures (Seed(rule, netRequired) - 1 - s) as real * (1.0 - PercentShare(rule)) < 1.0
    ensures PercentShare(rule) <= 0.99998 ==> Seed(rule, netRequired) - s < STEP_CAP
  {
    var p, f := PercentShare(rule), FixedShare(rule);
    var wanted := netRequired as real + f;
    var q := wanted / (1.0 - p);
    var share := UnlimitedFee(rule, s);
    CoverSlack(netRequired, s, f, share);
    StepsDown(Seed(rule, netRequired), s, q, p, wanted, share);
  }

  lemma CoverSlack(n: int, s: int, f: real, percentFee: real)
    requires s - (Round(f) + Round(percentFee)) >= n
    ensures s as real - percentFee > n as real + f - 1.0
  {
    RoundGalois(percentFee, Round(percentFee));
    RoundGalois(f, Round(f));
  }

  lemma StepsDown(seed: int, s: int, q: real, p: real, wanted: real, share: real)
    requires p < 1.0 && q == wanted / (1.0 - p) && seed == Ceil(q)
    requires share == s as real * p && s as real - share > wanted - 1.0
    ensures (seed - 1 - s) as real * (1.0 - p) < 1.0
    ensures p <= 0.99998 ==> seed - s < STEP_CAP
  {
    CeilGalois(q, seed - 1);
    var up, down, steps := (seed - 1) as real, s as real, (seed - 1 - s) as real;
    assert steps == up - down;
    StepArithmetic(up, down, q, 1.0 - p, wanted, share);
    if p <= 0.99998 {
      BelowCap(steps, 1.0 - p, steps * (1.0 - p));
    }
  }

  lemma StepArithmetic(up: real, down: real, q: real, d: real, wanted: real, percentFee: real)
    requires 0.0 < d && q == wanted / d && up < q
    requires percentFee == down * (1.0 - d) && down - percentFee > wanted - 1.0
    ensures (up - down) * d < 1.0
  {
    var x, y, z := up * d, down * d, q * d;
    MulStrict(up, q, d);
    assert x < z;
    assert (up - down) * d == x - y;
  }

  lemma BelowCap(steps: real, d: real, product: real)
    requires 0.00002 <= d && product == steps * d && product < 1.0
    ensures steps < 99_999.0
  {
    if 0.0 <= steps {
      MulMonotone(0.00002, d, steps);
    }
  }

  /** The least cover with limits, from the least cover without them. */
  function LimitedLeast(rule: Option<FeeRule>, netRequired: int, rawLeast: int): int {
    var floored := if MinCents(rule) > 0 then Max(netRequired + MinCents(rule), rawLeast) else rawLeast;
    if MaxCents(rule) > 0 then Min(netRequired + MaxCents(rule), floored) else floored
  }

  lemma LimitedCovers(rule: Option<FeeRule>, netRequired: int, s: int)
    ensures Covers(rule, netRequired, s)
            <==> || (MaxCents(rule) > 0 && netRequired + MaxCents(rule) <= s)
                 || ((MinCents(rule) > 0 ==> netRequired + MinCents(rule) <= s)
                     && Covers(WithoutLimits(rule), netRequired, s))
  {
    assert Round(0.0) == 0;
  }

  lemma LeastWithLimits(rule: Option<FeeRule>, netRequired: int, rawLeast: int)
    requires WellFormed(rule) && 1 <= netRequired
    requires IsLeastCover(WithoutLimits(rule), netRequired, rawLeast)
    ensures IsLeastCover(rule, netRequired, LimitedLeast(rule, netRequired, rawLeast))
  {
    CoversIffAtLeast(WithoutLimits(rule), netRequired, rawLeast);
    forall s | 1 <= s
      ensures Covers(rule, netRequired, s) <==> LimitedLeast(rule, netRequired, rawLeast) <= s
    {
      LimitedCovers(rule, netRequired, s);
    }
  }

  /** Any positive cover has a least one below it. */
  lemma {:induction false} LeastBelow(rule: Option<FeeRule>, netRequired: int, s: int) returns (least: int)
    requires WellFormed(rule) && 1 <= s && Covers(rule, netRequired, s)
    ensures IsLeastCover(rule, netRequired, least) && least <= s
    decreases s
  {
    if s > 1 && Covers(rule, netRequired, s - 1) {
      least := LeastBelow(rule, netRequired, s - 1);
    } else {
      least := s;
      forall t | 1 <= t < s
        ensures !Covers(rule, netRequired, t)
      {
        FeeGrowth(rule, t, s - 1);
      }
    }
  }

  lemma LeastIsUnique(rule: Option<FeeRule>, netRequired: int, a: int, b: int)
    requires IsLeastCover(rule, netRequired, a) && IsLeastCover(rule, netRequired, b)
    ensures a == b
  {
  }

  /** Some debit covers the target iff the fee is less than all of it, or is capped. */
  lemma CoverableIff(rule: Option<FeeRule>, netRequired: int)
    requires WellFormed(rule) && 1 <= netRequired
    ensures (exists s | 1 <= s :: Covers(rule, netRequired, s))
            <==> PercentShare(rule) < 1.0 || MaxCents(rule) > 0
  {
    if MaxCents(rule) > 0 {
      LimitedCovers(rule, netRequired, netRequired + MaxCents(rule));
    } else if PercentShare(rule) < 1.0 {
      var raw := RawLeast(rule, netRequired);
      LeastWithLimits(rule, netRequired, raw);
    } else {
      forall s | 1 <= s
        ensures !Covers(rule, netRequired, s)
      {
        LimitedCovers(rule, netRequired, s);
        var share := UnlimitedFee(WithoutLimits(rule), s);
        assert share == s as real;
        RoundGalois(s as real, s);
        RoundGalois(FixedShare(rule), 0);
      }
    }
  }

  lemma RawLeast(rule: Option<FeeRule>, netRequired: int) returns (raw: int)
    requires WellFormed(rule) && 1 <= netRequired && PercentShare(rule) < 1.0
    ensures IsLeastCover(WithoutLimits(rule), netRequired, raw)
    ensures raw <= Seed(rule, netRequired) + 1
    ensures PercentShare(rule) <= 0.99998 ==> Seed(rule, netRequired) - raw < STEP_CAP
  {
    var plain := WithoutLimits(rule);
    assert Round(0.0) == 0;
    SeedAtLeastRequired(plain, netRequired);
    AboveSeedCovers(plain, netRequired);
    raw := LeastBelow(plain, netRequired, Seed(plain, netRequired) + 1);
    DownwardStepBound(plain, netRequired, raw);
  }

  /**
   * The step cap, decided before the search: for percentages of at most 99.998 the least cover lies
   * within STEP_CAP of the closed form exactly when neither limit is too far from the nominal fee.
   */
  lemma StepCapExact(rule: Option<FeeRule>, netRequired: int, least: int)
    requires WellFormed(rule) && 1 <= netRequired
    requires PercentShare(rule) <= 0.99998
    requires IsLeastCover(rule, netRequired, least)
    ensures
      var seed := Seed(rule, netRequired);
      seed - STEP_CAP <= least <= seed + STEP_CAP
      <==> && (MaxCents(rule) > 0 ==> seed - (netRequired + MaxCents(rule)) <= STEP_CAP)
           && (MinCents(rule) > 0 ==>
                 || netRequired + MinCents(rule) - seed <= STEP_CAP
                 || (MaxCents(rule) > 0 && netRequired + MaxCents(rule) - seed <= STEP_CAP))
  {
    var raw := RawLeast(rule, netRequired);
    SeedAtLeastRequired(rule, netRequired);
    LeastWithLimits(rule, netRequired, raw);
    LeastIsUnique(rule, netRequired, least, LimitedLeast(rule, netRequired, raw));
  }

  /** A minimum fee of 2000.00 on a tiny target exhausts the cap: the quote does not cover. */
  lemma StepCapCanUnderDeliver() returns (rule: Option<FeeRule>, least: int)
    ensures WellFormed(rule) && IsLeastCover(rule, 1, least)
    ensures Within(Seed(rule, 1) - STEP_CAP, least, Seed(rule, 1) + STEP_CAP) < least
  {
    rule := Some(FeeRule(Percent, 0.0, 0.0, 200_000.0, 0.0));
    assert Round(200_000.0) == 200_000 && Round(0.0) == 0;
    least := 200_001;
    forall s
      ensures FeeCents(rule, s) == 200_000
    {
      assert s as real * 0.0 / 100.0 == 0.0;
    }
  }

  /** A half-cent fixed fee with a 50 % share: the closed form 3 leaves 0 where 1 is required. */
  lemma {:induction false} HalfCentSeedFallsShort() returns (rule: Option<FeeRule>)
    ensures WellFormed(rule) && HalfCentTie(rule, 1) && !Covers(rule, 1, Seed(rule, 1))
  {
    rule := Some(FeeRule(Mixed, 50.0, 0.5, 0.0, 0.0));
    assert Round(0.0) == 0;
    assert (1.0 + 0.5) / (1.0 - 0.5) == 3.0;
    assert IsWhole(3.0) && IsWhole(1.0);
    SeedCoversIff(rule, 1);
  }

  // ---- Quoting forward and backward ----

  lemma {:induction false} DeliverableIff(net: int, clientRate: real, destination: int)
    requires clientRate > 0.0 && destination > 0
    ensures Deliverable(net, clientRate) >= destination <==> NetRequired(destination, clientRate) <= net
  {
    var d := destination as real;
    CeilGalois(d / clientRate, net);
    DivLe(d, clientRate, net as real);
    var delivered := net as real * clientRate;
    FloorGalois(destination, delivered);
    if net <= 0 {
      NothingDelivered(net as real, clientRate);
    }
  }

  lemma NothingDelivered(net: real, clientRate: real)
    requires net <= 0.0 && clientRate > 0.0
    ensures net * clientRate <= 0.0
  {
  }

  /** The inverse quote delivers the target exactly from the least cover on. */
  lemma {:induction false} Adjoint(rule: Option<FeeRule>, clientRate: real, destination: int, least: int)
    requires WellFormed(rule) && clientRate > 0.0 && destination > 0
    requires IsLeastCover(rule, NetRequired(destination, clientRate), least)
    ensures forall s :: 1 <= s ==>
                          (DestinationFromSource(s, clientRate, rule) >= destination <==> least <= s)
  {
    var required := NetRequired(destination, clientRate);
    CoversIffAtLeast(rule, required, least);
    forall s | 1 <= s
      ensures DestinationFromSource(s, clientRate, rule) >= destination <==> Covers(rule, required, s)
    {
      DeliverableIff(s - FeeCents(rule, s), clientRate, destination);
    }
  }

  /** Backward, then forward: re-quoting what a debit guarantees never asks for a larger debit. */
  lemma {:induction false} BackwardThenForward(rule: Option<FeeRule>, clientRate: real, source: int, least: int)
    requires WellFormed(rule) && clientRate > 0.0 && 1 <= source
    requires DestinationFromSource(source, clientRate, rule) > 0
    requires IsLeastCover(rule, NetRequired(DestinationFromSource(source, clientRate, rule), clientRate), least)
    ensures least <= source
    ensures DestinationFromSource(least, clientRate, rule) == DestinationFromSource(source, clientRate, rule)
  {
    var destination := DestinationFromSource(source, clientRate, rule);
    Adjoint(rule, clientRate, destination, least);
    DestinationMonotone(rule, clientRate, least, source);
  }

  /** A larger debit never guarantees less. */
  lemma {:induction false} DestinationMonotone(rule: Option<FeeRule>, clientRate: real, a: int, b: int)
    requires WellFormed(rule) && 0.0 < clientRate && a <= b
    ensures DestinationFromSource(a, clientRate, rule) <= DestinationFromSource(b, clientRate, rule)
  {
    FeeGrowth(rule, a, b);
    DeliverableMonotone(a - FeeCents(rule, a), b - FeeCents(rule, b), clientRate);
  }

  lemma DeliverableMonotone(m: int, n: int, k: real)
    requires m <= n && 0.0 <= k
    ensures Deliverable(m, k) <= Deliverable(n, k)
  {
    if n > 0 {
      MulMonotone(Max(m, 0) as real, n as real, k);
      FloorGalois(Deliverable(m, k), n as real * k);
    }
  }

  /** Quoting at a client rate no better than Bridge's leaves a buffer that is never negative. */
  lemma FxBufferNonNegative(
      rule: Option<FeeRule>, clientRate: real, sellRate: real, destination: int, source: int)
    requires 0.0 < clientRate <= sellRate && destination > 0
    requires Covers(rule, NetRequired(destination, clientRate), source)
    ensures BridgeMinSource(destination, sellRate, FeeCents(rule, source)) <= source
  {
    var d, fee := destination as real, FeeCents(rule, source);
    var q := d / clientRate;
    assert q * clientRate == d;
    CeilGalois(q, NetRequired(destination, clientRate));
    assert q > 0.0 by {
      DivLe(d, clientRate, 0.0);
    }
    MulMonotone(clientRate, sellRate, q);
    DivLe(d, sellRate, q);
    CeilGalois(d / sellRate + fee as real, source);
  }

  /** Bridge's minimum is the least whole number of cents that covers the target at its rate, and the fee. */
  lemma BridgeMinIsLeast(destination: int, sellRate: real, fee: int, n: int)
    requires sellRate > 0.0
    ensures BridgeMinSource(destination, sellRate, fee) <= n <==> destination as real / sellRate <= (n - fee) as real
  {
    CeilGalois(destination as real / sellRate + fee as real, n);
  }
}
