/** What truncation and spread do to a conversion. */
module RateArithmetic {
  import opened Rounding
  import opened Wrappers
  import opened ExchangeRates
  import FeeRules
  import FixedOutput

  /** Number.toFixed(2): the nearest hundredth, halves away from zero. */
  function ToFixed2(x: real): real {
    if x >= 0.0 then Round(x * 100.0) as real / 100.0 else -(Round(-x * 100.0) as real / 100.0)
  }

  function Converted(amount: real, pair: Pair, effective: real): real
    requires effective != 0.0
  {
    if pair.from == BOB then amount / effective else amount * effective
  }

  /** Fails when the effective rate is zero; a BOB pair divides, any other multiplies. */
  function ConvertAmount(amount: real, pair: Pair, entry: Entry): Option<real> {
    if entry.effective == 0.0 then None else Some(ToFixed2(Converted(amount, pair, entry.effective)))
  }

  /** The live rate to `c`: Bridge's sell rate truncated, and the same lowered by the spread of the pair. */
  function LiveUsdRate(sellRate: real, c: Currency, spread: real): Option<(real, real)> {
    if !(sellRate > 0.0) then None
    else
      var bridgeSell := TruncateToCalcPrecision(sellRate, Some(Pair(USD, c)));
      Some((bridgeSell, Effective(Pair(USD, c), bridgeSell, spread)))
  }

  lemma TruncMonotone(x: real, y: real)
    requires x <= y
    ensures Trunc(x) <= Trunc(y)
  {
    FloorGalois(x.Floor, y);
    if x < 0.0 {
      CeilGalois(x, Ceil(y));
      CeilGalois(y, Ceil(y));
      if y >= 0.0 {
        CeilGalois(x, 0);
        FloorGalois(0, y);
      }
    }
  }

  lemma {:induction false} TruncateMonotone(x: real, y: real)
    requires x <= y
    ensures Truncate2(x) <= Truncate2(y) && Truncate6(x) <= Truncate6(y)
  {
    TruncMonotone(x * 100.0, y * 100.0);
    TruncMonotone(x * 1_000_000.0, y * 1_000_000.0);
  }

  /** Truncation never moves a value that is not negative up, nor below zero. */
  lemma TruncateBounds(x: real)
    requires x >= 0.0
    ensures 0.0 <= Truncate2(x) <= x && 0.0 <= Truncate6(x) <= x
  {
    FloorGalois(0, x * 100.0);
    FloorGalois(0, x * 1_000_000.0);
  }

  lemma LoweredBounds(base: real, k: real)
    requires 0.0 <= base && 0.0 <= k <= 1.0
    ensures 0.0 <= base * k <= base
  {
    MulMonotone(0.0, k, base);
    MulMonotone(k, 1.0, base);
  }

  lemma RaisedBounds(base: real, k: real)
    requires 0.0 <= base && 1.0 <= k
    ensures base <= base * k
  {
    MulMonotone(1.0, k, base);
  }

  lemma SpreadLowers(pair: Pair, base: real, spread: real)
    requires pair.from != BOB && 0.0 <= base && 0.0 <= spread <= 100.0
    ensures 0.0 <= WithSpread(pair, base, spread) <= base
  {
    LoweredBounds(base, 1.0 - spread / 100.0);
  }

  lemma SpreadRaises(pair: Pair, base: real, spread: real)
    requires pair.from == BOB && 0.0 <= base && 0.0 <= spread
    ensures base <= WithSpread(pair, base, spread)
  {
    RaisedBounds(base, 1.0 + spread / 100.0);
  }

  // ---- Live rate: the FX buffer ----

  /** The quoted rate is never better than Bridge's own, whatever the spread between 0 and 100. */
  lemma LiveRateAtMostBridge(sellRate: real, c: Currency, spread: real)
    requires 0.0 <= spread <= 100.0 && sellRate > 0.0
    ensures
      var (bridgeSell, effective) := LiveUsdRate(sellRate, c, spread).value;
      0.0 <= effective <= bridgeSell <= sellRate
  {
    TruncateBounds(sellRate);
    var bridgeSell := TruncateToCalcPrecision(sellRate, Some(Pair(USD, c)));
    SellSpreadAgainstClient(Pair(USD, c), bridgeSell, spread);
  }

  /** A quote at the live rate that covers its target never asks for less than Bridge's own minimum. */
  lemma {:induction false} LiveQuoteBuffer(
      sellRate: real, c: Currency, spread: real, rule: Option<FeeRules.FeeRule>, destination: int, source: int)
    requires 0.0 <= spread <= 100.0 && sellRate > 0.0 && destination > 0
    requires LiveUsdRate(sellRate, c, spread).value.1 > 0.0
    requires
      FixedOutput.Covers(
        rule, FixedOutput.NetRequired(destination, LiveUsdRate(sellRate, c, spread).value.1), source)
    ensures
      var bridgeSell := LiveUsdRate(sellRate, c, spread).value.0;
      && bridgeSell > 0.0
      && FixedOutput.BridgeMinSource(destination, bridgeSell, FeeRules.FeeCents(rule, source)) <= source
  {
    LiveRateAtMostBridge(sellRate, c, spread);
    var (bridgeSell, effective) := LiveUsdRate(sellRate, c, spread).value;
    FixedOutput.FxBufferNonNegative(rule, effective, bridgeSell, destination, source);
  }

  // ---- The spread and the client ----

  /**
   * Buying with BOB divides by the effective rate, so the spread works against the client iff that rate is at
   * least the base. For a base that is not negative this holds exactly when a whole step of the pair's
   * precision lies between the base and the base with spread.
   */
  lemma {:induction false} SpreadAgainstClientIff(pair: Pair, base: real, spread: real)
    requires pair.from == BOB && base >= 0.0 && spread >= 0.0
    ensures
      var raised := WithSpread(pair, base, spread);
      Effective(pair, base, spread) >= base
      <==> if IsAnchor(pair) then Ceil(base * 100.0) as real <= raised * 100.0
           else Ceil(base * 1_000_000.0) as real <= raised * 1_000_000.0
  {
    SpreadRaises(pair, base, spread);
    StepBetween(base, WithSpread(pair, base, spread));
  }

  /** Truncating `raised` stays at or above `base` iff a whole step lies between them. */
  lemma {:induction false} StepBetween(base: real, raised: real)
    requires 0.0 <= base <= raised
    ensures Truncate2(raised) >= base <==> Ceil(base * 100.0) as real <= raised * 100.0
    ensures Truncate6(raised) >= base <==> Ceil(base * 1_000_000.0) as real <= raised * 1_000_000.0
  {
    CeilGalois(base * 100.0, Trunc(raised * 100.0));
    FloorGalois(Ceil(base * 100.0), raised * 100.0);
    CeilGalois(base * 1_000_000.0, Trunc(raised * 1_000_000.0));
    FloorGalois(Ceil(base * 1_000_000.0), raised * 1_000_000.0);
  }

  /** Selling into BOB multiplies: truncation and spread both work against the client. */
  lemma SellSpreadAgainstClient(pair: Pair, base: real, spread: real)
    requires pair.from != BOB && base >= 0.0 && 0.0 <= spread <= 100.0
    ensures 0.0 <= Effective(pair, base, spread) <= base
  {
    SpreadLowers(pair, base, spread);
    TruncateBounds(WithSpread(pair, base, spread));
  }

  /** Two-decimal truncation of the anchor: a base of 6.999 without spread is quoted at 6.99. */
  lemma AnchorCanFavourClient()
    ensures Effective(BOB_USD, 6.999, 0.0) < 6.999
  {
  }

  // ---- What an effective rate is ----

  function StepsPerUnit(pair: Pair): real {
    if pair == BOB_USD || pair == USD_BOB then 100.0 else 1_000_000.0
  }

  /** A hundred with the spread added for a pair out of BOB, taken off for any other. */
  function SpreadParts(pair: Pair, spread: real): real {
    if pair.from == BOB then 100.0 + spread else 100.0 - spread
  }

  /** `n` is the greatest whole number up to `x`. */
  predicate IsGreatest(n: int, x: real) {
    n as real <= x < n as real + 1.0
  }

  /** `n` steps, the greatest whole number of them that does not exceed `x`. */
  predicate IsSteps(n: int, pair: Pair, x: real, rate: real) {
    rate == n as real / StepsPerUnit(pair) && IsGreatest(n, x * StepsPerUnit(pair))
  }

  /** `x` cut to the precision of the pair. */
  ghost predicate IsCut(pair: Pair, x: real, rate: real) {
    exists n :: IsSteps(n, pair, x, rate)
  }

  /** The base rate with its spread added or taken off, cut to the precision of the pair. */
  ghost predicate IsEffective(pair: Pair, base: real, spread: real, effective: real) {
    IsCut(pair, base * SpreadParts(pair, spread) / 100.0, effective)
  }

  /** A price as a client sees it: base and spread say what the effective rate is. */
  ghost predicate IsPriced(pair: Pair, e: Entry) {
    0.0 <= e.base && 0.0 <= e.spread <= 100.0 ==> IsEffective(pair, e.base, e.spread, e.effective)
  }

  lemma {:induction false} SpreadAsParts(pair: Pair, base: real, spread: real)
    requires 0.0 <= base && 0.0 <= spread <= 100.0
    ensures WithSpread(pair, base, spread) == base * SpreadParts(pair, spread) / 100.0
    ensures 0.0 <= WithSpread(pair, base, spread)
  {
    var parts := SpreadParts(pair, spread);
    var k := parts / 100.0;
    assert WithSpread(pair, base, spread) == base * k;
    assert base * parts == base * k * 100.0;
    MulMonotone(0.0, k, base);
  }

  lemma {:induction false} TruncIsGreatest(x: real)
    requires x >= 0.0
    ensures IsGreatest(Trunc(x), x)
  {
  }

  lemma {:induction false} CutIs(pair: Pair, x: real)
    requires x >= 0.0
    ensures IsCut(pair, x, TruncateToCalcPrecision(x, Some(pair)))
  {
    if IsAnchor(pair) {
      TruncIsGreatest(x * 100.0);
      assert IsSteps(Trunc(x * 100.0), pair, x, Truncate2(x));
    } else {
      TruncIsGreatest(x * 1_000_000.0);
      assert IsSteps(Trunc(x * 1_000_000.0), pair, x, Truncate6(x));
    }
  }

  lemma {:induction false} EffectiveIs(pair: Pair, base: real, spread: real)
    requires 0.0 <= base && 0.0 <= spread <= 100.0
    ensures IsEffective(pair, base, spread, Effective(pair, base, spread))
  {
    SpreadAsParts(pair, base, spread);
    CutIs(pair, WithSpread(pair, base, spread));
  }

  /** Every rate read from the table is priced so. */
  lemma EntriesArePriced(pair: Pair, row: Row)
    ensures EntryOf(pair, row).base == row.rate && EntryOf(pair, row).spread == row.spread
    ensures IsPriced(pair, EntryOf(pair, row))
  {
    if 0.0 <= row.rate && 0.0 <= row.spread <= 100.0 {
      EffectiveIs(pair, row.rate, row.spread);
    }
  }

  /** The notification of an update carries the new rate under the pair's own spread, priced so. */
  lemma UpdateIsPriced(s: State, pair: Pair, rate: real, bridge: Option<Quote>, writeFails: bool)
    requires pair in s.table && pair in s.snapshot
    ensures
      var s' := Update(s, pair, rate, bridge, writeFails);
      && (s' == s || (|s'.batch| == |s.batch| + 1 && s'.batch[..|s.batch|] == s.batch))
      && (s' != s ==>
            var last := s'.batch[|s.batch|];
            && last.pair == pair && last.entry.base == rate && last.entry.spread == s.snapshot[pair].spread
            && IsPriced(pair, last.entry) && s'.snapshot == s.snapshot[pair := last.entry])
  {
    if 0.0 <= rate && 0.0 <= s.snapshot[pair].spread <= 100.0 {
      EffectiveIs(pair, rate, s.snapshot[pair].spread);
    }
  }

  /** A value that is already there is announced without a write, so no failing write can stop it. */
  lemma SameValueIsAnnounced(s: State, pair: Pair, bridge: Option<Quote>, writeFails: bool)
    requires pair in s.table && pair in s.snapshot
    requires bridge.None? || (s.snapshot[pair].bridgeBuy == Some(bridge.value.buy)
                              && s.snapshot[pair].bridgeSell == Some(bridge.value.sell))
    ensures
      var s' := Update(s, pair, s.snapshot[pair].base, bridge, writeFails);
      s'.table == s.table && |s'.batch| == |s.batch| + 1
  {
  }

  /** Everything cached or announced is priced so. */
  ghost predicate AllPriced(s: State) {
    && (forall p | p in s.snapshot :: IsPriced(p, s.snapshot[p]))
    && (forall k | 0 <= k < |s.batch| :: IsPriced(s.batch[k].pair, s.batch[k].entry))
  }

  lemma {:induction false} UpdateKeepsPriced(s: State, pair: Pair, rate: real, bridge: Option<Quote>, writeFails: bool)
    requires AllPriced(s)
    ensures AllPriced(Update(s, pair, rate, bridge, writeFails))
  {
    if pair in s.snapshot || pair in s.table {
      var prior := if pair in s.snapshot then s.snapshot[pair] else EntryOf(pair, s.table[pair]);
      if 0.0 <= rate && 0.0 <= prior.spread <= 100.0 {
        EffectiveIs(pair, rate, prior.spread);
      }
      assert IsPriced(pair, Refreshed(pair, prior, rate, bridge));
    }
  }

  lemma {:induction false} CrossKeepsPriced(
      s: State, bobUsd: real, usdBob: real, n: nat, quotes: map<Currency, Quote>, failing: set<Pair>)
    requires AllPriced(s) && n <= |BRIDGE_CURRENCIES|
    ensures AllPriced(CrossFirst(s, bobUsd, usdBob, n, quotes, failing))
  {
    if n > 0 {
      CrossKeepsPriced(s, bobUsd, usdBob, n - 1, quotes, failing);
      OneKeepsPriced(CrossFirst(s, bobUsd, usdBob, n - 1, quotes, failing), bobUsd, usdBob, BRIDGE_CURRENCIES[n - 1],
                     quotes, failing);
    }
  }

  lemma {:induction false} OneKeepsPriced(
      s: State, bobUsd: real, usdBob: real, c: Currency, quotes: map<Currency, Quote>, failing: set<Pair>)
    requires AllPriced(s)
    ensures AllPriced(CrossOne(s, bobUsd, usdBob, c, quotes, failing))
  {
    if UsableQuote(quotes, c) {
      var q := quotes[c];
      var x, y, z := TruncateToCalcPrecision(bobUsd / q.sell, None), TruncateToCalcPrecision(usdBob / q.buy, None),
                     TruncateToCalcPrecision(q.sell, None);
      UpdateKeepsPriced(s, Pair(BOB, c), x, Some(q), Pair(BOB, c) in failing);
      var s1 := Update(s, Pair(BOB, c), x, Some(q), Pair(BOB, c) in failing);
      UpdateKeepsPriced(s1, Pair(c, BOB), y, Some(q), Pair(c, BOB) in failing);
      var s2 := Update(s1, Pair(c, BOB), y, Some(q), Pair(c, BOB) in failing);
      UpdateKeepsPriced(s2, Pair(USD, c), z, Some(q), Pair(USD, c) in failing);
    }
  }

  /** Every rate a cycle announces is priced so. */
  lemma {:induction false} CycleIsPriced(
      table: Table, buyAverage: real, sellAverage: real, quotes: map<Currency, Quote>, failing: set<Pair>)
    ensures AllPriced(Cycle(table, buyAverage, sellAverage, quotes, failing))
  {
    var s0 := State(table, SnapshotOf(table), []);
    forall p | p in table
      ensures IsPriced(p, EntryOf(p, table[p]))
    {
      EntriesArePriced(p, table[p]);
    }
    UpdateKeepsPriced(s0, BOB_USD, buyAverage, None, BOB_USD in failing);
    var s1 := Update(s0, BOB_USD, buyAverage, None, BOB_USD in failing);
    UpdateKeepsPriced(s1, USD_BOB, sellAverage, None, USD_BOB in failing);
    var s2 := Update(s1, USD_BOB, sellAverage, None, USD_BOB in failing);
    var bobUsd, usdBob := BaseOf(s2, BOB_USD), BaseOf(s2, USD_BOB);
    if bobUsd.Some? && usdBob.Some? {
      CrossKeepsPriced(s2, bobUsd.value, usdBob.value, |BRIDGE_CURRENCIES|, quotes, failing);
    }
  }

  /** The live rate is Bridge's sell rate cut to the pair's precision, and the client's is that with the spread taken off. */
  lemma LiveRateIs(sellRate: real, c: Currency, spread: real)
    requires 0.0 <= spread <= 100.0
    ensures LiveUsdRate(sellRate, c, spread).None? <==> sellRate <= 0.0
    ensures sellRate > 0.0 ==>
      var (bridgeSell, effective) := LiveUsdRate(sellRate, c, spread).value;
      IsCut(Pair(USD, c), sellRate, bridgeSell) && IsEffective(Pair(USD, c), bridgeSell, spread, effective)
  {
    if sellRate > 0.0 {
      TruncateBounds(sellRate);
      CutIs(Pair(USD, c), sellRate);
      EffectiveIs(Pair(USD, c), TruncateToCalcPrecision(sellRate, Some(Pair(USD, c))), spread);
    }
  }

  /** `result` is the whole number of cents nearest to `x`, the upper one of two. */
  ghost predicate IsNearestCents(result: real, x: real) {
    exists n: int :: IsCents(n, result) && (n as real - 0.5 <= x * 100.0 < n as real + 0.5)
  }

  predicate IsCents(n: int, x: real) {
    x == n as real / 100.0
  }

  /** Out of BOB an amount is divided by the effective rate, otherwise multiplied; only a rate of zero fails. */
  lemma ConvertIs(amount: real, pair: Pair, entry: Entry)
    requires 0.0 <= amount && 0.0 <= entry.effective
    ensures ConvertAmount(amount, pair, entry).None? <==> entry.effective == 0.0
    ensures entry.effective > 0.0 ==>
              IsNearestCents(ConvertAmount(amount, pair, entry).value,
                             if pair.from == BOB then amount / entry.effective else amount * entry.effective)
  {
    if entry.effective > 0.0 {
      var x := Converted(amount, pair, entry.effective);
      DivMonotone(0.0, amount, entry.effective);
      MulMonotone(0.0, entry.effective, amount);
      RoundGalois(x * 100.0, Round(x * 100.0));
      assert IsCents(Round(x * 100.0), ToFixed2(x));
    }
  }

  // ---- Round trip ----

  /** The cross rates one cycle derives from the anchors and one Bridge quote. */
  predicate DerivedCross(c: Currency, bobUsd: real, usdBob: real, q: Quote, bobX: Row, xBob: Row)
    requires q.buy > 0.0 && q.sell > 0.0
  {
    && c != BOB && c != USD
    && bobX.rate == TruncateToCalcPrecision(bobUsd / q.sell, None)
    && xBob.rate == TruncateToCalcPrecision(usdBob / q.buy, None)
  }

  /** The rate back is never better than the rate there. */
  lemma CrossRatesOrdered(c: Currency, bobUsd: real, usdBob: real, q: Quote, bobX: Row, xBob: Row)
    requires 0.0 < q.sell <= q.buy && 0.0 <= usdBob <= bobUsd
    requires DerivedCross(c, bobUsd, usdBob, q, bobX, xBob)
    requires 0.0 <= bobX.spread && 0.0 <= xBob.spread <= 100.0
    ensures 0.0 <= EntryOf(Pair(c, BOB), xBob).effective <= EntryOf(Pair(BOB, c), bobX).effective
  {
    var up, down := bobUsd / q.sell, usdBob / q.buy;
    QuotientsOrdered(usdBob, bobUsd, q.sell, q.buy);
    TruncateMonotone(down, up);
    TruncateBounds(down);
    SpreadsOrdered(Pair(c, BOB), xBob.rate, xBob.spread, Pair(BOB, c), bobX.rate, bobX.spread);
  }

  lemma SpreadsOrdered(sell: Pair, low: real, sellSpread: real, buy: Pair, high: real, buySpread: real)
    requires sell.from != BOB && buy.from == BOB && !IsAnchor(sell) && !IsAnchor(buy)
    requires 0.0 <= low <= high && 0.0 <= sellSpread <= 100.0 && 0.0 <= buySpread
    ensures 0.0 <= Effective(sell, low, sellSpread) <= Effective(buy, high, buySpread)
  {
    SpreadLowers(sell, low, sellSpread);
    SpreadRaises(buy, high, buySpread);
    TruncatedBetween(WithSpread(sell, low, sellSpread), low, high, WithSpread(buy, high, buySpread));
  }

  lemma {:induction false} TruncatedBetween(lowered: real, low: real, high: real, raised: real)
    requires 0.0 <= lowered <= low <= high <= raised
    ensures 0.0 <= Truncate6(lowered) <= Truncate6(raised)
  {
    TruncateMonotone(lowered, raised);
    TruncateBounds(lowered);
  }

  lemma DivMonotone(a: real, b: real, d: real)
    requires d > 0.0 && a <= b
    ensures a / d <= b / d
  {
    var p, q := a / d, b / d;
    assert p * d == a && q * d == b;
    QuotientLe(p, d, q);
  }

  lemma QuotientsOrdered(a: real, b: real, d: real, e: real)
    requires 0.0 <= a <= b && 0.0 < d <= e
    ensures 0.0 <= a / e <= b / d
  {
    DivMonotone(0.0, a, e);
    DivMonotone(a, b, e);
    DivAntitone(b, d, e);
  }

  lemma DivAntitone(a: real, d: real, e: real)
    requires 0.0 <= a && 0.0 < d <= e
    ensures a / e <= a / d
  {
    var q := a / d;
    assert q * d == a;
    DivMonotone(0.0, a, d);
    MulMonotone(d, e, q);
    DivLe(a, e, q);
  }

  lemma ToFixed2Near(x: real)
    ensures x - 0.005 <= ToFixed2(x) <= x + 0.005
  {
    RoundGalois(x * 100.0, Round(x * 100.0));
    RoundGalois(-x * 100.0, Round(-x * 100.0));
  }

  /** Converting BOB to X and back returns at most the original plus half a cent, and half a cent of X. */
  lemma {:induction false} BoundedRoundTrip(
      c: Currency, bobUsd: real, usdBob: real, q: Quote, bobX: Row, xBob: Row, amount: real, there: real, back: real)
    requires 0.0 < q.sell <= q.buy && 0.0 <= usdBob <= bobUsd && amount >= 0.0
    requires DerivedCross(c, bobUsd, usdBob, q, bobX, xBob)
    requires 0.0 <= bobX.spread && 0.0 <= xBob.spread <= 100.0
    requires ConvertAmount(amount, Pair(BOB, c), EntryOf(Pair(BOB, c), bobX)) == Some(there)
    requires ConvertAmount(there, Pair(c, BOB), EntryOf(Pair(c, BOB), xBob)) == Some(back)
    ensures back <= amount + 0.005 * (1.0 + EntryOf(Pair(c, BOB), xBob).effective)
  {
    CrossRatesOrdered(c, bobUsd, usdBob, q, bobX, xBob);
    RoundTripEntries(Pair(BOB, c), EntryOf(Pair(BOB, c), bobX), Pair(c, BOB), EntryOf(Pair(c, BOB), xBob),
                     amount, there, back);
  }

  lemma RoundTripEntries(
      buy: Pair, buyEntry: Entry, sell: Pair, sellEntry: Entry, amount: real, there: real, back: real)
    requires buy.from == BOB && sell.from != BOB && amount >= 0.0
    requires 0.0 <= sellEntry.effective <= buyEntry.effective
    requires ConvertAmount(amount, buy, buyEntry) == Some(there) && ConvertAmount(there, sell, sellEntry) == Some(back)
    ensures back <= amount + 0.005 * (1.0 + sellEntry.effective)
  {
    ConvertNear(amount, buy, buyEntry, there);
    ConvertNear(there, sell, sellEntry, back);
    ProductBound(amount, buyEntry.effective, sellEntry.effective, there);
  }

  lemma ConvertNear(amount: real, pair: Pair, entry: Entry, result: real)
    requires ConvertAmount(amount, pair, entry) == Some(result)
    ensures entry.effective != 0.0 && result <= Converted(amount, pair, entry.effective) + 0.005
  {
    ToFixed2Near(Converted(amount, pair, entry.effective));
  }

  lemma ProductBound(amount: real, buyAt: real, sellAt: real, there: real)
    requires amount >= 0.0 && 0.0 <= sellAt <= buyAt && buyAt > 0.0
    requires there <= amount / buyAt + 0.005
    ensures there * sellAt <= amount + 0.005 * sellAt
  {
    var exact := amount / buyAt;
    DivMonotone(0.0, amount, buyAt);
    MulMonotone(there, exact + 0.005, sellAt);
    assert (exact + 0.005) * sellAt == exact * sellAt + 0.005 * sellAt;
    MulMonotone(sellAt, buyAt, exact);
    assert exact * buyAt == amount;
  }

  // ---- What a cycle leaves in the table ----

  /** The currency has a quote and both its pairs with BOB have rows whose writes succeed. */
  predicate Crossable(table: Table, c: Currency, quotes: map<Currency, Quote>, failing: set<Pair>) {
    && UsableQuote(quotes, c) && Pair(BOB, c) in table && Pair(c, BOB) in table
    && Pair(BOB, c) !in failing && Pair(c, BOB) !in failing
  }

  predicate Carries(row: Row, q: Quote) {
    row.bridgeBuy == Some(q.buy) && row.bridgeSell == Some(q.sell)
  }

  /** The rows with BOB hold the derived rates, the one with USD Bridge's sell rate cut, and all of them the quote. */
  ghost predicate Derives(
      table: Table, bobUsd: real, usdBob: real, c: Currency, quotes: map<Currency, Quote>, failing: set<Pair>)
  {
    && UsableQuote(quotes, c) && Pair(BOB, c) in table && Pair(c, BOB) in table
    && DerivedCross(c, bobUsd, usdBob, quotes[c], table[Pair(BOB, c)], table[Pair(c, BOB)])
    && Carries(table[Pair(BOB, c)], quotes[c]) && Carries(table[Pair(c, BOB)], quotes[c])
    && (Pair(USD, c) in table && Pair(USD, c) !in failing ==>
          Carries(table[Pair(USD, c)], quotes[c]) && IsCut(Pair(USD, c), quotes[c].sell, table[Pair(USD, c)].rate))
  }

  predicate SameSpreads(a: Table, b: Table) {
    b.Keys == a.Keys && forall p | p in a :: b[p].spread == a[p].spread
  }

  lemma UpdateKeeps(t: Table, pair: Pair, rate: real, q: Quote, writeFails: bool)
    ensures
      var t' := PlainUpdate(t, pair, rate, Some(q), writeFails);
      SameSpreads(t, t') && forall p | p in t && p != pair :: t'[p] == t[p]
  {
  }

  lemma ThreeKeep(t: Table, x: real, y: real, z: real, c: Currency, q: Quote, failing: set<Pair>)
    ensures
      var t1 := PlainUpdate(t, Pair(BOB, c), x, Some(q), Pair(BOB, c) in failing);
      var t2 := PlainUpdate(t1, Pair(c, BOB), y, Some(q), Pair(c, BOB) in failing);
      var t3 := PlainUpdate(t2, Pair(USD, c), z, Some(q), Pair(USD, c) in failing);
      SameSpreads(t, t3) && forall p | p in t && p.from != c && p.to != c :: t3[p] == t[p]
  {
    var t1 := PlainUpdate(t, Pair(BOB, c), x, Some(q), Pair(BOB, c) in failing);
    var t2 := PlainUpdate(t1, Pair(c, BOB), y, Some(q), Pair(c, BOB) in failing);
    UpdateKeeps(t, Pair(BOB, c), x, q, Pair(BOB, c) in failing);
    UpdateKeeps(t1, Pair(c, BOB), y, q, Pair(c, BOB) in failing);
    UpdateKeeps(t2, Pair(USD, c), z, q, Pair(USD, c) in failing);
  }

  lemma {:induction false} CrossOneKeeps(
      table: Table, bobUsd: real, usdBob: real, c: Currency, quotes: map<Currency, Quote>, failing: set<Pair>)
    ensures
      var table' := PlainCrossOne(table, bobUsd, usdBob, c, quotes, failing);
      && SameSpreads(table, table')
      && (forall p | p in table && p.from != c && p.to != c :: table'[p] == table[p])
  {
    if UsableQuote(quotes, c) {
      var q := quotes[c];
      ThreeKeep(table, TruncateToCalcPrecision(bobUsd / q.sell, None), TruncateToCalcPrecision(usdBob / q.buy, None),
                TruncateToCalcPrecision(q.sell, None), c, q, failing);
    }
  }

  /** Three writes, the first two of which succeed. */
  lemma ThreeRates(t: Table, x: real, y: real, z: real, c: Currency, q: Quote, failing: set<Pair>)
    requires c != BOB && c != USD && Stored(x) == x && Stored(y) == y && Stored(z) == z
    requires Pair(BOB, c) in t && Pair(c, BOB) in t && Pair(BOB, c) !in failing && Pair(c, BOB) !in failing
    ensures
      var t1 := PlainUpdate(t, Pair(BOB, c), x, Some(q), false);
      var t2 := PlainUpdate(t1, Pair(c, BOB), y, Some(q), false);
      var t3 := PlainUpdate(t2, Pair(USD, c), z, Some(q), Pair(USD, c) in failing);
      && Pair(BOB, c) in t3 && Pair(c, BOB) in t3 && t3[Pair(BOB, c)].rate == x && t3[Pair(c, BOB)].rate == y
      && Carries(t3[Pair(BOB, c)], q) && Carries(t3[Pair(c, BOB)], q)
      && (Pair(USD, c) in t3 && Pair(USD, c) !in failing ==>
            t3[Pair(USD, c)].rate == z && Carries(t3[Pair(USD, c)], q))
  {
  }

  lemma {:induction false} CrossOneDerives(
      table: Table, bobUsd: real, usdBob: real, c: Currency, quotes: map<Currency, Quote>, failing: set<Pair>)
    requires c != BOB && c != USD && Crossable(table, c, quotes, failing)
    ensures Derives(PlainCrossOne(table, bobUsd, usdBob, c, quotes, failing), bobUsd, usdBob, c, quotes, failing)
  {
    var q := quotes[c];
    StoredFixpoints(q.sell);
    CutIs(Pair(USD, c), q.sell);
    StoredFixpoints(bobUsd / q.sell);
    StoredFixpoints(usdBob / q.buy);
    ThreeRates(table, TruncateToCalcPrecision(bobUsd / q.sell, None), TruncateToCalcPrecision(usdBob / q.buy, None),
               TruncateToCalcPrecision(q.sell, None), c, q, failing);
  }

  lemma CrossOneElsewhere(
      table: Table, bobUsd: real, usdBob: real, c: Currency, d: Currency, quotes: map<Currency, Quote>,
      failing: set<Pair>, a: real, b: real)
    requires d != c && d != BOB && d != USD && c != BOB && Derives(table, a, b, c, quotes, failing)
    ensures Derives(PlainCrossOne(table, bobUsd, usdBob, d, quotes, failing), a, b, c, quotes, failing)
  {
    CrossOneKeeps(table, bobUsd, usdBob, d, quotes, failing);
    var after := PlainCrossOne(table, bobUsd, usdBob, d, quotes, failing);
    assert after[Pair(BOB, c)] == table[Pair(BOB, c)] && after[Pair(c, BOB)] == table[Pair(c, BOB)];
    assert Pair(USD, c) in table ==> after[Pair(USD, c)] == table[Pair(USD, c)];
  }

  lemma {:induction false} CrossFirstKeeps(
      table: Table, bobUsd: real, usdBob: real, n: nat, quotes: map<Currency, Quote>, failing: set<Pair>)
    requires n <= |BRIDGE_CURRENCIES|
    ensures
      var table' := PlainCrossFirst(table, bobUsd, usdBob, n, quotes, failing);
      && SameSpreads(table, table')
      && (forall p | p in table && p.from !in BRIDGE_CURRENCIES && p.to !in BRIDGE_CURRENCIES :: table'[p] == table[p])
  {
    if n > 0 {
      var d := BRIDGE_CURRENCIES[n - 1];
      CrossFirstKeeps(table, bobUsd, usdBob, n - 1, quotes, failing);
      assert d in BRIDGE_CURRENCIES && d != BOB && d != USD;
      CrossOneKeeps(PlainCrossFirst(table, bobUsd, usdBob, n - 1, quotes, failing), bobUsd, usdBob, d, quotes, failing);
    }
  }

  lemma {:induction false} CrossFirstRates(
      table: Table, bobUsd: real, usdBob: real, n: nat, k: nat, quotes: map<Currency, Quote>, failing: set<Pair>)
    requires k < n <= |BRIDGE_CURRENCIES| && Crossable(table, BRIDGE_CURRENCIES[k], quotes, failing)
    ensures
      Derives(PlainCrossFirst(table, bobUsd, usdBob, n, quotes, failing), bobUsd, usdBob, BRIDGE_CURRENCIES[k], quotes,
              failing)
  {
    var before := PlainCrossFirst(table, bobUsd, usdBob, n - 1, quotes, failing);
    BridgeForeign(n - 1);
    if k < n - 1 {
      CrossFirstRates(table, bobUsd, usdBob, n - 1, k, quotes, failing);
      BridgeForeign(k);
      BridgeDistinct(k, n - 1);
      CrossOneElsewhere(before, bobUsd, usdBob, BRIDGE_CURRENCIES[k], BRIDGE_CURRENCIES[n - 1], quotes, failing,
                        bobUsd, usdBob);
    } else {
      CrossFirstKeeps(table, bobUsd, usdBob, n - 1, quotes, failing);
      CrossOneDerives(before, bobUsd, usdBob, BRIDGE_CURRENCIES[k], quotes, failing);
    }
  }

  lemma BridgeDistinct(i: nat, n: nat)
    requires i < n < |BRIDGE_CURRENCIES|
    ensures BRIDGE_CURRENCIES[i] != BRIDGE_CURRENCIES[n]
  {
  }

  lemma AnchorsKeepSpreads(table: Table, buyAverage: real, sellAverage: real, failing: set<Pair>)
    requires BOB_USD in table && USD_BOB in table
    ensures
      var t1 := PlainUpdate(table, BOB_USD, buyAverage, None, BOB_USD in failing);
      SameSpreads(table, PlainUpdate(t1, USD_BOB, sellAverage, None, USD_BOB in failing))
  {
  }

  /** After a cycle the rows of a quoted currency derive from the anchor values the cycle used, and carry the quote. */
  lemma {:induction false} CycleDerivesCross(
      table: Table, buyAverage: real, sellAverage: real, quotes: map<Currency, Quote>, failing: set<Pair>, k: nat)
    requires FitsColumn(table) && BOB_USD in table && USD_BOB in table
    requires k < |BRIDGE_CURRENCIES| && Crossable(table, BRIDGE_CURRENCIES[k], quotes, failing)
    ensures
      var after := Cycle(table, buyAverage, sellAverage, quotes, failing).table;
      var a, b := AnchorUsed(table, BOB_USD, buyAverage, failing), AnchorUsed(table, USD_BOB, sellAverage, failing);
      && SameSpreads(table, after) && after[BOB_USD].rate == Stored(a) && after[USD_BOB].rate == Stored(b)
      && Derives(after, a, b, BRIDGE_CURRENCIES[k], quotes, failing)
  {
    CycleTable(table, buyAverage, sellAverage, quotes, failing);
    AnchorsStep(table, buyAverage, sellAverage, failing);
    AnchorsKeepSpreads(table, buyAverage, sellAverage, failing);
    AnchorRates(table, buyAverage, sellAverage, failing);
    var a, b := AnchorUsed(table, BOB_USD, buyAverage, failing), AnchorUsed(table, USD_BOB, sellAverage, failing);
    PlainDerivesCross(AnchorTable(table, buyAverage, sellAverage, failing), a, b, quotes, failing, k);
  }

  lemma PlainDerivesCross(
      t: Table, a: real, b: real, quotes: map<Currency, Quote>, failing: set<Pair>, k: nat)
    requires BOB_USD in t && USD_BOB in t
    requires k < |BRIDGE_CURRENCIES| && Crossable(t, BRIDGE_CURRENCIES[k], quotes, failing)
    ensures
      var after := PlainCrossFirst(t, a, b, |BRIDGE_CURRENCIES|, quotes, failing);
      && SameSpreads(t, after) && after[BOB_USD] == t[BOB_USD] && after[USD_BOB] == t[USD_BOB]
      && Derives(after, a, b, BRIDGE_CURRENCIES[k], quotes, failing)
  {
    CrossFirstKeeps(t, a, b, |BRIDGE_CURRENCIES|, quotes, failing);
    CrossFirstRates(t, a, b, |BRIDGE_CURRENCIES|, k, quotes, failing);
    assert BOB !in BRIDGE_CURRENCIES && USD !in BRIDGE_CURRENCIES;
  }

  /** With the rates a cycle leaves, changing BOB into a currency and back gains at most the two roundings. */
  lemma {:induction false} CycleRoundTrip(
      table: Table, buyAverage: real, sellAverage: real, quotes: map<Currency, Quote>, failing: set<Pair>, k: nat,
      amount: real, there: real, back: real)
    requires FitsColumn(table) && BOB_USD in table && USD_BOB in table && amount >= 0.0
    requires 0.0 <= AnchorUsed(table, USD_BOB, sellAverage, failing) <= AnchorUsed(table, BOB_USD, buyAverage, failing)
    requires k < |BRIDGE_CURRENCIES| && Crossable(table, BRIDGE_CURRENCIES[k], quotes, failing)
    requires
      var c := BRIDGE_CURRENCIES[k];
      && quotes[c].sell <= quotes[c].buy
      && 0.0 <= table[Pair(BOB, c)].spread && 0.0 <= table[Pair(c, BOB)].spread <= 100.0
    requires
      var c := BRIDGE_CURRENCIES[k];
      var after := Cycle(table, buyAverage, sellAverage, quotes, failing).table;
      && Pair(BOB, c) in after && Pair(c, BOB) in after
      && ConvertAmount(amount, Pair(BOB, c), EntryOf(Pair(BOB, c), after[Pair(BOB, c)])) == Some(there)
      && ConvertAmount(there, Pair(c, BOB), EntryOf(Pair(c, BOB), after[Pair(c, BOB)])) == Some(back)
    ensures
      var c := BRIDGE_CURRENCIES[k];
      var after := Cycle(table, buyAverage, sellAverage, quotes, failing).table;
      && Pair(c, BOB) in after
      && back <= amount + 0.005 * (1.0 + EntryOf(Pair(c, BOB), after[Pair(c, BOB)]).effective)
  {
    var c := BRIDGE_CURRENCIES[k];
    var after := Cycle(table, buyAverage, sellAverage, quotes, failing).table;
    CycleDerivesCross(table, buyAverage, sellAverage, quotes, failing, k);
    BoundedRoundTrip(c, AnchorUsed(table, BOB_USD, buyAverage, failing),
                     AnchorUsed(table, USD_BOB, sellAverage, failing), quotes[c], after[Pair(BOB, c)], after[Pair(c, BOB)],
                     amount, there, back);
  }
}
