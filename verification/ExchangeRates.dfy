/**
 * The rate synchronisation cycle: a snapshot of the rates table that lives through the cycle, writes that are
 * skipped when nothing changed, and one batch of notifications at the end.
 */
module ExchangeRates {
  import opened Rounding
  import opened Wrappers

  datatype Currency = BOB | USD | EUR | MXN | BRL | COP | GBP

  /** "BOB_USD" is Pair(BOB, USD). */
  datatype Pair = Pair(from: Currency, to: Currency)

  const BOB_USD := Pair(BOB, USD)
  const USD_BOB := Pair(USD, BOB)
  const BRIDGE_CURRENCIES: seq<Currency> := [EUR, MXN, BRL, COP, GBP]

  /** A row of exchange_rates_config. */
  datatype Row = Row(rate: real, spread: real, bridgeBuy: Option<real>, bridgeSell: Option<real>)

  /** What getRate returns for a row, and what the snapshot keeps. */
  datatype Entry = Entry(base: real, spread: real, effective: real, bridgeBuy: Option<real>, bridgeSell: Option<real>)

  datatype Payload = Payload(pair: Pair, entry: Entry)

  /** Bridge's buy and sell rates for one currency. */
  datatype Quote = Quote(buy: real, sell: real)

  type Table = map<Pair, Row>

  function Truncate2(value: real): real {
    Trunc(value * 100.0) as real / 100.0
  }

  function Truncate6(value: real): real {
    Trunc(value * 1_000_000.0) as real / 1_000_000.0
  }

  predicate IsAnchor(pair: Pair) {
    pair == BOB_USD || pair == USD_BOB
  }

  /** Six decimals, except the anchor pair's two; truncated, never rounded up. */
  function TruncateToCalcPrecision(value: real, pair: Option<Pair>): real {
    if pair.Some? && IsAnchor(pair.value) then Truncate2(value) else Truncate6(value)
  }

  function WithSpread(pair: Pair, base: real, spread: real): real {
    if pair.from == BOB then base * (1.0 + spread / 100.0) else base * (1.0 - spread / 100.0)
  }

  function Effective(pair: Pair, base: real, spread: real): real {
    TruncateToCalcPrecision(WithSpread(pair, base, spread), Some(pair))
  }

  function EntryOf(pair: Pair, row: Row): Entry {
    Entry(row.rate, row.spread, Effective(pair, row.rate, row.spread), row.bridgeBuy, row.bridgeSell)
  }

  /** The rate column is numeric(12,6): what is written is rounded to six decimals, halves away from zero. */
  function Stored(rate: real): real {
    if rate >= 0.0 then Round(rate * 1_000_000.0) as real / 1_000_000.0
    else -(Round(-rate * 1_000_000.0) as real / 1_000_000.0)
  }

  function Written(row: Row, rate: real, bridge: Option<Quote>): Row {
    if bridge.Some? then Row(Stored(rate), row.spread, Some(bridge.value.buy), Some(bridge.value.sell))
    else row.(rate := Stored(rate))
  }

  // ---- The cycle as it runs ----

  datatype State = State(table: Table, snapshot: map<Pair, Entry>, batch: seq<Payload>)

  function SnapshotOf(table: Table): map<Pair, Entry> {
    map pair | pair in table :: EntryOf(pair, table[pair])
  }

  function Unchanged(prior: Entry, rate: real, bridge: Option<Quote>): bool {
    && prior.base == rate
    && (bridge.None? || (prior.bridgeBuy == Some(bridge.value.buy) && prior.bridgeSell == Some(bridge.value.sell)))
  }

  function Refreshed(pair: Pair, prior: Entry, rate: real, bridge: Option<Quote>): Entry {
    Entry(rate, prior.spread, Effective(pair, rate, prior.spread),
          if bridge.Some? then Some(bridge.value.buy) else prior.bridgeBuy,
          if bridge.Some? then Some(bridge.value.sell) else prior.bridgeSell)
  }

  /** One pair: read from the snapshot (or the table), write unless nothing changed, refresh, notify. */
  function Update(s: State, pair: Pair, rate: real, bridge: Option<Quote>, writeFails: bool): State {
    if pair !in s.snapshot && pair !in s.table then s
    else
      var prior := if pair in s.snapshot then s.snapshot[pair] else EntryOf(pair, s.table[pair]);
      var skip := Unchanged(prior, rate, bridge);
      if !skip && writeFails then s
      else
        var table := if skip || pair !in s.table then s.table
                     else s.table[pair := Written(s.table[pair], rate, bridge)];
        var entry := Refreshed(pair, prior, rate, bridge);
        State(table, s.snapshot[pair := entry], s.batch + [Payload(pair, entry)])
  }

  predicate UsableQuote(quotes: map<Currency, Quote>, c: Currency) {
    c in quotes && quotes[c].buy > 0.0 && quotes[c].sell > 0.0
  }

  /** The three pairs of one Bridge currency; a currency without a usable quote is skipped. */
  function CrossOne(
      s: State, bobUsd: real, usdBob: real, c: Currency, quotes: map<Currency, Quote>, failing: set<Pair>): State
  {
    if !UsableQuote(quotes, c) then s
    else
      var q := quotes[c];
      var s1 := Update(s, Pair(BOB, c), TruncateToCalcPrecision(bobUsd / q.sell, None), Some(q),
                       Pair(BOB, c) in failing);
      var s2 := Update(s1, Pair(c, BOB), TruncateToCalcPrecision(usdBob / q.buy, None), Some(q),
                       Pair(c, BOB) in failing);
      Update(s2, Pair(USD, c), TruncateToCalcPrecision(q.sell, None), Some(q), Pair(USD, c) in failing)
  }

  function CrossFirst(
      s: State, bobUsd: real, usdBob: real, n: nat, quotes: map<Currency, Quote>, failing: set<Pair>): State
    requires n <= |BRIDGE_CURRENCIES|
  {
    if n == 0 then s
    else CrossOne(CrossFirst(s, bobUsd, usdBob, n - 1, quotes, failing), bobUsd, usdBob,
                  BRIDGE_CURRENCIES[n - 1], quotes, failing)
  }

  function BaseOf(s: State, pair: Pair): Option<real> {
    if pair in s.snapshot then Some(s.snapshot[pair].base)
    else if pair in s.table then Some(s.table[pair].rate) else None
  }

  function Cross(s: State, quotes: map<Currency, Quote>, failing: set<Pair>): State {
    var bobUsd, usdBob := BaseOf(s, BOB_USD), BaseOf(s, USD_BOB);
    if bobUsd.None? || usdBob.None? then s
    else CrossFirst(s, bobUsd.value, usdBob.value, |BRIDGE_CURRENCIES|, quotes, failing)
  }

  function Cycle(
      table: Table, buyAverage: real, sellAverage: real, quotes: map<Currency, Quote>, failing: set<Pair>): State
  {
    var s0 := State(table, SnapshotOf(table), []);
    var s1 := Update(s0, BOB_USD, buyAverage, None, BOB_USD in failing);
    var s2 := Update(s1, USD_BOB, sellAverage, None, USD_BOB in failing);
    Cross(s2, quotes, failing)
  }

  class RateSync {
    var table: Table
    var snapshot: map<Pair, Entry>
    var batch: seq<Payload>

    ghost function View(): State
      reads this
    {
      State(table, snapshot, batch)
    }

    constructor (table: Table)
      ensures this.table == table
    {
      this.table := table;
      snapshot := map[];
      batch := [];
    }

    method UpdateRateInternal(pair: Pair, rate: real, bridge: Option<Quote>, writeFails: bool)
      modifies this
      ensures View() == Update(old(View()), pair, rate, bridge, writeFails)
    {
      if pair !in snapshot && pair !in table {
        return;
      }
      var prior := if pair in snapshot then snapshot[pair] else EntryOf(pair, table[pair]);
      var rateUnchanged := prior.base == rate;
      var bridgeUnchanged :=
        bridge.None? || (prior.bridgeBuy == Some(bridge.value.buy) && prior.bridgeSell == Some(bridge.value.sell));
      if !rateUnchanged || !bridgeUnchanged {
        if writeFails {
          return;
        }
        if pair in table {
          table := table[pair := Written(table[pair], rate, bridge)];
        }
      }
      var payload := Payload(pair, Refreshed(pair, prior, rate, bridge));
      snapshot := snapshot[pair := payload.entry];
      batch := batch + [payload];
    }

    method SyncBridgeCrossRates(quotes: map<Currency, Quote>, failing: set<Pair>) returns (ok: bool)
      modifies this
      ensures View() == Cross(old(View()), quotes, failing)
      ensures ok <==> BaseOf(old(View()), BOB_USD).Some? && BaseOf(old(View()), USD_BOB).Some?
    {
      ghost var start := View();
      if (BOB_USD !in snapshot && BOB_USD !in table) || (USD_BOB !in snapshot && USD_BOB !in table) {
        return false;
      }
      var bobUsd := if BOB_USD in snapshot then snapshot[BOB_USD].base else table[BOB_USD].rate;
      var usdBob := if USD_BOB in snapshot then snapshot[USD_BOB].base else table[USD_BOB].rate;
      var i := 0;
      while i < |BRIDGE_CURRENCIES|
        invariant 0 <= i <= |BRIDGE_CURRENCIES|
        invariant View() == CrossFirst(start, bobUsd, usdBob, i, quotes, failing)
      {
        var c := BRIDGE_CURRENCIES[i];
        i := i + 1;
        if c !in quotes || quotes[c].buy <= 0.0 || quotes[c].sell <= 0.0 {
          continue;
        }
        var q := quotes[c];
        var bobX := TruncateToCalcPrecision(bobUsd / q.sell, None);
        var xBob := TruncateToCalcPrecision(usdBob / q.buy, None);
        UpdateRateInternal(Pair(BOB, c), bobX, Some(q), Pair(BOB, c) in failing);
        UpdateRateInternal(Pair(c, BOB), xBob, Some(q), Pair(c, BOB) in failing);
        UpdateRateInternal(Pair(USD, c), TruncateToCalcPrecision(q.sell, None), Some(q), Pair(USD, c) in failing);
      }
      return true;
    }

    /** The averages are None when the provider fails: then nothing is read and nothing is emitted. */
    method SyncExternalRates(
        buyAverage: Option<real>, sellAverage: Option<real>, quotes: map<Currency, Quote>, failing: set<Pair>)
      returns (emitted: Option<seq<Payload>>)
      modifies this
      ensures buyAverage.None? || sellAverage.None? ==> emitted.None? && View() == old(View())
      ensures buyAverage.Some? && sellAverage.Some? ==>
                && View() == Cycle(old(table), buyAverage.value, sellAverage.value, quotes, failing)
                && emitted == Some(batch)
    {
      if buyAverage.None? || sellAverage.None? {
        return None;
      }
      snapshot := map pair | pair in table :: EntryOf(pair, table[pair]);
      batch := [];
      UpdateRateInternal(BOB_USD, buyAverage.value, None, BOB_USD in failing);
      UpdateRateInternal(USD_BOB, sellAverage.value, None, USD_BOB in failing);
      var crossed := SyncBridgeCrossRates(quotes, failing);
      return Some(batch);
    }
  }

  // ---- The cycle that re-reads every pair and always writes ----

  function PlainUpdate(table: Table, pair: Pair, rate: real, bridge: Option<Quote>, writeFails: bool): Table {
    if pair !in table || writeFails then table else table[pair := Written(table[pair], rate, bridge)]
  }

  function PlainCrossOne(
      table: Table, bobUsd: real, usdBob: real, c: Currency, quotes: map<Currency, Quote>, failing: set<Pair>): Table
  {
    if !UsableQuote(quotes, c) then table
    else
      var q := quotes[c];
      var t1 := PlainUpdate(table, Pair(BOB, c), TruncateToCalcPrecision(bobUsd / q.sell, None), Some(q),
                            Pair(BOB, c) in failing);
      var t2 := PlainUpdate(t1, Pair(c, BOB), TruncateToCalcPrecision(usdBob / q.buy, None), Some(q),
                            Pair(c, BOB) in failing);
      PlainUpdate(t2, Pair(USD, c), TruncateToCalcPrecision(q.sell, None), Some(q), Pair(USD, c) in failing)
  }

  function PlainCrossFirst(
      table: Table, bobUsd: real, usdBob: real, n: nat, quotes: map<Currency, Quote>, failing: set<Pair>): Table
    requires n <= |BRIDGE_CURRENCIES|
  {
    if n == 0 then table
    else PlainCrossOne(PlainCrossFirst(table, bobUsd, usdBob, n - 1, quotes, failing), bobUsd, usdBob,
                       BRIDGE_CURRENCIES[n - 1], quotes, failing)
  }

  function PlainCycle(
      table: Table, buyAverage: real, sellAverage: real, quotes: map<Currency, Quote>, failing: set<Pair>): Table
  {
    var t1 := PlainUpdate(table, BOB_USD, buyAverage, None, BOB_USD in failing);
    var t2 := PlainUpdate(t1, USD_BOB, sellAverage, None, USD_BOB in failing);
    if BOB_USD !in t2 || USD_BOB !in t2 then t2
    else PlainCrossFirst(t2, t2[BOB_USD].rate, t2[USD_BOB].rate, |BRIDGE_CURRENCIES|, quotes, failing)
  }

  // ---- Coherence and refinement ----

  /** Every snapshot entry is what reading the table again would give. */
  predicate Coherent(s: State) {
    s.snapshot == SnapshotOf(s.table)
  }

  /** Every rate in the table fits its column. */
  predicate FitsColumn(table: Table) {
    forall pair | pair in table :: Stored(table[pair].rate) == table[pair].rate
  }

  /** Every notification tells what its pair's row now says. */
  predicate BatchMatches(s: State) {
    forall k | 0 <= k < |s.batch| ::
      s.batch[k].pair in s.table && s.batch[k].entry == EntryOf(s.batch[k].pair, s.table[s.batch[k].pair])
  }

  predicate Notified(s: State, pair: Pair) {
    exists k | 0 <= k < |s.batch| :: s.batch[k].pair == pair
  }

  lemma {:induction false} StoredWhole(n: int)
    ensures Stored(n as real / 1_000_000.0) == n as real / 1_000_000.0
  {
    var x := n as real / 1_000_000.0;
    assert x * 1_000_000.0 == n as real;
    assert -x * 1_000_000.0 == -(n as real);
    assert Round(n as real) == n && Round(-(n as real)) == -n;
  }

  /** Truncated cross rates, and whatever was stored, fit the column. */
  lemma {:induction false} StoredFixpoints(x: real)
    ensures Stored(TruncateToCalcPrecision(x, None)) == TruncateToCalcPrecision(x, None)
    ensures Stored(Stored(x)) == Stored(x)
  {
    StoredWhole(Trunc(x * 1_000_000.0));
    StoredWhole(Round(x * 1_000_000.0));
    StoredWhole(-Round(-x * 1_000_000.0));
  }

  /**
   * One update keeps the snapshot coherent exactly when nothing was written or the written rate fits the column;
   * it then leaves the table as an unconditional write would.
   */
  lemma {:induction false} UpdateCoherentIff(s: State, pair: Pair, rate: real, bridge: Option<Quote>, writeFails: bool)
    requires Coherent(s) && FitsColumn(s.table)
    ensures
      var s' := Update(s, pair, rate, bridge, writeFails);
      && FitsColumn(s'.table)
      && s'.table == PlainUpdate(s.table, pair, rate, bridge, writeFails)
      && (Coherent(s') <==>
            || pair !in s.table || writeFails || Unchanged(EntryOf(pair, s.table[pair]), rate, bridge)
            || Stored(rate) == rate)
  {
    var s' := Update(s, pair, rate, bridge, writeFails);
    StoredFixpoints(rate);
    if pair in s.table {
      var prior := EntryOf(pair, s.table[pair]);
      assert s.snapshot[pair] == prior;
      if Unchanged(prior, rate, bridge) {
        assert Written(s.table[pair], rate, bridge) == s.table[pair];
        assert Refreshed(pair, prior, rate, bridge) == prior;
        assert s'.snapshot == s.snapshot;
      } else if !writeFails {
        if Stored(rate) == rate {
          assert s'.snapshot == SnapshotOf(s'.table);
        } else {
          assert s'.snapshot[pair].base != SnapshotOf(s'.table)[pair].base;
        }
      }
    }
  }

  /** The snapshot entry of one pair is what its row would give. */
  predicate CoherentAt(s: State, p: Pair) {
    (p in s.snapshot <==> p in s.table) && (p in s.table ==> s.snapshot[p] == EntryOf(p, s.table[p]))
  }

  lemma CoherentEverywhere(s: State)
    ensures Coherent(s) <==> forall p: Pair :: CoherentAt(s, p)
  {
    if forall p: Pair :: CoherentAt(s, p) {
      forall p: Pair
        ensures p in s.snapshot <==> p in SnapshotOf(s.table)
        ensures p in s.snapshot ==> s.snapshot[p] == SnapshotOf(s.table)[p]
      {
        assert CoherentAt(s, p);
      }
    }
  }

  /** Every notification is for one of these pairs and tells what the snapshot holds. */
  predicate Tells(s: State, pairs: set<Pair>) {
    && s.snapshot.Keys == s.table.Keys
    && forall k | 0 <= k < |s.batch| ::
         && s.batch[k].pair in pairs && s.batch[k].pair in s.snapshot
         && s.batch[k].entry == s.snapshot[s.batch[k].pair]
  }

  predicate SameAt(s: State, s': State, p: Pair) {
    && (p in s'.table <==> p in s.table) && (p in s.table ==> s'.table[p] == s.table[p])
    && (p in s'.snapshot <==> p in s.snapshot) && (p in s.snapshot ==> s'.snapshot[p] == s.snapshot[p])
  }

  /** One update of a coherent pair not notified before: the pair stays coherent exactly under the condition. */
  lemma {:induction false} UpdateStep(s: State, pairs: set<Pair>, pair: Pair, rate: real, bridge: Option<Quote>, writeFails: bool)
    requires Tells(s, pairs) && FitsColumn(s.table) && pair !in pairs && CoherentAt(s, pair)
    ensures
      var s' := Update(s, pair, rate, bridge, writeFails);
      && Tells(s', pairs + {pair}) && FitsColumn(s'.table) && s.batch <= s'.batch
      && s'.table == PlainUpdate(s.table, pair, rate, bridge, writeFails)
      && (CoherentAt(s', pair) <==> pair !in s.table || writeFails || Stored(rate) == rate)
      && (CoherentAt(s', pair) || Notified(s', pair))
      && (pair in s.table ==> s'.snapshot[pair].base == if writeFails then s.table[pair].rate else rate)
      && (forall p | p != pair :: SameAt(s, s', p))
  {
    var s' := Update(s, pair, rate, bridge, writeFails);
    StoredFixpoints(rate);
    if pair in s.table && Unchanged(EntryOf(pair, s.table[pair]), rate, bridge) {
      assert Written(s.table[pair], rate, bridge) == s.table[pair];
    }
    if |s'.batch| > |s.batch| {
      assert s'.batch[|s.batch|].pair == pair;
    }
  }

  /** During the cross rates: the anchors are as `s0` has them, every other pair is coherent. */
  ghost predicate CycleInv(s0: State, s: State, pairs: set<Pair>) {
    && Tells(s, pairs) && FitsColumn(s.table) && s0.batch <= s.batch
    && (forall p | !IsAnchor(p) :: CoherentAt(s, p))
    && (forall p | IsAnchor(p) :: SameAt(s0, s, p))
  }

  /** One cross pair within the cycle. */
  lemma {:induction false} CrossPairStep(s0: State, s: State, pairs: set<Pair>, pair: Pair, value: real, q: Quote, writeFails: bool)
    requires CycleInv(s0, s, pairs) && pair !in pairs && !IsAnchor(pair)
    ensures
      var rate := TruncateToCalcPrecision(value, None);
      var s' := Update(s, pair, rate, Some(q), writeFails);
      && CycleInv(s0, s', pairs + {pair})
      && s'.table == PlainUpdate(s.table, pair, rate, Some(q), writeFails)
  {
    StoredFixpoints(value);
    var rate := TruncateToCalcPrecision(value, None);
    var s' := Update(s, pair, rate, Some(q), writeFails);
    UpdateStep(s, pairs, pair, rate, Some(q), writeFails);
    forall p | !IsAnchor(p)
      ensures CoherentAt(s', p)
    {
      if p != pair {
        assert SameAt(s, s', p) && CoherentAt(s, p);
      }
    }
    forall p | IsAnchor(p)
      ensures SameAt(s0, s', p)
    {
      assert SameAt(s, s', p) && SameAt(s0, s, p);
    }
  }

  /** The three rows derived for a currency. */
  function RowsOf(c: Currency): set<Pair> {
    {Pair(BOB, c), Pair(c, BOB), Pair(USD, c)}
  }

  /** The anchors and the rows of the first currencies. */
  function FirstRows(n: nat): (pairs: set<Pair>)
    requires n <= |BRIDGE_CURRENCIES|
  {
    if n == 0 then {BOB_USD, USD_BOB} else FirstRows(n - 1) + RowsOf(BRIDGE_CURRENCIES[n - 1])
  }

  lemma {:induction false} CrossOneStep(
      s0: State, s: State, bobUsd: real, usdBob: real, pairs: set<Pair>, c: Currency, quotes: map<Currency, Quote>,
      failing: set<Pair>)
    requires CycleInv(s0, s, pairs) && c != BOB && c != USD && pairs !! RowsOf(c)
    ensures
      var s' := CrossOne(s, bobUsd, usdBob, c, quotes, failing);
      CycleInv(s0, s', pairs + RowsOf(c)) && s'.table == PlainCrossOne(s.table, bobUsd, usdBob, c, quotes, failing)
  {
    if UsableQuote(quotes, c) {
      var q := quotes[c];
      var bob, xBob := bobUsd / q.sell, usdBob / q.buy;
      assert Pair(BOB, c) in RowsOf(c) && Pair(c, BOB) in RowsOf(c) && Pair(USD, c) in RowsOf(c);
      CrossPairStep(s0, s, pairs, Pair(BOB, c), bob, q, Pair(BOB, c) in failing);
      var s1 := Update(s, Pair(BOB, c), TruncateToCalcPrecision(bob, None), Some(q), Pair(BOB, c) in failing);
      CrossPairStep(s0, s1, pairs + {Pair(BOB, c)}, Pair(c, BOB), xBob, q, Pair(c, BOB) in failing);
      var s2 := Update(s1, Pair(c, BOB), TruncateToCalcPrecision(xBob, None), Some(q), Pair(c, BOB) in failing);
      var two := pairs + {Pair(BOB, c)} + {Pair(c, BOB)};
      CrossPairStep(s0, s2, two, Pair(USD, c), q.sell, q, Pair(USD, c) in failing);
      assert two + {Pair(USD, c)} == pairs + RowsOf(c);
    } else {
      assert Tells(s, pairs + RowsOf(c));
    }
  }

  lemma {:induction false} CrossFirstStep(
      s0: State, s: State, bobUsd: real, usdBob: real, n: nat, quotes: map<Currency, Quote>, failing: set<Pair>)
    requires n <= |BRIDGE_CURRENCIES| && CycleInv(s0, s, FirstRows(0))
    ensures
      var s' := CrossFirst(s, bobUsd, usdBob, n, quotes, failing);
      CycleInv(s0, s', FirstRows(n)) && s'.table == PlainCrossFirst(s.table, bobUsd, usdBob, n, quotes, failing)
  {
    if n > 0 {
      CrossFirstStep(s0, s, bobUsd, usdBob, n - 1, quotes, failing);
      var before := CrossFirst(s, bobUsd, usdBob, n - 1, quotes, failing);
      var c := BRIDGE_CURRENCIES[n - 1];
      RowsApart(n - 1, n - 1);
      CrossOneStep(s0, before, bobUsd, usdBob, FirstRows(n - 1), c, quotes, failing);
    }
  }

  lemma {:induction false} RowsApart(n: nat, k: nat)
    requires n <= k < |BRIDGE_CURRENCIES|
    ensures FirstRows(n) !! RowsOf(BRIDGE_CURRENCIES[k])
  {
    if n > 0 {
      RowsApart(n - 1, k);
    }
  }

  function AnchorTable(table: Table, buyAverage: real, sellAverage: real, failing: set<Pair>): Table {
    var t1 := PlainUpdate(table, BOB_USD, buyAverage, None, BOB_USD in failing);
    PlainUpdate(t1, USD_BOB, sellAverage, None, USD_BOB in failing)
  }

  function AnchorState(table: Table, buyAverage: real, sellAverage: real, failing: set<Pair>): State {
    var s1 := Update(State(table, SnapshotOf(table), []), BOB_USD, buyAverage, None, BOB_USD in failing);
    Update(s1, USD_BOB, sellAverage, None, USD_BOB in failing)
  }

  /** Decided before the cycle: there is no row to write, its write fails, or the average fits the column. */
  predicate AnchorFits(table: Table, pair: Pair, average: real, failing: set<Pair>) {
    pair !in table || pair in failing || Stored(average) == average
  }

  /** The anchor value the cross rates are derived from. */
  function AnchorUsed(table: Table, pair: Pair, average: real, failing: set<Pair>): real {
    if pair in failing && pair in table then table[pair].rate else average
  }

  /** An anchor after both anchor updates. */
  ghost predicate AnchorDone(s: State, table: Table, pair: Pair, average: real, failing: set<Pair>) {
    && (CoherentAt(s, pair) <==> AnchorFits(table, pair, average, failing))
    && (CoherentAt(s, pair) || Notified(s, pair))
    && (pair in table ==>
          pair in s.snapshot && s.snapshot[pair].base == AnchorUsed(table, pair, average, failing))
  }

  lemma {:induction false} AnchorsStep(table: Table, buyAverage: real, sellAverage: real, failing: set<Pair>)
    requires FitsColumn(table)
    ensures
      var s := AnchorState(table, buyAverage, sellAverage, failing);
      && CycleInv(s, s, FirstRows(0)) && s.table == AnchorTable(table, buyAverage, sellAverage, failing)
      && s.table.Keys == table.Keys
      && AnchorDone(s, table, BOB_USD, buyAverage, failing) && AnchorDone(s, table, USD_BOB, sellAverage, failing)
  {
    var s0 := State(table, SnapshotOf(table), []);
    var s1 := Update(s0, BOB_USD, buyAverage, None, BOB_USD in failing);
    var s2 := Update(s1, USD_BOB, sellAverage, None, USD_BOB in failing);
    FirstAnchor(table, buyAverage, failing, s1);
    SecondAnchor(table, s1, buyAverage, sellAverage, failing);
  }

  /** Between the two anchors. */
  ghost predicate HalfDone(s: State, table: Table) {
    && Tells(s, {BOB_USD}) && FitsColumn(s.table) && s.table.Keys == table.Keys
    && (forall p | p != BOB_USD :: CoherentAt(s, p))
    && (USD_BOB in table ==> s.table[USD_BOB] == table[USD_BOB])
  }

  lemma {:induction false} FirstAnchor(table: Table, buyAverage: real, failing: set<Pair>, s1: State)
    requires FitsColumn(table)
    requires s1 == Update(State(table, SnapshotOf(table), []), BOB_USD, buyAverage, None, BOB_USD in failing)
    ensures HalfDone(s1, table) && AnchorDone(s1, table, BOB_USD, buyAverage, failing)
    ensures s1.table == PlainUpdate(table, BOB_USD, buyAverage, None, BOB_USD in failing)
  {
    var s0 := State(table, SnapshotOf(table), []);
    CoherentEverywhere(s0);
    assert CoherentAt(s0, BOB_USD);
    UpdateStep(s0, {}, BOB_USD, buyAverage, None, BOB_USD in failing);
    assert {} + {BOB_USD} == {BOB_USD};
    forall p | p != BOB_USD
      ensures CoherentAt(s1, p)
    {
      assert SameAt(s0, s1, p) && CoherentAt(s0, p);
    }
  }

  /** The second anchor's update leaves the first anchor as it was. */
  lemma FirstAnchorStays(table: Table, s1: State, s2: State, average: real, failing: set<Pair>)
    requires AnchorDone(s1, table, BOB_USD, average, failing) && SameAt(s1, s2, BOB_USD) && s1.batch <= s2.batch
    ensures AnchorDone(s2, table, BOB_USD, average, failing)
  {
    if Notified(s1, BOB_USD) {
      var k :| 0 <= k < |s1.batch| && s1.batch[k].pair == BOB_USD;
      assert s2.batch[k].pair == BOB_USD;
    }
  }

  lemma OthersStayCoherent(s1: State, s2: State)
    requires forall p | p != BOB_USD :: CoherentAt(s1, p)
    requires forall p | p != USD_BOB :: SameAt(s1, s2, p)
    ensures forall p | !IsAnchor(p) :: CoherentAt(s2, p)
  {
    forall p | !IsAnchor(p)
      ensures CoherentAt(s2, p)
    {
      assert SameAt(s1, s2, p) && CoherentAt(s1, p);
    }
  }

  lemma SecondAnchor(table: Table, s1: State, buyAverage: real, sellAverage: real, failing: set<Pair>)
    requires HalfDone(s1, table) && AnchorDone(s1, table, BOB_USD, buyAverage, failing)
    ensures
      var s2 := Update(s1, USD_BOB, sellAverage, None, USD_BOB in failing);
      && CycleInv(s2, s2, FirstRows(0))
      && s2.table == PlainUpdate(s1.table, USD_BOB, sellAverage, None, USD_BOB in failing)
      && s2.table.Keys == table.Keys
      && AnchorDone(s2, table, BOB_USD, buyAverage, failing) && AnchorDone(s2, table, USD_BOB, sellAverage, failing)
  {
    var s2 := Update(s1, USD_BOB, sellAverage, None, USD_BOB in failing);
    assert CoherentAt(s1, USD_BOB);
    UpdateStep(s1, {BOB_USD}, USD_BOB, sellAverage, None, USD_BOB in failing);
    assert {BOB_USD} + {USD_BOB} == FirstRows(0);
    assert SameAt(s1, s2, BOB_USD);
    FirstAnchorStays(table, s1, s2, buyAverage, failing);
    OthersStayCoherent(s1, s2);
  }

  /** What the plain cycle reads as its anchors is what the other one used, as the column holds it. */
  lemma AnchorRates(table: Table, buyAverage: real, sellAverage: real, failing: set<Pair>)
    requires FitsColumn(table) && BOB_USD in table && USD_BOB in table
    ensures
      var t := AnchorTable(table, buyAverage, sellAverage, failing);
      && t.Keys == table.Keys
      && t[BOB_USD].rate == Stored(AnchorUsed(table, BOB_USD, buyAverage, failing))
      && t[USD_BOB].rate == Stored(AnchorUsed(table, USD_BOB, sellAverage, failing))
  {
  }

  /** The table a cycle leaves: the anchors written, then the cross rates of the anchor values it used. */
  lemma {:induction false} CycleTable(
      table: Table, buyAverage: real, sellAverage: real, quotes: map<Currency, Quote>, failing: set<Pair>)
    requires FitsColumn(table)
    ensures
      var s0 := AnchorState(table, buyAverage, sellAverage, failing);
      var s := Cycle(table, buyAverage, sellAverage, quotes, failing);
      && CycleInv(s0, s, FirstRows(|BRIDGE_CURRENCIES|))
      && s.table == if BOB_USD !in table || USD_BOB !in table then s0.table
                    else PlainCrossFirst(s0.table, AnchorUsed(table, BOB_USD, buyAverage, failing),
                                         AnchorUsed(table, USD_BOB, sellAverage, failing), |BRIDGE_CURRENCIES|,
                                         quotes, failing)
  {
    AnchorsStep(table, buyAverage, sellAverage, failing);
    var s0 := AnchorState(table, buyAverage, sellAverage, failing);
    if BOB_USD in table && USD_BOB in table {
      CrossFirstStep(s0, s0, AnchorUsed(table, BOB_USD, buyAverage, failing),
                     AnchorUsed(table, USD_BOB, sellAverage, failing), |BRIDGE_CURRENCIES|, quotes, failing);
    } else {
      MoreRows(|BRIDGE_CURRENCIES|);
      assert Tells(s0, FirstRows(|BRIDGE_CURRENCIES|));
    }
  }

  lemma MoreRows(n: nat)
    requires n <= |BRIDGE_CURRENCIES|
    ensures FirstRows(0) <= FirstRows(n)
  {
  }

  /** Coherence at the end of a cycle is decided by the anchors, and the notifications agree with it. */
  lemma CoherentByAnchors(s0: State, s: State, pairs: set<Pair>)
    requires CycleInv(s0, s, pairs)
    requires forall p | IsAnchor(p) :: CoherentAt(s0, p) || Notified(s0, p)
    ensures Coherent(s) <==> CoherentAt(s0, BOB_USD) && CoherentAt(s0, USD_BOB)
    ensures BatchMatches(s) <==> Coherent(s)
  {
    assert IsAnchor(BOB_USD) && IsAnchor(USD_BOB);
    CoherentEverywhere(s);
    forall p | IsAnchor(p)
      ensures CoherentAt(s, p) <==> CoherentAt(s0, p)
      ensures BatchMatches(s) ==> CoherentAt(s, p)
    {
      assert SameAt(s0, s, p);
      if !CoherentAt(s0, p) {
        var k :| 0 <= k < |s0.batch| && s0.batch[k].pair == p;
        assert s.batch[k].pair == p;
      }
    }
    if Coherent(s) {
      forall k | 0 <= k < |s.batch|
        ensures s.batch[k].pair in s.table && s.batch[k].entry == EntryOf(s.batch[k].pair, s.table[s.batch[k].pair])
      {
        assert CoherentAt(s, s.batch[k].pair);
      }
    }
  }

  /**
   * A whole cycle leaves a snapshot that is what the table says, and so are its notifications, exactly when each
   * anchor has no row, fails to be written, or averages to a value its column can hold.
   */
  lemma {:induction false} CycleCoherentIff(
      table: Table, buyAverage: real, sellAverage: real, quotes: map<Currency, Quote>, failing: set<Pair>)
    requires FitsColumn(table)
    ensures
      var s := Cycle(table, buyAverage, sellAverage, quotes, failing);
      var fits := AnchorFits(table, BOB_USD, buyAverage, failing) && AnchorFits(table, USD_BOB, sellAverage, failing);
      (Coherent(s) <==> fits) && (BatchMatches(s) <==> fits)
  {
    AnchorsStep(table, buyAverage, sellAverage, failing);
    CycleTable(table, buyAverage, sellAverage, quotes, failing);
    CoherentByAnchors(AnchorState(table, buyAverage, sellAverage, failing),
                      Cycle(table, buyAverage, sellAverage, quotes, failing), FirstRows(|BRIDGE_CURRENCIES|));
  }

  /** With averages that fit, the optimised cycle stores what the plain one stores and tells what it stored. */
  lemma {:induction false} CycleRefinesPlain(
      table: Table, buyAverage: real, sellAverage: real, quotes: map<Currency, Quote>, failing: set<Pair>)
    requires FitsColumn(table)
    requires AnchorFits(table, BOB_USD, buyAverage, failing) && AnchorFits(table, USD_BOB, sellAverage, failing)
    ensures
      var s := Cycle(table, buyAverage, sellAverage, quotes, failing);
      s.table == PlainCycle(table, buyAverage, sellAverage, quotes, failing) && Coherent(s) && BatchMatches(s)
  {
    CycleTable(table, buyAverage, sellAverage, quotes, failing);
    CycleCoherentIff(table, buyAverage, sellAverage, quotes, failing);
    AnchorsStep(table, buyAverage, sellAverage, failing);
    if BOB_USD in table && USD_BOB in table {
      AnchorRates(table, buyAverage, sellAverage, failing);
    }
  }

  /** Two pairs of anchor values give the same cross rates for a currency, where these are written at all. */
  predicate SameCross(
      table: Table, a: real, b: real, a': real, b': real, c: Currency, quotes: map<Currency, Quote>, failing: set<Pair>)
  {
    UsableQuote(quotes, c) ==>
      && (Pair(BOB, c) in table && Pair(BOB, c) !in failing ==>
            TruncateToCalcPrecision(a / quotes[c].sell, None) == TruncateToCalcPrecision(a' / quotes[c].sell, None))
      && (Pair(c, BOB) in table && Pair(c, BOB) !in failing ==>
            TruncateToCalcPrecision(b / quotes[c].buy, None) == TruncateToCalcPrecision(b' / quotes[c].buy, None))
  }

  /** Two tables agree on the rows of a currency. */
  ghost predicate AgreeOn(t: Table, u: Table, c: Currency)
    requires t.Keys == u.Keys
  {
    forall p | p in t && p in RowsOf(c) :: t[p] == u[p]
  }

  lemma CrossOneTouches(t: Table, a: real, b: real, c: Currency, quotes: map<Currency, Quote>, failing: set<Pair>)
    ensures
      var t' := PlainCrossOne(t, a, b, c, quotes, failing);
      t'.Keys == t.Keys && forall p | p in t && p !in RowsOf(c) :: t'[p] == t[p]
  {
  }

  lemma {:induction false} ThreeRowsSameIff(
      t: Table, u: Table, x: real, y: real, x': real, y': real, z: real, c: Currency, q: Quote, failing: set<Pair>)
    requires c != BOB && c != USD && u.Keys == t.Keys && AgreeOn(t, u, c)
    requires Stored(x) == x && Stored(y) == y && Stored(x') == x' && Stored(y') == y'
    ensures
      var t1 := PlainUpdate(t, Pair(BOB, c), x, Some(q), Pair(BOB, c) in failing);
      var t2 := PlainUpdate(t1, Pair(c, BOB), y, Some(q), Pair(c, BOB) in failing);
      var t3 := PlainUpdate(t2, Pair(USD, c), z, Some(q), Pair(USD, c) in failing);
      var u1 := PlainUpdate(u, Pair(BOB, c), x', Some(q), Pair(BOB, c) in failing);
      var u2 := PlainUpdate(u1, Pair(c, BOB), y', Some(q), Pair(c, BOB) in failing);
      var u3 := PlainUpdate(u2, Pair(USD, c), z, Some(q), Pair(USD, c) in failing);
      && t3.Keys == u3.Keys
      && (AgreeOn(t3, u3, c) <==>
            && (Pair(BOB, c) in t && Pair(BOB, c) !in failing ==> x == x')
            && (Pair(c, BOB) in t && Pair(c, BOB) !in failing ==> y == y'))
  {
    assert Pair(BOB, c) in RowsOf(c) && Pair(c, BOB) in RowsOf(c) && Pair(USD, c) in RowsOf(c);
  }

  lemma {:induction false} CrossOneSameIff(
      t: Table, u: Table, a: real, b: real, a': real, b': real, c: Currency, quotes: map<Currency, Quote>,
      failing: set<Pair>)
    requires c != BOB && c != USD && u.Keys == t.Keys && AgreeOn(t, u, c)
    ensures
      var t', u' := PlainCrossOne(t, a, b, c, quotes, failing), PlainCrossOne(u, a', b', c, quotes, failing);
      t'.Keys == u'.Keys && (AgreeOn(t', u', c) <==> SameCross(t, a, b, a', b', c, quotes, failing))
  {
    if UsableQuote(quotes, c) {
      var q := quotes[c];
      StoredFixpoints(a / q.sell);
      StoredFixpoints(a' / q.sell);
      StoredFixpoints(b / q.buy);
      StoredFixpoints(b' / q.buy);
      ThreeRowsSameIff(t, u,
        TruncateToCalcPrecision(a / q.sell, None), TruncateToCalcPrecision(b / q.buy, None),
        TruncateToCalcPrecision(a' / q.sell, None), TruncateToCalcPrecision(b' / q.buy, None),
        TruncateToCalcPrecision(q.sell, None), c, q, failing);
    }
  }

  /** One more currency: the tables differ from then on exactly if they did before, or on its rows. */
  lemma {:induction false} CrossNextSameIff(
      v: Table, w: Table, a: real, b: real, a': real, b': real, c: Currency, quotes: map<Currency, Quote>,
      failing: set<Pair>)
    requires c != BOB && c != USD && v.Keys == w.Keys && AgreeOn(v, w, c)
    ensures
      var t', u' := PlainCrossOne(v, a, b, c, quotes, failing), PlainCrossOne(w, a', b', c, quotes, failing);
      && t'.Keys == u'.Keys == v.Keys
      && (t' == u' <==> v == w && SameCross(v, a, b, a', b', c, quotes, failing))
      && (forall d | RowsOf(c) !! RowsOf(d) && AgreeOn(v, w, d) :: AgreeOn(t', u', d))
  {
    var t', u' := PlainCrossOne(v, a, b, c, quotes, failing), PlainCrossOne(w, a', b', c, quotes, failing);
    CrossOneSameIff(v, w, a, b, a', b', c, quotes, failing);
    CrossOneTouches(v, a, b, c, quotes, failing);
    CrossOneTouches(w, a', b', c, quotes, failing);
    if t' == u' {
      forall p | p in v
        ensures v[p] == w[p]
      {
        if p !in RowsOf(c) {
          assert v[p] == t'[p] && w[p] == u'[p];
        }
      }
      assert v == w;
    } else if v == w {
      var p :| p in v && t'[p] != u'[p];
      assert p in RowsOf(c);
    }
  }

  /** The first `n` currencies do. */
  ghost predicate SameFirst(
      t: Table, a: real, b: real, a': real, b': real, n: nat, quotes: map<Currency, Quote>, failing: set<Pair>)
    requires n <= |BRIDGE_CURRENCIES|
  {
    forall i | 0 <= i < n :: SameCross(t, a, b, a', b', BRIDGE_CURRENCIES[i], quotes, failing)
  }

  lemma RowsDisjoint(c: Currency, d: Currency)
    requires c != d && c != BOB && c != USD && d != BOB && d != USD
    ensures RowsOf(c) !! RowsOf(d)
  {
  }

  lemma BridgeApart(i: nat, n: nat)
    requires i < n < |BRIDGE_CURRENCIES|
    ensures RowsOf(BRIDGE_CURRENCIES[i]) !! RowsOf(BRIDGE_CURRENCIES[n])
  {
    RowsDisjoint(BRIDGE_CURRENCIES[i], BRIDGE_CURRENCIES[n]);
  }

  lemma BridgeForeign(n: nat)
    requires n < |BRIDGE_CURRENCIES|
    ensures BRIDGE_CURRENCIES[n] != BOB && BRIDGE_CURRENCIES[n] != USD
  {
  }

  lemma SameFirstNext(
      t: Table, v: Table, a: real, b: real, a': real, b': real, n: nat, quotes: map<Currency, Quote>,
      failing: set<Pair>)
    requires 0 < n <= |BRIDGE_CURRENCIES| && v.Keys == t.Keys
    ensures SameFirst(t, a, b, a', b', n, quotes, failing)
            <==> && SameFirst(t, a, b, a', b', n - 1, quotes, failing)
                 && SameCross(v, a, b, a', b', BRIDGE_CURRENCIES[n - 1], quotes, failing)
  {
    var c := BRIDGE_CURRENCIES[n - 1];
    assert SameCross(v, a, b, a', b', c, quotes, failing) <==> SameCross(t, a, b, a', b', c, quotes, failing);
  }

  /** The tables agree on the rows of every currency from the `n`-th on. */
  ghost predicate AgreeFrom(t: Table, u: Table, n: nat)
    requires t.Keys == u.Keys
  {
    forall i | n <= i < |BRIDGE_CURRENCIES| :: AgreeOn(t, u, BRIDGE_CURRENCIES[i])
  }

  lemma {:induction false} CrossNextAgrees(
      v: Table, w: Table, a: real, b: real, a': real, b': real, n: nat, quotes: map<Currency, Quote>, failing: set<Pair>)
    requires 0 < n <= |BRIDGE_CURRENCIES| && v.Keys == w.Keys && AgreeFrom(v, w, n - 1)
    ensures
      var c := BRIDGE_CURRENCIES[n - 1];
      var t', u' := PlainCrossOne(v, a, b, c, quotes, failing), PlainCrossOne(w, a', b', c, quotes, failing);
      && t'.Keys == u'.Keys == v.Keys && AgreeFrom(t', u', n)
      && (t' == u' <==> v == w && SameCross(v, a, b, a', b', c, quotes, failing))
  {
    var c := BRIDGE_CURRENCIES[n - 1];
    BridgeForeign(n - 1);
    assert AgreeOn(v, w, BRIDGE_CURRENCIES[n - 1]);
    CrossNextSameIff(v, w, a, b, a', b', c, quotes, failing);
    var t', u' := PlainCrossOne(v, a, b, c, quotes, failing), PlainCrossOne(w, a', b', c, quotes, failing);
    forall i | n <= i < |BRIDGE_CURRENCIES|
      ensures AgreeOn(t', u', BRIDGE_CURRENCIES[i])
    {
      BridgeApart(n - 1, i);
      assert AgreeOn(v, w, BRIDGE_CURRENCIES[i]);
    }
  }

  lemma {:induction false} CrossFirstSameIff(
      t: Table, a: real, b: real, a': real, b': real, n: nat, quotes: map<Currency, Quote>, failing: set<Pair>)
    requires n <= |BRIDGE_CURRENCIES|
    ensures
      var t', u' := PlainCrossFirst(t, a, b, n, quotes, failing), PlainCrossFirst(t, a', b', n, quotes, failing);
      && t'.Keys == u'.Keys == t.Keys && AgreeFrom(t', u', n)
      && (t' == u' <==> SameFirst(t, a, b, a', b', n, quotes, failing))
  {
    if n > 0 {
      CrossFirstSameIff(t, a, b, a', b', n - 1, quotes, failing);
      var v, w := PlainCrossFirst(t, a, b, n - 1, quotes, failing), PlainCrossFirst(t, a', b', n - 1, quotes, failing);
      CrossNextAgrees(v, w, a, b, a', b', n, quotes, failing);
      SameFirstNext(t, v, a, b, a', b', n, quotes, failing);
    }
  }

  lemma SameFirstByKeys(
      t: Table, u: Table, a: real, b: real, a': real, b': real, quotes: map<Currency, Quote>, failing: set<Pair>)
    requires t.Keys == u.Keys
    ensures SameFirst(t, a, b, a', b', |BRIDGE_CURRENCIES|, quotes, failing)
            <==> SameFirst(u, a, b, a', b', |BRIDGE_CURRENCIES|, quotes, failing)
  {
    forall i | 0 <= i < |BRIDGE_CURRENCIES|
      ensures SameCross(t, a, b, a', b', BRIDGE_CURRENCIES[i], quotes, failing)
              <==> SameCross(u, a, b, a', b', BRIDGE_CURRENCIES[i], quotes, failing)
    {
    }
  }

  /**
   * The optimised cycle stores what the plain one stores exactly when, for every quoted currency whose rows are
   * written, the averages as they came and the anchors as the column holds them truncate to the same cross rates.
   */
  lemma {:induction false} CycleRefinesPlainIff(
      table: Table, buyAverage: real, sellAverage: real, quotes: map<Currency, Quote>, failing: set<Pair>)
    requires FitsColumn(table)
    ensures
      var a, b := AnchorUsed(table, BOB_USD, buyAverage, failing), AnchorUsed(table, USD_BOB, sellAverage, failing);
      Cycle(table, buyAverage, sellAverage, quotes, failing).table
      == PlainCycle(table, buyAverage, sellAverage, quotes, failing)
      <==> (BOB_USD in table && USD_BOB in table ==>
              SameFirst(table, a, b, Stored(a), Stored(b), |BRIDGE_CURRENCIES|, quotes, failing))
  {
    CycleTable(table, buyAverage, sellAverage, quotes, failing);
    AnchorsStep(table, buyAverage, sellAverage, failing);
    var a, b := AnchorUsed(table, BOB_USD, buyAverage, failing), AnchorUsed(table, USD_BOB, sellAverage, failing);
    var t := AnchorTable(table, buyAverage, sellAverage, failing);
    if BOB_USD in table && USD_BOB in table {
      AnchorRates(table, buyAverage, sellAverage, failing);
      CrossFirstSameIff(t, a, b, Stored(a), Stored(b), |BRIDGE_CURRENCIES|, quotes, failing);
      SameFirstByKeys(table, t, a, b, Stored(a), Stored(b), quotes, failing);
    }
  }

  lemma {:induction false} UnquotedCross(
      s: State, bobUsd: real, usdBob: real, n: nat, quotes: map<Currency, Quote>, failing: set<Pair>)
    requires 1 <= n <= |BRIDGE_CURRENCIES| && quotes.Keys == {EUR}
    ensures CrossFirst(s, bobUsd, usdBob, n, quotes, failing) == CrossOne(s, bobUsd, usdBob, EUR, quotes, failing)
    ensures PlainCrossFirst(s.table, bobUsd, usdBob, n, quotes, failing)
            == PlainCrossOne(s.table, bobUsd, usdBob, EUR, quotes, failing)
  {
    if n > 1 {
      UnquotedCross(s, bobUsd, usdBob, n - 1, quotes, failing);
      assert BRIDGE_CURRENCIES[n - 1] != EUR;
    } else {
      assert CrossFirst(s, bobUsd, usdBob, 0, quotes, failing) == s;
      assert PlainCrossFirst(s.table, bobUsd, usdBob, 0, quotes, failing) == s.table;
    }
  }

  /** An average of three advertisements need not fit the column: with 20/3 the cycle stores another cross rate. */
  lemma {:induction false} UnroundedAnchorDiverges() returns (table: Table, quotes: map<Currency, Quote>)
    ensures FitsColumn(table)
    ensures
      var s := Cycle(table, 20.0 / 3.0, 6.0, quotes, {});
      s.table != PlainCycle(table, 20.0 / 3.0, 6.0, quotes, {}) && !Coherent(s)
  {
    var one := Row(1.0, 0.0, None, None);
    table := map[BOB_USD := one, USD_BOB := one, Pair(BOB, EUR) := one];
    quotes := map[EUR := Quote(1.0, 1.0)];
    StoredWhole(1_000_000);
    var s1 := Update(State(table, SnapshotOf(table), []), BOB_USD, 20.0 / 3.0, None, false);
    var s2 := Update(s1, USD_BOB, 6.0, None, false);
    DivergesFrom(table, s2, quotes);
  }

  lemma DivergesFrom(table: Table, s2: State, quotes: map<Currency, Quote>)
    requires quotes == map[EUR := Quote(1.0, 1.0)]
    requires table.Keys == {BOB_USD, USD_BOB, Pair(BOB, EUR)} && table[Pair(BOB, EUR)] == Row(1.0, 0.0, None, None)
    requires
      s2 == Update(Update(State(table, SnapshotOf(table), []), BOB_USD, 20.0 / 3.0, None, false),
                   USD_BOB, 6.0, None, false)
    requires s2.table == PlainUpdate(PlainUpdate(table, BOB_USD, 20.0 / 3.0, None, false), USD_BOB, 6.0, None, false)
    requires s2.snapshot.Keys == s2.table.Keys == table.Keys
    requires s2.snapshot[BOB_USD].base == 20.0 / 3.0 && s2.snapshot[USD_BOB].base == 6.0
    requires s2.table[BOB_USD].rate == 6.666667 && s2.table[USD_BOB].rate == 6.0
    requires s2.table[Pair(BOB, EUR)] == table[Pair(BOB, EUR)]
    requires s2.snapshot[Pair(BOB, EUR)] == EntryOf(Pair(BOB, EUR), table[Pair(BOB, EUR)])
    ensures
      var s := Cycle(table, 20.0 / 3.0, 6.0, quotes, {});
      s.table != PlainCycle(table, 20.0 / 3.0, 6.0, quotes, {}) && !Coherent(s)
  {
    var s := CrossOne(s2, 20.0 / 3.0, 6.0, EUR, quotes, {});
    var plain := PlainCrossOne(s2.table, 6.666667, 6.0, EUR, quotes, {});
    UnquotedCross(s2, 20.0 / 3.0, 6.0, |BRIDGE_CURRENCIES|, quotes, {});
    UnquotedCross(s2, 6.666667, 6.0, |BRIDGE_CURRENCIES|, quotes, {});
    assert s == Cycle(table, 20.0 / 3.0, 6.0, quotes, {});
    assert plain == PlainCycle(table, 20.0 / 3.0, 6.0, quotes, {});
    EurAfter(s2, 20.0 / 3.0, quotes);
    EurAfter(s2, 6.666667, quotes);
    assert s.table[Pair(BOB, EUR)] != plain[Pair(BOB, EUR)];
    assert SnapshotOf(s.table)[BOB_USD].base != s.snapshot[BOB_USD].base;
  }

  lemma EurStored(bobUsd: real)
    ensures bobUsd / Quote(1.0, 1.0).sell == bobUsd
    ensures Stored(TruncateToCalcPrecision(bobUsd, None)) == TruncateToCalcPrecision(bobUsd, None)
  {
    StoredFixpoints(bobUsd);
  }

  lemma EurPlain(t: Table, bobUsd: real, quotes: map<Currency, Quote>)
    requires quotes == map[EUR := Quote(1.0, 1.0)] && t.Keys == {BOB_USD, USD_BOB, Pair(BOB, EUR)}
    ensures
      var plain := PlainCrossOne(t, bobUsd, 6.0, EUR, quotes, {});
      Pair(BOB, EUR) in plain && plain[Pair(BOB, EUR)].rate == TruncateToCalcPrecision(bobUsd, None)
  {
    EurStored(bobUsd);
  }

  /** Where BOB_EUR ends when only BOB_EUR has a row and EUR is quoted at 1. */
  lemma EurAfter(s: State, bobUsd: real, quotes: map<Currency, Quote>)
    requires quotes == map[EUR := Quote(1.0, 1.0)]
    requires s.table.Keys == s.snapshot.Keys == {BOB_USD, USD_BOB, Pair(BOB, EUR)}
    requires s.table[Pair(BOB, EUR)] == Row(1.0, 0.0, None, None)
    requires s.snapshot[Pair(BOB, EUR)] == EntryOf(Pair(BOB, EUR), s.table[Pair(BOB, EUR)])
    ensures
      var s', plain := CrossOne(s, bobUsd, 6.0, EUR, quotes, {}), PlainCrossOne(s.table, bobUsd, 6.0, EUR, quotes, {});
      && Pair(BOB, EUR) in s'.table && Pair(BOB, EUR) in plain && BOB_USD in s'.snapshot && BOB_USD in s'.table
      && s'.table[Pair(BOB, EUR)].rate == plain[Pair(BOB, EUR)].rate
         == Stored(TruncateToCalcPrecision(bobUsd, None))
      && s'.snapshot[BOB_USD] == s.snapshot[BOB_USD] && s'.table[BOB_USD] == s.table[BOB_USD]
  {
    EurStored(bobUsd);
    EurPlain(s.table, bobUsd, quotes);
    var x := TruncateToCalcPrecision(bobUsd, None);
    var s1 := Update(s, Pair(BOB, EUR), x, Some(quotes[EUR]), false);
    assert s1.table.Keys == s1.snapshot.Keys == s.table.Keys;
    assert CrossOne(s, bobUsd, 6.0, EUR, quotes, {}) == s1;
  }
}
