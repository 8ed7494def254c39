/** The reconciliation of balances against the ledger, wallet by wallet. Amounts are cents, the tolerance is one cent. */
module Reconciliation {
  import opened Wrappers
  import opened Ledger
  import opened Sequences

  datatype BalanceRow = BalanceRow(account: Account, amount: int)

  datatype Discrepancy = Discrepancy(
    user: string, wallet: string, currency: string, ledgerTotal: int, balanceTotal: int, difference: int)

  function SumOf(entries: seq<Entry>, wallet: string, currency: string, kind: Kind): int {
    if entries == [] then 0
    else
      var n := |entries| - 1;
      var e := entries[n];
      SumOf(entries[..n], wallet, currency, kind)
      + if e.wallet == wallet && e.currency == currency && e.kind == kind && e.status == Settled then e.amount else 0
  }

  function WalletTotal(entries: seq<Entry>, wallet: string, currency: string): int {
    SumOf(entries, wallet, currency, Credit) - SumOf(entries, wallet, currency, Debit)
  }

  predicate Apart(a: int, b: int) {
    a - b > 1 || b - a > 1
  }

  function Report(entries: seq<Entry>, w: Wallet, row: BalanceRow): Discrepancy {
    var total := WalletTotal(entries, w.id, row.account.currency);
    Discrepancy(w.user, w.id, row.account.currency, total, row.amount, total - row.amount)
  }

  /** A wallet is compared with every balance of its user. */
  predicate Differs(entries: seq<Entry>, w: Wallet, row: BalanceRow) {
    w.active && row.account.user == w.user && Apart(WalletTotal(entries, w.id, row.account.currency), row.amount)
  }

  function ActiveOf(wallets: seq<Wallet>): seq<Wallet> {
    Filter(wallets, IsActive())
  }

  function IsActive(): Wallet -> bool {
    (w: Wallet) => w.active
  }

  function IsOf(user: string): BalanceRow -> bool {
    (r: BalanceRow) => r.account.user == user
  }

  function RowsOf(rows: seq<BalanceRow>, user: string): seq<BalanceRow> {
    Filter(rows, IsOf(user))
  }

  /** Every pair of this wallet and one of these balances that differs is reported. */
  ghost predicate ReportsAll(discrepancies: seq<Discrepancy>, entries: seq<Entry>, w: Wallet, rows: seq<BalanceRow>) {
    forall row | row in rows && Differs(entries, w, row) :: Report(entries, w, row) in discrepancies
  }

  ghost predicate IsReport(d: Discrepancy, entries: seq<Entry>, wallets: seq<Wallet>, rows: seq<BalanceRow>) {
    exists w, row :: w in wallets && row in rows && Differs(entries, w, row) && d == Report(entries, w, row)
  }

  lemma ReportsMore(
      a: seq<Discrepancy>, b: seq<Discrepancy>, entries: seq<Entry>, visited: seq<Wallet>, i: nat, rows: seq<BalanceRow>)
    requires i <= |visited| && forall k | 0 <= k < i :: ReportsAll(a, entries, visited[k], rows)
    requires forall d | d in a :: d in b
    ensures forall k | 0 <= k < i :: ReportsAll(b, entries, visited[k], rows)
  {
    forall k | 0 <= k < i
      ensures ReportsAll(b, entries, visited[k], rows)
    {
      assert ReportsAll(a, entries, visited[k], rows);
    }
  }

  /** Reports exactly the pairs of an active wallet and a balance of its user that are more than a cent apart. */
  method RunReconciliation(wallets: seq<Wallet>, rows: seq<BalanceRow>, entries: seq<Entry>)
    returns (discrepancies: seq<Discrepancy>, usersChecked: nat)
    ensures forall w | w in wallets :: ReportsAll(discrepancies, entries, w, rows)
    ensures forall d | d in discrepancies :: IsReport(d, entries, wallets, rows)
    ensures usersChecked == |ActiveOf(wallets)|
  {
    discrepancies, usersChecked := [], 0;
    var visited := ActiveOf(wallets);
    FilterIs(wallets, IsActive());
    for i := 0 to |visited|
      invariant usersChecked == i
      invariant forall k | 0 <= k < i :: ReportsAll(discrepancies, entries, visited[k], rows)
      invariant forall d | d in discrepancies :: IsReport(d, entries, wallets, rows)
    {
      var w := visited[i];
      assert w in visited;
      var userRows := RowsOf(rows, w.user);
      FilterIs(rows, IsOf(w.user));
      ghost var before := discrepancies;
      for j := 0 to |userRows|
        invariant forall d | d in before :: d in discrepancies
        invariant forall k | 0 <= k < j && Differs(entries, w, userRows[k]) ::
                    Report(entries, w, userRows[k]) in discrepancies
        invariant forall d | d in discrepancies :: IsReport(d, entries, wallets, rows)
      {
        var row := userRows[j];
        assert row in userRows;
        var ledgerTotal := WalletTotal(entries, w.id, row.account.currency);
        if ledgerTotal - row.amount > 1 || row.amount - ledgerTotal > 1 {
          assert Differs(entries, w, row);
          discrepancies := discrepancies
            + [Discrepancy(w.user, w.id, row.account.currency, ledgerTotal, row.amount, ledgerTotal - row.amount)];
        }
      }
      ReportsMore(before, discrepancies, entries, visited, i, rows);
      forall row | row in rows && Differs(entries, w, row)
        ensures Report(entries, w, row) in discrepancies
      {
        assert row in userRows;
      }
      usersChecked := usersChecked + 1;
    }
    forall w | w in wallets
      ensures ReportsAll(discrepancies, entries, w, rows)
    {
      if w.active {
        assert w in visited;
      }
    }
  }

  // ---- Against the ledger the balances come from ----

  ghost predicate DistinctWallets(wallets: seq<Wallet>) {
    forall i, j | 0 <= i < j < |wallets| :: wallets[i].id != wallets[j].id
  }

  /** `rows` is a reading of the balances table. */
  ghost predicate Tabulates(rows: seq<BalanceRow>, balances: map<Account, Balance>) {
    forall account, amount ::
      BalanceRow(account, amount) in rows <==> account in balances && balances[account].amount == amount
  }

  /** Settled entries of the user's other wallets. */
  function OthersTotal(wallets: seq<Wallet>, entries: seq<Entry>, w: Wallet, currency: string): int {
    if entries == [] then 0
    else
      var n := |entries| - 1;
      var e := entries[n];
      OthersTotal(wallets, entries[..n], w, currency)
      + if BelongsTo(wallets, e, Account(w.user, currency)) && e.wallet != w.id then Signed(e) else 0
  }

  lemma {:induction false} OwnerIs(wallets: seq<Wallet>, w: Wallet)
    requires DistinctWallets(wallets) && w in wallets
    ensures OwnerOf(wallets, w.id) == Some(w.user)
  {
    if wallets[0] != w {
      assert w in wallets[1..];
      OwnerIs(wallets[1..], w);
    }
  }

  lemma {:induction false} TotalSplits(wallets: seq<Wallet>, entries: seq<Entry>, w: Wallet, currency: string)
    requires OwnerOf(wallets, w.id) == Some(w.user)
    ensures AccountTotal(wallets, entries, Account(w.user, currency))
         == WalletTotal(entries, w.id, currency) + OthersTotal(wallets, entries, w, currency)
  {
    if entries != [] {
      TotalSplits(wallets, entries[..|entries| - 1], w, currency);
    }
  }

  /**
   * After any run of the ledger, a wallet and a balance of its user are reported exactly when the settled entries of
   * the user's other wallets in that currency amount to more than a cent.
   */
  lemma ReportedIff(wallets: seq<Wallet>, ops: seq<Op>, rows: seq<BalanceRow>, w: Wallet, row: BalanceRow)
    requires DistinctWallets(wallets) && w in wallets && w.active
    requires Tabulates(rows, Run(State(wallets, map[], []), ops).balances) && row in rows && row.account.user == w.user
    ensures
      var entries := Run(State(wallets, map[], []), ops).entries;
      Differs(entries, w, row) <==> Apart(OthersTotal(wallets, entries, w, row.account.currency), 0)
  {
    var s := Run(State(wallets, map[], []), ops);
    RunAgrees(State(wallets, map[], []), ops);
    assert BalanceRow(row.account, row.amount) in rows;
    assert AmountOf(s.balances, row.account) == AccountTotal(s.wallets, s.entries, row.account);
    OwnerIs(wallets, w);
    TotalSplits(wallets, s.entries, w, row.account.currency);
  }

  lemma {:induction false} OwnerFound(wallets: seq<Wallet>, id: string)
    requires OwnerOf(wallets, id).Some?
    ensures exists w :: w in wallets && w.id == id && OwnerOf(wallets, id) == Some(w.user)
  {
    if wallets[0].id == id {
      assert wallets[0] in wallets;
    } else {
      OwnerFound(wallets[1..], id);
      var w :| w in wallets[1..] && w.id == id && OwnerOf(wallets[1..], id) == Some(w.user);
      assert w in wallets;
    }
  }

  lemma {:induction false} NoOthers(wallets: seq<Wallet>, entries: seq<Entry>, w: Wallet, currency: string)
    requires forall v | v in wallets && v.user == w.user :: v == w
    ensures OthersTotal(wallets, entries, w, currency) == 0
  {
    if entries != [] {
      var n := |entries| - 1;
      NoOthers(wallets, entries[..n], w, currency);
      if OwnerOf(wallets, entries[n].wallet) == Some(w.user) {
        OwnerFound(wallets, entries[n].wallet);
      }
    }
  }

  /** With one wallet per user no balance a run of the ledger can reach is reported. */
  lemma OneWalletPerUserIsClean(wallets: seq<Wallet>, ops: seq<Op>, rows: seq<BalanceRow>, w: Wallet, row: BalanceRow)
    requires DistinctWallets(wallets) && w in wallets
    requires forall u, v | u in wallets && v in wallets && u.user == v.user :: u == v
    requires Tabulates(rows, Run(State(wallets, map[], []), ops).balances) && row in rows
    ensures !Differs(Run(State(wallets, map[], []), ops).entries, w, row)
  {
    var entries := Run(State(wallets, map[], []), ops).entries;
    if w.active && row.account.user == w.user {
      ReportedIff(wallets, ops, rows, w, row);
      NoOthers(wallets, entries, w, row.account.currency);
    }
  }
}
