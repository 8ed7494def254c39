/**
 * The ledger and the trigger that posts settled entries to the balances. Money is in cents; a posting the balance
 * constraints refuse undoes the statement that caused it.
 */
module Ledger {
  import opened Wrappers
  import opened Rounding
  import opened Text

  datatype Account = Account(user: string, currency: string)

  datatype Balance = Balance(amount: int, available: int, reserved: int)

  datatype Kind = Credit | Debit

  datatype EntryStatus = Pending | Settled | Failed | Reversed

  datatype Entry = Entry(wallet: string, kind: Kind, amount: int, currency: string, status: EntryStatus)

  datatype Wallet = Wallet(id: string, user: string, active: bool)

  datatype State = State(wallets: seq<Wallet>, balances: map<Account, Balance>, entries: seq<Entry>)

  function OwnerOf(wallets: seq<Wallet>, id: string): Option<string> {
    if wallets == [] then None
    else if wallets[0].id == id then Some(wallets[0].user)
    else OwnerOf(wallets[1..], id)
  }

  function Signed(e: Entry): int {
    if e.kind == Credit then e.amount else -e.amount
  }

  // ---- The balance trigger ----

  /** What an entry going from `before` (None when it is inserted) to `after` adds to the balance. */
  function Delta(before: Option<EntryStatus>, after: EntryStatus, signed: int): int {
    match before
    case None => if after == Settled then signed else 0
    case Some(was) =>
      if after == Settled && was != Settled then signed
      else if was == Settled && after != Settled then -signed
      else 0
  }

  /** A debit uses up the reserved money first. */
  function Posted(b: Balance, diff: int): Balance {
    if diff < 0 then
      Balance(b.amount + diff, b.available + Min(0, diff + b.reserved), Max(0, b.reserved + diff))
    else
      Balance(b.amount + diff, b.available + diff, b.reserved)
  }

  /** None when the balance constraints refuse the posting. */
  function Post(balances: map<Account, Balance>, account: Account, diff: int): Option<map<Account, Balance>> {
    if diff == 0 then Some(balances)
    else if account !in balances then Some(balances[account := Balance(diff, Max(diff, 0), 0)])
    else
      var b := Posted(balances[account], diff);
      if b.available < 0 || b.reserved < 0 then None else Some(balances[account := b])
  }

  /** An entry of a wallet nobody owns moves no balance. */
  function Trigger(s: State, e: Entry, diff: int): Option<map<Account, Balance>> {
    var owner := OwnerOf(s.wallets, e.wallet);
    if owner.None? then Some(s.balances) else Post(s.balances, Account(owner.value, e.currency), diff)
  }

  // ---- The service ----

  /** Currencies are recorded in upper case. */
  function Recorded(e: Entry): Entry {
    e.(currency := Upper(e.currency))
  }

  function Insert(s: State, e: Entry): Option<State> {
    var recorded := Recorded(e);
    var posted := Trigger(s, recorded, Delta(None, e.status, Signed(e)));
    if posted.None? then None else Some(s.(balances := posted.value, entries := s.entries + [recorded]))
  }

  /** Only a pending entry moves. */
  function Transition(s: State, id: nat, status: EntryStatus): Option<State> {
    if id >= |s.entries| || s.entries[id].status != Pending then Some(s)
    else
      var e := s.entries[id];
      var posted := Trigger(s, e, Delta(Some(Pending), status, Signed(e)));
      if posted.None? then None
      else Some(s.(balances := posted.value, entries := s.entries[id := e.(status := status)]))
  }

  function Adjustment(wallet: string, kind: Kind, amount: int, currency: string): Entry {
    Entry(wallet, kind, if amount < 0 then -amount else amount, currency, Settled)
  }

  // ---- What a posting does ----

  /** What an entry in this status contributes to its balance. */
  function Worth(status: EntryStatus, signed: int): int {
    if status == Settled then signed else 0
  }

  /** A change of status moves the balance by the difference in what the entry is worth. */
  lemma DeltaIs(was: EntryStatus, after: EntryStatus, signed: int)
    ensures Delta(None, after, signed) == Worth(after, signed)
    ensures Delta(Some(was), after, signed) == Worth(after, signed) - Worth(was, signed)
  {
  }

  /**
   * A credit becomes available; a debit takes what is reserved before what is available, and is refused exactly when
   * both together are not enough.
   */
  lemma PostIs(balances: map<Account, Balance>, account: Account, diff: int)
    requires account in balances && 0 <= balances[account].available && 0 <= balances[account].reserved
    ensures
      var b, posted := balances[account], Post(balances, account, diff);
      && (diff >= 0 ==> posted == Some(balances[account := Balance(b.amount + diff, b.available + diff, b.reserved)]))
      && (diff < 0 && -diff <= b.reserved ==>
            posted == Some(balances[account := Balance(b.amount + diff, b.available, b.reserved + diff)]))
      && (diff < 0 && b.reserved < -diff <= b.available + b.reserved ==>
            posted == Some(balances[account := Balance(b.amount + diff, b.available + b.reserved + diff, 0)]))
      && (posted.None? <==> diff < 0 && b.available + b.reserved < -diff)
  {
    if diff == 0 {
      assert balances[account := balances[account]] == balances;
    }
  }

  // ---- Recomputed sums ----

  predicate BelongsTo(wallets: seq<Wallet>, e: Entry, account: Account) {
    e.status == Settled && e.currency == account.currency && OwnerOf(wallets, e.wallet) == Some(account.user)
  }

  /** Settled credits less settled debits of an account. */
  function AccountTotal(wallets: seq<Wallet>, entries: seq<Entry>, account: Account): int {
    if entries == [] then 0
    else
      var n := |entries| - 1;
      AccountTotal(wallets, entries[..n], account) + if BelongsTo(wallets, entries[n], account) then Signed(entries[n]) else 0
  }

  function AmountOf(balances: map<Account, Balance>, account: Account): int {
    if account in balances then balances[account].amount else 0
  }

  ghost predicate Agrees(s: State) {
    forall account :: AmountOf(s.balances, account) == AccountTotal(s.wallets, s.entries, account)
  }

  lemma {:induction false} TotalOfUpdate(
      wallets: seq<Wallet>, entries: seq<Entry>, id: nat, status: EntryStatus, account: Account)
    requires id < |entries| && entries[id].status != Settled
    ensures
      var e := entries[id];
      var gain := if BelongsTo(wallets, e.(status := status), account) then Signed(e) else 0;
      AccountTotal(wallets, entries[id := e.(status := status)], account) == AccountTotal(wallets, entries, account) + gain
  {
    var n := |entries| - 1;
    var e := entries[id];
    var updated := entries[id := e.(status := status)];
    if id == n {
      assert updated[..n] == entries[..n];
    } else {
      TotalOfUpdate(wallets, entries[..n], id, status, account);
      assert updated[..n] == entries[..n][id := e.(status := status)];
    }
  }

  lemma InsertAgrees(s: State, e: Entry)
    requires Agrees(s) && Insert(s, e).Some?
    ensures Agrees(Insert(s, e).value)
  {
    var s' := Insert(s, e).value;
    forall account
      ensures AmountOf(s'.balances, account) == AccountTotal(s'.wallets, s'.entries, account)
    {
      assert s'.entries[..|s.entries|] == s.entries;
      assert AmountOf(s.balances, account) == AccountTotal(s.wallets, s.entries, account);
    }
  }

  lemma TransitionAgrees(s: State, id: nat, status: EntryStatus)
    requires Agrees(s) && Transition(s, id, status).Some?
    ensures Agrees(Transition(s, id, status).value)
  {
    var s' := Transition(s, id, status).value;
    if id < |s.entries| && s.entries[id].status == Pending {
      var e := s.entries[id];
      forall account
        ensures AmountOf(s'.balances, account) == AccountTotal(s'.wallets, s'.entries, account)
      {
        assert AmountOf(s.balances, account) == AccountTotal(s.wallets, s.entries, account);
        TotalOfUpdate(s.wallets, s.entries, id, status, account);
      }
    }
  }

  // ---- Available and reserved money ----

  /** The balance is what is available plus what is reserved. */
  predicate Splits(b: Balance) {
    b.amount == b.available + b.reserved && b.available >= 0 && b.reserved >= 0
  }

  ghost predicate AllSplit(balances: map<Account, Balance>) {
    forall account | account in balances :: Splits(balances[account])
  }

  /** A posting keeps the split exactly when it is not the first one of the account or is not a debit. */
  lemma PostKeepsSplitIff(balances: map<Account, Balance>, account: Account, diff: int)
    requires AllSplit(balances) && Post(balances, account, diff).Some?
    ensures AllSplit(Post(balances, account, diff).value) <==> account in balances || diff >= 0
  {
    var after := Post(balances, account, diff).value;
    if account !in balances && diff < 0 {
      assert account in after && !Splits(after[account]);
    }
  }

  /** A debit as the first entry of an account, then a credit: more is available than the account holds. */
  lemma FirstDebitOverstatesAvailable(wallet: Wallet, currency: string)
    ensures
      var s := State([wallet], map[], []);
      var account := Account(wallet.user, Upper(currency));
      && Insert(s, Entry(wallet.id, Debit, 3000, currency, Settled)).Some?
      && var s1 := Insert(s, Entry(wallet.id, Debit, 3000, currency, Settled)).value;
         && Insert(s1, Entry(wallet.id, Credit, 5000, currency, Settled)).Some?
         && Insert(s1, Entry(wallet.id, Credit, 5000, currency, Settled)).value.balances
         == map[account := Balance(2000, 5000, 0)]
  {
    var account := Account(wallet.user, Upper(currency));
    assert OwnerOf([wallet], wallet.id) == Some(wallet.user);
    var s1 := Insert(State([wallet], map[], []), Entry(wallet.id, Debit, 3000, currency, Settled)).value;
    assert s1.balances == map[account := Balance(-3000, 0, 0)];
  }

  // ---- Runs ----

  datatype Op = CreateOp(entry: Entry) | SettleOp(id: nat, status: EntryStatus)

  function Step(s: State, op: Op): State {
    var r := match op case CreateOp(e) => Insert(s, e) case SettleOp(id, status) => Transition(s, id, status);
    if r.None? then s else r.value
  }

  function Run(s: State, ops: seq<Op>): State {
    if ops == [] then s else Step(Run(s, ops[..|ops| - 1]), ops[|ops| - 1])
  }

  /** In every reachable state each balance is the sum of the account's settled entries. */
  lemma {:induction false} RunAgrees(s: State, ops: seq<Op>)
    requires Agrees(s)
    ensures Agrees(Run(s, ops)) && Run(s, ops).wallets == s.wallets
  {
    if ops != [] {
      var n := |ops| - 1;
      RunAgrees(s, ops[..n]);
      var mid := Run(s, ops[..n]);
      match ops[n]
      case CreateOp(e) => if Insert(mid, e).Some? { InsertAgrees(mid, e); }
      case SettleOp(id, status) => if Transition(mid, id, status).Some? { TransitionAgrees(mid, id, status); }
    }
  }

  class LedgerService {
    var wallets: seq<Wallet>
    var balances: map<Account, Balance>
    var entries: seq<Entry>

    constructor (wallets: seq<Wallet>)
      ensures View() == State(wallets, map[], []) && Agrees(View())
    {
      this.wallets := wallets;
      balances, entries := map[], [];
    }

    function View(): State
      reads this
    {
      State(wallets, balances, entries)
    }

    /** The database runs the trigger with the insertion. */
    method CreateEntry(e: Entry) returns (id: Option<nat>)
      modifies this`balances, this`entries
      ensures id.Some? <==> Insert(old(View()), e).Some?
      ensures View() == if id.Some? then Insert(old(View()), e).value else old(View())
      ensures id.Some? ==> id.value == old(|entries|)
    {
      var recorded := Entry(e.wallet, e.kind, e.amount, Upper(e.currency), e.status);
      var posted := Trigger(View(), recorded, Delta(None, e.status, Signed(e)));
      if posted.None? {
        return None;
      }
      balances := posted.value;
      entries := entries + [recorded];
      return Some(|entries| - 1);
    }

    method SettleEntry(id: nat, status: EntryStatus) returns (ok: bool)
      modifies this`balances, this`entries
      ensures ok <==> Transition(old(View()), id, status).Some?
      ensures View() == if ok then Transition(old(View()), id, status).value else old(View())
    {
      if id < |entries| && entries[id].status == Pending {
        var posted := Trigger(View(), entries[id], Delta(Some(Pending), status, Signed(entries[id])));
        if posted.None? {
          return false;
        }
        balances := posted.value;
        entries := entries[id := entries[id].(status := status)];
      }
      return true;
    }

    method CreateAdjustment(wallet: string, kind: Kind, amount: int, currency: string) returns (id: Option<nat>)
      modifies this`balances, this`entries
      ensures id.Some? <==> Insert(old(View()), Adjustment(wallet, kind, amount, currency)).Some?
      ensures View() == if id.Some? then Insert(old(View()), Adjustment(wallet, kind, amount, currency)).value
                    else old(View())
    {
      id := CreateEntry(Entry(wallet, kind, if amount < 0 then -amount else amount, currency, Settled));
    }
  }
}
