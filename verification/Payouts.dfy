/** Payout requests and the money reserved for them, on top of the ledger. Money is in cents. */
module Payouts {
  import opened Wrappers
  import opened Rounding
  import opened Text
  import opened Ledger

  datatype Status = Waiting | Processing | Completed | PayoutFailed | Rejected

  /**
   * `currency` is stored in upper case. `sent` when a transfer row records that money was sent for it, and `debit` is
   * the ledger entry that is found under the id of that row.
   */
  datatype Payout = Payout(
    user: string, wallet: string, currency: string, amount: nat, fee: nat, status: Status, sent: bool, debit: Option<nat>)

  datatype Books = Books(ledger: Ledger.State, payouts: seq<Payout>)

  function Total(p: Payout): nat {
    p.amount + p.fee
  }

  function AccountOf(p: Payout): Account {
    Account(p.user, p.currency)
  }

  predicate IsOpen(p: Payout) {
    p.status == Waiting || p.status == Processing
  }

  // ---- Reserving and releasing ----

  function Reserve(balances: map<Account, Balance>, account: Account, total: nat): map<Account, Balance> {
    if account !in balances then balances
    else
      var b := balances[account];
      balances[account := Balance(b.amount, b.available - total, b.reserved + total)]
  }

  function ReleaseByRpc(b: Balance, total: nat): Balance {
    Balance(b.amount, b.available + total, b.reserved - total)
  }

  function ReleaseByHand(b: Balance, total: nat): Balance {
    Balance(b.amount, b.available + total, Max(0, b.reserved - total))
  }

  /** The database refuses a negative reservation, and then the release is done by hand. */
  function Release(balances: map<Account, Balance>, account: Account, total: nat, rpcFails: bool): map<Account, Balance> {
    if account !in balances then balances
    else if rpcFails || balances[account].reserved < total then
      balances[account := ReleaseByHand(balances[account], total)]
    else balances[account := ReleaseByRpc(balances[account], total)]
  }

  function Released(s: Books, user: string, currency: string, total: nat, rpcFails: bool): Books {
    s.(ledger := s.ledger.(balances := Release(s.ledger.balances, Account(user, Upper(currency)), total, rpcFails)))
  }

  // ---- The service calls ----

  /**
   * LedgerFails: the transfer went out but its entry could not be written, and the call breaks off there. `saved` when
   * the transfer row was written, whose error is not looked at; `findable` when the entry carries the id of that row,
   * under which the confirmation looks for it. As the service is written it carries Bridge's id, so it never does.
   */
  datatype Execution = BridgeFails | LedgerFails(saved: bool) | Submitted(saved: bool, findable: bool)

  function WithPayout(s: Books, id: nat, p: Payout): Books
    requires id < |s.payouts|
  {
    s.(payouts := s.payouts[id := p])
  }

  function WithStatus(s: Books, id: nat, status: Status): Books
    requires id < |s.payouts|
  {
    WithPayout(s, id, s.payouts[id].(status := status))
  }

  function PendingDebit(p: Payout): Entry {
    Entry(p.wallet, Debit, Total(p), Upper(p.currency), Pending)
  }

  function Submission(p: Payout, entry: nat, saved: bool, findable: bool): Payout {
    p.(status := Processing, sent := p.sent || saved, debit := if findable then Some(entry) else None)
  }

  function Execute(s: Books, id: nat, execution: Execution, rpcFails: bool): Books
    requires id < |s.payouts|
  {
    var p := s.payouts[id];
    match execution
    case BridgeFails => WithStatus(Released(s, p.user, p.currency, Total(p), rpcFails), id, PayoutFailed)
    case LedgerFails(saved) => WithPayout(s, id, p.(sent := p.sent || saved))
    case Submitted(saved, findable) =>
      WithPayout(s.(ledger := s.ledger.(entries := s.ledger.entries + [PendingDebit(p)])), id,
                 Submission(p, |s.ledger.entries|, saved, findable))
  }

  /**
   * `limitsOk` stands for the profile and limit checks, `reserveOk` for the reservation, whose error is not looked
   * at, `review` for an amount at or above the review threshold.
   */
  datatype Circumstances = Circumstances(
    limitsOk: bool, reserveOk: bool, insertFails: bool, review: bool, execution: Execution, rpcFails: bool)

  datatype Request = Request(user: string, wallet: string, currency: string, amount: nat, fee: nat)

  function AvailableOf(balances: map<Account, Balance>, account: Account): int {
    if account in balances then balances[account].available else 0
  }

  predicate Accepted(s: Books, r: Request, c: Circumstances) {
    r.amount + r.fee <= AvailableOf(s.ledger.balances, Account(r.user, Upper(r.currency))) && c.limitsOk
  }

  function Reserved(s: Books, r: Request, reserveOk: bool): Books {
    if reserveOk then
      s.(ledger := s.ledger.(balances :=
           Reserve(s.ledger.balances, Account(r.user, Upper(r.currency)), r.amount + r.fee)))
    else s
  }

  function NewPayout(r: Request): Payout {
    Payout(r.user, r.wallet, Upper(r.currency), r.amount, r.fee, Waiting, false, None)
  }

  function Create(s: Books, r: Request, c: Circumstances): Books {
    if !Accepted(s, r, c) then s
    else
      var reserved := Reserved(s, r, c.reserveOk);
      if c.insertFails then Released(reserved, r.user, r.currency, r.amount + r.fee, c.rpcFails)
      else
        var requested := reserved.(payouts := s.payouts + [NewPayout(r)]);
        if c.review then requested else Execute(requested, |s.payouts|, c.execution, c.rpcFails)
  }

  predicate IsWaiting(s: Books, id: nat) {
    id < |s.payouts| && s.payouts[id].status == Waiting
  }

  function Approve(s: Books, id: nat, execution: Execution, rpcFails: bool): Books {
    if IsWaiting(s, id) then Execute(s, id, execution, rpcFails) else s
  }

  function Reject(s: Books, id: nat, rpcFails: bool): Books {
    if IsWaiting(s, id) then
      var p := s.payouts[id];
      WithStatus(Released(s, p.user, p.currency, Total(p), rpcFails), id, Rejected)
    else s
  }

  // ---- What Bridge reports about a transfer ----

  /** A completed transfer settles its pending entry; when the balances refuse that, the payout is completed already. */
  function Complete(s: Books, id: nat): Books {
    if id >= |s.payouts| || !s.payouts[id].sent then s
    else
      var done := WithStatus(s, id, Completed);
      if s.payouts[id].debit.None? then done
      else
        var settled := Transition(s.ledger, s.payouts[id].debit.value, Settled);
        if settled.None? then done else done.(ledger := settled.value)
  }

  /** Here the database function alone releases, and its error is not looked at. */
  function ReleaseOrIgnore(balances: map<Account, Balance>, account: Account, total: nat, rpcFails: bool)
    : map<Account, Balance>
  {
    if rpcFails || account !in balances || balances[account].reserved < total then balances
    else balances[account := ReleaseByRpc(balances[account], total)]
  }

  /** Only a pending entry is updated. */
  function FinishEntry(entries: seq<Entry>, k: Option<nat>, status: EntryStatus): seq<Entry> {
    if k.Some? && k.value < |entries| && entries[k.value].status == Pending
    then entries[k.value := entries[k.value].(status := status)] else entries
  }

  /** A failed transfer; one that was completed stays so. */
  function Fail(s: Books, id: nat, rpcFails: bool): Books {
    if id >= |s.payouts| || !s.payouts[id].sent || s.payouts[id].status == Completed then s
    else
      var p := s.payouts[id];
      WithStatus(s.(ledger := s.ledger.(
                   balances := ReleaseOrIgnore(s.ledger.balances, Account(p.user, Upper(p.currency)), Total(p), rpcFails),
                   entries := FinishEntry(s.ledger.entries, p.debit, Failed))),
                 id, PayoutFailed)
  }

  // ---- The invariant ----

  /** What a payout holds of an account. */
  function Held(p: Payout, account: Account): nat {
    if IsOpen(p) && AccountOf(p) == account then Total(p) else 0
  }

  /** What the open payouts of an account hold. */
  function OpenTotal(payouts: seq<Payout>, account: Account): nat {
    if payouts == [] then 0
    else
      var n := |payouts| - 1;
      OpenTotal(payouts[..n], account) + Held(payouts[n], account)
  }

  function ReservedOf(balances: map<Account, Balance>, account: Account): int {
    if account in balances then balances[account].reserved else 0
  }

  /** What is reserved is what the open payouts hold. */
  ghost predicate Covered(s: Books) {
    forall account :: ReservedOf(s.ledger.balances, account) == OpenTotal(s.payouts, account)
  }

  ghost predicate Normalized(payouts: seq<Payout>) {
    forall p | p in payouts :: Upper(p.currency) == p.currency && 0 < p.amount
  }

  /** The entry found for a payout is its debit, pending for as long as the transfer is. */
  predicate LinkedAt(payouts: seq<Payout>, entries: seq<Entry>, id: nat)
    requires id < |payouts|
  {
    var p := payouts[id];
    && (p.status == Waiting ==> p.debit.None?)
    && (p.debit.Some? ==>
          && p.debit.value < |entries|
          && entries[p.debit.value] == PendingDebit(p).(status := entries[p.debit.value].status)
          && (p.status == Processing <==> entries[p.debit.value].status == Pending))
  }

  ghost predicate Linked(payouts: seq<Payout>, entries: seq<Entry>) {
    && (forall id | 0 <= id < |payouts| :: LinkedAt(payouts, entries, id))
    && (forall i, j | 0 <= i < j < |payouts| && payouts[i].debit.Some? :: payouts[i].debit != payouts[j].debit)
  }

  ghost predicate Inv(s: Books) {
    && Covered(s) && AllSplit(s.ledger.balances) && Agrees(s.ledger) && Normalized(s.payouts)
    && Linked(s.payouts, s.ledger.entries)
  }

  /** No money appears or disappears: only the division between available and reserved may change. */
  ghost predicate Conserves(a: map<Account, Balance>, b: map<Account, Balance>) {
    && b.Keys == a.Keys
    && forall account | account in a ::
         b[account].amount == a[account].amount
         && b[account].available + b[account].reserved == a[account].available + a[account].reserved
  }

  /** `q` is about the same money as `p`. */
  predicate SameMoney(p: Payout, q: Payout) {
    q.user == p.user && q.wallet == p.wallet && q.currency == p.currency && q.amount == p.amount && q.fee == p.fee
  }

  lemma {:induction false} OpenTotalOfUpdate(payouts: seq<Payout>, id: nat, q: Payout, account: Account)
    requires id < |payouts| && SameMoney(payouts[id], q)
    ensures OpenTotal(payouts[id := q], account)
            == OpenTotal(payouts, account) - Held(payouts[id], account) + Held(q, account)
  {
    var n := |payouts| - 1;
    var updated := payouts[id := q];
    if id == n {
      assert updated[..n] == payouts[..n];
    } else {
      OpenTotalOfUpdate(payouts[..n], id, q, account);
      assert updated[..n] == payouts[..n][id := q];
    }
  }

  lemma {:induction false} OpenTotalCovers(payouts: seq<Payout>, id: nat)
    requires id < |payouts| && IsOpen(payouts[id])
    ensures Total(payouts[id]) <= OpenTotal(payouts, AccountOf(payouts[id]))
  {
    if id < |payouts| - 1 {
      OpenTotalCovers(payouts[..|payouts| - 1], id);
    }
  }

  lemma AmountsDecideAgreement(a: Ledger.State, b: Ledger.State)
    requires Agrees(a) && b.wallets == a.wallets && b.entries == a.entries && Conserves(a.balances, b.balances)
    ensures Agrees(b)
  {
    forall account
      ensures AmountOf(b.balances, account) == AccountTotal(b.wallets, b.entries, account)
    {
      assert AmountOf(a.balances, account) == AccountTotal(a.wallets, a.entries, account);
    }
  }

  lemma PendingDebitAgrees(l: Ledger.State, p: Payout)
    requires Agrees(l)
    ensures Insert(l, PendingDebit(p)) == Some(l.(entries := l.entries + [PendingDebit(p)]))
    ensures Agrees(l.(entries := l.entries + [PendingDebit(p)]))
  {
    UpperTwice(p.currency);
    InsertAgrees(l, PendingDebit(p));
  }

  /** Both ways of releasing an open payout's money agree, and the manual one never clamps. */
  lemma ReleaseOfOpenPayout(s: Books, id: nat, rpcFails: bool)
    requires Inv(s) && id < |s.payouts| && IsOpen(s.payouts[id]) && 0 < Total(s.payouts[id])
    ensures
      var p := s.payouts[id];
      var balances := s.ledger.balances;
      && AccountOf(p) in balances && Total(p) <= balances[AccountOf(p)].reserved
      && Released(s, p.user, p.currency, Total(p), rpcFails)
         == s.(ledger := s.ledger.(balances := balances[AccountOf(p) := ReleaseByRpc(balances[AccountOf(p)], Total(p))]))
  {
    var p := s.payouts[id];
    OpenTotalCovers(s.payouts, id);
    assert ReservedOf(s.ledger.balances, AccountOf(p)) == OpenTotal(s.payouts, AccountOf(p));
    assert p in s.payouts;
  }

  /** Changing a payout without an entry leaves the links of the others. */
  lemma UnlinkedUpdate(payouts: seq<Payout>, entries: seq<Entry>, id: nat, q: Payout)
    requires Linked(payouts, entries) && id < |payouts| && q.debit.None?
    ensures Linked(payouts[id := q], entries)
  {
    var payouts' := payouts[id := q];
    forall i | 0 <= i < |payouts'|
      ensures LinkedAt(payouts', entries, i)
    {
      assert LinkedAt(payouts, entries, i);
    }
  }

  lemma SubmissionLinked(payouts: seq<Payout>, entries: seq<Entry>, id: nat, saved: bool, findable: bool)
    requires Linked(payouts, entries) && id < |payouts| && payouts[id].status == Waiting
    ensures Linked(payouts[id := Submission(payouts[id], |entries|, saved, findable)], entries + [PendingDebit(payouts[id])])
  {
    var payouts' := payouts[id := Submission(payouts[id], |entries|, saved, findable)];
    var entries' := entries + [PendingDebit(payouts[id])];
    forall i | 0 <= i < |payouts'|
      ensures LinkedAt(payouts', entries', i)
    {
      assert LinkedAt(payouts, entries, i);
    }
    forall i, j | 0 <= i < j < |payouts'| && payouts'[i].debit.Some?
      ensures payouts'[i].debit != payouts'[j].debit
    {
      assert LinkedAt(payouts, entries, i) && LinkedAt(payouts, entries, j);
    }
  }

  /** Closing a waiting payout and releasing its money keeps everything balanced. */
  lemma CloseKeepsInv(s: Books, id: nat, status: Status, rpcFails: bool)
    requires Inv(s) && IsWaiting(s, id)
    requires status == PayoutFailed || status == Rejected
    ensures
      var p := s.payouts[id];
      var s' := WithStatus(Released(s, p.user, p.currency, Total(p), rpcFails), id, status);
      Inv(s') && Conserves(s.ledger.balances, s'.ledger.balances)
  {
    var p := s.payouts[id];
    assert p in s.payouts;
    var s' := WithStatus(Released(s, p.user, p.currency, Total(p), rpcFails), id, status);
    ReleaseOfOpenPayout(s, id, rpcFails);
    forall account
      ensures ReservedOf(s'.ledger.balances, account) == OpenTotal(s'.payouts, account)
    {
      assert ReservedOf(s.ledger.balances, account) == OpenTotal(s.payouts, account);
      OpenTotalOfUpdate(s.payouts, id, s'.payouts[id], account);
    }
    AmountsDecideAgreement(s.ledger, s'.ledger);
    assert LinkedAt(s.payouts, s.ledger.entries, id);
    UnlinkedUpdate(s.payouts, s.ledger.entries, id, s'.payouts[id]);
  }

  lemma SubmitKeepsInv(s: Books, id: nat, saved: bool, findable: bool)
    requires Inv(s) && IsWaiting(s, id)
    ensures
      var s' := Execute(s, id, Submitted(saved, findable), false);
      Inv(s') && s'.ledger.balances == s.ledger.balances
  {
    var p := s.payouts[id];
    assert p in s.payouts;
    var s' := Execute(s, id, Submitted(saved, findable), false);
    forall account
      ensures ReservedOf(s'.ledger.balances, account) == OpenTotal(s'.payouts, account)
    {
      assert ReservedOf(s.ledger.balances, account) == OpenTotal(s.payouts, account);
      OpenTotalOfUpdate(s.payouts, id, s'.payouts[id], account);
    }
    PendingDebitAgrees(s.ledger, p);
    SubmissionLinked(s.payouts, s.ledger.entries, id, saved, findable);
  }

  lemma BreakOffKeepsInv(s: Books, id: nat, saved: bool)
    requires Inv(s) && IsWaiting(s, id)
    ensures
      var s' := Execute(s, id, LedgerFails(saved), false);
      Inv(s') && s'.ledger.balances == s.ledger.balances
  {
    var s' := Execute(s, id, LedgerFails(saved), false);
    forall account
      ensures ReservedOf(s'.ledger.balances, account) == OpenTotal(s'.payouts, account)
    {
      assert ReservedOf(s.ledger.balances, account) == OpenTotal(s.payouts, account);
      OpenTotalOfUpdate(s.payouts, id, s'.payouts[id], account);
    }
    assert LinkedAt(s.payouts, s.ledger.entries, id);
    UnlinkedUpdate(s.payouts, s.ledger.entries, id, s'.payouts[id]);
  }

  lemma ExecuteKeepsInv(s: Books, id: nat, execution: Execution, rpcFails: bool)
    requires Inv(s) && IsWaiting(s, id)
    ensures
      var s' := Execute(s, id, execution, rpcFails);
      Inv(s') && Conserves(s.ledger.balances, s'.ledger.balances)
  {
    match execution
    case BridgeFails => CloseKeepsInv(s, id, PayoutFailed, rpcFails);
    case LedgerFails(saved) => BreakOffKeepsInv(s, id, saved);
    case Submitted(saved, findable) => SubmitKeepsInv(s, id, saved, findable);
  }

  lemma RequestedKeepsInv(s: Books, r: Request, c: Circumstances)
    requires Inv(s) && Accepted(s, r, c) && 0 < r.amount
    ensures Inv(Reserved(s, r, true).(payouts := s.payouts + [NewPayout(r)]))
  {
    var s' := Reserved(s, r, true).(payouts := s.payouts + [NewPayout(r)]);
    forall account
      ensures ReservedOf(s'.ledger.balances, account) == OpenTotal(s'.payouts, account)
    {
      assert ReservedOf(s.ledger.balances, account) == OpenTotal(s.payouts, account);
      assert s'.payouts[..|s.payouts|] == s.payouts;
    }
    UpperTwice(r.currency);
    forall i | 0 <= i < |s'.payouts|
      ensures LinkedAt(s'.payouts, s'.ledger.entries, i)
    {
      assert i < |s.payouts| ==> LinkedAt(s.payouts, s.ledger.entries, i);
    }
  }

  lemma {:induction false} CreateKeepsInv(s: Books, r: Request, c: Circumstances)
    requires Inv(s) && 0 < r.amount && c.reserveOk
    ensures Inv(Create(s, r, c)) && Conserves(s.ledger.balances, Create(s, r, c).ledger.balances)
  {
    if Accepted(s, r, c) {
      if !c.insertFails {
        var requested := Reserved(s, r, true).(payouts := s.payouts + [NewPayout(r)]);
        RequestedKeepsInv(s, r, c);
        if !c.review {
          ExecuteKeepsInv(requested, |s.payouts|, c.execution, c.rpcFails);
        }
      }
    }
  }

  // ---- When the balance sheet breaks ----

  lemma UnreservedRelease(s: Books, r: Request, c: Circumstances, s': Books)
    requires Inv(s) && Accepted(s, r, c) && 0 < r.amount
    requires s'.ledger == Released(s, r.user, r.currency, r.amount + r.fee, c.rpcFails).ledger
    requires OpenTotal(s'.payouts, Account(r.user, Upper(r.currency))) == OpenTotal(s.payouts, Account(r.user, Upper(r.currency)))
    ensures !Inv(s')
  {
    var account := Account(r.user, Upper(r.currency));
    assert ReservedOf(s.ledger.balances, account) == OpenTotal(s.payouts, account);
    assert Splits(s.ledger.balances[account]);
    if s.ledger.balances[account].reserved == 0 {
      assert account in s'.ledger.balances && !Splits(s'.ledger.balances[account]);
    } else {
      assert ReservedOf(s'.ledger.balances, account) != OpenTotal(s'.payouts, account);
    }
  }

  lemma UnreservedRequest(s: Books, r: Request, s': Books)
    requires Inv(s) && s'.ledger.balances == s.ledger.balances && 0 < r.amount
    requires
      var account := Account(r.user, Upper(r.currency));
      OpenTotal(s'.payouts, account) == OpenTotal(s.payouts, account) + r.amount + r.fee
    ensures !Inv(s')
  {
    var account := Account(r.user, Upper(r.currency));
    assert ReservedOf(s.ledger.balances, account) == OpenTotal(s.payouts, account);
    assert ReservedOf(s'.ledger.balances, account) != OpenTotal(s'.payouts, account);
  }

  /** The payout that was requested without a reservation, whatever became of it. */
  lemma UnreservedPayout(s: Books, r: Request, c: Circumstances, p: Payout, s': Books)
    requires Inv(s) && 0 < r.amount && Accepted(s, r, c) && SameMoney(NewPayout(r), p)
    requires s'.payouts == (s.payouts + [NewPayout(r)])[|s.payouts| := p]
    requires
      if IsOpen(p) then s'.ledger.balances == s.ledger.balances
      else s'.ledger == Released(s, r.user, r.currency, r.amount + r.fee, c.rpcFails).ledger
    ensures !Inv(s')
  {
    if IsOpen(p) {
      UnreservedRequest(s, r, s');
    } else {
      UnreservedRelease(s, r, c, s');
    }
  }

  lemma UnreservedCreate(s: Books, r: Request, c: Circumstances)
    requires Inv(s) && 0 < r.amount && !c.reserveOk && Accepted(s, r, c)
    ensures !Inv(Create(s, r, c))
  {
    var s' := Create(s, r, c);
    if c.insertFails {
      UnreservedRelease(s, r, c, s');
    } else {
      UpperTwice(r.currency);
      assert c.review ==> (s.payouts + [NewPayout(r)])[|s.payouts| := NewPayout(r)] == s.payouts + [NewPayout(r)];
      UnreservedPayout(s, r, c, s'.payouts[|s.payouts|], s');
    }
  }

  /** The call does not look at the error of the reservation: it keeps the books exactly when that one succeeds. */
  lemma CreateKeepsInvIff(s: Books, r: Request, c: Circumstances)
    requires Inv(s) && 0 < r.amount
    ensures Inv(Create(s, r, c)) <==> c.reserveOk || !Accepted(s, r, c)
  {
    if c.reserveOk {
      CreateKeepsInv(s, r, c);
    } else if Accepted(s, r, c) {
      UnreservedCreate(s, r, c);
    }
  }

  /** The account and amount a ledger call is about to post. */
  function Posting(l: Ledger.State, op: Ledger.Op): (Option<string>, string, int) {
    match op
    case CreateOp(e) => (OwnerOf(l.wallets, e.wallet), Upper(e.currency), Delta(None, e.status, Signed(e)))
    case SettleOp(id, status) =>
      if id < |l.entries| && l.entries[id].status == Pending then
        var e := l.entries[id];
        (OwnerOf(l.wallets, e.wallet), e.currency, Delta(Some(Pending), status, Signed(e)))
      else (None, "", 0)
  }

  /** The constraints on the balance refuse the posting. */
  predicate Refused(l: Ledger.State, op: Ledger.Op) {
    var (owner, currency, diff) := Posting(l, op);
    && owner.Some? && diff < 0 && Account(owner.value, currency) in l.balances
    && l.balances[Account(owner.value, currency)].amount + diff < 0
  }

  /** Not a debit, or one the constraints refuse, or one on an account with nothing reserved. */
  predicate SparesReserved(l: Ledger.State, op: Ledger.Op) {
    var (owner, currency, diff) := Posting(l, op);
    || owner.None? || diff >= 0 || Refused(l, op)
    || var account := Account(owner.value, currency);
       account in l.balances && l.balances[account].reserved == 0
  }

  /** The call takes the entry of a payout that is under way out of its pending state. */
  predicate TakesDebit(s: Books, op: Ledger.Op) {
    && op.SettleOp? && op.status != Pending && !Refused(s.ledger, op)
    && exists id | 0 <= id < |s.payouts| :: s.payouts[id].status == Processing && s.payouts[id].debit == Some(op.id)
  }

  predicate Harmless(s: Books, op: Ledger.Op) {
    SparesReserved(s.ledger, op) && !TakesDebit(s, op)
  }

  lemma StepAgrees(l: Ledger.State, op: Ledger.Op)
    requires Agrees(l)
    ensures Agrees(Ledger.Step(l, op))
  {
    assert Ledger.Run(l, []) == l;
    assert [op][..0] == [];
    RunAgrees(l, [op]);
    assert Ledger.Run(l, [op]) == Ledger.Step(l, op);
  }

  lemma StepEntries(l: Ledger.State, op: Ledger.Op)
    requires AllSplit(l.balances)
    ensures
      var entries := Ledger.Step(l, op).entries;
      match op
      case CreateOp(e) => entries == if Refused(l, op) then l.entries else l.entries + [Recorded(e)]
      case SettleOp(id, status) =>
        entries == if Refused(l, op) || id >= |l.entries| || l.entries[id].status != Pending then l.entries
                   else l.entries[id := l.entries[id].(status := status)]
  {
    var (owner, currency, diff) := Posting(l, op);
    if owner.Some? && Account(owner.value, currency) in l.balances {
      assert Splits(l.balances[Account(owner.value, currency)]);
    }
  }

  lemma LedgerKeepsLinkedIff(s: Books, op: Ledger.Op)
    requires Inv(s)
    ensures Linked(s.payouts, Ledger.Step(s.ledger, op).entries) <==> !TakesDebit(s, op)
  {
    var entries := Ledger.Step(s.ledger, op).entries;
    StepEntries(s.ledger, op);
    if TakesDebit(s, op) {
      var id :| 0 <= id < |s.payouts| && s.payouts[id].status == Processing && s.payouts[id].debit == Some(op.id);
      assert LinkedAt(s.payouts, s.ledger.entries, id);
      assert !LinkedAt(s.payouts, entries, id);
    } else {
      forall id | 0 <= id < |s.payouts|
        ensures LinkedAt(s.payouts, entries, id)
      {
        assert LinkedAt(s.payouts, s.ledger.entries, id);
      }
    }
  }

  lemma PostedBalances(l: Ledger.State, op: Ledger.Op)
    ensures
      var (owner, currency, diff) := Posting(l, op);
      var posted := if owner.Some? then Post(l.balances, Account(owner.value, currency), diff) else Some(l.balances);
      Ledger.Step(l, op).balances == if posted.Some? then posted.value else l.balances
  {
  }

  /** The posting alone, on the balances of a balanced state. */
  ghost predicate Keeps(s: Books, balances: map<Account, Balance>) {
    AllSplit(balances) && forall account :: ReservedOf(balances, account) == OpenTotal(s.payouts, account)
  }

  /** The reserved part of a balance, which is `reserved` elsewhere, after a posting that is accepted. */
  lemma PostingKeepsIff(s: Books, account: Account, diff: int)
    requires Covered(s) && AllSplit(s.ledger.balances) && Post(s.ledger.balances, account, diff).Some?
    ensures
      Keeps(s, Post(s.ledger.balances, account, diff).value)
      <==> diff >= 0 || (account in s.ledger.balances && s.ledger.balances[account].reserved == 0)
  {
    var balances := s.ledger.balances;
    var after := Post(balances, account, diff).value;
    PostKeepsSplitIff(balances, account, diff);
    assert ReservedOf(balances, account) == OpenTotal(s.payouts, account);
    if diff >= 0 || (account in balances && balances[account].reserved == 0) {
      forall other
        ensures ReservedOf(after, other) == OpenTotal(s.payouts, other)
      {
        assert ReservedOf(balances, other) == OpenTotal(s.payouts, other);
      }
    } else if account in balances {
      assert Splits(balances[account]);
      assert ReservedOf(after, account) != OpenTotal(s.payouts, account);
    }
  }

  lemma RefusedIff(balances: map<Account, Balance>, account: Account, diff: int)
    requires AllSplit(balances)
    ensures Post(balances, account, diff).None? <==> diff < 0 && account in balances && balances[account].amount + diff < 0
  {
    if account in balances {
      assert Splits(balances[account]);
    }
  }

  lemma LedgerKeepsCoveredIff(s: Books, op: Ledger.Op)
    requires Inv(s)
    ensures Keeps(s, Ledger.Step(s.ledger, op).balances) <==> SparesReserved(s.ledger, op)
  {
    var (owner, currency, diff) := Posting(s.ledger, op);
    PostedBalances(s.ledger, op);
    if owner.Some? {
      var account := Account(owner.value, currency);
      RefusedIff(s.ledger.balances, account, diff);
      if Post(s.ledger.balances, account, diff).Some? {
        PostingKeepsIff(s, account, diff);
      }
    }
  }

  /**
   * A debit spends the reserved money first: a ledger call that is not about a payout keeps the books exactly when
   * nothing is reserved, and leaves the entries of the payouts under way alone.
   */
  lemma LedgerKeepsInvIff(s: Books, op: Ledger.Op)
    requires Inv(s)
    ensures Inv(s.(ledger := Ledger.Step(s.ledger, op))) <==> Harmless(s, op)
  {
    var s' := s.(ledger := Ledger.Step(s.ledger, op));
    StepAgrees(s.ledger, op);
    LedgerKeepsCoveredIff(s, op);
    LedgerKeepsLinkedIff(s, op);
    assert Keeps(s, s'.ledger.balances) <==> Covered(s') && AllSplit(s'.ledger.balances);
  }

  /** Settling the debit of an open payout spends exactly what was reserved for it and nothing that is available. */
  lemma SettledDebitSpendsReservation(s: Books, id: nat, k: nat)
    requires Inv(s) && id < |s.payouts| && IsOpen(s.payouts[id])
    requires OwnerOf(s.ledger.wallets, s.payouts[id].wallet) == Some(s.payouts[id].user)
    requires k < |s.ledger.entries| && s.ledger.entries[k] == PendingDebit(s.payouts[id])
    ensures
      var p := s.payouts[id];
      && AccountOf(p) in s.ledger.balances && Total(p) <= s.ledger.balances[AccountOf(p)].reserved
      && Transition(s.ledger, k, Settled).Some?
      && var b := s.ledger.balances[AccountOf(p)];
         Transition(s.ledger, k, Settled).value
         == s.ledger.(balances := s.ledger.balances[AccountOf(p) := Balance(b.amount - Total(p), b.available, b.reserved - Total(p))],
                      entries := s.ledger.entries[k := PendingDebit(p).(status := Settled)])
  {
    assert s.payouts[id] in s.payouts;
    ReleaseOfOpenPayout(s, id, false);
    assert Splits(s.ledger.balances[AccountOf(s.payouts[id])]);
  }

  // ---- Completed and failed transfers ----

  /** Decided before the call: the payout's own entry is found, and its wallet belongs to the payout's user. */
  predicate CanComplete(s: Books, p: Payout) {
    p.status == Processing && p.debit.Some? && OwnerOf(s.ledger.wallets, p.wallet) == Some(p.user)
  }

  /** Money spent by the owner of this account: it was reserved, and what is available stays. */
  ghost predicate Spends(a: map<Account, Balance>, b: map<Account, Balance>, account: Account, total: nat) {
    && account in a && total <= a[account].reserved
    && b == a[account := Balance(a[account].amount - total, a[account].available, a[account].reserved - total)]
  }

  /** Giving the payout and its entry their final status keeps the links. */
  lemma FinishedLinked(payouts: seq<Payout>, entries: seq<Entry>, id: nat, q: Payout, status: EntryStatus)
    requires Linked(payouts, entries) && id < |payouts| && q == payouts[id].(status := q.status)
    requires q.status != Processing && q.status != Waiting && status != Pending
    ensures Linked(payouts[id := q], FinishEntry(entries, q.debit, status))
  {
    var k := q.debit;
    var payouts', entries' := payouts[id := q], FinishEntry(entries, q.debit, status);
    forall i | 0 <= i < |payouts'|
      ensures LinkedAt(payouts', entries', i)
    {
      assert LinkedAt(payouts, entries, i) && LinkedAt(payouts, entries, id);
      assert i != id && k.Some? ==> payouts[i].debit != k;
    }
  }

  lemma CompleteKeepsInv(s: Books, id: nat)
    requires Inv(s) && id < |s.payouts| && s.payouts[id].sent && CanComplete(s, s.payouts[id])
    ensures Inv(Complete(s, id))
    ensures Spends(s.ledger.balances, Complete(s, id).ledger.balances, AccountOf(s.payouts[id]), Total(s.payouts[id]))
  {
    var p := s.payouts[id];
    var k := p.debit.value;
    assert LinkedAt(s.payouts, s.ledger.entries, id);
    assert s.ledger.entries[k] == PendingDebit(p);
    SettledDebitSpendsReservation(s, id, k);
    var s' := Complete(s, id);
    forall account
      ensures ReservedOf(s'.ledger.balances, account) == OpenTotal(s'.payouts, account)
    {
      assert ReservedOf(s.ledger.balances, account) == OpenTotal(s.payouts, account);
      OpenTotalOfUpdate(s.payouts, id, s'.payouts[id], account);
    }
    assert Splits(s.ledger.balances[AccountOf(p)]);
    TransitionAgrees(s.ledger, k, Settled);
    FinishedLinked(s.payouts, s.ledger.entries, id, s'.payouts[id], Settled);
  }

  /** An open payout that is completed without its own reservation being spent. */
  lemma CompleteBreaksInv(s: Books, id: nat)
    requires Inv(s) && id < |s.payouts| && s.payouts[id].sent
    requires IsOpen(s.payouts[id]) && !CanComplete(s, s.payouts[id])
    ensures !Inv(Complete(s, id))
  {
    var p := s.payouts[id];
    var s' := Complete(s, id);
    var account := AccountOf(p);
    assert p in s.payouts && LinkedAt(s.payouts, s.ledger.entries, id);
    assert ReservedOf(s.ledger.balances, account) == OpenTotal(s.payouts, account);
    OpenTotalOfUpdate(s.payouts, id, s'.payouts[id], account);
    assert ReservedOf(s'.ledger.balances, account) == ReservedOf(s.ledger.balances, account);
  }

  /** A closed payout has no pending entry left to settle. */
  lemma CompleteClosed(s: Books, id: nat)
    requires Inv(s) && id < |s.payouts| && s.payouts[id].sent && !IsOpen(s.payouts[id])
    ensures Inv(Complete(s, id)) && Complete(s, id).ledger == s.ledger
  {
    var s' := Complete(s, id);
    assert LinkedAt(s.payouts, s.ledger.entries, id);
    forall account
      ensures ReservedOf(s'.ledger.balances, account) == OpenTotal(s'.payouts, account)
    {
      assert ReservedOf(s.ledger.balances, account) == OpenTotal(s.payouts, account);
      OpenTotalOfUpdate(s.payouts, id, s'.payouts[id], account);
    }
    FinishedLinked(s.payouts, s.ledger.entries, id, s'.payouts[id], Settled);
  }

  /** The balances refuse the entry only of a payout that cannot be completed. */
  lemma NotRefused(s: Books, id: nat)
    requires id < |s.payouts| && s.payouts[id].sent && s.payouts[id].debit.Some?
    requires Transition(s.ledger, s.payouts[id].debit.value, Settled).None?
    ensures Inv(s) ==> !CompletesSafely(s, id)
  {
    if Inv(s) {
      assert LinkedAt(s.payouts, s.ledger.entries, id);
      if CanComplete(s, s.payouts[id]) {
        SettledDebitSpendsReservation(s, id, s.payouts[id].debit.value);
      }
    }
  }

  /** Nothing is open under this number, or it can be completed. */
  predicate CompletesSafely(s: Books, id: nat) {
    id >= |s.payouts| || !s.payouts[id].sent || !IsOpen(s.payouts[id]) || CanComplete(s, s.payouts[id])
  }

  /**
   * The confirmation of a transfer keeps the books exactly when the payout was closed before or its own entry is found
   * and debits its user; then its reservation is spent, and nothing that is available.
   */
  lemma CompleteKeepsInvIff(s: Books, id: nat)
    requires Inv(s)
    ensures Inv(Complete(s, id)) <==> CompletesSafely(s, id)
    ensures
      var before, after := s.ledger.balances, Complete(s, id).ledger.balances;
      CompletesSafely(s, id) ==>
        if id < |s.payouts| && s.payouts[id].sent && IsOpen(s.payouts[id])
        then Spends(before, after, AccountOf(s.payouts[id]), Total(s.payouts[id])) else after == before
  {
    if id < |s.payouts| && s.payouts[id].sent {
      if !IsOpen(s.payouts[id]) {
        CompleteClosed(s, id);
      } else if CanComplete(s, s.payouts[id]) {
        CompleteKeepsInv(s, id);
      } else {
        CompleteBreaksInv(s, id);
      }
    }
  }

  /** The failure gives money back: it acts on a payout, the database function works, and so much is reserved. */
  predicate FailReleases(s: Books, id: nat, rpcFails: bool) {
    && id < |s.payouts| && s.payouts[id].sent && s.payouts[id].status != Completed && !rpcFails
    && Total(s.payouts[id]) <= ReservedOf(s.ledger.balances, AccountOf(s.payouts[id]))
  }

  /** An open payout gets its money back, a closed one does not get it again. */
  predicate FailsSafely(s: Books, id: nat, rpcFails: bool) {
    || id >= |s.payouts| || !s.payouts[id].sent
    || if IsOpen(s.payouts[id]) then !rpcFails else !FailReleases(s, id, rpcFails)
  }

  lemma FailedAgrees(l: Ledger.State, k: Option<nat>)
    requires Agrees(l)
    ensures Agrees(l.(entries := FinishEntry(l.entries, k, Failed)))
  {
    if k.Some? && k.value < |l.entries| && l.entries[k.value].status == Pending {
      TransitionAgrees(l, k.value, Failed);
    }
  }

  lemma FailKeepsRest(s: Books, id: nat, rpcFails: bool)
    requires Inv(s) && id < |s.payouts| && s.payouts[id].sent && s.payouts[id].status != Completed
    ensures
      var s' := Fail(s, id, rpcFails);
      && AllSplit(s'.ledger.balances) && Agrees(s'.ledger) && Normalized(s'.payouts)
      && Linked(s'.payouts, s'.ledger.entries) && Conserves(s.ledger.balances, s'.ledger.balances)
  {
    var p := s.payouts[id];
    assert p in s.payouts;
    var s' := Fail(s, id, rpcFails);
    var failed := s.ledger.(entries := FinishEntry(s.ledger.entries, p.debit, Failed));
    FailedAgrees(s.ledger, p.debit);
    AmountsDecideAgreement(failed, s'.ledger);
    FinishedLinked(s.payouts, s.ledger.entries, id, s'.payouts[id], Failed);
  }

  /** How far reserved money and open payouts of an account are apart after the report of a failure. */
  lemma FailGap(s: Books, id: nat, rpcFails: bool, account: Account)
    requires Inv(s) && id < |s.payouts| && s.payouts[id].sent && s.payouts[id].status != Completed
    ensures
      var p, s' := s.payouts[id], Fail(s, id, rpcFails);
      ReservedOf(s'.ledger.balances, account) - OpenTotal(s'.payouts, account)
      == Held(p, account) - if AccountOf(p) == account && FailReleases(s, id, rpcFails) then Total(p) else 0
  {
    var p := s.payouts[id];
    assert p in s.payouts;
    assert ReservedOf(s.ledger.balances, account) == OpenTotal(s.payouts, account);
    OpenTotalOfUpdate(s.payouts, id, p.(status := PayoutFailed), account);
  }

  lemma FailCoveredIff(s: Books, id: nat, rpcFails: bool)
    requires Inv(s) && id < |s.payouts| && s.payouts[id].sent && s.payouts[id].status != Completed
    ensures Covered(Fail(s, id, rpcFails)) <==> FailsSafely(s, id, rpcFails)
  {
    var p, s' := s.payouts[id], Fail(s, id, rpcFails);
    assert p in s.payouts;
    assert ReservedOf(s.ledger.balances, AccountOf(p)) == OpenTotal(s.payouts, AccountOf(p));
    if IsOpen(p) {
      OpenTotalCovers(s.payouts, id);
    }
    FailGap(s, id, rpcFails, AccountOf(p));
    if FailsSafely(s, id, rpcFails) {
      forall account
        ensures ReservedOf(s'.ledger.balances, account) == OpenTotal(s'.payouts, account)
      {
        FailGap(s, id, rpcFails, account);
      }
    } else {
      assert ReservedOf(s'.ledger.balances, AccountOf(p)) != OpenTotal(s'.payouts, AccountOf(p));
    }
  }

  /** The report of a failed transfer keeps the books exactly when it releases an open payout, or nothing. */
  lemma FailKeepsInvIff(s: Books, id: nat, rpcFails: bool)
    requires Inv(s)
    ensures Inv(Fail(s, id, rpcFails)) <==> FailsSafely(s, id, rpcFails)
    ensures Conserves(s.ledger.balances, Fail(s, id, rpcFails).ledger.balances)
  {
    if id < |s.payouts| && s.payouts[id].sent && s.payouts[id].status != Completed {
      FailKeepsRest(s, id, rpcFails);
      FailCoveredIff(s, id, rpcFails);
    }
  }

  /** 40 reserved of 100, a manual debit of 40, and the payout rejected: 100 available on an account holding 60. */
  lemma ManualDebitFreesMoneyTwice(user: string, wallet: string)
    ensures
      var account := Account(user, "USD");
      var wallets := [Wallet(wallet, user, true)];
      var funded := Books(Ledger.Step(Ledger.State(wallets, map[], []), CreateOp(Adjustment(wallet, Credit, 10000, "USD"))), []);
      var r := Request(user, wallet, "usd", 4000, 0);
      var created := Create(funded, r, Circumstances(true, true, false, true, BridgeFails, false));
      var debited := created.(ledger := Ledger.Step(created.ledger, CreateOp(Adjustment(wallet, Debit, 4000, "USD"))));
      && created.ledger.balances == map[account := Balance(10000, 6000, 4000)]
      && debited.ledger.balances == map[account := Balance(6000, 6000, 0)]
      && Reject(debited, 0, true).ledger.balances == map[account := Balance(6000, 10000, 0)]
  {
    var account := Account(user, "USD");
    assert Upper("usd") == "USD";
    UpperTwice("usd");
    assert OwnerOf([Wallet(wallet, user, true)], wallet) == Some(user);
    var l := Ledger.Step(Ledger.State([Wallet(wallet, user, true)], map[], []), CreateOp(Adjustment(wallet, Credit, 10000, "USD")));
    assert l.balances == map[account := Balance(10000, 10000, 0)];
  }

  function Funded(user: string, wallet: string): Books {
    var empty := Ledger.State([Wallet(wallet, user, true)], map[], []);
    Books(Ledger.Step(empty, CreateOp(Adjustment(wallet, Credit, 10000, "USD"))), [])
  }

  lemma FundedBooks(user: string, wallet: string)
    ensures
      Funded(user, wallet) == Books(Ledger.State([Wallet(wallet, user, true)], map[Account(user, "USD") := Balance(10000, 10000, 0)],
                                                 [Entry(wallet, Credit, 10000, "USD", Settled)]), [])
  {
    assert Upper("USD") == "USD";
    assert OwnerOf([Wallet(wallet, user, true)], wallet) == Some(user);
  }

  /**
   * The entry carries Bridge's id, and the confirmation looks for the id of the transfer row, as the service is
   * written: the payout ends completed, with its money still reserved.
   */
  lemma UnfoundDebitStaysReserved(user: string, wallet: string)
    ensures
      var r := Request(user, wallet, "USD", 4000, 0);
      var sent := Create(Funded(user, wallet), r, Circumstances(true, true, false, false, Submitted(true, false), false));
      var done := Complete(sent, 0);
      && done.ledger.balances == map[Account(user, "USD") := Balance(10000, 6000, 4000)]
      && |done.payouts| == 1 && done.payouts[0].status == Completed
  {
    FundedBooks(user, wallet);
    assert Upper("USD") == "USD";
  }

  /** Two payouts of 40 under way, and the failure of the first reported twice: the second one's money is released too. */
  lemma FailedTwiceReleasesTwice(user: string, wallet: string)
    ensures
      var r := Request(user, wallet, "USD", 4000, 0);
      var c := Circumstances(true, true, false, false, Submitted(true, true), false);
      var two := Create(Create(Funded(user, wallet), r, c), r, c);
      var failed := Fail(Fail(two, 0, false), 0, false);
      && two.ledger.balances == map[Account(user, "USD") := Balance(10000, 2000, 8000)]
      && failed.ledger.balances == map[Account(user, "USD") := Balance(10000, 10000, 0)]
      && |failed.payouts| == 2 && failed.payouts[1].status == Processing
  {
    FundedBooks(user, wallet);
    assert Upper("USD") == "USD";
  }

  // ---- Runs ----

  datatype Op =
    | CreatePayoutOp(request: Request, circumstances: Circumstances)
    | ApproveOp(id: nat, execution: Execution, rpcFails: bool)
    | RejectOp(id: nat, rpcFails: bool)
    | CompleteOp(id: nat)
    | FailOp(id: nat, rpcFails: bool)
    | LedgerOp(op: Ledger.Op)

  function Step(s: Books, op: Op): Books {
    match op
    case CreatePayoutOp(r, c) => Create(s, r, c)
    case ApproveOp(id, execution, rpcFails) => Approve(s, id, execution, rpcFails)
    case RejectOp(id, rpcFails) => Reject(s, id, rpcFails)
    case CompleteOp(id) => Complete(s, id)
    case FailOp(id, rpcFails) => Fail(s, id, rpcFails)
    case LedgerOp(l) => s.(ledger := Ledger.Step(s.ledger, l))
  }

  /** Requests are for at least a cent. */
  predicate Valid(op: Op) {
    op.CreatePayoutOp? ==> 0 < op.request.amount
  }

  predicate Safe(s: Books, op: Op) {
    match op
    case CreatePayoutOp(r, c) => c.reserveOk || !Accepted(s, r, c)
    case CompleteOp(id) => CompletesSafely(s, id)
    case FailOp(id, rpcFails) => FailsSafely(s, id, rpcFails)
    case LedgerOp(l) => Harmless(s, l)
    case _ => true
  }

  /** Every call keeps the books exactly when it is safe, and a payout call then neither makes nor loses money. */
  lemma StepKeepsInvIff(s: Books, op: Op)
    requires Inv(s) && Valid(op)
    ensures Inv(Step(s, op)) <==> Safe(s, op)
    ensures Safe(s, op) && !op.LedgerOp? && !op.CompleteOp? ==> Conserves(s.ledger.balances, Step(s, op).ledger.balances)
  {
    match op
    case CreatePayoutOp(r, c) =>
      CreateKeepsInvIff(s, r, c);
      if c.reserveOk {
        CreateKeepsInv(s, r, c);
      }
    case ApproveOp(id, execution, rpcFails) =>
      if IsWaiting(s, id) {
        ExecuteKeepsInv(s, id, execution, rpcFails);
      }
    case RejectOp(id, rpcFails) =>
      if IsWaiting(s, id) {
        CloseKeepsInv(s, id, Rejected, rpcFails);
      }
    case CompleteOp(id) => CompleteKeepsInvIff(s, id);
    case FailOp(id, rpcFails) => FailKeepsInvIff(s, id, rpcFails);
    case LedgerOp(l) => LedgerKeepsInvIff(s, l);
  }

  function Run(s: Books, ops: seq<Op>): Books {
    if ops == [] then s else Step(Run(s, ops[..|ops| - 1]), ops[|ops| - 1])
  }

  ghost predicate SafeRun(s: Books, ops: seq<Op>) {
    forall i | 0 <= i < |ops| :: Valid(ops[i]) && Safe(Run(s, ops[..i]), ops[i])
  }

  lemma {:induction false} SafePrefix(s: Books, ops: seq<Op>, n: nat)
    requires n <= |ops| && SafeRun(s, ops)
    ensures SafeRun(s, ops[..n])
  {
    forall i | 0 <= i < n
      ensures Valid(ops[..n][i]) && Safe(Run(s, ops[..n][..i]), ops[..n][i])
    {
      assert ops[..n][..i] == ops[..i];
    }
  }

  /**
   * Along every safe run reserved money is exactly what the open payouts hold, each balance is its available plus its
   * reserved part, and it is the sum of the settled entries.
   */
  lemma {:induction false} RunKeepsInv(s: Books, ops: seq<Op>)
    requires Inv(s) && SafeRun(s, ops)
    ensures Inv(Run(s, ops))
  {
    if ops != [] {
      var n := |ops| - 1;
      SafePrefix(s, ops, n);
      RunKeepsInv(s, ops[..n]);
      StepKeepsInvIff(Run(s, ops[..n]), ops[n]);
    }
  }

  /** The same call, but for how the database function fares. */
  predicate SameCall(a: Op, b: Op) {
    match a
    case CreatePayoutOp(r, c) => b.CreatePayoutOp? && b.request == r && b.circumstances == c.(rpcFails := b.circumstances.rpcFails)
    case ApproveOp(id, execution, _) => b.ApproveOp? && b.id == id && b.execution == execution
    case RejectOp(id, _) => b.RejectOp? && b.id == id
    case _ => b == a
  }

  /** In a balanced state the manual release does what the database function does. */
  lemma FallbackIsRpc(s: Books, op: Op, other: Op)
    requires Inv(s) && Valid(op) && Safe(s, op) && SameCall(op, other)
    ensures Step(s, op) == Step(s, other)
  {
    match op
    case CreatePayoutOp(r, c) =>
      if Accepted(s, r, c) {
        if !c.insertFails {
          RequestedKeepsInv(s, r, c);
          var requested := Reserved(s, r, true).(payouts := s.payouts + [NewPayout(r)]);
          ReleaseOfOpenPayout(requested, |s.payouts|, true);
          ReleaseOfOpenPayout(requested, |s.payouts|, false);
        }
      }
    case ApproveOp(id, _, _) => ReleaseEitherWay(s, id);
    case RejectOp(id, _) => ReleaseEitherWay(s, id);
    case _ =>
  }

  lemma ReleaseEitherWay(s: Books, id: nat)
    requires Inv(s)
    ensures IsWaiting(s, id) ==>
              var p := s.payouts[id];
              Released(s, p.user, p.currency, Total(p), true) == Released(s, p.user, p.currency, Total(p), false)
  {
    if IsWaiting(s, id) {
      assert s.payouts[id] in s.payouts;
      ReleaseOfOpenPayout(s, id, true);
      ReleaseOfOpenPayout(s, id, false);
    }
  }

  /** The call gives the money of payout `id` back. */
  predicate Releases(s: Books, op: Op, id: nat) {
    match op
    case CreatePayoutOp(r, c) =>
      Accepted(s, r, c) && !c.insertFails && !c.review && c.execution.BridgeFails? && id == |s.payouts|
    case ApproveOp(k, execution, _) => k == id && IsWaiting(s, id) && execution.BridgeFails?
    case RejectOp(k, _) => k == id && IsWaiting(s, id)
    case FailOp(k, rpcFails) => k == id && FailReleases(s, id, rpcFails)
    case _ => false
  }

  predicate Closed(s: Books, id: nat) {
    id < |s.payouts| && !IsOpen(s.payouts[id])
  }

  lemma ClosedStep(s: Books, op: Op, id: nat)
    requires Closed(s, id)
    ensures Closed(Step(s, op), id)
  {
  }

  lemma RunSnoc(s: Books, ops: seq<Op>, j: nat)
    requires j < |ops|
    ensures Run(s, ops[..j + 1]) == Step(Run(s, ops[..j]), ops[j])
  {
    assert ops[..j + 1][..j] == ops[..j];
  }

  lemma {:induction false} ClosedNext(s: Books, ops: seq<Op>, j: nat, id: nat)
    requires j < |ops| && Closed(Run(s, ops[..j]), id)
    ensures Closed(Run(s, ops[..j + 1]), id)
  {
    RunSnoc(s, ops, j);
    ClosedStep(Run(s, ops[..j]), ops[j], id);
  }

  lemma {:induction false} ClosedStays(s: Books, ops: seq<Op>, i: nat, j: nat, id: nat)
    requires i <= j <= |ops| && Closed(Run(s, ops[..i]), id)
    ensures Closed(Run(s, ops[..j]), id)
  {
    if i < j {
      ClosedStays(s, ops, i, j - 1, id);
      ClosedNext(s, ops, j - 1, id);
    }
  }

  // ---- What the calls do to one payout ----

  /** The debit a payout is to leave in the ledger: amount and fee, from its wallet, still pending. */
  predicate IsDebitOf(e: Entry, p: Payout) {
    e.wallet == p.wallet && e.kind == Debit && e.amount == p.amount + p.fee && e.currency == Upper(p.currency)
    && e.status == Pending
  }

  /** Nothing changed but payout `id`, and of that one not what it is about. */
  ghost predicate OnlyPayout(s: Books, s': Books, id: nat) {
    && |s'.payouts| == |s.payouts| && id < |s.payouts| && SameMoney(s.payouts[id], s'.payouts[id])
    && forall k | 0 <= k < |s.payouts| && k != id :: s'.payouts[k] == s.payouts[k]
  }

  /** A submitted transfer: the payout is under way, whatever could be stored, and exactly its debit is added. */
  lemma SubmittedEffect(s: Books, id: nat, saved: bool, findable: bool, rpcFails: bool)
    requires IsWaiting(s, id)
    ensures
      var p, s' := s.payouts[id], Execute(s, id, Submitted(saved, findable), rpcFails);
      && OnlyPayout(s, s', id) && s'.payouts[id].status == Processing
      && s'.payouts[id].sent == (p.sent || saved) && (s'.payouts[id].debit.Some? <==> findable)
      && s'.ledger.wallets == s.ledger.wallets && s'.ledger.balances == s.ledger.balances
      && |s'.ledger.entries| == |s.ledger.entries| + 1 && s'.ledger.entries[..|s.ledger.entries|] == s.ledger.entries
      && IsDebitOf(s'.ledger.entries[|s.ledger.entries|], p)
      && (findable ==> s'.payouts[id].debit == Some(|s.ledger.entries|))
  {
  }

  /** A call that breaks off after the transfer only marks that money was sent; the payout waits and its money is held. */
  lemma BrokenOffEffect(s: Books, id: nat, saved: bool, rpcFails: bool)
    requires IsWaiting(s, id)
    ensures
      var p, s' := s.payouts[id], Execute(s, id, LedgerFails(saved), rpcFails);
      s'.ledger == s.ledger && s'.payouts == s.payouts[id := p.(sent := if saved then true else p.sent)]
  {
  }

  /** A transfer Bridge refuses: the payout has failed, and its money is available again. */
  lemma RefusedEffect(s: Books, id: nat, rpcFails: bool)
    requires Inv(s) && IsWaiting(s, id)
    ensures
      var p, s' := s.payouts[id], Execute(s, id, BridgeFails, rpcFails);
      OnlyPayout(s, s', id) && s'.payouts[id] == p.(status := PayoutFailed) && Frees(s, s', p)
  {
    ReleaseOfOpenPayout(s, id, rpcFails);
  }

  /** However it is made, a release returns the money of one account and never leaves a negative reservation. */
  lemma ReleaseIs(balances: map<Account, Balance>, account: Account, total: nat, rpcFails: bool)
    requires account in balances
    ensures
      var b := balances[account];
      Release(balances, account, total, rpcFails)
      == balances[account := Balance(b.amount, b.available + total, if b.reserved < total then 0 else b.reserved - total)]
  {
    if rpcFails || balances[account].reserved < total {
      assert ReleaseByHand(balances[account], total).available == balances[account].available + total;
    }
  }

  /** Exactly the payout's amount and fee went from reserved to available. */
  ghost predicate Frees(s: Books, s': Books, p: Payout) {
    && s'.ledger.entries == s.ledger.entries && s'.ledger.wallets == s.ledger.wallets
    && s'.ledger.balances.Keys == s.ledger.balances.Keys && AccountOf(p) in s.ledger.balances
    && (forall a | a in s.ledger.balances && a != AccountOf(p) :: s'.ledger.balances[a] == s.ledger.balances[a])
    && var b, b' := s.ledger.balances[AccountOf(p)], s'.ledger.balances[AccountOf(p)];
       b' == Balance(b.amount, b.available + p.amount + p.fee, b.reserved - p.amount - p.fee)
  }

  /** A rejection closes a waiting payout as rejected and frees its money; any other it leaves alone. */
  lemma RejectEffect(s: Books, id: nat, rpcFails: bool)
    requires Inv(s)
    ensures
      var s' := Reject(s, id, rpcFails);
      if IsWaiting(s, id)
      then OnlyPayout(s, s', id) && s'.payouts[id] == s.payouts[id].(status := Rejected) && Frees(s, s', s.payouts[id])
      else s' == s
  {
    if IsWaiting(s, id) {
      ReleaseOfOpenPayout(s, id, rpcFails);
    }
  }

  /** A request that reaches review: one more waiting payout, its amount and fee reserved out of what was available. */
  lemma CreatedForReview(s: Books, r: Request, c: Circumstances)
    requires Accepted(s, r, c) && c.reserveOk && !c.insertFails && c.review && 0 < r.amount
    ensures
      var account, s' := Account(r.user, Upper(r.currency)), Create(s, r, c);
      && s'.payouts == s.payouts + [Payout(r.user, r.wallet, Upper(r.currency), r.amount, r.fee, Waiting, false, None)]
      && s'.ledger.entries == s.ledger.entries && account in s.ledger.balances
      && r.amount + r.fee <= s.ledger.balances[account].available
      && var b := s.ledger.balances[account];
         s'.ledger.balances
         == s.ledger.balances[account := Balance(b.amount, b.available - r.amount - r.fee, b.reserved + r.amount + r.fee)]
  {
  }

  /** A request beyond what is available, or beyond the limits, leaves the books as they are. */
  lemma CreateRefused(s: Books, r: Request, c: Circumstances)
    requires
      var account := Account(r.user, Upper(r.currency));
      || !c.limitsOk
      || (account in s.ledger.balances && s.ledger.balances[account].available < r.amount + r.fee)
      || (account !in s.ledger.balances && 0 < r.amount + r.fee)
    ensures Create(s, r, c) == s
  {
  }

  /** The call sends the money of payout `id`. */
  predicate Submits(s: Books, op: Op, id: nat) {
    match op
    case CreatePayoutOp(r, c) =>
      Accepted(s, r, c) && !c.insertFails && !c.review && c.execution.Submitted? && id == |s.payouts|
    case ApproveOp(k, execution, _) => k == id && IsWaiting(s, id) && execution.Submitted?
    case _ => false
  }

  predicate Decided(s: Books, id: nat) {
    id < |s.payouts| && s.payouts[id].status != Waiting
  }

  lemma DecidedStep(s: Books, op: Op, id: nat)
    requires Decided(s, id) || Submits(s, op, id)
    ensures Decided(Step(s, op), id)
  {
  }

  lemma {:induction false} DecidedNext(s: Books, ops: seq<Op>, j: nat, id: nat)
    requires j < |ops| && (Decided(Run(s, ops[..j]), id) || Submits(Run(s, ops[..j]), ops[j], id))
    ensures Decided(Run(s, ops[..j + 1]), id)
  {
    RunSnoc(s, ops, j);
    DecidedStep(Run(s, ops[..j]), ops[j], id);
  }

  lemma {:induction false} DecidedStays(s: Books, ops: seq<Op>, i: nat, j: nat, id: nat)
    requires i <= j <= |ops| && Decided(Run(s, ops[..i]), id)
    ensures Decided(Run(s, ops[..j]), id)
  {
    if i < j {
      DecidedStays(s, ops, i, j - 1, id);
      DecidedNext(s, ops, j - 1, id);
    }
  }

  /** Once its money was sent, no later approval or rejection of a payout changes anything: it is sent only once. */
  lemma {:induction false} SubmittedOnce(s: Books, ops: seq<Op>, i: nat, j: nat, id: nat)
    requires i < j < |ops| && Submits(Run(s, ops[..i]), ops[i], id)
    requires (ops[j].ApproveOp? || ops[j].RejectOp?) && ops[j].id == id
    ensures Run(s, ops[..j + 1]) == Run(s, ops[..j]) && !Submits(Run(s, ops[..j]), ops[j], id)
  {
    DecidedNext(s, ops, i, id);
    DecidedStays(s, ops, i + 1, j, id);
    RunSnoc(s, ops, j);
  }

  /** No reservation is released twice, whatever the calls and their failures, unless a transfer is reported failed. */
  lemma ReleasedOnce(s: Books, ops: seq<Op>, i: nat, j: nat, id: nat)
    requires i < j < |ops| && Releases(Run(s, ops[..i]), ops[i], id)
    ensures Closed(Run(s, ops[..j]), id)
    ensures Releases(Run(s, ops[..j]), ops[j], id) <==> ops[j].FailOp? && ops[j].id == id && FailReleases(Run(s, ops[..j]), id, ops[j].rpcFails)
  {
    RunSnoc(s, ops, i);
    ClosedStays(s, ops, i + 1, j, id);
  }

  /** Along a safe run, which is one that keeps the books, no reservation is released twice. */
  lemma SafeRunReleasesOnce(s: Books, ops: seq<Op>, i: nat, j: nat, id: nat)
    requires SafeRun(s, ops)
    requires i < j < |ops| && Releases(Run(s, ops[..i]), ops[i], id)
    ensures !Releases(Run(s, ops[..j]), ops[j], id)
  {
    ReleasedOnce(s, ops, i, j, id);
    assert Safe(Run(s, ops[..j]), ops[j]);
  }

  // ---- The service ----

  datatype PayoutError = InsufficientBalance | OverLimit | NotSaved | BridgeError | LedgerError | NotFound

  class PayoutService {
    var wallets: seq<Wallet>
    var balances: map<Account, Balance>
    var entries: seq<Entry>
    var payouts: seq<Payout>

    constructor (wallets: seq<Wallet>)
      ensures View() == Books(Ledger.State(wallets, map[], []), []) && Inv(View())
    {
      this.wallets := wallets;
      balances, entries, payouts := map[], [], [];
    }

    function View(): Books
      reads this
    {
      Books(Ledger.State(wallets, balances, entries), payouts)
    }

    method ReleaseReservedBalance(user: string, currency: string, total: nat, rpcFails: bool)
      modifies this`balances
      ensures View() == Released(old(View()), user, currency, total, rpcFails)
    {
      var account := Account(user, Upper(currency));
      if account in balances {
        var b := balances[account];
        if rpcFails || b.reserved < total {
          balances := balances[account := Balance(b.amount, b.available + total, Max(0, b.reserved - total))];
        } else {
          balances := balances[account := Balance(b.amount, b.available + total, b.reserved - total)];
        }
      }
    }

    method ExecutePayout(id: nat, execution: Execution, rpcFails: bool) returns (r: Result<(), PayoutError>)
      requires id < |payouts|
      modifies this`balances, this`entries, this`payouts
      ensures View() == Execute(old(View()), id, execution, rpcFails)
      ensures r.Ok? <==> execution.Submitted?
      ensures r.Err? ==> r.error == if execution.BridgeFails? then BridgeError else LedgerError
    {
      var p := payouts[id];
      match execution {
        case BridgeFails =>
          ReleaseReservedBalance(p.user, p.currency, Total(p), rpcFails);
          payouts := payouts[id := payouts[id].(status := PayoutFailed)];
          return Err(BridgeError);
        case LedgerFails(saved) =>
          payouts := payouts[id := p.(sent := p.sent || saved)];
          return Err(LedgerError);
        case Submitted(saved, findable) =>
          var debit := if findable then Some(|entries|) else None;
          entries := entries + [PendingDebit(p)];
          payouts := payouts[id := p.(status := Processing, sent := p.sent || saved, debit := debit)];
          return Ok(());
      }
    }

    method CreatePayout(q: Request, c: Circumstances) returns (r: Result<nat, PayoutError>)
      modifies this`balances, this`entries, this`payouts
      ensures View() == Create(old(View()), q, c)
      ensures r.Ok? ==> r.value == |old(payouts)| && |payouts| == |old(payouts)| + 1
      ensures r == Err(InsufficientBalance) <==>
              AvailableOf(old(balances), Account(q.user, Upper(q.currency))) < q.amount + q.fee
    {
      var account := Account(q.user, Upper(q.currency));
      if AvailableOf(balances, account) < q.amount + q.fee {
        return Err(InsufficientBalance);
      }
      if !c.limitsOk {
        return Err(OverLimit);
      }
      if c.reserveOk {
        balances := Reserve(balances, account, q.amount + q.fee);
      }
      if c.insertFails {
        ReleaseReservedBalance(q.user, q.currency, q.amount + q.fee, c.rpcFails);
        return Err(NotSaved);
      }
      var id := |payouts|;
      payouts := payouts + [NewPayout(q)];
      if !c.review {
        var executed := ExecutePayout(id, c.execution, c.rpcFails);
        if executed.Err? {
          return Err(executed.error);
        }
      }
      return Ok(id);
    }

    method ApprovePayout(id: nat, execution: Execution, rpcFails: bool) returns (r: Result<(), PayoutError>)
      modifies this`balances, this`entries, this`payouts
      ensures View() == Approve(old(View()), id, execution, rpcFails)
      ensures r == Err(NotFound) <==> !IsWaiting(old(View()), id)
    {
      if id >= |payouts| || payouts[id].status != Waiting {
        return Err(NotFound);
      }
      r := ExecutePayout(id, execution, rpcFails);
    }

    method RejectPayout(id: nat, rpcFails: bool) returns (r: Result<(), PayoutError>)
      modifies this`balances, this`payouts
      ensures View() == Reject(old(View()), id, rpcFails)
      ensures r == if IsWaiting(old(View()), id) then Ok(()) else Err(NotFound)
    {
      if id >= |payouts| || payouts[id].status != Waiting {
        return Err(NotFound);
      }
      ReleaseReservedBalance(payouts[id].user, payouts[id].currency, Total(payouts[id]), rpcFails);
      payouts := payouts[id := payouts[id].(status := Rejected)];
      return Ok(());
    }

    /** The webhook of a completed transfer. `ok` unless the balances refuse the entry, which makes Bridge send it again. */
    method HandleTransferComplete(id: nat) returns (ok: bool)
      modifies this`balances, this`entries, this`payouts
      ensures View() == Complete(old(View()), id)
      ensures Inv(old(View())) ==> ok || !CompletesSafely(old(View()), id)
    {
      if id >= |payouts| || !payouts[id].sent {
        return true;
      }
      ghost var before := View();
      var found := payouts[id].debit;
      payouts := payouts[id := payouts[id].(status := Completed)];
      if found.Some? && found.value < |entries| && entries[found.value].status == Pending {
        var e := entries[found.value];
        var posted := Trigger(Ledger.State(wallets, balances, entries), e, Delta(Some(Pending), Settled, Signed(e)));
        if posted.None? {
          assert Complete(before, id) == View();
          NotRefused(before, id);
          return false;
        }
        balances := posted.value;
        entries := entries[found.value := e.(status := Settled)];
      }
      return true;
    }

    /** The webhook of a failed transfer. */
    method HandleTransferFailed(id: nat, rpcFails: bool)
      modifies this`balances, this`entries, this`payouts
      ensures View() == Fail(old(View()), id, rpcFails)
    {
      if id >= |payouts| || !payouts[id].sent || payouts[id].status == Completed {
        return;
      }
      var p := payouts[id];
      payouts := payouts[id := p.(status := PayoutFailed)];
      if p.debit.Some? && p.debit.value < |entries| && entries[p.debit.value].status == Pending {
        entries := entries[p.debit.value := entries[p.debit.value].(status := Failed)];
      }
      var account := Account(p.user, Upper(p.currency));
      if !rpcFails && account in balances && Total(p) <= balances[account].reserved {
        var b := balances[account];
        balances := balances[account := Balance(b.amount, b.available + Total(p), b.reserved - Total(p))];
      }
    }
  }
}
