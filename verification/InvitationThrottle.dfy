/**
 * The limiter of team invitations: a fixed window that starts with its first send, plus a block.
 * Times are in milliseconds. Every send consumes one unit of the owner's bucket and one of the recipient's.
 */
module InvitationThrottle {
  import opened Wrappers
  import opened Text

  datatype Rule = Rule(maxAttempts: int, window: int, block: int)

  const MINUTE := 60_000
  const OWNER_RULE := Rule(10, 60 * MINUTE, 60 * MINUTE)
  const RECIPIENT_RULE := Rule(3, 60 * MINUTE, 60 * MINUTE)

  datatype Row = Row(attemptCount: int, firstAttemptAt: int, lastAttemptAt: int, blockedUntil: Option<int>)

  datatype Key = OwnerKey(ownerId: string) | RecipientKey(email: string)

  function RuleOf(key: Key): Rule {
    match key
    case OwnerKey(_) => OWNER_RULE
    case RecipientKey(_) => RECIPIENT_RULE
  }

  datatype Outcome = Outcome(row: Row, admitted: bool)

  /** One unit of one bucket, for a table read that succeeded. */
  function ConsumeRow(rule: Rule, existing: Option<Row>, now: int): Outcome {
    if existing.None? then
      Outcome(Row(1, now, now, None), true)
    else
      var row := existing.value;
      if row.blockedUntil.Some? && row.blockedUntil.value > now then
        Outcome(row, false)
      else if row.firstAttemptAt < now - rule.window then
        Outcome(Row(1, now, now, None), true)
      else if row.attemptCount + 1 > rule.maxAttempts then
        Outcome(row.(attemptCount := row.attemptCount + 1, lastAttemptAt := now,
                     blockedUntil := Some(now + rule.block)), false)
      else
        Outcome(row.(attemptCount := row.attemptCount + 1, lastAttemptAt := now), true)
  }

  function Lookup<K, V>(m: map<K, V>, key: K): Option<V> {
    if key in m then Some(m[key]) else None
  }

  /** What the table does to one unit: an error of the writing is not looked at. */
  datatype Access = Works | ReadFails | WriteFails

  datatype Attempt = Attempt(ownerId: string, email: string, now: int, owner: Access, recipient: Access)

  class Throttle {
    var rows: map<Key, Row>

    constructor ()
      ensures rows == map[]
    {
      rows := map[];
    }

    /**
     * Fails open: when the table cannot be read the send is admitted and nothing is recorded; when it cannot be written
     * the decision stands and nothing is recorded.
     */
    method ConsumeBucket(key: Key, rule: Rule, now: int, access: Access) returns (admitted: bool)
      modifies this
      ensures access.ReadFails? ==> admitted && rows == old(rows)
      ensures !access.ReadFails? ==>
                var o := ConsumeRow(rule, Lookup(old(rows), key), now);
                admitted == o.admitted && rows == if access.Works? then old(rows)[key := o.row] else old(rows)
    {
      if access.ReadFails? {
        return true;
      }
      if key !in rows {
        Write(key, Row(1, now, now, None), access);
        return true;
      }
      var existing := rows[key];
      if existing.blockedUntil.Some? && existing.blockedUntil.value > now {
        assert rows == rows[key := existing];
        return false;
      }
      var windowStart := now - rule.window;
      if existing.firstAttemptAt < windowStart {
        Write(key, existing.(attemptCount := 1, firstAttemptAt := now, lastAttemptAt := now, blockedUntil := None), access);
        return true;
      }
      var nextCount := existing.attemptCount + 1;
      if nextCount > rule.maxAttempts {
        var blockedUntil := now + rule.block;
        Write(key, existing.(attemptCount := nextCount, lastAttemptAt := now, blockedUntil := Some(blockedUntil)), access);
        return false;
      }
      Write(key, existing.(attemptCount := nextCount, lastAttemptAt := now), access);
      return true;
    }

    method Write(key: Key, row: Row, access: Access)
      modifies this
      ensures rows == if access.WriteFails? then old(rows) else old(rows)[key := row]
    {
      if !access.WriteFails? {
        rows := rows[key := row];
      }
    }

    /** The owner's unit is spent first, and stays spent when the recipient's bucket rejects. */
    method Consume(a: Attempt) returns (admitted: bool)
      modifies this
      ensures forall s: State | s.rows == old(rows) ::
                rows == Step(s, a).rows && (admitted <==> Step(s, a).mails == s.mails + [a])
    {
      ghost var before := rows;
      admitted := ConsumeBucket(OwnerKey(a.ownerId), OWNER_RULE, a.now, a.owner);
      if admitted {
        admitted := ConsumeBucket(RecipientKey(Normalize(a.email)), RECIPIENT_RULE, a.now, a.recipient);
      }
      ghost var bare := State(before, map[], []);
      assert rows == Step(bare, a).rows && (admitted <==> Step(bare, a).mails == bare.mails + [a]);
      forall s: State | s.rows == before
        ensures rows == Step(s, a).rows && (admitted <==> Step(s, a).mails == s.mails + [a])
      {
        RowsDecide(s, bare, a);
      }
    }
  }

  // ---- Runs ----

  /** `log` remembers when each bucket admitted a unit and recorded it, `mails` the attempts that led to a mail. */
  datatype State = State(rows: map<Key, Row>, log: map<Key, seq<int>>, mails: seq<Attempt>)

  function LogOf(s: State, key: Key): seq<int> {
    if key in s.log then s.log[key] else []
  }

  /** Spends one unit of `key`; the flag says whether it was admitted. */
  function Spend(s: State, key: Key, now: int, access: Access): (State, bool) {
    if access.ReadFails? then (s, true)
    else
      var o := ConsumeRow(RuleOf(key), Lookup(s.rows, key), now);
      if access.WriteFails? then (s, o.admitted)
      else
        var log := if o.admitted then s.log[key := LogOf(s, key) + [now]] else s.log;
        (State(s.rows[key := o.row], log, s.mails), o.admitted)
  }

  /** invite and reopen: both buckets are consumed before the mail goes out. */
  function Step(s: State, a: Attempt): State {
    var (s1, ownerOk) := Spend(s, OwnerKey(a.ownerId), a.now, a.owner);
    if !ownerOk then s1
    else
      var (s2, recipientOk) := Spend(s1, RecipientKey(Normalize(a.email)), a.now, a.recipient);
      if recipientOk then s2.(mails := s2.mails + [a]) else s2
  }

  /** Which units are admitted, and what becomes of the rows, depends on the rows alone. */
  lemma SpendDecided(s: State, t: State, key: Key, now: int, access: Access)
    requires s.rows == t.rows
    ensures
      var (s', admitted), (t', admitted') := Spend(s, key, now, access), Spend(t, key, now, access);
      admitted == admitted' && s'.rows == t'.rows && s'.mails == s.mails && t'.mails == t.mails
  {
  }

  lemma RowsDecide(s: State, t: State, a: Attempt)
    requires s.rows == t.rows
    ensures Step(s, a).rows == Step(t, a).rows
    ensures Step(s, a).mails == s.mails + [a] <==> Step(t, a).mails == t.mails + [a]
  {
    var ownerKey := OwnerKey(a.ownerId);
    SpendDecided(s, t, ownerKey, a.now, a.owner);
    SpendDecided(Spend(s, ownerKey, a.now, a.owner).0, Spend(t, ownerKey, a.now, a.owner).0,
                 RecipientKey(Normalize(a.email)), a.now, a.recipient);
  }

  function Run(attempts: seq<Attempt>): State {
    if attempts == [] then State(map[], map[], [])
    else Step(Run(attempts[..|attempts| - 1]), attempts[|attempts| - 1])
  }

  // ---- Counting ----

  /** How many entries lie in the closed interval [low, high]. */
  function CountIn(log: seq<int>, low: int, high: int): nat {
    if log == [] then 0
    else
      var last := log[|log| - 1];
      CountIn(log[..|log| - 1], low, high) + if low <= last <= high then 1 else 0
  }

  lemma CountAppend(log: seq<int>, t: int, low: int, high: int)
    ensures CountIn(log + [t], low, high) == CountIn(log, low, high) + if low <= t <= high then 1 else 0
  {
    assert (log + [t])[..|log|] == log;
  }

  lemma {:induction false} CountSplit(log: seq<int>, low: int, mid: int, high: int)
    requires low <= mid <= high + 1
    ensures CountIn(log, low, high) == CountIn(log, low, mid - 1) + CountIn(log, mid, high)
  {
    if log != [] {
      CountSplit(log[..|log| - 1], low, mid, high);
    }
  }

  lemma {:induction false} CountWider(log: seq<int>, low: int, high: int, low': int, high': int)
    requires low' <= low && high <= high'
    ensures CountIn(log, low, high) <= CountIn(log, low', high')
  {
    if log != [] {
      CountWider(log[..|log| - 1], low, high, low', high');
    }
  }

  lemma {:induction false} CountNone(log: seq<int>, low: int, high: int)
    requires forall t | t in log :: t < low || high < t
    ensures CountIn(log, low, high) == 0
  {
    if log != [] {
      var n := |log| - 1;
      assert log[n] in log && forall t | t in log[..n] :: t in log;
      CountNone(log[..n], low, high);
    }
  }

  // ---- One bucket ----

  /**
   * Everything in `log` happened up to `now`. The current window holds at most maxAttempts sends, one of
   * them at its start; the window length before it holds at most maxAttempts - 1.
   */
  ghost predicate BucketInv(rule: Rule, row: Option<Row>, log: seq<int>, now: int) {
    && (forall t | t in log :: t <= now)
    && (row.None? ==> log == [])
    && (row.Some? ==>
          var first := row.value.firstAttemptAt;
          && first <= now && first in log
          && (forall t | t in log :: t <= first + rule.window)
          && 1 <= CountIn(log, first, first)
          && CountIn(log, first, now) <= rule.maxAttempts
          && CountIn(log, first, now) <= row.value.attemptCount
          && CountIn(log, first - rule.window, first - 1) <= rule.maxAttempts - 1)
    && (forall low, high | high <= low + rule.window :: CountIn(log, low, high) <= 2 * rule.maxAttempts - 1)
  }

  lemma BucketLater(rule: Rule, row: Option<Row>, log: seq<int>, now: int, later: int)
    requires BucketInv(rule, row, log, now) && now <= later
    ensures BucketInv(rule, row, log, later)
  {
    if row.Some? {
      CountSplit(log, row.value.firstAttemptAt, now + 1, later);
      CountNone(log, now + 1, later);
    }
  }

  lemma BucketAdmitInWindow(rule: Rule, row: Row, log: seq<int>, now: int)
    requires rule.maxAttempts >= 1 && rule.window >= 0
    requires BucketInv(rule, Some(row), log, now)
    requires now <= row.firstAttemptAt + rule.window && row.attemptCount < rule.maxAttempts
    ensures BucketInv(rule, Some(row.(attemptCount := row.attemptCount + 1, lastAttemptAt := now)), log + [now], now)
  {
    var first, w := row.firstAttemptAt, rule.window;
    CountAppend(log, now, first, first);
    CountAppend(log, now, first, now);
    CountAppend(log, now, first - w, first - 1);
    forall low, high | high <= low + w
      ensures CountIn(log + [now], low, high) <= 2 * rule.maxAttempts - 1
    {
      CountAppend(log, now, low, high);
      if low <= now <= high {
        CountSplit(log, low, now + 1, high);
        CountNone(log, now + 1, high);
        CountWider(log, low, now, first - w, now);
        CountSplit(log, first - w, first, now);
      }
    }
  }

  lemma BucketRestart(rule: Rule, row: Row, log: seq<int>, now: int)
    requires rule.maxAttempts >= 1 && rule.window >= 0
    requires BucketInv(rule, Some(row), log, now)
    requires row.firstAttemptAt < now - rule.window
    ensures BucketInv(rule, Some(Row(1, now, now, None)), log + [now], now)
  {
    var first, w := row.firstAttemptAt, rule.window;
    CountSplit(log, first, first + 1, now);
    CountAppend(log, now, now, now);
    CountNone(log, now, now);
    CountAppend(log, now, now - w, now - 1);
    CountWider(log, now - w, now - 1, first + 1, now);
    forall low, high | high <= low + w
      ensures CountIn(log + [now], low, high) <= 2 * rule.maxAttempts - 1
    {
      CountAppend(log, now, low, high);
      if low <= now <= high {
        CountSplit(log, low, now + 1, high);
        CountNone(log, now + 1, high);
        CountWider(log, low, now, first + 1, now);
      }
    }
  }

  lemma BucketStart(rule: Rule, now: int)
    requires rule.maxAttempts >= 1 && rule.window >= 0
    ensures BucketInv(rule, Some(Row(1, now, now, None)), [now], now)
  {
    assert [now] == [] + [now];
    forall low, high
      ensures CountIn([now], low, high) == if low <= now <= high then 1 else 0
    {
      CountAppend([], now, low, high);
    }
  }

  lemma BucketStep(rule: Rule, row: Option<Row>, log: seq<int>, now: int)
    requires rule.maxAttempts >= 1 && rule.window >= 0
    requires BucketInv(rule, row, log, now)
    ensures
      var o := ConsumeRow(rule, row, now);
      BucketInv(rule, Some(o.row), if o.admitted then log + [now] else log, now)
  {
    if row.None? {
      BucketStart(rule, now);
      assert log + [now] == [now];
    } else if row.value.blockedUntil.Some? && row.value.blockedUntil.value > now {
    } else if row.value.firstAttemptAt < now - rule.window {
      BucketRestart(rule, row.value, log, now);
    } else if row.value.attemptCount < rule.maxAttempts {
      BucketAdmitInWindow(rule, row.value, log, now);
    }
  }

  // ---- All buckets, over a run ----

  ghost predicate StateInv(s: State, now: int) {
    && BucketsOk(s, now)
    && MailsCharged(s)
  }

  ghost predicate BucketsOk(s: State, now: int) {
    forall key :: BucketInv(RuleOf(key), Lookup(s.rows, key), LogOf(s, key), now)
  }

  /** Every mail charged to a bucket shows up in that bucket's log. */
  ghost predicate MailsCharged(s: State) {
    forall key, low, high :: CountMails(s.mails, key, low, high) <= CountIn(LogOf(s, key), low, high)
  }

  /** Whether the attempt is charged to `key`: the table could be read and written for it. */
  predicate Charges(a: Attempt, key: Key) {
    match key
    case OwnerKey(id) => a.ownerId == id && a.owner.Works?
    case RecipientKey(email) => Normalize(a.email) == email && a.recipient.Works?
  }

  /** How many mails charged to `key` went out in [low, high]. */
  function CountMails(mails: seq<Attempt>, key: Key, low: int, high: int): nat {
    if mails == [] then 0
    else
      var last := mails[|mails| - 1];
      CountMails(mails[..|mails| - 1], key, low, high)
      + if Charges(last, key) && low <= last.now <= high then 1 else 0
  }

  lemma CountMailsAppend(mails: seq<Attempt>, a: Attempt, key: Key, low: int, high: int)
    ensures CountMails(mails + [a], key, low, high)
            == CountMails(mails, key, low, high) + if Charges(a, key) && low <= a.now <= high then 1 else 0
  {
    assert (mails + [a])[..|mails|] == mails;
  }

  lemma BucketsLater(s: State, now: int, later: int)
    requires BucketsOk(s, now) && now <= later
    ensures BucketsOk(s, later)
  {
    forall key
      ensures BucketInv(RuleOf(key), Lookup(s.rows, key), LogOf(s, key), later)
    {
      BucketLater(RuleOf(key), Lookup(s.rows, key), LogOf(s, key), now, later);
    }
  }

  /** A spend extends only the log of its own bucket, and by `now` exactly when a recorded unit was admitted. */
  lemma SpendLog(s: State, key: Key, now: int, access: Access, k: Key)
    ensures
      var (s', admitted) := Spend(s, key, now, access);
      LogOf(s', k) == if k == key && admitted && access.Works? then LogOf(s, k) + [now] else LogOf(s, k)
  {
  }

  lemma SpendKeepsBuckets(s: State, key: Key, now: int, access: Access)
    requires BucketsOk(s, now)
    ensures BucketsOk(Spend(s, key, now, access).0, now)
  {
    var s' := Spend(s, key, now, access).0;
    forall k
      ensures BucketInv(RuleOf(k), Lookup(s'.rows, k), LogOf(s', k), now)
    {
      assert BucketInv(RuleOf(k), Lookup(s.rows, k), LogOf(s, k), now);
      if k == key {
        BucketStep(RuleOf(key), Lookup(s.rows, key), LogOf(s, key), now);
      }
    }
  }

  lemma {:induction false} StepKeepsBuckets(s: State, a: Attempt)
    requires BucketsOk(s, a.now)
    ensures BucketsOk(Step(s, a), a.now)
  {
    var (s1, ownerOk) := Spend(s, OwnerKey(a.ownerId), a.now, a.owner);
    SpendKeepsBuckets(s, OwnerKey(a.ownerId), a.now, a.owner);
    SpendKeepsBuckets(s1, RecipientKey(Normalize(a.email)), a.now, a.recipient);
  }

  lemma {:induction false} SpendCounts(s: State, key: Key, now: int, access: Access, k: Key, low: int, high: int)
    ensures
      var (s', admitted) := Spend(s, key, now, access);
      && s'.mails == s.mails
      && CountIn(LogOf(s', k), low, high)
         == CountIn(LogOf(s, k), low, high) + if k == key && admitted && access.Works? && low <= now <= high then 1 else 0
  {
    SpendLog(s, key, now, access, k);
    CountAppend(LogOf(s, k), now, low, high);
  }

  lemma {:induction false} StepCounts(s: State, a: Attempt, key: Key, low: int, high: int)
    requires CountMails(s.mails, key, low, high) <= CountIn(LogOf(s, key), low, high)
    ensures CountMails(Step(s, a).mails, key, low, high) <= CountIn(LogOf(Step(s, a), key), low, high)
  {
    var ownerKey, recipientKey := OwnerKey(a.ownerId), RecipientKey(Normalize(a.email));
    var (s1, ownerOk) := Spend(s, ownerKey, a.now, a.owner);
    SpendCounts(s, ownerKey, a.now, a.owner, key, low, high);
    SpendCounts(s1, recipientKey, a.now, a.recipient, key, low, high);
    CountMailsAppend(s.mails, a, key, low, high);
  }

  lemma {:induction false} StepKeepsMails(s: State, a: Attempt)
    requires MailsCharged(s)
    ensures MailsCharged(Step(s, a))
  {
    forall key, low, high
      ensures CountMails(Step(s, a).mails, key, low, high) <= CountIn(LogOf(Step(s, a), key), low, high)
    {
      assert CountMails(s.mails, key, low, high) <= CountIn(LogOf(s, key), low, high);
      StepCounts(s, a, key, low, high);
    }
  }

  ghost predicate Chronological(attempts: seq<Attempt>) {
    forall i, j | 0 <= i <= j < |attempts| :: attempts[i].now <= attempts[j].now
  }

  lemma {:induction false} RunKeepsInv(attempts: seq<Attempt>, now: int)
    requires Chronological(attempts) && (forall a | a in attempts :: a.now <= now)
    ensures StateInv(Run(attempts), now)
  {
    if attempts != [] {
      var n := |attempts| - 1;
      var s, a := Run(attempts[..n]), attempts[n];
      RunKeepsInv(attempts[..n], a.now);
      StepKeepsBuckets(s, a);
      StepKeepsMails(s, a);
      BucketsLater(Step(s, a), a.now, now);
    }
  }

  /**
   * Over any run with non-decreasing clock, in any closed interval of one window, at most
   * 2 * maxAttempts - 1 mails are charged to one bucket: 19 for an owner, 5 for a recipient.
   */
  lemma SlidingWindowBound(attempts: seq<Attempt>, key: Key, t: int)
    requires Chronological(attempts)
    ensures CountMails(Run(attempts).mails, key, t, t + RuleOf(key).window) <= 2 * RuleOf(key).maxAttempts - 1
    ensures key.OwnerKey? ==> CountMails(Run(attempts).mails, key, t, t + 60 * MINUTE) <= 19
    ensures key.RecipientKey? ==> CountMails(Run(attempts).mails, key, t, t + 60 * MINUTE) <= 5
  {
    var now := if attempts == [] then 0 else attempts[|attempts| - 1].now;
    RunKeepsInv(attempts, now);
    var s := Run(attempts);
    assert BucketInv(RuleOf(key), Lookup(s.rows, key), LogOf(s, key), now);
    assert CountMails(s.mails, key, t, t + RuleOf(key).window) <= CountIn(LogOf(s, key), t, t + RuleOf(key).window);
  }

  /** Both buckets of the pair stand at `row`, and the recipient was charged `charged` mails in [low, high]. */
  ghost predicate PairAt(
      attempts: seq<Attempt>, ownerId: string, email: string, row: Option<Row>, low: int, high: int, charged: nat)
  {
    var s := Run(attempts);
    && Chronological(attempts)
    && Lookup(s.rows, OwnerKey(ownerId)) == Lookup(s.rows, RecipientKey(Normalize(email))) == row
    && CountMails(s.mails, RecipientKey(Normalize(email)), low, high) == charged
  }

  lemma StepAdmitted(s: State, a: Attempt, row: Option<Row>)
    requires a.owner.Works? && a.recipient.Works?
    requires Lookup(s.rows, OwnerKey(a.ownerId)) == Lookup(s.rows, RecipientKey(Normalize(a.email))) == row
    requires ConsumeRow(OWNER_RULE, row, a.now).admitted && ConsumeRow(RECIPIENT_RULE, row, a.now).admitted
    ensures Step(s, a).mails == s.mails + [a]
    ensures Lookup(Step(s, a).rows, OwnerKey(a.ownerId)) == Some(ConsumeRow(OWNER_RULE, row, a.now).row)
    ensures Lookup(Step(s, a).rows, RecipientKey(Normalize(a.email))) == Some(ConsumeRow(OWNER_RULE, row, a.now).row)
  {
  }

  lemma ChronologicalSnoc(attempts: seq<Attempt>, a: Attempt)
    requires Chronological(attempts) && forall b | b in attempts :: b.now <= a.now
    ensures Chronological(attempts + [a]) && forall b | b in attempts + [a] :: b.now <= a.now
  {
    var longer := attempts + [a];
    forall i, j | 0 <= i <= j < |longer|
      ensures longer[i].now <= longer[j].now
    {
      assert i < |attempts| ==> attempts[i] in attempts;
    }
  }

  /** One more attempt that both buckets admit. */
  lemma AdmittedByBoth(
      attempts: seq<Attempt>, ownerId: string, email: string, row: Option<Row>, low: int, high: int,
      charged: nat, now: int)
    returns (longer: seq<Attempt>)
    requires PairAt(attempts, ownerId, email, row, low, high, charged)
    requires forall a | a in attempts :: a.now <= now
    requires ConsumeRow(OWNER_RULE, row, now).admitted && ConsumeRow(RECIPIENT_RULE, row, now).admitted
    ensures forall a | a in longer :: a.now <= now
    ensures PairAt(longer, ownerId, email, Some(ConsumeRow(OWNER_RULE, row, now).row), low, high,
                   charged + if low <= now <= high then 1 else 0)
  {
    var a := Attempt(ownerId, email, now, Works, Works);
    longer := attempts + [a];
    assert Run(longer) == Step(Run(attempts), a) by {
      assert longer[..|attempts|] == attempts;
    }
    ChronologicalSnoc(attempts, a);
    StepAdmitted(Run(attempts), a, row);
    CountMailsAppend(Run(attempts).mails, a, RecipientKey(Normalize(email)), low, high);
  }

  /** The recipient bound is reached: one mail at 0, two at the end of its window and three just after it. */
  lemma RecipientBoundIsReached(ownerId: string, email: string) returns (attempts: seq<Attempt>)
    ensures Chronological(attempts)
    ensures CountMails(Run(attempts).mails, RecipientKey(Normalize(email)), 1, 1 + 60 * MINUTE) == 5
  {
    var hour := 60 * MINUTE;
    var high := hour + 1;
    attempts := AdmittedByBoth([], ownerId, email, None, 1, high, 0, 0);
    attempts := AdmittedByBoth(attempts, ownerId, email, Some(Row(1, 0, 0, None)), 1, high, 0, hour);
    attempts := AdmittedByBoth(attempts, ownerId, email, Some(Row(2, 0, hour, None)), 1, high, 1, hour);
    attempts := AdmittedByBoth(attempts, ownerId, email, Some(Row(3, 0, hour, None)), 1, high, 2, high);
    attempts := AdmittedByBoth(attempts, ownerId, email, Some(Row(1, high, high, None)), 1, high, 3, high);
    attempts := AdmittedByBoth(attempts, ownerId, email, Some(Row(2, high, high, None)), 1, high, 4, high);
  }

  // ---- The block ----

  /** The attempt that exceeds the limit is refused and starts a block of the rule's length. */
  lemma ExcessBlocks(rule: Rule, row: Row, now: int)
    requires row.blockedUntil.None? || row.blockedUntil.value <= now
    requires now <= row.firstAttemptAt + rule.window && row.attemptCount >= rule.maxAttempts
    ensures
      var o := ConsumeRow(rule, Some(row), now);
      !o.admitted && o.row.blockedUntil == Some(now + rule.block) && o.row.firstAttemptAt == row.firstAttemptAt
  {
  }

  predicate BlockedUntil(s: State, key: Key, until: int) {
    key in s.rows && s.rows[key].blockedUntil == Some(until)
  }

  lemma SpendBlocked(s: State, key: Key, now: int, access: Access, k: Key, until: int)
    requires BlockedUntil(s, k, until) && now < until
    ensures BlockedUntil(Spend(s, key, now, access).0, k, until)
    ensures key == k && !access.ReadFails? ==> !Spend(s, key, now, access).1
  {
  }

  lemma StepBlocked(s: State, a: Attempt, k: Key, until: int)
    requires BlockedUntil(s, k, until) && a.now < until
    ensures BlockedUntil(Step(s, a), k, until)
    ensures Charges(a, k) ==> Step(s, a).mails == s.mails
  {
    var s1 := Spend(s, OwnerKey(a.ownerId), a.now, a.owner).0;
    SpendBlocked(s, OwnerKey(a.ownerId), a.now, a.owner, k, until);
    SpendBlocked(s1, RecipientKey(Normalize(a.email)), a.now, a.recipient, k, until);
  }

  lemma BlockedStep(s: State, a: Attempt, key: Key, until: int, low: int, high: int)
    requires BlockedUntil(s, key, until) && a.now < until
    ensures BlockedUntil(Step(s, a), key, until)
    ensures CountMails(Step(s, a).mails, key, low, high) == CountMails(s.mails, key, low, high)
  {
    StepBlocked(s, a, key, until);
    CountMailsAppend(s.mails, a, key, low, high);
  }

  lemma BlockedNext(attempts: seq<Attempt>, init: seq<Attempt>, a: Attempt, key: Key, until: int, low: int, high: int)
    requires attempts == init + [a] && BlockedUntil(Run(init), key, until) && a.now < until
    ensures BlockedUntil(Run(attempts), key, until)
    ensures CountMails(Run(attempts).mails, key, low, high) == CountMails(Run(init).mails, key, low, high)
  {
    assert attempts[..|attempts| - 1] == init;
    BlockedStep(Run(init), a, key, until, low, high);
  }

  /** Until the block of a bucket ends no mail is charged to it, whatever is attempted. */
  lemma {:induction false} BlockHolds(attempts: seq<Attempt>, more: seq<Attempt>, key: Key, until: int, low: int, high: int)
    requires BlockedUntil(Run(attempts), key, until) && forall a | a in more :: a.now < until
    ensures BlockedUntil(Run(attempts + more), key, until)
    ensures CountMails(Run(attempts + more).mails, key, low, high) == CountMails(Run(attempts).mails, key, low, high)
  {
    if more == [] {
      assert attempts + more == attempts;
    } else {
      var init, last := more[..|more| - 1], more[|more| - 1];
      BlockHolds(attempts, init, key, until, low, high);
      assert attempts + more == (attempts + init) + [last];
      BlockedNext(attempts + more, attempts + init, last, key, until, low, high);
    }
  }

  // ---- The owner's bound is reached ----

  ghost predicate Apart(emails: seq<string>) {
    forall i, j | 0 <= i < j < |emails| :: Normalize(emails[i]) != Normalize(emails[j])
  }

  /** The owner's bucket stands at `row`, was charged `charged` mails in [low, high], and nobody from the `n`-th on was written to. */
  ghost predicate OwnerAt(
      attempts: seq<Attempt>, ownerId: string, emails: seq<string>, n: nat, row: Option<Row>, low: int, high: int,
      charged: nat)
  {
    var s := Run(attempts);
    && Chronological(attempts)
    && Lookup(s.rows, OwnerKey(ownerId)) == row
    && (forall i | n <= i < |emails| :: RecipientKey(Normalize(emails[i])) !in s.rows)
    && CountMails(s.mails, OwnerKey(ownerId), low, high) == charged
  }

  /** One mail to the next address. */
  lemma OwnerSend(
      attempts: seq<Attempt>, ownerId: string, emails: seq<string>, n: nat, row: Option<Row>, low: int, high: int,
      charged: nat, now: int)
    returns (longer: seq<Attempt>)
    requires Apart(emails) && n < |emails| && OwnerAt(attempts, ownerId, emails, n, row, low, high, charged)
    requires (forall a | a in attempts :: a.now <= now) && ConsumeRow(OWNER_RULE, row, now).admitted
    ensures forall a | a in longer :: a.now <= now
    ensures OwnerAt(longer, ownerId, emails, n + 1, Some(ConsumeRow(OWNER_RULE, row, now).row), low, high,
                    charged + if low <= now <= high then 1 else 0)
  {
    var a := Attempt(ownerId, emails[n], now, Works, Works);
    longer := attempts + [a];
    assert Run(longer) == Step(Run(attempts), a) by {
      assert longer[..|attempts|] == attempts;
    }
    ChronologicalSnoc(attempts, a);
    CountMailsAppend(Run(attempts).mails, a, OwnerKey(ownerId), low, high);
  }

  /** Several mails at once, within a window that has room for them. */
  lemma {:induction false} OwnerSends(
      attempts: seq<Attempt>, ownerId: string, emails: seq<string>, n: nat, row: Row, low: int, high: int,
      charged: nat, now: int, count: nat)
    returns (longer: seq<Attempt>)
    requires Apart(emails) && n + count <= |emails| && OwnerAt(attempts, ownerId, emails, n, Some(row), low, high, charged)
    requires (forall a | a in attempts :: a.now <= now) && row.blockedUntil.None?
    requires now <= row.firstAttemptAt + 60 * MINUTE && row.attemptCount + count <= 10 && low <= now <= high
    ensures forall a | a in longer :: a.now <= now
    ensures OwnerAt(longer, ownerId, emails, n + count,
                    Some(row.(attemptCount := row.attemptCount + count, lastAttemptAt := if count == 0 then row.lastAttemptAt else now)),
                    low, high, charged + count)
    decreases count
  {
    if count == 0 {
      longer := attempts;
    } else {
      var once := OwnerSend(attempts, ownerId, emails, n, Some(row), low, high, charged, now);
      var next := ConsumeRow(OWNER_RULE, Some(row), now).row;
      longer := OwnerSends(once, ownerId, emails, n + 1, next, low, high, charged + 1, now, count - 1);
    }
  }

  /** One mail at 0, nine at the end of its window and ten just after it, to twenty addresses. */
  lemma OwnerBoundIsReached(ownerId: string, emails: seq<string>) returns (attempts: seq<Attempt>)
    requires |emails| == 20 && Apart(emails)
    ensures Chronological(attempts)
    ensures CountMails(Run(attempts).mails, OwnerKey(ownerId), 1, 1 + 60 * MINUTE) == 19
  {
    var hour := 60 * MINUTE;
    var high := hour + 1;
    attempts := OwnerSend([], ownerId, emails, 0, None, 1, high, 0, 0);
    attempts := OwnerSends(attempts, ownerId, emails, 1, Row(1, 0, 0, None), 1, high, 0, hour, 9);
    attempts := OwnerSend(attempts, ownerId, emails, 10, Some(Row(10, 0, hour, None)), 1, high, 9, high);
    attempts := OwnerSends(attempts, ownerId, emails, 11, Row(1, high, high, None), 1, high, 10, high, 9);
  }
}
