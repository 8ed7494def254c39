/**
 * Invitations to an account: inviting, reopening, revoking, and an acceptance that reads the row, checks it, and
 * then updates it under a condition. Other calls may run between the reading and the update.
 */
module Invitations {
  import opened Wrappers
  import opened Text

  const MAX_ACTIVE_MEMBERS := 20
  const INVITATION_TTL := 7 * 24 * 60 * 60 * 1000

  datatype Status = Pending | Active | Revoked | Expired

  datatype Issue = Issue(token: nat, expiresAt: int)

  /** An acceptance under way: what it read, and when. `late` when it found the invitation expired. */
  datatype Ticket = Ticket(row: nat, actor: string, email: string, issue: nat, readAt: int, late: bool)

  /**
   * `issued` is the history of the token and expiry columns, the last one being their current value; `via` is the
   * acceptance that last activated the row.
   */
  datatype Row = Row(
    owner: string, email: string, status: Status, member: Option<string>, issued: seq<Issue>, via: Option<Ticket>)

  /** Tokens are numbered in the order they are drawn; `inFlight` holds the acceptances that have read a row. */
  datatype State = State(rows: seq<Row>, nextToken: nat, inFlight: seq<Ticket>)

  datatype Error =
    | SelfInvite | NotAllowed | Throttled | TeamFull | AlreadyLive | NotFound | AlreadyActive
    | UsedByAnother | AccessRevoked | InvitationExpired | WrongEmail | AlreadyMember | AlreadyAccepted | DatabaseError

  predicate IsLive(r: Row) {
    r.status == Pending || r.status == Active
  }

  function Current(r: Row): Issue {
    if r.issued == [] then Issue(0, 0) else r.issued[|r.issued| - 1]
  }

  function WithStatus(r: Row, status: Status): Row {
    r.(status := status)
  }

  /** Live rows of an owner, not counting row `except`. */
  function LiveCount(rows: seq<Row>, owner: string, except: Option<nat>): nat {
    if rows == [] then 0
    else
      var n := |rows| - 1;
      LiveCount(rows[..n], owner, except)
      + if rows[n].owner == owner && IsLive(rows[n]) && except != Some(n) then 1 else 0
  }

  /** The unique index over live rows refuses this owner and address, row `except` aside. */
  predicate LiveTaken(rows: seq<Row>, owner: string, email: string, except: Option<nat>) {
    exists i | 0 <= i < |rows| ::
      rows[i].owner == owner && Lower(rows[i].email) == Lower(email) && IsLive(rows[i]) && except != Some(i)
  }

  predicate ActiveMember(rows: seq<Row>, owner: string, member: string) {
    exists i | 0 <= i < |rows| :: rows[i].owner == owner && rows[i].member == Some(member) && rows[i].status == Active
  }

  function ExpireStale(rows: seq<Row>, owner: string, now: int): (r: seq<Row>)
    ensures |r| == |rows|
  {
    seq(|rows|, i requires 0 <= i < |rows| =>
      if rows[i].owner == owner && rows[i].status == Pending && Current(rows[i]).expiresAt < now
      then WithStatus(rows[i], Expired) else rows[i])
  }

  // ---- The service calls ----

  function Invite(
      s: State, actor: string, actorEmail: string, dtoEmail: string, allowed: bool, throttled: bool, now: int)
    : (State, Result<nat, Error>)
  {
    var email := Normalize(dtoEmail);
    if email == Normalize(actorEmail) then (s, Err(SelfInvite))
    else if !allowed then (s, Err(NotAllowed))
    else if throttled then (s, Err(Throttled))
    else
      var rows := ExpireStale(s.rows, actor, now);
      if LiveCount(rows, actor, None) >= MAX_ACTIVE_MEMBERS then (s.(rows := rows), Err(TeamFull))
      else if LiveTaken(rows, actor, email, None) then (s.(rows := rows), Err(AlreadyLive))
      else
        var row := Row(actor, email, Pending, None, [Issue(s.nextToken, now + INVITATION_TTL)], None);
        (State(rows + [row], s.nextToken + 1, s.inFlight), Ok(|rows|))
  }

  predicate Owns(s: State, owner: string, id: nat) {
    id < |s.rows| && s.rows[id].owner == owner
  }

  function Revoke(s: State, owner: string, id: nat): (State, Result<nat, Error>) {
    if !Owns(s, owner, id) then (s, Err(NotFound))
    else (s.(rows := s.rows[id := WithStatus(s.rows[id], Revoked)]), Ok(id))
  }

  function Reopened(r: Row, token: nat, now: int): Row {
    r.(status := Pending, issued := r.issued + [Issue(token, now + INVITATION_TTL)])
  }

  function Reopen(s: State, owner: string, id: nat, allowed: bool, throttled: bool, now: int): (State, Result<nat, Error>) {
    if !Owns(s, owner, id) then (s, Err(NotFound))
    else if s.rows[id].status == Active then (s, Err(AlreadyActive))
    else if !allowed then (s, Err(NotAllowed))
    else if throttled then (s, Err(Throttled))
    else if LiveCount(s.rows, owner, Some(id)) >= MAX_ACTIVE_MEMBERS then (s, Err(TeamFull))
    else if LiveTaken(s.rows, owner, s.rows[id].email, Some(id)) then (s, Err(AlreadyLive))
    else (State(s.rows[id := Reopened(s.rows[id], s.nextToken, now)], s.nextToken + 1, s.inFlight), Ok(id))
  }

  function FindByToken(rows: seq<Row>, token: nat): Option<nat> {
    if rows == [] then None
    else
      var n := |rows| - 1;
      if rows[n].issued != [] && Current(rows[n]).token == token then Some(n) else FindByToken(rows[..n], token)
  }

  datatype Reading = Refused(error: Error) | AlreadyIn | Claimed(ticket: Ticket)

  /** The first half of an acceptance: everything up to the update. */
  function Read(s: State, actor: string, actorEmail: string, token: nat, now: int): Reading {
    var found := FindByToken(s.rows, token);
    if found.None? then Refused(NotFound)
    else if found.value >= |s.rows| then Refused(NotFound)
    else
      var row := s.rows[found.value];
      if row.status == Active then (if row.member == Some(actor) then AlreadyIn else Refused(UsedByAnother))
      else if row.status == Revoked then Refused(AccessRevoked)
      else if row.status == Expired then Refused(InvitationExpired)
      else
        var ticket := Ticket(found.value, actor, actorEmail, if row.issued == [] then 0 else |row.issued| - 1, now, false);
        if Current(row).expiresAt < now then Claimed(ticket.(late := true))
        else if Normalize(row.email) != Normalize(actorEmail) then Refused(WrongEmail)
        else if ActiveMember(s.rows, row.owner, actor) then Refused(AlreadyMember)
        else Claimed(ticket)
  }

  function AcceptRead(s: State, actor: string, actorEmail: string, token: nat, now: int): State {
    var reading := Read(s, actor, actorEmail, token, now);
    if reading.Claimed? then s.(inFlight := s.inFlight + [reading.ticket]) else s
  }

  /** The database lets this actor become an active member of the owner. */
  predicate Admissible(rows: seq<Row>, t: Ticket)
    requires t.row < |rows|
  {
    rows[t.row].owner != t.actor && !ActiveMember(rows, rows[t.row].owner, t.actor)
  }

  /** The second half. Only a pending row is activated; an invitation found expired is marked so unconditionally. */
  function AcceptWrite(rows: seq<Row>, t: Ticket): (seq<Row>, Result<nat, Error>)
    requires t.row < |rows|
  {
    var row := rows[t.row];
    if t.late then (rows[t.row := WithStatus(row, Expired)], Err(InvitationExpired))
    else if row.status != Pending then (rows, Err(AlreadyAccepted))
    else if !Admissible(rows, t) then (rows, Err(DatabaseError))
    else (rows[t.row := row.(member := Some(t.actor), status := Active, via := Some(t))], Ok(t.row))
  }

  // ---- Invariant ----

  ghost predicate TokensDistinct(rows: seq<Row>, nextToken: nat) {
    && (forall i, a | 0 <= i < |rows| && 0 <= a < |rows[i].issued| :: rows[i].issued[a].token < nextToken)
    && (forall i, a, j, b | 0 <= i < |rows| && 0 <= a < |rows[i].issued| && 0 <= j < |rows| && 0 <= b < |rows[j].issued|
                            && rows[i].issued[a].token == rows[j].issued[b].token :: i == j && a == b)
  }

  /** Read from a row that was pending, unexpired and addressed to the actor, with the token that was then current. */
  ghost predicate Earned(rows: seq<Row>, t: Ticket) {
    && t.row < |rows| && t.issue < |rows[t.row].issued|
    && (!t.late ==> && t.readAt <= rows[t.row].issued[t.issue].expiresAt
                    && Normalize(t.email) == Normalize(rows[t.row].email))
  }

  ghost predicate ActiveEarned(rows: seq<Row>) {
    forall i | 0 <= i < |rows| && rows[i].status == Active ::
      && rows[i].via.Some? && Earned(rows, rows[i].via.value) && !rows[i].via.value.late
      && rows[i].via.value.row == i && rows[i].member == Some(rows[i].via.value.actor)
  }

  /** Two rows the index over live addresses keeps apart. */
  predicate Rivals(a: Row, b: Row) {
    IsLive(a) && IsLive(b) && a.owner == b.owner && Lower(a.email) == Lower(b.email)
  }

  /** Two rows the index over active members keeps apart. */
  predicate Twins(a: Row, b: Row) {
    a.status == Active && b.status == Active && a.owner == b.owner && a.member == b.member
  }

  /** The two unique indexes. */
  ghost predicate Unique(rows: seq<Row>) {
    forall i, j | 0 <= i < |rows| && 0 <= j < |rows| && i != j :: !Rivals(rows[i], rows[j]) && !Twins(rows[i], rows[j])
  }

  ghost predicate WithinTeam(rows: seq<Row>) {
    forall owner :: LiveCount(rows, owner, None) <= MAX_ACTIVE_MEMBERS
  }

  ghost predicate Inv(s: State) {
    && (forall i | 0 <= i < |s.rows| :: s.rows[i].issued != [])
    && TokensDistinct(s.rows, s.nextToken)
    && ActiveEarned(s.rows) && (forall t | t in s.inFlight :: Earned(s.rows, t))
    && Unique(s.rows) && WithinTeam(s.rows)
  }

  // ---- Steps ----

  datatype Op =
    | InviteOp(actor: string, actorEmail: string, dtoEmail: string, allowed: bool, throttled: bool, now: int)
    | ListOp(owner: string, now: int)
    | RevokeOp(owner: string, id: nat)
    | ReopenOp(owner: string, id: nat, allowed: bool, throttled: bool, now: int)
    | ReadOp(actor: string, email: string, token: nat, now: int)
    | WriteOp(request: nat)

  /** A request writes what it read. */
  function Step(s: State, op: Op): State {
    match op
    case InviteOp(actor, actorEmail, dtoEmail, allowed, throttled, now) =>
      Invite(s, actor, actorEmail, dtoEmail, allowed, throttled, now).0
    case ListOp(owner, now) => s.(rows := ExpireStale(s.rows, owner, now))
    case RevokeOp(owner, id) => Revoke(s, owner, id).0
    case ReopenOp(owner, id, allowed, throttled, now) => Reopen(s, owner, id, allowed, throttled, now).0
    case ReadOp(actor, email, token, now) => AcceptRead(s, actor, email, token, now)
    case WriteOp(request) =>
      if request < |s.inFlight| && s.inFlight[request].row < |s.rows|
      then s.(rows := AcceptWrite(s.rows, s.inFlight[request]).0) else s
  }

  /** `now` is what `was` became: the address and owner stay, and tokens are only added. */
  predicate Follows(was: Row, now: Row) {
    now.owner == was.owner && now.email == was.email && was.issued <= now.issued
  }

  ghost predicate Grows(a: seq<Row>, b: seq<Row>) {
    |a| <= |b| && forall i | 0 <= i < |a| :: Follows(a[i], b[i])
  }

  /** Nothing of the history is lost. */
  ghost predicate Grown(s: State, s': State) {
    Grows(s.rows, s'.rows) && s.inFlight <= s'.inFlight && s.nextToken <= s'.nextToken
  }

  ghost predicate Advances(s: State, s': State) {
    Inv(s') && Grown(s, s')
  }

  lemma GrownTransitive(a: State, b: State, c: State)
    requires Grown(a, b) && Grown(b, c)
    ensures Grown(a, c)
  {
    forall i | 0 <= i < |a.rows|
      ensures Follows(a.rows[i], c.rows[i])
    {
      assert Follows(a.rows[i], b.rows[i]) && Follows(b.rows[i], c.rows[i]);
    }
  }

  lemma GrowsKeepsEarned(a: seq<Row>, b: seq<Row>, t: Ticket)
    requires Grows(a, b) && Earned(a, t)
    ensures Earned(b, t)
  {
    assert Follows(a[t.row], b[t.row]);
  }

  /** Listing expires exactly the owner's pending invitations whose time is over, and touches nothing else. */
  lemma ExpiredIff(rows: seq<Row>, owner: string, now: int, i: nat)
    requires i < |rows|
    ensures
      var r, r' := rows[i], ExpireStale(rows, owner, now)[i];
      if r.owner == owner && r.status == Pending && r.issued != [] && r.issued[|r.issued| - 1].expiresAt < now
      then r' == Row(r.owner, r.email, Expired, r.member, r.issued, r.via)
      else r.issued != [] ==> r' == r
  {
  }

  /** The rows of the owner that are pending or active, row `except` aside. */
  function LiveOf(rows: seq<Row>, owner: string, except: Option<nat>): set<nat> {
    set i: nat | i < |rows| && rows[i].owner == owner && rows[i].status in {Pending, Active} && except != Some(i)
  }

  lemma LiveOfLast(rows: seq<Row>, owner: string, except: Option<nat>, n: nat)
    requires |rows| == n + 1
    ensures
      var earlier := LiveOf(rows[..n], owner, except);
      && n !in earlier
      && LiveOf(rows, owner, except)
         == if rows[n].owner == owner && IsLive(rows[n]) && except != Some(n) then earlier + {n} else earlier
  {
  }

  lemma {:induction false} LiveCountIs(rows: seq<Row>, owner: string, except: Option<nat>)
    ensures LiveCount(rows, owner, except) == |LiveOf(rows, owner, except)|
  {
    if rows == [] {
      assert LiveOf(rows, owner, except) == {};
    } else {
      var n: nat := |rows| - 1;
      LiveOfLast(rows, owner, except, n);
      var earlier := LiveOf(rows[..n], owner, except);
      LiveCountIs(rows[..n], owner, except);
      assert |earlier + {n}| == |earlier| + 1;
    }
  }

  /** Some such row is addressed to this email, in whatever letters. */
  predicate Addressed(rows: seq<Row>, owner: string, email: string, except: Option<nat>) {
    exists i :: i in LiveOf(rows, owner, except) && Lower(rows[i].email) == Lower(email)
  }

  lemma AddressedIff(rows: seq<Row>, owner: string, email: string, except: Option<nat>)
    ensures LiveTaken(rows, owner, email, except) <==> Addressed(rows, owner, email, except)
  {
    if LiveTaken(rows, owner, email, except) {
      var i :| 0 <= i < |rows| && rows[i].owner == owner && Lower(rows[i].email) == Lower(email) && IsLive(rows[i])
               && except != Some(i);
      assert i in LiveOf(rows, owner, except);
    }
  }

  /**
   * An invitation is for another address than the owner's own, for an owner who may invite and is not throttled, and
   * while fewer than twenty rows are live and none of them has the address; it runs for seven days. What has expired is
   * marked first, whenever the call gets that far.
   */
  lemma InviteIs(s: State, actor: string, actorEmail: string, dtoEmail: string, allowed: bool, throttled: bool, now: int)
    ensures
      var (s', r) := Invite(s, actor, actorEmail, dtoEmail, allowed, throttled, now);
      var email, rows := Lower(Trim(dtoEmail)), ExpireStale(s.rows, actor, now);
      && s'.inFlight == s.inFlight
      && (r == Err(SelfInvite) <==> email == Lower(Trim(actorEmail)))
      && (r == Err(NotAllowed) <==> email != Lower(Trim(actorEmail)) && !allowed)
      && (r == Err(Throttled) <==> email != Lower(Trim(actorEmail)) && allowed && throttled)
      && (email == Lower(Trim(actorEmail)) || !allowed || throttled ==> s' == s)
      && (email != Lower(Trim(actorEmail)) && allowed && !throttled ==>
            && (r == Err(TeamFull) <==> |LiveOf(rows, actor, None)| >= 20)
            && (r == Err(AlreadyLive) <==> |LiveOf(rows, actor, None)| < 20 && Addressed(rows, actor, email, None))
            && (r.Err? ==> s' == s.(rows := rows))
            && (r.Ok? ==>
                  && r.value == |s.rows| && s'.nextToken == s.nextToken + 1
                  && s'.rows == rows + [Row(actor, email, Pending, None, [Issue(s.nextToken, now + 604_800_000)], None)]))
  {
    var rows := ExpireStale(s.rows, actor, now);
    LiveCountIs(rows, actor, None);
    AddressedIff(rows, actor, Normalize(dtoEmail), None);
  }

  /** Only the owner revokes, and only the status changes. */
  lemma RevokeIs(s: State, owner: string, id: nat)
    ensures
      var (s', r) := Revoke(s, owner, id);
      if id < |s.rows| && s.rows[id].owner == owner
      then r == Ok(id) && s' == s.(rows := s.rows[id := s.rows[id].(status := Revoked)])
      else r == Err(NotFound) && s' == s
  {
  }

  /** Only the owner reopens, under the same limits and not while the row is active; a new token runs for seven days. */
  lemma ReopenIs(s: State, owner: string, id: nat, allowed: bool, throttled: bool, now: int)
    requires id < |s.rows| && s.rows[id].owner == owner
    ensures
      var (s', r) := Reopen(s, owner, id, allowed, throttled, now);
      var row := s.rows[id];
      && (r == Err(AlreadyActive) <==> row.status == Active)
      && (r == Err(NotAllowed) <==> row.status != Active && !allowed)
      && (r == Err(Throttled) <==> row.status != Active && allowed && throttled)
      && (row.status != Active && allowed && !throttled ==>
            && (r == Err(TeamFull) <==> |LiveOf(s.rows, owner, Some(id))| >= 20)
            && (r == Err(AlreadyLive) <==>
                  |LiveOf(s.rows, owner, Some(id))| < 20 && Addressed(s.rows, owner, row.email, Some(id))))
      && (r.Err? ==> s' == s)
      && (r.Ok? ==>
            && r.value == id && s'.nextToken == s.nextToken + 1 && s'.inFlight == s.inFlight
            && s'.rows == s.rows[id := row.(status := Pending,
                                            issued := row.issued + [Issue(s.nextToken, now + 604_800_000)])])
  {
    LiveCountIs(s.rows, owner, Some(id));
    AddressedIff(s.rows, owner, s.rows[id].email, Some(id));
  }

  lemma ReopenIsOwn(s: State, owner: string, id: nat, allowed: bool, throttled: bool, now: int)
    requires id >= |s.rows| || s.rows[id].owner != owner
    ensures Reopen(s, owner, id, allowed, throttled, now) == (s, Err(NotFound))
  {
  }

  lemma {:induction false} LiveCountMonotone(a: seq<Row>, b: seq<Row>, owner: string, except: Option<nat>)
    requires |a| == |b|
    requires forall i | 0 <= i < |a| :: b[i].owner == a[i].owner && (IsLive(b[i]) && except != Some(i) ==> IsLive(a[i]))
    ensures LiveCount(b, owner, except) <= LiveCount(a, owner, except)
  {
    if a != [] {
      var n := |a| - 1;
      LiveCountMonotone(a[..n], b[..n], owner, except);
    }
  }

  lemma {:induction false} LiveCountExcept(rows: seq<Row>, owner: string, id: nat)
    ensures LiveCount(rows, owner, None)
         == LiveCount(rows, owner, Some(id)) + if id < |rows| && rows[id].owner == owner && IsLive(rows[id]) then 1 else 0
  {
    if rows != [] {
      LiveCountExcept(rows[..|rows| - 1], owner, id);
    }
  }

  /** Rows that lose life, or keep it, stay within the indexes and the team size. */
  lemma QuietUpdate(a: seq<Row>, b: seq<Row>)
    requires |b| == |a| && Unique(a) && WithinTeam(a)
    requires forall i | 0 <= i < |a| ::
               && b[i].owner == a[i].owner && b[i].email == a[i].email && (IsLive(b[i]) ==> IsLive(a[i]))
               && (b[i].status == Active ==> a[i].status == Active && b[i].member == a[i].member)
    ensures Unique(b) && WithinTeam(b)
  {
    forall owner
      ensures LiveCount(b, owner, None) <= MAX_ACTIVE_MEMBERS
    {
      LiveCountMonotone(a, b, owner, None);
      assert LiveCount(a, owner, None) <= MAX_ACTIVE_MEMBERS;
    }
  }

  lemma {:induction false} ExpireKeepsInv(s: State, owner: string, now: int)
    requires Inv(s)
    ensures Advances(s, s.(rows := ExpireStale(s.rows, owner, now)))
  {
    var rows := ExpireStale(s.rows, owner, now);
    QuietUpdate(s.rows, rows);
    StatusKeepsHistory(s, rows);
  }

  /** Changing only the status of rows, and never to active, keeps the histories in order. */
  lemma StatusKeepsHistory(s: State, rows: seq<Row>)
    requires Inv(s) && |rows| == |s.rows|
    requires forall i | 0 <= i < |rows| ::
               rows[i] == s.rows[i] || (rows[i] == WithStatus(s.rows[i], rows[i].status) && rows[i].status != Active)
    ensures Grows(s.rows, rows) && TokensDistinct(rows, s.nextToken) && ActiveEarned(rows)
    ensures forall t | t in s.inFlight :: Earned(rows, t)
    ensures forall i | 0 <= i < |rows| :: rows[i].issued != []
  {
    assert forall i | 0 <= i < |rows| :: rows[i].issued == s.rows[i].issued;
    forall t | t in s.inFlight
      ensures Earned(rows, t)
    {
      GrowsKeepsEarned(s.rows, rows, t);
    }
  }

  lemma {:induction false} RevokeKeepsInv(s: State, owner: string, id: nat)
    requires Inv(s)
    ensures Advances(s, Revoke(s, owner, id).0)
  {
    var s' := Revoke(s, owner, id).0;
    QuietUpdate(s.rows, s'.rows);
    StatusKeepsHistory(s, s'.rows);
  }

  lemma ReadKeepsInv(s: State, actor: string, email: string, token: nat, now: int)
    requires Inv(s)
    ensures Advances(s, AcceptRead(s, actor, email, token, now))
  {
    var reading := Read(s, actor, email, token, now);
    if reading.Claimed? {
      assert Earned(s.rows, reading.ticket);
    }
  }

  lemma InvitedRowKeepsTokens(rows: seq<Row>, nextToken: nat, row: Row)
    requires TokensDistinct(rows, nextToken) && |row.issued| == 1 && row.issued[0].token == nextToken
    ensures TokensDistinct(rows + [row], nextToken + 1)
  {
  }

  lemma InvitedRowKeepsHistory(s: State, row: Row)
    requires Inv(s) && row.status == Pending && |row.issued| == 1 && row.issued[0].token == s.nextToken
    ensures ActiveEarned(s.rows + [row])
    ensures forall t | t in s.inFlight :: Earned(s.rows + [row], t)
  {
    var rows := s.rows + [row];
    forall t | t in s.inFlight
      ensures Earned(rows, t)
    {
      GrowsKeepsEarned(s.rows, rows, t);
    }
    forall i | 0 <= i < |s.rows| && rows[i].status == Active
      ensures Earned(rows, rows[i].via.value)
    {
      GrowsKeepsEarned(s.rows, rows, rows[i].via.value);
    }
  }

  lemma InvitedRowKeepsLimits(rows: seq<Row>, row: Row)
    requires Unique(rows) && WithinTeam(rows) && row.status == Pending
    requires LiveCount(rows, row.owner, None) < MAX_ACTIVE_MEMBERS && !LiveTaken(rows, row.owner, row.email, None)
    ensures Unique(rows + [row]) && WithinTeam(rows + [row])
  {
    forall i | 0 <= i < |rows|
      ensures !Rivals(rows[i], row) && !Rivals(row, rows[i]) && !Twins(rows[i], row) && !Twins(row, rows[i])
    {
    }
    forall owner
      ensures LiveCount(rows + [row], owner, None) <= MAX_ACTIVE_MEMBERS
    {
      assert (rows + [row])[..|rows|] == rows;
      assert LiveCount(rows, owner, None) <= MAX_ACTIVE_MEMBERS;
    }
  }

  lemma {:induction false} InvitedKeepsInv(s: State, row: Row)
    requires Inv(s) && FitsIn(s, row)
    ensures Advances(s, State(s.rows + [row], s.nextToken + 1, s.inFlight))
  {
    InvitedRowKeepsTokens(s.rows, s.nextToken, row);
    InvitedRowKeepsHistory(s, row);
    InvitedRowKeepsLimits(s.rows, row);
  }

  /** What an invitation does after the stale ones expired: nothing, or one more row that fits. */
  lemma InviteCases(
      s: State, actor: string, actorEmail: string, dtoEmail: string, allowed: bool, throttled: bool, now: int)
    returns (s1: State, row: Row)
    ensures s1 == s.(rows := ExpireStale(s.rows, actor, now))
    ensures
      var s' := Invite(s, actor, actorEmail, dtoEmail, allowed, throttled, now).0;
      || s' == s || s' == s1
      || (s' == State(s1.rows + [row], s.nextToken + 1, s.inFlight) && FitsIn(s1, row))
  {
    s1 := s.(rows := ExpireStale(s.rows, actor, now));
    row := Row(actor, Normalize(dtoEmail), Pending, None, [Issue(s.nextToken, now + INVITATION_TTL)], None);
  }

  predicate FitsIn(s: State, row: Row) {
    && row.status == Pending && |row.issued| == 1 && row.issued[0].token == s.nextToken
    && LiveCount(s.rows, row.owner, None) < MAX_ACTIVE_MEMBERS && !LiveTaken(s.rows, row.owner, row.email, None)
  }

  lemma {:induction false} InviteKeepsInv(
      s: State, actor: string, actorEmail: string, dtoEmail: string, allowed: bool, throttled: bool, now: int)
    requires Inv(s)
    ensures Advances(s, Invite(s, actor, actorEmail, dtoEmail, allowed, throttled, now).0)
  {
    var s1, row := InviteCases(s, actor, actorEmail, dtoEmail, allowed, throttled, now);
    ExpireKeepsInv(s, actor, now);
    if FitsIn(s1, row) {
      InvitedKeepsInv(s1, row);
      GrownTransitive(s, s1, State(s1.rows + [row], s.nextToken + 1, s.inFlight));
    }
  }

  lemma {:induction false} ReopenKeepsInv(s: State, owner: string, id: nat, allowed: bool, throttled: bool, now: int)
    requires Inv(s)
    ensures
      Advances(s, Reopen(s, owner, id, allowed, throttled, now).0)
  {
    if Reopen(s, owner, id, allowed, throttled, now).1.Ok? {
      IssuedKeepsTokens(s.rows, id, Reopened(s.rows[id], s.nextToken, now), Issue(s.nextToken, now + INVITATION_TTL));
      ReopenedKeepsHistory(s, owner, id, now);
      ReopenedKeepsLimits(s, owner, id, now);
    }
  }

  /** One more token, the next one, for row `id`. */
  lemma IssuedKeepsTokens(rows: seq<Row>, id: nat, row: Row, issue: Issue)
    requires TokensDistinct(rows, issue.token) && id < |rows| && row.issued == rows[id].issued + [issue]
    ensures TokensDistinct(rows[id := row], issue.token + 1)
  {
    var rows' := rows[id := row];
    forall i, a | 0 <= i < |rows'| && 0 <= a < |rows'[i].issued|
      ensures if i == id && a == |rows[id].issued| then rows'[i].issued[a] == issue
              else a < |rows[i].issued| && rows'[i].issued[a] == rows[i].issued[a] && rows[i].issued[a].token < issue.token
    {
    }
  }

  lemma ReopenedKeepsHistory(s: State, owner: string, id: nat, now: int)
    requires Inv(s) && Owns(s, owner, id) && s.rows[id].status != Active
    ensures
      var rows := s.rows[id := Reopened(s.rows[id], s.nextToken, now)];
      ActiveEarned(rows) && (forall t | t in s.inFlight :: Earned(rows, t))
  {
    var rows := s.rows[id := Reopened(s.rows[id], s.nextToken, now)];
    assert Grows(s.rows, rows);
    forall t | t in s.inFlight
      ensures Earned(rows, t)
    {
      GrowsKeepsEarned(s.rows, rows, t);
    }
    forall i | 0 <= i < |rows| && rows[i].status == Active
      ensures Earned(rows, rows[i].via.value)
    {
      GrowsKeepsEarned(s.rows, rows, rows[i].via.value);
    }
  }

  lemma ReopenedKeepsLimits(s: State, owner: string, id: nat, now: int)
    requires Inv(s) && Owns(s, owner, id) && s.rows[id].status != Active
    requires LiveCount(s.rows, owner, Some(id)) < MAX_ACTIVE_MEMBERS
    requires !LiveTaken(s.rows, owner, s.rows[id].email, Some(id))
    ensures
      var rows := s.rows[id := Reopened(s.rows[id], s.nextToken, now)];
      Unique(rows) && WithinTeam(rows)
  {
    var rows := s.rows[id := Reopened(s.rows[id], s.nextToken, now)];
    forall o
      ensures LiveCount(rows, o, None) <= MAX_ACTIVE_MEMBERS
    {
      LiveCountExcept(rows, o, id);
      LiveCountExcept(s.rows, o, id);
      LiveCountMonotone(s.rows, rows, o, Some(id));
      assert LiveCount(s.rows, o, None) <= MAX_ACTIVE_MEMBERS;
    }
  }

  lemma ActivatedKeepsHistory(s: State, t: Ticket)
    requires Inv(s) && Earned(s.rows, t) && AcceptWrite(s.rows, t).1.Ok?
    ensures
      var rows := AcceptWrite(s.rows, t).0;
      && Grows(s.rows, rows) && TokensDistinct(rows, s.nextToken) && ActiveEarned(rows)
      && (forall u | u in s.inFlight :: Earned(rows, u))
  {
    var rows := AcceptWrite(s.rows, t).0;
    assert Grows(s.rows, rows);
    forall u | u in s.inFlight
      ensures Earned(rows, u)
    {
      GrowsKeepsEarned(s.rows, rows, u);
    }
    GrowsKeepsEarned(s.rows, rows, t);
    forall i | 0 <= i < |rows| && i != t.row && rows[i].status == Active
      ensures Earned(rows, rows[i].via.value)
    {
      GrowsKeepsEarned(s.rows, rows, rows[i].via.value);
    }
  }

  lemma ActivatedKeepsLimits(s: State, t: Ticket)
    requires Inv(s) && t.row < |s.rows| && AcceptWrite(s.rows, t).1.Ok?
    ensures Unique(AcceptWrite(s.rows, t).0) && WithinTeam(AcceptWrite(s.rows, t).0)
  {
    var rows := AcceptWrite(s.rows, t).0;
    forall owner
      ensures LiveCount(rows, owner, None) <= MAX_ACTIVE_MEMBERS
    {
      LiveCountMonotone(s.rows, rows, owner, None);
      assert LiveCount(s.rows, owner, None) <= MAX_ACTIVE_MEMBERS;
    }
  }

  lemma {:induction false} WriteKeepsInv(s: State, t: Ticket)
    requires Inv(s) && Earned(s.rows, t)
    ensures Advances(s, s.(rows := AcceptWrite(s.rows, t).0))
  {
    if t.late {
      QuietUpdate(s.rows, AcceptWrite(s.rows, t).0);
      StatusKeepsHistory(s, AcceptWrite(s.rows, t).0);
    } else if AcceptWrite(s.rows, t).1.Ok? {
      ActivatedKeepsHistory(s, t);
      ActivatedKeepsLimits(s, t);
    }
  }

  lemma {:induction false} StepKeepsInv(s: State, op: Op)
    requires Inv(s)
    ensures Advances(s, Step(s, op))
  {
    match op
    case InviteOp(actor, actorEmail, dtoEmail, allowed, throttled, now) =>
      InviteKeepsInv(s, actor, actorEmail, dtoEmail, allowed, throttled, now);
    case ListOp(owner, now) => ExpireKeepsInv(s, owner, now);
    case RevokeOp(owner, id) => RevokeKeepsInv(s, owner, id);
    case ReopenOp(owner, id, allowed, throttled, now) => ReopenKeepsInv(s, owner, id, allowed, throttled, now);
    case ReadOp(actor, email, token, now) => ReadKeepsInv(s, actor, email, token, now);
    case WriteOp(request) =>
      if request < |s.inFlight| {
        assert s.inFlight[request] in s.inFlight;
        WriteKeepsInv(s, s.inFlight[request]);
      }
  }

  // ---- Runs ----

  const EMPTY := State([], 0, [])

  function Run(ops: seq<Op>): State {
    if ops == [] then EMPTY else Step(Run(ops[..|ops| - 1]), ops[|ops| - 1])
  }

  lemma RunSnoc(ops: seq<Op>, j: nat)
    requires j < |ops|
    ensures Run(ops[..j + 1]) == Step(Run(ops[..j]), ops[j])
  {
    assert ops[..j + 1][..j] == ops[..j];
  }

  lemma {:induction false} RunStep(ops: seq<Op>, j: nat)
    requires j < |ops| && Inv(Run(ops[..j]))
    ensures Advances(Run(ops[..j]), Run(ops[..j + 1]))
  {
    RunSnoc(ops, j);
    StepKeepsInv(Run(ops[..j]), ops[j]);
  }

  lemma EmptyInv()
    ensures Inv(EMPTY)
  {
  }

  lemma {:induction false} RunKeepsInv(ops: seq<Op>, j: nat)
    requires j <= |ops|
    ensures Inv(Run(ops[..j]))
  {
    if j == 0 {
      EmptyInv();
      assert Run(ops[..0]) == EMPTY;
    } else {
      RunKeepsInv(ops, j - 1);
      RunStep(ops, j - 1);
    }
  }

  /** The states a run goes through. */
  function States(ops: seq<Op>): seq<State> {
    seq(|ops| + 1, m requires 0 <= m <= |ops| => Run(ops[..m]))
  }

  ghost predicate GrownAt(states: seq<State>, m: nat)
    requires m + 1 < |states|
  {
    Grown(states[m], states[m + 1])
  }

  lemma {:induction false} GrownAlong(states: seq<State>, i: nat, j: nat)
    requires i <= j < |states| && forall m | i <= m < j :: GrownAt(states, m)
    ensures Grown(states[i], states[j])
    decreases j
  {
    if i < j {
      GrownAlong(states, i, j - 1);
      assert GrownAt(states, j - 1);
      GrownTransitive(states[i], states[j - 1], states[j]);
    }
  }

  lemma {:induction false} StatesGrow(ops: seq<Op>, j: nat)
    requires j < |ops|
    ensures GrownAt(States(ops), j)
  {
    RunKeepsInv(ops, j);
    RunStep(ops, j);
  }

  lemma {:induction false} StatesGrown(ops: seq<Op>, i: nat, j: nat)
    requires i <= j <= |ops|
    ensures Grown(States(ops)[i], States(ops)[j])
  {
    forall m | i <= m < j
      ensures GrownAt(States(ops), m)
    {
      StatesGrow(ops, m);
    }
    GrownAlong(States(ops), i, j);
  }

  lemma {:induction false} RunGrows(ops: seq<Op>, i: nat, j: nat)
    requires i <= j <= |ops|
    ensures Grown(Run(ops[..i]), Run(ops[..j]))
  {
    StatesGrown(ops, i, j);
  }

  /**
   * In every reachable state an owner has at most twenty pending or active rows, at most one per address, and a person
   * is active at most once per owner; along a run addresses and issued tokens are never lost.
   */
  lemma {:induction false} RunSafe(ops: seq<Op>, i: nat, j: nat)
    requires i <= j <= |ops|
    ensures Inv(Run(ops[..i])) && Advances(Run(ops[..i]), Run(ops[..j]))
  {
    RunKeepsInv(ops, i);
    RunKeepsInv(ops, j);
    RunGrows(ops, i, j);
  }

  // ---- Whose acceptance activated a row ----

  lemma {:induction false} FoundRow(rows: seq<Row>, token: nat)
    ensures FindByToken(rows, token).Some? ==>
              var k := FindByToken(rows, token).value;
              k < |rows| && rows[k].issued != [] && Current(rows[k]).token == token
    ensures FindByToken(rows, token).None? ==>
              forall k | 0 <= k < |rows| && rows[k].issued != [] :: Current(rows[k]).token != token
  {
    if rows != [] {
      FoundRow(rows[..|rows| - 1], token);
      assert forall k | 0 <= k < |rows| - 1 :: rows[k] == rows[..|rows| - 1][k];
    }
  }

  /** The actor is already an active member of this owner, through some row. */
  predicate IsMember(rows: seq<Row>, owner: string, actor: string) {
    exists i | 0 <= i < |rows| :: rows[i] == Row(owner, rows[i].email, Active, Some(actor), rows[i].issued, rows[i].via)
  }

  lemma MemberIff(rows: seq<Row>, owner: string, actor: string)
    ensures ActiveMember(rows, owner, actor) <==> IsMember(rows, owner, actor)
  {
    if ActiveMember(rows, owner, actor) {
      var i :| 0 <= i < |rows| && rows[i].owner == owner && rows[i].member == Some(actor) && rows[i].status == Active;
      assert rows[i] == Row(owner, rows[i].email, Active, Some(actor), rows[i].issued, rows[i].via);
    }
  }

  /** Presenting the token of an invitation, as its row and the actor's address decide; nobody else's token is found. */
  lemma {:induction false} ReadIs(s: State, actor: string, actorEmail: string, token: nat, now: int, k: nat)
    requires Inv(s) && k < |s.rows| && Current(s.rows[k]).token == token
    ensures
      var row, reading := s.rows[k], Read(s, actor, actorEmail, token, now);
      match row.status
      case Active => reading == if row.member == Some(actor) then AlreadyIn else Refused(UsedByAnother)
      case Revoked => reading == Refused(AccessRevoked)
      case Expired => reading == Refused(InvitationExpired)
      case Pending =>
        if Current(row).expiresAt < now then reading == Claimed(Ticket(k, actor, actorEmail, |row.issued| - 1, now, true))
        else if Lower(Trim(row.email)) != Lower(Trim(actorEmail)) then reading == Refused(WrongEmail)
        else if IsMember(s.rows, row.owner, actor) then reading == Refused(AlreadyMember)
        else reading == Claimed(Ticket(k, actor, actorEmail, |row.issued| - 1, now, false))
  {
    FoundRow(s.rows, token);
    MemberIff(s.rows, s.rows[k].owner, actor);
    var found := FindByToken(s.rows, token).value;
    assert s.rows[found].issued[|s.rows[found].issued| - 1].token == s.rows[k].issued[|s.rows[k].issued| - 1].token;
  }

  lemma UnknownToken(s: State, actor: string, actorEmail: string, token: nat, now: int)
    requires forall k | 0 <= k < |s.rows| :: Current(s.rows[k]).token != token
    ensures Read(s, actor, actorEmail, token, now) == Refused(NotFound)
  {
    FoundRow(s.rows, token);
  }

  /**
   * The update of an acceptance: an invitation found expired is marked so whatever became of it; otherwise the row is
   * activated for the actor exactly when it is still pending, not the actor's own, and the actor is no member yet.
   */
  lemma WriteIs(rows: seq<Row>, t: Ticket)
    requires t.row < |rows|
    ensures
      var row, (rows', r) := rows[t.row], AcceptWrite(rows, t);
      && (t.late ==> r == Err(InvitationExpired) && rows' == rows[t.row := row.(status := Expired)])
      && (!t.late ==>
            && (r.Ok? <==> row.status == Pending && row.owner != t.actor && !IsMember(rows, row.owner, t.actor))
            && (r == Err(AlreadyAccepted) <==> row.status != Pending)
            && rows' == if r.Err? then rows
                        else rows[t.row := Row(row.owner, row.email, Active, Some(t.actor), row.issued, Some(t))])
  {
    MemberIff(rows, rows[t.row].owner, t.actor);
  }

  ghost predicate FromFlight(s: State) {
    forall k | 0 <= k < |s.rows| && s.rows[k].status == Active :: s.rows[k].via.Some? && s.rows[k].via.value in s.inFlight
  }

  lemma StepKeepsOrigin(s: State, op: Op)
    requires FromFlight(s)
    ensures FromFlight(Step(s, op))
  {
  }

  lemma {:induction false} ActivatedFromFlight(ops: seq<Op>)
    ensures FromFlight(Run(ops))
  {
    if ops != [] {
      ActivatedFromFlight(ops[..|ops| - 1]);
      StepKeepsOrigin(Run(ops[..|ops| - 1]), ops[|ops| - 1]);
    }
  }

  predicate ReadAt(ops: seq<Op>, i: nat, t: Ticket) {
    && i < |ops| && ops[i].ReadOp?
    && Read(Run(ops[..i]), ops[i].actor, ops[i].email, ops[i].token, ops[i].now) == Claimed(t)
  }

  lemma OnlyReadsTakeOff(s: State, op: Op, t: Ticket)
    requires t in Step(s, op).inFlight && t !in s.inFlight
    ensures op.ReadOp? && Read(s, op.actor, op.email, op.token, op.now) == Claimed(t)
  {
  }

  lemma ReadAtPrefix(ops: seq<Op>, n: nat, i: nat, t: Ticket)
    requires n <= |ops| && ReadAt(ops[..n], i, t)
    ensures ReadAt(ops, i, t)
  {
    assert ops[..n][..i] == ops[..i];
  }

  lemma {:induction false} FlightHasReading(ops: seq<Op>, t: Ticket)
    requires t in Run(ops).inFlight
    ensures exists i: nat :: ReadAt(ops, i, t)
  {
    if ops != [] {
      var n: nat := |ops| - 1;
      if t in Run(ops[..n]).inFlight {
        FlightHasReading(ops[..n], t);
        var i: nat :| ReadAt(ops[..n], i, t);
        ReadAtPrefix(ops, n, i, t);
      } else {
        OnlyReadsTakeOff(Run(ops[..n]), ops[n], t);
        assert ReadAt(ops, n, t);
      }
    }
  }

  lemma ReadingPresents(ops: seq<Op>, i: nat, t: Ticket)
    requires ReadAt(ops, i, t)
    ensures t.actor == ops[i].actor && (!t.late ==> Presents(Run(ops[..i]), ops[i], t.row))
  {
    FoundRow(Run(ops[..i]).rows, ops[i].token);
  }

  /**
   * Behind every active row stands an acceptance of this run: its member, signed in with the invited address, presented
   * the token that was then current for the row, while the invitation was pending and had not expired.
   */
  lemma {:induction false} AccessIsEarned(ops: seq<Op>, k: nat)
    requires k < |Run(ops).rows| && Run(ops).rows[k].status == Active
    ensures exists i: nat :: i < |ops| && ops[i].ReadOp? && Presents(Run(ops[..i]), ops[i], k)
                             && Run(ops).rows[k].member == Some(ops[i].actor)
  {
    assert ops[..|ops|] == ops;
    RunSafe(ops, |ops|, |ops|);
    ActivatedFromFlight(ops);
    var t := Run(ops).rows[k].via.value;
    FlightHasReading(ops, t);
    var i: nat :| ReadAt(ops, i, t);
    ReadingPresents(ops, i, t);
  }

  predicate Presents(s: State, op: Op, k: nat)
    requires op.ReadOp?
  {
    && k < |s.rows| && s.rows[k].status == Pending && Current(s.rows[k]).token == op.token
    && op.now <= Current(s.rows[k]).expiresAt && Normalize(op.email) == Normalize(s.rows[k].email)
  }

  // ---- Old tokens ----

  lemma NotCurrent(s: State, k: nat, a: nat, f: nat)
    requires Inv(s) && k < |s.rows| && a + 1 < |s.rows[k].issued| && f < |s.rows|
    ensures Current(s.rows[f]).token != s.rows[k].issued[a].token
  {
    var b := |s.rows[f].issued| - 1;
    assert f == k ==> b != a;
  }

  lemma SupersededRefused(s: State, k: nat, a: nat, actor: string, email: string, now: int)
    requires Inv(s) && k < |s.rows| && a + 1 < |s.rows[k].issued|
    ensures Read(s, actor, email, s.rows[k].issued[a].token, now) == Refused(NotFound)
  {
    var token := s.rows[k].issued[a].token;
    forall f | 0 <= f < |s.rows|
      ensures Current(s.rows[f]).token != token
    {
      NotCurrent(s, k, a, f);
    }
    FoundRow(s.rows, token);
  }

  lemma StaysSuperseded(s: State, s': State, k: nat, a: nat)
    requires Grown(s, s') && k < |s.rows| && a + 1 < |s.rows[k].issued|
    ensures k < |s'.rows| && a + 1 < |s'.rows[k].issued| && s'.rows[k].issued[a] == s.rows[k].issued[a]
  {
    assert Follows(s.rows[k], s'.rows[k]);
  }

  /** A token that is not the last one issued for its row is refused, and stays refused along every run. */
  lemma {:induction false} SupersededTokenRefused(
      ops: seq<Op>, i: nat, j: nat, k: nat, a: nat, actor: string, email: string, now: int)
    requires i <= j <= |ops|
    requires k < |Run(ops[..i]).rows| && a + 1 < |Run(ops[..i]).rows[k].issued|
    ensures Read(Run(ops[..j]), actor, email, Run(ops[..i]).rows[k].issued[a].token, now) == Refused(NotFound)
  {
    RunGrows(ops, i, j);
    RunKeepsInv(ops, j);
    StaysSuperseded(Run(ops[..i]), Run(ops[..j]), k, a);
    SupersededRefused(Run(ops[..j]), k, a, actor, email, now);
  }

  predicate Reopens(s: State, op: Op, k: nat) {
    op.ReopenOp? && op.id == k && Reopen(s, op.owner, op.id, op.allowed, op.throttled, op.now).1.Ok?
  }

  lemma OnlyReopenIssues(s: State, op: Op, k: nat)
    requires k < |s.rows|
    ensures k < |Step(s, op).rows|
    ensures IssuedTo(s, k) <= IssuedTo(Step(s, op), k)
    ensures |IssuedTo(Step(s, op), k)| == |IssuedTo(s, k)| + if Reopens(s, op, k) then 1 else 0
    ensures Step(s, op).rows[k].status == Pending && s.rows[k].status != Pending ==> Reopens(s, op, k)
    ensures Step(s, op).rows[k].status == Active && s.rows[k].status != Active ==> s.rows[k].status == Pending
  {
  }

  /** Which calls of a run reopen row `k`. */
  function ReopenFlags(ops: seq<Op>, k: nat): seq<bool> {
    seq(|ops|, m requires 0 <= m < |ops| => Reopens(Run(ops[..m]), ops[m], k))
  }

  predicate Flagged(flags: seq<bool>, i: nat, j: nat) {
    exists m | i <= m < j && m < |flags| :: flags[m]
  }

  /** One of the calls from the `i`-th on, before the `j`-th, reopened row `k`. */
  predicate ReopenedBetween(ops: seq<Op>, i: nat, j: nat, k: nat) {
    Flagged(ReopenFlags(ops, k), i, j)
  }

  function IssuedTo(s: State, k: nat): seq<Issue> {
    if k < |s.rows| then s.rows[k].issued else []
  }

  function StatusAt(s: State, k: nat): Status {
    if k < |s.rows| then s.rows[k].status else Revoked
  }

  lemma {:induction false} RunIssues(ops: seq<Op>, j: nat, k: nat)
    requires j < |ops| && k < |Run(ops[..j]).rows|
    ensures
      var s, s' := Run(ops[..j]), Run(ops[..j + 1]);
      && k < |s'.rows| && IssuedTo(s, k) <= IssuedTo(s', k)
      && |IssuedTo(s', k)| == |IssuedTo(s, k)| + (if Reopens(s, ops[j], k) then 1 else 0)
      && (s'.rows[k].status == Pending && s.rows[k].status != Pending ==> Reopens(s, ops[j], k))
      && (s'.rows[k].status == Active && s.rows[k].status != Active ==> s.rows[k].status == Pending)
  {
    RunSnoc(ops, j);
    OnlyReopenIssues(Run(ops[..j]), ops[j], k);
  }

  /** A row's history along a run: what was issued and the status, before each call. */
  datatype Moment = Moment(issued: seq<Issue>, status: Status)

  ghost predicate Continues(a: Moment, b: Moment, reopened: bool) {
    && a.issued <= b.issued && |b.issued| == |a.issued| + (if reopened then 1 else 0)
    && (b.status == Pending && a.status != Pending ==> reopened)
    && (b.status == Active && a.status != Active ==> a.status == Pending)
  }

  lemma HistoryOf(ops: seq<Op>, i: nat, j: nat, k: nat) returns (history: seq<Moment>)
    requires i <= j <= |ops| && k < |Run(ops[..i]).rows|
    ensures |history| == |ops| + 1 && k < |Run(ops[..j]).rows|
    ensures history[i] == Moment(Run(ops[..i]).rows[k].issued, Run(ops[..i]).rows[k].status)
    ensures history[j] == Moment(Run(ops[..j]).rows[k].issued, Run(ops[..j]).rows[k].status)
    ensures forall m | i <= m < j :: Continues(history[m], history[m + 1], ReopenFlags(ops, k)[m])
  {
    history := seq(|ops| + 1, m requires 0 <= m <= |ops| =>
      Moment(IssuedTo(Run(ops[..m]), k), StatusAt(Run(ops[..m]), k)));
    forall m | i <= m < j
      ensures Continues(history[m], history[m + 1], ReopenFlags(ops, k)[m])
    {
      RunGrows(ops, i, m);
      NextMoment(ops, m, k);
    }
    RunGrows(ops, i, j);
  }

  lemma NextMoment(ops: seq<Op>, m: nat, k: nat)
    requires m < |ops| && k < |Run(ops[..m]).rows|
    ensures
      Continues(Moment(IssuedTo(Run(ops[..m]), k), StatusAt(Run(ops[..m]), k)),
                Moment(IssuedTo(Run(ops[..m + 1]), k), StatusAt(Run(ops[..m + 1]), k)), ReopenFlags(ops, k)[m])
  {
    RunIssues(ops, m, k);
  }

  lemma {:induction false} HistoryTells(history: seq<Moment>, flags: seq<bool>, i: nat, j: nat)
    requires i <= j <= |flags| && |history| == |flags| + 1
    requires forall m | i <= m < j :: Continues(history[m], history[m + 1], flags[m])
    ensures history[i].issued <= history[j].issued
    ensures |history[j].issued| == |history[i].issued| <==> !Flagged(flags, i, j)
    ensures history[i].status != Pending && history[j].status == Pending ==> Flagged(flags, i, j)
    ensures history[i].status != Pending && history[i].status != Active && history[j].status == Active ==>
              Flagged(flags, i, j)
    decreases j
  {
    if i < j {
      HistoryTells(history, flags, i, j - 1);
      assert Continues(history[j - 1], history[j - 1 + 1], flags[j - 1]);
      assert Flagged(flags, i, j) <==> Flagged(flags, i, j - 1) || flags[j - 1];
    }
  }

  lemma {:induction false} IssuesSince(ops: seq<Op>, i: nat, j: nat, k: nat)
    requires i <= j <= |ops| && k < |Run(ops[..i]).rows|
    ensures k < |Run(ops[..j]).rows| && IssuedTo(Run(ops[..i]), k) <= IssuedTo(Run(ops[..j]), k)
    ensures |IssuedTo(Run(ops[..j]), k)| == |IssuedTo(Run(ops[..i]), k)| <==> !ReopenedBetween(ops, i, j, k)
  {
    var history := HistoryOf(ops, i, j, k);
    HistoryTells(history, ReopenFlags(ops, k), i, j);
  }

  lemma ReadingRow(s: State, actor: string, email: string, token: nat, now: int)
    requires Read(s, actor, email, token, now).Claimed?
    ensures
      var k := Read(s, actor, email, token, now).ticket.row;
      k < |s.rows| && s.rows[k].issued != [] && Current(s.rows[k]).token == token
  {
    FoundRow(s.rows, token);
  }

  /** The `n`-th token of a row is the current one exactly when it is the last. */
  lemma CurrentIffLast(s: State, k: nat, n: nat)
    requires Inv(s) && k < |s.rows| && 0 < n <= |s.rows[k].issued|
    ensures Current(s.rows[k]).token == s.rows[k].issued[n - 1].token <==> |s.rows[k].issued| == n
  {
  }

  /**
   * When an acceptance writes, the token it presented is still the current one exactly when the row was not reopened
   * since it read. The update itself only asks for a pending row, so a link replaced in between still works.
   */
  lemma {:induction false} TokenCurrentIffNotReopened(ops: seq<Op>, i: nat, j: nat, t: Ticket)
    requires i < j <= |ops| && ReadAt(ops, i, t)
    ensures t.row < |Run(ops[..j]).rows|
    ensures Current(Run(ops[..j]).rows[t.row]).token == ops[i].token <==> !ReopenedBetween(ops, i, j, t.row)
  {
    RunSafe(ops, i, j);
    RunSafe(ops, j, j);
    ReadingRow(Run(ops[..i]), ops[i].actor, ops[i].email, ops[i].token, ops[i].now);
    IssuesSince(ops, i, j, t.row);
    var n := |IssuedTo(Run(ops[..i]), t.row)|;
    CurrentIffLast(Run(ops[..j]), t.row, n);
    assert IssuedTo(Run(ops[..j]), t.row)[n - 1] == IssuedTo(Run(ops[..i]), t.row)[n - 1];
  }

  predicate Activates(s: State, op: Op, k: nat) {
    && op.WriteOp? && op.request < |s.inFlight|
    && s.inFlight[op.request].row == k && k < |s.rows| && AcceptWrite(s.rows, s.inFlight[op.request]).1.Ok?
  }

  lemma {:induction false} PendingAgainOnlyByReopen(ops: seq<Op>, i: nat, j: nat, k: nat)
    requires i <= j <= |ops| && k < |Run(ops[..i]).rows| && Run(ops[..i]).rows[k].status != Pending
    ensures k < |Run(ops[..j]).rows|
    ensures Run(ops[..j]).rows[k].status == Pending ==> ReopenedBetween(ops, i, j, k)
  {
    var history := HistoryOf(ops, i, j, k);
    HistoryTells(history, ReopenFlags(ops, k), i, j);
  }

  /** Once revoked or expired, a row is live again only after the owner reopened it. */
  lemma {:induction false} LiveAgainOnlyByReopen(ops: seq<Op>, i: nat, j: nat, k: nat)
    requires i <= j <= |ops| && k < |Run(ops[..i]).rows| && !IsLive(Run(ops[..i]).rows[k])
    ensures k < |Run(ops[..j]).rows|
    ensures IsLive(Run(ops[..j]).rows[k]) ==> ReopenedBetween(ops, i, j, k)
  {
    var history := HistoryOf(ops, i, j, k);
    HistoryTells(history, ReopenFlags(ops, k), i, j);
  }

  /** However acceptances interleave, between two that succeed on a row the owner reopened it. */
  lemma OneAcceptancePerIssue(ops: seq<Op>, i: nat, j: nat, k: nat)
    requires i < j < |ops| && Activates(Run(ops[..i]), ops[i], k) && Activates(Run(ops[..j]), ops[j], k)
    ensures ReopenedBetween(ops, i + 1, j, k)
  {
    RunSnoc(ops, i);
    PendingAgainOnlyByReopen(ops, i + 1, j, k);
  }

  // ---- The end of an access ----

  /** An acceptance that found the invitation expired writes to row `k`. */
  predicate WritesLate(s: State, op: Op, k: nat) {
    op.WriteOp? && op.request < |s.inFlight| && s.inFlight[op.request].row == k && s.inFlight[op.request].late
  }

  /** The row's owner revokes it, or a late acceptance writes to it. */
  predicate Ends(s: State, op: Op, k: nat) {
    (op.RevokeOp? && op.id == k && Owns(s, op.owner, k)) || WritesLate(s, op, k)
  }

  /** One call gives or takes access to a row exactly so. */
  lemma AccessAfterStep(s: State, op: Op, k: nat)
    requires k < |s.rows|
    ensures k < |Step(s, op).rows|
    ensures Step(s, op).rows[k].status == Active <==>
              Activates(s, op, k) || (s.rows[k].status == Active && !Ends(s, op, k))
    ensures Activates(s, op, k) ==> s.rows[k].status == Pending
  {
  }

  predicate IsActive(s: State, k: nat) {
    k < |s.rows| && s.rows[k].status == Active
  }

  /** Which calls of a run end an access to row `k`, and which begin one. */
  function EndFlags(ops: seq<Op>, k: nat): seq<bool> {
    seq(|ops|, m requires 0 <= m < |ops| => Ends(Run(ops[..m]), ops[m], k))
  }

  function StartFlags(ops: seq<Op>, k: nat): seq<bool> {
    seq(|ops|, m requires 0 <= m < |ops| => Activates(Run(ops[..m]), ops[m], k))
  }

  /** One of the calls from the `i`-th on, before the `j`-th, is the owner's revocation or a late write. */
  predicate EndedBetween(ops: seq<Op>, i: nat, j: nat, k: nat) {
    Flagged(EndFlags(ops, k), i, j)
  }

  ghost predicate Switches(active: seq<bool>, starts: seq<bool>, ends: seq<bool>, m: nat)
    requires |active| == |starts| + 1 == |ends| + 1 && m < |starts|
  {
    (active[m + 1] <==> starts[m] || (active[m] && !ends[m])) && (starts[m] ==> !active[m])
  }

  ghost predicate StartedUnended(starts: seq<bool>, ends: seq<bool>, i: nat, j: nat)
    requires |ends| == |starts| && j <= |starts|
  {
    exists m | i <= m < j :: starts[m] && !Flagged(ends, m + 1, j)
  }

  lemma {:induction false} LastSwitch(active: seq<bool>, starts: seq<bool>, ends: seq<bool>, i: nat, j: nat)
    requires |active| == |starts| + 1 == |ends| + 1 && i <= j <= |starts|
    requires forall m | i <= m < j :: Switches(active, starts, ends, m)
    ensures active[j] <==> StartedUnended(starts, ends, i, j) || (active[i] && !Flagged(ends, i, j))
    decreases j
  {
    if i < j {
      LastSwitch(active, starts, ends, i, j - 1);
      assert Switches(active, starts, ends, j - 1);
      FlaggedNext(ends, i, j);
      StartedNext(starts, ends, i, j);
    }
  }

  lemma StartedNext(starts: seq<bool>, ends: seq<bool>, i: nat, j: nat)
    requires |ends| == |starts| && i < j <= |starts|
    ensures StartedUnended(starts, ends, i, j) <==> starts[j - 1] || (StartedUnended(starts, ends, i, j - 1) && !ends[j - 1])
  {
    if starts[j - 1] {
      assert !Flagged(ends, j - 1 + 1, j);
    }
    if StartedUnended(starts, ends, i, j - 1) && !ends[j - 1] {
      var m :| i <= m < j - 1 && starts[m] && !Flagged(ends, m + 1, j - 1);
      FlaggedNext(ends, m + 1, j);
    }
    if StartedUnended(starts, ends, i, j) && !starts[j - 1] {
      var m :| i <= m < j && starts[m] && !Flagged(ends, m + 1, j);
      FlaggedNext(ends, m + 1, j);
    }
  }

  lemma FlaggedNext(flags: seq<bool>, i: nat, j: nat)
    requires i < j <= |flags|
    ensures Flagged(flags, i, j) <==> Flagged(flags, i, j - 1) || flags[j - 1]
  {
  }

  /** Where row `k` is active, before each call and at the end. */
  function ActiveFlags(ops: seq<Op>, k: nat): seq<bool> {
    seq(|ops| + 1, m requires 0 <= m <= |ops| => IsActive(Run(ops[..m]), k))
  }

  lemma {:induction false} AccessHistory(ops: seq<Op>, i: nat, j: nat, k: nat)
    requires i <= j <= |ops| && k < |Run(ops[..i]).rows|
    ensures forall m | i <= m < j :: Switches(ActiveFlags(ops, k), StartFlags(ops, k), EndFlags(ops, k), m)
  {
    forall m | i <= m < j
      ensures Switches(ActiveFlags(ops, k), StartFlags(ops, k), EndFlags(ops, k), m)
    {
      RunGrows(ops, i, m);
      AccessMoment(ops, m, k);
    }
  }

  lemma {:induction false} AccessMoment(ops: seq<Op>, m: nat, k: nat)
    requires m < |ops| && k < |Run(ops[..m]).rows|
    ensures Switches(ActiveFlags(ops, k), StartFlags(ops, k), EndFlags(ops, k), m)
  {
    RunSnoc(ops, m);
    AccessAfterStep(Run(ops[..m]), ops[m], k);
  }

  /**
   * Along every run an active row stays active exactly as long as neither its owner revokes it nor an acceptance that
   * found it expired writes to it.
   */
  lemma {:induction false} AccessLastsIff(ops: seq<Op>, i: nat, j: nat, k: nat)
    requires i <= j <= |ops| && IsActive(Run(ops[..i]), k)
    ensures (forall m | i <= m <= j :: IsActive(Run(ops[..m]), k)) <==> !EndedBetween(ops, i, j, k)
  {
    var active := ActiveFlags(ops, k);
    AccessHistory(ops, i, j, k);
    ActiveThroughoutIff(active, StartFlags(ops, k), EndFlags(ops, k), i, j);
    assert forall m | 0 <= m <= |ops| :: active[m] == IsActive(Run(ops[..m]), k);
  }

  lemma ActiveThroughoutIff(active: seq<bool>, starts: seq<bool>, ends: seq<bool>, i: nat, j: nat)
    requires |active| == |starts| + 1 == |ends| + 1 && i <= j <= |starts| && active[i]
    requires forall m | i <= m < j :: Switches(active, starts, ends, m)
    ensures (forall m | i <= m <= j :: active[m]) <==> !Flagged(ends, i, j)
  {
    if Flagged(ends, i, j) {
      var m :| i <= m < j && ends[m];
      assert Switches(active, starts, ends, m);
      assert !active[m] || !active[m + 1];
    } else {
      forall m | i <= m <= j
        ensures active[m]
      {
        LastSwitch(active, starts, ends, i, m);
        assert !Flagged(ends, i, m);
      }
    }
  }

  /** A late acceptance read a pending row whose invitation had run out. */
  lemma LateReading(ops: seq<Op>, i: nat, t: Ticket)
    requires ReadAt(ops, i, t) && t.late
    ensures
      var s := Run(ops[..i]);
      t.row < |s.rows| && s.rows[t.row].status == Pending && Current(s.rows[t.row]).expiresAt < ops[i].now
  {
    FoundRow(Run(ops[..i]).rows, ops[i].token);
  }

  /** A late acceptance meets an active row exactly when another one succeeded since it read, and nothing ended that. */
  lemma {:induction false} LateMeetsActiveIff(ops: seq<Op>, i: nat, j: nat, t: Ticket)
    requires i <= j <= |ops| && ReadAt(ops, i, t) && t.late
    ensures IsActive(Run(ops[..j]), t.row)
            <==> StartedUnended(StartFlags(ops, t.row), EndFlags(ops, t.row), i, j)
  {
    LateReading(ops, i, t);
    AccessHistory(ops, i, j, t.row);
    LastSwitch(ActiveFlags(ops, t.row), StartFlags(ops, t.row), EndFlags(ops, t.row), i, j);
  }

  /** `u` was read by the `q`-th call and activated its row with the `m`-th. */
  predicate ActivatedBy(ops: seq<Op>, q: nat, m: nat, u: Ticket) {
    && q < m < |ops| && ReadAt(ops, q, u) && ops[m].WriteOp?
    && ops[m].request < |Run(ops[..m]).inFlight| && Run(ops[..m]).inFlight[ops[m].request] == u
    && Activates(Run(ops[..m]), ops[m], u.row)
  }

  lemma ActivationRead(ops: seq<Op>, m: nat, k: nat) returns (q: nat, u: Ticket)
    requires m < |ops| && Activates(Run(ops[..m]), ops[m], k)
    ensures u.row == k && !u.late && ActivatedBy(ops, q, m, u)
  {
    u := Run(ops[..m]).inFlight[ops[m].request];
    FlightHasReading(ops[..m], u);
    q :| ReadAt(ops[..m], q, u);
    assert ops[..m][..q] == ops[..q];
  }

  /** An expired invitation is not presented in time later, unless it was reopened or the clock went back. */
  lemma NotInTimeAgain(ops: seq<Op>, i: nat, q: nat, t: Ticket)
    requires i <= q < |ops| && ReadAt(ops, i, t) && t.late
    requires ops[q].ReadOp? && Presents(Run(ops[..q]), ops[q], t.row)
    ensures ReopenedBetween(ops, i, q, t.row) || ops[q].now < ops[i].now
  {
    LateReading(ops, i, t);
    if !ReopenedBetween(ops, i, q, t.row) {
      IssuesSince(ops, i, q, t.row);
      SameExpiry(Run(ops[..i]), Run(ops[..q]), ops[q], t.row, ops[i].now);
    }
  }

  lemma SameExpiry(s: State, s': State, op: Op, k: nat, now: int)
    requires op.ReadOp? && Presents(s', op, k) && k < |s.rows| && Current(s.rows[k]).expiresAt < now
    requires IssuedTo(s, k) <= IssuedTo(s', k) && |IssuedTo(s', k)| == |IssuedTo(s, k)|
    ensures op.now < now
  {
    assert s.rows[k].issued == s'.rows[k].issued;
  }

  /** What is known of the acceptance that a late one meets. */
  ghost predicate MetBy(ops: seq<Op>, i: nat, j: nat, t: Ticket, q: nat, m: nat, u: Ticket)
    requires i <= j <= |ops| && ReadAt(ops, i, t)
  {
    && i <= m < j && u.row == t.row && ActivatedBy(ops, q, m, u)
    && (q < i || ReopenedBetween(ops, i, q, t.row) || ops[q].now < ops[i].now)
  }

  /**
   * That other acceptance read before the late one did, while the invitation had not run out; or the owner had
   * reopened the row in between; or the clock went back.
   */
  lemma LateMeetsActive(ops: seq<Op>, i: nat, j: nat, t: Ticket)
    requires i <= j <= |ops| && ReadAt(ops, i, t) && t.late && IsActive(Run(ops[..j]), t.row)
    ensures exists q: nat, m: nat, u: Ticket :: MetBy(ops, i, j, t, q, m, u)
  {
    LateMeetsActiveIff(ops, i, j, t);
    var m := SomeStart(StartFlags(ops, t.row), EndFlags(ops, t.row), i, j);
    var q, u := ActivationRead(ops, m, t.row);
    ReadingPresents(ops, q, u);
    if i <= q {
      NotInTimeAgain(ops, i, q, t);
    }
    assert MetBy(ops, i, j, t, q, m, u);
  }

  lemma SomeStart(starts: seq<bool>, ends: seq<bool>, i: nat, j: nat) returns (m: nat)
    requires |ends| == |starts| && j <= |starts| && StartedUnended(starts, ends, i, j)
    ensures i <= m < j && starts[m]
  {
    m :| i <= m < j && starts[m];
  }

  /** A person reads with the first link, the owner sends a new one, and the first link is then accepted. */
  lemma OldLinkAccepted()
    ensures
      var ops := [InviteOp("owner", "o@x", "a@x", true, false, 0), ReadOp("ana", "a@x", 0, 1),
                  ReopenOp("owner", 0, true, false, 2), WriteOp(0)];
      var ticket := Ticket(0, "ana", "a@x", 0, 1, false);
      var issued := [Issue(0, INVITATION_TTL), Issue(1, 2 + INVITATION_TTL)];
      && Run(ops).rows == [Row("owner", "a@x", Active, Some("ana"), issued, Some(ticket))]
      && ReadAt(ops, 1, ticket) && ops[1].token == 0
  {
    var ops := [InviteOp("owner", "o@x", "a@x", true, false, 0), ReadOp("ana", "a@x", 0, 1),
                ReopenOp("owner", 0, true, false, 2), WriteOp(0)];
    var invited := Row("owner", "a@x", Pending, None, [Issue(0, INVITATION_TTL)], None);
    var ticket := Ticket(0, "ana", "a@x", 0, 1, false);
    ExampleInvited(invited);
    ExampleRead(invited, ticket);
    ExampleReopened(invited, ticket);
    assert Run(ops[..0]) == EMPTY;
    RunSnoc(ops, 0);
    RunSnoc(ops, 1);
    RunSnoc(ops, 2);
    RunSnoc(ops, 3);
    assert ops[..4] == ops;
  }

  lemma ExampleInvited(invited: Row)
    requires invited == Row("owner", "a@x", Pending, None, [Issue(0, INVITATION_TTL)], None)
    ensures Step(EMPTY, InviteOp("owner", "o@x", "a@x", true, false, 0)) == State([invited], 1, [])
  {
    NormalizeExamples();
    assert ExpireStale([], "owner", 0) == [];
  }

  lemma ExampleRead(invited: Row, ticket: Ticket)
    requires invited == Row("owner", "a@x", Pending, None, [Issue(0, INVITATION_TTL)], None)
    requires ticket == Ticket(0, "ana", "a@x", 0, 1, false)
    ensures Step(State([invited], 1, []), ReadOp("ana", "a@x", 0, 1)) == State([invited], 1, [ticket])
    ensures Read(State([invited], 1, []), "ana", "a@x", 0, 1) == Claimed(ticket)
  {
    assert FindByToken([invited], 0) == Some(0);
  }

  lemma ExampleReopened(invited: Row, ticket: Ticket)
    requires invited == Row("owner", "a@x", Pending, None, [Issue(0, INVITATION_TTL)], None)
    requires ticket == Ticket(0, "ana", "a@x", 0, 1, false)
    ensures
      var issued := [Issue(0, INVITATION_TTL), Issue(1, 2 + INVITATION_TTL)];
      var reopened := State([invited.(issued := issued)], 2, [ticket]);
      && Step(State([invited], 1, [ticket]), ReopenOp("owner", 0, true, false, 2)) == reopened
      && Step(reopened, WriteOp(0)).rows == [Row("owner", "a@x", Active, Some("ana"), issued, Some(ticket))]
  {
    assert LiveCount([invited], "owner", Some(0)) == 0;
    assert !LiveTaken([invited], "owner", "a@x", Some(0));
    var issued := [Issue(0, INVITATION_TTL), Issue(1, 2 + INVITATION_TTL)];
    assert Reopened(invited, 1, 2) == invited.(issued := issued);
    assert [invited][0 := invited.(issued := issued)] == [invited.(issued := issued)];
    assert !ActiveMember([invited.(issued := issued)], "owner", "ana");
  }

  /**
   * An acceptance that read an expired invitation marks the row expired whatever became of it: here the owner reopens
   * it and the person accepts the new invitation in between, and loses the access again.
   */
  lemma LateExpiryEndsAccess()
    ensures
      var ops := [InviteOp("owner", "o@x", "a@x", true, false, 0), ReadOp("ana", "a@x", 0, 1 + INVITATION_TTL),
                  ReopenOp("owner", 0, true, false, 2 + INVITATION_TTL), ReadOp("ana", "a@x", 1, 3 + INVITATION_TTL),
                  WriteOp(1), WriteOp(0)];
      && Run(ops[..5]).rows != [] && Run(ops[..5]).rows[0].status == Active
      && Run(ops).rows != [] && Run(ops).rows[0].status == Expired
  {
    var ops := [InviteOp("owner", "o@x", "a@x", true, false, 0), ReadOp("ana", "a@x", 0, 1 + INVITATION_TTL),
                ReopenOp("owner", 0, true, false, 2 + INVITATION_TTL), ReadOp("ana", "a@x", 1, 3 + INVITATION_TTL),
                WriteOp(1), WriteOp(0)];
    var invited := Row("owner", "a@x", Pending, None, [Issue(0, INVITATION_TTL)], None);
    var late := Ticket(0, "ana", "a@x", 0, 1 + INVITATION_TTL, true);
    ExampleInvited(invited);
    ExampleLate(invited, late);
    ExampleReopenedLate(invited, late);
    assert Run(ops[..0]) == EMPTY;
    RunSnoc(ops, 0);
    RunSnoc(ops, 1);
    RunSnoc(ops, 2);
    RunSnoc(ops, 3);
    RunSnoc(ops, 4);
    RunSnoc(ops, 5);
    assert ops[..6] == ops;
  }

  lemma ExampleLate(invited: Row, late: Ticket)
    requires invited == Row("owner", "a@x", Pending, None, [Issue(0, INVITATION_TTL)], None)
    requires late == Ticket(0, "ana", "a@x", 0, 1 + INVITATION_TTL, true)
    ensures Step(State([invited], 1, []), ReadOp("ana", "a@x", 0, 1 + INVITATION_TTL)) == State([invited], 1, [late])
  {
    assert FindByToken([invited], 0) == Some(0);
  }

  /** Nothing need be reopened: of two acceptances, one reads just before the invitation runs out and one just after. */
  lemma LateExpiryWithoutReopening()
    ensures
      var ops := [InviteOp("owner", "o@x", "a@x", true, false, 0), ReadOp("ana", "a@x", 0, INVITATION_TTL),
                  ReadOp("ana", "a@x", 0, 1 + INVITATION_TTL), WriteOp(0), WriteOp(1)];
      && Run(ops[..4]).rows != [] && Run(ops[..4]).rows[0].status == Active
      && Run(ops).rows != [] && Run(ops).rows[0].status == Expired
  {
    var ops := [InviteOp("owner", "o@x", "a@x", true, false, 0), ReadOp("ana", "a@x", 0, INVITATION_TTL),
                ReadOp("ana", "a@x", 0, 1 + INVITATION_TTL), WriteOp(0), WriteOp(1)];
    var invited := Row("owner", "a@x", Pending, None, [Issue(0, INVITATION_TTL)], None);
    var late := Ticket(0, "ana", "a@x", 0, 1 + INVITATION_TTL, true);
    var early := Ticket(0, "ana", "a@x", 0, INVITATION_TTL, false);
    ExampleInvited(invited);
    ExampleTwoReads(invited, early, late);
    assert Run(ops[..0]) == EMPTY;
    RunSnoc(ops, 0);
    RunSnoc(ops, 1);
    RunSnoc(ops, 2);
    RunSnoc(ops, 3);
    RunSnoc(ops, 4);
    assert ops[..5] == ops;
  }

  lemma {:induction false} ExampleTwoReads(invited: Row, early: Ticket, late: Ticket)
    requires invited == Row("owner", "a@x", Pending, None, [Issue(0, INVITATION_TTL)], None)
    requires early == Ticket(0, "ana", "a@x", 0, INVITATION_TTL, false)
    requires late == Ticket(0, "ana", "a@x", 0, 1 + INVITATION_TTL, true)
    ensures
      var active := invited.(member := Some("ana"), status := Active, via := Some(early));
      && Step(State([invited], 1, []), ReadOp("ana", "a@x", 0, INVITATION_TTL)) == State([invited], 1, [early])
      && Step(State([invited], 1, [early]), ReadOp("ana", "a@x", 0, 1 + INVITATION_TTL))
         == State([invited], 1, [early, late])
      && Step(State([invited], 1, [early, late]), WriteOp(0)) == State([active], 1, [early, late])
      && Step(State([active], 1, [early, late]), WriteOp(1)).rows == [WithStatus(active, Expired)]
  {
    assert FindByToken([invited], 0) == Some(0);
    assert !ActiveMember([invited], "owner", "ana");
  }

  lemma {:induction false} ExampleReopenedLate(invited: Row, late: Ticket)
    requires invited == Row("owner", "a@x", Pending, None, [Issue(0, INVITATION_TTL)], None)
    requires late == Ticket(0, "ana", "a@x", 0, 1 + INVITATION_TTL, true)
    ensures
      var issued := [Issue(0, INVITATION_TTL), Issue(1, 2 + INVITATION_TTL + INVITATION_TTL)];
      var row := invited.(issued := issued);
      var second := Ticket(0, "ana", "a@x", 1, 3 + INVITATION_TTL, false);
      var active := row.(member := Some("ana"), status := Active, via := Some(second));
      && Step(State([invited], 1, [late]), ReopenOp("owner", 0, true, false, 2 + INVITATION_TTL)) == State([row], 2, [late])
      && Step(State([row], 2, [late]), ReadOp("ana", "a@x", 1, 3 + INVITATION_TTL)) == State([row], 2, [late, second])
      && Step(State([row], 2, [late, second]), WriteOp(1)) == State([active], 2, [late, second])
      && Step(State([active], 2, [late, second]), WriteOp(0)).rows == [WithStatus(active, Expired)]
  {
    assert LiveCount([invited], "owner", Some(0)) == 0;
    assert !LiveTaken([invited], "owner", "a@x", Some(0));
    var issued := [Issue(0, INVITATION_TTL), Issue(1, 2 + INVITATION_TTL + INVITATION_TTL)];
    var row := invited.(issued := issued);
    var second := Ticket(0, "ana", "a@x", 1, 3 + INVITATION_TTL, false);
    assert Reopened(invited, 1, 2 + INVITATION_TTL) == row;
    assert [invited][0 := row] == [row];
    assert FindByToken([row], 1) == Some(0);
    assert !ActiveMember([row], "owner", "ana");
  }

  lemma {:induction false} NormalizeExamples()
    ensures Normalize("a@x") == "a@x" && Normalize("o@x") == "o@x"
  {
    assert Trim("a@x") == "a@x" && Trim("o@x") == "o@x";
    assert Lower("a@x") == "a@x" && Lower("o@x") == "o@x";
  }

  // ---- The service ----

  class AccountMembers {
    var rows: seq<Row>
    var nextToken: nat

    constructor ()
      ensures rows == [] && nextToken == 0
    {
      rows, nextToken := [], 0;
    }

    function View(inFlight: seq<Ticket>): State
      reads this
    {
      State(rows, nextToken, inFlight)
    }

    method InviteMember(
        actor: string, actorEmail: string, dtoEmail: string, allowed: bool, throttled: bool, now: int)
      returns (r: Result<nat, Error>)
      modifies this
      ensures (View([]), r) == Invite(old(View([])), actor, actorEmail, dtoEmail, allowed, throttled, now)
    {
      var email := Normalize(dtoEmail);
      if email == Normalize(actorEmail) {
        return Err(SelfInvite);
      }
      if !allowed {
        return Err(NotAllowed);
      }
      if throttled {
        return Err(Throttled);
      }
      rows := ExpireStale(rows, actor, now);
      if LiveCount(rows, actor, None) >= MAX_ACTIVE_MEMBERS {
        return Err(TeamFull);
      }
      if LiveTaken(rows, actor, email, None) {
        return Err(AlreadyLive);
      }
      rows := rows + [Row(actor, email, Pending, None, [Issue(nextToken, now + INVITATION_TTL)], None)];
      nextToken := nextToken + 1;
      return Ok(|rows| - 1);
    }

    method RevokeAccess(owner: string, id: nat) returns (r: Result<nat, Error>)
      modifies this`rows
      ensures (View([]), r) == Revoke(old(View([])), owner, id)
    {
      if id >= |rows| || rows[id].owner != owner {
        return Err(NotFound);
      }
      if rows[id].status == Revoked {
        assert rows == rows[id := WithStatus(rows[id], Revoked)];
        return Ok(id);
      }
      rows := rows[id := rows[id].(status := Revoked)];
      return Ok(id);
    }

    method ReopenInvitation(owner: string, id: nat, allowed: bool, throttled: bool, now: int)
      returns (r: Result<nat, Error>)
      modifies this
      ensures (View([]), r) == Reopen(old(View([])), owner, id, allowed, throttled, now)
    {
      if id >= |rows| || rows[id].owner != owner {
        return Err(NotFound);
      }
      if rows[id].status == Active {
        return Err(AlreadyActive);
      }
      if !allowed {
        return Err(NotAllowed);
      }
      if throttled {
        return Err(Throttled);
      }
      if LiveCount(rows, owner, Some(id)) >= MAX_ACTIVE_MEMBERS {
        return Err(TeamFull);
      }
      if LiveTaken(rows, owner, rows[id].email, Some(id)) {
        return Err(AlreadyLive);
      }
      rows := rows[id := Reopened(rows[id], nextToken, now)];
      nextToken := nextToken + 1;
      return Ok(id);
    }

    /** The update of an acceptance that has read its row. */
    method Activate(t: Ticket) returns (r: Result<nat, Error>)
      requires t.row < |rows|
      modifies this`rows
      ensures (rows, r) == AcceptWrite(old(rows), t)
    {
      if t.late {
        rows := rows[t.row := rows[t.row].(status := Expired)];
        return Err(InvitationExpired);
      }
      if rows[t.row].status != Pending {
        return Err(AlreadyAccepted);
      }
      if rows[t.row].owner == t.actor || ActiveMember(rows, rows[t.row].owner, t.actor) {
        return Err(DatabaseError);
      }
      rows := rows[t.row := rows[t.row].(member := Some(t.actor), status := Active, via := Some(t))];
      return Ok(t.row);
    }

    /** An acceptance nothing interrupts. */
    method Accept(actor: string, actorEmail: string, token: nat, now: int) returns (r: Result<nat, Error>)
      modifies this`rows
      ensures
        match Read(old(View([])), actor, actorEmail, token, now)
        case Refused(e) => rows == old(rows) && r == Err(e)
        case AlreadyIn => rows == old(rows) && r.Ok? && r.value < |rows| && rows[r.value].member == Some(actor)
        case Claimed(t) => t.row < |old(rows)| && (rows, r) == AcceptWrite(old(rows), t)
    {
      FoundRow(rows, token);
      var reading := Read(View([]), actor, actorEmail, token, now);
      match reading {
        case Refused(e) => return Err(e);
        case AlreadyIn => return Ok(FindByToken(rows, token).value);
        case Claimed(t) => r := Activate(t);
      }
    }
  }
}
