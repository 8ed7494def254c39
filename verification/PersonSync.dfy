/** Pushing the associated persons to Bridge: adopt a remote person, update it, or create it, and remember its id. */
module PersonSync {
  import opened Wrappers
  import opened Text
  import opened Sequences
  import opened AssociatedPersons
  import Documents

  /** An id that is not a text is None. */
  datatype Remote = Remote(id: Option<string>, firstName: string, lastName: string, email: string)

  datatype Request = Put(id: string) | Post(sourceId: string)

  /** The rows of one business, and the Bridge ids held by rows of other businesses. */
  datatype Tables = Tables(
    directors: seq<DirectorRow>, ubos: seq<UboRow>, foreignDirectorIds: set<string>, foreignUboIds: set<string>)

  /** What a person meets: the id Bridge would give it, a failing request, a failing row update. */
  datatype Reply = Reply(id: Option<string>, requestFails: bool, rowFails: bool)

  /** `remoteIds` holds the remote id of each person handled so far. */
  datatype Sync = Sync(tables: Tables, matched: set<string>, requests: seq<Request>, remoteIds: seq<string>)

  predicate HasId(id: Option<string>) {
    id.Some? && id.value != ""
  }

  predicate SamePerson(e: Entry, r: Remote) {
    && Normalize(r.email) == Normalize(e.email) && Normalize(r.firstName) == Normalize(e.firstName)
    && Normalize(r.lastName) == Normalize(e.lastName)
  }

  /** Remote persons with the same email and full name, not yet taken. */
  function Candidates(e: Entry, remote: seq<Remote>, matched: set<string>): seq<string> {
    if remote == [] || Normalize(e.email) == "" then []
    else
      var n := |remote| - 1;
      var r := remote[n];
      Candidates(e, remote[..n], matched)
      + if r.id.Some? && r.id.value !in matched && SamePerson(e, r) then [r.id.value] else []
  }

  /** The stored id, or the only candidate; several candidates are an error. */
  function Chosen(e: Entry, remote: seq<Remote>, matched: set<string>): Result<Option<string>, Error> {
    if HasId(e.bridgeId) then Ok(e.bridgeId)
    else
      var candidates := Candidates(e, remote, matched);
      if |candidates| > 1 then Err(Ambiguous)
      else if |candidates| == 1 then Ok(Some(candidates[0]))
      else Ok(None)
  }

  function SetDirector(rows: seq<DirectorRow>, id: string, bridgeId: string): (r: seq<DirectorRow>)
    ensures |r| == |rows|
  {
    seq(|rows|, i requires 0 <= i < |rows| =>
      if rows[i].id == id then rows[i].(bridgeId := Some(bridgeId)) else rows[i])
  }

  function SetUbo(rows: seq<UboRow>, id: string, bridgeId: string): (r: seq<UboRow>)
    ensures |r| == |rows|
  {
    seq(|rows|, i requires 0 <= i < |rows| =>
      if rows[i].id == id then rows[i].(bridgeId := Some(bridgeId)) else rows[i])
  }

  function SetBridgeId(t: Tables, e: Entry, bridgeId: string): Tables {
    if e.source == Documents.Director then t.(directors := SetDirector(t.directors, e.sourceId, bridgeId))
    else t.(ubos := SetUbo(t.ubos, e.sourceId, bridgeId))
  }

  predicate SameTable(a: Entry, b: Entry) {
    (a.source == Documents.Director) == (b.source == Documents.Director)
  }

  /** Another row of the table holds this id, so its unique index refuses the update. */
  predicate Clashes(t: Tables, e: Entry, id: string) {
    if e.source == Documents.Director then
      id in t.foreignDirectorIds || exists d :: d in t.directors && d.id != e.sourceId && d.bridgeId == Some(id)
    else
      id in t.foreignUboIds || exists u :: u in t.ubos && u.id != e.sourceId && u.bridgeId == Some(id)
  }

  function SyncOne(s: Sync, e: Entry, remote: seq<Remote>, reply: Reply): (Sync, Option<Error>) {
    match Chosen(e, remote, s.matched)
    case Err(error) => (s, Some(error))
    case Ok(chosen) =>
      var sent := s.(requests := s.requests + [if HasId(chosen) then Put(chosen.value) else Post(e.sourceId)]);
      var id := if HasId(chosen) then chosen else reply.id;
      if reply.requestFails then (sent, Some(RequestFailed))
      else if !HasId(id) then (sent, Some(BadRemoteId))
      else if reply.rowFails || Clashes(s.tables, e, id.value) then
        (sent.(matched := s.matched + {id.value}), Some(RowRejected))
      else
        (sent.(tables := SetBridgeId(s.tables, e, id.value), matched := s.matched + {id.value},
               remoteIds := s.remoteIds + [id.value]), None)
  }

  /** Stops at the first error. */
  function SyncAll(s: Sync, persons: seq<Entry>, remote: seq<Remote>, replies: seq<Reply>): (Sync, Option<Error>)
    requires |replies| == |persons|
  {
    if persons == [] then (s, None)
    else
      var n := |persons| - 1;
      var (mid, error) := SyncAll(s, persons[..n], remote, replies[..n]);
      if error.Some? then (mid, error) else SyncOne(mid, persons[n], remote, replies[n])
  }

  function Begin(t: Tables): Sync {
    Sync(t, {}, [], [])
  }

  // ---- Whom a person is taken for ----

  predicate Alike(a: string, b: string) {
    Lower(Trim(a)) == Lower(Trim(b))
  }

  /** A remote person nobody took yet, with the email, first and last name of the entry up to case and blanks around. */
  predicate Fits(e: Entry, matched: set<string>, r: Remote) {
    && Trim(e.email) != "" && r.id.Some? && r.id.value !in matched
    && Alike(e.email, r.email) && Alike(e.firstName, r.firstName) && Alike(e.lastName, r.lastName)
  }

  lemma {:induction false} CandidatesAt(e: Entry, remote: seq<Remote>, matched: set<string>)
    ensures
      var c := Candidates(e, remote, matched);
      && (c == [] <==> forall r | r in remote :: !Fits(e, matched, r))
      && (c != [] ==> exists r :: r in remote && Fits(e, matched, r) && r.id == Some(c[0]))
      && (|c| > 1 <==> exists i, j | 0 <= i < j < |remote| :: Fits(e, matched, remote[i]) && Fits(e, matched, remote[j]))
  {
    assert Normalize(e.email) == "" <==> Trim(e.email) == "" by {
      assert |Lower(Trim(e.email))| == |Trim(e.email)|;
    }
    if remote != [] && Trim(e.email) != "" {
      var rest, last := remote[..|remote| - 1], remote[|remote| - 1];
      CandidatesAt(e, rest, matched);
      assert Fits(e, matched, last) <==> last.id.Some? && last.id.value !in matched && SamePerson(e, last);
      LastOf(e, matched, rest, last, remote);
    }
  }

  lemma LastOf(e: Entry, matched: set<string>, rest: seq<Remote>, last: Remote, remote: seq<Remote>)
    requires remote == rest + [last]
    ensures (forall r | r in remote :: !Fits(e, matched, r)) <==>
            (forall r | r in rest :: !Fits(e, matched, r)) && !Fits(e, matched, last)
    ensures (exists i, j | 0 <= i < j < |remote| :: Fits(e, matched, remote[i]) && Fits(e, matched, remote[j])) <==>
            || (exists i, j | 0 <= i < j < |rest| :: Fits(e, matched, rest[i]) && Fits(e, matched, rest[j]))
            || (Fits(e, matched, last) && exists r :: r in rest && Fits(e, matched, r))
  {
    assert forall r :: r in remote <==> r in rest || r == last;
    assert remote[|rest|] == last && forall i | 0 <= i < |rest| :: remote[i] == rest[i];
    if Fits(e, matched, last) && exists r :: r in rest && Fits(e, matched, r) {
      var r :| r in rest && Fits(e, matched, r);
      var i :| 0 <= i < |rest| && rest[i] == r;
      assert Fits(e, matched, remote[i]) && Fits(e, matched, remote[|rest|]);
    }
  }

  /**
   * A stored id is used as it is; otherwise two fitting remote persons are an error, one is adopted, and without any
   * the person is new.
   */
  lemma ChosenIff(e: Entry, remote: seq<Remote>, matched: set<string>)
    ensures
      var c := Chosen(e, remote, matched);
      if e.bridgeId.Some? && e.bridgeId.value != "" then c == Ok(e.bridgeId)
      else
        && (c == Err(Ambiguous) <==>
              exists i, j | 0 <= i < j < |remote| :: Fits(e, matched, remote[i]) && Fits(e, matched, remote[j]))
        && (c == Ok(None) <==> forall r | r in remote :: !Fits(e, matched, r))
        && (c != Err(Ambiguous) && c != Ok(None) ==>
              exists r :: r in remote && Fits(e, matched, r) && c == Ok(Some(r.id.value)))
  {
    CandidatesAt(e, remote, matched);
  }

  /** The row of the person got this Bridge id, and nothing else in the tables changed. */
  ghost predicate OnlyLinks(t: Tables, t': Tables, e: Entry, id: string) {
    && t'.foreignDirectorIds == t.foreignDirectorIds && t'.foreignUboIds == t.foreignUboIds
    && |t'.directors| == |t.directors| && |t'.ubos| == |t.ubos|
    && (forall i | 0 <= i < |t.directors| ::
          t'.directors[i] == if e.source == Documents.Director && t.directors[i].id == e.sourceId
                             then t.directors[i].(bridgeId := Some(id)) else t.directors[i])
    && (forall i | 0 <= i < |t.ubos| ::
          t'.ubos[i] == if e.source != Documents.Director && t.ubos[i].id == e.sourceId
                        then t.ubos[i].(bridgeId := Some(id)) else t.ubos[i])
  }

  /** Another row of the same table, of this business or another, has the id. */
  ghost predicate TakenByAnother(t: Tables, e: Entry, id: string) {
    if e.source == Documents.Director then
      || id in t.foreignDirectorIds
      || exists i | 0 <= i < |t.directors| :: t.directors[i].bridgeId == Some(id) && t.directors[i].id != e.sourceId
    else
      || id in t.foreignUboIds
      || exists i | 0 <= i < |t.ubos| :: t.ubos[i].bridgeId == Some(id) && t.ubos[i].id != e.sourceId
  }

  lemma TakenIff(t: Tables, e: Entry, id: string)
    ensures Clashes(t, e, id) <==> TakenByAnother(t, e, id)
  {
    if TakenByAnother(t, e, id) {
      if e.source == Documents.Director && id !in t.foreignDirectorIds {
        var i :| 0 <= i < |t.directors| && t.directors[i].bridgeId == Some(id) && t.directors[i].id != e.sourceId;
        assert t.directors[i] in t.directors;
      } else if e.source != Documents.Director && id !in t.foreignUboIds {
        var i :| 0 <= i < |t.ubos| && t.ubos[i].bridgeId == Some(id) && t.ubos[i].id != e.sourceId;
        assert t.ubos[i] in t.ubos;
      }
    }
  }

  /**
   * One person: updated under the id it has or adopts, otherwise created under the id Bridge answers. An error leaves
   * the tables; success takes the reply, a row no other row of the table contradicts, and exactly one request.
   */
  lemma SyncOneEffect(s: Sync, e: Entry, remote: seq<Remote>, reply: Reply, chosen: Option<string>)
    requires Chosen(e, remote, s.matched) == Ok(chosen)
    ensures
      var (s', error) := SyncOne(s, e, remote, reply);
      var known := chosen.Some? && chosen.value != "";
      var id := if known then chosen else reply.id;
      && s'.requests == s.requests + [if known then Put(chosen.value) else Post(e.sourceId)]
      && (error == Some(RequestFailed) <==> reply.requestFails)
      && (error == Some(BadRemoteId) <==> !reply.requestFails && (id == None || id == Some("")))
      && (error == None <==>
            !reply.requestFails && id.Some? && id.value != "" && !reply.rowFails
            && !TakenByAnother(s.tables, e, id.value))
      && (error == None ==> s'.remoteIds == s.remoteIds + [id.value] && OnlyLinks(s.tables, s'.tables, e, id.value))
      && (error != None ==> s'.remoteIds == s.remoteIds && s'.tables == s.tables)
      && s'.matched == s.matched + if error == None || error == Some(RowRejected) then {id.value} else {}
  {
    var id := if HasId(chosen) then chosen else reply.id;
    if id.Some? {
      TakenIff(s.tables, e, id.value);
    }
  }

  // ---- What a finished synchronisation has done ----

  ghost predicate SameButBridge(t: Tables, t': Tables) {
    && |t'.directors| == |t.directors| && |t'.ubos| == |t.ubos|
    && t'.foreignDirectorIds == t.foreignDirectorIds && t'.foreignUboIds == t.foreignUboIds
    && (forall i | 0 <= i < |t.directors| ::
          t'.directors[i] == t.directors[i].(bridgeId := t'.directors[i].bridgeId))
    && (forall i | 0 <= i < |t.ubos| :: t'.ubos[i] == t.ubos[i].(bridgeId := t'.ubos[i].bridgeId))
  }

  /** The row of the person holds this id. */
  ghost predicate Recorded(t: Tables, e: Entry, id: string) {
    && (e.source == Documents.Director ==> forall d | d in t.directors && d.id == e.sourceId :: d.bridgeId == Some(id))
    && (e.source != Documents.Director ==> forall u | u in t.ubos && u.id == e.sourceId :: u.bridgeId == Some(id))
  }

  /** The row holds this id, and no other row of its table does. */
  ghost predicate Settled(t: Tables, e: Entry, id: string) {
    id != "" && Recorded(t, e, id) && !Clashes(t, e, id)
  }

  ghost predicate DistinctPersons(persons: seq<Entry>) {
    forall i, j | 0 <= i < j < |persons| :: persons[i].sourceId != persons[j].sourceId || !SameTable(persons[i], persons[j])
  }

  ghost predicate Synced(t: Tables, s: Sync, persons: seq<Entry>) {
    && |s.remoteIds| == |s.requests| == |persons| && SameButBridge(t, s.tables) && s.matched == Elements(s.remoteIds)
    && (forall k | 0 <= k < |persons| :: Settled(s.tables, persons[k], s.remoteIds[k]))
  }

  /** An update that does not clash settles its person and unsettles nobody. */
  lemma SettlesOne(t: Tables, e: Entry, id: string)
    requires id != "" && !Clashes(t, e, id)
    ensures Settled(SetBridgeId(t, e, id), e, id)
  {
  }

  lemma StaysSettled(t: Tables, e: Entry, id: string, other: Entry, otherId: string)
    requires Settled(t, other, otherId) && Rooted(t, other) && !Clashes(t, e, id)
    requires other.sourceId != e.sourceId || !SameTable(e, other)
    ensures Settled(SetBridgeId(t, e, id), other, otherId) && (SameTable(e, other) ==> id != otherId)
  {
  }

  /** The person has a row. */
  predicate Rooted(t: Tables, e: Entry) {
    if e.source == Documents.Director then exists d :: d in t.directors && d.id == e.sourceId
    else exists u :: u in t.ubos && u.id == e.sourceId
  }

  ghost predicate AllRooted(t: Tables, persons: seq<Entry>) {
    forall e | e in persons :: Rooted(t, e)
  }

  lemma SyncOneSynced(t: Tables, s: Sync, done: seq<Entry>, e: Entry, remote: seq<Remote>, reply: Reply)
    requires Synced(t, s, done) && AllRooted(t, done) && DistinctPersons(done + [e])
    requires SyncOne(s, e, remote, reply).1.None?
    ensures Synced(t, SyncOne(s, e, remote, reply).0, done + [e])
    ensures SyncOne(s, e, remote, reply).0.remoteIds[..|done|] == s.remoteIds
  {
    var s' := SyncOne(s, e, remote, reply).0;
    var id := s'.remoteIds[|done|];
    assert s'.remoteIds == s.remoteIds + [id];
    assert Elements(s'.remoteIds) == Elements(s.remoteIds) + {id};
    SettlesOne(s.tables, e, id);
    forall k | 0 <= k < |done|
      ensures Settled(s'.tables, done[k], s'.remoteIds[k])
    {
      assert done[k] in done && (done + [e])[k] == done[k] && (done + [e])[|done|] == e;
      StaysSettled(s.tables, e, id, done[k], s.remoteIds[k]);
    }
  }

  lemma {:induction false} SyncAllSynced(t: Tables, persons: seq<Entry>, remote: seq<Remote>, replies: seq<Reply>)
    requires |replies| == |persons| && DistinctPersons(persons) && AllRooted(t, persons)
    requires SyncAll(Begin(t), persons, remote, replies).1.None?
    ensures Synced(t, SyncAll(Begin(t), persons, remote, replies).0, persons)
  {
    if persons != [] {
      var n := |persons| - 1;
      SyncAllSynced(t, persons[..n], remote, replies[..n]);
      assert persons[..n] + [persons[n]] == persons;
      SyncOneSynced(t, SyncAll(Begin(t), persons[..n], remote, replies[..n]).0, persons[..n], persons[n], remote, replies[n]);
    }
  }

  // ---- Who gets which remote person ----

  function AssignedBy(t: Tables, persons: seq<Entry>, remote: seq<Remote>, replies: seq<Reply>): seq<string>
    requires |replies| == |persons|
  {
    SyncAll(Begin(t), persons, remote, replies).0.remoteIds
  }

  /** The person got the chosen id, or the one Bridge answered. */
  ghost predicate Given(e: Entry, remote: seq<Remote>, earlier: seq<string>, reply: Reply, id: string) {
    var chosen := Chosen(e, remote, Elements(earlier));
    && chosen.Ok?
    && (HasId(chosen.value) ==> id == chosen.value.value)
    && (!HasId(chosen.value) ==> HasId(reply.id) && id == reply.id.value)
  }

  lemma LastGiven(t: Tables, persons: seq<Entry>, remote: seq<Remote>, replies: seq<Reply>)
    requires |replies| == |persons| && DistinctPersons(persons) && AllRooted(t, persons) && persons != []
    requires SyncAll(Begin(t), persons, remote, replies).1.None?
    ensures
      var n := |persons| - 1;
      var before, ids := AssignedBy(t, persons[..n], remote, replies[..n]), AssignedBy(t, persons, remote, replies);
      && SyncAll(Begin(t), persons[..n], remote, replies[..n]).1.None?
      && |before| == n && |ids| == n + 1 && ids[..n] == before
      && Given(persons[n], remote, before, replies[n], ids[n])
  {
    var n := |persons| - 1;
    SyncAllSynced(t, persons[..n], remote, replies[..n]);
    assert SyncAll(Begin(t), persons[..n], remote, replies[..n]).0.remoteIds
        == AssignedBy(t, persons[..n], remote, replies[..n]);
  }

  lemma {:induction false} AssignedAt(t: Tables, persons: seq<Entry>, remote: seq<Remote>, replies: seq<Reply>, k: nat)
    requires Succeeds(t, persons, remote, replies) && k < |persons|
    ensures
      var ids := AssignedBy(t, persons, remote, replies);
      |ids| == |persons| && Given(persons[k], remote, ids[..k], replies[k], ids[k])
  {
    var n := |persons| - 1;
    LastGiven(t, persons, remote, replies);
    var ids := AssignedBy(t, persons, remote, replies);
    if k < n {
      AssignedAt(t, persons[..n], remote, replies[..n], k);
      assert ids[..n][..k] == ids[..k];
    }
  }

  /** The persons are different rows of the tables, and all of them went through. */
  ghost predicate Succeeds(t: Tables, persons: seq<Entry>, remote: seq<Remote>, replies: seq<Reply>) {
    && |replies| == |persons| && DistinctPersons(persons) && AllRooted(t, persons)
    && SyncAll(Begin(t), persons, remote, replies).1.None?
  }

  lemma {:induction false} CandidatesAreFree(e: Entry, remote: seq<Remote>, matched: set<string>)
    ensures forall id | id in Candidates(e, remote, matched) ::
              id !in matched && exists r :: r in remote && r.id == Some(id) && SamePerson(e, r)
  {
    if remote != [] {
      CandidatesAreFree(e, remote[..|remote| - 1], matched);
    }
  }

  lemma {:induction false} FreeMatchIsCandidate(e: Entry, remote: seq<Remote>, matched: set<string>, r: Remote)
    requires r in remote && Normalize(e.email) != "" && SamePerson(e, r) && r.id.Some? && r.id.value !in matched
    ensures r.id.value in Candidates(e, remote, matched)
  {
    var n := |remote| - 1;
    if remote[n] != r {
      assert remote == remote[..n] + [remote[n]];
      FreeMatchIsCandidate(e, remote[..n], matched, r);
    }
  }

  /** Bridge gives created persons ids that are in use nowhere else. */
  ghost predicate FreshAnswers(persons: seq<Entry>, remote: seq<Remote>, replies: seq<Reply>)
    requires |replies| == |persons|
  {
    && (forall i, j | 0 <= i < j < |replies| && HasId(replies[i].id) :: replies[i].id != replies[j].id)
    && (forall i, r | 0 <= i < |replies| && r in remote && HasId(replies[i].id) :: replies[i].id != r.id)
    && (forall i, j | 0 <= i < |replies| && 0 <= j < |persons| && HasId(replies[i].id) ::
          replies[i].id != persons[j].bridgeId)
  }

  /** Two persons without a stored id never end up with the same remote person. */
  lemma UnstoredNeverShare(
      t: Tables, persons: seq<Entry>, remote: seq<Remote>, replies: seq<Reply>, i: nat, j: nat)
    requires Succeeds(t, persons, remote, replies) && FreshAnswers(persons, remote, replies)
    requires i < j < |persons| && !HasId(persons[j].bridgeId)
    ensures
      var ids := AssignedBy(t, persons, remote, replies);
      |ids| == |persons| && ids[i] != ids[j]
  {
    var ids := AssignedBy(t, persons, remote, replies);
    AssignedAt(t, persons, remote, replies, i);
    AssignedAt(t, persons, remote, replies, j);
    CandidatesAreFree(persons[j], remote, Elements(ids[..j]));
    CandidatesAreFree(persons[i], remote, Elements(ids[..i]));
    assert ids[..j][i] == ids[i];
    assert ids[i] in Elements(ids[..j]);
  }

  /** Two directors, or two owners, never end up with the same remote person: the table's index refuses the second. */
  lemma SameTableNeverShare(
      t: Tables, persons: seq<Entry>, remote: seq<Remote>, replies: seq<Reply>, i: nat, j: nat)
    requires Succeeds(t, persons, remote, replies) && i < j < |persons| && SameTable(persons[i], persons[j])
    ensures
      var ids := AssignedBy(t, persons, remote, replies);
      |ids| == |persons| && ids[i] != ids[j]
  {
    SyncAllSynced(t, persons, remote, replies);
    var s := SyncAll(Begin(t), persons, remote, replies).0;
    assert persons[i] in persons;
    assert Settled(s.tables, persons[i], s.remoteIds[i]) && Settled(s.tables, persons[j], s.remoteIds[j]);
  }

  /** The earlier person stores the id of the later one, or has none and looks like the remote person of that id. */
  predicate Claims(persons: seq<Entry>, remote: seq<Remote>, i: nat, j: nat)
    requires i < j < |persons|
  {
    var e, later := persons[i], persons[j];
    && HasId(later.bridgeId)
    && (e.bridgeId == later.bridgeId
        || (!HasId(e.bridgeId) && Normalize(e.email) != "" && exists r :: r in remote && r.id == later.bridgeId && SamePerson(e, r)))
  }

  /** A person without a stored id gets what a later row stores exactly when that remote person was its candidate. */
  lemma StoredShareIff(e: Entry, later: Entry, remote: seq<Remote>, earlier: seq<string>, reply: Reply, id: string)
    requires Given(e, remote, earlier, reply, id) && HasId(later.bridgeId) && reply.id != later.bridgeId
    ensures id == later.bridgeId.value <==>
            || e.bridgeId == later.bridgeId
            || (!HasId(e.bridgeId) && later.bridgeId.value in Candidates(e, remote, Elements(earlier)))
  {
  }

  /** Sharing an id takes a claim. */
  lemma SharingIsClaimed(t: Tables, persons: seq<Entry>, remote: seq<Remote>, replies: seq<Reply>, i: nat, j: nat)
    requires Succeeds(t, persons, remote, replies) && FreshAnswers(persons, remote, replies) && i < j < |persons|
    ensures
      var ids := AssignedBy(t, persons, remote, replies);
      |ids| == |persons| && (ids[i] == ids[j] ==> Claims(persons, remote, i, j))
  {
    var ids := AssignedBy(t, persons, remote, replies);
    AssignedAt(t, persons, remote, replies, i);
    AssignedAt(t, persons, remote, replies, j);
    if HasId(persons[j].bridgeId) {
      assert ids[j] == persons[j].bridgeId.value;
      StoredShareIff(persons[i], persons[j], remote, ids[..i], replies[i], ids[i]);
      CandidatesAreFree(persons[i], remote, Elements(ids[..i]));
    } else {
      UnstoredNeverShare(t, persons, remote, replies, i, j);
    }
  }

  /** A claimed id is shared: by the claimant, or by an earlier person who took it first. */
  lemma ClaimedIsShared(t: Tables, persons: seq<Entry>, remote: seq<Remote>, replies: seq<Reply>, i: nat, j: nat)
    returns (k: nat)
    requires Succeeds(t, persons, remote, replies) && FreshAnswers(persons, remote, replies)
    requires i < j < |persons| && Claims(persons, remote, i, j)
    ensures
      var ids := AssignedBy(t, persons, remote, replies);
      |ids| == |persons| && k <= i && ids[k] == ids[j]
  {
    var ids := AssignedBy(t, persons, remote, replies);
    AssignedAt(t, persons, remote, replies, i);
    AssignedAt(t, persons, remote, replies, j);
    var id := persons[j].bridgeId.value;
    assert ids[j] == id;
    k := i;
    if persons[i].bridgeId != persons[j].bridgeId {
      if id in Elements(ids[..i]) {
        k :| 0 <= k < i && ids[..i][k] == id;
      } else {
        var r :| r in remote && r.id == persons[j].bridgeId && SamePerson(persons[i], r);
        FreeMatchIsCandidate(persons[i], remote, Elements(ids[..i]), r);
        StoredShareIff(persons[i], persons[j], remote, ids[..i], replies[i], ids[i]);
      }
    }
  }

  /** Decided before the call: nobody claims the id of a later row of the other table. */
  predicate Unclaimed(persons: seq<Entry>, remote: seq<Remote>) {
    forall i, j | 0 <= i < j < |persons| && !SameTable(persons[i], persons[j]) :: !Claims(persons, remote, i, j)
  }

  ghost predicate AllDistinct(ids: seq<string>) {
    forall i, j | 0 <= i < j < |ids| :: ids[i] != ids[j]
  }

  lemma {:induction false} UnclaimedPair(
      t: Tables, persons: seq<Entry>, remote: seq<Remote>, replies: seq<Reply>, i: nat, j: nat)
    requires Succeeds(t, persons, remote, replies) && FreshAnswers(persons, remote, replies) && i < j < |persons|
    requires !SameTable(persons[i], persons[j]) ==> !Claims(persons, remote, i, j)
    ensures
      var ids := AssignedBy(t, persons, remote, replies);
      |ids| == |persons| && ids[i] != ids[j]
  {
    if SameTable(persons[i], persons[j]) {
      SameTableNeverShare(t, persons, remote, replies, i, j);
    } else {
      SharingIsClaimed(t, persons, remote, replies, i, j);
    }
  }

  lemma {:induction false} UnclaimedAreDistinct(t: Tables, persons: seq<Entry>, remote: seq<Remote>, replies: seq<Reply>)
    requires Succeeds(t, persons, remote, replies) && FreshAnswers(persons, remote, replies) && Unclaimed(persons, remote)
    ensures AllDistinct(AssignedBy(t, persons, remote, replies))
  {
    var ids := AssignedBy(t, persons, remote, replies);
    SyncAllSynced(t, persons, remote, replies);
    forall i, j | 0 <= i < j < |ids|
      ensures ids[i] != ids[j]
    {
      UnclaimedPair(t, persons, remote, replies, i, j);
    }
  }

  lemma {:induction false} ClaimedAreNotDistinct(t: Tables, persons: seq<Entry>, remote: seq<Remote>, replies: seq<Reply>)
    requires Succeeds(t, persons, remote, replies) && FreshAnswers(persons, remote, replies) && !Unclaimed(persons, remote)
    ensures !AllDistinct(AssignedBy(t, persons, remote, replies))
  {
    var i: nat, j: nat :| i < j < |persons| && !SameTable(persons[i], persons[j]) && Claims(persons, remote, i, j);
    var k := ClaimedIsShared(t, persons, remote, replies, i, j);
  }

  /**
   * Of a successful synchronisation, every person got a remote person of its own exactly when, before the call, no
   * person claimed the id stored by a later row of the other table: by storing it too, or by having no id and the
   * email and full name of that remote person.
   */
  lemma {:induction false} OwnRemoteIff(t: Tables, persons: seq<Entry>, remote: seq<Remote>, replies: seq<Reply>)
    requires Succeeds(t, persons, remote, replies) && FreshAnswers(persons, remote, replies)
    ensures |AssignedBy(t, persons, remote, replies)| == |persons|
    ensures AllDistinct(AssignedBy(t, persons, remote, replies)) <==> Unclaimed(persons, remote)
  {
    SyncAllSynced(t, persons, remote, replies);
    if Unclaimed(persons, remote) {
      UnclaimedAreDistinct(t, persons, remote, replies);
    } else {
      ClaimedAreNotDistinct(t, persons, remote, replies);
    }
  }

  function Persons(l: Lists): seq<Entry> {
    l.directors + l.independent
  }

  /** The list built from a director and an owner that both have a tax number. */
  lemma ListOfTwo(f: Files, b: Business, d: DirectorRow, u: UboRow)
    requires d == DirectorRow("d1", "Ana", "Paz", "a@x", "CEO", "", "", "77", true, None)
    requires u == UboRow("u1", "Ana", "Paz", "a@x", "", "", "", "78", true, false, None, Some("p1"))
    ensures
      Build(f, b, [d], [u])
      == Ok(Lists([Entry(Documents.Director, "d1", None, "Ana", "Paz", "a@x", "CEO", true, false, true)],
                  [Entry(Documents.Ubo, "u1", Some("p1"), "Ana", "Paz", "a@x", "", false, true, true)]))
  {
    var a := Entry(Documents.Director, "d1", None, "Ana", "Paz", "a@x", "CEO", true, false, true);
    assert DirectorEntry(f, b, d) == Ok(a);
    assert DirectorEntries(f, b, [d][..0]) == Ok([]);
    assert DirectorEntries(f, b, [d]) == Ok([] + [a]);
    var y := Entry(Documents.Ubo, "u1", Some("p1"), "Ana", "Paz", "a@x", "", false, true, true);
    assert IndependentEntry(f, b, u) == Ok(y);
    assert AddUbo(f, b, Lists([a], []), u) == Ok(Lists([a], [] + [y]));
    assert AddUbos(f, b, Lists([a], []), [u][..0]) == Ok(Lists([a], []));
    assert AddUbos(f, b, Lists([a], []), [u]) == AddUbo(f, b, Lists([a], []), u);
    assert [] + [a] == [a] && [] + [y] == [y];
  }

  /** A director without an id adopts the remote person whose id the next person of the list, an owner, stores. */
  lemma StoredIdCanBeTaken(f: Files, b: Business)
    ensures
      var d := DirectorRow("d1", "Ana", "Paz", "a@x", "CEO", "", "", "77", true, None);
      var u := UboRow("u1", "Ana", "Paz", "a@x", "", "", "", "78", true, false, None, Some("p1"));
      var none := Reply(None, false, false);
      && Build(f, b, [d], [u]).Ok? && |Persons(Build(f, b, [d], [u]).value)| == 2
      && var (s, error) := SyncAll(Begin(Tables([d], [u], {}, {})), Persons(Build(f, b, [d], [u]).value),
                                   [Remote(Some("p1"), "Ana", "Paz", "a@x")], [none, none]);
         error.None? && s.remoteIds == ["p1", "p1"]
  {
    var d := DirectorRow("d1", "Ana", "Paz", "a@x", "CEO", "", "", "77", true, None);
    var u := UboRow("u1", "Ana", "Paz", "a@x", "", "", "", "78", true, false, None, Some("p1"));
    var x := Entry(Documents.Director, "d1", None, "Ana", "Paz", "a@x", "CEO", true, false, true);
    var y := Entry(Documents.Ubo, "u1", Some("p1"), "Ana", "Paz", "a@x", "", false, true, true);
    ListOfTwo(f, b, d, u);
    assert [x] + [y] == [x, y];
    BothGetOneId(d, u, x, y);
  }

  lemma BothGetOneId(d: DirectorRow, u: UboRow, x: Entry, y: Entry)
    requires x == Entry(Documents.Director, "d1", None, "Ana", "Paz", "a@x", "CEO", true, false, true)
    requires y == Entry(Documents.Ubo, "u1", Some("p1"), "Ana", "Paz", "a@x", "", false, true, true)
    requires d.id == "d1" && d.bridgeId == None && u.id == "u1" && u.bridgeId == Some("p1")
    ensures
      var none := Reply(None, false, false);
      var (s, error) := SyncAll(Begin(Tables([d], [u], {}, {})), [x, y], [Remote(Some("p1"), "Ana", "Paz", "a@x")],
                                [none, none]);
      error.None? && s.remoteIds == ["p1", "p1"]
  {
    var none := Reply(None, false, false);
    var r := Remote(Some("p1"), "Ana", "Paz", "a@x");
    assert Trim("a@x") == "a@x" && Lower("a@x") == "a@x";
    assert Candidates(x, [r][..0], {}) == [];
    assert Candidates(x, [r], {}) == ["p1"];
    var begin := Begin(Tables([d], [u], {}, {}));
    assert SyncAll(begin, [x, y][..1][..0], [r], [none, none][..1][..0]) == (begin, None);
    assert [x, y][..1] == [x];
    assert SyncAll(begin, [x, y][..1], [r], [none, none][..1]).1.None?;
  }

  // ---- Synchronising again ----

  /** Writing the id a row holds changes nothing. */
  lemma RecordedAgain(t: Tables, e: Entry, id: string)
    requires Recorded(t, e, id)
    ensures SetBridgeId(t, e, id) == t
  {
    if e.source == Documents.Director {
      assert forall i | 0 <= i < |t.directors| :: t.directors[i] in t.directors;
      assert SetDirector(t.directors, e.sourceId, id) == t.directors;
    } else {
      assert forall i | 0 <= i < |t.ubos| :: t.ubos[i] in t.ubos;
      assert SetUbo(t.ubos, e.sourceId, id) == t.ubos;
    }
  }

  /** Persons whose rows are settled with the ids they store are only updated, up to the first failure. */
  lemma {:induction false} StoredOnlyPuts(
      t: Tables, persons: seq<Entry>, ids: seq<string>, remote: seq<Remote>, replies: seq<Reply>)
    requires |replies| == |persons| && HoldIds(persons, ids)
    requires forall k | 0 <= k < |persons| :: Settled(t, persons[k], ids[k])
    ensures
      var (s, error) := SyncAll(Begin(t), persons, remote, replies);
      && s.tables == t && |s.requests| <= |persons|
      && (forall i | 0 <= i < |s.requests| :: s.requests[i] == Put(ids[i]))
      && ((forall r | r in replies :: !r.requestFails && !r.rowFails) ==> error.None?)
      && (error.None? ==> |s.requests| == |persons|)
  {
    if persons != [] {
      var n := |persons| - 1;
      StoredOnlyPuts(t, persons[..n], ids[..n], remote, replies[..n]);
      RecordedAgain(t, persons[n], ids[n]);
      assert replies[n] in replies && forall r | r in replies[..n] :: r in replies;
      assert Settled(t, persons[n], ids[n]);
    }
  }

  ghost predicate DistinctUbos(ubos: seq<UboRow>) {
    forall i, j | 0 <= i < j < |ubos| :: ubos[i].id != ubos[j].id
  }

  lemma {:induction false} StandingMembers(directors: seq<DirectorRow>, ubos: seq<UboRow>)
    ensures forall u | u in Standing(directors, ubos) :: u in ubos
  {
    if ubos != [] {
      StandingMembers(directors, ubos[..|ubos| - 1]);
    }
  }

  lemma DistinctUbosSnoc(rest: seq<UboRow>, ubos: seq<UboRow>, u: UboRow)
    requires DistinctUbos(rest) && DistinctUbos(ubos + [u]) && forall v | v in rest :: v in ubos
    ensures DistinctUbos(rest + [u])
  {
    forall i | 0 <= i < |rest|
      ensures rest[i].id != u.id
    {
      assert rest[i] in rest;
      var k :| 0 <= k < |ubos| && ubos[k] == rest[i];
      assert (ubos + [u])[k] == rest[i] && (ubos + [u])[|ubos|] == u;
    }
  }

  lemma {:induction false} StandingIs(directors: seq<DirectorRow>, ubos: seq<UboRow>)
    ensures forall u | u in Standing(directors, ubos) :: u in ubos
    ensures DistinctUbos(ubos) ==> DistinctUbos(Standing(directors, ubos))
  {
    StandingMembers(directors, ubos);
    if ubos != [] && DistinctUbos(ubos) {
      var earlier, u := ubos[..|ubos| - 1], ubos[|ubos| - 1];
      StandingIs(directors, earlier);
      assert ubos == earlier + [u];
      DistinctUbosSnoc(Standing(directors, earlier), earlier, u);
    }
  }

  lemma DirectorAgain(t: Tables, t': Tables, id: string)
    requires SameButBridge(t, t') && IsDirector(t.directors, id)
    ensures IsDirector(t'.directors, id)
  {
    var d :| d in t.directors && d.id == id;
    var k :| 0 <= k < |t.directors| && t.directors[k] == d;
    assert t'.directors[k] in t'.directors && t'.directors[k].id == d.id;
  }

  lemma DirectorBefore(t: Tables, t': Tables, id: string)
    requires SameButBridge(t, t') && IsDirector(t'.directors, id)
    ensures IsDirector(t.directors, id)
  {
    var d :| d in t'.directors && d.id == id;
    var k :| 0 <= k < |t'.directors| && t'.directors[k] == d;
    assert t.directors[k] in t.directors && t.directors[k].id == d.id;
  }

  lemma StandsAgain(t: Tables, t': Tables, i: nat)
    requires SameButBridge(t, t') && i < |t.ubos|
    ensures Stands(t'.directors, t'.ubos[i]) <==> Stands(t.directors, t.ubos[i])
    ensures t'.ubos[i].id == t.ubos[i].id
  {
    var u := t.ubos[i];
    if IsLinked(u) {
      if IsDirector(t.directors, u.directorId.value) {
        DirectorAgain(t, t', u.directorId.value);
      }
      if IsDirector(t'.directors, u.directorId.value) {
        DirectorBefore(t, t', u.directorId.value);
      }
    }
  }

  lemma StandingSnoc(directors: seq<DirectorRow>, ubos: seq<UboRow>, n: nat)
    requires n < |ubos|
    ensures Standing(directors, ubos[..n + 1])
         == Standing(directors, ubos[..n]) + if Stands(directors, ubos[n]) then [ubos[n]] else []
  {
    assert ubos[..n + 1][..n] == ubos[..n];
  }

  ghost predicate SameUboIds(a: seq<UboRow>, b: seq<UboRow>) {
    |a| == |b| && forall i | 0 <= i < |a| :: a[i].id == b[i].id
  }

  lemma SameUboIdsSnoc(a: seq<UboRow>, b: seq<UboRow>, x: UboRow, y: UboRow)
    requires SameUboIds(a, b) && x.id == y.id
    ensures SameUboIds(a + [x], b + [y])
  {
  }

  lemma {:induction false} StandingNext(t: Tables, t': Tables, n: nat)
    requires SameButBridge(t, t') && n < |t.ubos|
    requires SameUboIds(Standing(t'.directors, t'.ubos[..n]), Standing(t.directors, t.ubos[..n]))
    ensures SameUboIds(Standing(t'.directors, t'.ubos[..n + 1]), Standing(t.directors, t.ubos[..n + 1]))
  {
    var was, now := Standing(t.directors, t.ubos[..n]), Standing(t'.directors, t'.ubos[..n]);
    StandsAgain(t, t', n);
    StandingSnoc(t.directors, t.ubos, n);
    StandingSnoc(t'.directors, t'.ubos, n);
    SameUboIdsSnoc(now, was, t'.ubos[n], t.ubos[n]);
  }

  lemma {:induction false} StandingAgain(t: Tables, t': Tables, n: nat)
    requires SameButBridge(t, t') && n <= |t.ubos|
    ensures SameUboIds(Standing(t'.directors, t'.ubos[..n]), Standing(t.directors, t.ubos[..n]))
  {
    if n > 0 {
      StandingAgain(t, t', n - 1);
      StandingNext(t, t', n - 1);
    } else {
      NobodyStands(t.directors);
      NobodyStands(t'.directors);
      assert t.ubos[..0] == [] == t'.ubos[..0];
    }
  }

  lemma NobodyStands(directors: seq<DirectorRow>)
    ensures Standing(directors, []) == []
  {
  }

  /** Entries and the rows they come from, in order. */
  ghost predicate Aligned(l: Lists, directors: seq<DirectorRow>, owners: seq<UboRow>) {
    && |l.directors| == |directors| && |l.independent| == |owners|
    && (forall i | 0 <= i < |directors| ::
          l.directors[i].source == Documents.Director && l.directors[i].sourceId == directors[i].id
          && l.directors[i].bridgeId == directors[i].bridgeId)
    && (forall i | 0 <= i < |owners| ::
          l.independent[i].source == Documents.Ubo && l.independent[i].sourceId == owners[i].id
          && l.independent[i].bridgeId == owners[i].bridgeId)
  }

  lemma FaithfulAligned(l: Lists, directors: seq<DirectorRow>, ubos: seq<UboRow>)
    requires Faithful(l, directors, ubos)
    ensures Aligned(l, directors, Standing(directors, ubos))
  {
    var owners := Standing(directors, ubos);
    assert forall i | 0 <= i < |directors| :: Represents(l.directors[i], directors[i], ubos);
    assert forall i | 0 <= i < |owners| :: RepresentsOwner(l.independent[i], owners[i]);
  }

  lemma AlignedRooted(l: Lists, t: Tables, owners: seq<UboRow>)
    requires Aligned(l, t.directors, owners) && forall u | u in owners :: u in t.ubos
    ensures AllRooted(t, Persons(l))
  {
    forall e | e in Persons(l)
      ensures Rooted(t, e)
    {
      var k :| 0 <= k < |Persons(l)| && Persons(l)[k] == e;
      if k < |t.directors| {
        assert t.directors[k] in t.directors;
      } else {
        assert owners[k - |t.directors|] in owners;
      }
    }
  }

  ghost predicate HoldIds(persons: seq<Entry>, ids: seq<string>) {
    |persons| == |ids| && forall k | 0 <= k < |ids| :: HasId(persons[k].bridgeId) && persons[k].bridgeId == Some(ids[k])
  }

  /** The rows the two lists come from are the same people. */
  ghost predicate SamePeople(d: seq<DirectorRow>, d': seq<DirectorRow>, o: seq<UboRow>, o': seq<UboRow>) {
    && |d'| == |d| && |o'| == |o|
    && (forall i | 0 <= i < |d| :: d'[i].id == d[i].id) && (forall i | 0 <= i < |o| :: o'[i].id == o[i].id)
  }

  lemma AlignedHoldIds(
      t': Tables, l: Lists, l': Lists, directors: seq<DirectorRow>, owners: seq<UboRow>, owners': seq<UboRow>,
      ids: seq<string>)
    requires Aligned(l, directors, owners) && Aligned(l', t'.directors, owners')
    requires SamePeople(directors, t'.directors, owners, owners') && forall u | u in owners' :: u in t'.ubos
    requires |ids| == |Persons(l)| && forall k | 0 <= k < |ids| :: Settled(t', Persons(l)[k], ids[k])
    ensures HoldIds(Persons(l'), ids) && forall k | 0 <= k < |ids| :: Settled(t', Persons(l')[k], ids[k])
  {
    var n := |directors|;
    forall k | 0 <= k < |ids|
      ensures Persons(l')[k].bridgeId == Some(ids[k]) && HasId(Persons(l')[k].bridgeId)
      ensures Settled(t', Persons(l')[k], ids[k])
    {
      assert Settled(t', Persons(l)[k], ids[k]);
      if k < n {
        assert Persons(l)[k] == l.directors[k] && Persons(l')[k] == l'.directors[k];
        assert t'.directors[k] in t'.directors;
      } else {
        assert Persons(l)[k] == l.independent[k - n] && Persons(l')[k] == l'.independent[k - n];
        assert owners'[k - n] in owners';
      }
    }
  }

  lemma FirstSyncFacts(
      f: Files, b: Business, t: Tables, remote: seq<Remote>, replies: seq<Reply>, l: Lists, first: Sync)
    requires DistinctDirectors(t.directors) && DistinctUbos(t.ubos) && Build(f, b, t.directors, t.ubos) == Ok(l)
    requires |replies| == |Persons(l)| && SyncAll(Begin(t), Persons(l), remote, replies) == (first, None)
    ensures Aligned(l, t.directors, Standing(t.directors, t.ubos)) && Synced(t, first, Persons(l))
  {
    BuildFaithful(f, b, t.directors, t.ubos);
    FaithfulAligned(l, t.directors, t.ubos);
    StandingIs(t.directors, t.ubos);
    AlignedRooted(l, t, Standing(t.directors, t.ubos));
    SyncAllSynced(t, Persons(l), remote, replies);
  }

  lemma SecondListFacts(f': Files, b: Business, t: Tables, t': Tables, l': Lists)
    requires DistinctDirectors(t.directors) && SameButBridge(t, t') && Build(f', b, t'.directors, t'.ubos) == Ok(l')
    ensures
      var owners, owners' := Standing(t.directors, t.ubos), Standing(t'.directors, t'.ubos);
      && Aligned(l', t'.directors, owners') && SamePeople(t.directors, t'.directors, owners, owners')
      && (forall u | u in owners' :: u in t'.ubos)
  {
    StillDistinct(t, t');
    BuildFaithful(f', b, t'.directors, t'.ubos);
    FaithfulAligned(l', t'.directors, t'.ubos);
    assert t.ubos[..|t.ubos|] == t.ubos && t'.ubos[..|t.ubos|] == t'.ubos;
    StandingAgain(t, t', |t.ubos|);
    StandingIs(t'.directors, t'.ubos);
  }

  /** The list built from the rows a synchronisation left holds the ids it gave. */
  lemma RebuiltHoldsIds(
      f: Files, b: Business, t: Tables, remote: seq<Remote>, replies: seq<Reply>, f': Files, l: Lists, l': Lists,
      first: Sync)
    requires DistinctDirectors(t.directors) && DistinctUbos(t.ubos) && Build(f, b, t.directors, t.ubos) == Ok(l)
    requires |replies| == |Persons(l)| && SyncAll(Begin(t), Persons(l), remote, replies) == (first, None)
    requires Build(f', b, first.tables.directors, first.tables.ubos) == Ok(l')
    ensures HoldIds(Persons(l'), first.remoteIds)
    ensures forall k | 0 <= k < |first.remoteIds| :: Settled(first.tables, Persons(l')[k], first.remoteIds[k])
  {
    FirstSyncFacts(f, b, t, remote, replies, l, first);
    SecondListFacts(f', b, t, first.tables, l');
    AlignedHoldIds(first.tables, l, l', t.directors, Standing(t.directors, t.ubos),
                   Standing(first.tables.directors, first.tables.ubos), first.remoteIds);
  }

  lemma StillDistinct(t: Tables, t': Tables)
    requires SameButBridge(t, t') && DistinctDirectors(t.directors)
    ensures DistinctDirectors(t'.directors)
  {
    assert forall i | 0 <= i < |t.directors| :: t'.directors[i].id == t.directors[i].id;
  }

  /**
   * After a successful synchronisation, building the list again from the updated rows and synchronising it sends
   * nothing but updates, to the very persons of the first time, whatever Bridge lists by then and whatever fails, and
   * changes no row; unless a request or an update fails it goes through.
   */
  lemma SecondSyncOnlyPuts(
      f: Files, b: Business, t: Tables, remote: seq<Remote>, replies: seq<Reply>, f': Files,
      remote': seq<Remote>, replies': seq<Reply>, l: Lists, l': Lists, first: Sync)
    requires DistinctDirectors(t.directors) && DistinctUbos(t.ubos) && Build(f, b, t.directors, t.ubos) == Ok(l)
    requires |replies| == |Persons(l)| && SyncAll(Begin(t), Persons(l), remote, replies) == (first, None)
    requires Build(f', b, first.tables.directors, first.tables.ubos) == Ok(l') && |replies'| == |Persons(l')|
    ensures
      var (second, error) := SyncAll(Begin(first.tables), Persons(l'), remote', replies');
      && second.tables == first.tables && |second.requests| <= |first.remoteIds|
      && (forall i | 0 <= i < |second.requests| :: second.requests[i] == Put(first.remoteIds[i]))
      && ((forall r | r in replies' :: !r.requestFails && !r.rowFails) ==>
            error.None? && |second.requests| == |first.remoteIds|)
  {
    RebuiltHoldsIds(f, b, t, remote, replies, f', l, l', first);
    StoredOnlyPuts(first.tables, Persons(l'), first.remoteIds, remote', replies');
  }

  // ---- The service ----

  class BridgeCustomerService {
    var directors: seq<DirectorRow>
    var ubos: seq<UboRow>

    const foreignDirectorIds: set<string>
    const foreignUboIds: set<string>

    constructor (t: Tables)
      ensures View() == t
    {
      directors, ubos, foreignDirectorIds, foreignUboIds := t.directors, t.ubos, t.foreignDirectorIds, t.foreignUboIds;
    }

    function View(): Tables
      reads this
    {
      Tables(directors, ubos, foreignDirectorIds, foreignUboIds)
    }

    /** One turn of the loop; `s` is the state the loop has reached. */
    method SyncPerson(
        ghost s: Sync, matched: set<string>, requests: seq<Request>, e: Entry, remote: seq<Remote>, reply: Reply)
      returns (matched': set<string>, requests': seq<Request>, error: Option<Error>)
      requires s.tables == View() && s.matched == matched && s.requests == requests
      modifies this
      ensures
        var (s', e') := SyncOne(s, e, remote, reply);
        View() == s'.tables && matched' == s'.matched && requests' == s'.requests && error == e'
    {
      var chosen := Chosen(e, remote, matched);
      if chosen.Err? {
        return matched, requests, Some(chosen.error);
      }
      var id := "";
      if HasId(chosen.value) {
        id := chosen.value.value;
        requests' := requests + [Put(id)];
        if reply.requestFails {
          return matched, requests', Some(RequestFailed);
        }
      } else {
        requests' := requests + [Post(e.sourceId)];
        if reply.requestFails {
          return matched, requests', Some(RequestFailed);
        }
        if !HasId(reply.id) {
          return matched, requests', Some(BadRemoteId);
        }
        id := reply.id.value;
      }
      matched' := matched + {id};
      if reply.rowFails || Clashes(View(), e, id) {
        return matched', requests', Some(RowRejected);
      }
      if e.source == Documents.Director {
        directors := SetDirector(directors, e.sourceId, id);
      } else {
        ubos := SetUbo(ubos, e.sourceId, id);
      }
      error := None;
    }

    method SyncPersons(persons: seq<Entry>, remote: seq<Remote>, replies: seq<Reply>)
      returns (requests: seq<Request>, error: Option<Error>)
      requires |replies| == |persons|
      modifies this
      ensures
        var (s, e) := SyncAll(Begin(old(View())), persons, remote, replies);
        View() == s.tables && requests == s.requests && error == e
    {
      ghost var begin := Begin(View());
      ghost var s := begin;
      var matched: set<string> := {};
      requests := [];
      for i := 0 to |persons|
        invariant SyncAll(begin, persons[..i], remote, replies[..i]) == (s, None)
        invariant s.tables == View() && s.matched == matched && s.requests == requests
      {
        SyncAllSnoc(begin, persons, remote, replies, i);
        ghost var next := SyncOne(s, persons[i], remote, replies[i]).0;
        matched, requests, error := SyncPerson(s, matched, requests, persons[i], remote, replies[i]);
        if error.Some? {
          ErrorStays(begin, persons, remote, replies, i + 1);
          return;
        }
        s := next;
      }
      assert persons[..|persons|] == persons && replies[..|persons|] == replies;
      return requests, None;
    }

    /** `remote` is what Bridge lists for the customer, or None when that request fails. */
    method SyncBusinessAssociatedPersons(
        f: Files, b: Business, remote: Option<seq<Remote>>, replies: seq<Reply>)
      returns (requests: seq<Request>, error: Option<Error>)
      requires
        var built := Build(f, b, directors, ubos);
        built.Ok? ==> |replies| == |built.value.directors + built.value.independent|
      modifies this
      ensures
        var built := Build(f, b, old(directors), old(ubos));
        if built.Err? then View() == old(View()) && requests == [] && error == Some(built.error)
        else if remote.None? then View() == old(View()) && requests == [] && error == Some(RequestFailed)
        else
          var (s, e) := SyncAll(Begin(old(View())), built.value.directors + built.value.independent, remote.value, replies);
          View() == s.tables && requests == s.requests && error == e
    {
      var built := BuildAssociatedPersons(f, b, directors, ubos);
      if built.Err? {
        return [], Some(built.error);
      }
      if remote.None? {
        return [], Some(RequestFailed);
      }
      requests, error := SyncPersons(built.value, remote.value, replies);
    }
  }

  lemma SyncAllSnoc(s: Sync, persons: seq<Entry>, remote: seq<Remote>, replies: seq<Reply>, i: nat)
    requires |replies| == |persons| && i < |persons|
    ensures
      var (mid, error) := SyncAll(s, persons[..i], remote, replies[..i]);
      SyncAll(s, persons[..i + 1], remote, replies[..i + 1])
      == if error.Some? then (mid, error) else SyncOne(mid, persons[i], remote, replies[i])
  {
    assert persons[..i + 1][..i] == persons[..i] && replies[..i + 1][..i] == replies[..i];
  }

  lemma ErrorStaysLast(s: Sync, persons: seq<Entry>, remote: seq<Remote>, replies: seq<Reply>, n: nat)
    requires |replies| == |persons| == n + 1 && SyncAll(s, persons[..n], remote, replies[..n]).1.Some?
    ensures SyncAll(s, persons, remote, replies) == SyncAll(s, persons[..n], remote, replies[..n])
  {
  }

  lemma {:induction false} ErrorStays(s: Sync, persons: seq<Entry>, remote: seq<Remote>, replies: seq<Reply>, i: nat)
    requires |replies| == |persons| && i <= |persons|
    requires SyncAll(s, persons[..i], remote, replies[..i]).1.Some?
    ensures SyncAll(s, persons, remote, replies) == SyncAll(s, persons[..i], remote, replies[..i])
  {
    if i < |persons| {
      var n := |persons| - 1;
      assert persons[..n][..i] == persons[..i] && replies[..n][..i] == replies[..i];
      ErrorStays(s, persons[..n], remote, replies[..n], i);
      ErrorStaysLast(s, persons, remote, replies, n);
    } else {
      assert persons[..i] == persons && replies[..i] == replies;
    }
  }
}
