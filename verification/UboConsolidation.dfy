/** Beneficial-owner rows: finding the rows of one person, merging their documents, dropping the duplicates. */
module UboConsolidation {
  import opened Wrappers
  import opened Text
  import opened Sequences
  import opened Documents

  // ---- Documents of duplicated rows ----

  function PendingOfUbos(s: State, user: string, ubos: set<string>): set<nat> {
    set id | id in s.docs && s.docs[id].status == Pending && s.docs[id].user == user && s.docs[id].subjectType == Ubo
             && s.docs[id].subjectId.Some? && s.docs[id].subjectId.value in ubos
  }

  datatype Merge = Merge(state: State, covered: set<string>)

  /** One duplicate's document: superseded when the keeper has that type, moved to the keeper otherwise. */
  function MergeOne(m: Merge, id: nat, keeper: string): Merge
    requires id in m.state.docs
  {
    var d := m.state.docs[id];
    var patched := if d.docType in m.covered then d.(status := Superseded) else d.(subjectId := Some(keeper));
    Merge(m.state.(docs := m.state.docs[id := patched]), m.covered + {d.docType})
  }

  predicate Present(s: State, ids: seq<nat>) {
    forall id | id in ids :: id in s.docs
  }

  /** `ids` in the order they are visited. */
  function MergeAll(m: Merge, ids: seq<nat>, keeper: string): (r: Merge)
    requires Present(m.state, ids)
    ensures r.state.docs.Keys == m.state.docs.Keys
  {
    if ids == [] then m
    else
      var n := |ids| - 1;
      MergeOne(MergeAll(m, ids[..n], keeper), ids[n], keeper)
  }

  function Start(s: State, user: string, keeper: string): Merge {
    Merge(s, TypesOf(s, PendingOfUbos(s, user, {keeper})))
  }

  /** Stops after `done` updates when the next one fails. */
  function Consolidate(s: State, user: string, keeper: string, ids: seq<nat>, done: nat): State
    requires Present(s, ids)
    requires done <= |ids|
  {
    MergeAll(Start(s, user, keeper), ids[..done], keeper).state
  }

  /** The covered types are exactly those the keeper has a pending document of. */
  ghost predicate Tight(m: Merge, user: string, keeper: string) {
    Inv(m.state) && m.covered == TypesOf(m.state, PendingOfUbos(m.state, user, {keeper}))
  }

  predicate Mergeable(s: State, user: string, keeper: string, dups: set<string>, id: nat) {
    id in PendingOfUbos(s, user, dups) && keeper !in dups
  }

  lemma MergeOneKeepsBase(m: Merge, user: string, keeper: string, dups: set<string>, id: nat)
    requires Inv(m.state) && Mergeable(m.state, user, keeper, dups, id)
    ensures Base(MergeOne(m, id, keeper).state) && KeepsSubmitted(m.state, MergeOne(m, id, keeper).state)
  {
    var s, s' := m.state, MergeOne(m, id, keeper).state;
    forall path | path in s'.files
      ensures HasRow(s', path)
    {
      assert HasRow(s, path);
      var k :| k in s.docs && s.docs[k].path == path;
      assert s'.docs[k].path == path;
    }
  }

  lemma MergeOneKeepsSlots(m: Merge, user: string, keeper: string, dups: set<string>, id: nat)
    requires Tight(m, user, keeper) && Mergeable(m.state, user, keeper, dups, id)
    ensures SlotsUnique(MergeOne(m, id, keeper).state)
  {
    var s, s' := m.state, MergeOne(m, id, keeper).state;
    forall j | j in s.docs && j != id && s.docs[j].status == Pending && s'.docs[id].status == Pending
      ensures SlotOf(s.docs[j]) != SlotOf(s'.docs[id])
    {
      if j in PendingOfUbos(s, user, {keeper}) {
        assert s.docs[j].docType in m.covered;
      }
    }
  }

  lemma MergeOneKeepsInv(m: Merge, user: string, keeper: string, dups: set<string>, id: nat)
    requires Tight(m, user, keeper) && Mergeable(m.state, user, keeper, dups, id)
    ensures Inv(MergeOne(m, id, keeper).state) && KeepsSubmitted(m.state, MergeOne(m, id, keeper).state)
  {
    MergeOneKeepsBase(m, user, keeper, dups, id);
    MergeOneKeepsSlots(m, user, keeper, dups, id);
  }

  /** What the keeper has pending after one merge: the document too, unless its type was covered. */
  lemma KeeperAfter(m: Merge, user: string, keeper: string, dups: set<string>, id: nat)
    requires Mergeable(m.state, user, keeper, dups, id)
    ensures
      var before := PendingOfUbos(m.state, user, {keeper});
      PendingOfUbos(MergeOne(m, id, keeper).state, user, {keeper})
      == if m.state.docs[id].docType in m.covered then before else before + {id}
  {
  }

  lemma TypesOfSame(s: State, s': State, ids: set<nat>)
    requires s'.docs.Keys == s.docs.Keys && forall k | k in s.docs :: s'.docs[k].docType == s.docs[k].docType
    ensures TypesOf(s', ids) == TypesOf(s, ids)
  {
  }

  lemma MergeOneStaysTight(m: Merge, user: string, keeper: string, dups: set<string>, id: nat)
    requires Tight(m, user, keeper) && Mergeable(m.state, user, keeper, dups, id)
    ensures Tight(MergeOne(m, id, keeper), user, keeper)
  {
    MergeOneKeepsInv(m, user, keeper, dups, id);
    KeeperAfter(m, user, keeper, dups, id);
    var s, s' := m.state, MergeOne(m, id, keeper).state;
    var before := PendingOfUbos(s, user, {keeper});
    TypesOfSame(s, s', before);
    TypesOfPlus(s, s', before, id);
  }

  lemma TypesOfPlus(s: State, s': State, ids: set<nat>, id: nat)
    requires id in s.docs && s'.docs.Keys == s.docs.Keys
    requires forall k | k in s.docs :: s'.docs[k].docType == s.docs[k].docType
    ensures TypesOf(s', ids + {id}) == TypesOf(s, ids) + {s.docs[id].docType}
  {
    var t := s.docs[id].docType;
    assert id in ids + {id} && s'.docs[id].docType == t;
    forall x | x in TypesOf(s, ids)
      ensures x in TypesOf(s', ids + {id})
    {
      var k :| k in ids && k in s.docs && s.docs[k].docType == x;
      assert k in ids + {id} && s'.docs[k].docType == x;
    }
  }

  /** The documents of `ids` no longer belong to a duplicate; the others are untouched. */
  ghost predicate Merged(s: State, s': State, user: string, dups: set<string>, ids: set<nat>) {
    && s'.docs.Keys == s.docs.Keys
    && (forall k | k in s.docs :: s'.docs[k].docType == s.docs[k].docType)
    && (forall k | k in s.docs && k !in ids :: s'.docs[k] == s.docs[k])
    && (forall k | k in ids :: k !in PendingOfUbos(s', user, dups))
  }

  lemma MergeOneEffect(
      s: State, m: Merge, user: string, keeper: string, dups: set<string>, ids: set<nat>, id: nat)
    requires Merged(s, m.state, user, dups, ids) && id !in ids && Mergeable(s, user, keeper, dups, id)
    ensures Mergeable(m.state, user, keeper, dups, id)
    ensures Merged(s, MergeOne(m, id, keeper).state, user, dups, ids + {id})
  {
  }

  /** Merging `ids` takes `m` to `r`. */
  ghost predicate MergesTo(m: Merge, r: Merge, user: string, keeper: string, dups: set<string>, ids: set<nat>) {
    && Tight(r, user, keeper) && KeepsSubmitted(m.state, r.state)
    && Merged(m.state, r.state, user, dups, ids)
    && r.covered == m.covered + TypesOf(m.state, ids)
  }

  lemma MergeStep(m: Merge, mid: Merge, user: string, keeper: string, dups: set<string>, ids: set<nat>, id: nat)
    requires MergesTo(m, mid, user, keeper, dups, ids)
    requires id !in ids && Mergeable(m.state, user, keeper, dups, id)
    ensures id in mid.state.docs && MergesTo(m, MergeOne(mid, id, keeper), user, keeper, dups, ids + {id})
  {
    MergeOneEffect(m.state, mid, user, keeper, dups, ids, id);
    MergeOneKeepsInv(mid, user, keeper, dups, id);
    MergeOneStaysTight(mid, user, keeper, dups, id);
    KeepsTransitive(m.state, mid.state, MergeOne(mid, id, keeper).state);
    TypesOfPlus(m.state, m.state, ids, id);
  }

  lemma MergeNone(m: Merge, user: string, keeper: string, dups: set<string>)
    requires Tight(m, user, keeper)
    ensures MergesTo(m, m, user, keeper, dups, {})
  {
  }

  lemma {:induction false} MergeAllEffect(m: Merge, user: string, keeper: string, dups: set<string>, ids: seq<nat>)
    requires Tight(m, user, keeper) && Present(m.state, ids)
    requires forall id | id in ids :: Mergeable(m.state, user, keeper, dups, id)
    requires forall i, j | 0 <= i < j < |ids| :: ids[i] != ids[j]
    ensures MergesTo(m, MergeAll(m, ids, keeper), user, keeper, dups, Elements(ids))
  {
    if ids == [] {
      MergeNone(m, user, keeper, dups);
      assert Elements(ids) == {};
    } else {
      var n := |ids| - 1;
      MergeAllEffect(m, user, keeper, dups, ids[..n]);
      ElementsSnoc(ids);
      MergeStep(m, MergeAll(m, ids[..n], keeper), user, keeper, dups, Elements(ids[..n]), ids[n]);
    }
  }

  lemma ElementsSnoc(ids: seq<nat>)
    requires ids != [] && forall i, j | 0 <= i < j < |ids| :: ids[i] != ids[j]
    ensures Elements(ids) == Elements(ids[..|ids| - 1]) + {ids[|ids| - 1]} && ids[|ids| - 1] !in Elements(ids[..|ids| - 1])
  {
    assert ids == ids[..|ids| - 1] + [ids[|ids| - 1]];
  }

  /** `ids` is a reading of the duplicates' pending documents, each once. */
  ghost predicate Lists(ids: seq<nat>, all: set<nat>) {
    && Elements(ids) == all
    && (forall i, j | 0 <= i < j < |ids| :: ids[i] != ids[j])
  }

  lemma TypesSplit(s: State, a: set<nat>, b: set<nat>)
    ensures TypesOf(s, a + b) == TypesOf(s, a) + TypesOf(s, b)
  {
    forall x | x in TypesOf(s, a) + TypesOf(s, b)
      ensures x in TypesOf(s, a + b)
    {
      var k :| k in a + b && k in s.docs && s.docs[k].docType == x;
    }
  }

  lemma SameTypes(s: State, s': State, ids: set<nat>)
    requires s'.docs.Keys == s.docs.Keys && forall k | k in s.docs :: s'.docs[k].docType == s.docs[k].docType
    ensures TypesOf(s', ids) == TypesOf(s, ids)
  {
  }

  /**
   * However far the merge gets, no row or submitted document is lost and the keeper together with the duplicates has
   * a pending document of exactly the types they had. A complete merge leaves all of those with the keeper.
   */
  lemma ConsolidateLossless(s: State, user: string, keeper: string, dups: set<string>, ids: seq<nat>, done: nat)
    requires Inv(s) && keeper !in dups && Present(s, ids) && Lists(ids, PendingOfUbos(s, user, dups)) && done <= |ids|
    ensures
      var s' := Consolidate(s, user, keeper, ids, done);
      var had := TypesOf(s, PendingOfUbos(s, user, {keeper} + dups));
      && Inv(s') && s'.docs.Keys == s.docs.Keys && KeepsSubmitted(s, s')
      && TypesOf(s', PendingOfUbos(s', user, {keeper} + dups)) == had
      && (done == |ids| ==>
            && TypesOf(s', PendingOfUbos(s', user, {keeper})) == had
            && PendingOfUbos(s', user, dups) == {})
  {
    var m := Start(s, user, keeper);
    forall id | id in ids[..done]
      ensures Mergeable(s, user, keeper, dups, id)
    {
      assert id in Elements(ids);
    }
    MergeAllEffect(m, user, keeper, dups, ids[..done]);
    var s' := MergeAll(m, ids[..done], keeper).state;
    LeftToMerge(s, s', user, dups, ids, done);
    SplitElements(ids, done);
    TypesAfterMerge(s, s', user, keeper, dups, Elements(ids[..done]), Elements(ids[done..]));
    if done == |ids| {
      assert Elements(ids[done..]) == {};
    }
  }

  lemma SplitElements(ids: seq<nat>, done: nat)
    requires done <= |ids|
    ensures Elements(ids) == Elements(ids[..done]) + Elements(ids[done..])
  {
    assert ids == ids[..done] + ids[done..];
  }

  lemma TypesAfterMerge(
      s: State, s': State, user: string, keeper: string, dups: set<string>, merged: set<nat>, left: set<nat>)
    requires s'.docs.Keys == s.docs.Keys && forall k | k in s.docs :: s'.docs[k].docType == s.docs[k].docType
    requires PendingOfUbos(s, user, dups) == merged + left && PendingOfUbos(s', user, dups) == left
    requires
      TypesOf(s', PendingOfUbos(s', user, {keeper})) == TypesOf(s, PendingOfUbos(s, user, {keeper})) + TypesOf(s, merged)
    ensures
      var had := TypesOf(s, PendingOfUbos(s, user, {keeper} + dups));
      && TypesOf(s', PendingOfUbos(s', user, {keeper} + dups)) == had
      && (left == {} ==> TypesOf(s', PendingOfUbos(s', user, {keeper})) == had)
  {
    PendingSplit(s, user, {keeper}, dups);
    PendingSplit(s', user, {keeper}, dups);
    TypesSplit(s, PendingOfUbos(s, user, {keeper}), merged + left);
    TypesSplit(s, merged, left);
    TypesSplit(s', PendingOfUbos(s', user, {keeper}), left);
    SameTypes(s, s', left);
  }

  lemma PendingSplit(s: State, user: string, a: set<string>, b: set<string>)
    ensures PendingOfUbos(s, user, a + b) == PendingOfUbos(s, user, a) + PendingOfUbos(s, user, b)
  {
  }

  lemma LeftToMerge(s: State, s': State, user: string, dups: set<string>, ids: seq<nat>, done: nat)
    requires Lists(ids, PendingOfUbos(s, user, dups)) && done <= |ids|
    requires Merged(s, s', user, dups, Elements(ids[..done]))
    ensures PendingOfUbos(s', user, dups) == Elements(ids[done..])
  {
    SplitElements(ids, done);
    forall k | k in Elements(ids[done..])
      ensures k !in Elements(ids[..done])
    {
      var j :| 0 <= j < |ids| - done && ids[done..][j] == k;
      assert ids[done + j] == k;
    }
  }

  predicate Distinct(ids: seq<nat>) {
    forall i, j | 0 <= i < j < |ids| :: ids[i] != ids[j]
  }

  lemma {:induction false} MergeAllTouches(m: Merge, ids: seq<nat>, keeper: string, k: nat)
    requires Present(m.state, ids) && Distinct(ids) && k in m.state.docs
    ensures
      var d, s' := m.state.docs[k], MergeAll(m, ids, keeper).state;
      && s'.files == m.state.files && s'.next == m.state.next
      && (k !in ids ==> s'.docs[k] == d)
      && (k in ids ==> s'.docs[k] == d.(status := Superseded) || s'.docs[k] == d.(subjectId := Some(keeper)))
  {
    if ids != [] {
      var n := |ids| - 1;
      assert ids == ids[..n] + [ids[n]];
      MergeAllTouches(m, ids[..n], keeper, k);
    }
  }

  /** A pending document the user uploaded for one of these owners. */
  predicate IsOfDuplicate(d: Doc, user: string, dups: set<string>) {
    d.status == Pending && d.user == user && d.subjectType == Ubo && exists u | u in dups :: d.subjectId == Some(u)
  }

  /** A merge supersedes or moves to the kept owner pending documents of the removed ones, and touches nothing else. */
  lemma {:induction false} ConsolidateTouches(
      s: State, user: string, keeper: string, dups: set<string>, ids: seq<nat>, done: nat, k: nat)
    requires Present(s, ids) && Lists(ids, PendingOfUbos(s, user, dups)) && done <= |ids| && k in s.docs
    ensures
      var d, s' := s.docs[k], Consolidate(s, user, keeper, ids, done);
      && s'.files == s.files && s'.next == s.next
      && (!IsOfDuplicate(d, user, dups) ==> s'.docs[k] == d)
      && (IsOfDuplicate(d, user, dups) ==>
            || (done < |ids| && s'.docs[k] == d)
            || s'.docs[k] == d.(status := Superseded) || s'.docs[k] == d.(subjectId := Some(keeper)))
  {
    MergeAllTouches(Start(s, user, keeper), ids[..done], keeper, k);
    assert k in PendingOfUbos(s, user, dups) <==> IsOfDuplicate(s.docs[k], user, dups);
    assert k in Elements(ids) <==> k in ids;
    if done == |ids| {
      assert ids[..done] == ids;
    }
  }

  // ---- Rows ----

  datatype UboRow = UboRow(
    id: string, business: string, idNumber: Option<string>, email: Option<string>, firstName: Option<string>,
    lastName: Option<string>, bridgeId: Option<string>)

  /** The fields of a submitted beneficial owner that identify the person. */
  datatype UboDto = UboDto(idNumber: string, email: Option<string>, firstName: string, lastName: string)

  function Norm(value: Option<string>): string {
    if value.Some? then Normalize(value.value) else ""
  }

  function FullName(first: Option<string>, last: Option<string>): string {
    Trim(Norm(first) + " " + Norm(last))
  }

  predicate SamePerson(u: UboRow, dto: UboDto) {
    var idNumber := Norm(Some(dto.idNumber));
    var email := Norm(dto.email);
    var fullName := FullName(Some(dto.firstName), Some(dto.lastName));
    || (idNumber != "" && Norm(u.idNumber) == idNumber)
    || (email != "" && fullName != "" && Norm(u.email) == email && FullName(u.firstName, u.lastName) == fullName)
  }

  /** Something to recognise the person by. */
  predicate HasNaturalKey(dto: UboDto) {
    || Norm(Some(dto.idNumber)) != ""
    || (Norm(dto.email) != "" && FullName(Some(dto.firstName), Some(dto.lastName)) != "")
  }

  function Matcher(business: string, dto: UboDto): UboRow -> bool {
    (u: UboRow) => u.business == business && SamePerson(u, dto)
  }

  /** `rows` is in creation order. */
  function FindExisting(rows: seq<UboRow>, business: string, dto: UboDto): seq<UboRow> {
    Filter(rows, Matcher(business, dto))
  }

  predicate KnownToBridge(u: UboRow) {
    u.bridgeId.Some? && u.bridgeId.value != ""
  }

  function FirstKnown(rows: seq<UboRow>): Option<UboRow> {
    if rows == [] then None
    else if KnownToBridge(rows[0]) then Some(rows[0])
    else FirstKnown(rows[1..])
  }

  function PickUboToKeep(rows: seq<UboRow>): Option<UboRow> {
    if FirstKnown(rows).Some? then FirstKnown(rows)
    else if rows == [] then None
    else Some(rows[0])
  }

  function Removable(existing: seq<UboRow>, keeper: string): set<string> {
    set u | u in existing && u.id != keeper && !KnownToBridge(u) :: u.id
  }

  function Outside(ids: set<string>): UboRow -> bool {
    (u: UboRow) => u.id !in ids
  }

  function Without(rows: seq<UboRow>, ids: set<string>): seq<UboRow> {
    Filter(rows, Outside(ids))
  }

  function InsertedRow(business: string, dto: UboDto, newId: string): UboRow {
    UboRow(newId, business, Some(dto.idNumber), dto.email, Some(dto.firstName), Some(dto.lastName), None)
  }

  function Updated(u: UboRow, dto: UboDto): UboRow {
    u.(idNumber := Some(dto.idNumber), email := if dto.email.Some? then dto.email else u.email,
       firstName := Some(dto.firstName), lastName := Some(dto.lastName))
  }

  function Write(rows: seq<UboRow>, id: string, dto: UboDto): seq<UboRow> {
    if rows == [] then []
    else [if rows[0].id == id then Updated(rows[0], dto) else rows[0]] + Write(rows[1..], id, dto)
  }

  /** Where a call breaks off: during the merge, at the deletion, or at the final write. */
  datatype Fault = NoFault | MergeFails(done: nat) | DeleteFails | WriteFails

  datatype Tables = Tables(rows: seq<UboRow>, state: State)

  /** `ids` lists the pending documents of the rows to remove, `newId` is the id of an inserted row. */
  function Upsert(
      t: Tables, user: string, business: string, dto: UboDto, newId: string, ids: seq<nat>, fault: Fault)
    : (Tables, Option<string>)
    requires Present(t.state, ids)
    requires fault.MergeFails? ==> fault.done <= |ids|
  {
    var existing := FindExisting(t.rows, business, dto);
    var keeper := PickUboToKeep(existing);
    if keeper.None? then
      if fault.NoFault? then
        (t.(rows := t.rows + [InsertedRow(business, dto, newId)]), Some(newId))
      else (t, None)
    else
      var keep := keeper.value.id;
      var removable := Removable(existing, keep);
      if removable == {} then
        if fault.NoFault? then (t.(rows := Write(t.rows, keep, dto)), Some(keep)) else (t, None)
      else if fault.MergeFails? then (t.(state := Consolidate(t.state, user, keep, ids, fault.done)), None)
      else
        var state := Consolidate(t.state, user, keep, ids, |ids|);
        if fault.DeleteFails? then (t.(state := state), None)
        else if fault.WriteFails? then (Tables(Without(t.rows, removable), state), None)
        else (Tables(Write(Without(t.rows, removable), keep, dto), state), Some(keep))
  }

  ghost predicate DistinctIds(rows: seq<UboRow>) {
    forall i, j | 0 <= i < j < |rows| :: rows[i].id != rows[j].id
  }

  /** The documents a call merges are read from the table it starts from. */
  ghost predicate Reads(t: Tables, user: string, business: string, dto: UboDto, ids: seq<nat>) {
    var existing := FindExisting(t.rows, business, dto);
    PickUboToKeep(existing).Some? ==>
      Lists(ids, PendingOfUbos(t.state, user, Removable(existing, PickUboToKeep(existing).value.id)))
  }

  lemma {:induction false} FilterDistinct(rows: seq<UboRow>, p: UboRow -> bool)
    requires DistinctIds(rows)
    ensures DistinctIds(Filter(rows, p))
  {
    if rows != [] {
      var rest := Filter(rows[1..], p);
      FilterDistinct(rows[1..], p);
      FilterIs(rows[1..], p);
      assert forall i | 0 <= i < |rest| :: rest[i] in rest && rest[i].id != rows[0].id;
    }
  }

  lemma {:induction false} FirstKnownIs(rows: seq<UboRow>)
    ensures FirstKnown(rows).Some? ==> FirstKnown(rows).value in rows && KnownToBridge(FirstKnown(rows).value)
    ensures FirstKnown(rows).None? <==> forall u | u in rows :: !KnownToBridge(u)
  {
    if rows != [] {
      FirstKnownIs(rows[1..]);
      assert forall u | u in rows :: u == rows[0] || u in rows[1..];
    }
  }

  lemma {:induction false} WriteIs(rows: seq<UboRow>, id: string, dto: UboDto)
    ensures |Write(rows, id, dto)| == |rows|
    ensures forall i | 0 <= i < |rows| ::
              Write(rows, id, dto)[i] == if rows[i].id == id then Updated(rows[i], dto) else rows[i]
  {
    if rows != [] {
      WriteIs(rows[1..], id, dto);
    }
  }

  /** A row with this id and this Bridge id is there. */
  ghost predicate StillKnown(rows: seq<UboRow>, u: UboRow) {
    exists v :: v in rows && v.id == u.id && v.bridgeId == u.bridgeId
  }

  lemma WriteKeepsKnown(rows: seq<UboRow>, id: string, dto: UboDto, u: UboRow)
    requires u in rows
    ensures StillKnown(rows, u) && StillKnown(Write(rows, id, dto), u)
  {
    WriteIs(rows, id, dto);
    var i :| 0 <= i < |rows| && rows[i] == u;
    assert Write(rows, id, dto)[i] in Write(rows, id, dto);
  }

  lemma KnownIsKept(rows: seq<UboRow>, existing: seq<UboRow>, keep: string, u: UboRow)
    requires DistinctIds(rows) && (forall v | v in existing :: v in rows) && u in rows && KnownToBridge(u)
    ensures u in Without(rows, Removable(existing, keep))
  {
    FilterIs(rows, Outside(Removable(existing, keep)));
  }

  /** Wherever the call breaks off, a row Bridge knows stays, with its Bridge id. */
  lemma KnownRowsStay(
      t: Tables, user: string, business: string, dto: UboDto, newId: string, ids: seq<nat>, fault: Fault, u: UboRow)
    requires Present(t.state, ids)
    requires fault.MergeFails? ==> fault.done <= |ids|
    requires DistinctIds(t.rows) && u in t.rows && KnownToBridge(u)
    ensures StillKnown(Upsert(t, user, business, dto, newId, ids, fault).0.rows, u)
  {
    var existing := FindExisting(t.rows, business, dto);
    FilterIs(t.rows, Matcher(business, dto));
    if PickUboToKeep(existing).Some? {
      var keep := PickUboToKeep(existing).value.id;
      var left := Without(t.rows, Removable(existing, keep));
      RowsWith(t, user, business, dto, newId, ids, fault, keep);
      KnownIsKept(t.rows, existing, keep, u);
      WriteKeepsKnown(left, keep, dto, u);
      assert StillKnown(t.rows, u);
    } else {
      assert u in t.rows + [InsertedRow(business, dto, newId)];
    }
  }

  /**
   * A call keeps the documents table sound wherever it breaks off, and one that finds the person leaves the kept row
   * with a pending document of every type it or a removed row had.
   */
  lemma UpsertLossless(
      t: Tables, user: string, business: string, dto: UboDto, newId: string, ids: seq<nat>, fault: Fault)
    requires Inv(t.state) && Reads(t, user, business, dto, ids)
    requires Present(t.state, ids)
    requires fault.MergeFails? ==> fault.done <= |ids|
    ensures
      var (t', kept) := Upsert(t, user, business, dto, newId, ids, fault);
      var existing := FindExisting(t.rows, business, dto);
      && Inv(t'.state) && KeepsSubmitted(t.state, t'.state) && t'.state.docs.Keys == t.state.docs.Keys
      && (PickUboToKeep(existing).Some? ==>
            var keep := PickUboToKeep(existing).value.id;
            var all := {keep} + Removable(existing, keep);
            var had := TypesOf(t.state, PendingOfUbos(t.state, user, all));
            && TypesOf(t'.state, PendingOfUbos(t'.state, user, all)) == had
            && (t'.rows != t.rows ==> TypesOf(t'.state, PendingOfUbos(t'.state, user, {keep})) == had)
            && (kept.Some? ==>
                  kept == Some(keep) && TypesOf(t'.state, PendingOfUbos(t'.state, user, {keep})) == had))
  {
    var existing := FindExisting(t.rows, business, dto);
    if PickUboToKeep(existing).Some? {
      var keep := PickUboToKeep(existing).value.id;
      var removable := Removable(existing, keep);
      if removable == {} {
        assert {keep} + removable == {keep};
      } else {
        ConsolidateLossless(t.state, user, keep, removable, ids, if fault.MergeFails? then fault.done else |ids|);
      }
    }
  }

  /** The row of this id has the submitted data, and no other row changed except those removed. */
  ghost predicate Stores(rows: seq<UboRow>, rows': seq<UboRow>, kept: string, dto: UboDto, removed: set<string>) {
    && (exists v :: v in rows' && v.id == kept)
    && (forall v | v in rows' && v.id == kept ::
          v.idNumber == Some(dto.idNumber) && v.firstName == Some(dto.firstName) && v.lastName == Some(dto.lastName)
          && (dto.email.Some? ==> v.email == dto.email))
    && (forall v | v in rows' && v.id != kept :: v in rows)
    && (forall u | u in rows && u.id != kept && u.id !in removed :: u in rows')
  }

  lemma InsertStores(rows: seq<UboRow>, row: UboRow, dto: UboDto)
    requires row == InsertedRow(row.business, dto, row.id) && forall u | u in rows :: u.id != row.id
    ensures Stores(rows, rows + [row], row.id, dto, {})
  {
    assert (rows + [row])[|rows|] == row;
  }

  lemma WriteStores(rows: seq<UboRow>, keep: UboRow, dto: UboDto, removed: set<string>)
    requires keep in rows && keep.id !in removed
    ensures Stores(rows, Write(Without(rows, removed), keep.id, dto), keep.id, dto, removed)
  {
    var left := Without(rows, removed);
    FilterIs(rows, Outside(removed));
    WriteMembers(left, keep.id, dto);
    assert keep in left;
    assert Updated(keep, dto) in Write(left, keep.id, dto);
  }

  lemma UpsertRows(t: Tables, user: string, business: string, dto: UboDto, newId: string, ids: seq<nat>)
    requires Present(t.state, ids)
    ensures
      var (t', kept) := Upsert(t, user, business, dto, newId, ids, NoFault);
      var keeper := PickUboToKeep(FindExisting(t.rows, business, dto));
      if keeper.None? then kept == Some(newId) && t'.rows == t.rows + [InsertedRow(business, dto, newId)]
      else
        && kept == Some(keeper.value.id)
        && t'.rows == Write(Without(t.rows, Removable(FindExisting(t.rows, business, dto), keeper.value.id)),
                            keeper.value.id, dto)
  {
    FilterAll(t.rows, Outside({}));
  }

  /** A successful call stores the submitted data in the kept row and changes no other row that stays. */
  lemma UpsertStores(t: Tables, user: string, business: string, dto: UboDto, newId: string, ids: seq<nat>)
    requires Present(t.state, ids) && forall u | u in t.rows :: u.id != newId
    ensures
      var (t', kept) := Upsert(t, user, business, dto, newId, ids, NoFault);
      kept.Some?
      && Stores(t.rows, t'.rows, kept.value, dto, Removable(FindExisting(t.rows, business, dto), kept.value))
  {
    var existing := FindExisting(t.rows, business, dto);
    UpsertRows(t, user, business, dto, newId, ids);
    KeeperFound(existing);
    if existing == [] {
      NothingRemovable(newId);
      InsertStores(t.rows, InsertedRow(business, dto, newId), dto);
    } else {
      FilterIs(t.rows, Matcher(business, dto));
      var keep := PickUboToKeep(existing).value;
      WriteStores(t.rows, keep, dto, Removable(existing, keep.id));
    }
  }

  lemma NothingRemovable(id: string)
    ensures Removable([], id) == {}
  {
  }

  lemma WriteMembers(rows: seq<UboRow>, id: string, dto: UboDto)
    ensures forall u | u in rows :: (if u.id == id then Updated(u, dto) else u) in Write(rows, id, dto)
    ensures forall v | v in Write(rows, id, dto) ::
              exists u :: u in rows && v == if u.id == id then Updated(u, dto) else u
  {
    WriteIs(rows, id, dto);
    forall u | u in rows
      ensures (if u.id == id then Updated(u, dto) else u) in Write(rows, id, dto)
    {
      var i :| 0 <= i < |rows| && rows[i] == u;
      assert Write(rows, id, dto)[i] == if u.id == id then Updated(u, dto) else u;
    }
    forall v | v in Write(rows, id, dto)
      ensures exists u :: u in rows && v == if u.id == id then Updated(u, dto) else u
    {
      var i :| 0 <= i < |rows| && Write(rows, id, dto)[i] == v;
      assert rows[i] in rows;
    }
  }

  // ---- Repeating a call ----

  lemma UpdatedIsSamePerson(u: UboRow, dto: UboDto)
    requires HasNaturalKey(dto)
    ensures SamePerson(Updated(u, dto), dto) && Updated(Updated(u, dto), dto) == Updated(u, dto)
  {
  }

  /** The rows found the second time: those found the first time that were not removed, the kept one rewritten. */
  lemma {:induction false} FoundAgain(
      rows: seq<UboRow>, p: UboRow -> bool, removed: set<string>, keep: string, dto: UboDto)
    requires forall u | u in rows && u.id == keep :: p(u) && p(Updated(u, dto))
    ensures Filter(Write(Without(rows, removed), keep, dto), p) == Write(Without(Filter(rows, p), removed), keep, dto)
  {
    if rows != [] {
      var u, rest := rows[0], rows[1..];
      var q := Outside(removed);
      FoundAgain(rest, p, removed, keep, dto);
      assert rows == [u] + rest;
      FilterCons(u, rest, p);
      FilterCons(u, rest, q);
      FilterCons(u, Filter(rest, p), q);
      if u.id !in removed {
        var v := if u.id == keep then Updated(u, dto) else u;
        WriteCons(u, Without(rest, removed), keep, dto);
        WriteCons(u, Without(Filter(rest, p), removed), keep, dto);
        FilterCons(v, Write(Without(rest, removed), keep, dto), p);
      }
    }
  }

  lemma WriteCons(u: UboRow, rest: seq<UboRow>, keep: string, dto: UboDto)
    ensures Write([u] + rest, keep, dto) == [if u.id == keep then Updated(u, dto) else u] + Write(rest, keep, dto)
  {
    assert ([u] + rest)[1..] == rest;
  }

  lemma FirstKnownCons(u: UboRow, rest: seq<UboRow>)
    ensures FirstKnown([u] + rest) == if KnownToBridge(u) then Some(u) else FirstKnown(rest)
  {
    assert ([u] + rest)[1..] == rest;
  }

  /** Dropping rows Bridge does not know and rewriting one leaves the first known row first. */
  lemma {:induction false} FirstKnownAgain(found: seq<UboRow>, removed: set<string>, keep: string, dto: UboDto)
    requires forall u | u in found && u.id in removed :: !KnownToBridge(u)
    ensures
      var again := FirstKnown(Write(Without(found, removed), keep, dto));
      && (FirstKnown(found).Some? <==> again.Some?)
      && (again.Some? ==> again.value.id == FirstKnown(found).value.id)
  {
    if found != [] {
      var u, rest := found[0], found[1..];
      FirstKnownAgain(rest, removed, keep, dto);
      assert found == [u] + rest;
      FilterCons(u, rest, Outside(removed));
      if u.id !in removed {
        WriteCons(u, Without(rest, removed), keep, dto);
        FirstKnownCons(if u.id == keep then Updated(u, dto) else u, Write(Without(rest, removed), keep, dto));
      }
    }
  }

  lemma SameIdSameRow(rows: seq<UboRow>, u: UboRow, v: UboRow)
    requires DistinctIds(rows) && u in rows && v in rows && u.id == v.id
    ensures u == v
  {
  }

  lemma KeeperFound(existing: seq<UboRow>)
    ensures PickUboToKeep(existing).Some? <==> existing != []
    ensures existing != [] ==> PickUboToKeep(existing).value in existing
  {
    FirstKnownIs(existing);
  }

  lemma RemovedAreUnknown(existing: seq<UboRow>, keep: string)
    requires DistinctIds(existing)
    ensures forall u | u in existing && u.id in Removable(existing, keep) :: !KnownToBridge(u)
  {
    forall u | u in existing && u.id in Removable(existing, keep)
      ensures !KnownToBridge(u)
    {
      var v :| v in existing && v.id != keep && !KnownToBridge(v) && v.id == u.id;
      SameIdSameRow(existing, u, v);
    }
  }

  lemma NothingLeftToRemove(existing: seq<UboRow>, keep: string, dto: UboDto)
    ensures Removable(Write(Without(existing, Removable(existing, keep)), keep, dto), keep) == {}
  {
    var left := Without(existing, Removable(existing, keep));
    FilterIs(existing, Outside(Removable(existing, keep)));
    WriteMembers(left, keep, dto);
    assert forall u | u in left && u.id != keep :: KnownToBridge(u);
  }

  /** Among the rows left, the kept one is picked again. */
  lemma KeptIsPickedAgain(existing: seq<UboRow>, dto: UboDto)
    requires DistinctIds(existing) && existing != [] && PickUboToKeep(existing).Some?
    ensures
      var keep := PickUboToKeep(existing).value.id;
      var again := Write(Without(existing, Removable(existing, keep)), keep, dto);
      PickUboToKeep(again).Some? && PickUboToKeep(again).value.id == keep
  {
    KeeperFound(existing);
    var keep := PickUboToKeep(existing).value.id;
    var removed := Removable(existing, keep);
    var left := Without(existing, removed);
    RemovedAreUnknown(existing, keep);
    FirstKnownAgain(existing, removed, keep, dto);
    if FirstKnown(existing).None? {
      FilterIs(existing, Outside(removed));
      FirstKnownIs(existing);
      WriteIs(left, keep, dto);
      assert PickUboToKeep(existing).value in left;
      assert left[0] in left;
    }
  }

  /** After a call that found the person, the same call picks the same row and has nothing to remove. */
  lemma KeeperAgain(rows: seq<UboRow>, business: string, dto: UboDto)
    requires HasNaturalKey(dto) && DistinctIds(rows) && FindExisting(rows, business, dto) != []
    ensures
      var existing := FindExisting(rows, business, dto);
      && PickUboToKeep(existing).Some?
      && var keep := PickUboToKeep(existing).value.id;
         var again := FindExisting(Write(Without(rows, Removable(existing, keep)), keep, dto), business, dto);
         PickUboToKeep(again).Some? && PickUboToKeep(again).value.id == keep && Removable(again, keep) == {}
  {
    var p := Matcher(business, dto);
    var existing := FindExisting(rows, business, dto);
    KeeperFound(existing);
    FilterIs(rows, p);
    FilterDistinct(rows, p);
    var keep := PickUboToKeep(existing).value.id;
    forall u | u in rows && u.id == keep
      ensures p(u) && p(Updated(u, dto))
    {
      SameIdSameRow(rows, u, PickUboToKeep(existing).value);
      UpdatedIsSamePerson(u, dto);
    }
    FoundAgain(rows, p, Removable(existing, keep), keep, dto);
    KeptIsPickedAgain(existing, dto);
    NothingLeftToRemove(existing, keep, dto);
  }

  lemma {:induction false} WriteTwice(rows: seq<UboRow>, keep: string, dto: UboDto)
    ensures Write(Write(rows, keep, dto), keep, dto) == Write(rows, keep, dto)
  {
    WriteIs(rows, keep, dto);
    WriteIs(Write(rows, keep, dto), keep, dto);
  }

  lemma {:induction false} NobodyFound(rows: seq<UboRow>, business: string, dto: UboDto)
    requires !HasNaturalKey(dto)
    ensures FindExisting(rows, business, dto) == []
  {
    if rows != [] {
      NobodyFound(rows[1..], business, dto);
    }
  }

  lemma AloneIsKept(row: UboRow)
    ensures PickUboToKeep([row]) == Some(row) && Removable([row], row.id) == {}
  {
    FirstKnownCons(row, []);
    assert [row] + [] == [row];
  }

  lemma WrittenAgain(rows: seq<UboRow>, row: UboRow, dto: UboDto)
    requires Updated(row, dto) == row && forall u | u in rows :: u.id != row.id
    ensures Write(rows + [row], row.id, dto) == rows + [row]
  {
    WriteIs(rows + [row], row.id, dto);
  }

  lemma InsertedThenFound(rows: seq<UboRow>, business: string, dto: UboDto, newId: string)
    requires HasNaturalKey(dto) && FindExisting(rows, business, dto) == [] && forall u | u in rows :: u.id != newId
    ensures
      var row := InsertedRow(business, dto, newId);
      && FindExisting(rows + [row], business, dto) == [row]
      && PickUboToKeep([row]) == Some(row) && Removable([row], newId) == {}
      && Write(rows + [row], newId, dto) == rows + [row]
  {
    var row := InsertedRow(business, dto, newId);
    UpdatedIsSamePerson(row, dto);
    FilterSnoc(rows, row, Matcher(business, dto));
    AloneIsKept(row);
    WrittenAgain(rows, row, dto);
  }

  /** Repeating a successful call changes nothing exactly when the person has something to be recognised by. */
  lemma UpsertTwice(
      t: Tables, user: string, business: string, dto: UboDto, newId: string, ids: seq<nat>, otherId: string, ids': seq<nat>)
    requires Present(t.state, ids) && Present(t.state, ids')
    requires DistinctIds(t.rows) && forall u | u in t.rows :: u.id != newId
    ensures
      var (once, kept) := Upsert(t, user, business, dto, newId, ids, NoFault);
      && once.state.docs.Keys == t.state.docs.Keys
      && (HasNaturalKey(dto) <==> Upsert(once, user, business, dto, otherId, ids', NoFault) == (once, kept))
      && (!HasNaturalKey(dto) ==> |Upsert(once, user, business, dto, otherId, ids', NoFault).0.rows| == |t.rows| + 2)
  {
    var existing := FindExisting(t.rows, business, dto);
    KeeperFound(existing);
    if !HasNaturalKey(dto) {
      NobodyFound(t.rows, business, dto);
      NobodyFound(Upsert(t, user, business, dto, newId, ids, NoFault).0.rows, business, dto);
    } else if existing == [] {
      InsertedThenFound(t.rows, business, dto, newId);
    } else {
      var keep := PickUboToKeep(existing).value.id;
      KeeperAgain(t.rows, business, dto);
      FilterAll(t.rows, Outside({}));
      WriteTwice(Without(t.rows, Removable(existing, keep)), keep, dto);
    }
  }

  // ---- Whose rows a call may touch ----

  function TextOf(value: Option<string>): string {
    if value.Some? then value.value else ""
  }

  /** First and last name in small letters with one blank between, as far as they are there. */
  function WholeName(first: string, last: string): string {
    if Trim(first) == "" then Normalize(last)
    else if Trim(last) == "" then Normalize(first)
    else Normalize(first) + " " + Normalize(last)
  }

  predicate SharesNumber(u: UboRow, dto: UboDto) {
    Trim(dto.idNumber) != "" && Normalize(TextOf(u.idNumber)) == Normalize(dto.idNumber)
  }

  predicate SharesEmailAndName(u: UboRow, dto: UboDto) {
    && Trim(TextOf(dto.email)) != "" && Normalize(TextOf(u.email)) == Normalize(TextOf(dto.email))
    && WholeName(dto.firstName, dto.lastName) != ""
    && WholeName(TextOf(u.firstName), TextOf(u.lastName)) == WholeName(dto.firstName, dto.lastName)
  }

  /** The row is one of the business and has the number in common with the request, or email and name. */
  predicate IsAbout(u: UboRow, business: string, dto: UboDto) {
    u.business == business && (SharesNumber(u, dto) || SharesEmailAndName(u, dto))
  }

  lemma EmptyNormalize(s: string)
    ensures Normalize(s) == "" <==> Trim(s) == ""
  {
    assert |Lower(Trim(s))| == |Trim(s)|;
  }

  lemma NormIs(value: Option<string>)
    ensures Norm(value) == Normalize(TextOf(value))
  {
    assert Trim("") == "" && Lower("") == "";
  }

  /** Normalised text neither begins nor ends with a blank. */
  lemma {:induction false} TrimmedEnds(s: string)
    ensures Trim(s) != "" ==> !IsBlank(Trim(s)[0]) && !IsBlank(Trim(s)[|Trim(s)| - 1])
    decreases |s|
  {
    if s != "" {
      if IsBlank(s[0]) {
        TrimmedEnds(s[1..]);
      } else if IsBlank(s[|s| - 1]) {
        TrimmedEnds(s[..|s| - 1]);
      }
    }
  }

  lemma NormalizedEnds(s: string)
    requires Normalize(s) != ""
    ensures !IsBlank(Normalize(s)[0]) && !IsBlank(Normalize(s)[|Normalize(s)| - 1])
  {
    TrimmedEnds(s);
    assert |Lower(Trim(s))| == |Trim(s)|;
  }

  lemma SolidIsTrimmed(s: string)
    requires s != "" ==> !IsBlank(s[0]) && !IsBlank(s[|s| - 1])
    ensures Trim(s) == s
  {
  }

  lemma FullNameIs(first: Option<string>, last: Option<string>)
    ensures FullName(first, last) == WholeName(TextOf(first), TextOf(last))
  {
    var a, b := Normalize(TextOf(first)), Normalize(TextOf(last));
    NormIs(first);
    NormIs(last);
    EmptyNormalize(TextOf(first));
    EmptyNormalize(TextOf(last));
    if a != "" {
      NormalizedEnds(TextOf(first));
    }
    if b != "" {
      NormalizedEnds(TextOf(last));
    }
    TrimJoin(a, b);
  }

  lemma TrimJoin(a: string, b: string)
    requires a != "" ==> !IsBlank(a[0]) && !IsBlank(a[|a| - 1])
    requires b != "" ==> !IsBlank(b[0]) && !IsBlank(b[|b| - 1])
    ensures Trim(a + " " + b) == if a == "" then b else if b == "" then a else a + " " + b
  {
    var s := a + " " + b;
    SolidIsTrimmed(a);
    SolidIsTrimmed(b);
    if a == "" {
      assert s[0] == ' ' && s[1..] == b;
    } else if b == "" {
      assert s[0] == a[0] && s[|s| - 1] == ' ' && s[..|s| - 1] == a;
    } else {
      assert s[0] == a[0] && s[|s| - 1] == b[|b| - 1];
      SolidIsTrimmed(s);
    }
  }

  lemma MatchesIff(u: UboRow, business: string, dto: UboDto)
    ensures Matcher(business, dto)(u) <==> IsAbout(u, business, dto)
  {
    NormIs(Some(dto.idNumber));
    NormIs(u.idNumber);
    NormIs(dto.email);
    NormIs(u.email);
    EmptyNormalize(dto.idNumber);
    EmptyNormalize(TextOf(dto.email));
    FullNameIs(Some(dto.firstName), Some(dto.lastName));
    FullNameIs(u.firstName, u.lastName);
  }

  lemma FoundIff(rows: seq<UboRow>, business: string, dto: UboDto)
    ensures forall u :: u in FindExisting(rows, business, dto) <==> u in rows && IsAbout(u, business, dto)
  {
    FilterIs(rows, Matcher(business, dto));
    forall u
      ensures Matcher(business, dto)(u) <==> IsAbout(u, business, dto)
    {
      MatchesIff(u, business, dto);
    }
  }

  lemma OthersKept(rows: seq<UboRow>, existing: seq<UboRow>, keep: string, dto: UboDto, u: UboRow)
    requires DistinctIds(rows) && (forall v | v in existing :: v in rows) && u in rows && u !in existing
    requires exists k | k in existing :: k.id == keep
    ensures u in Without(rows, Removable(existing, keep))
    ensures u in Write(rows, keep, dto) && u in Write(Without(rows, Removable(existing, keep)), keep, dto)
  {
    var k :| k in existing && k.id == keep;
    forall v | v in existing
      ensures v.id != u.id
    {
      if v.id == u.id {
        SameIdSameRow(rows, u, v);
      }
    }
    FilterIs(rows, Outside(Removable(existing, keep)));
    WriteLeaves(rows, keep, dto, u);
    WriteLeaves(Without(rows, Removable(existing, keep)), keep, dto, u);
  }

  lemma {:induction false} WriteLeaves(rows: seq<UboRow>, id: string, dto: UboDto, u: UboRow)
    requires u in rows && u.id != id
    ensures u in Write(rows, id, dto)
  {
    WriteIs(rows, id, dto);
    var i :| 0 <= i < |rows| && rows[i] == u;
    assert Write(rows, id, dto)[i] in Write(rows, id, dto);
  }

  /** Wherever the call breaks off, a row it is not about stays as it was. */
  lemma OthersStay(
      t: Tables, user: string, business: string, dto: UboDto, newId: string, ids: seq<nat>, fault: Fault, u: UboRow)
    requires Present(t.state, ids) && (fault.MergeFails? ==> fault.done <= |ids|)
    requires DistinctIds(t.rows) && u in t.rows && !IsAbout(u, business, dto)
    ensures u in Upsert(t, user, business, dto, newId, ids, fault).0.rows
  {
    var existing := FindExisting(t.rows, business, dto);
    FoundIff(t.rows, business, dto);
    if PickUboToKeep(existing).Some? {
      KeeperFound(existing);
      OthersKept(t.rows, existing, PickUboToKeep(existing).value.id, dto, u);
    } else {
      assert u in t.rows + [InsertedRow(business, dto, newId)];
    }
  }

  /** The rows after a call that keeps a row, wherever it breaks off. */
  lemma RowsWith(
      t: Tables, user: string, business: string, dto: UboDto, newId: string, ids: seq<nat>, fault: Fault, keep: string)
    requires Present(t.state, ids) && (fault.MergeFails? ==> fault.done <= |ids|)
    requires PickUboToKeep(FindExisting(t.rows, business, dto)).Some?
    requires PickUboToKeep(FindExisting(t.rows, business, dto)).value.id == keep
    ensures
      var (t', kept) := Upsert(t, user, business, dto, newId, ids, fault);
      var left := Without(t.rows, Removable(FindExisting(t.rows, business, dto), keep));
      && kept == (if fault.NoFault? then Some(keep) else None)
      && t'.rows == match fault case NoFault => Write(left, keep, dto) case WriteFails => left case _ => t.rows
  {
    FilterAll(t.rows, Outside({}));
  }

  lemma {:induction false} WriteIds(rows: seq<UboRow>, id: string, dto: UboDto)
    ensures forall v | v in Write(rows, id, dto) :: exists u :: u in rows && u.id == v.id
  {
    WriteIs(rows, id, dto);
    forall v | v in Write(rows, id, dto)
      ensures exists u :: u in rows && u.id == v.id
    {
      var i :| 0 <= i < |Write(rows, id, dto)| && Write(rows, id, dto)[i] == v;
      assert rows[i] in rows;
    }
  }

  /** When a row of the business is about the person, no row is inserted, and a successful call answers with such a row. */
  lemma KnownPersonIsNotInserted(
      t: Tables, user: string, business: string, dto: UboDto, newId: string, ids: seq<nat>, fault: Fault)
    requires Present(t.state, ids) && (fault.MergeFails? ==> fault.done <= |ids|)
    requires exists u :: u in t.rows && IsAbout(u, business, dto)
    ensures
      var (t', kept) := Upsert(t, user, business, dto, newId, ids, fault);
      && (forall v | v in t'.rows :: exists u :: u in t.rows && u.id == v.id)
      && (kept.Some? ==> exists u :: u in t.rows && IsAbout(u, business, dto) && u.id == kept.value)
  {
    var existing := FindExisting(t.rows, business, dto);
    FoundIff(t.rows, business, dto);
    var u :| u in t.rows && IsAbout(u, business, dto);
    assert u in existing;
    KeeperFound(existing);
    var keep := PickUboToKeep(existing).value.id;
    var left := Without(t.rows, Removable(existing, keep));
    RowsWith(t, user, business, dto, newId, ids, fault, keep);
    FilterIs(t.rows, Outside(Removable(existing, keep)));
    WriteIds(left, keep, dto);
  }

  lemma NoneIsEmpty<T>(xs: seq<T>)
    ensures xs == [] || xs[0] in xs
  {
  }

  /** When none is, a successful call adds one row with the submitted data and leaves the others, a failing one nothing. */
  lemma NewPersonIsInserted(
      t: Tables, user: string, business: string, dto: UboDto, newId: string, ids: seq<nat>, fault: Fault)
    requires Present(t.state, ids) && (fault.MergeFails? ==> fault.done <= |ids|)
    requires forall u | u in t.rows :: !IsAbout(u, business, dto)
    ensures
      var (t', kept) := Upsert(t, user, business, dto, newId, ids, fault);
      if fault.NoFault?
      then && kept == Some(newId) && t'.state == t.state
           && t'.rows == t.rows + [UboRow(newId, business, Some(dto.idNumber), dto.email, Some(dto.firstName),
                                          Some(dto.lastName), None)]
      else t' == t && kept == None
  {
    FoundIff(t.rows, business, dto);
    NoneIsEmpty(FindExisting(t.rows, business, dto));
  }

  // ---- Which row is kept, and which are removed ----

  predicate HasBridgeId(u: UboRow) {
    u.bridgeId != None && u.bridgeId != Some("")
  }

  /** Of the rows about the person, the oldest one known to Bridge, or the oldest of all when none is. */
  predicate IsKept(rows: seq<UboRow>, business: string, dto: UboDto, k: nat) {
    && k < |rows| && IsAbout(rows[k], business, dto)
    && (HasBridgeId(rows[k]) ==> forall j | 0 <= j < k :: !(IsAbout(rows[j], business, dto) && HasBridgeId(rows[j])))
    && (!HasBridgeId(rows[k]) ==>
          && (forall j | 0 <= j < k :: !IsAbout(rows[j], business, dto))
          && (forall u | u in rows :: !(IsAbout(u, business, dto) && HasBridgeId(u))))
  }

  lemma {:induction false} FirstKnownAt(rows: seq<UboRow>, p: UboRow -> bool, k: nat)
    requires k < |rows| && p(rows[k]) && KnownToBridge(rows[k])
    requires forall j | 0 <= j < k :: !(p(rows[j]) && KnownToBridge(rows[j]))
    ensures FirstKnown(Filter(rows, p)) == Some(rows[k])
  {
    var rest := Filter(rows[1..], p);
    if k > 0 {
      FirstKnownAt(rows[1..], p, k - 1);
    }
    if p(rows[0]) {
      assert Filter(rows, p) == [rows[0]] + rest;
      FirstKnownCons(rows[0], rest);
    } else {
      assert Filter(rows, p) == rest;
    }
  }

  lemma {:induction false} FirstAt(rows: seq<UboRow>, p: UboRow -> bool, k: nat)
    requires k < |rows| && p(rows[k]) && forall j | 0 <= j < k :: !p(rows[j])
    ensures Filter(rows, p) != [] && Filter(rows, p)[0] == rows[k]
  {
    if k > 0 {
      FirstAt(rows[1..], p, k - 1);
    }
  }

  lemma {:induction false} PickedIs(rows: seq<UboRow>, business: string, dto: UboDto, k: nat)
    requires IsKept(rows, business, dto, k)
    ensures PickUboToKeep(FindExisting(rows, business, dto)) == Some(rows[k])
  {
    var p := Matcher(business, dto);
    forall u
      ensures p(u) <==> IsAbout(u, business, dto)
    {
      MatchesIff(u, business, dto);
    }
    if HasBridgeId(rows[k]) {
      FirstKnownAt(rows, p, k);
    } else {
      FirstAt(rows, p, k);
      FirstKnownIs(Filter(rows, p));
      FilterIs(rows, p);
    }
  }

  /** The rows about the person that Bridge does not know, other than the kept one. */
  predicate IsRemoved(u: UboRow, business: string, dto: UboDto, keep: string) {
    IsAbout(u, business, dto) && !HasBridgeId(u) && u.id != keep
  }

  lemma RemovableIff(rows: seq<UboRow>, business: string, dto: UboDto, keep: string, u: UboRow)
    requires DistinctIds(rows) && u in rows
    ensures u.id in Removable(FindExisting(rows, business, dto), keep) <==> IsRemoved(u, business, dto, keep)
  {
    var existing := FindExisting(rows, business, dto);
    FoundIff(rows, business, dto);
    if u.id in Removable(existing, keep) {
      var v :| v in existing && v.id != keep && !KnownToBridge(v) && v.id == u.id;
      SameIdSameRow(rows, u, v);
    }
  }

  /** The kept row with the submitted data; an email that is not submitted stays. */
  function Overwritten(u: UboRow, dto: UboDto): UboRow {
    UboRow(u.id, u.business, Some(dto.idNumber), if dto.email == None then u.email else dto.email, Some(dto.firstName),
           Some(dto.lastName), u.bridgeId)
  }

  lemma RowsAfter(
      t: Tables, user: string, business: string, dto: UboDto, newId: string, ids: seq<nat>, fault: Fault, k: nat)
    requires Present(t.state, ids) && (fault.MergeFails? ==> fault.done <= |ids|) && IsKept(t.rows, business, dto, k)
    ensures
      var (t', kept) := Upsert(t, user, business, dto, newId, ids, fault);
      var keep := t.rows[k].id;
      var left := Without(t.rows, Removable(FindExisting(t.rows, business, dto), keep));
      && kept == (if fault.NoFault? then Some(keep) else None)
      && t'.rows == match fault case NoFault => Write(left, keep, dto) case WriteFails => left case _ => t.rows
  {
    PickedIs(t.rows, business, dto, k);
    RowsWith(t, user, business, dto, newId, ids, fault, t.rows[k].id);
  }

  /**
   * Once the duplicates are deleted, the kept row stays and no other row about the person that Bridge does not know; a
   * call that succeeds overwrites the kept row, and one that breaks off before the deletion leaves every row.
   */
  lemma {:induction false} KeptAndRemoved(
      t: Tables, user: string, business: string, dto: UboDto, newId: string, ids: seq<nat>, fault: Fault, k: nat,
      u: UboRow)
    requires Present(t.state, ids) && (fault.MergeFails? ==> fault.done <= |ids|) && DistinctIds(t.rows)
    requires IsKept(t.rows, business, dto, k) && u in t.rows
    ensures
      var (t', kept) := Upsert(t, user, business, dto, newId, ids, fault);
      var keep, deletes := t.rows[k], fault.NoFault? || fault.WriteFails?;
      && kept == (if fault.NoFault? then Some(keep.id) else None)
      && (u.id == keep.id ==> (if fault.NoFault? then Overwritten(keep, dto) else keep) in t'.rows)
      && (u.id != keep.id && !(deletes && IsRemoved(u, business, dto, keep.id)) ==> u in t'.rows)
      && (deletes && IsRemoved(u, business, dto, keep.id) ==> forall v | v in t'.rows :: v.id != u.id)
  {
    var keep := t.rows[k];
    var removed := Removable(FindExisting(t.rows, business, dto), keep.id);
    var left := Without(t.rows, removed);
    RowsAfter(t, user, business, dto, newId, ids, fault, k);
    RemovableIff(t.rows, business, dto, keep.id, u);
    SurvivorsOf(t.rows, removed, keep, dto, u);
  }

  lemma SurvivorsOf(rows: seq<UboRow>, removed: set<string>, keep: UboRow, dto: UboDto, u: UboRow)
    requires DistinctIds(rows) && u in rows && keep in rows && keep.id !in removed
    ensures
      var left := Without(rows, removed);
      && keep in left && Overwritten(keep, dto) in Write(left, keep.id, dto)
      && (u.id != keep.id && u.id !in removed ==> u in left && u in Write(left, keep.id, dto))
      && (u.id == keep.id ==> u == keep)
      && (u.id in removed ==>
            (forall v | v in left :: v.id != u.id) && forall v | v in Write(left, keep.id, dto) :: v.id != u.id)
  {
    var left := Without(rows, removed);
    FilterIs(rows, Outside(removed));
    WriteMembers(left, keep.id, dto);
    assert Updated(keep, dto) == Overwritten(keep, dto);
    if u.id == keep.id {
      SameIdSameRow(rows, u, keep);
    } else if u.id !in removed {
      assert u in left;
    }
  }
}
