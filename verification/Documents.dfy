/**
 * The documents table and the storage bucket behind onboarding: upload, replace, claim, delete and submit, with
 * storage and row deletions that may fail midway.
 */
module Documents {
  import opened Wrappers

  datatype SubjectType = Person | Business | Director | Ubo

  datatype Status = Pending | Superseded

  /** Row ids and storage paths are numbered in creation order. */
  datatype Doc = Doc(
    user: string, subjectType: SubjectType, subjectId: Option<string>, draftKey: Option<string>,
    docType: string, path: nat, isDraft: bool, status: Status)

  datatype State = State(docs: map<nat, Doc>, files: set<nat>, next: nat)

  /** How a removal goes: storage may fail (some objects may be gone anyway), then the row deletion may. */
  datatype Removal = Removal(storageFails: bool, goneAnyway: set<nat>, rowsFail: bool)

  datatype Slot = Slot(
    user: string, subjectType: SubjectType, subjectId: Option<string>, draftKey: Option<string>, docType: string)

  function SlotOf(d: Doc): Slot {
    Slot(d.user, d.subjectType, d.subjectId, d.draftKey, d.docType)
  }

  // ---- Removing and replacing ----

  function PathsOf(s: State, ids: set<nat>): set<nat> {
    set id | id in ids && id in s.docs :: s.docs[id].path
  }

  /** Storage objects first, rows after; the flag says whether both went. */
  function HardDelete(s: State, ids: set<nat>, r: Removal): (State, bool) {
    if ids == {} then (s, true)
    else
      var paths := PathsOf(s, ids);
      if r.storageFails then (s.(files := s.files - paths * r.goneAnyway), false)
      else if r.rowsFail then (s.(files := s.files - paths), false)
      else (s.(files := s.files - paths, docs := s.docs - ids), true)
  }

  function Supersede(s: State, ids: set<nat>): State {
    s.(docs := map id | id in s.docs :: if id in ids then s.docs[id].(status := Superseded) else s.docs[id])
  }

  function DraftsIn(s: State, ids: set<nat>): set<nat> {
    set id | id in ids && id in s.docs && s.docs[id].isDraft
  }

  /** Drafts are deleted for good, submitted documents superseded; a draft that cannot be deleted is superseded too. */
  function ReplacePrevious(s: State, previous: set<nat>, r: Removal): State {
    var drafts := DraftsIn(s, previous);
    var (s1, deleted) := HardDelete(s, drafts, r);
    Supersede(s1, if deleted then previous - drafts else previous)
  }

  function PendingIn(s: State, slot: Slot): set<nat> {
    set id | id in s.docs && s.docs[id].status == Pending && SlotOf(s.docs[id]) == slot
  }

  // ---- The service calls ----

  datatype UploadOutcome = StorageRejects | InsertFails | Stored(removal: Removal)

  /** A draft key only counts while the person has no row, and only for a beneficial owner. */
  function UploadSlot(
      user: string, subjectType: SubjectType, subjectId: Option<string>, draftKey: Option<string>, docType: string)
    : Option<Slot>
  {
    var key := if subjectId.Some? then None else draftKey;
    if key.Some? && subjectType != Ubo then None else Some(Slot(user, subjectType, subjectId, key, docType))
  }

  function NewDoc(slot: Slot, path: nat): Doc {
    Doc(slot.user, slot.subjectType, slot.subjectId, slot.draftKey, slot.docType, path, true, Pending)
  }

  /** A row that cannot be inserted takes its storage object with it. */
  function Upload(s: State, slot: Slot, outcome: UploadOutcome): State {
    match outcome
    case StorageRejects => s
    case InsertFails => s.(next := s.next + 1)
    case Stored(r) =>
      var inserted := Inserted(s, slot);
      ReplacePrevious(inserted, PendingIn(inserted, slot) - {s.next}, r)
  }

  function Inserted(s: State, slot: Slot): State {
    State(s.docs[s.next := NewDoc(slot, s.next)], s.files + {s.next}, s.next + 1)
  }

  function Orphans(s: State, user: string, subjectType: SubjectType, draftKey: Option<string>): set<nat> {
    set id | id in s.docs && s.docs[id].status == Pending && s.docs[id].user == user
             && s.docs[id].subjectType == subjectType && s.docs[id].subjectId == None
             && s.docs[id].draftKey == draftKey
  }

  function TypesOf(s: State, ids: set<nat>): set<string> {
    set id | id in ids && id in s.docs :: s.docs[id].docType
  }

  function PreviousOf(s: State, user: string, subjectType: SubjectType, subjectId: string, types: set<string>): set<nat> {
    set id | id in s.docs && s.docs[id].status == Pending && s.docs[id].user == user
             && s.docs[id].subjectType == subjectType && s.docs[id].subjectId == Some(subjectId)
             && s.docs[id].docType in types
  }

  function OfType(s: State, ids: set<nat>, docType: string): set<nat> {
    set id | id in ids && id in s.docs && s.docs[id].docType == docType
  }

  /** Replaces the previous documents type by type; `before` is the table they were selected from. */
  function ReplaceTypes(
      s: State, before: State, previous: set<nat>, types: seq<string>, removals: map<string, Removal>): State
  {
    if types == [] then s
    else
      var n := |types| - 1;
      var t := types[n];
      ReplacePrevious(ReplaceTypes(s, before, previous, types[..n], removals), OfType(before, previous, t),
                      RemovalFor(removals, t))
  }

  function RemovalFor(removals: map<string, Removal>, t: string): Removal {
    if t in removals then removals[t] else Removal(false, {}, false)
  }

  function Reassign(s: State, ids: set<nat>, subjectId: string): State {
    s.(docs := map id | id in s.docs ::
                 if id in ids then s.docs[id].(subjectId := Some(subjectId), draftKey := None) else s.docs[id])
  }

  /** `types` lists the document types of the orphans, each once. */
  function Claim(
      s: State, user: string, subjectType: SubjectType, subjectId: string, draftKey: Option<string>,
      types: seq<string>, removals: map<string, Removal>, claimFails: bool): State
  {
    var orphans := Orphans(s, user, subjectType, draftKey);
    if orphans == {} then s
    else
      var previous := PreviousOf(s, user, subjectType, subjectId, TypesOf(s, orphans));
      var replaced := ReplaceTypes(s, s, previous, types, removals);
      if claimFails then replaced else Reassign(replaced, orphans, subjectId)
  }

  function DeleteDraftDocument(s: State, user: string, id: nat, r: Removal): State {
    if id !in s.docs || s.docs[id].user != user || !s.docs[id].isDraft || s.docs[id].status != Pending then s
    else HardDelete(s, {id}, r).0
  }

  function DraftsOfUser(s: State, user: string): set<nat> {
    set id | id in s.docs && s.docs[id].user == user && s.docs[id].isDraft
  }

  function DeleteDraft(s: State, user: string, r: Removal): State {
    HardDelete(s, DraftsOfUser(s, user), r).0
  }

  function MarkSubmitted(s: State, user: string): State {
    s.(docs := map id | id in s.docs :: if s.docs[id].user == user then s.docs[id].(isDraft := false) else s.docs[id])
  }

  // ---- Invariants ----

  /** At most one pending document per person, draft key and type. */
  ghost predicate SlotsUnique(s: State) {
    forall i, j | i in s.docs && j in s.docs && s.docs[i].status == Pending && s.docs[j].status == Pending
                  && SlotOf(s.docs[i]) == SlotOf(s.docs[j]) ::
      i == j
  }

  ghost predicate HasRow(s: State, path: nat) {
    exists id :: id in s.docs && s.docs[id].path == path
  }

  /** Every storage object has a row, rows do not share objects, and a document of a person has no draft key. */
  ghost predicate Base(s: State) {
    && (forall path | path in s.files :: path < s.next && HasRow(s, path))
    && (forall id | id in s.docs :: id < s.next && s.docs[id].path < s.next)
    && (forall i, j | i in s.docs && j in s.docs && s.docs[i].path == s.docs[j].path :: i == j)
    && (forall id | id in s.docs :: s.docs[id].subjectId.Some? ==> s.docs[id].draftKey.None?)
  }

  ghost predicate Inv(s: State) {
    Base(s) && SlotsUnique(s)
  }

  /** No submitted document is deleted or turned back into a draft, and its storage object stays. */
  ghost predicate KeepsSubmitted(s: State, s': State) {
    forall id | id in s.docs && !s.docs[id].isDraft ::
      && id in s'.docs && !s'.docs[id].isDraft && s'.docs[id].path == s.docs[id].path
      && (s.docs[id].path in s.files ==> s.docs[id].path in s'.files)
  }

  /** `s'` is `s` with the documents in `gone` deleted or superseded, and nothing else touched in the table. */
  ghost predicate Replaced(s: State, s': State, gone: set<nat>) {
    && s'.next == s.next
    && (forall id | id in s.docs && id !in gone :: id in s'.docs && s'.docs[id] == s.docs[id])
    && (forall id | id in s'.docs :: id in s.docs)
    && (forall id | id in s'.docs && id in gone :: s'.docs[id] == s.docs[id].(status := Superseded))
  }

  lemma KeepsTransitive(a: State, b: State, c: State)
    requires KeepsSubmitted(a, b) && KeepsSubmitted(b, c)
    ensures KeepsSubmitted(a, c)
  {
  }

  lemma HardDeleteKeeps(s: State, ids: set<nat>, r: Removal)
    requires Base(s) && forall id | id in ids :: id in s.docs && s.docs[id].isDraft
    ensures
      var (s', deleted) := HardDelete(s, ids, r);
      && Base(s') && KeepsSubmitted(s, s')
      && s'.docs == (if deleted then s.docs - ids else s.docs)
  {
    var (s', deleted) := HardDelete(s, ids, r);
    forall path | path in s'.files
      ensures HasRow(s', path)
    {
      assert HasRow(s, path);
      var id :| id in s.docs && s.docs[id].path == path;
      assert deleted ==> id !in ids;
      assert id in s'.docs;
    }
  }

  lemma SupersedeKeeps(s: State, ids: set<nat>)
    requires Base(s)
    ensures Base(Supersede(s, ids)) && KeepsSubmitted(s, Supersede(s, ids))
  {
    var s' := Supersede(s, ids);
    forall path | path in s'.files
      ensures HasRow(s', path)
    {
      assert HasRow(s, path);
      var id :| id in s.docs && s.docs[id].path == path;
      assert id in s'.docs && s'.docs[id].path == path;
    }
  }

  /** Whatever fails, the replaced documents stop being pending and the others are untouched. */
  lemma {:induction false} ReplaceEffect(s: State, previous: set<nat>, r: Removal)
    requires Base(s)
    ensures
      var s' := ReplacePrevious(s, previous, r);
      && Base(s') && KeepsSubmitted(s, s') && Replaced(s, s', previous)
      && (!r.storageFails && !r.rowsFail ==>
            forall id | id in DraftsIn(s, previous) :: id !in s'.docs && s.docs[id].path !in s'.files)
  {
    var drafts := DraftsIn(s, previous);
    var (s1, deleted) := HardDelete(s, drafts, r);
    HardDeleteKeeps(s, drafts, r);
    SupersedeKeeps(s1, if deleted then previous - drafts else previous);
  }

  /** What one removal of drafts leaves: all or none of the rows, and objects only of those rows gone. */
  ghost predicate Removed(s: State, s': State, gone: set<nat>, r: Removal) {
    && s'.next == s.next
    && (forall id | id in s.docs :: id in s'.docs <==> id !in gone || r.storageFails || r.rowsFail)
    && (forall path | path in s'.files :: path in s.files)
    && (forall path | path in s.files ::
          path in s'.files <==>
          !(exists id | id in gone && id in s.docs :: s.docs[id].path == path) || (r.storageFails && path !in r.goneAnyway))
  }

  lemma HardDeleteRemoves(s: State, ids: set<nat>, r: Removal)
    ensures Removed(s, HardDelete(s, ids, r).0, ids, r)
  {
  }

  /** A replaced draft goes with its row unless the removal fails; then it is superseded like a submitted document. */
  lemma {:induction false} ReplaceExactly(s: State, previous: set<nat>, r: Removal, id: nat)
    requires id in s.docs
    ensures
      var d, s' := s.docs[id], ReplacePrevious(s, previous, r);
      && (id in s'.docs <==> !(id in previous && d.isDraft && !r.storageFails && !r.rowsFail))
      && (id in s'.docs ==> s'.docs[id] == if id in previous then d.(status := Superseded) else d)
  {
    HardDeleteRemoves(s, DraftsIn(s, previous), r);
  }

  /** A pending document of one person or draft key, of one type. */
  predicate IsAt(
      d: Doc, user: string, subjectType: SubjectType, subjectId: Option<string>, key: Option<string>, docType: string)
  {
    && d.status == Pending && d.user == user && d.subjectType == subjectType && d.subjectId == subjectId
    && d.draftKey == key && d.docType == docType
  }

  /**
   * An upload is refused exactly for a draft key of somebody who has no row and is no beneficial owner; otherwise the
   * new draft stands where the pending document of the same person, key and type stood, and all else is as it was.
   */
  lemma {:induction false} UploadEffect(
      s: State, user: string, subjectType: SubjectType, subjectId: Option<string>, draftKey: Option<string>,
      docType: string, r: Removal, id: nat)
    requires Inv(s) && id in s.docs
    ensures
      var slot := UploadSlot(user, subjectType, subjectId, draftKey, docType);
      && (slot.None? <==> subjectId.None? && draftKey.Some? && subjectType != Ubo)
      && (slot.Some? ==>
            var d, s', key := s.docs[id], Upload(s, slot.value, Stored(r)), if subjectId.Some? then None else draftKey;
            && s.next in s'.docs && s.next in s'.files && s'.next == s.next + 1
            && s'.docs[s.next] == Doc(user, subjectType, subjectId, key, docType, s.next, true, Pending)
            && (!IsAt(d, user, subjectType, subjectId, key, docType) ==> id in s'.docs && s'.docs[id] == d)
            && (IsAt(d, user, subjectType, subjectId, key, docType) ==>
                  && (id in s'.docs <==> !d.isDraft || r.storageFails || r.rowsFail)
                  && (id in s'.docs ==> s'.docs[id] == d.(status := Superseded))))
  {
    var slot := UploadSlot(user, subjectType, subjectId, draftKey, docType);
    if slot.Some? {
      var inserted := Inserted(s, slot.value);
      var previous := PendingIn(inserted, slot.value) - {s.next};
      StoredKeepsInv(s, slot.value, r);
      ReplaceExactly(inserted, previous, r, id);
      assert inserted.docs[id] == s.docs[id];
    }
  }

  lemma SkippedPathKeepsInv(s: State)
    requires Inv(s)
    ensures Inv(s.(next := s.next + 1)) && KeepsSubmitted(s, s.(next := s.next + 1))
  {
    forall path | path in s.files
      ensures HasRow(s.(next := s.next + 1), path)
    {
      assert HasRow(s, path);
    }
  }

  /** The uploaded document becomes the one pending document of its slot, and its object is in storage. */
  lemma {:induction false} UploadKeepsInv(s: State, slot: Slot, outcome: UploadOutcome)
    requires Inv(s) && (slot.subjectId.Some? ==> slot.draftKey.None?)
    ensures Inv(Upload(s, slot, outcome)) && KeepsSubmitted(s, Upload(s, slot, outcome))
    ensures outcome.Stored? ==>
              var s' := Upload(s, slot, outcome);
              PendingIn(s', slot) == {s.next} && s'.docs[s.next] == NewDoc(slot, s.next) && s.next in s'.files
  {
    match outcome
    case StorageRejects =>
    case InsertFails => SkippedPathKeepsInv(s);
    case Stored(r) => StoredKeepsInv(s, slot, r);
  }

  lemma {:induction false} StoredKeepsInv(s: State, slot: Slot, r: Removal)
    requires Inv(s) && (slot.subjectId.Some? ==> slot.draftKey.None?)
    ensures
      var s' := Upload(s, slot, Stored(r));
      && Inv(s') && KeepsSubmitted(s, s')
      && PendingIn(s', slot) == {s.next} && s'.docs[s.next] == NewDoc(slot, s.next) && s.next in s'.files
  {
    var inserted := Inserted(s, slot);
    InsertKeepsBase(s, slot);
    var previous := PendingIn(inserted, slot) - {s.next};
    var s' := ReplacePrevious(inserted, previous, r);
    ReplaceEffect(inserted, previous, r);
    assert inserted.docs[s.next].path in inserted.files;
    SlotTaken(s, inserted, s', slot);
    KeepsTransitive(s, inserted, s');
    assert Upload(s, slot, Stored(r)) == s';
  }

  /** Pending afterwards is what was pending before and not replaced, and the new document. */
  lemma PendingAfterInsert(s: State, inserted: State, s': State, slot: Slot, id: nat)
    requires Base(s) && inserted.docs == s.docs[s.next := NewDoc(slot, s.next)]
    requires Replaced(inserted, s', PendingIn(inserted, slot) - {s.next}) && id in s'.docs && s'.docs[id].status == Pending
    ensures id == s.next || (id in s.docs && s'.docs[id] == s.docs[id] && SlotOf(s.docs[id]) != slot)
  {
  }

  lemma SlotTaken(s: State, inserted: State, s': State, slot: Slot)
    requires Inv(s) && inserted.docs == s.docs[s.next := NewDoc(slot, s.next)]
    requires Replaced(inserted, s', PendingIn(inserted, slot) - {s.next})
    ensures SlotsUnique(s')
    ensures PendingIn(s', slot) == {s.next} && s'.docs[s.next] == NewDoc(slot, s.next)
  {
    assert s.next in s'.docs;
    forall id | id in s'.docs && s'.docs[id].status == Pending
      ensures id == s.next || (id in s.docs && s'.docs[id] == s.docs[id] && SlotOf(s.docs[id]) != slot)
    {
      PendingAfterInsert(s, inserted, s', slot, id);
    }
  }

  lemma InsertKeepsBase(s: State, slot: Slot)
    requires Base(s) && (slot.subjectId.Some? ==> slot.draftKey.None?)
    ensures Base(Inserted(s, slot)) && KeepsSubmitted(s, Inserted(s, slot))
  {
    var inserted := Inserted(s, slot);
    forall path | path in inserted.files
      ensures HasRow(inserted, path)
    {
      if path == s.next {
        assert inserted.docs[s.next].path == path;
      } else {
        assert HasRow(s, path);
        var id :| id in s.docs && s.docs[id].path == path;
        assert inserted.docs[id].path == path;
      }
    }
  }

  function OfTypes(s: State, ids: set<nat>, types: seq<string>): set<nat> {
    set id | id in ids && id in s.docs && s.docs[id].docType in types
  }

  lemma {:induction false} ReplaceStep(s: State, mid: State, gone: set<nat>, more: set<nat>, r: Removal)
    requires Base(mid) && KeepsSubmitted(s, mid) && Replaced(s, mid, gone) && gone !! more
    ensures
      var s' := ReplacePrevious(mid, more, r);
      Base(s') && KeepsSubmitted(s, s') && Replaced(s, s', gone + more)
  {
    var s' := ReplacePrevious(mid, more, r);
    ReplaceEffect(mid, more, r);
    KeepsTransitive(s, mid, s');
  }

  lemma OfTypesSnoc(s: State, previous: set<nat>, types: seq<string>)
    requires types != [] && forall i, j | 0 <= i < j < |types| :: types[i] != types[j]
    ensures
      var n := |types| - 1;
      && OfTypes(s, previous, types) == OfTypes(s, previous, types[..n]) + OfType(s, previous, types[n])
      && OfTypes(s, previous, types[..n]) !! OfType(s, previous, types[n])
  {
    assert types == types[..|types| - 1] + [types[|types| - 1]];
  }

  lemma {:induction false} ReplaceTypesEffect(
      s: State, previous: set<nat>, types: seq<string>, removals: map<string, Removal>)
    requires Base(s) && forall i, j | 0 <= i < j < |types| :: types[i] != types[j]
    ensures
      var s' := ReplaceTypes(s, s, previous, types, removals);
      Base(s') && KeepsSubmitted(s, s') && Replaced(s, s', OfTypes(s, previous, types))
  {
    if types != [] {
      var n := |types| - 1;
      ReplaceTypesEffect(s, previous, types[..n], removals);
      OfTypesSnoc(s, previous, types);
      ReplaceStep(s, ReplaceTypes(s, s, previous, types[..n], removals), OfTypes(s, previous, types[..n]),
                  OfType(s, previous, types[n]), RemovalFor(removals, types[n]));
    }
  }

  lemma ReassignKeeps(s: State, ids: set<nat>, subjectId: string)
    requires Base(s)
    ensures Base(Reassign(s, ids, subjectId)) && KeepsSubmitted(s, Reassign(s, ids, subjectId))
  {
    var s' := Reassign(s, ids, subjectId);
    forall path | path in s'.files
      ensures HasRow(s', path)
    {
      assert HasRow(s, path);
      var id :| id in s.docs && s.docs[id].path == path;
      assert id in s'.docs && s'.docs[id].path == path;
    }
  }

  /** `types` holds each type of `all` once. */
  ghost predicate ListsTypes(types: seq<string>, all: set<string>) {
    && (forall t :: t in types <==> t in all)
    && (forall i, j | 0 <= i < j < |types| :: types[i] != types[j])
  }

  lemma ClaimKeepsInv(
      s: State, user: string, subjectType: SubjectType, subjectId: string, draftKey: Option<string>,
      types: seq<string>, removals: map<string, Removal>, claimFails: bool)
    requires Inv(s) && ListsTypes(types, TypesOf(s, Orphans(s, user, subjectType, draftKey)))
    ensures
      var s' := Claim(s, user, subjectType, subjectId, draftKey, types, removals, claimFails);
      && Inv(s') && KeepsSubmitted(s, s')
      && (!claimFails ==>
            forall id | id in Orphans(s, user, subjectType, draftKey) ::
              PendingIn(s', Slot(user, subjectType, Some(subjectId), None, s.docs[id].docType)) == {id})
  {
    var orphans := Orphans(s, user, subjectType, draftKey);
    if orphans != {} {
      var previous := PreviousOf(s, user, subjectType, subjectId, TypesOf(s, orphans));
      ReplaceTypesEffect(s, previous, types, removals);
      var replaced := ReplaceTypes(s, s, previous, types, removals);
      assert previous == OfTypes(s, previous, types);
      ReplacedSlots(s, replaced, previous);
      if !claimFails {
        ReassignKeeps(replaced, orphans, subjectId);
        KeepsTransitive(s, replaced, Reassign(replaced, orphans, subjectId));
        ClaimedSlots(s, replaced, user, subjectType, subjectId, draftKey);
      }
    }
  }

  /** A pending document the user uploaded before the person had a row, under this draft key. */
  predicate Waits(d: Doc, user: string, subjectType: SubjectType, draftKey: Option<string>) {
    d.status == Pending && d.user == user && d.subjectType == subjectType && d.subjectId == None && d.draftKey == draftKey
  }

  /** A pending document the person has already. */
  predicate Has(d: Doc, user: string, subjectType: SubjectType, subjectId: string) {
    d.status == Pending && d.user == user && d.subjectType == subjectType && d.subjectId == Some(subjectId)
  }

  predicate Replaces(s: State, d: Doc, user: string, subjectType: SubjectType, draftKey: Option<string>) {
    exists id | id in s.docs :: Waits(s.docs[id], user, subjectType, draftKey) && s.docs[id].docType == d.docType
  }

  lemma ClaimReplaces(
      s: State, orphans: set<nat>, previous: set<nat>, types: seq<string>, removals: map<string, Removal>)
    requires Base(s) && ListsTypes(types, TypesOf(s, orphans))
    requires forall id | id in previous :: id in s.docs && s.docs[id].docType in TypesOf(s, orphans)
    ensures Replaced(s, ReplaceTypes(s, s, previous, types, removals), previous)
  {
    ReplaceTypesEffect(s, previous, types, removals);
    assert previous == OfTypes(s, previous, types);
  }

  lemma AfterClaim(
      s: State, replaced: State, orphans: set<nat>, previous: set<nat>, subjectId: string, claimFails: bool, id: nat)
    requires Replaced(s, replaced, previous) && id in s.docs && !(id in orphans && id in previous)
    ensures
      var d, s' := s.docs[id], if claimFails then replaced else Reassign(replaced, orphans, subjectId);
      && (id in orphans ==>
            id in s'.docs
            && s'.docs[id] == if claimFails then d else d.(subjectId := Some(subjectId), draftKey := None))
      && (id !in orphans && id !in previous ==> id in s'.docs && s'.docs[id] == d)
      && (id in previous ==> id in s'.docs ==> s'.docs[id] == d.(status := Superseded))
  {
  }

  /** A claim gives the person exactly the documents that wait under the key, and leaves all it does not replace. */
  lemma ClaimEffect(
      s: State, user: string, subjectType: SubjectType, subjectId: string, draftKey: Option<string>,
      types: seq<string>, removals: map<string, Removal>, claimFails: bool, id: nat)
    requires Inv(s) && ListsTypes(types, TypesOf(s, Orphans(s, user, subjectType, draftKey))) && id in s.docs
    ensures
      var d, s' := s.docs[id], Claim(s, user, subjectType, subjectId, draftKey, types, removals, claimFails);
      && (Waits(d, user, subjectType, draftKey) ==>
            id in s'.docs
            && s'.docs[id] == if claimFails then d else d.(subjectId := Some(subjectId), draftKey := None))
      && (!Waits(d, user, subjectType, draftKey)
          && !(Has(d, user, subjectType, subjectId) && Replaces(s, d, user, subjectType, draftKey)) ==>
            id in s'.docs && s'.docs[id] == d)
      && (Has(d, user, subjectType, subjectId) && Replaces(s, d, user, subjectType, draftKey) ==>
            id in s'.docs ==> s'.docs[id] == d.(status := Superseded))
  {
    var d := s.docs[id];
    var orphans := Orphans(s, user, subjectType, draftKey);
    var previous := PreviousOf(s, user, subjectType, subjectId, TypesOf(s, orphans));
    assert id in orphans <==> Waits(d, user, subjectType, draftKey);
    PreviousIff(s, user, subjectType, subjectId, draftKey, id);
    if orphans != {} {
      ClaimReplaces(s, orphans, previous, types, removals);
      assert !(id in orphans && id in previous);
      AfterClaim(s, ReplaceTypes(s, s, previous, types, removals), orphans, previous, subjectId, claimFails, id);
    } else {
      assert id !in previous;
    }
  }

  lemma PreviousIff(
      s: State, user: string, subjectType: SubjectType, subjectId: string, draftKey: Option<string>, id: nat)
    requires id in s.docs
    ensures
      var d := s.docs[id];
      id in PreviousOf(s, user, subjectType, subjectId, TypesOf(s, Orphans(s, user, subjectType, draftKey)))
      <==> Has(d, user, subjectType, subjectId) && Replaces(s, d, user, subjectType, draftKey)
  {
    var d, orphans := s.docs[id], Orphans(s, user, subjectType, draftKey);
    if Replaces(s, d, user, subjectType, draftKey) {
      var k :| k in s.docs && Waits(s.docs[k], user, subjectType, draftKey) && s.docs[k].docType == d.docType;
      assert k in orphans;
      assert d.docType in TypesOf(s, orphans);
    }
    if d.docType in TypesOf(s, orphans) {
      var k :| k in orphans && k in s.docs && s.docs[k].docType == d.docType;
      assert Waits(s.docs[k], user, subjectType, draftKey);
    }
  }

  lemma ReplacedSlots(s: State, s': State, gone: set<nat>)
    requires SlotsUnique(s) && Replaced(s, s', gone)
    ensures SlotsUnique(s')
  {
  }

  /** A pending row after the claim: an orphan now filed under the person, or a row that was there before. */
  lemma ClaimedRow(
      s: State, replaced: State, user: string, subjectType: SubjectType, subjectId: string, draftKey: Option<string>,
      i: nat)
    requires Base(s)
    requires
      var orphans := Orphans(s, user, subjectType, draftKey);
      && Replaced(s, replaced, PreviousOf(s, user, subjectType, subjectId, TypesOf(s, orphans)))
      && i in Reassign(replaced, orphans, subjectId).docs
      && Reassign(replaced, orphans, subjectId).docs[i].status == Pending
    ensures
      var orphans := Orphans(s, user, subjectType, draftKey);
      var slot := SlotOf(Reassign(replaced, orphans, subjectId).docs[i]);
      && i in s.docs && s.docs[i].status == Pending
      && (i in orphans ==> slot == Slot(user, subjectType, Some(subjectId), None, s.docs[i].docType))
      && (i !in orphans ==>
            && slot == SlotOf(s.docs[i])
            && forall k | k in orphans :: slot != Slot(user, subjectType, Some(subjectId), None, s.docs[k].docType))
  {
    var orphans := Orphans(s, user, subjectType, draftKey);
    assert forall k | k in orphans :: s.docs[k].docType in TypesOf(s, orphans);
  }

  lemma {:induction false} ClaimedSlots(
      s: State, replaced: State, user: string, subjectType: SubjectType, subjectId: string, draftKey: Option<string>)
    requires Inv(s)
    requires
      var orphans := Orphans(s, user, subjectType, draftKey);
      Replaced(s, replaced, PreviousOf(s, user, subjectType, subjectId, TypesOf(s, orphans)))
    ensures
      var orphans := Orphans(s, user, subjectType, draftKey);
      var s' := Reassign(replaced, orphans, subjectId);
      && SlotsUnique(s')
      && (forall id | id in orphans ::
            PendingIn(s', Slot(user, subjectType, Some(subjectId), None, s.docs[id].docType)) == {id})
  {
    var orphans := Orphans(s, user, subjectType, draftKey);
    var s' := Reassign(replaced, orphans, subjectId);
    forall i, j | i in s'.docs && j in s'.docs && s'.docs[i].status == Pending && s'.docs[j].status == Pending
                  && SlotOf(s'.docs[i]) == SlotOf(s'.docs[j])
      ensures i == j
    {
      ClaimedRow(s, replaced, user, subjectType, subjectId, draftKey, i);
      ClaimedRow(s, replaced, user, subjectType, subjectId, draftKey, j);
      assert SlotOf(s.docs[i]) == SlotOf(s.docs[j]);
    }
    forall id | id in orphans
      ensures PendingIn(s', Slot(user, subjectType, Some(subjectId), None, s.docs[id].docType)) == {id}
    {
      OnlyPending(s', Slot(user, subjectType, Some(subjectId), None, s.docs[id].docType), id);
    }
  }

  lemma OnlyPending(s: State, slot: Slot, id: nat)
    requires SlotsUnique(s) && id in s.docs && s.docs[id].status == Pending && SlotOf(s.docs[id]) == slot
    ensures PendingIn(s, slot) == {id}
  {
  }

  lemma DeletesKeepInv(s: State, user: string, id: nat, r: Removal)
    requires Inv(s)
    ensures Inv(DeleteDraftDocument(s, user, id, r)) && KeepsSubmitted(s, DeleteDraftDocument(s, user, id, r))
    ensures Inv(DeleteDraft(s, user, r)) && KeepsSubmitted(s, DeleteDraft(s, user, r))
  {
    HardDeleteKeeps(s, DraftsOfUser(s, user), r);
    if id in s.docs && s.docs[id].isDraft {
      HardDeleteKeeps(s, {id}, r);
    }
  }

  /**
   * Deleting one document takes a pending draft of that user and nothing else; deleting the draft takes all drafts of
   * the user, pending or not. A removal that fails leaves every row.
   */
  lemma DeletesTake(s: State, user: string, id: nat, r: Removal, other: nat)
    requires id in s.docs && other in s.docs
    ensures
      var d, kept := s.docs[id], DeleteDraftDocument(s, user, id, r);
      if d.user == user && d.isDraft && d.status == Pending then Removed(s, kept, {id}, r) else kept == s
    ensures Removed(s, DeleteDraft(s, user, r), DraftsOfUser(s, user), r)
    ensures
      other in DeleteDraft(s, user, r).docs <==>
      !s.docs[other].isDraft || s.docs[other].user != user || r.storageFails || r.rowsFail
  {
    HardDeleteRemoves(s, {id}, r);
    HardDeleteRemoves(s, DraftsOfUser(s, user), r);
  }

  lemma MarkSubmittedKeepsInv(s: State, user: string)
    requires Inv(s)
    ensures Inv(MarkSubmitted(s, user)) && KeepsSubmitted(s, MarkSubmitted(s, user))
    ensures
      var s' := MarkSubmitted(s, user);
      && DraftsOfUser(s', user) == {} && s'.docs.Keys == s.docs.Keys && s'.files == s.files
      && (forall id | id in s.docs :: s'.docs[id] == s.docs[id].(isDraft := s.docs[id].isDraft && s.docs[id].user != user))
  {
    var s' := MarkSubmitted(s, user);
    forall path | path in s'.files
      ensures HasRow(s', path)
    {
      assert HasRow(s, path);
      var id :| id in s.docs && s.docs[id].path == path;
      assert id in s'.docs && s'.docs[id].path == path;
    }
    forall i, j | i in s'.docs && j in s'.docs && s'.docs[i].status == Pending && s'.docs[j].status == Pending
                  && SlotOf(s'.docs[i]) == SlotOf(s'.docs[j])
      ensures i == j
    {
      assert SlotOf(s.docs[i]) == SlotOf(s.docs[j]);
    }
  }
}
