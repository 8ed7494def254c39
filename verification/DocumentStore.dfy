/** The service calls over the documents table and the bucket, and what every run of them keeps. */
module DocumentStore {
  import opened Wrappers
  import opened Documents
  import opened UboConsolidation

  // ---- Runs ----

  datatype Op =
    | UploadOp(user: string, subjectType: SubjectType, subjectId: Option<string>, draftKey: Option<string>,
               docType: string, outcome: UploadOutcome)
    | ClaimOp(user: string, subjectType: SubjectType, person: string, draftKey: Option<string>,
              types: seq<string>, removals: map<string, Removal>, claimFails: bool)
    | DeleteDocumentOp(user: string, id: nat, removal: Removal)
    | DeleteDraftOp(user: string, removal: Removal)
    | SubmitOp(user: string)
    | ConsolidateOp(user: string, keeper: string, dups: set<string>, ids: seq<nat>, done: nat)

  /** The readings a call works on come from the state it starts in. */
  ghost predicate Feasible(s: State, op: Op) {
    match op
    case ClaimOp(user, subjectType, _, draftKey, types, _, _) =>
      ListsTypes(types, TypesOf(s, Orphans(s, user, subjectType, draftKey)))
    case ConsolidateOp(user, keeper, dups, ids, done) =>
      keeper !in dups && Present(s, ids) && Lists(ids, PendingOfUbos(s, user, dups)) && done <= |ids|
    case _ => true
  }

  ghost function Step(s: State, op: Op): State
    requires Feasible(s, op)
  {
    match op
    case UploadOp(user, subjectType, subjectId, draftKey, docType, outcome) =>
      var slot := UploadSlot(user, subjectType, subjectId, draftKey, docType);
      if slot.None? then s else Upload(s, slot.value, outcome)
    case ClaimOp(user, subjectType, person, draftKey, types, removals, claimFails) =>
      Claim(s, user, subjectType, person, draftKey, types, removals, claimFails)
    case DeleteDocumentOp(user, id, r) => DeleteDraftDocument(s, user, id, r)
    case DeleteDraftOp(user, r) => DeleteDraft(s, user, r)
    case SubmitOp(user) => MarkSubmitted(s, user)
    case ConsolidateOp(user, keeper, _, ids, done) => Consolidate(s, user, keeper, ids, done)
  }

  ghost predicate IsRun(states: seq<State>, ops: seq<Op>) {
    && |states| == |ops| + 1
    && forall i | 0 <= i < |ops| :: Feasible(states[i], ops[i]) && states[i + 1] == Step(states[i], ops[i])
  }

  lemma {:induction false} StepSafe(s: State, op: Op)
    requires Inv(s) && Feasible(s, op)
    ensures Inv(Step(s, op)) && KeepsSubmitted(s, Step(s, op))
  {
    match op
    case UploadOp(user, subjectType, subjectId, draftKey, docType, outcome) =>
      var slot := UploadSlot(user, subjectType, subjectId, draftKey, docType);
      if slot.Some? {
        UploadKeepsInv(s, slot.value, outcome);
      }
    case ClaimOp(user, subjectType, person, draftKey, types, removals, claimFails) =>
      ClaimKeepsInv(s, user, subjectType, person, draftKey, types, removals, claimFails);
    case DeleteDocumentOp(user, id, r) => DeletesKeepInv(s, user, id, r);
    case DeleteDraftOp(user, r) => DeletesKeepInv(s, user, 0, r);
    case SubmitOp(user) => MarkSubmittedKeepsInv(s, user);
    case ConsolidateOp(user, keeper, dups, ids, done) => ConsolidateLossless(s, user, keeper, dups, ids, done);
  }

  /**
   * Along every run, whatever fails midway, no slot has two pending documents and every stored object has a row, and
   * a document once submitted keeps its row, its object and its submitted mark.
   */
  lemma {:induction false} RunSafe(states: seq<State>, ops: seq<Op>, i: nat, j: nat)
    requires IsRun(states, ops) && Inv(states[0]) && i <= j <= |ops|
    ensures Inv(states[i]) && Inv(states[j]) && KeepsSubmitted(states[i], states[j])
    decreases j
  {
    if j > 0 {
      if i == j {
        RunSafe(states, ops, i - 1, j - 1);
        StepSafe(states[j - 1], ops[j - 1]);
      } else {
        RunSafe(states, ops, i, j - 1);
        StepSafe(states[j - 1], ops[j - 1]);
        KeepsTransitive(states[i], states[j - 1], states[j]);
      }
    }
  }

  // ---- The services ----

  datatype UploadError = InvalidDraftKey | StorageError | DatabaseError

  datatype DeleteError = NotFound | AlreadySubmitted | RemovalError

  class OnboardingStore {
    var docs: map<nat, Doc>
    var files: set<nat>
    var next: nat
    var ubos: seq<UboRow>

    constructor ()
      ensures View() == State(map[], {}, 0) && ubos == []
      ensures Inv(View())
    {
      docs, files, next, ubos := map[], {}, 0, [];
    }

    function View(): State
      reads this
    {
      State(docs, files, next)
    }

    method HardDeleteDocuments(ids: set<nat>, r: Removal) returns (ok: bool)
      modifies this`docs, this`files
      ensures (View(), ok) == HardDelete(old(View()), ids, r)
    {
      if ids == {} {
        return true;
      }
      var paths := PathsOf(View(), ids);
      if r.storageFails {
        files := files - paths * r.goneAnyway;
        return false;
      }
      files := files - paths;
      if r.rowsFail {
        return false;
      }
      docs := docs - ids;
      return true;
    }

    method ReplacePreviousDocuments(previous: set<nat>, r: Removal)
      modifies this`docs, this`files
      ensures View() == ReplacePrevious(old(View()), previous, r)
    {
      var drafts := DraftsIn(View(), previous);
      var submitted := previous - drafts;
      var deleted := HardDeleteDocuments(drafts, r);
      if !deleted {
        submitted := submitted + drafts;
        assert submitted == previous;
      }
      docs := Supersede(View(), submitted).docs;
    }

    /** A caller's empty draft key or person id arrives here as None; the storage path is a new one. */
    method UploadDocument(
        user: string, subjectType: SubjectType, subjectId: Option<string>, draftKey: Option<string>, docType: string,
        outcome: UploadOutcome)
      returns (r: Result<nat, UploadError>)
      requires next !in files
      modifies this`docs, this`files, this`next
      ensures r == Err(InvalidDraftKey) <==> subjectId.None? && draftKey.Some? && subjectType != Ubo
      ensures r.Err? && r.error.InvalidDraftKey? ==> View() == old(View())
      ensures !(r.Err? && r.error.InvalidDraftKey?) ==>
                var slot := UploadSlot(user, subjectType, subjectId, draftKey, docType);
                && slot.Some? && View() == Upload(old(View()), slot.value, outcome)
                && (r.Ok? <==> outcome.Stored?) && (r.Ok? ==> r.value == old(next))
    {
      var key := if subjectId.Some? then None else draftKey;
      if key.Some? && subjectType != Ubo {
        return Err(InvalidDraftKey);
      }
      if outcome.StorageRejects? {
        return Err(StorageError);
      }
      var id := next;
      next := next + 1;
      files := files + {id};
      if outcome.InsertFails? {
        files := files - {id};
        return Err(DatabaseError);
      }
      var slot := Slot(user, subjectType, subjectId, key, docType);
      docs := docs[id := NewDoc(slot, id)];
      ReplacePreviousDocuments(PendingIn(View(), slot) - {id}, outcome.removal);
      return Ok(id);
    }

    /** `types` is the order in which the orphans' document types were read. */
    method ClaimDraftDocuments(
        user: string, subjectType: SubjectType, subjectId: string, draftKey: Option<string>, types: seq<string>,
        removals: map<string, Removal>, claimFails: bool)
      returns (ok: bool)
      modifies this`docs, this`files
      ensures ok <==> !claimFails || Orphans(old(View()), user, subjectType, draftKey) == {}
      ensures View() == Claim(old(View()), user, subjectType, subjectId, draftKey, types, removals, claimFails)
    {
      var before := View();
      var orphans := Orphans(before, user, subjectType, draftKey);
      if orphans == {} {
        return true;
      }
      var previous := PreviousOf(before, user, subjectType, subjectId, TypesOf(before, orphans));
      for i := 0 to |types|
        invariant View() == ReplaceTypes(before, before, previous, types[..i], removals)
      {
        assert types[..i + 1][..i] == types[..i];
        ReplacePreviousDocuments(OfType(before, previous, types[i]), RemovalFor(removals, types[i]));
      }
      assert types[..|types|] == types;
      if claimFails {
        return false;
      }
      docs := Reassign(View(), orphans, subjectId).docs;
      return true;
    }

    method DeleteDraftDocument(user: string, id: nat, removal: Removal) returns (r: Result<(), DeleteError>)
      modifies this`docs, this`files
      ensures View() == Documents.DeleteDraftDocument(old(View()), user, id, removal)
      ensures r == Err(NotFound) <==> id !in old(docs) || old(docs)[id].user != user
      ensures r == Err(AlreadySubmitted) <==>
              id in old(docs) && old(docs)[id].user == user && (!old(docs)[id].isDraft || old(docs)[id].status != Pending)
      ensures r.Ok? ==> id !in docs && old(docs)[id].path !in files
    {
      if id !in docs || docs[id].user != user {
        return Err(NotFound);
      }
      if !docs[id].isDraft || docs[id].status != Pending {
        return Err(AlreadySubmitted);
      }
      ghost var path := docs[id].path;
      assert path in PathsOf(View(), {id});
      var deleted := HardDeleteDocuments({id}, removal);
      return if deleted then Ok(()) else Err(RemovalError);
    }

    method DeleteDraft(user: string, removal: Removal) returns (ok: bool)
      modifies this`docs, this`files
      ensures View() == Documents.DeleteDraft(old(View()), user, removal)
      ensures ok ==> DraftsOfUser(View(), user) == {}
    {
      ok := HardDeleteDocuments(DraftsOfUser(View(), user), removal);
    }

    method MarkSubmitted(user: string)
      modifies this`docs
      ensures View() == Documents.MarkSubmitted(old(View()), user)
    {
      docs := map id | id in docs :: if docs[id].user == user && docs[id].isDraft then docs[id].(isDraft := false) else docs[id];
    }

    /** Stops at the first update that fails. */
    method ConsolidateUboDocuments(user: string, keeper: string, ids: seq<nat>, failsAt: Option<nat>) returns (ok: bool)
      requires Present(View(), ids)
      modifies this`docs
      ensures ok <==> failsAt.None? || |ids| <= failsAt.value
      ensures View() == Consolidate(old(View()), user, keeper, ids, if ok then |ids| else failsAt.value)
    {
      var covered := TypesOf(View(), PendingOfUbos(View(), user, {keeper}));
      for i := 0 to |ids|
        invariant docs.Keys == old(docs).Keys
        invariant failsAt.Some? ==> i <= failsAt.value
        invariant Merge(View(), covered) == MergeAll(Start(old(View()), user, keeper), ids[..i], keeper)
      {
        if failsAt == Some(i) {
          return false;
        }
        assert ids[..i + 1][..i] == ids[..i];
        var id := ids[i];
        var docType := docs[id].docType;
        if docType in covered {
          docs := docs[id := docs[id].(status := Superseded)];
        } else {
          docs := docs[id := docs[id].(subjectId := Some(keeper))];
        }
        covered := covered + {docType};
      }
      assert ids[..|ids|] == ids;
      return true;
    }

    /** `ids` is the reading of the removable rows' pending documents, `newId` the id given to an inserted row. */
    method UpsertUboRow(user: string, business: string, dto: UboDto, newId: string, ids: seq<nat>, fault: Fault)
      returns (kept: Option<string>)
      requires Present(View(), ids) && (fault.MergeFails? ==> fault.done < |ids|)
      modifies this`docs, this`ubos
      ensures (Tables(ubos, View()), kept) == Upsert(old(Tables(ubos, View())), user, business, dto, newId, ids, fault)
    {
      var existing := FindExisting(ubos, business, dto);
      var keeper := PickUboToKeep(existing);
      if keeper.None? {
        if !fault.NoFault? {
          return None;
        }
        ubos := ubos + [InsertedRow(business, dto, newId)];
        return Some(newId);
      }
      var keep := keeper.value.id;
      var removable := Removable(existing, keep);
      if removable != {} {
        var merged := ConsolidateUboDocuments(user, keep, ids, if fault.MergeFails? then Some(fault.done) else None);
        if !merged || fault.DeleteFails? {
          return None;
        }
        ubos := Without(ubos, removable);
      }
      if !fault.NoFault? {
        return None;
      }
      ubos := Write(ubos, keep, dto);
      return Some(keep);
    }
  }
}
