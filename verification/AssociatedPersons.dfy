/**
 * The people of a business: the gate a submission must pass, the list of associated persons built from directors and
 * beneficial owners, and its synchronisation with Bridge. Absent texts are empty strings.
 */
module AssociatedPersons {
  import opened Wrappers
  import opened Text
  import Documents

  datatype DirectorRow = DirectorRow(
    id: string, firstName: string, lastName: string, email: string, position: string,
    idType: string, idNumber: string, taxId: string, hasAddress: bool, bridgeId: Option<string>)

  datatype UboRow = UboRow(
    id: string, firstName: string, lastName: string, email: string, position: string,
    idType: string, idNumber: string, taxId: string, hasAddress: bool, hasControl: bool,
    directorId: Option<string>, bridgeId: Option<string>)

  datatype Business = Business(user: string, hasAddress: bool, fallbackEmail: string)

  /** `stored` is the documents table, `readable` the documents whose object can be downloaded. */
  datatype Files = Files(stored: Documents.State, readable: set<nat>)

  // ---- The gate ----

  function GetRequiredIdentityDocTypes(idType: string): seq<string> {
    if idType == "passport" then ["passport"]
    else if idType == "national_id" then ["national_id_front", "national_id_back"]
    else if idType == "drivers_license" then ["drivers_license_front", "drivers_license_back"]
    else if idType == "" then []
    else [idType]
  }

  predicate IsDocOf(s: Documents.State, id: nat, user: string, subject: Documents.SubjectType, person: string) {
    && id in s.docs && s.docs[id].status == Documents.Pending && s.docs[id].user == user
    && s.docs[id].subjectType == subject && s.docs[id].subjectId == Some(person)
  }

  predicate HasDoc(s: Documents.State, user: string, subject: Documents.SubjectType, person: string, docType: string) {
    exists id | id in s.docs :: IsDocOf(s, id, user, subject, person) && s.docs[id].docType == docType
  }

  predicate DocumentsComplete(
      s: Documents.State, user: string, subject: Documents.SubjectType, person: string, idType: string)
  {
    forall t | t in GetRequiredIdentityDocTypes(idType) :: HasDoc(s, user, subject, person, t)
  }

  /** A beneficial owner linked to a director is checked through that director. */
  predicate IsLinked(u: UboRow) {
    u.directorId.Some? && u.directorId.value != ""
  }

  predicate GatePasses(s: Documents.State, user: string, directors: seq<DirectorRow>, ubos: seq<UboRow>) {
    && (forall d | d in directors :: DocumentsComplete(s, user, Documents.Director, d.id, d.idType))
    && (forall u | u in ubos && !IsLinked(u) :: DocumentsComplete(s, user, Documents.Ubo, u.id, u.idType))
  }

  // ---- What the gate asks for, type by type ----

  /** A pending document of this type, uploaded by the user for this person. */
  predicate HasPending(
      s: Documents.State, user: string, subject: Documents.SubjectType, person: string, docType: string)
  {
    exists id | id in s.docs ::
      var d := s.docs[id];
      && d.docType == docType && d.status == Documents.Pending && d.user == user && d.subjectType == subject
      && d.subjectId == Some(person)
  }

  /** Both sides of a card, the one page of a passport, whatever else is named, nothing for no type. */
  predicate ShowsIdentity(
      s: Documents.State, user: string, subject: Documents.SubjectType, person: string, idType: string)
  {
    && (idType == "passport" ==> HasPending(s, user, subject, person, "passport"))
    && (idType == "national_id" ==>
          && HasPending(s, user, subject, person, "national_id_front")
          && HasPending(s, user, subject, person, "national_id_back"))
    && (idType == "drivers_license" ==>
          && HasPending(s, user, subject, person, "drivers_license_front")
          && HasPending(s, user, subject, person, "drivers_license_back"))
    && (idType !in {"", "passport", "national_id", "drivers_license"} ==> HasPending(s, user, subject, person, idType))
  }

  /** Every director, and every owner without a link to one. */
  predicate EveryoneShows(s: Documents.State, user: string, directors: seq<DirectorRow>, ubos: seq<UboRow>) {
    && (forall d | d in directors :: ShowsIdentity(s, user, Documents.Director, d.id, d.idType))
    && (forall u | u in ubos && (u.directorId == None || u.directorId == Some("")) ::
          ShowsIdentity(s, user, Documents.Ubo, u.id, u.idType))
  }

  lemma HasPendingIff(
      s: Documents.State, user: string, subject: Documents.SubjectType, person: string, docType: string)
    ensures HasDoc(s, user, subject, person, docType) <==> HasPending(s, user, subject, person, docType)
  {
    if HasDoc(s, user, subject, person, docType) {
      var id :| id in s.docs && IsDocOf(s, id, user, subject, person) && s.docs[id].docType == docType;
      assert id in s.docs && s.docs[id].docType == docType;
    }
    if HasPending(s, user, subject, person, docType) {
      var id :| id in s.docs && s.docs[id].docType == docType && s.docs[id].status == Documents.Pending
                && s.docs[id].user == user && s.docs[id].subjectType == subject && s.docs[id].subjectId == Some(person);
      assert IsDocOf(s, id, user, subject, person);
    }
  }

  lemma CompleteIff(
      s: Documents.State, user: string, subject: Documents.SubjectType, person: string, idType: string)
    ensures DocumentsComplete(s, user, subject, person, idType) <==> ShowsIdentity(s, user, subject, person, idType)
  {
    var required := GetRequiredIdentityDocTypes(idType);
    forall t
      ensures HasDoc(s, user, subject, person, t) <==> HasPending(s, user, subject, person, t)
    {
      HasPendingIff(s, user, subject, person, t);
    }
    if idType == "national_id" || idType == "drivers_license" {
      assert forall t :: t in required <==> t == required[0] || t == required[1];
    }
  }

  /** The gate passes exactly when every director, and every owner without a link, shows an identity. */
  lemma GateIff(s: Documents.State, user: string, directors: seq<DirectorRow>, ubos: seq<UboRow>)
    ensures GatePasses(s, user, directors, ubos) <==> EveryoneShows(s, user, directors, ubos)
  {
    forall d | d in directors
      ensures DocumentsComplete(s, user, Documents.Director, d.id, d.idType)
              <==> ShowsIdentity(s, user, Documents.Director, d.id, d.idType)
    {
      CompleteIff(s, user, Documents.Director, d.id, d.idType);
    }
    forall u | u in ubos
      ensures DocumentsComplete(s, user, Documents.Ubo, u.id, u.idType)
              <==> ShowsIdentity(s, user, Documents.Ubo, u.id, u.idType)
    {
      CompleteIff(s, user, Documents.Ubo, u.id, u.idType);
    }
  }

  method AssertIdentityDocumentsComplete(
      s: Documents.State, user: string, directors: seq<DirectorRow>, ubos: seq<UboRow>)
    returns (ok: bool)
    ensures ok <==> GatePasses(s, user, directors, ubos)
    ensures ok <==> EveryoneShows(s, user, directors, ubos)
  {
    var subjects: seq<(Documents.SubjectType, string, string)> := [];
    for i := 0 to |directors|
      invariant Collects(subjects, directors[..i], [])
    {
      CollectsDirector(subjects, directors, i);
      subjects := subjects + [(Documents.Director, directors[i].id, directors[i].idType)];
    }
    assert directors[..|directors|] == directors;
    for i := 0 to |ubos|
      invariant Collects(subjects, directors, ubos[..i])
    {
      CollectsUbo(subjects, directors, ubos, i);
      if !IsLinked(ubos[i]) {
        subjects := subjects + [(Documents.Ubo, ubos[i].id, ubos[i].idType)];
      }
    }
    assert ubos[..|ubos|] == ubos;
    ok := true;
    var i := 0;
    while ok && i < |subjects|
      invariant i <= |subjects|
      invariant ok <==> forall k | 0 <= k < i :: SubjectComplete(s, user, subjects[k])
    {
      ok := DocumentsComplete(s, user, subjects[i].0, subjects[i].1, subjects[i].2);
      i := i + 1;
    }
    SubjectsDecide(s, user, directors, ubos, subjects, i, ok);
    GateIff(s, user, directors, ubos);
  }

  /** The subjects are exactly the directors and the owners without a link. */
  ghost predicate Collects(
      subjects: seq<(Documents.SubjectType, string, string)>, directors: seq<DirectorRow>, ubos: seq<UboRow>)
  {
    && (forall d | d in directors :: (Documents.Director, d.id, d.idType) in subjects)
    && (forall u | u in ubos && !IsLinked(u) :: (Documents.Ubo, u.id, u.idType) in subjects)
    && (forall x | x in subjects :: FromDirector(directors, x) || FromUbo(ubos, x))
  }

  lemma CollectsDirector(
      subjects: seq<(Documents.SubjectType, string, string)>, directors: seq<DirectorRow>, i: nat)
    requires i < |directors| && Collects(subjects, directors[..i], [])
    ensures Collects(subjects + [(Documents.Director, directors[i].id, directors[i].idType)], directors[..i + 1], [])
  {
    var more := directors[..i + 1];
    assert more == directors[..i] + [directors[i]];
    assert directors[i] in more;
    forall x | x in subjects
      ensures FromDirector(more, x)
    {
      assert FromDirector(directors[..i], x);
    }
  }

  lemma CollectsUbo(
      subjects: seq<(Documents.SubjectType, string, string)>, directors: seq<DirectorRow>, ubos: seq<UboRow>, i: nat)
    requires i < |ubos| && Collects(subjects, directors, ubos[..i])
    ensures
      Collects(if IsLinked(ubos[i]) then subjects else subjects + [(Documents.Ubo, ubos[i].id, ubos[i].idType)],
               directors, ubos[..i + 1])
  {
    var more := ubos[..i + 1];
    assert more == ubos[..i] + [ubos[i]];
    assert ubos[i] in more;
    forall x | x in subjects
      ensures FromDirector(directors, x) || FromUbo(more, x)
    {
      assert FromDirector(directors, x) || FromUbo(ubos[..i], x);
    }
  }

  ghost predicate FromDirector(directors: seq<DirectorRow>, x: (Documents.SubjectType, string, string)) {
    exists d :: d in directors && x == (Documents.Director, d.id, d.idType)
  }

  ghost predicate FromUbo(ubos: seq<UboRow>, x: (Documents.SubjectType, string, string)) {
    exists u :: u in ubos && !IsLinked(u) && x == (Documents.Ubo, u.id, u.idType)
  }

  predicate SubjectComplete(s: Documents.State, user: string, x: (Documents.SubjectType, string, string)) {
    DocumentsComplete(s, user, x.0, x.1, x.2)
  }

  /** What was found of the collected subjects, up to the first incomplete one, decides the gate. */
  lemma SubjectsDecide(
      s: Documents.State, user: string, directors: seq<DirectorRow>, ubos: seq<UboRow>,
      subjects: seq<(Documents.SubjectType, string, string)>, n: nat, ok: bool)
    requires n <= |subjects| && (ok ==> n == |subjects|)
    requires ok <==> forall k | 0 <= k < n :: SubjectComplete(s, user, subjects[k])
    requires Collects(subjects, directors, ubos)
    ensures ok <==> GatePasses(s, user, directors, ubos)
  {
    if ok {
      forall x | x in subjects
        ensures SubjectComplete(s, user, x)
      {
        var k :| 0 <= k < |subjects| && subjects[k] == x;
        assert SubjectComplete(s, user, subjects[k]);
      }
      assert forall d | d in directors :: SubjectComplete(s, user, (Documents.Director, d.id, d.idType));
      assert forall u | u in ubos && !IsLinked(u) :: SubjectComplete(s, user, (Documents.Ubo, u.id, u.idType));
    } else {
      var k :| 0 <= k < n && !SubjectComplete(s, user, subjects[k]);
      assert subjects[k] in subjects;
    }
  }

  // ---- Identifying information ----

  const IDENTITY_DOC_TYPES := {
    "passport", "national_id", "national_id_front", "national_id_back",
    "drivers_license", "drivers_license_front", "drivers_license_back", "selfie"}

  predicate Contains(s: string, part: string) {
    exists i | 0 <= i <= |s| :: StandsAt(s, part, i)
  }

  predicate StandsAt(s: string, part: string, i: nat)
    requires i <= |s|
  {
    part <= s[i..]
  }

  /** The document shows the identity document of this type. */
  predicate MatchesIdType(docType: string, idType: string) {
    docType in IDENTITY_DOC_TYPES
    && ((idType == "passport" && docType == "passport")
        || (idType == "national_id" && "national_id" <= docType)
        || (idType == "drivers_license" && "drivers_license" <= docType))
  }

  /** Only the newest document of each type is looked at. */
  predicate IsNewest(s: Documents.State, id: nat, user: string, subject: Documents.SubjectType, person: string) {
    && IsDocOf(s, id, user, subject, person)
    && forall k | k in s.docs && IsDocOf(s, k, user, subject, person) && s.docs[k].docType == s.docs[id].docType :: k <= id
  }

  predicate HasFrontImage(f: Files, user: string, subject: Documents.SubjectType, person: string, idType: string) {
    exists id | id in f.stored.docs ::
      && IsNewest(f.stored, id, user, subject, person) && MatchesIdType(f.stored.docs[id].docType, idType)
      && !Contains(f.stored.docs[id].docType, "back") && id in f.readable
  }

  datatype Error = NoAddress | NoTitle | NoIdentityDocument | Ambiguous | BadRemoteId | RequestFailed | RowRejected

  /** An identity document is declared but its front cannot be produced. */
  predicate Unidentified(
      f: Files, user: string, subject: Documents.SubjectType, person: string, idType: string, idNumber: string)
  {
    idType != "" && idNumber != "" && !HasFrontImage(f, user, subject, person, idType)
  }

  /** Whether there is any identifying information: an identity document or a tax number. */
  function Identify(
      f: Files, user: string, subject: Documents.SubjectType, person: string, idType: string, idNumber: string,
      taxId: string)
    : Result<bool, Error>
  {
    if Unidentified(f, user, subject, person, idType, idNumber) then Err(NoIdentityDocument)
    else Ok((idType != "" && idNumber != "") || taxId != "")
  }

  // ---- Building the list ----

  datatype Entry = Entry(
    source: Documents.SubjectType, sourceId: string, bridgeId: Option<string>, firstName: string, lastName: string,
    email: string, title: string, hasControl: bool, hasOwnership: bool, identified: bool)

  function DirectorEntry(f: Files, b: Business, d: DirectorRow): Result<Entry, Error> {
    if !d.hasAddress && !b.hasAddress then Err(NoAddress)
    else
      match Identify(f, b.user, Documents.Director, d.id, d.idType, d.idNumber, d.taxId)
      case Err(e) => Err(e)
      case Ok(identified) =>
        Ok(Entry(Documents.Director, d.id, d.bridgeId, d.firstName, d.lastName, OrElse(d.email, b.fallbackEmail),
                 d.position, true, false, identified))
  }

  function DirectorEntries(f: Files, b: Business, directors: seq<DirectorRow>): Result<seq<Entry>, Error> {
    if directors == [] then Ok([])
    else
      var n := |directors| - 1;
      match DirectorEntries(f, b, directors[..n])
      case Err(e) => Err(e)
      case Ok(entries) =>
        match DirectorEntry(f, b, directors[n])
        case Err(e) => Err(e)
        case Ok(entry) => Ok(entries + [entry])
  }

  function IndexOf(entries: seq<Entry>, id: string): Option<nat> {
    if entries == [] then None
    else
      var n := |entries| - 1;
      if entries[n].sourceId == id then Some(n) else IndexOf(entries[..n], id)
  }

  datatype Lists = Lists(directors: seq<Entry>, independent: seq<Entry>)

  /** A linked owner completes the director's entry. */
  function Fused(f: Files, b: Business, entry: Entry, u: UboRow): Result<Entry, Error> {
    var title := OrElse(entry.title, u.position);
    if title == "" then Err(NoTitle)
    else
      var fused := entry.(email := OrElse(entry.email, u.email), title := title, hasOwnership := true);
      if entry.identified then Ok(fused)
      else
        match Identify(f, b.user, Documents.Ubo, u.id, u.idType, u.idNumber, u.taxId)
        case Err(e) => Err(e)
        case Ok(identified) => Ok(fused.(identified := identified))
  }

  function IndependentEntry(f: Files, b: Business, u: UboRow): Result<Entry, Error> {
    if !u.hasAddress && !b.hasAddress then Err(NoAddress)
    else if u.hasControl && u.position == "" then Err(NoTitle)
    else
      match Identify(f, b.user, Documents.Ubo, u.id, u.idType, u.idNumber, u.taxId)
      case Err(e) => Err(e)
      case Ok(identified) =>
        Ok(Entry(Documents.Ubo, u.id, u.bridgeId, u.firstName, u.lastName, u.email,
                 if u.hasControl then u.position else "", u.hasControl, true, identified))
  }

  /** The entry of the director an owner is linked to, if that director is in the list. */
  function LinkOf(entries: seq<Entry>, u: UboRow): Option<nat> {
    if IsLinked(u) then IndexOf(entries, u.directorId.value) else None
  }

  function AddUbo(f: Files, b: Business, l: Lists, u: UboRow): Result<Lists, Error> {
    var link := LinkOf(l.directors, u);
    if link.Some? && link.value < |l.directors| then
      match Fused(f, b, l.directors[link.value], u)
      case Err(e) => Err(e)
      case Ok(entry) => Ok(l.(directors := l.directors[link.value := entry]))
    else
      match IndependentEntry(f, b, u)
      case Err(e) => Err(e)
      case Ok(entry) => Ok(l.(independent := l.independent + [entry]))
  }

  function AddUbos(f: Files, b: Business, l: Lists, ubos: seq<UboRow>): Result<Lists, Error> {
    if ubos == [] then Ok(l)
    else
      var n := |ubos| - 1;
      match AddUbos(f, b, l, ubos[..n])
      case Err(e) => Err(e)
      case Ok(mid) => AddUbo(f, b, mid, ubos[n])
  }

  function Build(f: Files, b: Business, directors: seq<DirectorRow>, ubos: seq<UboRow>): Result<Lists, Error> {
    match DirectorEntries(f, b, directors)
    case Err(e) => Err(e)
    case Ok(entries) => AddUbos(f, b, Lists(entries, []), ubos)
  }

  method BuildAssociatedPersons(f: Files, b: Business, directors: seq<DirectorRow>, ubos: seq<UboRow>)
    returns (r: Result<seq<Entry>, Error>)
    ensures Build(f, b, directors, ubos).Err? ==> r == Err(Build(f, b, directors, ubos).error)
    ensures Build(f, b, directors, ubos).Ok? ==>
              var l := Build(f, b, directors, ubos).value;
              r == Ok(l.directors + l.independent)
  {
    var entries: seq<Entry> := [];
    for i := 0 to |directors|
      invariant DirectorEntries(f, b, directors[..i]) == Ok(entries)
    {
      assert directors[..i + 1][..i] == directors[..i];
      var entry := DirectorEntry(f, b, directors[i]);
      if entry.Err? {
        DirectorErrorStays(f, b, directors, i + 1);
        return Err(entry.error);
      }
      entries := entries + [entry.value];
    }
    assert directors[..|directors|] == directors;
    ghost var start := Lists(entries, []);
    var independent: seq<Entry> := [];
    for i := 0 to |ubos|
      invariant AddUbos(f, b, start, ubos[..i]) == Ok(Lists(entries, independent))
    {
      assert ubos[..i + 1][..i] == ubos[..i];
      var link := LinkOf(entries, ubos[i]);
      if link.Some? && link.value < |entries| {
        var fused := Fused(f, b, entries[link.value], ubos[i]);
        if fused.Err? {
          UboErrorStays(f, b, start, ubos, i + 1);
          return Err(fused.error);
        }
        entries := entries[link.value := fused.value];
      } else {
        var entry := IndependentEntry(f, b, ubos[i]);
        if entry.Err? {
          UboErrorStays(f, b, start, ubos, i + 1);
          return Err(entry.error);
        }
        independent := independent + [entry.value];
      }
    }
    assert ubos[..|ubos|] == ubos;
    return Ok(entries + independent);
  }

  lemma {:induction false} DirectorErrorStays(f: Files, b: Business, directors: seq<DirectorRow>, i: nat)
    requires i <= |directors| && DirectorEntries(f, b, directors[..i]).Err?
    ensures DirectorEntries(f, b, directors) == DirectorEntries(f, b, directors[..i])
  {
    if i < |directors| {
      var n := |directors| - 1;
      assert directors[..n][..i] == directors[..i];
      DirectorErrorStays(f, b, directors[..n], i);
    } else {
      assert directors[..i] == directors;
    }
  }

  lemma {:induction false} UboErrorStays(f: Files, b: Business, l: Lists, ubos: seq<UboRow>, i: nat)
    requires i <= |ubos| && AddUbos(f, b, l, ubos[..i]).Err?
    ensures AddUbos(f, b, l, ubos) == AddUbos(f, b, l, ubos[..i])
  {
    if i < |ubos| {
      var n := |ubos| - 1;
      assert ubos[..n][..i] == ubos[..i];
      UboErrorStays(f, b, l, ubos[..n], i);
    } else {
      assert ubos[..i] == ubos;
    }
  }

  // ---- What the list holds ----

  predicate IsDirector(directors: seq<DirectorRow>, id: string) {
    exists d :: d in directors && d.id == id
  }

  /** Not merged into a director's entry. */
  predicate Stands(directors: seq<DirectorRow>, u: UboRow) {
    !(IsLinked(u) && IsDirector(directors, u.directorId.value))
  }

  function Standing(directors: seq<DirectorRow>, ubos: seq<UboRow>): seq<UboRow> {
    if ubos == [] then []
    else
      var n := |ubos| - 1;
      Standing(directors, ubos[..n]) + if Stands(directors, ubos[n]) then [ubos[n]] else []
  }

  /** `entry` represents the director, with ownership exactly when an owner is linked to it. */
  predicate Represents(entry: Entry, d: DirectorRow, ubos: seq<UboRow>) {
    && entry.source == Documents.Director && entry.sourceId == d.id && entry.bridgeId == d.bridgeId && entry.hasControl
    && (entry.hasOwnership <==> exists u :: u in ubos && IsLinked(u) && u.directorId.value == d.id)
  }

  predicate RepresentsOwner(entry: Entry, u: UboRow) {
    entry.source == Documents.Ubo && entry.sourceId == u.id && entry.bridgeId == u.bridgeId && entry.hasOwnership
  }

  ghost predicate DistinctDirectors(directors: seq<DirectorRow>) {
    forall i, j | 0 <= i < j < |directors| :: directors[i].id != directors[j].id
  }

  ghost predicate Faithful(l: Lists, directors: seq<DirectorRow>, ubos: seq<UboRow>) {
    && |l.directors| == |directors|
    && (forall i | 0 <= i < |directors| :: Represents(l.directors[i], directors[i], ubos))
    && |l.independent| == |Standing(directors, ubos)|
    && (forall i | 0 <= i < |l.independent| :: RepresentsOwner(l.independent[i], Standing(directors, ubos)[i]))
  }

  lemma {:induction false} DirectorEntriesFaithful(f: Files, b: Business, directors: seq<DirectorRow>)
    requires DirectorEntries(f, b, directors).Ok?
    ensures Faithful(Lists(DirectorEntries(f, b, directors).value, []), directors, [])
  {
    if directors != [] {
      var n := |directors| - 1;
      DirectorEntriesFaithful(f, b, directors[..n]);
      var entries := DirectorEntries(f, b, directors[..n]).value;
      assert forall i | 0 <= i < n :: directors[i] == directors[..n][i];
    }
  }

  lemma {:induction false} IndexOfIs(entries: seq<Entry>, id: string)
    ensures IndexOf(entries, id).Some? ==>
              IndexOf(entries, id).value < |entries| && entries[IndexOf(entries, id).value].sourceId == id
    ensures IndexOf(entries, id).None? ==> forall i | 0 <= i < |entries| :: entries[i].sourceId != id
  {
    if entries != [] {
      IndexOfIs(entries[..|entries| - 1], id);
    }
  }

  lemma LinkOfIs(l: Lists, directors: seq<DirectorRow>, ubos: seq<UboRow>, u: UboRow)
    requires Faithful(l, directors, ubos)
    ensures LinkOf(l.directors, u).Some? <==> !Stands(directors, u)
    ensures LinkOf(l.directors, u).Some? ==>
              var k := LinkOf(l.directors, u).value;
              k < |directors| && directors[k].id == u.directorId.value
  {
    if IsLinked(u) {
      IndexOfIs(l.directors, u.directorId.value);
      assert forall i | 0 <= i < |directors| :: Represents(l.directors[i], directors[i], ubos) && directors[i] in directors;
    }
  }

  lemma AddUboFaithful(f: Files, b: Business, l: Lists, directors: seq<DirectorRow>, ubos: seq<UboRow>, u: UboRow)
    requires DistinctDirectors(directors) && Faithful(l, directors, ubos) && AddUbo(f, b, l, u).Ok?
    ensures Faithful(AddUbo(f, b, l, u).value, directors, ubos + [u])
  {
    LinkOfIs(l, directors, ubos, u);
    var l' := AddUbo(f, b, l, u).value;
    assert (ubos + [u])[..|ubos|] == ubos;
    forall i | 0 <= i < |directors|
      ensures Represents(l'.directors[i], directors[i], ubos + [u])
    {
      assert Represents(l.directors[i], directors[i], ubos);
      assert forall v :: v in ubos + [u] <==> v in ubos || v == u;
    }
  }

  lemma LastUbo(f: Files, b: Business, l: Lists, ubos: seq<UboRow>)
    requires ubos != [] && AddUbos(f, b, l, ubos).Ok?
    ensures
      var before := AddUbos(f, b, l, ubos[..|ubos| - 1]);
      before.Ok? && AddUbos(f, b, l, ubos) == AddUbo(f, b, before.value, ubos[|ubos| - 1])
  {
  }

  lemma AddUboFaithfulTo(
      f: Files, b: Business, l: Lists, directors: seq<DirectorRow>, earlier: seq<UboRow>, u: UboRow, ubos: seq<UboRow>)
    requires DistinctDirectors(directors) && Faithful(l, directors, earlier) && AddUbo(f, b, l, u).Ok?
    requires ubos == earlier + [u]
    ensures Faithful(AddUbo(f, b, l, u).value, directors, ubos)
  {
    AddUboFaithful(f, b, l, directors, earlier, u);
  }

  lemma {:induction false} AddUbosFaithful(
      f: Files, b: Business, l: Lists, directors: seq<DirectorRow>, ubos: seq<UboRow>)
    requires DistinctDirectors(directors) && Faithful(l, directors, []) && AddUbos(f, b, l, ubos).Ok?
    ensures Faithful(AddUbos(f, b, l, ubos).value, directors, ubos)
  {
    if ubos == [] {
      assert AddUbos(f, b, l, ubos) == Ok(l);
    } else {
      var earlier, u := ubos[..|ubos| - 1], ubos[|ubos| - 1];
      LastUbo(f, b, l, ubos);
      AddUbosFaithful(f, b, l, directors, earlier);
      AddUboFaithfulTo(f, b, AddUbos(f, b, l, earlier).value, directors, earlier, u, ubos);
    }
  }

  /**
   * The list has one entry per director, in order, then one per owner not linked to a listed director, each with the
   * Bridge id of its row; a director has ownership exactly when some owner is linked to it.
   */
  lemma BuildFaithful(f: Files, b: Business, directors: seq<DirectorRow>, ubos: seq<UboRow>)
    requires DistinctDirectors(directors) && Build(f, b, directors, ubos).Ok?
    ensures Faithful(Build(f, b, directors, ubos).value, directors, ubos)
  {
    DirectorEntriesFaithful(f, b, directors);
    AddUbosFaithful(f, b, Lists(DirectorEntries(f, b, directors).value, []), directors, ubos);
  }

  // ---- When building the list aborts for want of an identity document ----

  predicate DirectorInformed(d: DirectorRow) {
    (d.idType != "" && d.idNumber != "") || d.taxId != ""
  }

  predicate UboInformed(u: UboRow) {
    (u.idType != "" && u.idNumber != "") || u.taxId != ""
  }

  predicate DirectorUnidentified(f: Files, b: Business, d: DirectorRow) {
    Unidentified(f, b.user, Documents.Director, d.id, d.idType, d.idNumber)
  }

  predicate UboUnidentified(f: Files, b: Business, u: UboRow) {
    Unidentified(f, b.user, Documents.Ubo, u.id, u.idType, u.idNumber)
  }

  predicate LinkedTo(u: UboRow, d: DirectorRow) {
    IsLinked(u) && u.directorId.value == d.id
  }

  /** Neither the director nor one of these owners linked to it brings identifying information. */
  predicate Uninformed(d: DirectorRow, ubos: seq<UboRow>) {
    !DirectorInformed(d) && forall u | u in ubos :: LinkedTo(u, d) ==> !UboInformed(u)
  }

  /** An owner's own document is needed when the owner stands alone, or when nothing is known of its director yet. */
  predicate UboAborts(f: Files, b: Business, directors: seq<DirectorRow>, ubos: seq<UboRow>, i: nat)
    requires i < |ubos|
  {
    && UboUnidentified(f, b, ubos[i])
    && (Stands(directors, ubos[i]) || exists d | d in directors :: LinkedTo(ubos[i], d) && Uninformed(d, ubos[..i]))
  }

  predicate Aborts(f: Files, b: Business, directors: seq<DirectorRow>, ubos: seq<UboRow>) {
    || (exists d | d in directors :: DirectorUnidentified(f, b, d))
    || (exists i | 0 <= i < |ubos| :: UboAborts(f, b, directors, ubos, i))
  }

  /** Everyone has an address, and whoever needs a title has one. */
  predicate Presentable(b: Business, directors: seq<DirectorRow>, ubos: seq<UboRow>) {
    && (forall d | d in directors :: d.hasAddress || b.hasAddress)
    && (forall u | u in ubos && Stands(directors, u) ::
          (u.hasAddress || b.hasAddress) && (u.hasControl ==> u.position != ""))
    && (forall u, d | u in ubos && d in directors && LinkedTo(u, d) :: u.position != "" || d.position != "")
  }

  /** What is known of a director after some of the owners were added. */
  ghost predicate Informs(l: Lists, directors: seq<DirectorRow>, ubos: seq<UboRow>) {
    && Faithful(l, directors, ubos)
    && (forall i | 0 <= i < |directors| :: !l.directors[i].identified <==> Uninformed(directors[i], ubos))
    && (forall i | 0 <= i < |directors| :: l.directors[i].title == "" ==> directors[i].position == "")
  }

  lemma DirectorEntryFacts(f: Files, b: Business, d: DirectorRow)
    ensures
      var r := DirectorEntry(f, b, d);
      && (r == Err(NoIdentityDocument) ==> DirectorUnidentified(f, b, d))
      && (r.Ok? ==> !DirectorUnidentified(f, b, d) && (r.value.identified <==> DirectorInformed(d))
                    && r.value.title == d.position)
      && ((d.hasAddress || b.hasAddress) && r.Err? ==> r.error == NoIdentityDocument)
  {
  }

  lemma LastDirector(f: Files, b: Business, directors: seq<DirectorRow>)
    requires directors != []
    ensures
      var before, last := DirectorEntries(f, b, directors[..|directors| - 1]), DirectorEntry(f, b, directors[|directors| - 1]);
      DirectorEntries(f, b, directors)
      == if before.Err? then before else if last.Err? then Err(last.error) else Ok(before.value + [last.value])
  {
  }

  /** The first director that cannot be listed decides the error. */
  lemma {:induction false} DirectorErrors(f: Files, b: Business, directors: seq<DirectorRow>)
    ensures DirectorEntries(f, b, directors) == Err(NoIdentityDocument) ==>
              exists d | d in directors :: DirectorUnidentified(f, b, d)
    ensures (forall d | d in directors :: d.hasAddress || b.hasAddress) && DirectorEntries(f, b, directors).Err? ==>
              DirectorEntries(f, b, directors).error == NoIdentityDocument
  {
    if directors != [] {
      var earlier, last := directors[..|directors| - 1], directors[|directors| - 1];
      DirectorErrors(f, b, earlier);
      LastDirector(f, b, directors);
      DirectorEntryFacts(f, b, last);
      assert last in directors && forall d | d in earlier :: d in directors;
    }
  }

  lemma {:induction false} DirectorFacts(f: Files, b: Business, directors: seq<DirectorRow>)
    requires DirectorEntries(f, b, directors).Ok?
    ensures |DirectorEntries(f, b, directors).value| == |directors|
    ensures forall i | 0 <= i < |directors| ::
              var entry := DirectorEntries(f, b, directors).value[i];
              && !DirectorUnidentified(f, b, directors[i])
              && (entry.identified <==> DirectorInformed(directors[i])) && entry.title == directors[i].position
  {
    if directors != [] {
      LastDirector(f, b, directors);
      DirectorFacts(f, b, directors[..|directors| - 1]);
      DirectorEntryFacts(f, b, directors[|directors| - 1]);
    }
  }

  lemma {:induction false} DirectorEntriesInform(f: Files, b: Business, directors: seq<DirectorRow>)
    requires DirectorEntries(f, b, directors).Ok?
    ensures forall d | d in directors :: !DirectorUnidentified(f, b, d)
    ensures Informs(Lists(DirectorEntries(f, b, directors).value, []), directors, [])
  {
    DirectorFacts(f, b, directors);
    DirectorEntriesFaithful(f, b, directors);
  }

  lemma AddUboInforms(f: Files, b: Business, l: Lists, directors: seq<DirectorRow>, ubos: seq<UboRow>, u: UboRow)
    requires DistinctDirectors(directors) && Informs(l, directors, ubos) && AddUbo(f, b, l, u).Ok?
    ensures Informs(AddUbo(f, b, l, u).value, directors, ubos + [u])
  {
    LinkOfIs(l, directors, ubos, u);
    AddUboFaithful(f, b, l, directors, ubos, u);
    var l' := AddUbo(f, b, l, u).value;
    forall i | 0 <= i < |directors|
      ensures !l'.directors[i].identified <==> Uninformed(directors[i], ubos + [u])
      ensures l'.directors[i].title == "" ==> directors[i].position == ""
    {
      assert !l.directors[i].identified <==> Uninformed(directors[i], ubos);
      assert forall v :: v in ubos + [u] <==> v in ubos || v == u;
      assert directors[i] in directors;
      assert LinkedTo(u, directors[i]) <==> LinkOf(l.directors, u) == Some(i);
    }
  }

  /** Adding an owner fails for want of a document exactly when the owner's own is needed and missing. */
  lemma AddUboFailsIff(f: Files, b: Business, l: Lists, directors: seq<DirectorRow>, ubos: seq<UboRow>, u: UboRow)
    requires DistinctDirectors(directors) && Informs(l, directors, ubos)
    ensures
      var aborts := UboUnidentified(f, b, u)
                    && (Stands(directors, u) || exists d | d in directors :: LinkedTo(u, d) && Uninformed(d, ubos));
      && (AddUbo(f, b, l, u) == Err(NoIdentityDocument) ==> aborts)
      && (Presentable(b, directors, ubos + [u]) ==>
            && (AddUbo(f, b, l, u).Err? <==> aborts)
            && (AddUbo(f, b, l, u).Err? ==> AddUbo(f, b, l, u).error == NoIdentityDocument))
  {
    LinkOfIs(l, directors, ubos, u);
    if !Stands(directors, u) {
      var k := LinkOf(l.directors, u).value;
      assert directors[k] in directors && LinkedTo(u, directors[k]);
      assert u in ubos + [u];
      forall d | d in directors && LinkedTo(u, d)
        ensures d == directors[k]
      {
      }
    } else {
      assert u in ubos + [u];
      forall d | d in directors
        ensures !LinkedTo(u, d)
      {
      }
    }
  }

  lemma PresentableParts(b: Business, directors: seq<DirectorRow>, ubos: seq<UboRow>, u: UboRow)
    requires Presentable(b, directors, ubos + [u])
    ensures Presentable(b, directors, ubos)
  {
  }

  lemma AbortsSnoc(f: Files, b: Business, directors: seq<DirectorRow>, ubos: seq<UboRow>)
    requires ubos != []
    ensures
      var init := ubos[..|ubos| - 1];
      (exists i | 0 <= i < |ubos| :: UboAborts(f, b, directors, ubos, i))
      <==> (exists i | 0 <= i < |init| :: UboAborts(f, b, directors, init, i)) || UboAborts(f, b, directors, ubos, |init|)
  {
    var n := |ubos| - 1;
    forall i | 0 <= i < n
      ensures UboAborts(f, b, directors, ubos, i) <==> UboAborts(f, b, directors, ubos[..n], i)
    {
      assert ubos[..n][..i] == ubos[..i];
    }
  }

  lemma {:induction false} AddUbosFailIff(f: Files, b: Business, l: Lists, directors: seq<DirectorRow>, ubos: seq<UboRow>)
    requires DistinctDirectors(directors) && Informs(l, directors, [])
    ensures
      var aborts := exists i | 0 <= i < |ubos| :: UboAborts(f, b, directors, ubos, i);
      && (AddUbos(f, b, l, ubos).Ok? ==> Informs(AddUbos(f, b, l, ubos).value, directors, ubos))
      && (AddUbos(f, b, l, ubos) == Err(NoIdentityDocument) ==> aborts)
      && (Presentable(b, directors, ubos) ==>
            && (AddUbos(f, b, l, ubos).Err? <==> aborts)
            && (AddUbos(f, b, l, ubos).Err? ==> AddUbos(f, b, l, ubos).error == NoIdentityDocument))
  {
    if ubos != [] {
      var n := |ubos| - 1;
      AddUbosFailIff(f, b, l, directors, ubos[..n]);
      AbortsSnoc(f, b, directors, ubos);
      assert ubos[..n] + [ubos[n]] == ubos;
      if Presentable(b, directors, ubos) {
        PresentableParts(b, directors, ubos[..n], ubos[n]);
      }
      if AddUbos(f, b, l, ubos[..n]).Ok? {
        var mid := AddUbos(f, b, l, ubos[..n]).value;
        AddUboFailsIff(f, b, mid, directors, ubos[..n], ubos[n]);
        if AddUbo(f, b, mid, ubos[n]).Ok? {
          AddUboInforms(f, b, mid, directors, ubos[..n], ubos[n]);
        }
      }
    }
  }

  /** Exactly who makes building the list abort for want of an identity document. */
  lemma BuildAbortsIff(f: Files, b: Business, directors: seq<DirectorRow>, ubos: seq<UboRow>)
    requires DistinctDirectors(directors)
    ensures Build(f, b, directors, ubos) == Err(NoIdentityDocument) ==> Aborts(f, b, directors, ubos)
    ensures Presentable(b, directors, ubos) ==>
              (Build(f, b, directors, ubos) == Err(NoIdentityDocument) <==> Aborts(f, b, directors, ubos))
    ensures Presentable(b, directors, ubos) && !Aborts(f, b, directors, ubos) ==> Build(f, b, directors, ubos).Ok?
  {
    DirectorErrors(f, b, directors);
    if DirectorEntries(f, b, directors).Ok? {
      DirectorEntriesInform(f, b, directors);
      AddUbosFailIff(f, b, Lists(DirectorEntries(f, b, directors).value, []), directors, ubos);
    }
  }

  // ---- What an entry says, and exactly when everyone can be listed ----

  /** The director's own position, otherwise that of the first linked owner who has one. */
  function PositionFor(d: DirectorRow, ubos: seq<UboRow>): string {
    if ubos == [] then d.position
    else
      var before, u := PositionFor(d, ubos[..|ubos| - 1]), ubos[|ubos| - 1];
      if before == "" && LinkedTo(u, d) then u.position else before
  }

  /** The director's own address, then that of the business, then that of the first linked owner who has one. */
  function EmailFor(b: Business, d: DirectorRow, ubos: seq<UboRow>): string {
    if ubos == [] then (if d.email == "" then b.fallbackEmail else d.email)
    else
      var before, u := EmailFor(b, d, ubos[..|ubos| - 1]), ubos[|ubos| - 1];
      if before == "" && LinkedTo(u, d) then u.email else before
  }

  predicate Describes(entry: Entry, b: Business, d: DirectorRow, ubos: seq<UboRow>) {
    && entry.firstName == d.firstName && entry.lastName == d.lastName && entry.hasControl
    && entry.email == EmailFor(b, d, ubos) && entry.title == PositionFor(d, ubos)
    && (!entry.identified <==> Uninformed(d, ubos))
  }

  /** Only who controls the business has a title. */
  predicate DescribesOwner(entry: Entry, u: UboRow) {
    && entry.firstName == u.firstName && entry.lastName == u.lastName && entry.email == u.email
    && entry.hasControl == u.hasControl && entry.title == (if u.hasControl then u.position else "")
    && (entry.identified <==> UboInformed(u))
  }

  ghost predicate Detailed(l: Lists, b: Business, directors: seq<DirectorRow>, ubos: seq<UboRow>) {
    && Faithful(l, directors, ubos)
    && (forall i | 0 <= i < |directors| :: Describes(l.directors[i], b, directors[i], ubos))
    && (forall i | 0 <= i < |l.independent| :: DescribesOwner(l.independent[i], Standing(directors, ubos)[i]))
  }

  predicate CanList(f: Files, b: Business, d: DirectorRow) {
    (d.hasAddress || b.hasAddress) && !DirectorUnidentified(f, b, d)
  }

  /**
   * An owner on its own needs an address, a title when in control, and its document; a linked one completes a director
   * who must have a title by then, and its document matters only while nothing else identifies the director.
   */
  predicate CanAdd(f: Files, b: Business, directors: seq<DirectorRow>, earlier: seq<UboRow>, u: UboRow) {
    if Stands(directors, u) then
      (u.hasAddress || b.hasAddress) && (u.hasControl ==> u.position != "") && !UboUnidentified(f, b, u)
    else
      forall d | d in directors && LinkedTo(u, d) ::
        && (PositionFor(d, earlier) != "" || u.position != "")
        && (UboUnidentified(f, b, u) ==> !Uninformed(d, earlier))
  }

  lemma DirectorEntryIs(f: Files, b: Business, d: DirectorRow)
    ensures
      var r := DirectorEntry(f, b, d);
      && (r.Ok? <==> CanList(f, b, d))
      && (r.Ok? ==> Describes(r.value, b, d, []) && Represents(r.value, d, []))
  {
  }

  lemma {:induction false} DirectorsDetailed(f: Files, b: Business, directors: seq<DirectorRow>)
    ensures DirectorEntries(f, b, directors).Ok? <==> forall d | d in directors :: CanList(f, b, d)
    ensures DirectorEntries(f, b, directors).Ok? ==> |DirectorEntries(f, b, directors).value| == |directors|
    ensures DirectorEntries(f, b, directors).Ok? ==>
              forall i | 0 <= i < |directors| :: Describes(DirectorEntries(f, b, directors).value[i], b, directors[i], [])
  {
    if directors != [] {
      var earlier, last := directors[..|directors| - 1], directors[|directors| - 1];
      DirectorsDetailed(f, b, earlier);
      LastDirector(f, b, directors);
      DirectorEntryIs(f, b, last);
      assert directors == earlier + [last];
      assert forall d :: d in directors <==> d in earlier || d == last;
    }
  }

  lemma FusedIs(f: Files, b: Business, entry: Entry, d: DirectorRow, earlier: seq<UboRow>, u: UboRow)
    requires Describes(entry, b, d, earlier) && LinkedTo(u, d)
    ensures
      var r := Fused(f, b, entry, u);
      && (r.Ok? <==>
            (PositionFor(d, earlier) != "" || u.position != "") && (UboUnidentified(f, b, u) ==> !Uninformed(d, earlier)))
      && (r.Ok? ==> Describes(r.value, b, d, earlier + [u]))
  {
    assert (earlier + [u])[..|earlier|] == earlier;
    assert forall v :: v in earlier + [u] <==> v in earlier || v == u;
  }

  lemma IndependentIs(f: Files, b: Business, u: UboRow)
    ensures
      var r := IndependentEntry(f, b, u);
      && (r.Ok? <==> (u.hasAddress || b.hasAddress) && (u.hasControl ==> u.position != "") && !UboUnidentified(f, b, u))
      && (r.Ok? ==> DescribesOwner(r.value, u))
  {
  }

  lemma NotLinkedDescribes(entry: Entry, b: Business, d: DirectorRow, earlier: seq<UboRow>, u: UboRow)
    requires Describes(entry, b, d, earlier) && !LinkedTo(u, d)
    ensures Describes(entry, b, d, earlier + [u])
  {
    assert (earlier + [u])[..|earlier|] == earlier;
    assert forall v :: v in earlier + [u] <==> v in earlier || v == u;
  }

  lemma StandingSnoc(directors: seq<DirectorRow>, ubos: seq<UboRow>, u: UboRow)
    ensures
      Standing(directors, ubos + [u]) == Standing(directors, ubos) + if Stands(directors, u) then [u] else []
  {
    assert (ubos + [u])[..|ubos|] == ubos;
  }

  /** One more owner. */
  lemma {:induction false} AddUboIs(
      f: Files, b: Business, l: Lists, directors: seq<DirectorRow>, earlier: seq<UboRow>, u: UboRow)
    requires DistinctDirectors(directors) && Detailed(l, b, directors, earlier)
    ensures AddUbo(f, b, l, u).Ok? <==> CanAdd(f, b, directors, earlier, u)
    ensures AddUbo(f, b, l, u).Ok? ==> Detailed(AddUbo(f, b, l, u).value, b, directors, earlier + [u])
  {
    LinkOfIs(l, directors, earlier, u);
    StandingSnoc(directors, earlier, u);
    if Stands(directors, u) {
      IndependentIs(f, b, u);
    } else {
      OneLink(l, directors, earlier, u);
      var k := LinkOf(l.directors, u).value;
      FusedIs(f, b, l.directors[k], directors[k], earlier, u);
    }
    if AddUbo(f, b, l, u).Ok? {
      AddUboFaithful(f, b, l, directors, earlier, u);
      var l' := AddUbo(f, b, l, u).value;
      forall i | 0 <= i < |directors|
        ensures Describes(l'.directors[i], b, directors[i], earlier + [u])
      {
        assert directors[i] in directors;
        if !LinkedTo(u, directors[i]) {
          NotLinkedDescribes(l.directors[i], b, directors[i], earlier, u);
        }
      }
    }
  }

  /** The director an owner completes is the only one it is linked to. */
  lemma OneLink(l: Lists, directors: seq<DirectorRow>, ubos: seq<UboRow>, u: UboRow)
    requires DistinctDirectors(directors) && Faithful(l, directors, ubos) && !Stands(directors, u)
    ensures LinkOf(l.directors, u).Some? && LinkOf(l.directors, u).value < |directors|
    ensures forall i | 0 <= i < |directors| :: LinkedTo(u, directors[i]) <==> i == LinkOf(l.directors, u).value
  {
    LinkOfIs(l, directors, ubos, u);
  }

  /** Every owner can be added after the ones before. */
  predicate CanAddAll(f: Files, b: Business, directors: seq<DirectorRow>, ubos: seq<UboRow>) {
    forall i | 0 <= i < |ubos| :: CanAdd(f, b, directors, ubos[..i], ubos[i])
  }

  lemma CanAddAllSnoc(f: Files, b: Business, directors: seq<DirectorRow>, earlier: seq<UboRow>, u: UboRow)
    ensures
      CanAddAll(f, b, directors, earlier + [u]) <==>
      CanAddAll(f, b, directors, earlier) && CanAdd(f, b, directors, earlier, u)
  {
    var ubos := earlier + [u];
    assert ubos[..|earlier|] == earlier && ubos[|earlier|] == u;
    forall i | 0 <= i < |earlier|
      ensures ubos[..i] == earlier[..i] && ubos[i] == earlier[i]
    {
    }
  }

  lemma {:induction false} AddUbosIs(f: Files, b: Business, l: Lists, directors: seq<DirectorRow>, ubos: seq<UboRow>)
    requires DistinctDirectors(directors) && Detailed(l, b, directors, [])
    ensures AddUbos(f, b, l, ubos).Ok? <==> CanAddAll(f, b, directors, ubos)
    ensures AddUbos(f, b, l, ubos).Ok? ==> Detailed(AddUbos(f, b, l, ubos).value, b, directors, ubos)
  {
    if ubos != [] {
      var earlier, u := ubos[..|ubos| - 1], ubos[|ubos| - 1];
      AddUbosIs(f, b, l, directors, earlier);
      assert ubos == earlier + [u];
      CanAddAllSnoc(f, b, directors, earlier, u);
      var mid := AddUbos(f, b, l, earlier);
      if mid.Ok? {
        AddUboIs(f, b, mid.value, directors, earlier, u);
      }
    } else {
      assert AddUbos(f, b, l, ubos) == Ok(l);
    }
  }

  /**
   * The list can be built exactly when every director can be listed and every owner added after the ones before; then
   * the entries carry the names, addresses, titles and marks of the people they stand for.
   */
  lemma {:induction false} BuildOkIff(f: Files, b: Business, directors: seq<DirectorRow>, ubos: seq<UboRow>)
    requires DistinctDirectors(directors)
    ensures
      Build(f, b, directors, ubos).Ok? <==>
      (forall d | d in directors :: CanList(f, b, d)) && CanAddAll(f, b, directors, ubos)
    ensures Build(f, b, directors, ubos).Ok? ==> Detailed(Build(f, b, directors, ubos).value, b, directors, ubos)
  {
    DirectorsDetailed(f, b, directors);
    var entries := DirectorEntries(f, b, directors);
    if entries.Ok? {
      DirectorEntriesFaithful(f, b, directors);
      AddUbosIs(f, b, Lists(entries.value, []), directors, ubos);
    }
  }

  /** The document types that show the front of an identity document. */
  function FrontTypes(idType: string): set<string> {
    if idType == "passport" then {"passport"}
    else if idType == "national_id" then {"national_id", "national_id_front"}
    else if idType == "drivers_license" then {"drivers_license", "drivers_license_front"}
    else {}
  }

  lemma BackIsContained(s: string, i: nat)
    requires i <= |s| && StandsAt(s, "back", i)
    ensures Contains(s, "back")
  {
  }

  lemma StartsWith(docType: string)
    requires docType in IDENTITY_DOC_TYPES
    ensures "national_id" <= docType <==> docType in {"national_id", "national_id_front", "national_id_back"}
    ensures "drivers_license" <= docType <==>
            docType in {"drivers_license", "drivers_license_front", "drivers_license_back"}
  {
    if "national_id" <= docType {
      assert docType[0] == 'n';
    }
    if "drivers_license" <= docType {
      assert docType[0] == 'd';
    }
  }

  lemma ShowsFrontIff(docType: string, idType: string)
    ensures MatchesIdType(docType, idType) && !Contains(docType, "back") <==> docType in FrontTypes(idType)
  {
    if docType in IDENTITY_DOC_TYPES {
      StartsWith(docType);
      if docType == "national_id_back" {
        BackIsContained(docType, 12);
      } else if docType == "drivers_license_back" {
        BackIsContained(docType, 16);
      } else {
        assert 'b' !in docType;
        NoBackWithoutB(docType);
      }
    }
  }

  /** The newest pending document of its type for this person. */
  predicate NewestPending(s: Documents.State, id: nat, user: string, subject: Documents.SubjectType, person: string)
    requires id in s.docs
  {
    && s.docs[id].status == Documents.Pending && s.docs[id].user == user && s.docs[id].subjectType == subject
    && s.docs[id].subjectId == Some(person)
    && forall k | k in s.docs && s.docs[k] == s.docs[id].(path := s.docs[k].path, isDraft := s.docs[k].isDraft,
                                                          draftKey := s.docs[k].draftKey) :: k <= id
  }

  /** Identifying data is refused exactly for a declared document whose newest front cannot be downloaded. */
  lemma UnidentifiedIff(
      f: Files, user: string, subject: Documents.SubjectType, person: string, idType: string, idNumber: string)
    ensures
      Unidentified(f, user, subject, person, idType, idNumber) <==>
      && idType != "" && idNumber != ""
      && forall id | id in f.stored.docs && f.stored.docs[id].docType in FrontTypes(idType) && id in f.readable ::
           !NewestPending(f.stored, id, user, subject, person)
  {
    forall id | id in f.stored.docs
      ensures IsNewest(f.stored, id, user, subject, person) <==> NewestPending(f.stored, id, user, subject, person)
      ensures MatchesIdType(f.stored.docs[id].docType, idType) && !Contains(f.stored.docs[id].docType, "back")
              <==> f.stored.docs[id].docType in FrontTypes(idType)
    {
      ShowsFrontIff(f.stored.docs[id].docType, idType);
    }
  }

  // ---- The gate is strong enough ----

  predicate Recognised(idType: string) {
    idType == "passport" || idType == "national_id" || idType == "drivers_license"
  }

  /** The required document type that shows the front. */
  function FrontType(idType: string): string
    requires Recognised(idType)
  {
    if idType == "passport" then "passport"
    else if idType == "national_id" then "national_id_front"
    else "drivers_license_front"
  }

  lemma NoBackWithoutB(s: string)
    requires 'b' !in s
    ensures !Contains(s, "back")
  {
    forall i: nat | i <= |s|
      ensures !StandsAt(s, "back", i)
    {
      if i < |s| {
        assert s[i..][0] == s[i];
        assert "back"[0] == 'b';
      }
    }
  }

  lemma FrontTypeShowsFront(idType: string)
    requires Recognised(idType)
    ensures FrontType(idType) in GetRequiredIdentityDocTypes(idType)
    ensures MatchesIdType(FrontType(idType), idType) && !Contains(FrontType(idType), "back")
  {
    assert 'b' !in "passport" && 'b' !in "national_id_front" && 'b' !in "drivers_license_front";
    NoBackWithoutB(FrontType(idType));
  }

  lemma {:induction false} Greatest(ids: set<nat>) returns (m: nat)
    requires ids != {}
    ensures m in ids && forall k | k in ids :: k <= m
    decreases |ids|
  {
    var x :| x in ids;
    if ids == {x} {
      m := x;
    } else {
      assert ids - {x} != {};
      var y := Greatest(ids - {x});
      assert forall k | k in ids :: k == x || k in ids - {x};
      m := if x <= y then y else x;
    }
  }

  lemma CompleteShowsFront(f: Files, user: string, subject: Documents.SubjectType, person: string, idType: string)
    requires Recognised(idType) && DocumentsComplete(f.stored, user, subject, person, idType)
    requires forall id | id in f.stored.docs :: id in f.readable
    ensures HasFrontImage(f, user, subject, person, idType)
  {
    FrontTypeShowsFront(idType);
    var t := FrontType(idType);
    assert HasDoc(f.stored, user, subject, person, t);
    var ids := set id | id in f.stored.docs && IsDocOf(f.stored, id, user, subject, person) && f.stored.docs[id].docType == t;
    var id0 :| id0 in f.stored.docs && IsDocOf(f.stored, id0, user, subject, person) && f.stored.docs[id0].docType == t;
    assert id0 in ids;
    var m := Greatest(ids);
    assert forall k | k in f.stored.docs && IsDocOf(f.stored, k, user, subject, person) && f.stored.docs[k].docType == t ::
      k in ids;
    assert IsNewest(f.stored, m, user, subject, person);
  }

  /**
   * When the gate passes, building the list does not abort for want of an identity document, provided downloads work,
   * identity types are known ones, directors have id numbers and links lead to directors.
   */
  lemma GateSuffices(f: Files, b: Business, directors: seq<DirectorRow>, ubos: seq<UboRow>)
    requires DistinctDirectors(directors) && GatePasses(f.stored, b.user, directors, ubos)
    requires forall id | id in f.stored.docs :: id in f.readable
    requires forall d | d in directors :: Recognised(d.idType) && d.idNumber != ""
    requires forall u | u in ubos && !IsLinked(u) :: u.idType == "" || Recognised(u.idType)
    requires forall u | u in ubos && IsLinked(u) :: IsDirector(directors, u.directorId.value)
    ensures Build(f, b, directors, ubos) != Err(NoIdentityDocument)
    ensures Presentable(b, directors, ubos) ==> Build(f, b, directors, ubos).Ok?
  {
    forall d | d in directors
      ensures !DirectorUnidentified(f, b, d)
    {
      CompleteShowsFront(f, b.user, Documents.Director, d.id, d.idType);
    }
    forall i | 0 <= i < |ubos|
      ensures !UboAborts(f, b, directors, ubos, i)
    {
      var u := ubos[i];
      assert u in ubos;
      if !IsLinked(u) && u.idType != "" {
        CompleteShowsFront(f, b.user, Documents.Ubo, u.id, u.idType);
      }
    }
    BuildAbortsIff(f, b, directors, ubos);
  }

  lemma UninformedSkips(d: DirectorRow, a: seq<UboRow>, u: UboRow, c: seq<UboRow>)
    requires !LinkedTo(u, d)
    ensures Uninformed(d, a + [u] + c) <==> Uninformed(d, a + c)
  {
    assert forall v :: v in a + [u] + c <==> v in a + c || v == u;
  }

  /** An owner no listed director is linked to does not decide about the others. */
  lemma UboAbortsSkips(
      f: Files, b: Business, directors: seq<DirectorRow>, a: seq<UboRow>, u: UboRow, c: seq<UboRow>, i: nat)
    requires i < |a + c| && forall d | d in directors :: !LinkedTo(u, d)
    ensures UboAborts(f, b, directors, a + [u] + c, if i < |a| then i else i + 1) <==> UboAborts(f, b, directors, a + c, i)
  {
    var all, rest := a + [u] + c, a + c;
    if i < |a| {
      assert all[..i] == rest[..i] && all[i] == rest[i];
    } else {
      var k := i - |a|;
      assert all[i + 1] == rest[i] && all[..i + 1] == a + [u] + c[..k] && rest[..i] == a + c[..k];
      forall d | d in directors
        ensures Uninformed(d, all[..i + 1]) <==> Uninformed(d, rest[..i])
      {
        UninformedSkips(d, a, u, c[..k]);
      }
    }
  }

  lemma ForeignAlone(f: Files, b: Business, directors: seq<DirectorRow>, a: seq<UboRow>, u: UboRow, c: seq<UboRow>)
    requires IsLinked(u) && !IsDirector(directors, u.directorId.value)
    ensures forall d | d in directors :: !LinkedTo(u, d)
    ensures UboAborts(f, b, directors, a + [u] + c, |a|) <==> UboUnidentified(f, b, u)
  {
    assert (a + [u] + c)[|a|] == u && Stands(directors, u);
  }

  lemma AbortsAround(f: Files, b: Business, directors: seq<DirectorRow>, a: seq<UboRow>, u: UboRow, c: seq<UboRow>)
    requires IsLinked(u) && !IsDirector(directors, u.directorId.value)
    ensures Aborts(f, b, directors, a + [u] + c) <==> Aborts(f, b, directors, a + c) || UboUnidentified(f, b, u)
  {
    ForeignAlone(f, b, directors, a, u, c);
    var all, rest := a + [u] + c, a + c;
    forall i | 0 <= i < |rest|
      ensures UboAborts(f, b, directors, all, if i < |a| then i else i + 1) <==> UboAborts(f, b, directors, rest, i)
    {
      UboAbortsSkips(f, b, directors, a, u, c, i);
    }
    if i: nat :| i < |all| && UboAborts(f, b, directors, all, i) && !UboUnidentified(f, b, u) {
      var k := if i < |a| then i else i - 1;
      assert UboAborts(f, b, directors, all, if k < |a| then k else k + 1) <==> UboAborts(f, b, directors, rest, k);
    }
  }

  /**
   * An owner linked to the director of another business, wherever it stands, passes the gate unchecked, whatever
   * documents are missing; the list does not find that director, takes the owner alone, and aborts when the front
   * cannot be produced.
   */
  lemma ForeignLinkAborts(
      f: Files, b: Business, directors: seq<DirectorRow>, earlier: seq<UboRow>, u: UboRow, later: seq<UboRow>)
    requires DistinctDirectors(directors) && Presentable(b, directors, earlier + [u] + later)
    requires IsLinked(u) && !IsDirector(directors, u.directorId.value)
    ensures GatePasses(f.stored, b.user, directors, earlier + [u] + later)
            <==> GatePasses(f.stored, b.user, directors, earlier + later)
    ensures Build(f, b, directors, earlier + [u] + later) == Err(NoIdentityDocument)
            <==> Aborts(f, b, directors, earlier + later) || UboUnidentified(f, b, u)
  {
    assert forall v :: v in earlier + [u] + later <==> v in earlier + later || v == u;
    BuildAbortsIff(f, b, directors, earlier + [u] + later);
    AbortsAround(f, b, directors, earlier, u, later);
  }

  /** A director with a passport on file, and an owner without one whose link names somebody else's director. */
  lemma ForeignLinkExample(b: Business)
    requires b.hasAddress
    ensures
      var d := DirectorRow("d1", "Eva", "Sol", "", "CEO", "passport", "77", "", true, None);
      var u := UboRow("u1", "Ana", "Paz", "", "", "passport", "123", "", true, false, Some("d9"), None);
      var doc := Documents.Doc(b.user, Documents.Director, Some("d1"), None, "passport", 0, false, Documents.Pending);
      var f := Files(Documents.State(map[0 := doc], {0}, 1), {0});
      && GatePasses(f.stored, b.user, [d], [u]) && Build(f, b, [d], [u]) == Err(NoIdentityDocument)
  {
    var d := DirectorRow("d1", "Eva", "Sol", "", "CEO", "passport", "77", "", true, None);
    var u := UboRow("u1", "Ana", "Paz", "", "", "passport", "123", "", true, false, Some("d9"), None);
    var doc := Documents.Doc(b.user, Documents.Director, Some("d1"), None, "passport", 0, false, Documents.Pending);
    var f := Files(Documents.State(map[0 := doc], {0}, 1), {0});
    assert IsDocOf(f.stored, 0, b.user, Documents.Director, "d1");
    assert GetRequiredIdentityDocTypes("passport") == ["passport"];
    assert forall x | x in [d] :: x == d;
    assert forall x | x in [u] :: x == u;
    assert [] + [u] + [] == [u];
    ForeignLinkAborts(f, b, [d], [], u, []);
    assert HasDoc(f.stored, b.user, Documents.Director, "d1", "passport");
    assert UboUnidentified(f, b, u);
  }
}
