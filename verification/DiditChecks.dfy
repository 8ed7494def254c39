/**
 * One identity check: what is sent to the provider, the fingerprint of its inputs, when an earlier result stands in
 * for a new call, and how results add up to a verdict. Times are in milliseconds.
 */
module DiditChecks {
  import opened Wrappers
  import opened Text
  import opened Sequences

  datatype Kind =
    | IdVerification | FaceMatch | Aml | DatabaseValidation | Liveness | ProofOfAddress | CompanyAml | CompanyProofOfAddress

  const PERSON_KINDS := [IdVerification, FaceMatch, Aml, DatabaseValidation, Liveness]
  const APPLICANT_KINDS := PERSON_KINDS + [ProofOfAddress]
  const COMPANY_KINDS := [CompanyAml, CompanyProofOfAddress]

  datatype PersonData = PersonData(
    first: string, middle: string, last: string, birth: string, nationality: string, idNumber: string)

  datatype CompanyData = CompanyData(
    legalName: string, tradeName: string, taxId: string, registration: string, country: string,
    incorporationCountry: string, incorporationDate: string)

  /** Who is checked: the newest document of each type, by storage path, and the recorded data. */
  datatype Subject = Subject(docs: map<string, nat>, person: PersonData, company: CompanyData)

  /** The objects that can be downloaded; `image` tells the formats face match accepts. */
  datatype File = File(size: nat, image: bool)

  const MEGABYTE := 1024 * 1024

  // ---- What the provider is asked ----

  datatype Call = Skip | Ask(kind: Kind, files: seq<Option<nat>>, texts: seq<string>)

  const FRONT_PRIORITY := ["national_id_front", "passport", "drivers_license_front"]
  const FACE_PRIORITY := ["national_id_front", "drivers_license_front"]

  function PickFirst(docs: map<string, nat>, priority: seq<string>): Option<string> {
    if priority == [] then None
    else if priority[0] in docs then Some(priority[0])
    else PickFirst(docs, priority[1..])
  }

  function BackOf(front: string): Option<string> {
    if front == "national_id_front" then Some("national_id_back")
    else if front == "drivers_license_front" then Some("drivers_license_back")
    else None
  }

  function PathOf(docs: map<string, nat>, docType: string): Option<nat> {
    if docType in docs then Some(docs[docType]) else None
  }

  predicate Usable(files: map<nat, File>, path: Option<nat>, limit: nat) {
    path.Some? && path.value in files && files[path.value].size <= limit
  }

  function Joined(parts: seq<string>): string {
    if parts == [] then ""
    else if parts[0] == "" then Joined(parts[1..])
    else if Joined(parts[1..]) == "" then parts[0]
    else parts[0] + " " + Joined(parts[1..])
  }

  function NameParts(p: PersonData): seq<string> {
    [p.first, p.middle, p.last]
  }

  function FullName(p: PersonData): string {
    Trim(Joined(NameParts(p)))
  }

  function CompanyName(c: CompanyData): string {
    Trim(OrElse(c.legalName, c.tradeName))
  }

  function CallFor(kind: Kind, s: Subject, files: map<nat, File>): Call {
    var p, c := s.person, s.company;
    match kind
    case IdVerification =>
      var front := PickFirst(s.docs, FRONT_PRIORITY);
      if front.None? || !Usable(files, PathOf(s.docs, front.value), 10 * MEGABYTE) then Skip
      else
        var back := if BackOf(front.value).Some? then PathOf(s.docs, BackOf(front.value).value) else None;
        Ask(kind, [PathOf(s.docs, front.value), if Usable(files, back, 10 * MEGABYTE) then back else None], [])
    case FaceMatch =>
      var selfie := PathOf(s.docs, "selfie");
      var front := PickFirst(s.docs, FACE_PRIORITY);
      if selfie.None? || front.None? then Skip
      else
        var reference := PathOf(s.docs, front.value);
        if !Usable(files, selfie, 5 * MEGABYTE) || !Usable(files, reference, 5 * MEGABYTE)
           || !files[reference.value].image then Skip
        else Ask(kind, [selfie, reference], [])
    case Aml =>
      var fullName := FullName(p);
      if |fullName| < 2 then Skip else Ask(kind, [], [fullName, p.birth, Upper(Trim(p.nationality)), p.idNumber])
    case DatabaseValidation =>
      if Upper(Trim(p.nationality)) != "BOL" || p.idNumber == "" || p.birth == "" then Skip
      else Ask(kind, [], ["BOL", p.idNumber, p.birth, p.first, p.last])
    case Liveness =>
      var selfie := PathOf(s.docs, "selfie");
      if !Usable(files, selfie, 5 * MEGABYTE) then Skip else Ask(kind, [selfie], [])
    case ProofOfAddress =>
      var document := PathOf(s.docs, "proof_of_address");
      if !Usable(files, document, 15 * MEGABYTE) then Skip else Ask(kind, [document], [p.first, p.last])
    case CompanyAml =>
      var name := CompanyName(c);
      if |name| < 2 then Skip
      else
        Ask(kind, [], [name, c.incorporationDate, Upper(Trim(OrElse(c.country, c.incorporationCountry))),
                       Trim(OrElse(c.taxId, c.registration))])
    case CompanyProofOfAddress =>
      var document := PathOf(s.docs, "proof_of_address");
      if !Usable(files, document, 15 * MEGABYTE) then Skip else Ask(kind, [document], [])
  }

  // ---- What each check sends, and when it is skipped ----

  /** The document is stored, and its object can be downloaded and is not too large. */
  predicate Fits(s: Subject, files: map<nat, File>, docType: string, limit: nat) {
    docType in s.docs && s.docs[docType] in files && files[s.docs[docType]].size <= limit
  }

  function OnlyIf(fits: bool, s: Subject, docType: string): Option<nat> {
    if fits && docType in s.docs then Some(s.docs[docType]) else None
  }

  /** A front of at most ten megabytes is sent with the back of the same card; a passport goes alone. */
  predicate SendsCard(s: Subject, files: map<nat, File>, front: string, back: string, call: Call)
    requires front in s.docs
  {
    if Fits(s, files, front, 10_485_760)
    then call == Ask(IdVerification, [Some(s.docs[front]), OnlyIf(Fits(s, files, back, 10_485_760), s, back)], [])
    else call == Skip
  }

  /** A national id is preferred to a passport, a passport to a driving licence. */
  lemma IdVerificationSends(s: Subject, files: map<nat, File>)
    ensures
      var call, d := CallFor(IdVerification, s, files), s.docs;
      && ("national_id_front" in d ==> SendsCard(s, files, "national_id_front", "national_id_back", call))
      && ("national_id_front" !in d && "passport" in d ==>
            call == if Fits(s, files, "passport", 10_485_760)
                    then Ask(IdVerification, [Some(d["passport"]), None], []) else Skip)
      && ("national_id_front" !in d && "passport" !in d && "drivers_license_front" in d ==>
            SendsCard(s, files, "drivers_license_front", "drivers_license_back", call))
      && ("national_id_front" !in d && "passport" !in d && "drivers_license_front" !in d ==> call == Skip)
  {
    PickFirstOfTwo(s.docs, "passport", "drivers_license_front");
    assert FRONT_PRIORITY[1..] == ["passport", "drivers_license_front"];
  }

  lemma PickFirstOfTwo(docs: map<string, nat>, a: string, b: string)
    ensures PickFirst(docs, [a, b]) == if a in docs then Some(a) else if b in docs then Some(b) else None
  {
    assert [a, b][1..] == [b] && [b][1..] == [];
    assert PickFirst(docs, [b]) == if b in docs then Some(b) else None;
  }

  /** The selfie is compared with the front of a card, the national id's first, when that is an image. */
  lemma FaceMatchSends(s: Subject, files: map<nat, File>)
    ensures
      var call, d := CallFor(FaceMatch, s, files), s.docs;
      var front := if "national_id_front" in d then "national_id_front" else "drivers_license_front";
      if Fits(s, files, "selfie", 5_242_880) && Fits(s, files, front, 5_242_880) && files[d[front]].image
      then call == Ask(FaceMatch, [Some(d["selfie"]), Some(d[front])], [])
      else call == Skip
  {
    PickFirstOfTwo(s.docs, "national_id_front", "drivers_license_front");
  }

  /** One document of at most five or fifteen megabytes. */
  lemma OneDocumentSends(s: Subject, files: map<nat, File>)
    ensures
      var d, p := s.docs, s.person;
      && CallFor(Liveness, s, files)
         == (if Fits(s, files, "selfie", 5_242_880) then Ask(Liveness, [Some(d["selfie"])], []) else Skip)
      && CallFor(ProofOfAddress, s, files)
         == (if Fits(s, files, "proof_of_address", 15_728_640)
             then Ask(ProofOfAddress, [Some(d["proof_of_address"])], [p.first, p.last]) else Skip)
      && CallFor(CompanyProofOfAddress, s, files)
         == (if Fits(s, files, "proof_of_address", 15_728_640)
             then Ask(CompanyProofOfAddress, [Some(d["proof_of_address"])], []) else Skip)
  {
  }

  /** The registry is asked about Bolivians with an id number and a birth date only. */
  lemma RegistrySends(s: Subject, files: map<nat, File>)
    ensures
      var call, p := CallFor(DatabaseValidation, s, files), s.person;
      && (call != Skip <==> p.idNumber != "" && p.birth != "" && Upper(Trim(p.nationality)) == "BOL")
      && (call != Skip ==> call == Ask(DatabaseValidation, [], ["BOL", p.idNumber, p.birth, p.first, p.last]))
  {
  }

  /** The names that are given, with a single blank between them. */
  function GivenNames(p: PersonData): string {
    if p.first == "" && p.middle == "" then p.last
    else if p.first == "" && p.last == "" then p.middle
    else if p.middle == "" && p.last == "" then p.first
    else if p.first == "" then p.middle + " " + p.last
    else if p.middle == "" then p.first + " " + p.last
    else if p.last == "" then p.first + " " + p.middle
    else p.first + " " + (p.middle + " " + p.last)
  }

  lemma GivenNamesJoined(p: PersonData)
    ensures Joined(NameParts(p)) == GivenNames(p)
  {
    assert NameParts(p)[1..] == [p.middle, p.last];
    JoinedOfTwo(p.middle, p.last);
  }

  /** A full name of two characters or more is screened. */
  lemma ScreeningSends(s: Subject, files: map<nat, File>)
    ensures
      var call, p := CallFor(Aml, s, files), s.person;
      var name := Trim(GivenNames(p));
      && (call == Skip <==> |name| < 2)
      && (call != Skip ==> call == Ask(Aml, [], [name, p.birth, Upper(Trim(p.nationality)), p.idNumber]))
  {
    GivenNamesJoined(s.person);
  }

  lemma JoinedOfTwo(a: string, b: string)
    ensures Joined([a, b]) == if a == "" then b else if b == "" then a else a + " " + b
  {
    assert [a, b][1..] == [b] && [b][1..] == [];
    assert Joined([b]) == b;
  }

  /** The legal name, tax number and country where given, otherwise the trade name, registration and incorporation. */
  lemma CompanyScreeningSends(s: Subject, files: map<nat, File>)
    ensures
      var call, c := CallFor(CompanyAml, s, files), s.company;
      var name := Trim(if c.legalName != "" then c.legalName else c.tradeName);
      && (call == Skip <==> |name| < 2)
      && (call != Skip ==>
            call == Ask(CompanyAml, [], [name, c.incorporationDate,
                                         Upper(Trim(if c.country != "" then c.country else c.incorporationCountry)),
                                         Trim(if c.taxId != "" then c.taxId else c.registration)]))
  {
  }

  // ---- Fingerprints ----

  /** The hash is taken to be injective. */
  datatype Fingerprint = Fingerprint(kind: Kind, docs: seq<Option<nat>>, texts: seq<string>)

  function PersonKey(p: PersonData): seq<string> {
    [Normalize(p.first), Normalize(p.middle), Normalize(p.last), Normalize(p.birth), Normalize(p.nationality),
     Normalize(p.idNumber)]
  }

  function FingerprintOf(kind: Kind, s: Subject): Fingerprint {
    var c := s.company;
    match kind
    case IdVerification =>
      Fingerprint(kind, [PathOf(s.docs, "national_id_front"), PathOf(s.docs, "passport"),
                         PathOf(s.docs, "drivers_license_front"), PathOf(s.docs, "national_id_back"),
                         PathOf(s.docs, "drivers_license_back")], PersonKey(s.person))
    case FaceMatch =>
      Fingerprint(kind, [PathOf(s.docs, "selfie"), PathOf(s.docs, "national_id_front"),
                         PathOf(s.docs, "drivers_license_front")], [])
    case Aml => Fingerprint(kind, [], PersonKey(s.person))
    case DatabaseValidation => Fingerprint(kind, [], PersonKey(s.person))
    case Liveness => Fingerprint(kind, [PathOf(s.docs, "selfie")], [])
    case ProofOfAddress =>
      Fingerprint(kind, [PathOf(s.docs, "proof_of_address")], [Normalize(s.person.first), Normalize(s.person.last)])
    case CompanyAml =>
      Fingerprint(kind, [], [Normalize(c.legalName), Normalize(c.tradeName), Normalize(c.taxId), Normalize(c.registration),
                             Normalize(c.country), Normalize(c.incorporationCountry), Normalize(c.incorporationDate)])
    case CompanyProofOfAddress => Fingerprint(kind, [PathOf(s.docs, "proof_of_address")], [])
  }

  predicate SameDoc(s: Subject, t: Subject, docType: string) {
    PathOf(s.docs, docType) == PathOf(t.docs, docType)
  }

  /** Both are the same text up to case and the blanks around. */
  predicate Agree(a: string, b: string) {
    Lower(Trim(a)) == Lower(Trim(b))
  }

  predicate SamePerson(p: PersonData, q: PersonData) {
    && Agree(p.first, q.first) && Agree(p.middle, q.middle) && Agree(p.last, q.last) && Agree(p.birth, q.birth)
    && Agree(p.nationality, q.nationality) && Agree(p.idNumber, q.idNumber)
  }

  predicate SameCompany(c: CompanyData, d: CompanyData) {
    && Agree(c.legalName, d.legalName) && Agree(c.tradeName, d.tradeName) && Agree(c.taxId, d.taxId)
    && Agree(c.registration, d.registration) && Agree(c.country, d.country)
    && Agree(c.incorporationCountry, d.incorporationCountry) && Agree(c.incorporationDate, d.incorporationDate)
  }

  predicate SameInputs(kind: Kind, s: Subject, t: Subject) {
    match kind
    case IdVerification =>
      && SamePerson(s.person, t.person)
      && SameDoc(s, t, "national_id_front") && SameDoc(s, t, "national_id_back") && SameDoc(s, t, "passport")
      && SameDoc(s, t, "drivers_license_front") && SameDoc(s, t, "drivers_license_back")
    case FaceMatch =>
        SameDoc(s, t, "selfie") && SameDoc(s, t, "national_id_front") && SameDoc(s, t, "drivers_license_front")
    case Aml => SamePerson(s.person, t.person)
    case DatabaseValidation => SamePerson(s.person, t.person)
    case Liveness => SameDoc(s, t, "selfie")
    case ProofOfAddress =>
      && SameDoc(s, t, "proof_of_address")
      && Agree(s.person.first, t.person.first) && Agree(s.person.last, t.person.last)
    case CompanyAml => SameCompany(s.company, t.company)
    case CompanyProofOfAddress => SameDoc(s, t, "proof_of_address")
  }

  /** Two subjects have one fingerprint exactly when the documents and texts this check depends on are the same. */
  lemma FingerprintsEqualIff(kind: Kind, s: Subject, t: Subject)
    ensures FingerprintOf(kind, s) == FingerprintOf(kind, t) <==> SameInputs(kind, s, t)
  {
    var f, g := FingerprintOf(kind, s), FingerprintOf(kind, t);
    SameFingerprintDocs(kind, s, t);
    SameThings(PersonKey(s.person), PersonKey(t.person));
    match kind
    case ProofOfAddress => SameThings(f.texts, g.texts);
    case CompanyAml => SameThings(f.texts, g.texts);
    case _ =>
  }

  lemma SameFingerprintDocs(kind: Kind, s: Subject, t: Subject)
    ensures
      FingerprintOf(kind, s).docs == FingerprintOf(kind, t).docs <==>
      match kind
      case IdVerification =>
        && SameDoc(s, t, "national_id_front") && SameDoc(s, t, "national_id_back") && SameDoc(s, t, "passport")
        && SameDoc(s, t, "drivers_license_front") && SameDoc(s, t, "drivers_license_back")
      case FaceMatch =>
        SameDoc(s, t, "selfie") && SameDoc(s, t, "national_id_front") && SameDoc(s, t, "drivers_license_front")
      case Liveness => SameDoc(s, t, "selfie")
      case ProofOfAddress => SameDoc(s, t, "proof_of_address")
      case CompanyProofOfAddress => SameDoc(s, t, "proof_of_address")
      case _ => true
  {
    var a, b := FingerprintOf(kind, s).docs, FingerprintOf(kind, t).docs;
    SameThings(a, b);
  }

  lemma SameThings<T>(a: seq<T>, b: seq<T>)
    requires |a| == |b| <= 7
    ensures a == b <==>
            && (|a| > 0 ==> a[0] == b[0]) && (|a| > 1 ==> a[1] == b[1]) && (|a| > 2 ==> a[2] == b[2])
            && (|a| > 3 ==> a[3] == b[3]) && (|a| > 4 ==> a[4] == b[4]) && (|a| > 5 ==> a[5] == b[5])
            && (|a| > 6 ==> a[6] == b[6])
  {
  }

  predicate IsTrimmed(s: string) {
    Trim(s) == s
  }

  /** Not blank unless empty. */
  predicate IsFilled(s: string) {
    Trim(s) == "" ==> s == ""
  }

  /** The fields in which blanks matter to a check are stored without them. */
  predicate Trimmed(kind: Kind, s: Subject) {
    var p, c := s.person, s.company;
    match kind
    case Aml => IsTrimmed(p.first) && IsTrimmed(p.middle) && IsTrimmed(p.last) && IsTrimmed(p.birth) && IsTrimmed(p.idNumber)
    case DatabaseValidation => IsTrimmed(p.idNumber) && IsTrimmed(p.birth) && IsTrimmed(p.first) && IsTrimmed(p.last)
    case ProofOfAddress => IsTrimmed(p.first) && IsTrimmed(p.last)
    case CompanyAml => IsFilled(c.legalName) && IsFilled(c.country) && IsFilled(c.taxId) && IsTrimmed(c.incorporationDate)
    case _ => true
  }

  function LowerAll(texts: seq<string>): seq<string> {
    seq(|texts|, i requires 0 <= i < |texts| => Lower(texts[i]))
  }

  /** The request up to upper and lower case. */
  function Canonical(c: Call): Call {
    match c
    case Skip => Skip
    case Ask(kind, files, texts) => Ask(kind, files, LowerAll(texts))
  }

  predicate Alike(a: string, b: string) {
    Lower(a) == Lower(b)
  }

  lemma AlikeLengths(a: string, b: string)
    requires Alike(a, b)
    ensures |a| == |b|
  {
    assert |Lower(a)| == |a| && |Lower(b)| == |b|;
  }

  lemma LowerConcat(a: string, b: string)
    ensures Lower(a + b) == Lower(a) + Lower(b)
  {
  }

  lemma AlikeUpper(a: string, b: string)
    requires Alike(a, b)
    ensures Upper(a) == Upper(b)
  {
    AlikeLengths(a, b);
    forall i | 0 <= i < |a|
      ensures UpperChar(a[i]) == UpperChar(b[i])
    {
      assert Lower(a)[i] == Lower(b)[i];
    }
  }

  lemma {:induction false} AlikeTrim(a: string, b: string)
    requires Alike(a, b)
    ensures Alike(Trim(a), Trim(b))
    decreases |a|
  {
    AlikeLengths(a, b);
    if a != "" {
      var n := |a| - 1;
      assert Lower(a)[0] == Lower(b)[0] && Lower(a)[n] == Lower(b)[n];
      if IsBlank(a[0]) {
        assert Lower(a[1..]) == Lower(a)[1..] && Lower(b[1..]) == Lower(b)[1..];
        AlikeTrim(a[1..], b[1..]);
      } else if IsBlank(a[n]) {
        assert Lower(a[..n]) == Lower(a)[..n] && Lower(b[..n]) == Lower(b)[..n];
        AlikeTrim(a[..n], b[..n]);
      }
    }
  }

  lemma {:induction false} AlikeJoined(a: seq<string>, b: seq<string>)
    requires |a| == |b| && forall i | 0 <= i < |a| :: Alike(a[i], b[i])
    ensures Alike(Joined(a), Joined(b))
  {
    if a != [] {
      AlikeJoined(a[1..], b[1..]);
      AlikeLengths(a[0], b[0]);
      AlikeLengths(Joined(a[1..]), Joined(b[1..]));
      LowerConcat(a[0] + " ", Joined(a[1..]));
      LowerConcat(b[0] + " ", Joined(b[1..]));
      LowerConcat(a[0], " ");
      LowerConcat(b[0], " ");
    }
  }

  lemma AlikeTexts(a: seq<string>, b: seq<string>)
    requires |a| == |b|
    ensures LowerAll(a) == LowerAll(b) <==> forall i | 0 <= i < |a| :: Alike(a[i], b[i])
  {
    if LowerAll(a) == LowerAll(b) {
      forall i | 0 <= i < |a|
        ensures Alike(a[i], b[i])
      {
        assert LowerAll(a)[i] == LowerAll(b)[i];
      }
    }
  }

  /** The blanks before and after. */
  function Blanks(s: string): (string, string)
    decreases |s|
  {
    if s == "" then ("", "")
    else if IsBlank(s[0]) then ([s[0]] + Blanks(s[1..]).0, Blanks(s[1..]).1)
    else if IsBlank(s[|s| - 1]) then (Blanks(s[..|s| - 1]).0, Blanks(s[..|s| - 1]).1 + [s[|s| - 1]])
    else ("", "")
  }

  lemma {:induction false} BlanksAround(s: string)
    ensures s == Blanks(s).0 + Trim(s) + Blanks(s).1
    decreases |s|
  {
    if s != "" {
      var n := |s| - 1;
      if IsBlank(s[0]) {
        BlanksAround(s[1..]);
        assert s == [s[0]] + s[1..];
      } else if IsBlank(s[n]) {
        BlanksAround(s[..n]);
        assert s == s[..n] + [s[n]];
      }
    }
  }

  lemma {:induction false} AlikeBlanks(a: string, b: string)
    requires Alike(a, b)
    ensures Blanks(a) == Blanks(b)
    decreases |a|
  {
    AlikeLengths(a, b);
    if a != "" {
      var n := |a| - 1;
      assert Lower(a)[0] == Lower(b)[0] && Lower(a)[n] == Lower(b)[n];
      if IsBlank(a[0]) {
        assert Lower(a[1..]) == Lower(a)[1..] && Lower(b[1..]) == Lower(b)[1..];
        AlikeBlanks(a[1..], b[1..]);
      } else if IsBlank(a[n]) {
        assert Lower(a[..n]) == Lower(a)[..n] && Lower(b[..n]) == Lower(b)[..n];
        AlikeBlanks(a[..n], b[..n]);
      }
    }
  }

  predicate SameBlanks(a: string, b: string) {
    Blanks(a) == Blanks(b)
  }

  /** Fields with the same key are the same up to case exactly when their blanks are. */
  lemma SameKeyAlikeIff(a: string, b: string)
    requires Normalize(a) == Normalize(b)
    ensures Alike(a, b) <==> SameBlanks(a, b)
    ensures SameBlanks(a, b) ==> (a == "" <==> b == "")
  {
    BlanksAround(a);
    BlanksAround(b);
    LowerConcat(Blanks(a).0 + Trim(a), Blanks(a).1);
    LowerConcat(Blanks(a).0, Trim(a));
    LowerConcat(Blanks(b).0 + Trim(b), Blanks(b).1);
    LowerConcat(Blanks(b).0, Trim(b));
    if Alike(a, b) {
      AlikeBlanks(a, b);
    }
    if SameBlanks(a, b) {
      AlikeLengths(a, b);
    }
  }

  lemma {:induction false} TrimmedHasNoBlanks(s: string)
    requires IsTrimmed(s)
    ensures Blanks(s) == ("", "")
  {
    BlanksAround(s);
    assert |Trim(s)| == |s|;
  }

  lemma TrimmedSameBlanks(a: string, b: string)
    requires IsTrimmed(a) && IsTrimmed(b)
    ensures SameBlanks(a, b)
  {
    TrimmedHasNoBlanks(a);
    TrimmedHasNoBlanks(b);
  }

  lemma PathsDecideDocs(a: map<string, nat>, b: map<string, nat>, docType: string)
    requires PathOf(a, docType) == PathOf(b, docType)
    ensures docType in a <==> docType in b
  {
  }

  lemma {:induction false} PickFirstSame(a: map<string, nat>, b: map<string, nat>, priority: seq<string>)
    requires forall t | t in priority :: PathOf(a, t) == PathOf(b, t)
    ensures PickFirst(a, priority) == PickFirst(b, priority)
    ensures PickFirst(a, priority).Some? ==> PickFirst(a, priority).value in priority
  {
    if priority != [] {
      PathsDecideDocs(a, b, priority[0]);
      PickFirstSame(a, b, priority[1..]);
    }
  }

  lemma SamePersonKeys(p: PersonData, q: PersonData)
    requires PersonKey(p) == PersonKey(q)
    ensures Normalize(p.first) == Normalize(q.first) && Normalize(p.middle) == Normalize(q.middle)
    ensures Normalize(p.last) == Normalize(q.last) && Normalize(p.birth) == Normalize(q.birth)
    ensures Normalize(p.nationality) == Normalize(q.nationality) && Normalize(p.idNumber) == Normalize(q.idNumber)
  {
    var a, b := PersonKey(p), PersonKey(q);
    assert a[0] == b[0] && a[1] == b[1] && a[2] == b[2] && a[3] == b[3] && a[4] == b[4] && a[5] == b[5];
  }

  // ---- The blanks of a joined name ----

  predicate AllBlank(s: string) {
    forall i | 0 <= i < |s| :: IsBlank(s[i])
  }

  /** Begins and ends with something. */
  predicate Solid(s: string) {
    s != "" && !IsBlank(s[0]) && !IsBlank(s[|s| - 1])
  }

  lemma {:induction false} TrimIsSolid(s: string)
    ensures Trim(s) == "" <==> AllBlank(s)
    ensures Trim(s) != "" ==> Solid(Trim(s))
    ensures AllBlank(Blanks(s).0) && AllBlank(Blanks(s).1)
    decreases |s|
  {
    if s != "" {
      var n := |s| - 1;
      if IsBlank(s[0]) {
        TrimIsSolid(s[1..]);
        assert AllBlank(s[1..]) ==> forall i | 1 <= i < |s| :: s[i] == s[1..][i - 1];
      } else if IsBlank(s[n]) {
        TrimIsSolid(s[..n]);
      }
    }
  }

  /** From the `i`-th to the `j`-th character the text is solid, around that it is blank. */
  lemma {:induction false} TrimSlice(s: string, i: nat, j: nat)
    requires i < j <= |s| && !IsBlank(s[i]) && !IsBlank(s[j - 1])
    requires forall k | 0 <= k < i || j <= k < |s| :: IsBlank(s[k])
    ensures Trim(s) == s[i..j] && Blanks(s) == (s[..i], s[j..])
    decreases |s|
  {
    if i > 0 {
      TrimSlice(s[1..], i - 1, j - 1);
      WithoutFirst(s, i, j);
    } else if j < |s| {
      TrimSlice(s[..|s| - 1], i, j);
      WithoutLast(s, i, j);
    } else {
      assert s[i..j] == s && s[..i] == "" && s[j..] == "";
    }
  }

  lemma WithoutFirst(s: string, i: nat, j: nat)
    requires 0 < i <= j <= |s|
    ensures s[1..][i - 1..j - 1] == s[i..j] && s[1..][j - 1..] == s[j..] && [s[0]] + s[1..][..i - 1] == s[..i]
  {
  }

  lemma WithoutLast(s: string, i: nat, j: nat)
    requires i <= j < |s|
    ensures
      var t := s[..|s| - 1];
      t[i..j] == s[i..j] && t[..i] == s[..i] && t[j..] + [s[|s| - 1]] == s[j..]
  {
  }

  /** A solid text between blanks is what trimming leaves. */
  lemma {:induction false} TrimUnique(l: string, x: string, r: string)
    requires AllBlank(l) && AllBlank(r) && Solid(x)
    ensures Trim(l + x + r) == x && Blanks(l + x + r) == (l, r)
  {
    var s, i, j := l + x + r, |l|, |l| + |x|;
    assert s[..i] == l && s[i..j] == x && s[j..] == r;
    forall k | 0 <= k < i || j <= k < |s|
      ensures IsBlank(s[k])
    {
      assert s[k] == if k < i then l[k] else r[k - j];
    }
    assert s[i] == x[0] && s[j - 1] == x[|x| - 1];
    TrimSlice(s, i, j);
  }

  lemma AllBlankConcat(a: string, b: string)
    requires AllBlank(a) && AllBlank(b)
    ensures AllBlank(a + b)
  {
  }

  /** Blanks before a text that is not blank. */
  lemma {:induction false} BlankBefore(a: string, b: string)
    requires AllBlank(a) && Trim(b) != ""
    ensures Trim(a + b) == Trim(b) && Blanks(a + b).0 == a + Blanks(b).0
  {
    BlanksAround(b);
    TrimIsSolid(b);
    AllBlankConcat(a, Blanks(b).0);
    Around(a, Blanks(b).0, Trim(b), Blanks(b).1);
    TrimUnique(a + Blanks(b).0, Trim(b), Blanks(b).1);
  }

  lemma Around(a: string, l: string, x: string, r: string)
    ensures a + (l + x + r) == (a + l) + x + r
  {
  }

  lemma {:induction false} BlankAfter(a: string, b: string)
    requires Trim(a) != "" && AllBlank(b)
    ensures Trim(a + b) == Trim(a) && Blanks(a + b).0 == Blanks(a).0
  {
    BlanksAround(a);
    TrimIsSolid(a);
    AllBlankConcat(Blanks(a).1, b);
    assert a + b == Blanks(a).0 + Trim(a) + (Blanks(a).1 + b);
    TrimUnique(Blanks(a).0, Trim(a), Blanks(a).1 + b);
  }

  /** Between two texts that are not blank stays what stood there. */
  lemma {:induction false} GapBetween(a: string, gap: string, b: string)
    requires Trim(a) != "" && Trim(b) != ""
    ensures
      var s := a + gap + b;
      Trim(s) == Trim(a) + (Blanks(a).1 + gap + Blanks(b).0) + Trim(b) && Blanks(s).0 == Blanks(a).0
  {
    BlanksAround(a);
    BlanksAround(b);
    TrimIsSolid(a);
    TrimIsSolid(b);
    SolidAround(Trim(a), Blanks(a).1 + gap + Blanks(b).0, Trim(b));
    Regroup(Blanks(a).0, Trim(a), Blanks(a).1, gap, Blanks(b).0, Trim(b), Blanks(b).1);
    TrimUnique(Blanks(a).0, Trim(a) + (Blanks(a).1 + gap + Blanks(b).0) + Trim(b), Blanks(b).1);
  }

  lemma SolidAround(x: string, gap: string, y: string)
    requires Solid(x) && Solid(y)
    ensures Solid(x + gap + y)
  {
    var s := x + gap + y;
    assert s[0] == x[0] && s[|s| - 1] == y[|y| - 1];
  }

  lemma Regroup(l: string, x: string, r: string, gap: string, l': string, x': string, r': string)
    ensures (l + x + r) + gap + (l' + x' + r') == l + (x + (r + gap + l') + x') + r'
  {
  }

  predicate HasWord(parts: seq<string>) {
    parts != [] && (Trim(parts[0]) != "" || HasWord(parts[1..]))
  }

  /** The blanks in front of the first word, blank parts included. */
  function LeadingBlanks(parts: seq<string>): string {
    if parts == [] then ""
    else if parts[0] == "" then LeadingBlanks(parts[1..])
    else if Trim(parts[0]) == "" then parts[0] + " " + LeadingBlanks(parts[1..])
    else Blanks(parts[0]).0
  }

  /** The blanks between the first part and the next word. */
  function GapAfter(parts: seq<string>): string
    requires parts != []
  {
    Blanks(parts[0]).1 + " " + LeadingBlanks(parts[1..])
  }

  lemma {:induction false} JoinedShape(parts: seq<string>)
    ensures Trim(Joined(parts)) != "" <==> HasWord(parts)
    ensures HasWord(parts) ==> Blanks(Joined(parts)).0 == LeadingBlanks(parts)
    ensures parts != [] && Trim(parts[0]) != "" ==>
              Trim(Joined(parts)) == if HasWord(parts[1..])
                                     then Trim(parts[0]) + GapAfter(parts) + Trim(Joined(parts[1..]))
                                     else Trim(parts[0])
    ensures parts != [] && Trim(parts[0]) == "" ==> Trim(Joined(parts)) == Trim(Joined(parts[1..]))
  {
    if parts != [] {
      var part, rest := parts[0], Joined(parts[1..]);
      JoinedShape(parts[1..]);
      TrimIsSolid(part);
      TrimIsSolid(rest);
      assert Trim("") == "";
      if part != "" && rest != "" {
        JoinedTwo(part, rest);
        assert part + " " + rest == (part + " ") + rest;
      }
    }
  }

  lemma JoinedTwo(part: string, rest: string)
    ensures Trim(part) == "" && Trim(rest) == "" ==> Trim(part + " " + rest) == ""
    ensures Trim(part) == "" && Trim(rest) != "" ==>
              Trim(part + " " + rest) == Trim(rest) && Blanks(part + " " + rest).0 == part + " " + Blanks(rest).0
    ensures Trim(part) != "" && Trim(rest) == "" ==>
              Trim(part + " " + rest) == Trim(part) && Blanks(part + " " + rest).0 == Blanks(part).0
    ensures Trim(part) != "" && Trim(rest) != "" ==>
              && Trim(part + " " + rest) == Trim(part) + (Blanks(part).1 + " " + Blanks(rest).0) + Trim(rest)
              && Blanks(part + " " + rest).0 == Blanks(part).0
  {
    TrimIsSolid(part);
    TrimIsSolid(rest);
    if Trim(part) == "" && Trim(rest) == "" {
      TrimIsSolid(part + " " + rest);
    } else if Trim(part) == "" {
      BlankBefore(part + " ", rest);
    } else if Trim(rest) == "" {
      assert part + " " + rest == part + (" " + rest);
      BlankAfter(part, " " + rest);
    } else {
      GapBetween(part, " ", rest);
    }
  }

  /** The blanks between words are the same. */
  predicate SameGaps(a: seq<string>, b: seq<string>)
    requires |a| == |b|
  {
    a == []
    || (SameGaps(a[1..], b[1..]) && (Trim(a[0]) != "" && HasWord(a[1..]) ==> GapAfter(a) == GapAfter(b)))
  }

  predicate SameKeys(a: seq<string>, b: seq<string>) {
    |a| == |b| && forall i | 0 <= i < |a| :: Normalize(a[i]) == Normalize(b[i])
  }

  lemma AlikeEmpty(a: string, b: string)
    requires Alike(a, b)
    ensures a == "" <==> b == ""
  {
    AlikeLengths(a, b);
  }

  lemma {:induction false} SameWords(a: seq<string>, b: seq<string>)
    requires SameKeys(a, b)
    ensures HasWord(a) <==> HasWord(b)
  {
    if a != [] {
      AlikeEmpty(Trim(a[0]), Trim(b[0]));
      SameWords(a[1..], b[1..]);
    }
  }

  lemma BlankIsLower(g: string)
    requires AllBlank(g)
    ensures Lower(g) == g
  {
  }

  lemma SameBlankAt(s: string, t: string, k: nat)
    requires Alike(s, t) && k < |s| && k < |t|
    ensures IsBlank(s[k]) <==> IsBlank(t[k])
  {
    assert Lower(s)[k] == Lower(t)[k];
  }

  /** Where a blank gap ends is the same up to case. */
  lemma GapEnds(a: string, g: string, x: string, b: string, h: string, y: string)
    requires Alike(a, b) && AllBlank(g) && AllBlank(h) && Solid(x) && Solid(y)
    requires Alike(a + g + x, b + h + y)
    ensures |g| <= |h|
  {
    AlikeLengths(a, b);
    AlikeLengths(a + g + x, b + h + y);
    if |h| < |g| {
      SameBlankAt(a + g + x, b + h + y, |a| + |h|);
    }
  }

  lemma GapAlikeIff(a: string, g: string, x: string, b: string, h: string, y: string)
    requires Alike(a, b) && AllBlank(g) && AllBlank(h) && Solid(x) && Solid(y)
    ensures Alike(a + g + x, b + h + y) <==> g == h && Alike(x, y)
  {
    AlikeLengths(a, b);
    LowerConcat(a + g, x);
    LowerConcat(a, g);
    LowerConcat(b + h, y);
    LowerConcat(b, h);
    BlankIsLower(g);
    BlankIsLower(h);
    if Alike(a + g + x, b + h + y) {
      GapEnds(a, g, x, b, h, y);
      GapEnds(b, h, y, a, g, x);
      var n, m := |a|, |a| + |g|;
      assert |Lower(a)| == |Lower(b)| == n;
      assert Lower(a + g + x)[n..m] == g && Lower(b + h + y)[n..m] == h;
      assert Lower(a + g + x)[m..] == Lower(x) && Lower(b + h + y)[m..] == Lower(y);
    }
  }

  lemma {:induction false} LeadingIsBlank(parts: seq<string>)
    ensures AllBlank(LeadingBlanks(parts))
  {
    if parts != [] {
      LeadingIsBlank(parts[1..]);
      TrimIsSolid(parts[0]);
    }
  }

  lemma GapIsBlank(parts: seq<string>)
    requires parts != []
    ensures AllBlank(GapAfter(parts))
  {
    LeadingIsBlank(parts[1..]);
    TrimIsSolid(parts[0]);
  }

  /** Names of the same words are sent alike exactly when the blanks between the words are the same. */
  lemma {:induction false} SameNamesIff(a: seq<string>, b: seq<string>)
    requires SameKeys(a, b)
    ensures Alike(Trim(Joined(a)), Trim(Joined(b))) <==> SameGaps(a, b)
  {
    if a != [] {
      SameNamesIff(a[1..], b[1..]);
      SameWords(a[1..], b[1..]);
      AlikeEmpty(Trim(a[0]), Trim(b[0]));
      JoinedShape(a);
      JoinedShape(b);
      if Trim(a[0]) != "" && HasWord(a[1..]) {
        GapNamesIff(a, b);
      } else if Trim(a[0]) != "" {
        NoWordsNoGaps(a[1..], b[1..]);
      }
    }
  }

  lemma {:induction false} NoWordsNoGaps(a: seq<string>, b: seq<string>)
    requires |a| == |b| && !HasWord(a)
    ensures SameGaps(a, b)
  {
    if a != [] {
      NoWordsNoGaps(a[1..], b[1..]);
    }
  }

  lemma GapNamesIff(a: seq<string>, b: seq<string>)
    requires |a| == |b| && a != [] && Alike(Trim(a[0]), Trim(b[0])) && Trim(a[0]) != "" && Trim(b[0]) != ""
    requires HasWord(a[1..]) && HasWord(b[1..])
    ensures Alike(Trim(Joined(a)), Trim(Joined(b)))
            <==> GapAfter(a) == GapAfter(b) && Alike(Trim(Joined(a[1..])), Trim(Joined(b[1..])))
  {
    JoinedShape(a);
    JoinedShape(b);
    JoinedShape(a[1..]);
    JoinedShape(b[1..]);
    GapIsBlank(a);
    GapIsBlank(b);
    TrimIsSolid(Joined(a[1..]));
    TrimIsSolid(Joined(b[1..]));
    GapAlikeIff(Trim(a[0]), GapAfter(a), Trim(Joined(a[1..])), Trim(b[0]), GapAfter(b), Trim(Joined(b[1..])));
  }

  // ---- When equal fingerprints mean equal requests ----

  /** Of two fields the first that is not empty is taken, and the same one on both sides unless that is all the same. */
  predicate SameChoice(a: string, b: string, a': string, b': string) {
    (a == "" <==> a' == "") || Trim(b) == ""
  }

  lemma SameChoiceIff(a: string, b: string, a': string, b': string)
    requires Normalize(a) == Normalize(a') && Normalize(b) == Normalize(b')
    ensures Alike(Trim(OrElse(a, b)), Trim(OrElse(a', b'))) <==> SameChoice(a, b, a', b')
    ensures SameChoice(a, b, a', b') ==> Upper(Trim(OrElse(a, b))) == Upper(Trim(OrElse(a', b')))
    ensures !SameChoice(a, b, a', b') ==> Upper(Trim(OrElse(a, b))) != Upper(Trim(OrElse(a', b')))
  {
    AlikeLengths(Trim(a), Trim(a'));
    AlikeLengths(Trim(b), Trim(b'));
    var x, y := Trim(OrElse(a, b)), Trim(OrElse(a', b'));
    if SameChoice(a, b, a', b') {
      AlikeUpper(x, y);
    } else {
      assert Trim("") == "";
      assert |x| != |y|;
      assert |Lower(x)| == |x| && |Lower(y)| == |y| && |Upper(x)| == |x| && |Upper(y)| == |y|;
    }
  }

  /** The data does not suffice to ask the provider. */
  predicate Unasked(kind: Kind, s: Subject, files: map<nat, File>) {
    var p := s.person;
    match kind
    case Aml => |FullName(p)| < 2
    case DatabaseValidation => Upper(Trim(p.nationality)) != "BOL" || p.idNumber == "" || p.birth == ""
    case ProofOfAddress => !Usable(files, PathOf(s.docs, "proof_of_address"), 15 * MEGABYTE)
    case CompanyAml => |CompanyName(s.company)| < 2
    case _ => false
  }

  predicate CompanyBlanksAgree(c: CompanyData, d: CompanyData) {
    && SameChoice(c.legalName, c.tradeName, d.legalName, d.tradeName)
    && SameChoice(c.country, c.incorporationCountry, d.country, d.incorporationCountry)
    && SameChoice(c.taxId, c.registration, d.taxId, d.registration)
    && SameBlanks(c.incorporationDate, d.incorporationDate)
  }

  /** The blanks that reach the provider are the same. */
  predicate BlanksAgree(kind: Kind, s: Subject, t: Subject) {
    var p, q, c, d := s.person, t.person, s.company, t.company;
    match kind
    case Aml =>
      SameGaps(NameParts(p), NameParts(q)) && SameBlanks(p.birth, q.birth) && SameBlanks(p.idNumber, q.idNumber)
    case DatabaseValidation =>
      && SameBlanks(p.idNumber, q.idNumber) && SameBlanks(p.birth, q.birth) && SameBlanks(p.first, q.first)
      && SameBlanks(p.last, q.last)
    case ProofOfAddress => SameBlanks(p.first, q.first) && SameBlanks(p.last, q.last)
    case CompanyAml => CompanyBlanksAgree(c, d)
    case _ => true
  }

  lemma FourAlike(a: seq<string>, b: seq<string>)
    requires |a| == |b| == 4
    ensures LowerAll(a) == LowerAll(b)
            <==> Alike(a[0], b[0]) && Alike(a[1], b[1]) && Alike(a[2], b[2]) && Alike(a[3], b[3])
  {
    AlikeTexts(a, b);
  }

  ghost predicate SameRequestIff(kind: Kind, s: Subject, t: Subject, files: map<nat, File>) {
    Canonical(CallFor(kind, s, files)) == Canonical(CallFor(kind, t, files))
    <==> (Unasked(kind, s, files) && Unasked(kind, t, files)) || BlanksAgree(kind, s, t)
  }

  lemma SameImages(kind: Kind, s: Subject, t: Subject, files: map<nat, File>)
    requires kind.IdVerification? || kind.FaceMatch? || kind.Liveness? || kind.CompanyProofOfAddress?
    requires FingerprintOf(kind, s) == FingerprintOf(kind, t)
    ensures CallFor(kind, s, files) == CallFor(kind, t, files)
  {
    var a, b := FingerprintOf(kind, s).docs, FingerprintOf(kind, t).docs;
    match kind
    case IdVerification =>
      assert a[0] == b[0] && a[1] == b[1] && a[2] == b[2] && a[3] == b[3] && a[4] == b[4];
      PickFirstSame(s.docs, t.docs, FRONT_PRIORITY);
    case FaceMatch =>
      assert a[0] == b[0] && a[1] == b[1] && a[2] == b[2];
      PickFirstSame(s.docs, t.docs, FACE_PRIORITY);
    case Liveness => assert a[0] == b[0];
    case CompanyProofOfAddress => assert a[0] == b[0];
    case _ =>
  }

  function AmlTexts(p: PersonData): seq<string> {
    [FullName(p), p.birth, Upper(Trim(p.nationality)), p.idNumber]
  }

  lemma AmlTextsIff(p: PersonData, q: PersonData)
    requires PersonKey(p) == PersonKey(q)
    ensures LowerAll(AmlTexts(p)) == LowerAll(AmlTexts(q))
            <==> SameGaps(NameParts(p), NameParts(q)) && SameBlanks(p.birth, q.birth) && SameBlanks(p.idNumber, q.idNumber)
    ensures SameGaps(NameParts(p), NameParts(q)) ==> |FullName(p)| == |FullName(q)|
  {
    SamePersonKeys(p, q);
    SameNamesIff(NameParts(p), NameParts(q));
    SameKeyAlikeIff(p.birth, q.birth);
    SameKeyAlikeIff(p.idNumber, q.idNumber);
    AlikeUpper(Trim(p.nationality), Trim(q.nationality));
    FourAlike(AmlTexts(p), AmlTexts(q));
    if Alike(FullName(p), FullName(q)) {
      AlikeLengths(FullName(p), FullName(q));
    }
  }

  lemma SameAml(s: Subject, t: Subject, files: map<nat, File>)
    requires FingerprintOf(Aml, s) == FingerprintOf(Aml, t)
    ensures SameRequestIff(Aml, s, t, files)
  {
    AmlTextsIff(s.person, t.person);
  }

  lemma SameDatabaseValidation(s: Subject, t: Subject, files: map<nat, File>)
    requires FingerprintOf(DatabaseValidation, s) == FingerprintOf(DatabaseValidation, t)
    ensures SameRequestIff(DatabaseValidation, s, t, files)
  {
    var p, q := s.person, t.person;
    SamePersonKeys(p, q);
    SameKeyAlikeIff(p.idNumber, q.idNumber);
    SameKeyAlikeIff(p.birth, q.birth);
    SameKeyAlikeIff(p.first, q.first);
    SameKeyAlikeIff(p.last, q.last);
    AlikeUpper(Trim(p.nationality), Trim(q.nationality));
    var texts, texts' := ["BOL", p.idNumber, p.birth, p.first, p.last], ["BOL", q.idNumber, q.birth, q.first, q.last];
    AlikeTexts(texts, texts');
    assert Alike(texts[1], texts'[1]) && Alike(texts[2], texts'[2]) && Alike(texts[3], texts'[3]) && Alike(texts[4], texts'[4])
           <==> forall i | 0 <= i < |texts| :: Alike(texts[i], texts'[i]);
  }

  lemma SameProofOfAddress(s: Subject, t: Subject, files: map<nat, File>)
    requires FingerprintOf(ProofOfAddress, s) == FingerprintOf(ProofOfAddress, t)
    ensures SameRequestIff(ProofOfAddress, s, t, files)
  {
    var p, q := s.person, t.person;
    var a, b := FingerprintOf(ProofOfAddress, s), FingerprintOf(ProofOfAddress, t);
    assert a.docs[0] == b.docs[0] && a.texts[0] == b.texts[0] && a.texts[1] == b.texts[1];
    SameKeyAlikeIff(p.first, q.first);
    SameKeyAlikeIff(p.last, q.last);
    var texts, texts' := [p.first, p.last], [q.first, q.last];
    AlikeTexts(texts, texts');
    assert Alike(texts[0], texts'[0]) && Alike(texts[1], texts'[1])
           <==> forall i | 0 <= i < |texts| :: Alike(texts[i], texts'[i]);
  }

  function CompanyTexts(c: CompanyData): seq<string> {
    [CompanyName(c), c.incorporationDate, Upper(Trim(OrElse(c.country, c.incorporationCountry))),
     Trim(OrElse(c.taxId, c.registration))]
  }

  /** The fields of a company in the order of its fingerprint. */
  function CompanyFields(c: CompanyData): seq<string> {
    [c.legalName, c.tradeName, c.taxId, c.registration, c.country, c.incorporationCountry, c.incorporationDate]
  }

  lemma SameCompanyKeys(s: Subject, t: Subject)
    requires FingerprintOf(CompanyAml, s) == FingerprintOf(CompanyAml, t)
    ensures SameKeys(CompanyFields(s.company), CompanyFields(t.company))
  {
    var a, b := FingerprintOf(CompanyAml, s).texts, FingerprintOf(CompanyAml, t).texts;
    forall i | 0 <= i < 7
      ensures Normalize(CompanyFields(s.company)[i]) == Normalize(CompanyFields(t.company)[i])
    {
      assert a[i] == Normalize(CompanyFields(s.company)[i]) && b[i] == Normalize(CompanyFields(t.company)[i]);
    }
  }

  /** What equal keys say about one choice between two fields. */
  lemma ChoiceOfFields(c: CompanyData, d: CompanyData, i: nat, j: nat)
    requires SameKeys(CompanyFields(c), CompanyFields(d)) && i < 7 && j < 7
    ensures
      var f, g := CompanyFields(c), CompanyFields(d);
      && (Alike(Trim(OrElse(f[i], f[j])), Trim(OrElse(g[i], g[j]))) <==> SameChoice(f[i], f[j], g[i], g[j]))
      && (Upper(Trim(OrElse(f[i], f[j]))) == Upper(Trim(OrElse(g[i], g[j]))) <==> SameChoice(f[i], f[j], g[i], g[j]))
  {
    SameChoiceIff(CompanyFields(c)[i], CompanyFields(c)[j], CompanyFields(d)[i], CompanyFields(d)[j]);
  }

  lemma CompanyTextsIff(c: CompanyData, d: CompanyData)
    requires SameKeys(CompanyFields(c), CompanyFields(d))
    ensures LowerAll(CompanyTexts(c)) == LowerAll(CompanyTexts(d)) <==> CompanyBlanksAgree(c, d)
    ensures CompanyBlanksAgree(c, d) ==> |CompanyName(c)| == |CompanyName(d)|
  {
    ChoiceOfFields(c, d, 0, 1);
    ChoiceOfFields(c, d, 4, 5);
    ChoiceOfFields(c, d, 2, 3);
    assert Normalize(CompanyFields(c)[6]) == Normalize(CompanyFields(d)[6]);
    SameKeyAlikeIff(c.incorporationDate, d.incorporationDate);
    UpperAlike(Trim(OrElse(c.country, c.incorporationCountry)), Trim(OrElse(d.country, d.incorporationCountry)));
    FourAlike(CompanyTexts(c), CompanyTexts(d));
    if Alike(CompanyName(c), CompanyName(d)) {
      AlikeLengths(CompanyName(c), CompanyName(d));
    }
  }

  lemma SameCompanyAml(s: Subject, t: Subject, files: map<nat, File>)
    requires FingerprintOf(CompanyAml, s) == FingerprintOf(CompanyAml, t)
    ensures SameRequestIff(CompanyAml, s, t, files)
  {
    SameCompanyKeys(s, t);
    CompanyTextsIff(s.company, t.company);
  }

  lemma UpperAlike(a: string, b: string)
    ensures Alike(Upper(a), Upper(b)) <==> Upper(a) == Upper(b)
  {
    if Alike(Upper(a), Upper(b)) {
      AlikeLengths(Upper(a), Upper(b));
      forall i | 0 <= i < |Upper(a)|
        ensures Upper(a)[i] == Upper(b)[i]
      {
        assert Lower(Upper(a))[i] == Lower(Upper(b))[i];
      }
    }
  }

  /**
   * With equal fingerprints the provider is asked the same, up to upper and lower case, exactly when the blanks that
   * reach it are the same or neither subject can be asked about; blanks never matter to the checks of images.
   */
  lemma SameCallIff(kind: Kind, s: Subject, t: Subject, files: map<nat, File>)
    requires FingerprintOf(kind, s) == FingerprintOf(kind, t)
    ensures Canonical(CallFor(kind, s, files)) == Canonical(CallFor(kind, t, files))
            <==> (Unasked(kind, s, files) && Unasked(kind, t, files)) || BlanksAgree(kind, s, t)
  {
    match kind
    case Aml => SameAml(s, t, files);
    case DatabaseValidation => SameDatabaseValidation(s, t, files);
    case ProofOfAddress => SameProofOfAddress(s, t, files);
    case CompanyAml => SameCompanyAml(s, t, files);
    case _ => SameImages(kind, s, t, files);
  }

  lemma TrimmedNames(p: PersonData, q: PersonData)
    requires PersonKey(p) == PersonKey(q)
    requires IsTrimmed(p.first) && IsTrimmed(p.middle) && IsTrimmed(p.last)
    requires IsTrimmed(q.first) && IsTrimmed(q.middle) && IsTrimmed(q.last)
    ensures Alike(FullName(p), FullName(q))
  {
    SamePersonKeys(p, q);
    var parts, parts' := [p.first, p.middle, p.last], [q.first, q.middle, q.last];
    AlikeJoined(parts, parts');
    AlikeTrim(Joined(parts), Joined(parts'));
  }

  lemma FilledChoice(a: string, b: string, a': string, b': string)
    requires Normalize(a) == Normalize(a') && IsFilled(a) && IsFilled(a')
    ensures SameChoice(a, b, a', b')
  {
    AlikeLengths(Trim(a), Trim(a'));
    assert Trim("") == "";
  }

  /** Where the fields in question are stored without blanks, equal fingerprints mean equal requests, up to case. */
  lemma FingerprintDecidesCall(kind: Kind, s: Subject, t: Subject, files: map<nat, File>)
    requires Trimmed(kind, s) && Trimmed(kind, t) && FingerprintOf(kind, s) == FingerprintOf(kind, t)
    ensures Canonical(CallFor(kind, s, files)) == Canonical(CallFor(kind, t, files))
  {
    SameCallIff(kind, s, t, files);
    var p, q, c, d := s.person, t.person, s.company, t.company;
    match kind
    case Aml =>
      TrimmedNames(p, q);
      SamePersonKeys(p, q);
      SameNamesIff(NameParts(p), NameParts(q));
      TrimmedSameBlanks(p.birth, q.birth);
      TrimmedSameBlanks(p.idNumber, q.idNumber);
    case DatabaseValidation =>
      TrimmedSameBlanks(p.idNumber, q.idNumber);
      TrimmedSameBlanks(p.birth, q.birth);
      TrimmedSameBlanks(p.first, q.first);
      TrimmedSameBlanks(p.last, q.last);
    case ProofOfAddress =>
      TrimmedSameBlanks(p.first, q.first);
      TrimmedSameBlanks(p.last, q.last);
    case CompanyAml =>
      var a, b := FingerprintOf(CompanyAml, s).texts, FingerprintOf(CompanyAml, t).texts;
      assert a[0] == b[0] && a[2] == b[2] && a[4] == b[4];
      FilledChoice(c.legalName, c.tradeName, d.legalName, d.tradeName);
      FilledChoice(c.country, c.incorporationCountry, d.country, d.incorporationCountry);
      FilledChoice(c.taxId, c.registration, d.taxId, d.registration);
      TrimmedSameBlanks(c.incorporationDate, d.incorporationDate);
    case _ =>
  }

  /** Letter case is not covered either: names in capitals and in small letters give two requests and one fingerprint. */
  lemma CaseIsNotFingerprinted(company: CompanyData)
    ensures
      var s := Subject(map[], PersonData("ANA", "", "PAZ", "1990-01-01", "BOL", "123"), company);
      var t := Subject(map[], PersonData("ana", "", "paz", "1990-01-01", "BOL", "123"), company);
      && FingerprintOf(DatabaseValidation, s) == FingerprintOf(DatabaseValidation, t)
      && CallFor(DatabaseValidation, s, map[]) != CallFor(DatabaseValidation, t, map[])
      && Canonical(CallFor(DatabaseValidation, s, map[])) == Canonical(CallFor(DatabaseValidation, t, map[]))
  {
    var s := Subject(map[], PersonData("ANA", "", "PAZ", "1990-01-01", "BOL", "123"), company);
    var t := Subject(map[], PersonData("ana", "", "paz", "1990-01-01", "BOL", "123"), company);
    assert Lower("ANA") == "ana" == Lower("ana") && Lower("PAZ") == "paz" == Lower("paz");
    assert Trim("ANA") == "ANA" && Trim("ana") == "ana" && Trim("PAZ") == "PAZ" && Trim("paz") == "paz";
    assert Trim("BOL") == "BOL" && Upper("BOL") == "BOL" && Trim("1990-01-01") == "1990-01-01" && Trim("123") == "123";
    assert CallFor(DatabaseValidation, s, map[]).texts[3] != CallFor(DatabaseValidation, t, map[]).texts[3];
    FingerprintDecidesCall(DatabaseValidation, s, t, map[]);
  }

  /** Blanks are not covered: with them alone in the id number, one subject is sent and its twin is skipped. */
  lemma BlanksAreNotFingerprinted(company: CompanyData)
    ensures
      var s := Subject(map[], PersonData("Ana", "", "Paz", "1990-01-01", "BOL", ""), company);
      var t := s.(person := s.person.(idNumber := " "));
      && FingerprintOf(DatabaseValidation, s) == FingerprintOf(DatabaseValidation, t)
      && CallFor(DatabaseValidation, s, map[]) == Skip && CallFor(DatabaseValidation, t, map[]) != Skip
  {
    assert Trim(" ") == "" && Trim("BOL") == "BOL" && Upper("BOL") == "BOL";
  }

  // ---- Reusing and resolving one check ----

  datatype CheckStatus = Approved | Declined | InReview | Skipped | Errored

  datatype Check = Check(status: CheckStatus, fingerprint: Option<Fingerprint>, checkedAt: Option<int>, reused: bool)

  const REUSE_MAX_AGE := 30 * 24 * 60 * 60 * 1000

  predicate CanReuse(previous: Option<Check>, fingerprint: Fingerprint, now: int) {
    && previous.Some? && previous.value.status == Approved && previous.value.fingerprint == Some(fingerprint)
    && previous.value.checkedAt.Some? && now - previous.value.checkedAt.value <= REUSE_MAX_AGE
  }

  datatype Answer = Failed | Got(status: CheckStatus)

  datatype Outcome = Rejected | Omitted | Copied(check: Check) | Raw(status: CheckStatus)

  /** `answer` is what the provider would say, were it asked. */
  function ReuseOr(previous: Option<Check>, fingerprint: Fingerprint, call: Call, answer: Answer, now: int): Outcome {
    if CanReuse(previous, fingerprint, now) then Copied(previous.value.(reused := true))
    else if call.Skip? then Omitted
    else if answer.Failed? then Rejected
    else Raw(answer.status)
  }

  /** A rejection leaves no result; only a result that was asked for is sealed with its inputs and the time. */
  function ResolveCheck(outcome: Outcome, fingerprint: Option<Fingerprint>, now: int): Option<Check> {
    match outcome
    case Rejected => None
    case Omitted => Some(Check(Skipped, None, None, false))
    case Copied(check) => Some(check)
    case Raw(status) =>
      if fingerprint.Some? then Some(Check(status, fingerprint, Some(now), false)) else Some(Check(status, None, None, false))
  }

  function RunCheck(previous: Option<Check>, kind: Kind, s: Subject, files: map<nat, File>, answer: Answer, now: int)
    : Option<Check>
  {
    var fingerprint := FingerprintOf(kind, s);
    ResolveCheck(ReuseOr(previous, fingerprint, CallFor(kind, s, files), answer, now), Some(fingerprint), now)
  }

  /** An approval on these very inputs, at most thirty days old. */
  predicate StillGood(previous: Option<Check>, fingerprint: Fingerprint, now: int) {
    match previous
    case Some(Check(Approved, Some(inputs), Some(at), _)) => inputs == fingerprint && now <= at + 2_592_000_000
    case _ => false
  }

  /**
   * A good approval is copied and marked so, without a call; otherwise nothing to send gives an unsealed skip, a failing
   * provider no result, and an answer the answered status sealed with its inputs and the time.
   */
  lemma RunCheckIs(
      previous: Option<Check>, kind: Kind, s: Subject, files: map<nat, File>, answer: Answer, now: int)
    ensures
      var r, f := RunCheck(previous, kind, s, files, answer, now), FingerprintOf(kind, s);
      && (r.Some? && r.value.reused <==> StillGood(previous, f, now))
      && (StillGood(previous, f, now) ==> r == Some(Check(Approved, Some(f), previous.value.checkedAt, true)))
      && (!StillGood(previous, f, now) ==>
            if CallFor(kind, s, files) == Skip then r == Some(Check(Skipped, None, None, false))
            else if answer == Failed then r == None
            else r == Some(Check(answer.status, Some(f), Some(now), false)))
  {
  }

  // ---- Verdicts ----

  datatype Overall = OverallApproved | OverallDeclined | NeedsReview | OverallError

  predicate IsApproved(r: Option<Check>) {
    r.Some? && r.value.status == Approved
  }

  predicate IsDeclined(r: Option<Check>) {
    r.Some? && r.value.status == Declined
  }

  function ComputeOverall(results: seq<Option<Check>>, errors: nat): Overall {
    if errors > 0 && forall r | r in results :: r.None? then OverallError
    else if exists r | r in results :: IsDeclined(r) then OverallDeclined
    else if forall r | r in results :: IsApproved(r) then OverallApproved
    else NeedsReview
  }

  /** Declined as soon as one result is; approved only when all are; an error only when nothing came back. */
  lemma OverallIs(results: seq<Option<Check>>, errors: nat)
    ensures
      var overall := ComputeOverall(results, errors);
      && (overall == OverallError <==> errors > 0 && forall r | r in results :: r == None)
      && (overall == OverallDeclined <==> exists r | r in results :: r.Some? && r.value.status == Declined)
      && (overall == OverallApproved <==>
            (forall r | r in results :: r.Some? && r.value.status == Approved) && (results == [] ==> errors == 0))
  {
    if results != [] {
      assert results[0] in results;
    }
    assert forall r | r in results :: (IsDeclined(r) <==> r.Some? && r.value.status == Declined);
    assert forall r | r in results :: (IsApproved(r) <==> r.Some? && r.value.status == Approved);
  }

  // ---- The same person twice ----

  function Stripped(s: string): string {
    if s == "" then ""
    else if IsBlank(s[0]) || s[0] == '.' || s[0] == '-' then Stripped(s[1..])
    else [s[0]] + Stripped(s[1..])
  }

  function DocumentKey(p: PersonData): string {
    Stripped(Normalize(p.idNumber))
  }

  function NameKey(p: PersonData): seq<string> {
    [Normalize(p.first), Normalize(p.last), Normalize(p.birth)]
  }

  predicate IsSamePerson(a: PersonData, b: PersonData) {
    if DocumentKey(a) != "" && DocumentKey(b) != "" then
      && DocumentKey(a) == DocumentKey(b)
      && (Normalize(a.nationality) == "" || Normalize(b.nationality) == "" || Normalize(a.nationality) == Normalize(b.nationality))
    else "" !in NameKey(a) && NameKey(a) == NameKey(b)
  }

  // ---- Who counts as the same person ----

  /** What of an id number is compared: everything but blanks, dots and hyphens. */
  function Counts(): char -> bool {
    (c: char) => !IsBlank(c) && c != '.' && c != '-'
  }

  predicate HasNumber(p: PersonData) {
    exists i | 0 <= i < |p.idNumber| :: Counts()(p.idNumber[i])
  }

  predicate SameNumber(a: PersonData, b: PersonData) {
    Filter(Lower(a.idNumber), Counts()) == Filter(Lower(b.idNumber), Counts())
  }

  predicate Filled(s: string) {
    Trim(s) != ""
  }

  predicate Contradict(a: string, b: string) {
    Filled(a) && Filled(b) && Normalize(a) != Normalize(b)
  }

  predicate FilledAndSame(a: string, b: string) {
    Filled(a) && Normalize(a) == Normalize(b)
  }

  /** Both numbers are known and the same, and the nationalities do not speak against it. */
  predicate SameByNumber(a: PersonData, b: PersonData) {
    HasNumber(a) && HasNumber(b) && SameNumber(a, b) && !Contradict(a.nationality, b.nationality)
  }

  /** A number is missing, and first name, last name and birth date are known and the same. */
  predicate SameByName(a: PersonData, b: PersonData) {
    && !(HasNumber(a) && HasNumber(b))
    && FilledAndSame(a.first, b.first) && FilledAndSame(a.last, b.last) && FilledAndSame(a.birth, b.birth)
  }

  lemma {:induction false} StrippedIs(s: string)
    ensures Stripped(s) == Filter(s, Counts())
  {
    if s != "" {
      StrippedIs(s[1..]);
    }
  }

  lemma LowerCounts(s: string, i: nat)
    requires i < |s|
    ensures Counts()(Lower(s)[i]) <==> Counts()(s[i])
  {
  }

  lemma BlankDoesNotCount(s: string)
    requires AllBlank(s)
    ensures Filter(s, Counts()) == ""
  {
    FilterNone(s, Counts());
  }

  /** The blanks around do not matter to what is compared. */
  lemma TrimmedCounts(s: string)
    ensures Filter(Lower(Trim(s)), Counts()) == Filter(Lower(s), Counts())
  {
    var l, x, r := Blanks(s).0, Trim(s), Blanks(s).1;
    BlanksAround(s);
    TrimIsSolid(s);
    LowerConcat(l + x, r);
    LowerConcat(l, x);
    BlankIsLower(l);
    BlankIsLower(r);
    FilterConcat(Lower(l) + Lower(x), Lower(r), Counts());
    FilterConcat(Lower(l), Lower(x), Counts());
    BlankDoesNotCount(l);
    BlankDoesNotCount(r);
  }

  lemma DocumentKeyIs(p: PersonData)
    ensures DocumentKey(p) == Filter(Lower(p.idNumber), Counts())
    ensures DocumentKey(p) != "" <==> HasNumber(p)
  {
    StrippedIs(Normalize(p.idNumber));
    TrimmedCounts(p.idNumber);
    var lower := Lower(p.idNumber);
    FilterIs(lower, Counts());
    if HasNumber(p) {
      var i :| 0 <= i < |p.idNumber| && Counts()(p.idNumber[i]);
      LowerCounts(p.idNumber, i);
      assert lower[i] in lower;
    } else {
      forall i | 0 <= i < |lower|
        ensures !Counts()(lower[i])
      {
        LowerCounts(p.idNumber, i);
      }
      FilterNone(lower, Counts());
    }
  }

  lemma FilledIff(s: string)
    ensures Normalize(s) != "" <==> Filled(s)
  {
    assert |Lower(Trim(s))| == |Trim(s)|;
  }

  lemma SamePersonIff(a: PersonData, b: PersonData)
    ensures IsSamePerson(a, b) <==> SameByNumber(a, b) || SameByName(a, b)
  {
    DocumentKeyIs(a);
    DocumentKeyIs(b);
    FilledIff(a.nationality);
    FilledIff(b.nationality);
    FilledIff(a.first);
    FilledIff(a.last);
    FilledIff(a.birth);
    var x, y := NameKey(a), NameKey(b);
    assert x == y <==> x[0] == y[0] && x[1] == y[1] && x[2] == y[2];
    assert "" in x <==> x[0] == "" || x[1] == "" || x[2] == "";
  }
}
