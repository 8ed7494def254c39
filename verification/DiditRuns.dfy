/** Verification runs over applications: verdicts, reuse along chains of forced runs, one run at a time per application. */
module DiditRuns {
  import opened Wrappers
  import opened DiditChecks

  datatype Role = Applicant | Company | Director | Owner

  /** One check of one person. */
  datatype Slot = Slot(role: Role, id: string, kind: Kind)

  datatype KeyPerson = KeyPerson(role: Role, id: string, samePersonAs: Option<string>, checks: seq<Option<Check>>)

  /** `main` holds the applicant's or the company's checks, `representative` the main director's. */
  datatype Verdict = Verdict(
    overall: Overall, runCount: nat, main: seq<Option<Check>>, representative: seq<Option<Check>>,
    people: seq<KeyPerson>, errors: nat)

  datatype DirectorData = DirectorData(id: string, isSigner: bool, subject: Subject)

  datatype OwnerData = OwnerData(id: string, subject: Subject)

  datatype Input =
    | KycInput(subject: Subject)
    | KybInput(company: Subject, directors: seq<DirectorData>, owners: seq<OwnerData>)

  // ---- One verdict ----

  function PreviousAt(previous: seq<Option<Check>>, i: nat): Option<Check> {
    if i < |previous| then previous[i] else None
  }

  function Bundle(
      kinds: seq<Kind>, previous: seq<Option<Check>>, s: Subject, files: map<nat, File>, role: Role, id: string,
      answers: Slot -> Answer, now: int)
    : seq<Option<Check>>
  {
    seq(|kinds|, i requires 0 <= i < |kinds| =>
      RunCheck(PreviousAt(previous, i), kinds[i], s, files, answers(Slot(role, id, kinds[i])), now))
  }

  function SkippedBundle(): seq<Option<Check>> {
    var skipped := Some(Check(Skipped, None, None, false));
    [skipped, skipped, skipped, skipped, skipped]
  }

  function ErrorsIn(checks: seq<Option<Check>>): nat {
    if checks == [] then 0
    else ErrorsIn(checks[..|checks| - 1]) + if checks[|checks| - 1].None? then 1 else 0
  }

  function FirstSigner(directors: seq<DirectorData>): Option<DirectorData> {
    if directors == [] then None
    else if directors[0].isSigner then Some(directors[0])
    else FirstSigner(directors[1..])
  }

  function PrimaryDirector(directors: seq<DirectorData>): Option<DirectorData> {
    if FirstSigner(directors).Some? then FirstSigner(directors)
    else if directors == [] then None
    else Some(directors[0])
  }

  function PreviousFor(people: seq<KeyPerson>, role: Role, id: string): seq<Option<Check>> {
    if people == [] then []
    else if people[0].role == role && people[0].id == id then people[0].checks
    else PreviousFor(people[1..], role, id)
  }

  function PreviousPeople(previous: Option<Verdict>): seq<KeyPerson> {
    if previous.Some? then previous.value.people else []
  }

  function PreviousMain(previous: Option<Verdict>): seq<Option<Check>> {
    if previous.Some? then previous.value.main else []
  }

  function RunCount(previous: Option<Verdict>): nat {
    if previous.Some? then previous.value.runCount else 0
  }

  function Representative(
      previous: Option<Verdict>, primary: Option<DirectorData>, files: map<nat, File>, answers: Slot -> Answer, now: int)
    : seq<Option<Check>>
  {
    if primary.None? then SkippedBundle()
    else
      var d := primary.value;
      Bundle(PERSON_KINDS, PreviousFor(PreviousPeople(previous), Director, d.id), d.subject, files, Director, d.id, answers, now)
  }

  predicate IsDirector(primary: Option<DirectorData>, o: OwnerData) {
    primary.Some? && IsSamePerson(o.subject.person, primary.value.subject.person)
  }

  /** An owner who is the main director shares that director's checks. */
  function OwnerEntry(
      previous: Option<Verdict>, primary: Option<DirectorData>, representative: seq<Option<Check>>, o: OwnerData,
      files: map<nat, File>, answers: Slot -> Answer, now: int)
    : KeyPerson
  {
    if IsDirector(primary, o) then KeyPerson(Owner, o.id, Some(primary.value.id), representative)
    else
      KeyPerson(Owner, o.id, None,
                Bundle(PERSON_KINDS, PreviousFor(PreviousPeople(previous), Owner, o.id), o.subject, files, Owner, o.id,
                       answers, now))
  }

  function OwnerEntries(
      previous: Option<Verdict>, primary: Option<DirectorData>, representative: seq<Option<Check>>, owners: seq<OwnerData>,
      files: map<nat, File>, answers: Slot -> Answer, now: int)
    : seq<KeyPerson>
  {
    if owners == [] then []
    else
      var n := |owners| - 1;
      OwnerEntries(previous, primary, representative, owners[..n], files, answers, now)
      + [OwnerEntry(previous, primary, representative, owners[n], files, answers, now)]
  }

  function AllChecks(people: seq<KeyPerson>): seq<Option<Check>> {
    if people == [] then [] else AllChecks(people[..|people| - 1]) + people[|people| - 1].checks
  }

  /** The errors of a shared bundle were counted with the director. */
  function OwnErrors(people: seq<KeyPerson>): nat {
    if people == [] then 0
    else
      var p := people[|people| - 1];
      OwnErrors(people[..|people| - 1]) + if p.samePersonAs.None? then ErrorsIn(p.checks) else 0
  }

  function KycVerdict(previous: Option<Verdict>, s: Subject, files: map<nat, File>, answers: Slot -> Answer, now: int): Verdict {
    var checks := Bundle(APPLICANT_KINDS, PreviousMain(previous), s, files, Applicant, "", answers, now);
    Verdict(ComputeOverall(checks, ErrorsIn(checks)), RunCount(previous) + 1, checks, [], [], ErrorsIn(checks))
  }

  function KybVerdict(
      previous: Option<Verdict>, company: Subject, directors: seq<DirectorData>, owners: seq<OwnerData>,
      files: map<nat, File>, answers: Slot -> Answer, now: int)
    : Verdict
  {
    var primary := PrimaryDirector(directors);
    var main := Bundle(COMPANY_KINDS, PreviousMain(previous), company, files, Company, "", answers, now);
    var representative := Representative(previous, primary, files, answers, now);
    var entries := OwnerEntries(previous, primary, representative, owners, files, answers, now);
    var leader := if primary.Some? then [KeyPerson(Director, primary.value.id, None, representative)] else [];
    var errors := ErrorsIn(main) + ErrorsIn(representative) + OwnErrors(entries);
    Verdict(ComputeOverall(main + representative + AllChecks(entries), errors), RunCount(previous) + 1, main,
            representative, leader + entries, errors)
  }

  function VerdictOf(previous: Option<Verdict>, input: Input, files: map<nat, File>, answers: Slot -> Answer, now: int): Verdict {
    match input
    case KycInput(s) => KycVerdict(previous, s, files, answers, now)
    case KybInput(company, directors, owners) => KybVerdict(previous, company, directors, owners, files, answers, now)
  }

  // ---- Which earlier result stands beside which check ----

  /** The result the last verdict has at this place. */
  function EarlierAt(checks: Option<seq<Option<Check>>>, i: nat): Option<Check> {
    if checks.Some? && i < |checks.value| then checks.value[i] else None
  }

  /** `checks` are those of the first person with this role and id. */
  ghost predicate EarlierOf(previous: Option<Verdict>, role: Role, id: string, checks: Option<seq<Option<Check>>>) {
    if previous.Some? && exists p | p in previous.value.people :: p.role == role && p.id == id then
      exists k | 0 <= k < |previous.value.people| ::
        && previous.value.people[k].role == role && previous.value.people[k].id == id
        && checks == Some(previous.value.people[k].checks)
        && forall j | 0 <= j < k :: !(previous.value.people[j].role == role && previous.value.people[j].id == id)
    else checks == None
  }

  lemma {:induction false} PreviousForIs(people: seq<KeyPerson>, role: Role, id: string, k: nat)
    requires k <= |people| && forall j | 0 <= j < k :: !(people[j].role == role && people[j].id == id)
    requires k < |people| ==> people[k].role == role && people[k].id == id
    ensures PreviousFor(people, role, id) == if k < |people| then people[k].checks else []
  {
    if k > 0 {
      PreviousForIs(people[1..], role, id, k - 1);
    }
  }

  lemma EarlierIs(previous: Option<Verdict>, role: Role, id: string, checks: Option<seq<Option<Check>>>, i: nat)
    requires EarlierOf(previous, role, id, checks)
    ensures PreviousAt(PreviousFor(PreviousPeople(previous), role, id), i) == EarlierAt(checks, i)
  {
    var people := PreviousPeople(previous);
    if checks.Some? {
      var k :| 0 <= k < |people| && people[k].role == role && people[k].id == id && checks == Some(people[k].checks)
               && forall j | 0 <= j < k :: !(people[j].role == role && people[j].id == id);
      PreviousForIs(people, role, id, k);
    } else {
      assert forall j | 0 <= j < |people| :: people[j] in people;
      PreviousForIs(people, role, id, |people|);
    }
  }

  /** Each check is run on this subject, beside the earlier result of the same place. */
  ghost predicate Checks(
      results: seq<Option<Check>>, kinds: seq<Kind>, earlier: Option<seq<Option<Check>>>, s: Subject,
      files: map<nat, File>, role: Role, id: string, answers: Slot -> Answer, now: int)
  {
    && |results| == |kinds|
    && forall i | 0 <= i < |kinds| ::
         results[i] == RunCheck(EarlierAt(earlier, i), kinds[i], s, files, answers(Slot(role, id, kinds[i])), now)
  }

  /** An applicant gets six checks, in this order. */
  lemma ApplicantIsChecked(previous: Option<Verdict>, s: Subject, files: map<nat, File>, answers: Slot -> Answer, now: int)
    ensures
      var v := KycVerdict(previous, s, files, answers, now);
      Checks(v.main, [IdVerification, FaceMatch, Aml, DatabaseValidation, Liveness, ProofOfAddress],
             if previous.Some? then Some(previous.value.main) else None, s, files, Applicant, "", answers, now)
  {
  }

  /** A company gets two checks of its own. */
  lemma CompanyIsChecked(
      previous: Option<Verdict>, company: Subject, directors: seq<DirectorData>, owners: seq<OwnerData>,
      files: map<nat, File>, answers: Slot -> Answer, now: int)
    ensures
      Checks(KybVerdict(previous, company, directors, owners, files, answers, now).main, [CompanyAml, CompanyProofOfAddress],
             if previous.Some? then Some(previous.value.main) else None, company, files, Company, "", answers, now)
  {
  }

  lemma RepresentativeOf(
      previous: Option<Verdict>, company: Subject, directors: seq<DirectorData>, owners: seq<OwnerData>,
      files: map<nat, File>, answers: Slot -> Answer, now: int)
    ensures
      KybVerdict(previous, company, directors, owners, files, answers, now).representative
      == Representative(previous, PrimaryDirector(directors), files, answers, now)
  {
  }

  /** The main director gets the five checks of a person. */
  lemma {:induction false} DirectorIsChecked(
      previous: Option<Verdict>, company: Subject, directors: seq<DirectorData>, owners: seq<OwnerData>,
      files: map<nat, File>, answers: Slot -> Answer, now: int, d: DirectorData, earlier: Option<seq<Option<Check>>>)
    requires PrimaryDirector(directors) == Some(d) && EarlierOf(previous, Director, d.id, earlier)
    ensures
      Checks(KybVerdict(previous, company, directors, owners, files, answers, now).representative,
             [IdVerification, FaceMatch, Aml, DatabaseValidation, Liveness], earlier, d.subject, files, Director, d.id,
             answers, now)
  {
    RepresentativeOf(previous, company, directors, owners, files, answers, now);
    RepresentativeIsChecked(previous, d, files, answers, now, earlier);
  }

  /** Without a director five skips stand in the director's place. */
  lemma NobodyIsSkipped(
      previous: Option<Verdict>, company: Subject, owners: seq<OwnerData>, files: map<nat, File>,
      answers: Slot -> Answer, now: int)
    ensures
      var results := KybVerdict(previous, company, [], owners, files, answers, now).representative;
      |results| == 5 && forall r | r in results :: r == Some(Check(Skipped, None, None, false))
  {
    RepresentativeOf(previous, company, [], owners, files, answers, now);
  }

  lemma RepresentativeIsChecked(
      previous: Option<Verdict>, d: DirectorData, files: map<nat, File>, answers: Slot -> Answer, now: int,
      earlier: Option<seq<Option<Check>>>)
    requires EarlierOf(previous, Director, d.id, earlier)
    ensures
      Checks(Representative(previous, Some(d), files, answers, now),
             [IdVerification, FaceMatch, Aml, DatabaseValidation, Liveness], earlier, d.subject, files, Director, d.id,
             answers, now)
  {
    forall i: nat
      ensures PreviousAt(PreviousFor(PreviousPeople(previous), Director, d.id), i) == EarlierAt(earlier, i)
    {
      EarlierIs(previous, Director, d.id, earlier, i);
    }
  }

  /** An owner who is not the main director gets the five checks of a person, beside the earlier results of its own. */
  lemma {:induction false} OwnerIsChecked(
      previous: Option<Verdict>, primary: Option<DirectorData>, representative: seq<Option<Check>>, o: OwnerData,
      files: map<nat, File>, answers: Slot -> Answer, now: int, earlier: Option<seq<Option<Check>>>)
    requires EarlierOf(previous, Owner, o.id, earlier) && !IsPrimary(primary, o)
    ensures
      Checks(OwnerEntry(previous, primary, representative, o, files, answers, now).checks,
             [IdVerification, FaceMatch, Aml, DatabaseValidation, Liveness], earlier, o.subject, files, Owner, o.id,
             answers, now)
  {
    OwnerSharesIff(previous, primary, representative, o, files, answers, now);
    forall i: nat
      ensures PreviousAt(PreviousFor(PreviousPeople(previous), Owner, o.id), i) == EarlierAt(earlier, i)
    {
      EarlierIs(previous, Owner, o.id, earlier, i);
    }
  }

  // ---- The calls a run makes ----

  /** The provider was asked, at this time, and answered. */
  datatype Made = Made(fingerprint: Fingerprint, at: int, status: CheckStatus)

  function Calls(
      kinds: seq<Kind>, previous: seq<Option<Check>>, s: Subject, files: map<nat, File>, role: Role, id: string,
      answers: Slot -> Answer, now: int)
    : set<Made>
  {
    set i | 0 <= i < |kinds| && !CanReuse(PreviousAt(previous, i), FingerprintOf(kinds[i], s), now)
            && !CallFor(kinds[i], s, files).Skip? && answers(Slot(role, id, kinds[i])).Got? ::
      Made(FingerprintOf(kinds[i], s), now, answers(Slot(role, id, kinds[i])).status)
  }

  /** The calls made for one owner. */
  function CallsForOwner(
      previous: Option<Verdict>, primary: Option<DirectorData>, o: OwnerData, files: map<nat, File>,
      answers: Slot -> Answer, now: int)
    : set<Made>
  {
    if IsDirector(primary, o) then {}
    else Calls(PERSON_KINDS, PreviousFor(PreviousPeople(previous), Owner, o.id), o.subject, files, Owner, o.id, answers, now)
  }

  function OwnerCalls(
      previous: Option<Verdict>, primary: Option<DirectorData>, owners: seq<OwnerData>, files: map<nat, File>,
      answers: Slot -> Answer, now: int)
    : set<Made>
  {
    if owners == [] then {}
    else
      var n := |owners| - 1;
      var o := owners[n];
      OwnerCalls(previous, primary, owners[..n], files, answers, now)
      + CallsForOwner(previous, primary, o, files, answers, now)
  }

  function CallsOf(previous: Option<Verdict>, input: Input, files: map<nat, File>, answers: Slot -> Answer, now: int): set<Made> {
    match input
    case KycInput(s) => Calls(APPLICANT_KINDS, PreviousMain(previous), s, files, Applicant, "", answers, now)
    case KybInput(company, directors, owners) =>
      var primary := PrimaryDirector(directors);
      Calls(COMPANY_KINDS, PreviousMain(previous), company, files, Company, "", answers, now)
      + (if primary.None? then {}
         else
           var d := primary.value;
           Calls(PERSON_KINDS, PreviousFor(PreviousPeople(previous), Director, d.id), d.subject, files, Director, d.id,
                 answers, now))
      + OwnerCalls(previous, primary, owners, files, answers, now)
  }

  /** A bundle asks the provider only where no earlier approval is still good and there is something to send. */
  lemma CallMadeIff(
      kinds: seq<Kind>, previous: seq<Option<Check>>, s: Subject, files: map<nat, File>, role: Role, id: string,
      answers: Slot -> Answer, now: int, m: Made)
    ensures
      m in Calls(kinds, previous, s, files, role, id, answers, now) <==>
      exists i | 0 <= i < |kinds| ::
        && !StillGood(EarlierAt(Some(previous), i), FingerprintOf(kinds[i], s), now)
        && CallFor(kinds[i], s, files) != Skip && answers(Slot(role, id, kinds[i])) == Got(m.status)
        && m.fingerprint == FingerprintOf(kinds[i], s) && m.at == now
  {
    forall i | 0 <= i < |kinds|
      ensures CanReuse(PreviousAt(previous, i), FingerprintOf(kinds[i], s), now)
              <==> StillGood(EarlierAt(Some(previous), i), FingerprintOf(kinds[i], s), now)
    {
    }
  }

  // ---- Soundness of reuse ----

  ghost predicate Backed(log: set<Made>, r: Option<Check>) {
    IsApproved(r) ==>
      && r.value.fingerprint.Some? && r.value.checkedAt.Some?
      && Made(r.value.fingerprint.value, r.value.checkedAt.value, Approved) in log
  }

  ghost predicate AllBacked(log: set<Made>, checks: seq<Option<Check>>) {
    forall i | 0 <= i < |checks| :: Backed(log, checks[i])
  }

  ghost predicate VerdictBacked(log: set<Made>, v: Verdict) {
    && AllBacked(log, v.main) && AllBacked(log, v.representative)
    && forall i | 0 <= i < |v.people| :: AllBacked(log, v.people[i].checks)
  }

  /** An approval stems from a real call on exactly these inputs, at most thirty days before `now`. */
  ghost predicate Verified(log: set<Made>, r: Option<Check>, kind: Kind, s: Subject, now: int) {
    IsApproved(r) ==>
      && r.value.fingerprint == Some(FingerprintOf(kind, s)) && r.value.checkedAt.Some?
      && now - r.value.checkedAt.value <= REUSE_MAX_AGE
      && Made(FingerprintOf(kind, s), r.value.checkedAt.value, Approved) in log
  }

  ghost predicate BundleVerified(log: set<Made>, checks: seq<Option<Check>>, kinds: seq<Kind>, s: Subject, now: int) {
    |checks| == |kinds| && forall i | 0 <= i < |kinds| :: Verified(log, checks[i], kinds[i], s, now)
  }

  /** The person whose inputs decide an owner's checks. */
  function CheckedAs(primary: Option<DirectorData>, o: OwnerData): Subject {
    if IsDirector(primary, o) then primary.value.subject else o.subject
  }

  ghost predicate OwnersVerified(
      log: set<Made>, entries: seq<KeyPerson>, primary: Option<DirectorData>, owners: seq<OwnerData>, now: int)
  {
    && |entries| == |owners|
    && forall i | 0 <= i < |owners| ::
         entries[i].id == owners[i].id
         && BundleVerified(log, entries[i].checks, PERSON_KINDS, CheckedAs(primary, owners[i]), now)
  }

  /** Every approval in the verdict is verified; without a director nobody represents the company. */
  ghost predicate VerdictVerified(log: set<Made>, v: Verdict, input: Input, now: int) {
    match input
    case KycInput(s) => BundleVerified(log, v.main, APPLICANT_KINDS, s, now)
    case KybInput(company, directors, owners) =>
      var primary := PrimaryDirector(directors);
      && BundleVerified(log, v.main, COMPANY_KINDS, company, now)
      && (primary.Some? ==>
            && BundleVerified(log, v.representative, PERSON_KINDS, primary.value.subject, now)
            && |v.people| == |owners| + 1 && v.people[0] == KeyPerson(Director, primary.value.id, None, v.representative)
            && OwnersVerified(log, v.people[1..], primary, owners, now))
      && (primary.None? ==> v.representative == SkippedBundle() && OwnersVerified(log, v.people, primary, owners, now))
  }

  /** Reused results are backed by the log they were found with, fresh ones by the call just made. */
  lemma BundleIsVerified(
      log: set<Made>, kinds: seq<Kind>, previous: seq<Option<Check>>, s: Subject, files: map<nat, File>, role: Role,
      id: string, answers: Slot -> Answer, now: int)
    requires AllBacked(log, previous)
    ensures
      BundleVerified(log + Calls(kinds, previous, s, files, role, id, answers, now),
                     Bundle(kinds, previous, s, files, role, id, answers, now), kinds, s, now)
  {
    var calls := Calls(kinds, previous, s, files, role, id, answers, now);
    var checks := Bundle(kinds, previous, s, files, role, id, answers, now);
    forall i | 0 <= i < |kinds|
      ensures Verified(log + calls, checks[i], kinds[i], s, now)
    {
      var before := PreviousAt(previous, i);
      var answer := answers(Slot(role, id, kinds[i]));
      assert Backed(log, before);
      if !CanReuse(before, FingerprintOf(kinds[i], s), now) && !CallFor(kinds[i], s, files).Skip? && answer.Got? {
        assert Made(FingerprintOf(kinds[i], s), now, answer.status) in calls;
      }
    }
  }

  lemma VerifiedIsBacked(log: set<Made>, checks: seq<Option<Check>>, kinds: seq<Kind>, s: Subject, now: int)
    requires BundleVerified(log, checks, kinds, s, now)
    ensures AllBacked(log, checks)
  {
    assert forall i | 0 <= i < |kinds| :: Verified(log, checks[i], kinds[i], s, now);
  }

  lemma {:induction false} PreviousForBacked(log: set<Made>, people: seq<KeyPerson>, role: Role, id: string)
    requires forall i | 0 <= i < |people| :: AllBacked(log, people[i].checks)
    ensures AllBacked(log, PreviousFor(people, role, id))
  {
    if people != [] {
      PreviousForBacked(log, people[1..], role, id);
    }
  }

  ghost predicate PreviousBacked(log: set<Made>, previous: Option<Verdict>) {
    previous.Some? ==> VerdictBacked(log, previous.value)
  }

  lemma OwnersVerifiedSnoc(
      log: set<Made>, entries: seq<KeyPerson>, entry: KeyPerson, primary: Option<DirectorData>, owners: seq<OwnerData>,
      o: OwnerData, now: int)
    requires OwnersVerified(log, entries, primary, owners, now) && entry.id == o.id
    requires BundleVerified(log, entry.checks, PERSON_KINDS, CheckedAs(primary, o), now)
    ensures OwnersVerified(log, entries + [entry], primary, owners + [o], now)
  {
  }

  /** The main director is the first signer, or the first of all when nobody signs. */
  lemma {:induction false} PrimaryDirectorIs(directors: seq<DirectorData>)
    ensures PrimaryDirector(directors).None? <==> directors == []
    ensures directors != [] ==>
              exists k | 0 <= k < |directors| ::
                && PrimaryDirector(directors) == Some(directors[k]) && (forall j | 0 <= j < k :: !directors[j].isSigner)
                && (directors[k].isSigner || (k == 0 && forall d | d in directors :: !d.isSigner))
  {
    FirstSignerIs(directors);
    if directors != [] && FirstSigner(directors).None? {
      assert PrimaryDirector(directors) == Some(directors[0]);
    }
  }

  lemma {:induction false} FirstSignerIs(directors: seq<DirectorData>)
    ensures FirstSigner(directors).None? <==> forall d | d in directors :: !d.isSigner
    ensures FirstSigner(directors).Some? ==>
              exists k | 0 <= k < |directors| ::
                FirstSigner(directors) == Some(directors[k]) && directors[k].isSigner
                && forall j | 0 <= j < k :: !directors[j].isSigner
  {
    if directors != [] {
      var rest := directors[1..];
      FirstSignerIs(rest);
      if directors[0].isSigner {
        assert FirstSigner(directors) == Some(directors[0]);
      } else if FirstSigner(rest).Some? {
        var k :| 0 <= k < |rest| && FirstSigner(rest) == Some(rest[k]) && rest[k].isSigner
                 && forall j | 0 <= j < k :: !rest[j].isSigner;
        assert rest[k] == directors[k + 1];
        forall j | 0 <= j < k + 1
          ensures !directors[j].isSigner
        {
          assert j > 0 ==> directors[j] == rest[j - 1];
        }
      }
    }
  }

  /** Whether an owner is the main director, by number or, where one is missing, by name. */
  predicate IsPrimary(primary: Option<DirectorData>, o: OwnerData) {
    primary.Some?
    && (SameByNumber(o.subject.person, primary.value.subject.person) || SameByName(o.subject.person, primary.value.subject.person))
  }

  /** Exactly an owner who is the main director shares that director's checks; any other gets checks of its own. */
  lemma OwnerSharesIff(
      previous: Option<Verdict>, primary: Option<DirectorData>, representative: seq<Option<Check>>, o: OwnerData,
      files: map<nat, File>, answers: Slot -> Answer, now: int)
    ensures
      var entry := OwnerEntry(previous, primary, representative, o, files, answers, now);
      && entry.role == Owner && entry.id == o.id && (entry.samePersonAs.Some? <==> IsPrimary(primary, o))
      && if IsPrimary(primary, o) then entry.samePersonAs == Some(primary.value.id) && entry.checks == representative
         else |entry.checks| == |PERSON_KINDS|
              && forall i | 0 <= i < |PERSON_KINDS| ::
                   entry.checks[i] == RunCheck(PreviousAt(PreviousFor(PreviousPeople(previous), Owner, o.id), i),
                                               PERSON_KINDS[i], o.subject, files, answers(Slot(Owner, o.id, PERSON_KINDS[i])), now)
  {
    if primary.Some? {
      SamePersonIff(o.subject.person, primary.value.subject.person);
    }
  }

  /** Each owner who is not the main director is verified on its own inputs. */
  ghost predicate OwnInputsVerified(
      log: set<Made>, people: seq<KeyPerson>, primary: Option<DirectorData>, owners: seq<OwnerData>, now: int)
  {
    && |people| == |owners| + 1
    && forall i | 0 <= i < |owners| && !IsPrimary(primary, owners[i]) ::
         people[i + 1].id == owners[i].id && BundleVerified(log, people[i + 1].checks, PERSON_KINDS, owners[i].subject, now)
  }

  lemma OwnersOnOwnInputs(
      log: set<Made>, people: seq<KeyPerson>, primary: Option<DirectorData>, owners: seq<OwnerData>, now: int)
    requires |people| == |owners| + 1 && OwnersVerified(log, people[1..], primary, owners, now)
    ensures OwnInputsVerified(log, people, primary, owners, now)
  {
    forall i | 0 <= i < |owners| && !IsPrimary(primary, owners[i])
      ensures people[i + 1].id == owners[i].id
      ensures BundleVerified(log, people[i + 1].checks, PERSON_KINDS, owners[i].subject, now)
    {
      assert people[1..][i] == people[i + 1];
      if primary.Some? {
        SamePersonIff(owners[i].subject.person, primary.value.subject.person);
      }
    }
  }

  /** Different numbers are enough not to be the main director. */
  lemma OtherNumberIsNotPrimary(primary: Option<DirectorData>, o: OwnerData)
    requires primary.Some? && HasNumber(o.subject.person) && HasNumber(primary.value.subject.person)
    requires !SameNumber(o.subject.person, primary.value.subject.person)
    ensures !IsPrimary(primary, o)
  {
  }

  lemma {:induction false} OwnerIsVerified(
      log: set<Made>, previous: Option<Verdict>, primary: Option<DirectorData>, representative: seq<Option<Check>>,
      o: OwnerData, files: map<nat, File>, answers: Slot -> Answer, now: int)
    requires PreviousBacked(log, previous)
    requires primary.Some? ==> BundleVerified(log, representative, PERSON_KINDS, primary.value.subject, now)
    ensures
      var calls := CallsForOwner(previous, primary, o, files, answers, now);
      BundleVerified(log + calls, OwnerEntry(previous, primary, representative, o, files, answers, now).checks,
                     PERSON_KINDS, CheckedAs(primary, o), now)
  {
    if !IsDirector(primary, o) {
      PreviousForBacked(log, PreviousPeople(previous), Owner, o.id);
      BundleIsVerified(log, PERSON_KINDS, PreviousFor(PreviousPeople(previous), Owner, o.id), o.subject, files, Owner,
                       o.id, answers, now);
    }
  }

  lemma VerifiedMonotone(
      log: set<Made>, more: set<Made>, checks: seq<Option<Check>>, kinds: seq<Kind>, s: Subject, now: int)
    requires BundleVerified(log, checks, kinds, s, now) && log <= more
    ensures BundleVerified(more, checks, kinds, s, now)
  {
    forall i | 0 <= i < |kinds|
      ensures Verified(more, checks[i], kinds[i], s, now)
    {
      assert Verified(log, checks[i], kinds[i], s, now);
    }
  }

  lemma OwnersVerifiedMonotone(
      log: set<Made>, more: set<Made>, entries: seq<KeyPerson>, primary: Option<DirectorData>, owners: seq<OwnerData>,
      now: int)
    requires OwnersVerified(log, entries, primary, owners, now) && log <= more
    ensures OwnersVerified(more, entries, primary, owners, now)
  {
    forall i | 0 <= i < |owners|
      ensures BundleVerified(more, entries[i].checks, PERSON_KINDS, CheckedAs(primary, owners[i]), now)
    {
      VerifiedMonotone(log, more, entries[i].checks, PERSON_KINDS, CheckedAs(primary, owners[i]), now);
    }
  }

  /** One more owner, whose calls are added to the log. */
  lemma NextOwnerVerified(
      before: set<Made>, own: set<Made>, after: set<Made>, entries: seq<KeyPerson>, entry: KeyPerson,
      primary: Option<DirectorData>, owners: seq<OwnerData>, o: OwnerData, now: int)
    requires OwnersVerified(before, entries, primary, owners, now) && entry.id == o.id
    requires BundleVerified(own, entry.checks, PERSON_KINDS, CheckedAs(primary, o), now)
    requires before <= after && own <= after
    ensures OwnersVerified(after, entries + [entry], primary, owners + [o], now)
  {
    OwnersVerifiedMonotone(before, after, entries, primary, owners, now);
    VerifiedMonotone(own, after, entry.checks, PERSON_KINDS, CheckedAs(primary, o), now);
    OwnersVerifiedSnoc(after, entries, entry, primary, owners, o, now);
  }

  lemma {:induction false} LastOwner(
      previous: Option<Verdict>, primary: Option<DirectorData>, representative: seq<Option<Check>>, owners: seq<OwnerData>,
      files: map<nat, File>, answers: Slot -> Answer, now: int)
    requires owners != []
    ensures
      var earlier, o := owners[..|owners| - 1], owners[|owners| - 1];
      && owners == earlier + [o] && OwnerEntry(previous, primary, representative, o, files, answers, now).id == o.id
      && OwnerCalls(previous, primary, owners, files, answers, now)
         == OwnerCalls(previous, primary, earlier, files, answers, now) + CallsForOwner(previous, primary, o, files, answers, now)
      && OwnerEntries(previous, primary, representative, owners, files, answers, now)
         == OwnerEntries(previous, primary, representative, earlier, files, answers, now)
            + [OwnerEntry(previous, primary, representative, o, files, answers, now)]
  {
  }

  lemma {:induction false} OwnersAreVerified(
      log: set<Made>, previous: Option<Verdict>, primary: Option<DirectorData>, representative: seq<Option<Check>>,
      owners: seq<OwnerData>, files: map<nat, File>, answers: Slot -> Answer, now: int)
    requires PreviousBacked(log, previous)
    requires primary.Some? ==> BundleVerified(log, representative, PERSON_KINDS, primary.value.subject, now)
    ensures
      OwnersVerified(log + OwnerCalls(previous, primary, owners, files, answers, now),
                     OwnerEntries(previous, primary, representative, owners, files, answers, now), primary, owners, now)
  {
    if owners != [] {
      var earlier, o := owners[..|owners| - 1], owners[|owners| - 1];
      OwnersAreVerified(log, previous, primary, representative, earlier, files, answers, now);
      OwnerIsVerified(log, previous, primary, representative, o, files, answers, now);
      LastOwner(previous, primary, representative, owners, files, answers, now);
      var calls := OwnerCalls(previous, primary, earlier, files, answers, now);
      var own := CallsForOwner(previous, primary, o, files, answers, now);
      NextOwnerVerified(log + calls, log + own, log + (calls + own),
                        OwnerEntries(previous, primary, representative, earlier, files, answers, now),
                        OwnerEntry(previous, primary, representative, o, files, answers, now), primary, earlier, o, now);
    }
  }

  /** A run's verdict is verified by the calls made so far, its own included. */
  lemma {:induction false} VerdictIsVerified(
      log: set<Made>, previous: Option<Verdict>, input: Input, files: map<nat, File>, answers: Slot -> Answer, now: int)
    requires PreviousBacked(log, previous)
    ensures
      var after := log + CallsOf(previous, input, files, answers, now);
      VerdictVerified(after, VerdictOf(previous, input, files, answers, now), input, now)
  {
    match input
    case KycInput(s) => BundleIsVerified(log, APPLICANT_KINDS, PreviousMain(previous), s, files, Applicant, "", answers, now);
    case KybInput(company, directors, owners) =>
      KybMainVerified(log, previous, company, directors, owners, files, answers, now);
      KybPeopleVerified(log, previous, company, directors, owners, files, answers, now);
      KybShape(previous, company, directors, owners, files, answers, now);
  }

  lemma KybMainVerified(
      log: set<Made>, previous: Option<Verdict>, company: Subject, directors: seq<DirectorData>, owners: seq<OwnerData>,
      files: map<nat, File>, answers: Slot -> Answer, now: int)
    requires PreviousBacked(log, previous)
    ensures
      BundleVerified(log + CallsOf(previous, KybInput(company, directors, owners), files, answers, now),
                     Bundle(COMPANY_KINDS, PreviousMain(previous), company, files, Company, "", answers, now),
                     COMPANY_KINDS, company, now)
  {
    var main := PreviousMain(previous);
    var after := log + CallsOf(previous, KybInput(company, directors, owners), files, answers, now);
    BundleIsVerified(log, COMPANY_KINDS, main, company, files, Company, "", answers, now);
  }

  lemma KybShape(
      previous: Option<Verdict>, company: Subject, directors: seq<DirectorData>, owners: seq<OwnerData>,
      files: map<nat, File>, answers: Slot -> Answer, now: int)
    ensures
      var primary := PrimaryDirector(directors);
      var v := KybVerdict(previous, company, directors, owners, files, answers, now);
      var representative := Representative(previous, primary, files, answers, now);
      var entries := OwnerEntries(previous, primary, representative, owners, files, answers, now);
      && v.main == Bundle(COMPANY_KINDS, PreviousMain(previous), company, files, Company, "", answers, now)
      && v.representative == representative
      && v.errors == ErrorsIn(v.main) + ErrorsIn(representative) + OwnErrors(entries)
      && v.overall == ComputeOverall(v.main + representative + AllChecks(entries), v.errors)
      && (primary.None? ==> v.people == entries && representative == SkippedBundle())
      && (primary.Some? ==> v.people == [KeyPerson(Director, primary.value.id, None, representative)] + entries
                            && v.people[1..] == entries)
  {
  }

  lemma {:induction false} KybPeopleVerified(
      log: set<Made>, previous: Option<Verdict>, company: Subject, directors: seq<DirectorData>, owners: seq<OwnerData>,
      files: map<nat, File>, answers: Slot -> Answer, now: int)
    requires PreviousBacked(log, previous)
    ensures
      var input := KybInput(company, directors, owners);
      var primary := PrimaryDirector(directors);
      var after := log + CallsOf(previous, input, files, answers, now);
      var representative := Representative(previous, primary, files, answers, now);
      var entries := OwnerEntries(previous, primary, representative, owners, files, answers, now);
      && (primary.Some? ==> BundleVerified(after, representative, PERSON_KINDS, primary.value.subject, now))
      && OwnersVerified(after, entries, primary, owners, now)
  {
    var input := KybInput(company, directors, owners);
    var primary := PrimaryDirector(directors);
    var after := log + CallsOf(previous, input, files, answers, now);
    var representative := Representative(previous, primary, files, answers, now);
    var entries := OwnerEntries(previous, primary, representative, owners, files, answers, now);
    var mid := log;
    if primary.Some? {
      var d := primary.value;
      var earlier := PreviousFor(PreviousPeople(previous), Director, d.id);
      PreviousForBacked(log, PreviousPeople(previous), Director, d.id);
      BundleIsVerified(log, PERSON_KINDS, earlier, d.subject, files, Director, d.id, answers, now);
      mid := log + Calls(PERSON_KINDS, earlier, d.subject, files, Director, d.id, answers, now);
    }
    OwnersAreVerified(mid, previous, primary, representative, owners, files, answers, now);
  }

  lemma VerifiedVerdictBacked(log: set<Made>, v: Verdict, input: Input, now: int)
    requires VerdictVerified(log, v, input, now) && (input.KycInput? ==> v.representative == [] && v.people == [])
    ensures VerdictBacked(log, v)
  {
    match input
    case KycInput(s) => VerifiedIsBacked(log, v.main, APPLICANT_KINDS, s, now);
    case KybInput(company, directors, owners) =>
      var primary := PrimaryDirector(directors);
      VerifiedIsBacked(log, v.main, COMPANY_KINDS, company, now);
      if primary.Some? {
        VerifiedIsBacked(log, v.representative, PERSON_KINDS, primary.value.subject, now);
      }
      var first := if primary.Some? then 1 else 0;
      forall i | first <= i < |v.people|
        ensures AllBacked(log, v.people[i].checks)
      {
        var entry := v.people[first..][i - first];
        assert entry == v.people[i];
        VerifiedIsBacked(log, entry.checks, PERSON_KINDS, CheckedAs(primary, owners[i - first]), now);
      }
  }

  // ---- What an approval of the whole means ----

  lemma OverallApprovedIff(results: seq<Option<Check>>, errors: nat)
    requires results != []
    ensures ComputeOverall(results, errors) == OverallApproved <==> forall r | r in results :: IsApproved(r)
  {
    assert results[0] in results;
  }

  lemma {:induction false} InAllChecks(people: seq<KeyPerson>, i: nat, r: Option<Check>)
    requires i < |people| && r in people[i].checks
    ensures r in AllChecks(people)
  {
    var n := |people| - 1;
    if i < n {
      InAllChecks(people[..n], i, r);
    }
  }

  predicate AllApproved(checks: seq<Option<Check>>) {
    forall r | r in checks :: IsApproved(r)
  }

  /** A company without a director is never approved. */
  lemma NoDirectorNoApproval(
      previous: Option<Verdict>, company: Subject, directors: seq<DirectorData>, owners: seq<OwnerData>,
      files: map<nat, File>, answers: Slot -> Answer, now: int)
    requires PrimaryDirector(directors).None?
    ensures KybVerdict(previous, company, directors, owners, files, answers, now).overall != OverallApproved
  {
    var v := KybVerdict(previous, company, directors, owners, files, answers, now);
    var entries := OwnerEntries(previous, None, v.representative, owners, files, answers, now);
    var results := v.main + v.representative + AllChecks(entries);
    assert !IsApproved(results[|v.main|]) && results[|v.main|] in results;
    OverallApprovedIff(results, v.errors);
  }

  predicate PeopleApproved(people: seq<KeyPerson>) {
    forall i | 0 <= i < |people| :: AllApproved(people[i].checks)
  }

  lemma EntriesApproved(entries: seq<KeyPerson>)
    requires AllApproved(AllChecks(entries))
    ensures PeopleApproved(entries)
  {
    forall i | 0 <= i < |entries|
      ensures AllApproved(entries[i].checks)
    {
      forall r | r in entries[i].checks
        ensures IsApproved(r)
      {
        InAllChecks(entries, i, r);
      }
    }
  }

  lemma AllOfResults(a: seq<Option<Check>>, b: seq<Option<Check>>)
    requires AllApproved(a + b)
    ensures AllApproved(a) && AllApproved(b)
  {
    assert forall r | r in a :: r in a + b;
    assert forall r | r in b :: r in a + b;
  }

  lemma {:induction false} ApprovedParts(
      main: seq<Option<Check>>, representative: seq<Option<Check>>, entries: seq<KeyPerson>, errors: nat, leader: KeyPerson)
    requires ComputeOverall(main + representative + AllChecks(entries), errors) == OverallApproved
    requires main != [] && leader.checks == representative
    ensures AllApproved(main) && AllApproved(representative) && PeopleApproved([leader] + entries)
  {
    AllOfResults(main + representative, AllChecks(entries));
    AllOfResults(main, representative);
    EntriesApproved(entries);
  }

  lemma {:induction false} ApprovedHasDirector(
      previous: Option<Verdict>, company: Subject, directors: seq<DirectorData>, owners: seq<OwnerData>,
      files: map<nat, File>, answers: Slot -> Answer, now: int)
    requires KybVerdict(previous, company, directors, owners, files, answers, now).overall == OverallApproved
    ensures PrimaryDirector(directors).Some?
  {
    if PrimaryDirector(directors).None? {
      NoDirectorNoApproval(previous, company, directors, owners, files, answers, now);
    }
  }

  lemma {:induction false} ApprovedCompanyChecks(
      previous: Option<Verdict>, company: Subject, directors: seq<DirectorData>, owners: seq<OwnerData>,
      files: map<nat, File>, answers: Slot -> Answer, now: int, v: Verdict)
    requires v == KybVerdict(previous, company, directors, owners, files, answers, now)
    requires v.overall == OverallApproved && PrimaryDirector(directors).Some?
    ensures AllApproved(v.main) && AllApproved(v.representative) && PeopleApproved(v.people)
    ensures |v.people| == |owners| + 1
  {
    var primary := PrimaryDirector(directors);
    KybShape(previous, company, directors, owners, files, answers, now);
    var entries := OwnerEntries(previous, primary, v.representative, owners, files, answers, now);
    assert |v.main| == |COMPANY_KINDS|;
    ApprovedVerdict(v, v.representative, entries, primary.value.id);
    EntriesLength(previous, primary, v.representative, owners, files, answers, now);
  }

  lemma {:induction false} EntriesLength(
      previous: Option<Verdict>, primary: Option<DirectorData>, representative: seq<Option<Check>>, owners: seq<OwnerData>,
      files: map<nat, File>, answers: Slot -> Answer, now: int)
    ensures |OwnerEntries(previous, primary, representative, owners, files, answers, now)| == |owners|
  {
    if owners != [] {
      EntriesLength(previous, primary, representative, owners[..|owners| - 1], files, answers, now);
    }
  }

  lemma {:induction false} ApprovedVerdict(v: Verdict, representative: seq<Option<Check>>, entries: seq<KeyPerson>, id: string)
    requires v.overall == OverallApproved && |v.main| == |COMPANY_KINDS| && v.representative == representative
    requires v.overall == ComputeOverall(v.main + representative + AllChecks(entries), v.errors)
    requires v.people == [KeyPerson(Director, id, None, representative)] + entries
    ensures AllApproved(v.main) && AllApproved(v.representative) && |v.people| == |entries| + 1 && PeopleApproved(v.people)
  {
    ApprovedParts(v.main, representative, entries, v.errors, KeyPerson(Director, id, None, representative));
  }

  /**
   * A company is approved only with a director, and then every check of the company, the director and each owner is
   * approved on a real call, on current inputs, at most thirty days old: an owner's own inputs, unless the owner is the
   * main director.
   */
  lemma {:induction false} ApprovedCompanyIsVerified(
      log: set<Made>, previous: Option<Verdict>, company: Subject, directors: seq<DirectorData>, owners: seq<OwnerData>,
      files: map<nat, File>, answers: Slot -> Answer, now: int)
    requires PreviousBacked(log, previous)
    requires KybVerdict(previous, company, directors, owners, files, answers, now).overall == OverallApproved
    ensures
      var input := KybInput(company, directors, owners);
      var v := KybVerdict(previous, company, directors, owners, files, answers, now);
      && VerdictVerified(log + CallsOf(previous, input, files, answers, now), v, input, now)
      && PrimaryDirector(directors).Some? && AllApproved(v.main) && AllApproved(v.representative)
      && |v.people| == |owners| + 1 && PeopleApproved(v.people)
      && OwnInputsVerified(log + CallsOf(previous, input, files, answers, now), v.people, PrimaryDirector(directors), owners, now)
  {
    VerdictIsVerified(log, previous, KybInput(company, directors, owners), files, answers, now);
    ApprovedHasDirector(previous, company, directors, owners, files, answers, now);
    ApprovedCompanyChecks(previous, company, directors, owners, files, answers, now,
                          KybVerdict(previous, company, directors, owners, files, answers, now));
    OwnersOnOwnInputs(log + CallsOf(previous, KybInput(company, directors, owners), files, answers, now),
                      KybVerdict(previous, company, directors, owners, files, answers, now).people,
                      PrimaryDirector(directors), owners, now);
  }

  ghost predicate HasFailure(checks: seq<Option<Check>>) {
    exists i :: 0 <= i < |checks| && checks[i].None?
  }

  lemma {:induction false} ErrorsInIff(checks: seq<Option<Check>>)
    ensures ErrorsIn(checks) > 0 <==> HasFailure(checks)
  {
    if checks != [] {
      var n := |checks| - 1;
      ErrorsInIff(checks[..n]);
      if HasFailure(checks[..n]) {
        var i :| 0 <= i < n && checks[..n][i].None?;
        assert checks[i].None?;
      }
      if HasFailure(checks) {
        var i :| 0 <= i < |checks| && checks[i].None?;
        assert i < n ==> checks[..n][i].None?;
      }
    }
  }

  lemma FailureInConcat(a: seq<Option<Check>>, b: seq<Option<Check>>)
    ensures HasFailure(a + b) <==> HasFailure(a) || HasFailure(b)
  {
    if HasFailure(a) {
      var i :| 0 <= i < |a| && a[i].None?;
      assert (a + b)[i].None?;
    }
    if HasFailure(b) {
      var i :| 0 <= i < |b| && b[i].None?;
      assert (a + b)[|a| + i].None?;
    }
    if HasFailure(a + b) {
      var i :| 0 <= i < |a + b| && (a + b)[i].None?;
      assert if i < |a| then a[i].None? else b[i - |a|].None?;
    }
  }

  /** Errors of shared checks are counted once, but none is missed. */
  lemma {:induction false} OwnErrorsIff(entries: seq<KeyPerson>, representative: seq<Option<Check>>)
    requires Shared(entries, representative)
    ensures ErrorsIn(representative) + OwnErrors(entries) > 0 <==> HasFailure(representative) || HasFailure(AllChecks(entries))
  {
    ErrorsInIff(representative);
    if entries != [] {
      var n := |entries| - 1;
      OwnErrorsIff(entries[..n], representative);
      ErrorsInIff(entries[n].checks);
      FailureInConcat(AllChecks(entries[..n]), entries[n].checks);
    }
  }

  ghost predicate Shared(entries: seq<KeyPerson>, representative: seq<Option<Check>>) {
    forall i | 0 <= i < |entries| && entries[i].samePersonAs.Some? :: entries[i].checks == representative
  }

  lemma {:induction false} SharedEntries(
      previous: Option<Verdict>, primary: Option<DirectorData>, representative: seq<Option<Check>>, owners: seq<OwnerData>,
      files: map<nat, File>, answers: Slot -> Answer, now: int)
    ensures Shared(OwnerEntries(previous, primary, representative, owners, files, answers, now), representative)
  {
    if owners != [] {
      var n := |owners| - 1;
      SharedEntries(previous, primary, representative, owners[..n], files, answers, now);
    }
  }

  /** The verdict of a company is an error exactly when no check at all could be evaluated. */
  lemma CompanyErrorIff(
      previous: Option<Verdict>, company: Subject, directors: seq<DirectorData>, owners: seq<OwnerData>,
      files: map<nat, File>, answers: Slot -> Answer, now: int)
    ensures
      var v := KybVerdict(previous, company, directors, owners, files, answers, now);
      var entries := OwnerEntries(previous, PrimaryDirector(directors), v.representative, owners, files, answers, now);
      v.overall == OverallError <==> forall r | r in v.main + v.representative + AllChecks(entries) :: r.None?
  {
    KybShape(previous, company, directors, owners, files, answers, now);
    var v := KybVerdict(previous, company, directors, owners, files, answers, now);
    var entries := OwnerEntries(previous, PrimaryDirector(directors), v.representative, owners, files, answers, now);
    SharedEntries(previous, PrimaryDirector(directors), v.representative, owners, files, answers, now);
    ErrorsInIff(v.main);
    OwnErrorsIff(entries, v.representative);
    assert v.main[0] in v.main + v.representative + AllChecks(entries);
    assert v.main[0].None? ==> HasFailure(v.main);
  }
}
