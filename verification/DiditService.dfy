/**
 * The verification service over its applications: a run with reuse against a run without, every sequence of runs, and
 * the class that performs them.
 */
module DiditService {
  import opened Wrappers
  import opened DiditChecks
  import opened DiditRuns

  // ---- A run with reuse does what a run without does ----

  /** The provider answers by what it is asked, up to upper and lower case. */
  ghost predicate Insensitive(provider: Call -> Answer) {
    forall c, d | Canonical(c) == Canonical(d) :: provider(c) == provider(d)
  }

  ghost predicate Says(provider: Call -> Answer, files: map<nat, File>, kind: Kind, s: Subject, status: CheckStatus) {
    !CallFor(kind, s, files).Skip? && provider(CallFor(kind, s, files)) == Got(status)
  }

  /** The logged call is one this provider answered. */
  ghost predicate Explained(m: Made, provider: Call -> Answer, files: map<nat, File>) {
    exists kind, s :: Trimmed(kind, s) && FingerprintOf(kind, s) == m.fingerprint && Says(provider, files, kind, s, m.status)
  }

  ghost predicate LogExplained(log: set<Made>, provider: Call -> Answer, files: map<nat, File>) {
    forall m | m in log :: Explained(m, provider, files)
  }

  /** The answers of one bundle come from the provider. */
  ghost predicate Asked(
      provider: Call -> Answer, files: map<nat, File>, answers: Slot -> Answer, role: Role, id: string, s: Subject)
  {
    forall kind :: Trimmed(kind, s) && answers(Slot(role, id, kind)) == provider(CallFor(kind, s, files))
  }

  ghost predicate InputAsked(provider: Call -> Answer, files: map<nat, File>, answers: Slot -> Answer, input: Input) {
    match input
    case KycInput(s) => Asked(provider, files, answers, Applicant, "", s)
    case KybInput(company, directors, owners) =>
      && Asked(provider, files, answers, Company, "", company)
      && (forall d | d in directors :: Asked(provider, files, answers, Director, d.id, d.subject))
      && (forall o | o in owners :: Asked(provider, files, answers, Owner, o.id, o.subject))
  }

  function StatusOf(r: Option<Check>): Option<CheckStatus> {
    if r.Some? then Some(r.value.status) else None
  }

  ghost predicate SameStatuses(a: seq<Option<Check>>, b: seq<Option<Check>>) {
    |a| == |b| && forall i | 0 <= i < |a| :: StatusOf(a[i]) == StatusOf(b[i])
  }

  ghost predicate SamePeople(a: seq<KeyPerson>, b: seq<KeyPerson>) {
    && |a| == |b|
    && forall i | 0 <= i < |a| ::
         a[i].role == b[i].role && a[i].id == b[i].id && a[i].samePersonAs == b[i].samePersonAs
         && SameStatuses(a[i].checks, b[i].checks)
  }

  ghost predicate SameVerdict(a: Verdict, b: Verdict) {
    && a.overall == b.overall && a.errors == b.errors && SameStatuses(a.main, b.main)
    && SameStatuses(a.representative, b.representative) && SamePeople(a.people, b.people)
  }

  /** The provider would give the logged answer again. */
  lemma ProviderRepeats(m: Made, kind: Kind, s: Subject, files: map<nat, File>, provider: Call -> Answer)
    requires Insensitive(provider) && Explained(m, provider, files) && Trimmed(kind, s) && m.fingerprint == FingerprintOf(kind, s)
    ensures Says(provider, files, kind, s, m.status)
  {
    var kind', s' :| Trimmed(kind', s') && FingerprintOf(kind', s') == m.fingerprint && Says(provider, files, kind', s', m.status);
    SameKind(kind, s, kind', s');
    FingerprintDecidesCall(kind, s, s', files);
  }

  /** A reused approval is what the provider would answer now. */
  lemma ReusedIsFresh(
      log: set<Made>, previous: Option<Check>, kind: Kind, s: Subject, files: map<nat, File>, provider: Call -> Answer, now: int)
    requires Insensitive(provider) && LogExplained(log, provider, files) && Backed(log, previous) && Trimmed(kind, s)
    ensures
      var answer := provider(CallFor(kind, s, files));
      StatusOf(RunCheck(previous, kind, s, files, answer, now)) == StatusOf(RunCheck(None, kind, s, files, answer, now))
  {
    var fingerprint := FingerprintOf(kind, s);
    if CanReuse(previous, fingerprint, now) {
      ProviderRepeats(Made(fingerprint, previous.value.checkedAt.value, Approved), kind, s, files, provider);
    }
  }

  lemma SameKind(kind: Kind, s: Subject, kind': Kind, s': Subject)
    requires FingerprintOf(kind, s) == FingerprintOf(kind', s')
    ensures kind == kind'
  {
    assert FingerprintOf(kind, s).kind == kind && FingerprintOf(kind', s').kind == kind';
  }

  lemma {:induction false} BundleIsFresh(
      log: set<Made>, kinds: seq<Kind>, previous: seq<Option<Check>>, s: Subject, files: map<nat, File>, role: Role,
      id: string, answers: Slot -> Answer, provider: Call -> Answer, now: int)
    requires Insensitive(provider) && LogExplained(log, provider, files) && AllBacked(log, previous)
    requires Asked(provider, files, answers, role, id, s)
    ensures SameStatuses(Bundle(kinds, previous, s, files, role, id, answers, now),
                         Bundle(kinds, [], s, files, role, id, answers, now))
  {
    forall i | 0 <= i < |kinds|
      ensures StatusOf(Bundle(kinds, previous, s, files, role, id, answers, now)[i])
           == StatusOf(Bundle(kinds, [], s, files, role, id, answers, now)[i])
    {
      assert Backed(log, PreviousAt(previous, i));
      ReusedIsFresh(log, PreviousAt(previous, i), kinds[i], s, files, provider, now);
    }
  }

  lemma {:induction false} SameErrors(a: seq<Option<Check>>, b: seq<Option<Check>>)
    requires SameStatuses(a, b)
    ensures ErrorsIn(a) == ErrorsIn(b)
  {
    if a != [] {
      var n := |a| - 1;
      assert StatusOf(a[n]) == StatusOf(b[n]);
      SameErrors(a[..n], b[..n]);
    }
  }

  lemma SameOverall(a: seq<Option<Check>>, b: seq<Option<Check>>, errors: nat)
    requires SameStatuses(a, b)
    ensures ComputeOverall(a, errors) == ComputeOverall(b, errors)
  {
    OverallDecided(a, b, errors);
    OverallDecided(b, a, errors);
  }

  lemma OverallDecided(a: seq<Option<Check>>, b: seq<Option<Check>>, errors: nat)
    requires SameStatuses(a, b)
    ensures (forall r | r in a :: r.None?) ==> forall r | r in b :: r.None?
    ensures (exists r | r in a :: IsDeclined(r)) ==> exists r | r in b :: IsDeclined(r)
    ensures (forall r | r in a :: IsApproved(r)) ==> forall r | r in b :: IsApproved(r)
  {
    forall r | r in b
      ensures exists q :: q in a && StatusOf(q) == StatusOf(r)
    {
      var i :| 0 <= i < |b| && b[i] == r;
      assert a[i] in a && StatusOf(a[i]) == StatusOf(r);
    }
    if exists r | r in a :: IsDeclined(r) {
      var r :| r in a && IsDeclined(r);
      var i :| 0 <= i < |a| && a[i] == r;
      assert StatusOf(a[i]) == StatusOf(b[i]);
      assert b[i] in b && IsDeclined(b[i]);
    }
  }

  lemma {:induction false} SameAllChecks(a: seq<KeyPerson>, b: seq<KeyPerson>)
    requires SamePeople(a, b)
    ensures SameStatuses(AllChecks(a), AllChecks(b)) && OwnErrors(a) == OwnErrors(b)
  {
    if a != [] {
      var n := |a| - 1;
      SameAllChecks(a[..n], b[..n]);
      SameErrors(a[n].checks, b[n].checks);
    }
  }

  lemma RepresentativeIsFresh(
      log: set<Made>, previous: Option<Verdict>, primary: Option<DirectorData>, files: map<nat, File>,
      answers: Slot -> Answer, provider: Call -> Answer, now: int)
    requires Insensitive(provider) && LogExplained(log, provider, files) && PreviousBacked(log, previous)
    requires primary.Some? ==> Asked(provider, files, answers, Director, primary.value.id, primary.value.subject)
    ensures SameStatuses(Representative(previous, primary, files, answers, now),
                         Representative(None, primary, files, answers, now))
  {
    if primary.Some? {
      var d := primary.value;
      PreviousForBacked(log, PreviousPeople(previous), Director, d.id);
      BundleIsFresh(log, PERSON_KINDS, PreviousFor(PreviousPeople(previous), Director, d.id), d.subject, files, Director,
                    d.id, answers, provider, now);
    }
  }

  lemma {:induction false} OwnerIsFresh(
      log: set<Made>, previous: Option<Verdict>, primary: Option<DirectorData>, a: seq<Option<Check>>,
      b: seq<Option<Check>>, o: OwnerData, files: map<nat, File>, answers: Slot -> Answer, provider: Call -> Answer, now: int)
    requires Insensitive(provider) && LogExplained(log, provider, files) && PreviousBacked(log, previous)
    requires Asked(provider, files, answers, Owner, o.id, o.subject) && SameStatuses(a, b)
    ensures SameStatuses(OwnerEntry(previous, primary, a, o, files, answers, now).checks,
                         OwnerEntry(None, primary, b, o, files, answers, now).checks)
  {
    if !IsDirector(primary, o) {
      PreviousForBacked(log, PreviousPeople(previous), Owner, o.id);
      BundleIsFresh(log, PERSON_KINDS, PreviousFor(PreviousPeople(previous), Owner, o.id), o.subject, files, Owner, o.id,
                    answers, provider, now);
    }
  }

  lemma {:induction false} OwnersAreFresh(
      log: set<Made>, previous: Option<Verdict>, primary: Option<DirectorData>, a: seq<Option<Check>>,
      b: seq<Option<Check>>, owners: seq<OwnerData>, files: map<nat, File>, answers: Slot -> Answer,
      provider: Call -> Answer, now: int)
    requires Insensitive(provider) && LogExplained(log, provider, files) && PreviousBacked(log, previous)
    requires SameStatuses(a, b) && forall o | o in owners :: Asked(provider, files, answers, Owner, o.id, o.subject)
    ensures SamePeople(OwnerEntries(previous, primary, a, owners, files, answers, now),
                       OwnerEntries(None, primary, b, owners, files, answers, now))
  {
    if owners != [] {
      var n := |owners| - 1;
      OwnersAreFresh(log, previous, primary, a, b, owners[..n], files, answers, provider, now);
      OwnerIsFresh(log, previous, primary, a, b, owners[n], files, answers, provider, now);
    }
  }

  lemma {:induction false} PrimaryIsDirector(directors: seq<DirectorData>)
    ensures FirstSigner(directors).Some? ==> FirstSigner(directors).value in directors
    ensures PrimaryDirector(directors).Some? ==> PrimaryDirector(directors).value in directors
  {
    if directors != [] {
      PrimaryIsDirector(directors[1..]);
    }
  }

  lemma {:induction false} SameTotals(
      main: seq<Option<Check>>, main': seq<Option<Check>>, a: seq<Option<Check>>, b: seq<Option<Check>>,
      entries: seq<KeyPerson>, entries': seq<KeyPerson>)
    requires SameStatuses(main, main') && SameStatuses(a, b) && SamePeople(entries, entries')
    ensures
      var errors := ErrorsIn(main) + ErrorsIn(a) + OwnErrors(entries);
      && errors == ErrorsIn(main') + ErrorsIn(b) + OwnErrors(entries')
      && ComputeOverall(main + a + AllChecks(entries), errors) == ComputeOverall(main' + b + AllChecks(entries'), errors)
  {
    SameErrors(main, main');
    SameErrors(a, b);
    SameAllChecks(entries, entries');
    SameOverall(main + a + AllChecks(entries), main' + b + AllChecks(entries'),
                ErrorsIn(main) + ErrorsIn(a) + OwnErrors(entries));
  }

  lemma SamePeopleCons(p: KeyPerson, q: KeyPerson, a: seq<KeyPerson>, b: seq<KeyPerson>)
    requires p.role == q.role && p.id == q.id && p.samePersonAs == q.samePersonAs && SameStatuses(p.checks, q.checks)
    requires SamePeople(a, b)
    ensures SamePeople([p] + a, [q] + b)
  {
  }

  lemma {:induction false} KybPeopleAreFresh(
      log: set<Made>, previous: Option<Verdict>, directors: seq<DirectorData>, owners: seq<OwnerData>,
      files: map<nat, File>, answers: Slot -> Answer, provider: Call -> Answer, now: int)
    requires Insensitive(provider) && LogExplained(log, provider, files) && PreviousBacked(log, previous)
    requires forall d | d in directors :: Asked(provider, files, answers, Director, d.id, d.subject)
    requires forall o | o in owners :: Asked(provider, files, answers, Owner, o.id, o.subject)
    ensures
      var primary := PrimaryDirector(directors);
      var a, b := Representative(previous, primary, files, answers, now), Representative(None, primary, files, answers, now);
      && SameStatuses(a, b)
      && SamePeople(OwnerEntries(previous, primary, a, owners, files, answers, now),
                    OwnerEntries(None, primary, b, owners, files, answers, now))
  {
    PrimaryIsDirector(directors);
    var primary := PrimaryDirector(directors);
    RepresentativeIsFresh(log, previous, primary, files, answers, provider, now);
    OwnersAreFresh(log, previous, primary, Representative(previous, primary, files, answers, now),
                   Representative(None, primary, files, answers, now), owners, files, answers, provider, now);
  }

  lemma {:induction false} KybIsFresh(
      log: set<Made>, previous: Option<Verdict>, company: Subject, directors: seq<DirectorData>, owners: seq<OwnerData>,
      files: map<nat, File>, answers: Slot -> Answer, provider: Call -> Answer, now: int)
    requires Insensitive(provider) && LogExplained(log, provider, files) && PreviousBacked(log, previous)
    requires InputAsked(provider, files, answers, KybInput(company, directors, owners))
    ensures SameVerdict(KybVerdict(previous, company, directors, owners, files, answers, now),
                        KybVerdict(None, company, directors, owners, files, answers, now))
  {
    BundleIsFresh(log, COMPANY_KINDS, PreviousMain(previous), company, files, Company, "", answers, provider, now);
    KybPeopleAreFresh(log, previous, directors, owners, files, answers, provider, now);
    var primary := PrimaryDirector(directors);
    var a, b := Representative(previous, primary, files, answers, now), Representative(None, primary, files, answers, now);
    var entries := OwnerEntries(previous, primary, a, owners, files, answers, now);
    var entries' := OwnerEntries(None, primary, b, owners, files, answers, now);
    KybShape(previous, company, directors, owners, files, answers, now);
    KybShape(None, company, directors, owners, files, answers, now);
    PartsDecideVerdict(KybVerdict(previous, company, directors, owners, files, answers, now),
                       KybVerdict(None, company, directors, owners, files, answers, now), primary, entries, entries');
  }

  lemma {:induction false} PartsDecideVerdict(
      v: Verdict, w: Verdict, primary: Option<DirectorData>, entries: seq<KeyPerson>, entries': seq<KeyPerson>)
    requires SameStatuses(v.main, w.main) && SameStatuses(v.representative, w.representative) && SamePeople(entries, entries')
    requires v.errors == ErrorsIn(v.main) + ErrorsIn(v.representative) + OwnErrors(entries)
    requires w.errors == ErrorsIn(w.main) + ErrorsIn(w.representative) + OwnErrors(entries')
    requires v.overall == ComputeOverall(v.main + v.representative + AllChecks(entries), v.errors)
    requires w.overall == ComputeOverall(w.main + w.representative + AllChecks(entries'), w.errors)
    requires primary.None? ==> v.people == entries && w.people == entries'
    requires primary.Some? ==>
               && v.people == [KeyPerson(Director, primary.value.id, None, v.representative)] + entries
               && w.people == [KeyPerson(Director, primary.value.id, None, w.representative)] + entries'
    ensures SameVerdict(v, w)
  {
    SameTotals(v.main, w.main, v.representative, w.representative, entries, entries');
    if primary.Some? {
      SamePeopleCons(KeyPerson(Director, primary.value.id, None, v.representative),
                     KeyPerson(Director, primary.value.id, None, w.representative), entries, entries');
    }
  }

  /** With a provider that depends only on its inputs, a run with reuse gives the verdict of a run without. */
  lemma {:induction false} RunIsFresh(
      log: set<Made>, previous: Option<Verdict>, input: Input, files: map<nat, File>, answers: Slot -> Answer,
      provider: Call -> Answer, now: int)
    requires Insensitive(provider) && LogExplained(log, provider, files) && PreviousBacked(log, previous)
    requires InputAsked(provider, files, answers, input)
    ensures SameVerdict(VerdictOf(previous, input, files, answers, now), VerdictOf(None, input, files, answers, now))
  {
    match input
    case KycInput(s) =>
      BundleIsFresh(log, APPLICANT_KINDS, PreviousMain(previous), s, files, Applicant, "", answers, provider, now);
      var a, b := Bundle(APPLICANT_KINDS, PreviousMain(previous), s, files, Applicant, "", answers, now),
                  Bundle(APPLICANT_KINDS, [], s, files, Applicant, "", answers, now);
      SameErrors(a, b);
      SameOverall(a, b, ErrorsIn(a));
    case KybInput(company, directors, owners) =>
      KybIsFresh(log, previous, company, directors, owners, files, answers, provider, now);
  }

  // ---- Sequences of runs ----

  /** `inFlight` holds the applications being verified, with the verdict each run found. */
  datatype State = State(verdicts: map<string, Verdict>, inFlight: map<string, Option<Verdict>>, log: set<Made>)

  datatype Op =
    | Start(app: string, force: bool)
    | Abort(app: string)
    | Finish(app: string, input: Input, files: map<nat, File>, answers: Slot -> Answer, now: int, persists: bool)

  function Stored(s: State, app: string): Option<Verdict> {
    if app in s.verdicts then Some(s.verdicts[app]) else None
  }

  /** A second run of an application in flight is refused; an existing verdict is returned unless the run is forced. */
  function Step(s: State, op: Op): State {
    match op
    case Start(app, force) =>
      if app in s.inFlight || (app in s.verdicts && !force) then s
      else s.(inFlight := s.inFlight[app := Stored(s, app)])
    case Abort(app) => s.(inFlight := s.inFlight - {app})
    case Finish(app, input, files, answers, now, persists) =>
      if app !in s.inFlight then s
      else
        var previous := s.inFlight[app];
        var v := VerdictOf(previous, input, files, answers, now);
        State(if persists then s.verdicts[app := v] else s.verdicts, s.inFlight - {app},
              s.log + CallsOf(previous, input, files, answers, now))
  }

  /** A run begins unless one is under way or, when it is not forced, a verdict is there; it remembers that verdict. */
  lemma StartIs(s: State, app: string, force: bool)
    ensures
      var s' := Step(s, Start(app, force));
      && s'.verdicts == s.verdicts && s'.log == s.log
      && s'.inFlight == if app !in s.inFlight && (force || app !in s.verdicts)
                        then s.inFlight[app := if app in s.verdicts then Some(s.verdicts[app]) else None] else s.inFlight
  {
  }

  ghost predicate Inv(s: State) {
    && (forall app | app in s.verdicts :: VerdictBacked(s.log, s.verdicts[app]))
    && (forall app | app in s.inFlight :: s.inFlight[app] == Stored(s, app))
  }

  lemma BackedMonotone(log: set<Made>, more: set<Made>, checks: seq<Option<Check>>)
    requires AllBacked(log, checks) && log <= more
    ensures AllBacked(more, checks)
  {
    assert forall i | 0 <= i < |checks| :: Backed(log, checks[i]);
  }

  lemma VerdictBackedMonotone(log: set<Made>, more: set<Made>, v: Verdict)
    requires VerdictBacked(log, v) && log <= more
    ensures VerdictBacked(more, v)
  {
    BackedMonotone(log, more, v.main);
    BackedMonotone(log, more, v.representative);
    forall i | 0 <= i < |v.people|
      ensures AllBacked(more, v.people[i].checks)
    {
      BackedMonotone(log, more, v.people[i].checks);
    }
  }

  /** What a finished run stores is backed by the calls made until then. */
  lemma {:induction false} FinishIsBacked(
      log: set<Made>, previous: Option<Verdict>, input: Input, files: map<nat, File>, answers: Slot -> Answer, now: int)
    requires PreviousBacked(log, previous)
    ensures VerdictBacked(log + CallsOf(previous, input, files, answers, now), VerdictOf(previous, input, files, answers, now))
  {
    VerdictIsVerified(log, previous, input, files, answers, now);
    VerifiedVerdictBacked(log + CallsOf(previous, input, files, answers, now),
                          VerdictOf(previous, input, files, answers, now), input, now);
  }

  /** Ending a run keeps the invariant, whether its verdict is stored or not. */
  lemma {:induction false} EndKeepsInv(s: State, app: string, v: Verdict, calls: set<Made>, persists: bool)
    requires Inv(s) && VerdictBacked(s.log + calls, v)
    ensures Inv(State(if persists then s.verdicts[app := v] else s.verdicts, s.inFlight - {app}, s.log + calls))
  {
    forall other | other in s.verdicts
      ensures VerdictBacked(s.log + calls, s.verdicts[other])
    {
      VerdictBackedMonotone(s.log, s.log + calls, s.verdicts[other]);
    }
  }

  lemma {:induction false} StepKeepsInv(s: State, op: Op)
    requires Inv(s)
    ensures Inv(Step(s, op)) && s.log <= Step(s, op).log
  {
    match op
    case Finish(app, input, files, answers, now, persists) =>
      if app in s.inFlight {
        var previous := s.inFlight[app];
        FinishIsBacked(s.log, previous, input, files, answers, now);
        EndKeepsInv(s, app, VerdictOf(previous, input, files, answers, now),
                    CallsOf(previous, input, files, answers, now), persists);
      }
    case _ =>
  }

  const EMPTY := State(map[], map[], {})

  function Run(ops: seq<Op>): State {
    if |ops| == 0 then EMPTY else Step(Run(ops[..|ops| - 1]), ops[|ops| - 1])
  }

  lemma {:induction false} RunKeepsInv(ops: seq<Op>)
    ensures Inv(Run(ops))
  {
    if |ops| != 0 {
      RunKeepsInv(ops[..|ops| - 1]);
      StepKeepsInv(Run(ops[..|ops| - 1]), ops[|ops| - 1]);
    }
  }

  /**
   * However runs and applications interleave and whatever fails to be stored, each finishing run builds on the verdict
   * stored right then, and every approval in its verdict comes from a real call on the current inputs, at most thirty
   * days old, however often it was reused since.
   */
  lemma {:induction false} ReuseIsSound(ops: seq<Op>, i: nat)
    requires i < |ops| && ops[i].Finish? && ops[i].app in Run(ops[..i]).inFlight
    ensures
      var s, op := Run(ops[..i]), ops[i];
      var v := VerdictOf(s.inFlight[op.app], op.input, op.files, op.answers, op.now);
      && s.inFlight[op.app] == Stored(s, op.app)
      && v.runCount == RunCount(Stored(s, op.app)) + 1
      && Run(ops[..i + 1]).log == s.log + CallsOf(Stored(s, op.app), op.input, op.files, op.answers, op.now)
      && VerdictVerified(Run(ops[..i + 1]).log, v, op.input, op.now)
  {
    var s, op := Run(ops[..i]), ops[i];
    assert ops[..i + 1][..i] == ops[..i];
    RunKeepsInv(ops[..i]);
    VerdictIsVerified(s.log, s.inFlight[op.app], op.input, op.files, op.answers, op.now);
  }

  /** All runs of the sequence ask the same provider, and the stored objects stay as they are. */
  ghost predicate SameProvider(ops: seq<Op>, provider: Call -> Answer, files: map<nat, File>) {
    forall i | 0 <= i < |ops| && ops[i].Finish? ::
      ops[i].files == files && InputAsked(provider, files, ops[i].answers, ops[i].input)
  }

  lemma CallsExplained(
      kinds: seq<Kind>, previous: seq<Option<Check>>, s: Subject, files: map<nat, File>, role: Role, id: string,
      answers: Slot -> Answer, provider: Call -> Answer, now: int)
    requires Asked(provider, files, answers, role, id, s)
    ensures LogExplained(Calls(kinds, previous, s, files, role, id, answers, now), provider, files)
  {
    forall m | m in Calls(kinds, previous, s, files, role, id, answers, now)
      ensures Explained(m, provider, files)
    {
      var i :| 0 <= i < |kinds| && !CallFor(kinds[i], s, files).Skip? && answers(Slot(role, id, kinds[i])).Got?
               && m == Made(FingerprintOf(kinds[i], s), now, answers(Slot(role, id, kinds[i])).status);
      assert Says(provider, files, kinds[i], s, m.status);
    }
  }

  lemma {:induction false} OwnerCallsExplained(
      previous: Option<Verdict>, primary: Option<DirectorData>, owners: seq<OwnerData>, files: map<nat, File>,
      answers: Slot -> Answer, provider: Call -> Answer, now: int)
    requires forall o | o in owners :: Asked(provider, files, answers, Owner, o.id, o.subject)
    ensures LogExplained(OwnerCalls(previous, primary, owners, files, answers, now), provider, files)
  {
    if owners != [] {
      var n := |owners| - 1;
      var o := owners[n];
      OwnerCallsExplained(previous, primary, owners[..n], files, answers, provider, now);
      CallsExplained(PERSON_KINDS, PreviousFor(PreviousPeople(previous), Owner, o.id), o.subject, files, Owner, o.id,
                     answers, provider, now);
    }
  }

  lemma InputCallsExplained(
      previous: Option<Verdict>, input: Input, files: map<nat, File>, answers: Slot -> Answer, provider: Call -> Answer, now: int)
    requires InputAsked(provider, files, answers, input)
    ensures LogExplained(CallsOf(previous, input, files, answers, now), provider, files)
  {
    match input
    case KycInput(s) =>
      CallsExplained(APPLICANT_KINDS, PreviousMain(previous), s, files, Applicant, "", answers, provider, now);
    case KybInput(company, directors, owners) =>
      PrimaryIsDirector(directors);
      var primary := PrimaryDirector(directors);
      CallsExplained(COMPANY_KINDS, PreviousMain(previous), company, files, Company, "", answers, provider, now);
      if primary.Some? {
        var d := primary.value;
        CallsExplained(PERSON_KINDS, PreviousFor(PreviousPeople(previous), Director, d.id), d.subject, files, Director,
                       d.id, answers, provider, now);
      }
      OwnerCallsExplained(previous, primary, owners, files, answers, provider, now);
  }

  lemma {:induction false} RunLogExplained(ops: seq<Op>, provider: Call -> Answer, files: map<nat, File>)
    requires SameProvider(ops, provider, files)
    ensures LogExplained(Run(ops).log, provider, files)
  {
    if |ops| != 0 {
      var n := |ops| - 1;
      RunLogExplained(ops[..n], provider, files);
      var s, op := Run(ops[..n]), ops[n];
      if op.Finish? && op.app in s.inFlight {
        InputCallsExplained(s.inFlight[op.app], op.input, files, op.answers, provider, op.now);
      }
    }
  }

  /** In every sequence of runs against one such provider, reuse never changes a verdict. */
  lemma {:induction false} ReuseChangesNothing(ops: seq<Op>, i: nat, provider: Call -> Answer, files: map<nat, File>)
    requires Insensitive(provider) && SameProvider(ops, provider, files)
    requires i < |ops| && ops[i].Finish? && ops[i].app in Run(ops[..i]).inFlight
    ensures
      var s, op := Run(ops[..i]), ops[i];
      SameVerdict(VerdictOf(s.inFlight[op.app], op.input, files, op.answers, op.now),
                  VerdictOf(None, op.input, files, op.answers, op.now))
  {
    var s, op := Run(ops[..i]), ops[i];
    forall j | 0 <= j < i && ops[..i][j].Finish?
      ensures ops[..i][j].files == files && InputAsked(provider, files, ops[..i][j].answers, ops[..i][j].input)
    {
      assert ops[..i][j] == ops[j];
    }
    RunKeepsInv(ops[..i]);
    RunLogExplained(ops[..i], provider, files);
    RunIsFresh(s.log, s.inFlight[op.app], op.input, files, op.answers, provider, op.now);
  }

  lemma OwnerEntriesSnoc(
      previous: Option<Verdict>, primary: Option<DirectorData>, representative: seq<Option<Check>>, owners: seq<OwnerData>,
      i: nat, files: map<nat, File>, answers: Slot -> Answer, now: int)
    requires i < |owners|
    ensures OwnerEntries(previous, primary, representative, owners[..i + 1], files, answers, now)
         == OwnerEntries(previous, primary, representative, owners[..i], files, answers, now)
            + [OwnerEntry(previous, primary, representative, owners[i], files, answers, now)]
  {
    assert owners[..i + 1][..i] == owners[..i];
  }

  // ---- The service ----

  datatype RunError = AlreadyRunning | NotFound

  datatype Outcome = Outcome(verdict: Verdict, reused: bool)

  class DiditVerificationService {
    var inFlight: set<string>
    var verdicts: map<string, Verdict>

    constructor ()
      ensures inFlight == {} && verdicts == map[]
    {
      inFlight, verdicts := {}, map[];
    }

    /** One entry per owner, and the errors that are their own. */
    method BuildOwnerEntries(
        previous: Option<Verdict>, primary: Option<DirectorData>, representative: seq<Option<Check>>,
        owners: seq<OwnerData>, files: map<nat, File>, answers: Slot -> Answer, now: int)
      returns (entries: seq<KeyPerson>, errors: nat)
      ensures entries == OwnerEntries(previous, primary, representative, owners, files, answers, now)
      ensures errors == OwnErrors(entries)
    {
      entries, errors := [], 0;
      for i := 0 to |owners|
        invariant entries == OwnerEntries(previous, primary, representative, owners[..i], files, answers, now)
        invariant errors == OwnErrors(entries)
      {
        var entry := OwnerEntry(previous, primary, representative, owners[i], files, answers, now);
        OwnerEntriesSnoc(previous, primary, representative, owners, i, files, answers, now);
        if entry.samePersonAs.None? {
          errors := errors + ErrorsIn(entry.checks);
        }
        entries := entries + [entry];
      }
      assert owners[..|owners|] == owners;
    }

    /** The verdict over company, main director and owners, with the errors collected on the way. */
    method BuildKybVerdict(
        previous: Option<Verdict>, company: Subject, directors: seq<DirectorData>, owners: seq<OwnerData>,
        files: map<nat, File>, answers: Slot -> Answer, now: int)
      returns (v: Verdict)
      ensures v == KybVerdict(previous, company, directors, owners, files, answers, now)
    {
      var primary := PrimaryDirector(directors);
      var main := Bundle(COMPANY_KINDS, PreviousMain(previous), company, files, Company, "", answers, now);
      var representative := Representative(previous, primary, files, answers, now);
      var errors := ErrorsIn(main) + ErrorsIn(representative);
      var people: seq<KeyPerson> := [];
      if primary.Some? {
        people := [KeyPerson(Director, primary.value.id, None, representative)];
      }
      var entries, ownErrors := BuildOwnerEntries(previous, primary, representative, owners, files, answers, now);
      errors := errors + ownErrors;
      people := people + entries;
      return Verdict(ComputeOverall(main + representative + AllChecks(entries), errors), RunCount(previous) + 1, main,
                     representative, people, errors);
    }

    /** `input` is what was read of the application, or None when some of it is missing. */
    method RunForReview(
        app: string, force: bool, input: Option<Input>, files: map<nat, File>, answers: Slot -> Answer, now: int,
        persists: bool)
      returns (r: Result<Outcome, RunError>)
      modifies this
      ensures inFlight == old(inFlight)
      ensures r == Err(AlreadyRunning) <==> app in old(inFlight)
      ensures r == Err(NotFound) <==> app !in old(inFlight) && (force || app !in old(verdicts)) && input.None?
      ensures r.Err? ==> verdicts == old(verdicts)
      ensures r.Ok? && r.value.reused ==>
                !force && app in old(verdicts) && r.value.verdict == old(verdicts)[app] && verdicts == old(verdicts)
      ensures r.Ok? && !r.value.reused ==>
                var previous := if app in old(verdicts) then Some(old(verdicts)[app]) else None;
                && (force || previous.None?) && input.Some?
                && r.value.verdict == VerdictOf(previous, input.value, files, answers, now)
                && verdicts == if persists then old(verdicts)[app := r.value.verdict] else old(verdicts)
    {
      if app in inFlight {
        return Err(AlreadyRunning);
      }
      ghost var others := inFlight;
      inFlight := inFlight + {app};
      var previous := if app in verdicts then Some(verdicts[app]) else None;
      if previous.Some? && !force {
        r := Ok(Outcome(previous.value, true));
      } else if input.None? {
        r := Err(NotFound);
      } else {
        var v;
        match input.value {
          case KycInput(s) => v := KycVerdict(previous, s, files, answers, now);
          case KybInput(company, directors, owners) =>
            v := BuildKybVerdict(previous, company, directors, owners, files, answers, now);
        }
        if persists {
          verdicts := verdicts[app := v];
        }
        r := Ok(Outcome(v, false));
      }
      inFlight := inFlight - {app};
      assert inFlight == others;
    }
  }
}
