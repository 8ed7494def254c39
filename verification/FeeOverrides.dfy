/** Which fee applies to an operation: a client's own rule where one is in force, the global one otherwise. */
module FeeOverrides {
  import opened Wrappers
  import opened Text
  import opened Rounding
  import opened Sequences
  import opened FeeRules

  /** `user` is None in a global rule. Dates are days, both bounds inclusive. */
  datatype Key = Key(user: Option<string>, operation: string, rail: string, currency: string)

  datatype Row = Row(
    id: nat, key: Key, rule: FeeRule, active: bool, validFrom: Option<int>, validUntil: Option<int>)

  datatype State = State(overrides: seq<Row>, globals: seq<Row>, nextId: nat)

  function KeyOf(user: Option<string>, operation: string, rail: string, currency: string): Key {
    Key(user, operation, Lower(rail), Lower(currency))
  }

  /** maybeSingle: nothing when no row or several rows match. */
  function Single(rows: seq<Row>): Option<Row> {
    if |rows| == 1 then Some(rows[0]) else None
  }

  predicate ActiveAt(r: Row, key: Key) {
    r.active && r.key == key
  }

  predicate InForce(r: Row, key: Key, today: int) {
    && ActiveAt(r, key)
    && (r.validFrom.Some? ==> r.validFrom.value <= today) && (r.validUntil.Some? ==> today <= r.validUntil.value)
  }

  function ActiveQuery(key: Key): Row -> bool {
    (r: Row) => ActiveAt(r, key)
  }

  function InForceQuery(key: Key, today: int): Row -> bool {
    (r: Row) => InForce(r, key, today)
  }

  // ---- Resolution ----

  datatype Resolved = Resolved(rule: FeeRule, isOverride: bool)

  function Resolve(s: State, user: string, operation: string, rail: string, currency: string, today: int): Option<Resolved> {
    var own := Single(Filter(s.overrides, InForceQuery(KeyOf(Some(user), operation, rail, currency), today)));
    if own.Some? then Some(Resolved(own.value.rule, true))
    else
      var global := Single(Filter(s.globals, ActiveQuery(KeyOf(None, operation, rail, currency))));
      if global.Some? then Some(Resolved(global.value.rule, false)) else None
  }

  // ---- Changing overrides ----

  datatype Error = Conflict | NotFound

  function Create(s: State, key: Key, rule: FeeRule, validFrom: Option<int>, validUntil: Option<int>, today: int)
    : (State, Option<Error>)
  {
    var k := key.(rail := Lower(key.rail), currency := Lower(key.currency));
    if Single(Filter(s.overrides, ActiveQuery(k))).Some? then (s, Some(Conflict))
    else
      var row := Row(s.nextId, k, rule, true, Some(if validFrom.Some? then validFrom.value else today), validUntil);
      (State(s.overrides + [row], s.globals, s.nextId + 1), None)
  }

  /** `rule` is the rule after the update; `active` and `validUntil` are None when the request leaves them alone. */
  datatype Patch = Patch(rule: FeeRule, active: Option<bool>, validUntil: Option<int>)

  function Patched(r: Row, patch: Patch): Row {
    r.(rule := patch.rule, active := if patch.active.Some? then patch.active.value else r.active,
       validUntil := if patch.validUntil.Some? then patch.validUntil else r.validUntil)
  }

  function FindId(rows: seq<Row>, id: nat): Option<nat> {
    if rows == [] then None
    else
      var n := |rows| - 1;
      if rows[n].id == id then Some(n) else FindId(rows[..n], id)
  }

  function OtherActive(key: Key, id: nat): Row -> bool {
    (r: Row) => ActiveAt(r, key) && r.id != id
  }

  function Update(s: State, id: nat, patch: Patch): (State, Option<Error>) {
    var found := FindId(s.overrides, id);
    if found.None? || found.value >= |s.overrides| then (s, Some(NotFound))
    else
      var r := s.overrides[found.value];
      if patch.active == Some(true) && !r.active && Single(Filter(s.overrides, OtherActive(r.key, id))).Some? then
        (s, Some(Conflict))
      else (s.(overrides := s.overrides[found.value := Patched(r, patch)]), None)
  }

  function Delete(s: State, id: nat): (State, Option<Error>) {
    var found := FindId(s.overrides, id);
    if found.None? || found.value >= |s.overrides| then (s, Some(NotFound))
    else (s.(overrides := s.overrides[..found.value] + s.overrides[found.value + 1..]), None)
  }

  function ForOperation(operation: string): Row -> bool {
    (r: Row) => r.key.operation == operation
  }

  function OwnKey(user: string, operation: string, global: Row): Key {
    KeyOf(Some(user), operation, global.key.rail, global.key.currency)
  }

  predicate HasOverride(overrides: seq<Row>, key: Key) {
    exists i | 0 <= i < |overrides| ::
      overrides[i].key.(rail := Lower(overrides[i].key.rail), currency := Lower(overrides[i].key.currency)) == key
  }

  function BlankRule(): FeeRule {
    FeeRule(Percent, 0.0, 0.0, 0.0, 0.0)
  }

  /** Global rows whose key had no override when the call began, one inactive override each, unless its insert fails. */
  function Init(
      s: State, before: seq<Row>, user: string, operation: string, rows: seq<Row>, failing: set<nat>, today: int)
    : (State, nat)
  {
    if rows == [] then (s, 0)
    else
      var n := |rows| - 1;
      var (mid, created) := Init(s, before, user, operation, rows[..n], failing, today);
      var key := OwnKey(user, operation, rows[n]);
      if HasOverride(before, key) || n in failing then (mid, created)
      else
        var row := Row(mid.nextId, key, BlankRule(), false, Some(today), None);
        (State(mid.overrides + [row], mid.globals, mid.nextId + 1), created + 1)
  }

  function InitOverrides(s: State, user: string, operation: string, failing: set<nat>, today: int): (State, Result<nat, Error>) {
    var rows := Filter(s.globals, ForOperation(operation));
    if rows == [] then (s, Err(NotFound))
    else
      var (s', created) := Init(s, s.overrides, user, operation, rows, failing, today);
      (s', Ok(created))
  }

  // ---- At most one active override per key ----

  ghost predicate AtMostOneActive(rows: seq<Row>) {
    forall i, j | 0 <= i < j < |rows| && rows[i].active && rows[j].active :: rows[i].key != rows[j].key
  }

  ghost predicate DistinctIds(rows: seq<Row>, nextId: nat) {
    && (forall i | 0 <= i < |rows| :: rows[i].id < nextId)
    && (forall i, j | 0 <= i < j < |rows| :: rows[i].id != rows[j].id)
  }

  ghost predicate Inv(s: State) {
    AtMostOneActive(s.overrides) && DistinctIds(s.overrides, s.nextId)
  }

  /** When no two rows match, the query finds the matching row or nothing. */
  lemma {:induction false} AtMostOneMatch(rows: seq<Row>, p: Row -> bool)
    requires forall i, j | 0 <= i < j < |rows| && p(rows[i]) :: !p(rows[j])
    ensures |Filter(rows, p)| <= 1
  {
    if rows != [] {
      AtMostOneMatch(rows[1..], p);
      if p(rows[0]) {
        FilterIs(rows[1..], p);
        if Filter(rows[1..], p) != [] {
          NoneAfterFirst(rows, p);
        }
      }
    }
  }

  lemma NoneAfterFirst(rows: seq<Row>, p: Row -> bool)
    requires rows != [] && p(rows[0]) && forall i, j | 0 <= i < j < |rows| && p(rows[i]) :: !p(rows[j])
    ensures Filter(rows[1..], p) == []
  {
    var rest := rows[1..];
    forall j | 0 <= j < |rest|
      ensures !p(rest[j])
    {
      assert rest[j] == rows[j + 1];
    }
    FilterNone(rest, p);
  }

  lemma SingleFinds(rows: seq<Row>, p: Row -> bool)
    requires forall i, j | 0 <= i < j < |rows| && p(rows[i]) :: !p(rows[j])
    ensures Single(Filter(rows, p)).Some? <==> exists r :: r in rows && p(r)
    ensures Single(Filter(rows, p)).Some? ==> Single(Filter(rows, p)).value in rows && p(Single(Filter(rows, p)).value)
  {
    AtMostOneMatch(rows, p);
    FilterIs(rows, p);
    if Filter(rows, p) != [] {
      assert Filter(rows, p)[0] in Filter(rows, p);
    }
  }

  lemma {:induction false} FindIdIs(rows: seq<Row>, id: nat)
    ensures FindId(rows, id).Some? ==> FindId(rows, id).value < |rows| && rows[FindId(rows, id).value].id == id
    ensures FindId(rows, id).None? ==> forall i | 0 <= i < |rows| :: rows[i].id != id
  {
    if rows != [] {
      FindIdIs(rows[..|rows| - 1], id);
    }
  }

  lemma CreateKeepsInv(s: State, key: Key, rule: FeeRule, validFrom: Option<int>, validUntil: Option<int>, today: int)
    requires Inv(s)
    ensures Inv(Create(s, key, rule, validFrom, validUntil, today).0)
  {
    SingleFinds(s.overrides, ActiveQuery(key.(rail := Lower(key.rail), currency := Lower(key.currency))));
    var s' := Create(s, key, rule, validFrom, validUntil, today).0;
    assert forall i | 0 <= i < |s.overrides| :: s.overrides[i] in s.overrides;
  }

  lemma UpdateKeepsInv(s: State, id: nat, patch: Patch)
    requires Inv(s)
    ensures Inv(Update(s, id, patch).0)
  {
    FindIdIs(s.overrides, id);
    if Update(s, id, patch).1.None? {
      var k := FindId(s.overrides, id).value;
      var r := s.overrides[k];
      SingleFinds(s.overrides, OtherActive(r.key, id));
      assert forall i | 0 <= i < |s.overrides| :: s.overrides[i] in s.overrides;
    }
  }

  lemma DeleteKeepsInv(s: State, id: nat)
    requires Inv(s)
    ensures Inv(Delete(s, id).0)
  {
    FindIdIs(s.overrides, id);
    if Delete(s, id).1.None? {
      var k := FindId(s.overrides, id).value;
      var rows := Delete(s, id).0.overrides;
      assert forall i | 0 <= i < |rows| :: rows[i] == s.overrides[if i < k then i else i + 1];
    }
  }

  // ---- What changing and removing an override does ----

  predicate HasId(rows: seq<Row>, id: nat) {
    exists i | 0 <= i < |rows| :: rows[i].id == id
  }

  function OtherId(id: nat): Row -> bool {
    (r: Row) => r.id != id
  }

  lemma {:induction false} FilterDropsOne(rows: seq<Row>, id: nat, k: nat)
    requires k < |rows| && rows[k].id == id && forall i | 0 <= i < |rows| && i != k :: rows[i].id != id
    ensures Filter(rows, OtherId(id)) == rows[..k] + rows[k + 1..]
  {
    if k == 0 {
      FilterAll(rows[1..], OtherId(id));
    } else {
      FilterDropsOne(rows[1..], id, k - 1);
      assert rows[..k] + rows[k + 1..] == [rows[0]] + (rows[1..][..k - 1] + rows[1..][k..]);
    }
  }

  /** A deletion removes the row with this id and no other, in the order the rows stood; it fails only for want of one. */
  lemma DeleteEffect(s: State, id: nat)
    requires Inv(s)
    ensures
      var (s', error) := Delete(s, id);
      && s' == s.(overrides := Filter(s.overrides, OtherId(id)))
      && error == (if HasId(s.overrides, id) then None else Some(NotFound))
      && !HasId(s'.overrides, id)
      && forall r | r in s.overrides && r.id != id :: r in s'.overrides
  {
    FindIdIs(s.overrides, id);
    FilterIs(s.overrides, OtherId(id));
    if FindId(s.overrides, id).Some? {
      FilterDropsOne(s.overrides, id, FindId(s.overrides, id).value);
    } else {
      FilterAll(s.overrides, OtherId(id));
    }
    var rows := Filter(s.overrides, OtherId(id));
    forall i | 0 <= i < |rows|
      ensures rows[i].id != id
    {
      assert rows[i] in rows;
    }
  }

  /** The row with this id is inactive, is to become active, and another row of its key is active. */
  predicate Contested(rows: seq<Row>, id: nat, patch: Patch) {
    && patch.active == Some(true)
    && exists i, j | 0 <= i < |rows| && 0 <= j < |rows| ::
         rows[i].id == id && !rows[i].active && rows[j].active && rows[j].key == rows[i].key
  }

  /** Row `r` after the patch: what it is about and since when stay, and what the patch leaves out. */
  predicate IsPatched(r: Row, r': Row, patch: Patch) {
    && r'.id == r.id && r'.key == r.key && r'.validFrom == r.validFrom && r'.rule == patch.rule
    && (r'.active <==> patch.active == Some(true) || (patch.active.None? && r.active))
    && (r'.validUntil == patch.validUntil || (patch.validUntil.None? && r'.validUntil == r.validUntil))
  }

  lemma ContestedIff(s: State, id: nat, patch: Patch, k: nat)
    requires Inv(s) && k < |s.overrides| && s.overrides[k].id == id
    ensures
      var r := s.overrides[k];
      Contested(s.overrides, id, patch)
      <==> patch.active == Some(true) && !r.active && Single(Filter(s.overrides, OtherActive(r.key, id))).Some?
  {
    var r := s.overrides[k];
    SingleFinds(s.overrides, OtherActive(r.key, id));
    if Contested(s.overrides, id, patch) {
      var i, j :| 0 <= i < |s.overrides| && 0 <= j < |s.overrides| && s.overrides[i].id == id && !s.overrides[i].active
                  && s.overrides[j].active && s.overrides[j].key == s.overrides[i].key;
      assert i == k && j != k;
      assert s.overrides[j] in s.overrides && OtherActive(r.key, id)(s.overrides[j]);
    }
  }

  /** An update patches the row with this id and no other; it fails exactly for want of it or when it is contested. */
  lemma UpdateEffect(s: State, id: nat, patch: Patch)
    requires Inv(s)
    ensures
      var (s', error) := Update(s, id, patch);
      && error == (if !HasId(s.overrides, id) then Some(NotFound)
                   else if Contested(s.overrides, id, patch) then Some(Conflict) else None)
      && (error.Some? ==> s' == s)
      && s' == s.(overrides := s'.overrides) && |s'.overrides| == |s.overrides|
      && forall i | 0 <= i < |s.overrides| ::
           if s.overrides[i].id == id && error.None? then IsPatched(s.overrides[i], s'.overrides[i], patch)
           else s'.overrides[i] == s.overrides[i]
  {
    FindIdIs(s.overrides, id);
    if FindId(s.overrides, id).Some? {
      ContestedIff(s, id, patch, FindId(s.overrides, id).value);
    }
  }

  lemma {:induction false} InitKeepsInv(
      s: State, before: seq<Row>, user: string, operation: string, rows: seq<Row>, failing: set<nat>, today: int)
    requires Inv(s)
    ensures
      var s' := Init(s, before, user, operation, rows, failing, today).0;
      Inv(s') && s.overrides <= s'.overrides && s'.globals == s.globals
  {
    if rows != [] {
      InitKeepsInv(s, before, user, operation, rows[..|rows| - 1], failing, today);
    }
  }

  // ---- Runs ----

  datatype Op =
    | CreateOp(key: Key, rule: FeeRule, validFrom: Option<int>, validUntil: Option<int>)
    | UpdateOp(id: nat, patch: Patch)
    | DeleteOp(id: nat)
    | InitOp(user: string, operation: string, failing: set<nat>)

  function Step(s: State, op: Op, today: int): State {
    match op
    case CreateOp(key, rule, validFrom, validUntil) => Create(s, key, rule, validFrom, validUntil, today).0
    case UpdateOp(id, patch) => Update(s, id, patch).0
    case DeleteOp(id) => Delete(s, id).0
    case InitOp(user, operation, failing) => InitOverrides(s, user, operation, failing, today).0
  }

  function Run(s: State, ops: seq<(Op, int)>): State {
    if ops == [] then s else Step(Run(s, ops[..|ops| - 1]), ops[|ops| - 1].0, ops[|ops| - 1].1)
  }

  lemma RunSnoc(s: State, ops: seq<(Op, int)>, op: Op, today: int)
    ensures Run(s, []) == s && Run(s, ops + [(op, today)]) == Step(Run(s, ops), op, today)
  {
    assert (ops + [(op, today)])[..|ops|] == ops;
  }

  /** The calls' own checks are enough: no run gives a client two active overrides for one operation, rail and currency. */
  lemma {:induction false} RunKeepsInv(s: State, ops: seq<(Op, int)>)
    requires Inv(s)
    ensures Inv(Run(s, ops)) && Run(s, ops).globals == s.globals
  {
    if ops != [] {
      var n := |ops| - 1;
      RunKeepsInv(s, ops[..n]);
      var mid := Run(s, ops[..n]);
      match ops[n].0
      case CreateOp(key, rule, validFrom, validUntil) => CreateKeepsInv(mid, key, rule, validFrom, validUntil, ops[n].1);
      case UpdateOp(id, patch) => UpdateKeepsInv(mid, id, patch);
      case DeleteOp(id) => DeleteKeepsInv(mid, id);
      case InitOp(user, operation, failing) =>
        InitKeepsInv(mid, mid.overrides, user, operation, Filter(mid.globals, ForOperation(operation)), failing, ops[n].1);
    }
  }

  /** The row is active and about this operation, rail and currency, in whatever letters those are asked for. */
  predicate IsFor(r: Row, user: Option<string>, operation: string, rail: string, currency: string) {
    && r.active && r.key.user == user && r.key.operation == operation && r.key.rail == Lower(rail)
    && r.key.currency == Lower(currency)
  }

  /** From the first to the last day, both included, as far as they are given. */
  predicate Within(r: Row, today: int) {
    (r.validFrom == None || r.validFrom.value <= today) && (r.validUntil == None || today <= r.validUntil.value)
  }

  lemma InForceIff(r: Row, user: Option<string>, operation: string, rail: string, currency: string, today: int)
    ensures ActiveAt(r, KeyOf(user, operation, rail, currency)) <==> IsFor(r, user, operation, rail, currency)
    ensures InForce(r, KeyOf(user, operation, rail, currency), today) <==>
            IsFor(r, user, operation, rail, currency) && Within(r, today)
  {
  }

  /**
   * In every reachable state the rule that applies is the client's override in force, if there is one, else the active
   * global rule, if there is one; only when there is neither does an operation go free of charge.
   */
  lemma ResolutionIs(s: State, ops: seq<(Op, int)>, user: string, operation: string, rail: string, currency: string, today: int)
    requires Inv(s) && AtMostOneActive(s.globals)
    ensures
      var now := Run(s, ops);
      var rule := Resolve(now, user, operation, rail, currency, today);
      var own := (r: Row) => IsFor(r, Some(user), operation, rail, currency) && Within(r, today);
      var shared := (g: Row) => IsFor(g, None, operation, rail, currency);
      && (forall r | r in now.overrides && own(r) :: rule == Some(Resolved(r.rule, true)))
      && ((forall r | r in now.overrides :: !own(r)) ==>
            forall g | g in now.globals && shared(g) :: rule == Some(Resolved(g.rule, false)))
      && (rule.None? <==> (forall r | r in now.overrides :: !own(r)) && (forall g | g in now.globals :: !shared(g)))
  {
    RunKeepsInv(s, ops);
    var now := Run(s, ops);
    var p := InForceQuery(KeyOf(Some(user), operation, rail, currency), today);
    var q := ActiveQuery(KeyOf(None, operation, rail, currency));
    SingleFinds(now.overrides, p);
    SingleFinds(now.globals, q);
    forall r: Row
      ensures p(r) <==> IsFor(r, Some(user), operation, rail, currency) && Within(r, today)
      ensures q(r) <==> IsFor(r, None, operation, rail, currency)
    {
      InForceIff(r, Some(user), operation, rail, currency, today);
      InForceIff(r, None, operation, rail, currency, today);
    }
  }

  /** A creation is refused exactly when an active override of the key is there; otherwise one active row is added. */
  lemma CreateEffect(s: State, key: Key, rule: FeeRule, validFrom: Option<int>, validUntil: Option<int>, today: int)
    requires Inv(s)
    ensures
      var (s', error) := Create(s, key, rule, validFrom, validUntil, today);
      && s'.globals == s.globals
      && error == (if exists r :: r in s.overrides && IsFor(r, key.user, key.operation, key.rail, key.currency)
                   then Some(Conflict) else None)
      && s'.overrides == s.overrides + if error == Some(Conflict) then [] else
           [Row(s.nextId, Key(key.user, key.operation, Lower(key.rail), Lower(key.currency)), rule, true,
                if validFrom == None then Some(today) else validFrom, validUntil)]
  {
    var k := key.(rail := Lower(key.rail), currency := Lower(key.currency));
    SingleFinds(s.overrides, ActiveQuery(k));
    forall r: Row
      ensures ActiveQuery(k)(r) <==> IsFor(r, key.user, key.operation, key.rail, key.currency)
    {
      InForceIff(r, key.user, key.operation, key.rail, key.currency, today);
    }
  }

  /** An override that was just created applies from its first day to its last, however rail and currency are written. */
  lemma CreatedApplies(
      s: State, user: string, operation: string, rail: string, currency: string, rule: FeeRule, validFrom: Option<int>,
      validUntil: Option<int>, today: int, later: int)
    requires Inv(s) && Create(s, Key(Some(user), operation, rail, currency), rule, validFrom, validUntil, today).1.None?
    requires later >= (if validFrom.Some? then validFrom.value else today)
    requires validUntil.Some? ==> later <= validUntil.value
    ensures
      var s' := Create(s, Key(Some(user), operation, rail, currency), rule, validFrom, validUntil, today).0;
      Resolve(s', user, operation, rail, currency, later) == Some(Resolved(rule, true))
  {
    var key := Key(Some(user), operation, rail, currency);
    var s' := Create(s, key, rule, validFrom, validUntil, today).0;
    CreateKeepsInv(s, key, rule, validFrom, validUntil, today);
    var p := InForceQuery(KeyOf(Some(user), operation, rail, currency), later);
    SingleFinds(s'.overrides, p);
    assert s'.overrides[|s.overrides|] in s'.overrides;
    assert p(s'.overrides[|s.overrides|]);
  }

  /** Two active global rules of one key hide each other: nothing is charged. */
  lemma DuplicateGlobalsChargeNothing(rule: FeeRule, amount: real)
    ensures
      var g := Row(0, Key(None, "payout", "ach", "usd"), rule, true, None, None);
      Resolve(State([], [g, g.(id := 1)], 2), "u", "payout", "ACH", "USD", 0).None?
  {
    assert Lower("ACH") == "ach" && Lower("USD") == "usd";
    var g := Row(0, Key(None, "payout", "ach", "usd"), rule, true, None, None);
    var q := ActiveQuery(KeyOf(None, "payout", "ACH", "USD"));
    assert Filter([g.(id := 1)], q) == [g.(id := 1)];
    assert [g, g.(id := 1)][1..] == [g.(id := 1)];
    assert |Filter([g, g.(id := 1)], q)| == 2;
  }

  // ---- Initialising the overrides of an operation ----

  lemma {:induction false} InitCovers(
      s: State, before: seq<Row>, user: string, operation: string, rows: seq<Row>, today: int, k: nat)
    requires before <= s.overrides && k < |rows|
    ensures HasOverride(Init(s, before, user, operation, rows, {}, today).0.overrides, OwnKey(user, operation, rows[k]))
  {
    var n := |rows| - 1;
    var key := OwnKey(user, operation, rows[n]);
    var mid := Init(s, before, user, operation, rows[..n], {}, today).0;
    var after := Init(s, before, user, operation, rows, {}, today).0;
    InitOnlyAdds(s, before, user, operation, rows[..n], today);
    if k == n {
      LowerTwice(rows[n].key.rail);
      LowerTwice(rows[n].key.currency);
      if HasOverride(before, key) {
        HasOverrideMonotone(before, after.overrides, key);
      } else {
        assert after.overrides[|mid.overrides|].key == key;
      }
    } else {
      InitCovers(s, before, user, operation, rows[..n], today, k);
      HasOverrideMonotone(mid.overrides, after.overrides, OwnKey(user, operation, rows[k]));
    }
  }

  lemma HasOverrideMonotone(a: seq<Row>, b: seq<Row>, key: Key)
    requires a <= b && HasOverride(a, key)
    ensures HasOverride(b, key)
  {
    var i :| 0 <= i < |a|
             && a[i].key.(rail := Lower(a[i].key.rail), currency := Lower(a[i].key.currency)) == key;
    assert b[i] == a[i];
  }

  lemma {:induction false} InitOnlyAdds(
      s: State, before: seq<Row>, user: string, operation: string, rows: seq<Row>, today: int)
    ensures
      var s' := Init(s, before, user, operation, rows, {}, today).0;
      s.overrides <= s'.overrides && s'.globals == s.globals
  {
    if rows != [] {
      InitOnlyAdds(s, before, user, operation, rows[..|rows| - 1], today);
    }
  }

  lemma {:induction false} NothingLeftToCreate(
      s: State, user: string, operation: string, rows: seq<Row>, failing: set<nat>, today: int)
    requires forall k | 0 <= k < |rows| :: HasOverride(s.overrides, OwnKey(user, operation, rows[k]))
    ensures Init(s, s.overrides, user, operation, rows, failing, today) == (s, 0)
  {
    if rows != [] {
      NothingLeftToCreate(s, user, operation, rows[..|rows| - 1], failing, today);
    }
  }

  /** The positions whose key had no override when the call began and whose insertion succeeds. */
  function MissingAt(before: seq<Row>, user: string, operation: string, rows: seq<Row>, failing: set<nat>): set<nat> {
    set i: nat | i < |rows| && !HasOverride(before, OwnKey(user, operation, rows[i])) && i !in failing
  }

  /** A new override stands for one of these positions. */
  ghost predicate StandsFor(row: Row, before: seq<Row>, user: string, operation: string, rows: seq<Row>, failing: set<nat>) {
    exists i :: i in MissingAt(before, user, operation, rows, failing) && row.key == OwnKey(user, operation, rows[i])
  }

  ghost predicate IsBlankOverride(row: Row, today: int) {
    !row.active && row.rule == FeeRule(Percent, 0.0, 0.0, 0.0, 0.0) && row.validFrom == Some(today) && row.validUntil == None
  }

  lemma MissingNext(before: seq<Row>, user: string, operation: string, rows: seq<Row>, failing: set<nat>)
    requires rows != []
    ensures
      var n: nat := |rows| - 1;
      var earlier := MissingAt(before, user, operation, rows[..n], failing);
      && n !in earlier
      && MissingAt(before, user, operation, rows, failing)
         == earlier + if HasOverride(before, OwnKey(user, operation, rows[n])) || n in failing then {} else {n}
  {
  }

  lemma StandsForMore(
      row: Row, before: seq<Row>, user: string, operation: string, rows: seq<Row>, n: nat, failing: set<nat>)
    requires n <= |rows| && StandsFor(row, before, user, operation, rows[..n], failing)
    ensures StandsFor(row, before, user, operation, rows, failing)
  {
    var i :| i in MissingAt(before, user, operation, rows[..n], failing) && row.key == OwnKey(user, operation, rows[..n][i]);
    assert i in MissingAt(before, user, operation, rows, failing);
  }

  /** Only inactive blank overrides of keys that had none are added, one for every such position, and counted. */
  lemma {:induction false} InitAdds(
      s: State, before: seq<Row>, user: string, operation: string, rows: seq<Row>, failing: set<nat>, today: int)
    ensures
      var (s', created) := Init(s, before, user, operation, rows, failing, today);
      && s.overrides <= s'.overrides && s'.globals == s.globals
      && |s'.overrides| == |s.overrides| + created && created == |MissingAt(before, user, operation, rows, failing)|
      && forall k | |s.overrides| <= k < |s'.overrides| ::
           IsBlankOverride(s'.overrides[k], today) && StandsFor(s'.overrides[k], before, user, operation, rows, failing)
  {
    if rows == [] {
      assert MissingAt(before, user, operation, rows, failing) == {};
    } else {
      var n := |rows| - 1;
      var (mid, made) := Init(s, before, user, operation, rows[..n], failing, today);
      var (s', created) := Init(s, before, user, operation, rows, failing, today);
      InitAdds(s, before, user, operation, rows[..n], failing, today);
      MissingNext(before, user, operation, rows, failing);
      forall k | |s.overrides| <= k < |s'.overrides|
        ensures IsBlankOverride(s'.overrides[k], today) && StandsFor(s'.overrides[k], before, user, operation, rows, failing)
      {
        if k < |mid.overrides| {
          assert s'.overrides[k] == mid.overrides[k];
          StandsForMore(mid.overrides[k], before, user, operation, rows, n, failing);
        } else {
          assert n in MissingAt(before, user, operation, rows, failing);
        }
      }
    }
  }

  /** Two global rows of one key give a client two overrides of it, neither of them active. */
  lemma DuplicateGlobalsGiveTwo(g: Row, user: string, today: int)
    ensures InitOverrides(State([], [g, g], 0), user, g.key.operation, {}, today).1 == Ok(2)
  {
    var operation := g.key.operation;
    var rows := Filter([g, g], ForOperation(operation));
    FilterAll([g, g], ForOperation(operation));
    InitAdds(State([], [g, g], 0), [], user, operation, rows, {}, today);
    assert MissingAt([], user, operation, rows, {}) == {0, 1};
  }

  /** Afterwards every configured rail and currency has an override, the old ones are untouched, and again creates none. */
  lemma InitTwice(s: State, user: string, operation: string, today: int, failing: set<nat>, later: int)
    requires InitOverrides(s, user, operation, {}, today).1.Ok?
    ensures
      var once := InitOverrides(s, user, operation, {}, today).0;
      && s.overrides <= once.overrides
      && (forall g | g in s.globals && g.key.operation == operation :: HasOwn(once.overrides, user, operation, g))
      && InitOverrides(once, user, operation, failing, later) == (once, Ok(0))
  {
    var rows := Filter(s.globals, ForOperation(operation));
    var once := InitOverrides(s, user, operation, {}, today).0;
    InitOnlyAdds(s, s.overrides, user, operation, rows, today);
    forall k | 0 <= k < |rows|
      ensures HasOverride(once.overrides, OwnKey(user, operation, rows[k]))
    {
      InitCovers(s, s.overrides, user, operation, rows, today, k);
    }
    forall g | g in rows
      ensures HasOwn(once.overrides, user, operation, g)
    {
      HasOwnIff(once.overrides, user, operation, g);
    }
    FilterIs(s.globals, ForOperation(operation));
    NothingLeftToCreate(once, user, operation, rows, failing, later);
  }

  /** An override of the client for the rail and currency of this global row, in whatever letters they are stored. */
  ghost predicate HasOwn(overrides: seq<Row>, user: string, operation: string, g: Row) {
    exists r :: r in overrides && r.key.user == Some(user) && r.key.operation == operation
                && Lower(r.key.rail) == Lower(g.key.rail) && Lower(r.key.currency) == Lower(g.key.currency)
  }

  lemma HasOwnIff(overrides: seq<Row>, user: string, operation: string, g: Row)
    ensures HasOverride(overrides, OwnKey(user, operation, g)) <==> HasOwn(overrides, user, operation, g)
  {
    var key := OwnKey(user, operation, g);
    if HasOverride(overrides, key) {
      var i :| 0 <= i < |overrides|
               && overrides[i].key.(rail := Lower(overrides[i].key.rail), currency := Lower(overrides[i].key.currency)) == key;
      assert overrides[i] in overrides && overrides[i].key.user == key.user && overrides[i].key.operation == key.operation;
    }
    if HasOwn(overrides, user, operation, g) {
      var r :| r in overrides && r.key.user == Some(user) && r.key.operation == operation
               && Lower(r.key.rail) == Lower(g.key.rail) && Lower(r.key.currency) == Lower(g.key.currency);
      var i :| 0 <= i < |overrides| && overrides[i] == r;
      assert overrides[i].key.(rail := Lower(overrides[i].key.rail), currency := Lower(overrides[i].key.currency)) == key;
    }
  }

  /** A new override stands for a global row of the operation that had none, under its rail and currency in small letters. */
  lemma {:induction false} NewOverrideIs(s: State, user: string, operation: string, failing: set<nat>, today: int, k: nat)
    requires InitOverrides(s, user, operation, failing, today).1.Ok?
    requires |s.overrides| <= k < |InitOverrides(s, user, operation, failing, today).0.overrides|
    ensures
      var row := InitOverrides(s, user, operation, failing, today).0.overrides[k];
      && IsBlankOverride(row, today)
      && exists g :: g in s.globals && g.key.operation == operation && !HasOwn(s.overrides, user, operation, g)
                     && row.key == Key(Some(user), operation, Lower(g.key.rail), Lower(g.key.currency))
  {
    var rows := Filter(s.globals, ForOperation(operation));
    InitAdds(s, s.overrides, user, operation, rows, failing, today);
    var row := InitOverrides(s, user, operation, failing, today).0.overrides[k];
    var i :| i in MissingAt(s.overrides, user, operation, rows, failing) && row.key == OwnKey(user, operation, rows[i]);
    FilterIs(s.globals, ForOperation(operation));
    HasOwnIff(s.overrides, user, operation, rows[i]);
    assert rows[i] in rows;
  }

  // ---- The amounts ----

  datatype Breakdown = Breakdown(fee: real, net: real)

  /** Amounts in currency units; the fee is worked out on whole cents. */
  function FeeOf(rule: Option<Resolved>, amount: real): Breakdown {
    if rule.None? then Breakdown(0.0, amount)
    else
      var cents := Round(amount * 100.0);
      var fee := FeeCents(Some(rule.value.rule), cents);
      Breakdown(fee as real / 100.0, (cents - fee) as real / 100.0)
  }

  /** Fee and net add up to the amount exactly when no rule applies or the amount has no fraction of a cent. */
  lemma FeePlusNetIff(rule: Option<Resolved>, amount: real)
    ensures FeeOf(rule, amount).fee + FeeOf(rule, amount).net == amount <==> rule.None? || IsWhole(amount * 100.0)
  {
    if rule.Some? {
      var cents := Round(amount * 100.0);
      var fee := FeeCents(Some(rule.value.rule), cents);
      assert fee as real / 100.0 + (cents - fee) as real / 100.0 == cents as real / 100.0;
    }
  }

  /** Without a rule nothing is charged; with one, the fee of the rule on the nearest whole number of cents. */
  lemma ChargedIs(rule: Option<Resolved>, amount: real)
    ensures rule.None? ==> FeeOf(rule, amount).fee == 0.0 && FeeOf(rule, amount).net == amount
    ensures rule.Some? ==>
              exists cents: int ::
                && NearestCents(cents, amount)
                && FeeOf(rule, amount).fee * 100.0 == FeeCents(Some(rule.value.rule), cents) as real
                && FeeOf(rule, amount).net * 100.0 == (cents - FeeCents(Some(rule.value.rule), cents)) as real
  {
    if rule.Some? {
      var cents := Round(amount * 100.0);
      assert NearestCents(cents, amount);
    }
  }

  /** Halves go up. */
  predicate NearestCents(cents: int, amount: real) {
    cents as real - 0.5 <= amount * 100.0 < cents as real + 0.5
  }

  lemma CentsAgain(n: int)
    ensures Round(n as real / 100.0 * 100.0) == n
  {
    var x := n as real / 100.0;
    assert x * 100.0 == n as real;
  }

  lemma FeeOfCents(rule: Option<Resolved>, n: int)
    requires rule.Some?
    ensures
      var fee := FeeCents(Some(rule.value.rule), n);
      FeeOf(rule, n as real / 100.0) == Breakdown(fee as real / 100.0, (n - fee) as real / 100.0)
  {
    CentsAgain(n);
  }

  /** On whole cents the fee never decreases and never grows faster than the amount, so neither does the net. */
  lemma {:induction false} FeeOfGrowth(rule: Option<Resolved>, a: int, b: int)
    requires a <= b && WellFormed(if rule.Some? then Some(rule.value.rule) else None)
    ensures
      var x, y := FeeOf(rule, a as real / 100.0), FeeOf(rule, b as real / 100.0);
      x.fee <= y.fee && x.net <= y.net
  {
    if rule.Some? {
      FeeGrowth(Some(rule.value.rule), a, b);
      FeeOfCents(rule, a);
      FeeOfCents(rule, b);
    }
  }

  // ---- The service ----

  datatype Preview = Preview(breakdown: Breakdown, rule: FeeRule, isOverride: bool)

  class FeesService {
    var overrides: seq<Row>
    var globals: seq<Row>
    var nextId: nat

    constructor (globals: seq<Row>)
      ensures View() == State([], globals, 0) && Inv(View())
    {
      overrides, nextId := [], 0;
      this.globals := globals;
    }

    function View(): State
      reads this
    {
      State(overrides, globals, nextId)
    }

    method CreateOverride(key: Key, rule: FeeRule, validFrom: Option<int>, validUntil: Option<int>, today: int)
      returns (error: Option<Error>)
      modifies this`overrides, this`nextId
      ensures (View(), error) == Create(old(View()), key, rule, validFrom, validUntil, today)
    {
      var k := key.(rail := Lower(key.rail), currency := Lower(key.currency));
      if Single(Filter(overrides, ActiveQuery(k))).Some? {
        return Some(Conflict);
      }
      var from := if validFrom.Some? then validFrom.value else today;
      overrides := overrides + [Row(nextId, k, rule, true, Some(from), validUntil)];
      nextId := nextId + 1;
      return None;
    }

    method UpdateOverride(id: nat, patch: Patch) returns (error: Option<Error>)
      modifies this`overrides
      ensures (View(), error) == Update(old(View()), id, patch)
      ensures Inv(old(View())) ==>
                error == (if !HasId(old(overrides), id) then Some(NotFound)
                          else if Contested(old(overrides), id, patch) then Some(Conflict) else None)
      ensures Inv(old(View())) ==>
                |overrides| == old(|overrides|)
                && forall i | 0 <= i < |overrides| ::
                     if old(overrides)[i].id == id && error.None? then IsPatched(old(overrides)[i], overrides[i], patch)
                     else overrides[i] == old(overrides)[i]
    {
      if Inv(View()) {
        UpdateEffect(View(), id, patch);
      }
      FindIdIs(overrides, id);
      var found := FindId(overrides, id);
      if found.None? {
        return Some(NotFound);
      }
      var current := overrides[found.value];
      if patch.active == Some(true) && !current.active {
        if Single(Filter(overrides, OtherActive(current.key, id))).Some? {
          return Some(Conflict);
        }
      }
      overrides := overrides[found.value := Patched(current, patch)];
      return None;
    }

    method DeleteOverride(id: nat) returns (error: Option<Error>)
      modifies this`overrides
      ensures (View(), error) == Delete(old(View()), id)
      ensures Inv(old(View())) ==>
                && overrides == Filter(old(overrides), OtherId(id)) && !HasId(overrides, id)
                && (forall r | r in old(overrides) && r.id != id :: r in overrides)
                && error == if HasId(old(overrides), id) then None else Some(NotFound)
    {
      ghost var before := View();
      if Inv(before) {
        DeleteEffect(before, id);
      }
      FindIdIs(overrides, id);
      var found := FindId(overrides, id);
      if found.None? {
        return Some(NotFound);
      }
      overrides := overrides[..found.value] + overrides[found.value + 1..];
      return None;
    }

    /** `failing` holds the positions whose insertion the database rejects. */
    method InitOperationOverrides(user: string, operation: string, failing: set<nat>, today: int)
      returns (r: Result<nat, Error>)
      modifies this`overrides, this`nextId
      ensures (View(), r) == InitOverrides(old(View()), user, operation, failing, today)
      ensures r.Ok? ==>
                var rows := Filter(globals, ForOperation(operation));
                && old(overrides) <= overrides && |overrides| == old(|overrides|) + r.value
                && r.value == |MissingAt(old(overrides), user, operation, rows, failing)|
                && forall k | old(|overrides|) <= k < |overrides| ::
                     && IsBlankOverride(overrides[k], today) && !HasOverride(old(overrides), overrides[k].key)
                     && StandsFor(overrides[k], old(overrides), user, operation, rows, failing)
    {
      var rows := Filter(globals, ForOperation(operation));
      if rows == [] {
        return Err(NotFound);
      }
      var before := overrides;
      var created := 0;
      for i := 0 to |rows|
        invariant globals == old(globals)
        invariant (View(), created) == Init(old(View()), before, user, operation, rows[..i], failing, today)
      {
        assert rows[..i + 1][..i] == rows[..i];
        var key := OwnKey(user, operation, rows[i]);
        if !HasOverride(before, key) && i !in failing {
          overrides := overrides + [Row(nextId, key, BlankRule(), false, Some(today), None)];
          nextId := nextId + 1;
          created := created + 1;
        }
      }
      assert rows[..|rows|] == rows;
      InitAdds(old(View()), before, user, operation, rows, failing, today);
      return Ok(created);
    }

    method CalculateFee(user: string, operation: string, rail: string, currency: string, amount: real, today: int)
      returns (b: Breakdown)
      ensures b == FeeOf(Resolve(View(), user, operation, rail, currency, today), amount)
    {
      var rule := Resolve(View(), user, operation, rail, currency, today);
      if rule.None? {
        return Breakdown(0.0, amount);
      }
      var amountCents := Round(amount * 100.0);
      var feeCents := ComputeFee(amountCents, Some(rule.value.rule));
      return Breakdown(feeCents as real / 100.0, (amountCents - feeCents) as real / 100.0);
    }

    /** The preview shows what would be charged, and from which kind of rule. */
    method PreviewFee(user: string, operation: string, rail: string, currency: string, amount: real, today: int)
      returns (p: Preview)
      ensures
        var rule := Resolve(View(), user, operation, rail, currency, today);
        && p.breakdown == FeeOf(rule, amount)
        && (p.isOverride <==> rule.Some? && rule.value.isOverride)
        && p.rule == if rule.Some? then rule.value.rule else FeeRule(Percent, 0.0, 0.0, 0.0, 0.0)
    {
      var rule := Resolve(View(), user, operation, rail, currency, today);
      if rule.None? {
        return Preview(Breakdown(0.0, amount), BlankRule(), false);
      }
      var amountCents := Round(amount * 100.0);
      var feeCents := ComputeFee(amountCents, Some(rule.value.rule));
      return Preview(Breakdown(feeCents as real / 100.0, (amountCents - feeCents) as real / 100.0),
                     rule.value.rule, rule.value.isOverride);
    }

    /** Fails exactly when a calculation would silently charge nothing for want of a rule. */
    method AssertFeeConfigured(user: string, operation: string, rail: string, currency: string, today: int)
      returns (ok: bool)
      ensures ok <==> Resolve(View(), user, operation, rail, currency, today).Some?
    {
      if Single(Filter(overrides, InForceQuery(KeyOf(Some(user), operation, rail, currency), today))).Some? {
        return true;
      }
      return Single(Filter(globals, ActiveQuery(KeyOf(None, operation, rail, currency)))).Some?;
    }
  }
}
