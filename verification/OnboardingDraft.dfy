/** The saved onboarding form: what is kept of a request, and when saving it again changes nothing. */
module OnboardingDraft {
  import opened Wrappers
  import opened StableJson
  import opened Sequences

  const MAX_DRAFT_BYTES := 64 * 1024
  const MAX_DEPTH := 4
  const MAX_KEYS_PER_OBJECT := 200
  const MAX_ARRAY_ITEMS := 50
  const MAX_STRING_LENGTH := 5000

  function Take(s: string, n: nat): string {
    if |s| <= n then s else s[..n]
  }

  /** ^[a-z][a-z0-9_]{0,63}$ */
  predicate SafeKey(key: string) {
    && 1 <= |key| <= 64
    && 'a' <= key[0] <= 'z'
    && forall i | 0 <= i < |key| :: 'a' <= key[i] <= 'z' || '0' <= key[i] <= '9' || key[i] == '_'
  }

  /** What is kept of a value found `depth` levels below the form. */
  function Sanitize(v: Value, depth: nat): Value {
    match v
    case Null => Null
    case Bool(_) => v
    case Num(_) => v
    case NonFinite => Null
    case Str(text) => Str(Take(text, MAX_STRING_LENGTH))
    case Undefined => if depth >= MAX_DEPTH then Null else Undefined
    case Arr(items) => if depth >= MAX_DEPTH then Null else Arr(SanitizeItems(items, depth + 1, MAX_ARRAY_ITEMS))
    case Obj(fields) => if depth >= MAX_DEPTH then Null else Obj(SanitizeFields(fields, depth + 1, 0))
  }

  /** The first `room` items, cleaned, without the undefined ones. */
  function SanitizeItems(items: seq<Value>, depth: nat, room: nat): seq<Value> {
    if items == [] || room == 0 then []
    else
      var clean := Sanitize(items[0], depth);
      (if clean.Undefined? then [] else [clean]) + SanitizeItems(items[1..], depth, room - 1)
  }

  /** The entries with safe keys and a defined value, up to the maximum when `count` are already kept. */
  function SanitizeFields(fields: seq<Field<Value>>, depth: nat, count: nat): seq<Field<Value>> {
    if fields == [] || count >= MAX_KEYS_PER_OBJECT then []
    else
      var clean := Sanitize(fields[0].value, depth);
      if SafeKey(fields[0].key) && !clean.Undefined? then
        [Field(fields[0].key, clean)] + SanitizeFields(fields[1..], depth, count + 1)
      else
        SanitizeFields(fields[1..], depth, count)
  }

  method SanitizeValue(v: Value, depth: nat) returns (r: Value)
    ensures r == Sanitize(v, depth)
    decreases v
  {
    if v.Null? || v.Bool? || v.Num? {
      return v;
    }
    if v.NonFinite? {
      return Null;
    }
    if v.Str? {
      return Str(Take(v.text, MAX_STRING_LENGTH));
    }
    if depth >= MAX_DEPTH {
      return Null;
    }
    if v.Arr? {
      return Arr(SanitizeItems(v.items, depth + 1, MAX_ARRAY_ITEMS));
    }
    if v.Obj? {
      var out := SanitizeEntries(v.fields, depth + 1);
      return Obj(out);
    }
    return Undefined;
  }

  method SanitizeEntries(fields: seq<Field<Value>>, depth: nat) returns (out: seq<Field<Value>>)
    ensures out == SanitizeFields(fields, depth, 0)
    decreases fields
  {
    out := [];
    var count := 0;
    var i := 0;
    while i < |fields| && count < MAX_KEYS_PER_OBJECT
      invariant 0 <= i <= |fields| && 0 <= count
      invariant out + SanitizeFields(fields[i..], depth, count) == SanitizeFields(fields, depth, 0)
    {
      assert fields[i..][1..] == fields[i + 1..];
      if SafeKey(fields[i].key) {
        var clean := SanitizeValue(fields[i].value, depth);
        if !clean.Undefined? {
          out := out + [Field(fields[i].key, clean)];
          count := count + 1;
        }
      }
      i := i + 1;
    }
  }

  // ---- What sanitizing guarantees ----

  predicate IsLetter(c: char) {
    'a' <= c <= 'z'
  }

  predicate IsDigit(c: char) {
    '0' <= c <= '9'
  }

  /** One to sixty-four small letters, digits and underscores, a letter first. */
  predicate FormKey(key: string) {
    0 < |key| < 65 && IsLetter(key[0]) && forall i | 0 <= i < |key| :: IsLetter(key[i]) || IsDigit(key[i]) || key[i] == '_'
  }

  /**
   * Four levels, fifty items, two hundred keys and five thousand characters at most, and plain JSON except for the
   * spelling of numbers and repeated keys.
   */
  predicate Fits(v: Value, depth: nat) {
    match v
    case Undefined => false
    case NonFinite => false
    case Str(text) => |text| <= 5000
    case Arr(items) => depth < 4 && |items| <= 50 && forall i | 0 <= i < |items| :: Fits(items[i], depth + 1)
    case Obj(fields) =>
      && depth < 4 && |fields| <= 200
      && forall i | 0 <= i < |fields| :: FormKey(fields[i].key) && Fits(fields[i].value, depth + 1)
    case _ => true
  }

  // ---- What is kept of what does not fit ----

  function First<T>(xs: seq<T>, n: nat): seq<T> {
    if |xs| <= n then xs else xs[..n]
  }

  function IsDefined(): Value -> bool {
    (v: Value) => !v.Undefined?
  }

  function IsKeepable(): Field<Value> -> bool {
    (f: Field<Value>) => FormKey(f.key) && !f.value.Undefined?
  }

  function CleanItems(items: seq<Value>, depth: nat): seq<Value> {
    seq(|items|, i requires 0 <= i < |items| => Sanitize(items[i], depth))
  }

  function CleanFields(fields: seq<Field<Value>>, depth: nat): seq<Field<Value>> {
    seq(|fields|, i requires 0 <= i < |fields| => Field(fields[i].key, Sanitize(fields[i].value, depth)))
  }

  lemma {:induction false} ItemsAre(items: seq<Value>, depth: nat, room: nat)
    ensures SanitizeItems(items, depth, room) == Filter(CleanItems(First(items, room), depth), IsDefined())
  {
    var kept := First(items, room);
    if kept != [] {
      ItemsAre(items[1..], depth, room - 1);
      assert kept[1..] == First(items[1..], room - 1);
      assert CleanItems(kept, depth)[1..] == CleanItems(kept[1..], depth);
    }
  }

  lemma {:induction false} FieldsAre(fields: seq<Field<Value>>, depth: nat, count: nat)
    requires count <= 200
    ensures SanitizeFields(fields, depth, count) == First(Filter(CleanFields(fields, depth), IsKeepable()), 200 - count)
  {
    if fields != [] && count < 200 {
      var first, rest := Field(fields[0].key, Sanitize(fields[0].value, depth)), CleanFields(fields[1..], depth);
      assert CleanFields(fields, depth) == [first] + rest;
      FilterCons(first, rest, IsKeepable());
      if IsKeepable()(first) {
        FieldsAre(fields[1..], depth, count + 1);
        FirstCons(first, Filter(rest, IsKeepable()), 200 - count);
      } else {
        FieldsAre(fields[1..], depth, count);
      }
    }
  }

  lemma FirstCons<T>(x: T, xs: seq<T>, n: nat)
    requires n > 0
    ensures First([x] + xs, n) == [x] + First(xs, n - 1)
  {
  }

  /**
   * A text is cut after five thousand characters; of a list the first fifty items stay, without the undefined ones; of
   * an object the first two hundred entries with a key of a form and a defined value; nothing below four levels.
   */
  lemma SanitizedIs(v: Value, depth: nat)
    ensures
      match v
      case Str(text) => Sanitize(v, depth) == Str(First(text, 5000))
      case Arr(items) =>
        Sanitize(v, depth)
        == if depth < 4 then Arr(Filter(CleanItems(First(items, 50), depth + 1), IsDefined())) else Null
      case Obj(fields) =>
        Sanitize(v, depth)
        == if depth < 4 then Obj(First(Filter(CleanFields(fields, depth + 1), IsKeepable()), 200)) else Null
      case Undefined => Sanitize(v, depth) == if depth < 4 then Undefined else Null
      case NonFinite => Sanitize(v, depth) == Null
      case _ => Sanitize(v, depth) == v
  {
    match v
    case Arr(items) => ItemsAre(items, depth + 1, MAX_ARRAY_ITEMS);
    case Obj(fields) => FieldsAre(fields, depth + 1, 0);
    case _ =>
  }

  /** What a JavaScript value always satisfies: printed numbers are numerals and object keys are distinct. */
  predicate WellTyped(v: Value) {
    match v
    case Num(literal) => IsNumeral(literal)
    case Arr(items) => forall i | 0 <= i < |items| :: WellTyped(items[i])
    case Obj(fields) => DistinctKeys(fields) && forall i | 0 <= i < |fields| :: WellTyped(fields[i].value)
    case _ => true
  }

  lemma {:induction false} SanitizeFits(v: Value, depth: nat)
    ensures Sanitize(v, depth).Undefined? || Fits(Sanitize(v, depth), depth)
    ensures Sanitize(v, depth).Undefined? <==> v.Undefined? && depth < MAX_DEPTH
    decreases v, 1
  {
    if depth < MAX_DEPTH {
      match v
      case Arr(items) => SanitizeItemsFit(items, depth + 1, MAX_ARRAY_ITEMS);
      case Obj(fields) => SanitizeFieldsFit(fields, depth + 1, 0);
      case _ =>
    }
  }

  lemma {:induction false} SanitizeItemsFit(items: seq<Value>, depth: nat, room: nat)
    ensures |SanitizeItems(items, depth, room)| <= room
    ensures forall x | x in SanitizeItems(items, depth, room) :: Fits(x, depth)
    decreases items, 0
  {
    if items != [] && room != 0 {
      SanitizeFits(items[0], depth);
      SanitizeItemsFit(items[1..], depth, room - 1);
    }
  }

  lemma {:induction false} SanitizeFieldsFit(fields: seq<Field<Value>>, depth: nat, count: nat)
    requires count <= MAX_KEYS_PER_OBJECT
    ensures |SanitizeFields(fields, depth, count)| <= MAX_KEYS_PER_OBJECT - count
    ensures forall f | f in SanitizeFields(fields, depth, count) :: SafeKey(f.key) && Fits(f.value, depth)
    decreases fields, 0
  {
    if fields != [] && count < MAX_KEYS_PER_OBJECT {
      SanitizeFits(fields[0].value, depth);
      SanitizeFieldsFit(fields[1..], depth, count);
      SanitizeFieldsFit(fields[1..], depth, count + 1);
    }
  }

  lemma {:induction false} FitsIsKept(v: Value, depth: nat)
    requires Fits(v, depth)
    ensures Sanitize(v, depth) == v
    decreases v, 1
  {
    match v
    case Arr(items) => FittingItemsKept(items, depth + 1, MAX_ARRAY_ITEMS);
    case Obj(fields) => FittingFieldsKept(fields, depth + 1, 0);
    case _ =>
  }

  lemma {:induction false} FittingItemsKept(items: seq<Value>, depth: nat, room: nat)
    requires |items| <= room && forall i | 0 <= i < |items| :: Fits(items[i], depth)
    ensures SanitizeItems(items, depth, room) == items
    decreases items, 0
  {
    if items != [] {
      FitsIsKept(items[0], depth);
      FittingItemsKept(items[1..], depth, room - 1);
    }
  }

  lemma {:induction false} FittingFieldsKept(fields: seq<Field<Value>>, depth: nat, count: nat)
    requires count + |fields| <= MAX_KEYS_PER_OBJECT
    requires forall i | 0 <= i < |fields| :: SafeKey(fields[i].key) && Fits(fields[i].value, depth)
    ensures SanitizeFields(fields, depth, count) == fields
    decreases fields, 0
  {
    if fields != [] {
      FitsIsKept(fields[0].value, depth);
      FittingFieldsKept(fields[1..], depth, count + 1);
    }
  }

  /** Sanitizing keeps exactly the values within the limits, and one pass is enough. */
  lemma SanitizeFixpoints(v: Value, depth: nat)
    ensures !v.Undefined? ==> (Sanitize(v, depth) == v <==> Fits(v, depth))
    ensures Sanitize(Sanitize(v, depth), depth) == Sanitize(v, depth)
  {
    SanitizeFits(v, depth);
    if Fits(v, depth) {
      FitsIsKept(v, depth);
    }
    if Fits(Sanitize(v, depth), depth) {
      FitsIsKept(Sanitize(v, depth), depth);
    }
  }

  lemma {:induction false} SanitizeIsJson(v: Value, depth: nat)
    requires WellTyped(v)
    ensures Sanitize(v, depth).Undefined? || IsJson(Sanitize(v, depth))
    decreases v, 1
  {
    if depth < MAX_DEPTH {
      match v
      case Arr(items) => SanitizeItemsJson(items, depth + 1, MAX_ARRAY_ITEMS);
      case Obj(fields) => SanitizeFieldsJson(fields, depth + 1, 0);
      case _ =>
    }
  }

  lemma {:induction false} SanitizeItemsJson(items: seq<Value>, depth: nat, room: nat)
    requires forall i | 0 <= i < |items| :: WellTyped(items[i])
    ensures forall x | x in SanitizeItems(items, depth, room) :: IsJson(x)
    decreases items, 0
  {
    if items != [] && room != 0 {
      SanitizeIsJson(items[0], depth);
      SanitizeItemsJson(items[1..], depth, room - 1);
    }
  }

  lemma {:induction false} SanitizeFieldsJson(fields: seq<Field<Value>>, depth: nat, count: nat)
    requires DistinctKeys(fields) && forall i | 0 <= i < |fields| :: WellTyped(fields[i].value)
    ensures DistinctKeys(SanitizeFields(fields, depth, count))
    ensures forall f | f in SanitizeFields(fields, depth, count) :: IsJson(f.value) && HasKey(fields, f.key)
    decreases fields, 0
  {
    if fields != [] && count < MAX_KEYS_PER_OBJECT {
      var rest := fields[1..];
      SanitizeIsJson(fields[0].value, depth);
      var keeps := SafeKey(fields[0].key) && !Sanitize(fields[0].value, depth).Undefined?;
      SanitizeFieldsJson(rest, depth, if keeps then count + 1 else count);
      TailKeys(fields);
    }
  }

  lemma TailKeys(fields: seq<Field<Value>>)
    requires fields != [] && DistinctKeys(fields)
    ensures HasKey(fields, fields[0].key)
    ensures forall key | HasKey(fields[1..], key) :: HasKey(fields, key) && key != fields[0].key
  {
    forall key | HasKey(fields[1..], key)
      ensures HasKey(fields, key) && key != fields[0].key
    {
      var i :| 0 <= i < |fields[1..]| && fields[1..][i].key == key;
      assert fields[i + 1].key == key;
    }
  }

  // ---- Missing fields ----

  /** One informative entry; `step` is an integer, `invalid` tells the reason 'invalid' from 'missing'. */
  datatype MissingField = MissingField(
    key: string, caption: string, step: Option<string>, invalid: bool, message: Option<string>)

  function OptionalStr(s: Option<string>): Value {
    if s.Some? then Str(s.value) else Null
  }

  function StepValue(m: MissingField): Value {
    if m.step.Some? then Num(m.step.value) else Null
  }

  function ReasonText(m: MissingField): string {
    if m.invalid then "invalid" else "missing"
  }

  function MissingValue(m: MissingField): Value {
    Obj([Field("key", Str(m.key)),
         Field("label", Str(m.caption)),
         Field("step", StepValue(m)),
         Field("reason", Str(ReasonText(m))),
         Field("message", OptionalStr(m.message))])
  }

  function FieldOf(fields: seq<Field<Value>>, key: string): Value {
    if fields == [] then Undefined
    else if fields[0].key == key then fields[0].value
    else FieldOf(fields[1..], key)
  }

  /** ^[a-z0-9_]{1,80}$, ignoring case */
  predicate MissingKey(key: string) {
    && 1 <= |key| <= 80
    && forall i | 0 <= i < |key| ::
         'a' <= key[i] <= 'z' || 'A' <= key[i] <= 'Z' || '0' <= key[i] <= '9' || key[i] == '_'
  }

  /** Number.isInteger of a number printed as `literal`: a fraction shows as a point or a negative exponent. */
  predicate IntegerLiteral(literal: string) {
    '+' in literal || ('.' !in literal && 'e' !in literal)
  }

  function CleanMissing(item: Value): Option<MissingField> {
    if !item.Obj? then None
    else
      var raw := item.fields;
      var key, caption, step, message :=
        FieldOf(raw, "key"), FieldOf(raw, "label"), FieldOf(raw, "step"), FieldOf(raw, "message");
      if !key.Str? || !MissingKey(key.text) then None
      else
        Some(MissingField(
               key.text,
               if caption.Str? then Take(caption.text, 160) else key.text,
               if step.Num? && IntegerLiteral(step.literal) then Some(step.literal) else None,
               FieldOf(raw, "reason") == Str("invalid"),
               if message.Str? then Some(Take(message.text, 300)) else None))
  }

  function CleanMissingFields(items: seq<Value>): seq<MissingField> {
    if items == [] then []
    else
      var first := CleanMissing(items[0]);
      (if first.Some? then [first.value] else []) + CleanMissingFields(items[1..])
  }

  /** One to eighty letters of either case, digits and underscores. */
  predicate EntryKey(key: string) {
    0 < |key| < 81
    && forall i | 0 <= i < |key| :: IsLetter(key[i]) || 'A' <= key[i] <= 'Z' || IsDigit(key[i]) || key[i] == '_'
  }

  /** An entry without a proper key is dropped; the caption falls back to the key, and what does not fit to nothing. */
  lemma CleanMissingIs(raw: seq<Field<Value>>)
    ensures
      var r, key, caption := CleanMissing(Obj(raw)), FieldOf(raw, "key"), FieldOf(raw, "label");
      var step, message := FieldOf(raw, "step"), FieldOf(raw, "message");
      && (r.Some? <==> key.Str? && EntryKey(key.text))
      && (r.Some? ==>
            var m := r.value;
            && m.key == key.text && m.caption == (if caption.Str? then First(caption.text, 160) else key.text)
            && (m.step.Some? <==> step.Num? && IntegerLiteral(step.literal))
            && (m.step.Some? ==> step == Num(m.step.value)) && (m.invalid <==> FieldOf(raw, "reason") == Str("invalid"))
            && m.message == (if message.Str? then Some(First(message.text, 300)) else None))
  {
  }

  /** As Number.isInteger decides on the numbers that print so. */
  lemma IntegerExamples()
    ensures IntegerLiteral("3") && IntegerLiteral("-12") && IntegerLiteral("1.5e+21") && IntegerLiteral("1e+30")
    ensures !IntegerLiteral("3.5") && !IntegerLiteral("1e-7") && !IntegerLiteral("2.5e-9")
  {
    assert "1.5e+21"[4] == '+' && "1e+30"[2] == '+';
    assert "3.5"[1] == '.' && "1e-7"[1] == 'e' && "2.5e-9"[1] == '.';
  }

  predicate CleanEntry(m: MissingField) {
    && EntryKey(m.key) && |m.caption| <= 160
    && (m.step.Some? ==> IntegerLiteral(m.step.value))
    && (m.message.Some? ==> |m.message.value| <= 300)
  }

  /** Cleaning gives clean entries, and a clean entry is read back as it was written. */
  lemma MissingRoundTrip(item: Value, m: MissingField)
    ensures CleanMissing(item).Some? ==> CleanEntry(CleanMissing(item).value)
    ensures CleanMissing(MissingValue(m)) == Some(m) <==> CleanEntry(m)
  {
    var fields := MissingValue(m).fields;
    MissingKeysDistinct(m);
    FieldOfAt(fields, 0);
    FieldOfAt(fields, 1);
    FieldOfAt(fields, 2);
    FieldOfAt(fields, 3);
    FieldOfAt(fields, 4);
    assert |"invalid"| == |"missing"| == 7 && "invalid"[0] != "missing"[0];
  }

  lemma {:induction false} FieldOfAt(fields: seq<Field<Value>>, i: nat)
    requires i < |fields| && DistinctKeys(fields)
    ensures FieldOf(fields, fields[i].key) == fields[i].value
  {
    if i > 0 {
      FieldOfAt(fields[1..], i - 1);
    }
  }

  lemma MissingKeysDistinct(m: MissingField)
    ensures DistinctKeys(MissingValue(m).fields)
  {
    assert |"key"| == 3 && |"label"| == 5 && |"step"| == 4 && |"reason"| == 6 && |"message"| == 7;
  }

  // ---- Saving ----

  datatype Draft = Draft(kind: string, step: string, data: Value, missing: seq<MissingField>, progress: string)

  datatype SaveDto = SaveDto(kind: string, step: string, data: Value, missing: seq<Value>, progress: string)

  datatype DraftRow = DraftRow(draft: Draft, updatedAt: int, assistedBy: Option<string>)

  datatype Saved = Saved(updatedAt: int, noChange: bool)

  datatype SaveError = NotEditable | InvalidDraft | TooLarge

  function MissingArray(missing: seq<MissingField>): Value {
    Arr(seq(|missing|, i requires 0 <= i < |missing| => MissingValue(missing[i])))
  }

  function Content(d: Draft): Value {
    Obj([Field("type", Str(d.kind)),
         Field("step", Num(d.step)),
         Field("data", d.data),
         Field("missing_fields", MissingArray(d.missing)),
         Field("progress_pct", Num(d.progress))])
  }

  predicate JsonDraft(d: Draft) {
    && IsNumeral(d.step) && IsNumeral(d.progress) && IsJson(d.data)
    && forall i | 0 <= i < |d.missing| :: d.missing[i].step.Some? ==> IsNumeral(d.missing[i].step.value)
  }

  /** Equal except for the order of keys inside the form data, which jsonb does not preserve. */
  ghost predicate SameDraft(a: Draft, b: Draft) {
    && a.kind == b.kind && a.step == b.step && a.progress == b.progress && a.missing == b.missing
    && Same(a.data, b.data)
  }

  lemma ContentIsJson(d: Draft)
    requires JsonDraft(d)
    ensures IsJson(Content(d))
  {
    forall i | 0 <= i < |d.missing|
      ensures IsJson(MissingValue(d.missing[i]))
    {
      MissingKeysDistinct(d.missing[i]);
    }
    ContentKeysDistinct(d);
  }

  lemma ContentKeysDistinct(d: Draft)
    ensures DistinctKeys(Content(d).fields)
  {
    assert |"type"| == 4 && |"step"| == 4 && |"data"| == 4 && |"missing_fields"| == 14 && |"progress_pct"| == 12;
    assert "type"[0] != "step"[0] && "type"[0] != "data"[0] && "step"[0] != "data"[0];
  }

  /** Objects with the same keys in the same places are the same iff they are so place by place. */
  lemma SameAligned(fs: seq<Field<Value>>, gs: seq<Field<Value>>)
    requires |fs| == |gs| && DistinctKeys(fs) && forall i | 0 <= i < |fs| :: fs[i].key == gs[i].key
    ensures Same(Obj(fs), Obj(gs)) <==> forall i | 0 <= i < |fs| :: Same(fs[i].value, gs[i].value)
  {
    forall key
      ensures HasKey(fs, key) <==> HasKey(gs, key)
    {
      if HasKey(fs, key) {
        var i :| 0 <= i < |fs| && fs[i].key == key;
        assert gs[i].key == key;
      }
      if HasKey(gs, key) {
        var i :| 0 <= i < |gs| && gs[i].key == key;
        assert fs[i].key == key;
      }
    }
  }

  /** Objects with five fields, place by place. */
  lemma SameFive(fs: seq<Field<Value>>, gs: seq<Field<Value>>)
    requires |fs| == |gs| == 5 && DistinctKeys(fs) && forall i | 0 <= i < 5 :: fs[i].key == gs[i].key
    ensures Same(Obj(fs), Obj(gs))
            <==> && Same(fs[0].value, gs[0].value) && Same(fs[1].value, gs[1].value) && Same(fs[2].value, gs[2].value)
                 && Same(fs[3].value, gs[3].value) && Same(fs[4].value, gs[4].value)
  {
    SameAligned(fs, gs);
  }

  /** Values that are not containers are the same only when they are equal. */
  lemma SameScalar(a: Value, b: Value)
    requires Same(a, b) && !a.Arr? && !a.Obj?
    ensures a == b
  {
  }

  lemma ReasonDecides(m: MissingField, n: MissingField)
    requires ReasonText(m) == ReasonText(n)
    ensures m.invalid == n.invalid
  {
    assert "invalid"[0] != "missing"[0];
  }

  lemma MissingFieldsSame(m: MissingField, n: MissingField)
    requires Same(MissingValue(m), MissingValue(n))
    ensures Str(m.key) == Str(n.key) && Str(m.caption) == Str(n.caption) && StepValue(m) == StepValue(n)
    ensures Str(ReasonText(m)) == Str(ReasonText(n)) && OptionalStr(m.message) == OptionalStr(n.message)
  {
    MissingKeysDistinct(m);
    SameFive(MissingValue(m).fields, MissingValue(n).fields);
    SameScalar(Str(m.key), Str(n.key));
    SameScalar(Str(m.caption), Str(n.caption));
    SameScalar(StepValue(m), StepValue(n));
    SameScalar(Str(ReasonText(m)), Str(ReasonText(n)));
    SameScalar(OptionalStr(m.message), OptionalStr(n.message));
  }

  lemma MissingValueInjective(m: MissingField, n: MissingField)
    requires Same(MissingValue(m), MissingValue(n))
    ensures m == n
  {
    MissingFieldsSame(m, n);
    ReasonDecides(m, n);
  }

  lemma SameMissing(xs: seq<MissingField>, ys: seq<MissingField>)
    requires Same(MissingArray(xs), MissingArray(ys))
    ensures xs == ys
  {
    forall i | 0 <= i < |xs|
      ensures xs[i] == ys[i]
    {
      assert Same(MissingArray(xs).items[i], MissingArray(ys).items[i]);
      MissingValueInjective(xs[i], ys[i]);
    }
  }

  /** Drafts have the same content when the five parts of it are the same. */
  lemma ContentParts(a: Draft, b: Draft)
    ensures Same(Content(a), Content(b))
            <==> && Same(Str(a.kind), Str(b.kind)) && Same(Num(a.step), Num(b.step)) && Same(a.data, b.data)
                 && Same(MissingArray(a.missing), MissingArray(b.missing)) && Same(Num(a.progress), Num(b.progress))
  {
    ContentKeysDistinct(a);
    SameFive(Content(a).fields, Content(b).fields);
  }

  lemma SameContentFields(a: Draft, b: Draft)
    requires Same(Content(a), Content(b))
    ensures SameDraft(a, b)
  {
    ContentParts(a, b);
    SameMissing(a.missing, b.missing);
  }

  /** Comparing whole drafts compares type, step, progress and missing fields exactly and the data up to key order. */
  lemma SameContent(a: Draft, b: Draft)
    requires JsonDraft(a) && JsonDraft(b)
    ensures Same(Content(a), Content(b)) <==> SameDraft(a, b)
  {
    if Same(Content(a), Content(b)) {
      SameContentFields(a, b);
    }
    if SameDraft(a, b) {
      SameDraftFields(a, b);
    }
  }

  lemma SameDraftFields(a: Draft, b: Draft)
    requires JsonDraft(a) && SameDraft(a, b)
    ensures Same(Content(a), Content(b))
  {
    ContentIsJson(a);
    assert IsJson(Content(a).fields[3].value);
    CanonicalPrinter(MissingArray(a.missing), MissingArray(a.missing));
    ContentParts(a, b);
  }

  function Utf8Length(s: string): nat {
    if s == "" then 0
    else
      var c := s[0] as int;
      (if c < 0x80 then 1 else if c < 0x800 then 2 else if c < 0x1_0000 then 3 else 4) + Utf8Length(s[1..])
  }

  /** One to four bytes a character, by the ranges of UTF-8. */
  lemma {:induction false} Utf8LengthIs(a: string, c: char)
    ensures
      Utf8Length(a + [c])
      == Utf8Length(a) + if c as int <= 127 then 1 else if c as int <= 2047 then 2 else if c as int <= 65_535 then 3 else 4
  {
    if a == "" {
      assert a + [c] == [c] && [c][1..] == "";
    } else {
      assert (a + [c])[1..] == a[1..] + [c];
      Utf8LengthIs(a[1..], c);
    }
  }

  /** The size check: the order of keys does not change how many bytes a form prints to. */
  predicate Oversized(data: Value) {
    Utf8Length(Stringify(data)) > MAX_DRAFT_BYTES
  }

  /** At most 64 kilobytes are accepted. */
  lemma OversizedIff(data: Value)
    ensures Oversized(data) <==> Utf8Length(Stringify(data)) > 65_536
  {
  }

  function Cleaned(dto: SaveDto): Draft {
    Draft(dto.kind, dto.step, Sanitize(dto.data, 0), CleanMissingFields(dto.missing), dto.progress)
  }

  /** A request body as JavaScript holds it. */
  predicate WellTypedDto(dto: SaveDto) {
    && IsNumeral(dto.step) && IsNumeral(dto.progress) && WellTyped(dto.data)
    && forall i | 0 <= i < |dto.missing| :: WellTyped(dto.missing[i])
  }

  lemma {:induction false} FieldOfWellTyped(fields: seq<Field<Value>>, key: string)
    requires forall i | 0 <= i < |fields| :: WellTyped(fields[i].value)
    ensures WellTyped(FieldOf(fields, key))
  {
    if fields != [] {
      FieldOfWellTyped(fields[1..], key);
    }
  }

  lemma {:induction false} CleanMissingNumerals(items: seq<Value>)
    requires forall i | 0 <= i < |items| :: WellTyped(items[i])
    ensures forall m | m in CleanMissingFields(items) :: m.step.Some? ==> IsNumeral(m.step.value)
  {
    if items != [] {
      CleanMissingNumerals(items[1..]);
      if items[0].Obj? {
        FieldOfWellTyped(items[0].fields, "step");
      }
    }
  }

  lemma CleanedIsJson(dto: SaveDto)
    requires WellTypedDto(dto) && dto.data.Obj?
    ensures JsonDraft(Cleaned(dto))
  {
    SanitizeIsJson(dto.data, 0);
    CleanMissingNumerals(dto.missing);
    var d := Cleaned(dto);
    forall i | 0 <= i < |d.missing|
      ensures d.missing[i].step.Some? ==> IsNumeral(d.missing[i].step.value)
    {
      assert d.missing[i] in d.missing;
    }
  }

  class DraftTable {
    var rows: map<string, DraftRow>

    ghost predicate Valid()
      reads this
    {
      forall u | u in rows :: JsonDraft(rows[u].draft)
    }

    constructor ()
      ensures Valid() && rows == map[]
    {
      rows := map[];
    }

    /**
     * `readBack` is the stored draft as the database returns it, with object keys in any order. Saving says
     * noChange exactly when the cleaned request is the stored draft up to that order, and then writes nothing.
     */
    method SaveDraft(
        userId: string, dto: SaveDto, assistedBy: Option<string>, now: int, editable: bool, readBack: Option<Draft>)
      returns (r: Result<Saved, SaveError>)
      requires Valid() && WellTypedDto(dto)
      requires readBack.Some? <==> userId in rows
      requires readBack.Some? ==> JsonDraft(readBack.value) && SameDraft(readBack.value, rows[userId].draft)
      modifies this
      ensures Valid()
      ensures r == Err(NotEditable) <==> !editable
      ensures r == Err(InvalidDraft) <==> editable && !dto.data.Obj?
      ensures r == Err(TooLarge) <==> editable && dto.data.Obj? && Oversized(Sanitize(dto.data, 0))
      ensures r.Err? ==> rows == old(rows)
      ensures r.Ok? ==>
                var next := Cleaned(dto);
                && (r.value.noChange <==> userId in old(rows) && SameDraft(old(rows)[userId].draft, next))
                && (r.value.noChange ==> rows == old(rows) && r.value.updatedAt == old(rows)[userId].updatedAt)
                && (!r.value.noChange ==>
                      var helper := if assistedBy.Some? then assistedBy
                                else if userId in old(rows) then old(rows)[userId].assistedBy else None;
                      rows == old(rows)[userId := DraftRow(next, now, helper)] && r.value.updatedAt == now)
    {
      if !editable {
        return Err(NotEditable);
      }
      var data := SanitizeValue(dto.data, 0);
      if !data.Obj? {
        return Err(InvalidDraft);
      }
      if Oversized(data) {
        return Err(TooLarge);
      }
      var next := Draft(dto.kind, dto.step, data, CleanMissingFields(dto.missing), dto.progress);
      CleanedIsJson(dto);
      if readBack.Some? {
        SameDraftsPrintAlike(readBack.value, rows[userId].draft, next);
      }
      if readBack.Some? && Stringify(Content(readBack.value)) == Stringify(Content(next)) {
        return Ok(Saved(rows[userId].updatedAt, true));
      }
      var helper := if assistedBy.Some? then assistedBy
                else if userId in rows then rows[userId].assistedBy else None;
      rows := rows[userId := DraftRow(next, now, helper)];
      return Ok(Saved(now, false));
    }
  }

  /** Comparing against any read-back decides whether the stored draft itself is the same. */
  lemma {:induction false} SameDraftsPrintAlike(readBack: Draft, stored: Draft, next: Draft)
    requires JsonDraft(readBack) && JsonDraft(stored) && JsonDraft(next)
    requires SameDraft(readBack, stored)
    ensures Stringify(Content(readBack)) == Stringify(Content(next)) <==> SameDraft(stored, next)
  {
    ContentIsJson(readBack);
    ContentIsJson(stored);
    ContentIsJson(next);
    SameContent(readBack, stored);
    SameContent(stored, next);
    CanonicalPrinter(Content(readBack), Content(stored));
    CanonicalPrinter(Content(readBack), Content(next));
    CanonicalPrinter(Content(stored), Content(next));
  }

  // ---- Saving a stored draft again ----

  ghost function Keys(fields: seq<Field<Value>>): set<string> {
    set i | 0 <= i < |fields| :: fields[i].key
  }

  lemma {:induction false} DistinctCount(fields: seq<Field<Value>>)
    requires DistinctKeys(fields)
    ensures |Keys(fields)| == |fields|
  {
    if fields != [] {
      var n := |fields| - 1;
      DistinctCount(fields[..n]);
      assert Keys(fields) == Keys(fields[..n]) + {fields[n].key};
    }
  }

  lemma {:induction false} SameFits(a: Value, b: Value, depth: nat)
    requires IsJson(a) && IsJson(b) && Same(a, b) && Fits(a, depth)
    ensures Fits(b, depth)
  {
    match a
    case Arr(xs) =>
      forall i | 0 <= i < |xs|
        ensures Fits(b.items[i], depth + 1)
      {
        SameFits(xs[i], b.items[i], depth + 1);
      }
    case Obj(fs) =>
      var gs := b.fields;
      DistinctCount(fs);
      DistinctCount(gs);
      SameKeys(fs, gs);
      forall j | 0 <= j < |gs|
        ensures FormKey(gs[j].key) && Fits(gs[j].value, depth + 1)
      {
        assert HasKey(gs, gs[j].key);
        var i :| 0 <= i < |fs| && fs[i].key == gs[j].key;
        SameFits(fs[i].value, gs[j].value, depth + 1);
      }
    case _ =>
  }

  lemma SameKeys(fs: seq<Field<Value>>, gs: seq<Field<Value>>)
    requires forall key :: HasKey(fs, key) <==> HasKey(gs, key)
    ensures Keys(fs) == Keys(gs)
  {
    forall key
      ensures key in Keys(fs) <==> key in Keys(gs)
    {
      assert key in Keys(fs) <==> HasKey(fs, key);
      assert key in Keys(gs) <==> HasKey(gs, key);
    }
  }

  lemma {:induction false} CleanEntriesKept(missing: seq<MissingField>)
    requires forall i | 0 <= i < |missing| :: CleanEntry(missing[i])
    ensures CleanMissingFields(MissingArray(missing).items) == missing
  {
    if missing != [] {
      MissingRoundTrip(Null, missing[0]);
      CleanEntriesKept(missing[1..]);
      assert MissingArray(missing).items[1..] == MissingArray(missing[1..]).items;
      assert missing == [missing[0]] + missing[1..];
    }
  }

  lemma {:induction false} CleanedEntriesClean(items: seq<Value>)
    ensures forall m | m in CleanMissingFields(items) :: CleanEntry(m)
  {
    if items != [] {
      CleanedEntriesClean(items[1..]);
      if CleanMissing(items[0]).Some? {
        MissingRoundTrip(items[0], CleanMissing(items[0]).value);
      }
    }
  }

  /** Sending back a stored draft, with the keys of its data in any order, is accepted and changes nothing. */
  lemma ResavingChangesNothing(dto: SaveDto, readBack: Draft)
    requires WellTypedDto(dto) && dto.data.Obj? && !Oversized(Cleaned(dto).data)
    requires JsonDraft(readBack) && SameDraft(readBack, Cleaned(dto))
    ensures
      var again := SaveDto(readBack.kind, readBack.step, readBack.data,
                           MissingArray(readBack.missing).items, readBack.progress);
      && again.data.Obj? && !Oversized(Sanitize(again.data, 0))
      && SameDraft(Cleaned(dto), Cleaned(again))
  {
    var stored := Cleaned(dto);
    CleanedIsJson(dto);
    SanitizeFits(dto.data, 0);
    CanonicalPrinter(stored.data, readBack.data);
    CanonicalPrinter(readBack.data, stored.data);
    SameFits(stored.data, readBack.data, 0);
    FitsIsKept(readBack.data, 0);
    CleanedEntriesClean(dto.missing);
    forall i | 0 <= i < |stored.missing|
      ensures CleanEntry(stored.missing[i])
    {
      assert stored.missing[i] in stored.missing;
    }
    CleanEntriesKept(readBack.missing);
  }
}
