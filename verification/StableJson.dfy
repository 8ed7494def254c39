/**
 * The canonical printer used to compare onboarding drafts. Values are what JavaScript holds after parsing
 * a request; an object is the sequence of its entries, in insertion order.
 */
module StableJson {

  datatype Value =
    | Undefined
    | Null
    | Bool(b: bool)
    | Num(literal: string)  // a finite number, by the decimal text JavaScript prints for it
    | NonFinite             // NaN and the infinities
    | Str(text: string)
    | Arr(items: seq<Value>)
    | Obj(fields: seq<Field<Value>>)

  datatype Field<+V> = Field(key: string, value: V)

  // ---- JSON values (RFC 8259) and equality up to the order of object keys ----

  predicate IsNumberChar(c: char) {
    '0' <= c <= '9' || c == '+' || c == '-' || c == '.' || c == 'e'
  }

  predicate IsNumeral(s: string) {
    |s| > 0 && forall i | 0 <= i < |s| :: IsNumberChar(s[i])
  }

  predicate DistinctKeys<V>(fields: seq<Field<V>>) {
    forall i, j | 0 <= i < j < |fields| :: fields[i].key != fields[j].key
  }

  predicate IsJson(v: Value) {
    match v
    case Undefined => false
    case NonFinite => false
    case Num(literal) => IsNumeral(literal)
    case Arr(items) => forall i | 0 <= i < |items| :: IsJson(items[i])
    case Obj(fields) => DistinctKeys(fields) && forall i | 0 <= i < |fields| :: IsJson(fields[i].value)
    case _ => true
  }

  ghost predicate HasKey<V>(fields: seq<Field<V>>, key: string) {
    exists i | 0 <= i < |fields| :: fields[i].key == key
  }

  /** The same JSON value, whatever the order of the object keys. */
  ghost predicate Same(a: Value, b: Value) {
    match (a, b)
    case (Arr(xs), Arr(ys)) => |xs| == |ys| && forall i | 0 <= i < |xs| :: Same(xs[i], ys[i])
    case (Obj(fs), Obj(gs)) =>
      && (forall key :: HasKey(fs, key) <==> HasKey(gs, key))
      && (forall i, j | 0 <= i < |fs| && 0 <= j < |gs| && fs[i].key == gs[j].key :: Same(fs[i].value, gs[j].value))
    case _ => a == b
  }

  // ---- The printer ----

  function HexDigit(n: int): char
    requires 0 <= n < 16
  {
    "0123456789abcdef"[n]
  }

  /** One character of JSON.stringify's string literal. */
  function EscapeChar(c: char): string {
    var n := c as int;
    if c == '"' then "\\\""
    else if c == '\\' then "\\\\"
    else if n == 8 then "\\b"
    else if n == 9 then "\\t"
    else if n == 10 then "\\n"
    else if n == 12 then "\\f"
    else if n == 13 then "\\r"
    else if n < 32 then "\\u00" + [HexDigit(n / 16), HexDigit(n % 16)]
    else [c]
  }

  function Escape(s: string): string {
    if s == "" then "" else EscapeChar(s[0]) + Escape(s[1..])
  }

  function Quote(s: string): string {
    "\"" + Escape(s) + "\""
  }

  /** The `<` of strings. */
  predicate Before(a: string, b: string) {
    b != "" && (a == "" || a[0] < b[0] || (a[0] == b[0] && Before(a[1..], b[1..])))
  }

  predicate SortedByKey<V>(ps: seq<Field<V>>) {
    forall i, j | 0 <= i < j < |ps| :: !Before(ps[j].key, ps[i].key)
  }

  function Insert<V>(p: Field<V>, ps: seq<Field<V>>): (r: seq<Field<V>>)
    ensures multiset(r) == multiset(ps) + multiset{p}
  {
    if ps == [] then [p]
    else if Before(ps[0].key, p.key) then
      assert ps == [ps[0]] + ps[1..];
      [ps[0]] + Insert(p, ps[1..])
    else [p] + ps
  }

  function SortByKey<V>(ps: seq<Field<V>>): (r: seq<Field<V>>)
    ensures multiset(r) == multiset(ps)
  {
    if ps == [] then []
    else
      assert ps == [ps[0]] + ps[1..];
      Insert(ps[0], SortByKey(ps[1..]))
  }

  /** An array element that is undefined joins as nothing; so does undefined itself. */
  function Stringify(v: Value): string {
    match v
    case Undefined => ""
    case Null => "null"
    case Bool(b) => if b then "true" else "false"
    case Num(literal) => literal
    case NonFinite => "null"
    case Str(text) => Quote(text)
    case Arr(items) => "[" + JoinItems(items) + "]"
    case Obj(fields) => "{" + JoinFields(SortByKey(Printed(fields))) + "}"
  }

  function JoinItems(items: seq<Value>): string {
    if items == [] then ""
    else if |items| == 1 then Stringify(items[0])
    else Stringify(items[0]) + ("," + JoinItems(items[1..]))
  }

  /** The entries that are not undefined, each value printed. Sorting looks only at the keys. */
  function Printed(fields: seq<Field<Value>>): seq<Field<string>> {
    if fields == [] then []
    else
      (if fields[0].value.Undefined? then [] else [Field(fields[0].key, Stringify(fields[0].value))]) + Printed(fields[1..])
  }

  function JoinFields(ps: seq<Field<string>>): string {
    if ps == [] then ""
    else
      Quote(ps[0].key) + (":" + (ps[0].value + if |ps| == 1 then "" else "," + JoinFields(ps[1..])))
  }

  // ---- String order and sorting ----

  lemma {:induction false} BeforeIrreflexive(a: string)
    ensures !Before(a, a)
  {
    if a != "" {
      BeforeIrreflexive(a[1..]);
    }
  }

  lemma {:induction false} BeforeTotal(a: string, b: string)
    ensures Before(a, b) || a == b || Before(b, a)
  {
    if a != "" && b != "" && a[0] == b[0] {
      BeforeTotal(a[1..], b[1..]);
      assert a == [a[0]] + a[1..] && b == [b[0]] + b[1..];
    }
  }

  lemma {:induction false} BeforeTransitive(a: string, b: string, c: string)
    requires Before(a, b) && Before(b, c)
    ensures Before(a, c)
  {
    if a != "" && a[0] == b[0] == c[0] {
      BeforeTransitive(a[1..], b[1..], c[1..]);
    }
  }

  lemma NotBeforeTransitive(a: string, b: string, c: string)
    requires !Before(b, a) && !Before(c, b)
    ensures !Before(c, a)
  {
    BeforeTotal(a, b);
    BeforeTotal(b, c);
    if Before(c, a) {
      if Before(a, b) {
        BeforeTransitive(c, a, b);
      }
    }
  }

  lemma SortedCons<V>(first: Field<V>, rest: seq<Field<V>>)
    requires SortedByKey(rest) && forall q | q in rest :: !Before(q.key, first.key)
    ensures SortedByKey([first] + rest)
  {
    var ps := [first] + rest;
    forall i, j | 0 <= i < j < |ps|
      ensures !Before(ps[j].key, ps[i].key)
    {
      assert ps[j] == rest[j - 1] && ps[j] in rest;
    }
  }

  /** What is inserted after the first stays after it. */
  lemma {:induction false} InsertAfter<V>(first: Field<V>, p: Field<V>, rest: seq<Field<V>>)
    requires Before(first.key, p.key) && forall q | q in rest :: !Before(q.key, first.key)
    ensures forall q | q in Insert(p, rest) :: !Before(q.key, first.key)
  {
    forall q | q in Insert(p, rest)
      ensures !Before(q.key, first.key)
    {
      assert q in multiset(Insert(p, rest));
      if q == p {
        BeforeIrreflexive(p.key);
        if Before(p.key, first.key) {
          BeforeTransitive(p.key, first.key, p.key);
        }
      } else {
        assert q in multiset(rest);
      }
    }
  }

  lemma {:induction false} InsertSorted<V>(p: Field<V>, ps: seq<Field<V>>)
    requires SortedByKey(ps)
    ensures SortedByKey(Insert(p, ps))
  {
    if ps != [] {
      if Before(ps[0].key, p.key) {
        InsertSorted(p, ps[1..]);
        InsertAfter(ps[0], p, ps[1..]);
        SortedCons(ps[0], Insert(p, ps[1..]));
      } else {
        forall q | q in ps
          ensures !Before(q.key, p.key)
        {
          BeforeIrreflexive(ps[0].key);
          NotBeforeTransitive(p.key, ps[0].key, q.key);
        }
        SortedCons(p, ps);
      }
    }
  }

  lemma {:induction false} SortSorted<V>(ps: seq<Field<V>>)
    ensures SortedByKey(SortByKey(ps))
  {
    if ps != [] {
      SortSorted(ps[1..]);
      InsertSorted(ps[0], SortByKey(ps[1..]));
    }
  }

  lemma SortedHead<V>(ps: seq<Field<V>>, qs: seq<Field<V>>)
    requires SortedByKey(ps) && SortedByKey(qs) && DistinctKeys(ps)
    requires ps != [] && qs != [] && multiset(ps) == multiset(qs)
    ensures ps[0] == qs[0]
  {
    assert ps[0] in multiset(qs) && qs[0] in multiset(ps);
    var i :| 0 <= i < |ps| && ps[i] == qs[0];
    var j :| 0 <= j < |qs| && qs[j] == ps[0];
    BeforeIrreflexive(ps[0].key);
    BeforeTotal(ps[0].key, qs[0].key);
  }

  /** A sorted list is determined by its entries when the keys are distinct. */
  lemma HeadsAndTails<T>(a: seq<T>, b: seq<T>)
    requires a != [] && b != [] && a[0] == b[0] && a[1..] == b[1..]
    ensures a == b
  {
    assert a == [a[0]] + a[1..] && b == [b[0]] + b[1..];
  }

  lemma RestOfMultiset<V>(ps: seq<Field<V>>)
    requires ps != []
    ensures multiset(ps[1..]) == multiset(ps) - multiset{ps[0]}
  {
    assert ps == [ps[0]] + ps[1..];
  }

  lemma {:induction false} SortedUnique<V>(ps: seq<Field<V>>, qs: seq<Field<V>>)
    requires SortedByKey(ps) && SortedByKey(qs)
    requires DistinctKeys(ps) && multiset(ps) == multiset(qs)
    ensures ps == qs
  {
    assert |multiset(ps)| == |ps| && |multiset(qs)| == |qs|;
    if ps != [] {
      SortedHead(ps, qs);
      RestOfMultiset(ps);
      RestOfMultiset(qs);
      SortedUnique(ps[1..], qs[1..]);
      HeadsAndTails(ps, qs);
    }
  }

  // ---- Unique decoding: what follows a printed value does not change where it ends ----

  lemma Assoc(a: string, b: string, c: string)
    ensures a + b + c == a + (b + c)
  {
  }

  lemma HexDigitInjective(m: int, n: int)
    requires 0 <= m < 16 && 0 <= n < 16 && HexDigit(m) == HexDigit(n)
    ensures m == n
  {
  }

  lemma SplitEscapeChar(a: char, b: char, x: string, y: string)
    requires EscapeChar(a) + x == EscapeChar(b) + y
    ensures a == b && x == y
  {
    var u, v := EscapeChar(a), EscapeChar(b);
    var s := u + x;
    assert s[0] == u[0] == v[0];
    if |u| > 1 && |v| > 1 {
      assert s[1] == u[1] == v[1];
      if |u| == 6 {
        assert s[4] == u[4] == v[4] && s[5] == u[5] == v[5];
        HexDigitInjective(a as int / 16, b as int / 16);
        HexDigitInjective(a as int % 16, b as int % 16);
      }
    }
    assert a == b;
    assert x == s[|u|..] == y;
  }

  lemma {:induction false} SplitEscape(s: string, t: string, x: string, y: string)
    requires Escape(s) + ("\"" + x) == Escape(t) + ("\"" + y)
    ensures s == t && x == y
  {
    EscapeHead(s, x);
    EscapeHead(t, y);
    if s == "" {
      SplitPrefix("\"", x, y);
    } else {
      SplitEscapeChar(s[0], t[0], Escape(s[1..]) + ("\"" + x), Escape(t[1..]) + ("\"" + y));
      SplitEscape(s[1..], t[1..], x, y);
      assert s == [s[0]] + s[1..] && t == [t[0]] + t[1..];
    }
  }

  lemma EscapeHead(s: string, x: string)
    ensures s == "" ==> Escape(s) + ("\"" + x) == "\"" + x
    ensures s != "" ==> Escape(s) + ("\"" + x) == EscapeChar(s[0]) + (Escape(s[1..]) + ("\"" + x))
    ensures (Escape(s) + ("\"" + x))[0] == '"' <==> s == ""
  {
    if s != "" {
      Assoc(EscapeChar(s[0]), Escape(s[1..]), "\"" + x);
    }
  }

  lemma SplitQuote(s: string, t: string, x: string, y: string)
    requires Quote(s) + x == Quote(t) + y
    ensures s == t && x == y
  {
    Regroup("\"", Escape(s), "\"", x);
    Regroup("\"", Escape(t), "\"", y);
    SplitPrefix("\"", Escape(s) + ("\"" + x), Escape(t) + ("\"" + y));
    SplitEscape(s, t, x, y);
  }

  /** What may follow a value inside an array or an object, or the end of the text. */
  predicate Delimited(rest: string) {
    rest == "" || rest[0] == ',' || rest[0] == ']' || rest[0] == '}'
  }

  lemma Overlap(l: string, m: string, x: string, y: string)
    requires l + x == m + y && |l| < |m|
    ensures x != "" && x[0] == m[|l|]
  {
    var s := l + x;
    assert |s| == |m + y|;
    assert s[|l|] == m[|l|];
  }

  lemma SplitNumeral(l: string, m: string, x: string, y: string)
    requires IsNumeral(l) && IsNumeral(m) && Delimited(x) && Delimited(y)
    requires l + x == m + y
    ensures l == m && x == y
  {
    var s := l + x;
    if |l| < |m| {
      Overlap(l, m, x, y);
      assert false;
    }
    if |m| < |l| {
      Overlap(m, l, y, x);
      assert false;
    }
    assert l == s[..|l|] && m == s[..|m|];
    assert x == s[|l|..] && y == s[|m|..];
  }

  /** Which kind of value a text starts. */
  lemma FirstChar(v: Value)
    requires IsJson(v)
    ensures Stringify(v) != ""
    ensures
      var c := Stringify(v)[0];
      match v
      case Null => c == 'n'
      case Bool(b) => c == if b then 't' else 'f'
      case Num(_) => IsNumberChar(c)
      case Str(_) => c == '"'
      case Arr(_) => c == '['
      case Obj(_) => c == '{'
      case _ => true
  {
  }

  lemma SplitPrefix(p: string, x: string, y: string)
    requires p + x == p + y
    ensures x == y
  {
    assert x == (p + x)[|p|..] == (p + y)[|p|..] == y;
  }

  lemma Regroup(open: string, body: string, close: string, rest: string)
    ensures open + body + close + rest == open + (body + (close + rest))
  {
    Assoc(open + body, close, rest);
    Assoc(open, body, close + rest);
  }

  lemma {:induction false} SplitValue(a: Value, b: Value, x: string, y: string)
    requires IsJson(a) && IsJson(b) && Delimited(x) && Delimited(y)
    requires Stringify(a) + x == Stringify(b) + y
    ensures Stringify(a) == Stringify(b) && x == y
    ensures a.Arr? ==> b.Arr? && ItemsAgree(a.items, b.items)
    ensures a.Obj? ==> b.Obj? && SortByKey(Printed(a.fields)) == SortByKey(Printed(b.fields))
    ensures !a.Arr? && !a.Obj? ==> a == b
    decreases a, 1
  {
    FirstChar(a);
    FirstChar(b);
    assert (Stringify(a) + x)[0] == Stringify(a)[0] == Stringify(b)[0];
    match a
    case Num(l) =>
      SplitNumeral(l, b.literal, x, y);
    case Str(t) =>
      SplitQuote(t, b.text, x, y);
    case Arr(xs) =>
      Regroup("[", JoinItems(xs), "]", x);
      Regroup("[", JoinItems(b.items), "]", y);
      SplitPrefix("[", JoinItems(xs) + ("]" + x), JoinItems(b.items) + ("]" + y));
      SplitItems(xs, b.items, x, y);
      ItemsAgreeJoin(xs, b.items);
    case Obj(fs) =>
      var ps, qs := SortByKey(Printed(fs)), SortByKey(Printed(b.fields));
      Regroup("{", JoinFields(ps), "}", x);
      Regroup("{", JoinFields(qs), "}", y);
      SplitPrefix("{", JoinFields(ps) + ("}" + x), JoinFields(qs) + ("}" + y));
      PrintedFrom(fs);
      PrintedFrom(b.fields);
      SameMembers(ps, Printed(fs));
      SameMembers(qs, Printed(b.fields));
      SplitFields(fs, b.fields, ps, qs, x, y);
    case _ =>
      SplitPrefix(Stringify(a), x, y);
  }

  /** Two arrays print alike, element by element. */
  ghost predicate ItemsAgree(xs: seq<Value>, ys: seq<Value>) {
    |xs| == |ys| && forall i | 0 <= i < |xs| :: Stringify(xs[i]) == Stringify(ys[i])
  }

  lemma {:induction false} ItemsAgreeJoin(xs: seq<Value>, ys: seq<Value>)
    requires ItemsAgree(xs, ys)
    ensures JoinItems(xs) == JoinItems(ys)
  {
    if |xs| > 1 {
      ItemsAgreeJoin(xs[1..], ys[1..]);
    }
  }

  function ItemsTail(xs: seq<Value>, x: string): string
    requires xs != []
  {
    if |xs| == 1 then "]" + x else "," + (JoinItems(xs[1..]) + ("]" + x))
  }

  /** Texts that begin with printed items agree on whether there are any. */
  lemma {:induction false} NoItemsTogether(xs: seq<Value>, ys: seq<Value>, x: string, y: string)
    requires (forall i | 0 <= i < |xs| :: IsJson(xs[i])) && (forall i | 0 <= i < |ys| :: IsJson(ys[i]))
    requires JoinItems(xs) + ("]" + x) == JoinItems(ys) + ("]" + y)
    ensures xs == [] <==> ys == []
    ensures xs == [] ==> x == y
    ensures xs != [] && ys != [] ==> Stringify(xs[0]) + ItemsTail(xs, x) == Stringify(ys[0]) + ItemsTail(ys, y)
    ensures xs != [] && ys != [] ==> Delimited(ItemsTail(xs, x)) && Delimited(ItemsTail(ys, y))
  {
    ItemsHead(xs, x);
    ItemsHead(ys, y);
    if xs == [] {
      SplitPrefix("]", x, y);
    }
  }

  lemma {:induction false} ItemsTailSplit(xs: seq<Value>, ys: seq<Value>, x: string, y: string)
    requires xs != [] && ys != [] && ItemsTail(xs, x) == ItemsTail(ys, y)
    ensures |xs| == 1 <==> |ys| == 1
    ensures |xs| == 1 ==> x == y
    ensures |xs| != 1 ==> JoinItems(xs[1..]) + ("]" + x) == JoinItems(ys[1..]) + ("]" + y)
  {
    assert ItemsTail(xs, x)[0] == (if |xs| == 1 then ']' else ',') && ItemsTail(ys, y)[0] == if |ys| == 1 then ']' else ',';
    if |xs| == 1 {
      SplitPrefix("]", x, y);
    } else {
      SplitPrefix(",", JoinItems(xs[1..]) + ("]" + x), JoinItems(ys[1..]) + ("]" + y));
    }
  }

  lemma {:induction false} SplitItems(xs: seq<Value>, ys: seq<Value>, x: string, y: string)
    requires (forall i | 0 <= i < |xs| :: IsJson(xs[i])) && (forall i | 0 <= i < |ys| :: IsJson(ys[i]))
    requires JoinItems(xs) + ("]" + x) == JoinItems(ys) + ("]" + y)
    ensures ItemsAgree(xs, ys) && x == y
    decreases xs, 0
  {
    NoItemsTogether(xs, ys, x, y);
    if xs != [] {
      SplitValue(xs[0], ys[0], ItemsTail(xs, x), ItemsTail(ys, y));
      ItemsTailSplit(xs, ys, x, y);
      if |xs| > 1 {
        SplitItems(xs[1..], ys[1..], x, y);
        ItemsAgreeCons(xs, ys);
      }
    }
  }

  lemma {:induction false} ItemsHead(xs: seq<Value>, x: string)
    requires forall i | 0 <= i < |xs| :: IsJson(xs[i])
    ensures xs == [] ==> JoinItems(xs) + ("]" + x) == "]" + x
    ensures xs != [] ==> JoinItems(xs) + ("]" + x) == Stringify(xs[0]) + ItemsTail(xs, x)
    ensures (JoinItems(xs) + ("]" + x))[0] == ']' <==> xs == []
    ensures xs != [] ==> (ItemsTail(xs, x)[0] == if |xs| == 1 then ']' else ',')
  {
    if xs != [] {
      FirstChar(xs[0]);
      if |xs| > 1 {
        Assoc(Stringify(xs[0]), "," + JoinItems(xs[1..]), "]" + x);
        Assoc(",", JoinItems(xs[1..]), "]" + x);
      }
    }
  }

  lemma ItemsAgreeCons(xs: seq<Value>, ys: seq<Value>)
    requires xs != [] && ys != [] && Stringify(xs[0]) == Stringify(ys[0]) && ItemsAgree(xs[1..], ys[1..])
    ensures ItemsAgree(xs, ys)
  {
    forall i | 0 <= i < |xs|
      ensures Stringify(xs[i]) == Stringify(ys[i])
    {
      if i > 0 {
        assert xs[i] == xs[1..][i - 1] && ys[i] == ys[1..][i - 1];
      }
    }
  }

  /** `p` prints one of `fields`. */
  ghost predicate Prints(fields: seq<Field<Value>>, p: Field<string>) {
    exists i | 0 <= i < |fields| ::
      fields[i].key == p.key && !fields[i].value.Undefined? && Stringify(fields[i].value) == p.value
  }

  lemma {:induction false} PrintedFrom(fields: seq<Field<Value>>)
    ensures forall p :: p in Printed(fields) <==> Prints(fields, p)
  {
    if fields != [] {
      PrintedFrom(fields[1..]);
      forall p
        ensures p in Printed(fields) <==> Prints(fields, p)
      {
        if Prints(fields, p) {
          var i :| 0 <= i < |fields|
            && fields[i].key == p.key && !fields[i].value.Undefined? && Stringify(fields[i].value) == p.value;
          if i > 0 {
            assert fields[1..][i - 1] == fields[i];
            assert Prints(fields[1..], p);
          }
        }
        if Prints(fields[1..], p) {
          var i :| 0 <= i < |fields[1..]|
            && fields[1..][i].key == p.key && !fields[1..][i].value.Undefined?
            && Stringify(fields[1..][i].value) == p.value;
          assert fields[i + 1] == fields[1..][i];
        }
      }
    }
  }

  lemma SameMembers<T>(xs: seq<T>, ys: seq<T>)
    requires multiset(xs) == multiset(ys)
    ensures forall t :: t in xs <==> t in ys
  {
    forall t
      ensures t in xs <==> t in ys
    {
      assert t in xs <==> t in multiset(xs);
      assert t in ys <==> t in multiset(ys);
    }
  }

  lemma MemberOfBoth<T>(xs: seq<T>, ys: seq<T>, i: int)
    requires multiset(xs) == multiset(ys) && 0 <= i < |xs|
    ensures xs[i] in ys
  {
    assert xs[i] in multiset(ys);
  }

  function FieldsTail(ps: seq<Field<string>>, x: string): string
    requires ps != []
  {
    if |ps| == 1 then "}" + x else "," + (JoinFields(ps[1..]) + ("}" + x))
  }

  lemma {:induction false} NoFieldsTogether(ps: seq<Field<string>>, qs: seq<Field<string>>, x: string, y: string)
    requires JoinFields(ps) + ("}" + x) == JoinFields(qs) + ("}" + y)
    ensures ps == [] <==> qs == []
    ensures ps == [] ==> x == y
    ensures ps != [] && qs != [] ==> Delimited(FieldsTail(ps, x)) && Delimited(FieldsTail(qs, y))
  {
    FieldsHead(ps, x);
    FieldsHead(qs, y);
    if ps == [] {
      SplitPrefix("}", x, y);
    }
  }

  lemma {:induction false} FieldsTailSplit(ps: seq<Field<string>>, qs: seq<Field<string>>, x: string, y: string)
    requires ps != [] && qs != [] && FieldsTail(ps, x) == FieldsTail(qs, y)
    ensures |ps| == 1 <==> |qs| == 1
    ensures |ps| == 1 ==> x == y
    ensures |ps| != 1 ==> JoinFields(ps[1..]) + ("}" + x) == JoinFields(qs[1..]) + ("}" + y)
  {
    assert FieldsTail(ps, x)[0] == (if |ps| == 1 then '}' else ',') && FieldsTail(qs, y)[0] == if |qs| == 1 then '}' else ',';
    if |ps| == 1 {
      SplitPrefix("}", x, y);
    } else {
      SplitPrefix(",", JoinFields(ps[1..]) + ("}" + x), JoinFields(qs[1..]) + ("}" + y));
    }
  }

  lemma {:induction false} SplitFields(
      fs: seq<Field<Value>>, gs: seq<Field<Value>>, ps: seq<Field<string>>, qs: seq<Field<string>>,
      x: string, y: string)
    requires (forall i | 0 <= i < |fs| :: IsJson(fs[i].value)) && (forall i | 0 <= i < |gs| :: IsJson(gs[i].value))
    requires (forall p | p in ps :: Prints(fs, p)) && (forall q | q in qs :: Prints(gs, q))
    requires JoinFields(ps) + ("}" + x) == JoinFields(qs) + ("}" + y)
    ensures ps == qs && x == y
    decreases fs, 1, |ps|
  {
    NoFieldsTogether(ps, qs, x, y);
    if ps != [] {
      SplitKey(ps, qs, x, y);
      SplitPrinted(fs, gs, ps[0], qs[0], FieldsTail(ps, x), FieldsTail(qs, y));
      FieldsTailSplit(ps, qs, x, y);
      if |ps| > 1 {
        SplitFields(fs, gs, ps[1..], qs[1..], x, y);
      }
      HeadsAndTails(ps, qs);
    }
  }

  lemma {:induction false} SplitPrinted(
      fs: seq<Field<Value>>, gs: seq<Field<Value>>, p: Field<string>, q: Field<string>, x: string, y: string)
    requires (forall i | 0 <= i < |fs| :: IsJson(fs[i].value)) && (forall i | 0 <= i < |gs| :: IsJson(gs[i].value))
    requires Prints(fs, p) && Prints(gs, q)
    requires p.value + x == q.value + y && Delimited(x) && Delimited(y)
    ensures p.value == q.value && x == y
    decreases fs, 0, 0
  {
    var i :| 0 <= i < |fs| && fs[i].key == p.key && Stringify(fs[i].value) == p.value;
    var j :| 0 <= j < |gs| && gs[j].key == q.key && Stringify(gs[j].value) == q.value;
    SplitValue(fs[i].value, gs[j].value, x, y);
  }

  lemma {:induction false} SplitKey(ps: seq<Field<string>>, qs: seq<Field<string>>, x: string, y: string)
    requires ps != [] && qs != []
    requires JoinFields(ps) + ("}" + x) == JoinFields(qs) + ("}" + y)
    ensures ps[0].key == qs[0].key
    ensures ps[0].value + FieldsTail(ps, x) == qs[0].value + FieldsTail(qs, y)
  {
    FieldsHead(ps, x);
    FieldsHead(qs, y);
    SplitQuote(ps[0].key, qs[0].key,
               ":" + (ps[0].value + FieldsTail(ps, x)), ":" + (qs[0].value + FieldsTail(qs, y)));
    SplitPrefix(":", ps[0].value + FieldsTail(ps, x), qs[0].value + FieldsTail(qs, y));
  }

  lemma {:induction false} FieldsHead(ps: seq<Field<string>>, x: string)
    ensures ps == [] ==> JoinFields(ps) + ("}" + x) == "}" + x
    ensures ps != [] ==>
              JoinFields(ps) + ("}" + x) == Quote(ps[0].key) + (":" + (ps[0].value + FieldsTail(ps, x)))
    ensures (JoinFields(ps) + ("}" + x))[0] == '}' <==> ps == []
    ensures ps != [] ==> (FieldsTail(ps, x)[0] == if |ps| == 1 then '}' else ',')
  {
    if ps != [] {
      var tail := if |ps| == 1 then "" else "," + JoinFields(ps[1..]);
      Assoc(Quote(ps[0].key), ":" + (ps[0].value + tail), "}" + x);
      Assoc(":", ps[0].value + tail, "}" + x);
      Assoc(ps[0].value, tail, "}" + x);
      if |ps| > 1 {
        Assoc(",", JoinFields(ps[1..]), "}" + x);
      } else {
        assert tail + ("}" + x) == "}" + x;
      }
    }
  }

  // ---- The printer is canonical ----

  lemma {:induction false} PrintedAt(fields: seq<Field<Value>>)
    requires forall i | 0 <= i < |fields| :: IsJson(fields[i].value)
    ensures |Printed(fields)| == |fields|
    ensures forall i | 0 <= i < |fields| :: Printed(fields)[i] == Field(fields[i].key, Stringify(fields[i].value))
  {
    if fields != [] {
      PrintedAt(fields[1..]);
    }
  }

  lemma {:induction false} DistinctCounts<V>(ps: seq<Field<V>>, p: Field<V>)
    requires DistinctKeys(ps)
    ensures multiset(ps)[p] == if p in ps then 1 else 0
  {
    if ps != [] {
      assert ps == [ps[0]] + ps[1..];
      DistinctCounts(ps[1..], p);
      assert ps[0] !in ps[1..];
    }
  }

  lemma {:induction false} ItemsInjective(xs: seq<Value>, ys: seq<Value>)
    requires (forall i | 0 <= i < |xs| :: IsJson(xs[i])) && (forall i | 0 <= i < |ys| :: IsJson(ys[i]))
    requires ItemsAgree(xs, ys)
    ensures Same(Arr(xs), Arr(ys))
    decreases xs, 0
  {
    forall i | 0 <= i < |xs|
      ensures Same(xs[i], ys[i])
    {
      StringifyInjective(xs[i], ys[i]);
    }
  }

  lemma {:induction false} FieldsInjective(fs: seq<Field<Value>>, gs: seq<Field<Value>>)
    requires DistinctKeys(fs) && DistinctKeys(gs)
    requires (forall i | 0 <= i < |fs| :: IsJson(fs[i].value)) && (forall i | 0 <= i < |gs| :: IsJson(gs[i].value))
    requires SortByKey(Printed(fs)) == SortByKey(Printed(gs))
    ensures Same(Obj(fs), Obj(gs))
    decreases fs, 0
  {
    SameText(fs, gs);
    forall i, j | 0 <= i < |fs| && 0 <= j < |gs| && fs[i].key == gs[j].key
      ensures Same(fs[i].value, gs[j].value)
    {
      StringifyInjective(fs[i].value, gs[j].value);
    }
  }

  lemma {:induction false} StringifyInjective(a: Value, b: Value)
    requires IsJson(a) && IsJson(b) && Stringify(a) == Stringify(b)
    ensures Same(a, b)
    decreases a, 1
  {
    assert Stringify(a) + "" == Stringify(b) + "";
    SplitValue(a, b, "", "");
    match a
    case Arr(xs) => ItemsInjective(xs, b.items);
    case Obj(fs) => FieldsInjective(fs, b.fields);
    case _ =>
  }

  /** Objects whose sorted printed entries agree have the same keys, with equal texts. */
  lemma {:induction false} SameText(fs: seq<Field<Value>>, gs: seq<Field<Value>>)
    requires DistinctKeys(fs) && DistinctKeys(gs)
    requires (forall i | 0 <= i < |fs| :: IsJson(fs[i].value)) && (forall i | 0 <= i < |gs| :: IsJson(gs[i].value))
    requires SortByKey(Printed(fs)) == SortByKey(Printed(gs))
    ensures forall key :: HasKey(fs, key) <==> HasKey(gs, key)
    ensures forall i, j | 0 <= i < |fs| && 0 <= j < |gs| && fs[i].key == gs[j].key ::
              Stringify(fs[i].value) == Stringify(gs[j].value)
  {
    var ps, qs := Printed(fs), Printed(gs);
    SameMembers(SortByKey(ps), ps);
    SameMembers(SortByKey(qs), qs);
    assert forall p :: p in ps <==> p in qs;
    PrintedAt(fs);
    PrintedAt(gs);
    KeysFromPrinted(fs, gs);
    KeysFromPrinted(gs, fs);
    forall i, j | 0 <= i < |fs| && 0 <= j < |gs| && fs[i].key == gs[j].key
      ensures Stringify(fs[i].value) == Stringify(gs[j].value)
    {
      assert ps[i] in ps;
      OnlyEntry(qs, ps[i], j);
    }
  }

  lemma OnlyEntry<V>(ps: seq<Field<V>>, p: Field<V>, j: int)
    requires DistinctKeys(ps) && p in ps && 0 <= j < |ps| && p.key == ps[j].key
    ensures p == ps[j]
  {
    var k :| 0 <= k < |ps| && ps[k] == p;
    assert k == j;
  }

  lemma {:induction false} KeysFromPrinted(fs: seq<Field<Value>>, gs: seq<Field<Value>>)
    requires |Printed(fs)| == |fs| && |Printed(gs)| == |gs|
    requires forall i | 0 <= i < |fs| :: Printed(fs)[i].key == fs[i].key
    requires forall i | 0 <= i < |gs| :: Printed(gs)[i].key == gs[i].key
    requires forall p | p in Printed(fs) :: p in Printed(gs)
    ensures forall key | HasKey(fs, key) :: HasKey(gs, key)
  {
    forall key | HasKey(fs, key)
      ensures HasKey(gs, key)
    {
      var i :| 0 <= i < |fs| && fs[i].key == key;
      assert Printed(fs)[i] in Printed(gs);
      var j :| 0 <= j < |gs| && Printed(gs)[j] == Printed(fs)[i];
    }
  }

  lemma {:induction false} StringifyRespectsSame(a: Value, b: Value)
    requires IsJson(a) && IsJson(b) && Same(a, b)
    ensures Stringify(a) == Stringify(b)
  {
    match a
    case Arr(xs) =>
      forall i | 0 <= i < |xs|
        ensures Stringify(xs[i]) == Stringify(b.items[i])
      {
        StringifyRespectsSame(xs[i], b.items[i]);
      }
      ItemsAgreeJoin(xs, b.items);
    case Obj(fs) =>
      var gs := b.fields;
      forall i, j | 0 <= i < |fs| && 0 <= j < |gs| && fs[i].key == gs[j].key
        ensures Stringify(fs[i].value) == Stringify(gs[j].value)
      {
        StringifyRespectsSame(fs[i].value, gs[j].value);
      }
      PrintedAt(fs);
      PrintedAt(gs);
      SamePrinted(fs, gs);
      SortedUnique(SortByKey(Printed(fs)), SortByKey(Printed(gs)));
    case _ =>
  }

  lemma {:induction false} SamePrinted(fs: seq<Field<Value>>, gs: seq<Field<Value>>)
    requires DistinctKeys(fs) && DistinctKeys(gs)
    requires (forall i | 0 <= i < |fs| :: IsJson(fs[i].value)) && (forall i | 0 <= i < |gs| :: IsJson(gs[i].value))
    requires forall key :: HasKey(fs, key) <==> HasKey(gs, key)
    requires forall i, j | 0 <= i < |fs| && 0 <= j < |gs| && fs[i].key == gs[j].key ::
               Stringify(fs[i].value) == Stringify(gs[j].value)
    ensures multiset(Printed(fs)) == multiset(Printed(gs))
    ensures SortedByKey(SortByKey(Printed(fs))) && SortedByKey(SortByKey(Printed(gs)))
    ensures DistinctKeys(SortByKey(Printed(fs)))
  {
    PrintedAt(fs);
    PrintedAt(gs);
    PrintedSubset(fs, gs);
    PrintedSubset(gs, fs);
    forall p
      ensures multiset(Printed(fs))[p] == multiset(Printed(gs))[p]
    {
      DistinctCounts(Printed(fs), p);
      DistinctCounts(Printed(gs), p);
    }
    SortSorted(Printed(fs));
    SortSorted(Printed(gs));
    SortKeepsDistinct(Printed(fs));
  }

  lemma {:induction false} PrintedSubset(fs: seq<Field<Value>>, gs: seq<Field<Value>>)
    requires (forall i | 0 <= i < |fs| :: IsJson(fs[i].value)) && (forall i | 0 <= i < |gs| :: IsJson(gs[i].value))
    requires forall key :: HasKey(fs, key) <==> HasKey(gs, key)
    requires forall i, j | 0 <= i < |fs| && 0 <= j < |gs| && fs[i].key == gs[j].key ::
               Stringify(fs[i].value) == Stringify(gs[j].value)
    ensures forall p | p in Printed(fs) :: p in Printed(gs)
  {
    PrintedAt(fs);
    PrintedAt(gs);
    forall p | p in Printed(fs)
      ensures p in Printed(gs)
    {
      var i :| 0 <= i < |fs| && Printed(fs)[i] == p;
      assert HasKey(fs, fs[i].key);
      var j :| 0 <= j < |gs| && gs[j].key == fs[i].key;
      assert Printed(gs)[j] == p;
    }
  }

  lemma {:induction false} InsertKeepsDistinct<V>(p: Field<V>, ps: seq<Field<V>>)
    requires DistinctKeys(ps) && forall i | 0 <= i < |ps| :: ps[i].key != p.key
    ensures DistinctKeys(Insert(p, ps))
  {
    if ps != [] && Before(ps[0].key, p.key) {
      var tail := Insert(p, ps[1..]);
      InsertKeepsDistinct(p, ps[1..]);
      forall k | 0 <= k < |tail|
        ensures tail[k].key != ps[0].key
      {
        assert tail[k] in multiset(tail);
        assert tail[k] != p ==> tail[k] in ps[1..];
      }
    }
  }

  lemma {:induction false} SortKeepsDistinct<V>(ps: seq<Field<V>>)
    requires DistinctKeys(ps)
    ensures DistinctKeys(SortByKey(ps))
  {
    if ps != [] {
      var sorted := SortByKey(ps[1..]);
      SortKeepsDistinct(ps[1..]);
      forall k | 0 <= k < |sorted|
        ensures sorted[k].key != ps[0].key
      {
        MemberOfBoth(sorted, ps[1..], k);
      }
      InsertKeepsDistinct(ps[0], sorted);
    }
  }

  /** Two JSON values print alike iff they are the same up to the order of object keys. */
  lemma CanonicalPrinter(a: Value, b: Value)
    requires IsJson(a) && IsJson(b)
    ensures Stringify(a) == Stringify(b) <==> Same(a, b)
  {
    if Stringify(a) == Stringify(b) {
      StringifyInjective(a, b);
    }
    if Same(a, b) {
      StringifyRespectsSame(a, b);
    }
  }

  /** Outside JSON it is not canonical: an undefined element leaves no trace in a one-element array. */
  lemma UndefinedElementIsLost()
    ensures Stringify(Arr([Undefined])) == Stringify(Arr([]))
    ensures !Same(Arr([Undefined]), Arr([]))
  {
  }
}
