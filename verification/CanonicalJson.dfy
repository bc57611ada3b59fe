/** The canonical JSON text that extension signatures are computed over (string literals as in
    section 7 of RFC 8259). An object keeps its fields in document order; the printer sorts them. */
module CanonicalJson {
  import opened Text
  import opened Decimal

  /** A number is an integer, or a float given by the text it prints as. */
  datatype Num = Integer(value: int) | Float(text: string)

  datatype Value =
    | Null
    | Bool(flag: bool)
    | Number(num: Num)
    | Str(text: string)
    | Array(items: seq<Value>)
    | Object(fields: seq<Field>)

  datatype Field = Field(name: string, value: Value)

  /** A field with its value already printed. */
  datatype Entry = Entry(key: string, text: string)

  // ----- scalars

  function IntegerText(n: int): string {
    if n < 0 then "-" + ToDecimal(-n) else ToDecimal(n)
  }

  function NumText(n: Num): string {
    match n
    case Integer(value) => IntegerText(value)
    case Float(text) => text
  }

  predicate IsNumChar(c: char) {
    IsDigit(c) || c == '-' || c == '+' || c == '.' || c == 'e' || c == 'E'
  }

  /** What distinguishes a printed float: a point or an exponent. */
  predicate FloatText(s: string) {
    s != "" && (IsDigit(s[0]) || s[0] == '-') && (forall c <- s :: IsNumChar(c)) && ('.' in s || 'e' in s)
  }

  function HexDigit(d: nat): char
    requires d < 16
  {
    if d < 10 then ('0' as int + d) as char else ('a' as int + d - 10) as char
  }

  function EscapeChar(c: char): string {
    if c == '"' then "\\\""
    else if c == '\\' then "\\\\"
    else if c == '\U{8}' then "\\b"
    else if c == '\U{C}' then "\\f"
    else if c == '\n' then "\\n"
    else if c == '\r' then "\\r"
    else if c == '\t' then "\\t"
    else if c < ' ' then "\\u00" + [HexDigit(c as int / 16), HexDigit(c as int % 16)]
    else [c]
  }

  function Escape(s: string): string {
    if s == "" then "" else EscapeChar(s[0]) + Escape(s[1..])
  }

  function Quote(s: string): string {
    "\"" + Escape(s) + "\""
  }

  // ----- key order

  /** Byte order of UTF-8 is code-point order. */
  predicate Less(a: string, b: string) {
    b != "" && (a == "" || a[0] < b[0] || (a[0] == b[0] && Less(a[1..], b[1..])))
  }

  function Insert(e: Entry, sorted: seq<Entry>): seq<Entry> {
    if sorted == [] || Less(e.key, sorted[0].key) then [e] + sorted else [sorted[0]] + Insert(e, sorted[1..])
  }

  function Sort(entries: seq<Entry>): seq<Entry> {
    if entries == [] then [] else Insert(entries[0], Sort(entries[1..]))
  }

  // ----- the printer

  function Canon(v: Value): string
    decreases v, 1
  {
    match v
    case Null => "null"
    case Bool(flag) => if flag then "true" else "false"
    case Number(num) => NumText(num)
    case Str(text) => Quote(text)
    case Array(items) => "[" + (if items == [] then "" else Canon(items[0]) + MoreItems(items[1..])) + "]"
    case Object(fields) =>
      var sorted := Sort(Entries(fields));
      "{" + (if sorted == [] then "" else EntryText(sorted[0]) + MoreEntries(sorted[1..])) + "}"
  }

  function MoreItems(items: seq<Value>): string
    decreases items, 0
  {
    if items == [] then "" else "," + Canon(items[0]) + MoreItems(items[1..])
  }

  function Entries(fields: seq<Field>): seq<Entry>
    decreases fields, 0
  {
    if fields == [] then [] else [Entry(fields[0].name, Canon(fields[0].value))] + Entries(fields[1..])
  }

  function EntryText(e: Entry): string {
    Quote(e.key) + ":" + e.text
  }

  function MoreEntries(entries: seq<Entry>): string {
    if entries == [] then "" else "," + EntryText(entries[0]) + MoreEntries(entries[1..])
  }

  // ----- values as JSON means them

  predicate NamesDiffer(fields: seq<Field>) {
    forall i, j :: 0 <= i < j < |fields| ==> fields[i].name != fields[j].name
  }

  /** Object keys are unique and floats print as floats, throughout. */
  predicate WellFormed(v: Value) {
    match v
    case Number(Float(text)) => FloatText(text)
    case Array(items) => forall item <- items :: WellFormed(item)
    case Object(fields) => NamesDiffer(fields) && forall f <- fields :: WellFormed(f.value)
    case _ => true
  }

  /** Equal as JSON values: field order does not matter. */
  ghost predicate Same(a: Value, b: Value) {
    match a
    case Array(items) => b.Array? && |items| == |b.items| && forall i :: 0 <= i < |items| ==> Same(items[i], b.items[i])
    case Object(fields) => b.Object? && |fields| == |b.fields| && forall f <- fields :: SameField(f, b.fields)
    case _ => a == b
  }

  ghost predicate SameField(f: Field, fields: seq<Field>) {
    exists j :: 0 <= j < |fields| && fields[j].name == f.name && Same(f.value, fields[j].value)
  }

  // ----- sorting

  lemma {:induction false} LessTotal(a: string, b: string)
    ensures Less(a, b) || a == b || Less(b, a)
    ensures !(Less(a, b) && Less(b, a)) && !Less(a, a)
  {
    if a != "" && b != "" {
      LessTotal(a[1..], b[1..]);
      assert a == [a[0]] + a[1..] && b == [b[0]] + b[1..];
    }
    if a != "" {
      LessIrreflexive(a);
    }
  }

  lemma {:induction false} LessIrreflexive(a: string)
    ensures !Less(a, a)
  {
    if a != "" {
      LessIrreflexive(a[1..]);
    }
  }

  lemma {:induction false} LessTransitive(a: string, b: string, c: string)
    requires Less(a, b) && Less(b, c)
    ensures Less(a, c)
  {
    if a != "" && a[0] == b[0] && b[0] == c[0] {
      LessTransitive(a[1..], b[1..], c[1..]);
    }
  }

  ghost predicate Sorted(entries: seq<Entry>) {
    forall i, j :: 0 <= i < j < |entries| ==> Less(entries[i].key, entries[j].key)
  }

  ghost predicate KeysDiffer(entries: seq<Entry>) {
    forall i, j :: 0 <= i < j < |entries| ==> entries[i].key != entries[j].key
  }

  lemma {:induction false} InsertSorts(e: Entry, sorted: seq<Entry>)
    requires Sorted(sorted) && forall x <- sorted :: x.key != e.key
    ensures Sorted(Insert(e, sorted)) && |Insert(e, sorted)| == |sorted| + 1
    ensures forall x :: x in Insert(e, sorted) <==> x == e || x in sorted
  {
    if sorted != [] {
      var first, rest := sorted[0], sorted[1..];
      assert first in sorted && sorted == [first] + rest;
      if Less(e.key, first.key) {
        forall j | 0 <= j < |sorted| ensures Less(e.key, sorted[j].key) {
          if j > 0 { LessTransitive(e.key, first.key, sorted[j].key); }
        }
      } else {
        LessTotal(e.key, first.key);
        InsertSorts(e, rest);
        forall x <- Insert(e, rest) ensures Less(first.key, x.key) {
          if x != e {
            var j :| 0 <= j < |rest| && rest[j] == x;
            assert sorted[j + 1] == x;
          }
        }
        forall i, j | 0 <= i < j < |Insert(e, sorted)|
          ensures Less(Insert(e, sorted)[i].key, Insert(e, sorted)[j].key)
        {
          assert Insert(e, sorted)[j] == Insert(e, rest)[j - 1] && Insert(e, rest)[j - 1] in Insert(e, rest);
        }
      }
    }
  }

  lemma {:induction false} SortSorts(entries: seq<Entry>)
    requires KeysDiffer(entries)
    ensures Sorted(Sort(entries)) && |Sort(entries)| == |entries|
    ensures forall x :: x in Sort(entries) <==> x in entries
  {
    if entries != [] {
      SortSorts(entries[1..]);
      forall x <- Sort(entries[1..]) ensures x.key != entries[0].key {
        var j :| 0 <= j < |entries[1..]| && entries[1..][j] == x;
        assert entries[j + 1] == x;
      }
      InsertSorts(entries[0], Sort(entries[1..]));
      assert entries == [entries[0]] + entries[1..];
    }
  }

  lemma HeadIn<T>(s: seq<T>)
    ensures s == [] || s[0] in s
  {
  }

  /** A sorted list is determined by its elements. */
  lemma {:induction false} SortedUnique(a: seq<Entry>, b: seq<Entry>)
    requires Sorted(a) && Sorted(b) && forall x :: x in a <==> x in b
    ensures a == b
  {
    if a == [] {
      HeadIn(b);
    } else {
      assert a[0] in a && a[0] in b;
      var i :| 0 <= i < |b| && b[i] == a[0];
      assert b[0] in b && b[0] in a;
      var j :| 0 <= j < |a| && a[j] == b[0];
      LessTotal(a[0].key, b[0].key);
      assert a[0] == b[0];
      forall x ensures x in a[1..] <==> x in b[1..] {
        SortedHeadOnce(a, x);
        SortedHeadOnce(b, x);
      }
      SortedUnique(a[1..], b[1..]);
      assert a == [a[0]] + a[1..] && b == [b[0]] + b[1..];
    }
  }

  lemma SortedHeadOnce(a: seq<Entry>, x: Entry)
    requires Sorted(a) && a != []
    ensures x in a[1..] <==> x in a && x != a[0]
  {
    assert a == [a[0]] + a[1..];
    if x in a[1..] {
      var j :| 0 <= j < |a[1..]| && a[1..][j] == x;
      LessIrreflexive(x.key);
      assert a[j + 1] == x;
    }
  }

  lemma {:induction false} EntriesMeaning(fields: seq<Field>)
    ensures |Entries(fields)| == |fields|
    ensures forall i :: 0 <= i < |fields| ==> Entries(fields)[i] == Entry(fields[i].name, Canon(fields[i].value))
  {
    if fields != [] {
      EntriesMeaning(fields[1..]);
    }
  }

  /** The sorted entries of an object: one per field, in strict key order. */
  lemma SortedEntries(fields: seq<Field>)
    requires NamesDiffer(fields)
    ensures var sorted := Sort(Entries(fields));
            && Sorted(sorted) && |sorted| == |fields|
            && (forall e <- sorted :: HasField(fields, e))
            && (forall f <- fields :: Entry(f.name, Canon(f.value)) in sorted)
  {
    EntriesMeaning(fields);
    SortSorts(Entries(fields));
    forall f <- fields ensures Entry(f.name, Canon(f.value)) in Entries(fields) {
      var i :| 0 <= i < |fields| && fields[i] == f;
      assert Entries(fields)[i] == Entry(f.name, Canon(f.value));
    }
    forall e <- Entries(fields) ensures HasField(fields, e) {
      var i :| 0 <= i < |fields| && Entries(fields)[i] == e;
    }
  }

  // ----- independent of field order

  lemma {:induction false} SameItemsPrintAlike(a: seq<Value>, b: seq<Value>)
    requires |a| == |b| && forall i :: 0 <= i < |a| ==> WellFormed(a[i]) && WellFormed(b[i]) && Same(a[i], b[i])
    ensures MoreItems(a) == MoreItems(b)
    ensures a != [] ==> Canon(a[0]) == Canon(b[0])
    decreases a, 0
  {
    if a != [] {
      SamePrintsAlike(a[0], b[0]);
      SameItemsPrintAlike(a[1..], b[1..]);
    }
  }

  /** Same field sets print the same entries. */
  lemma SameFieldsPrintAlike(a: Value, b: Value)
    requires a.Object? && b.Object? && WellFormed(a) && WellFormed(b) && Same(a, b)
    ensures Sort(Entries(a.fields)) == Sort(Entries(b.fields))
    decreases a, 0
  {
    var sa, sb := Sort(Entries(a.fields)), Sort(Entries(b.fields));
    SortedEntries(a.fields);
    SortedEntries(b.fields);
    forall e <- sa ensures e in sb {
      var i :| 0 <= i < |a.fields| && a.fields[i].name == e.key && Canon(a.fields[i].value) == e.text;
      var f := a.fields[i];
      assert f in a.fields && SameField(f, b.fields);
      var j :| 0 <= j < |b.fields| && b.fields[j].name == f.name && Same(f.value, b.fields[j].value);
      assert b.fields[j] in b.fields;
      SamePrintsAlike(f.value, b.fields[j].value);
    }
    SortedKeysDiffer(sa);
    SortedKeysDiffer(sb);
    SameSizeSubset(sa, sb);
    SortedUnique(sa, sb);
  }

  lemma SortedKeysDiffer(entries: seq<Entry>)
    requires Sorted(entries)
    ensures forall i, j :: 0 <= i < j < |entries| ==> entries[i] != entries[j]
  {
    forall i, j | 0 <= i < j < |entries| ensures entries[i] != entries[j] {
      LessIrreflexive(entries[i].key);
    }
  }

  function Elements(entries: seq<Entry>): set<Entry> {
    set e | e in entries
  }

  lemma {:induction false} DistinctSize(entries: seq<Entry>)
    requires forall i, j :: 0 <= i < j < |entries| ==> entries[i] != entries[j]
    ensures |Elements(entries)| == |entries|
  {
    if entries != [] {
      var front, last := entries[..|entries| - 1], entries[|entries| - 1];
      DistinctSize(front);
      assert entries == front + [last];
      assert Elements(entries) == Elements(front) + {last};
    }
  }

  lemma SameSizeSubset(a: seq<Entry>, b: seq<Entry>)
    requires forall i, j :: 0 <= i < j < |a| ==> a[i] != a[j]
    requires forall i, j :: 0 <= i < j < |b| ==> b[i] != b[j]
    requires |a| == |b| && forall x <- a :: x in b
    ensures forall x :: x in a <==> x in b
  {
    DistinctSize(a);
    DistinctSize(b);
    var sa, sb := Elements(a), Elements(b);
    assert sb == sa + (sb - sa) && |sb - sa| == 0;
    assert forall x <- b :: x in sb;
  }

  lemma {:induction false} SamePrintsAlike(a: Value, b: Value)
    requires WellFormed(a) && WellFormed(b) && Same(a, b)
    ensures Canon(a) == Canon(b)
    decreases a, 1
  {
    match a {
      case Array(items) =>
        SameItemsPrintAlike(items, b.items);
        if items != [] { SameItemsPrintAlike(items[1..], b.items[1..]); }
      case Object(_) => SameFieldsPrintAlike(a, b);
      case _ =>
    }
  }

  // ----- the text determines the value

  predicate Delimited(rest: string) {
    rest != "" ==> rest[0] == ',' || rest[0] == ']' || rest[0] == '}'
  }

  lemma HeadOfConcat(s: string, r: string)
    ensures s == "" || (s[0] in s && (s + r)[0] == s[0])
  {
  }

  lemma NoDigitsLeft(b: string, t: string)
    requires (forall c <- b :: IsNumChar(c)) && Delimited(b + t)
    ensures b == "" && b + t == t
  {
    HeadOfConcat(b, t);
  }

  /** A number ends where its characters end. */
  lemma {:induction false} NumberEnds(a: string, b: string, r: string, t: string)
    requires (forall c <- a :: IsNumChar(c)) && (forall c <- b :: IsNumChar(c)) && Delimited(r) && Delimited(t)
    requires a + r == b + t
    ensures a == b && r == t
  {
    if a == "" {
      assert a + r == r;
      NoDigitsLeft(b, t);
    } else if b == "" {
      assert b + t == t;
      NoDigitsLeft(a, r);
    } else {
      assert a[0] == (a + r)[0] == (b + t)[0] == b[0];
      assert a[1..] + r == (a + r)[1..] && b[1..] + t == (b + t)[1..];
      assert (forall c <- a[1..] :: c in a) && (forall c <- b[1..] :: c in b);
      NumberEnds(a[1..], b[1..], r, t);
      assert a == [a[0]] + a[1..] && b == [b[0]] + b[1..];
    }
  }

  lemma IntegerTextChars(n: int)
    ensures IntegerText(n) != "" && (IsDigit(IntegerText(n)[0]) || IntegerText(n)[0] == '-')
    ensures forall c <- IntegerText(n) :: IsDigit(c) || c == '-'
  {
    ToDecimalValue(if n < 0 then -n else n);
    assert n >= 0 ==> IntegerText(n)[0] in IntegerText(n);
  }

  lemma IntegerTextSign(n: int)
    ensures IntegerText(n) != "" && (IntegerText(n)[0] == '-' <==> n < 0)
  {
    if n >= 0 {
      ToDecimalValue(n);
      HeadIn(ToDecimal(n));
    }
  }

  lemma IntegerTextInjective(a: int, b: int)
    requires IntegerText(a) == IntegerText(b)
    ensures a == b
  {
    ToDecimalValue(if a < 0 then -a else a);
    ToDecimalValue(if b < 0 then -b else b);
    if a < 0 && b < 0 {
      assert IntegerText(a)[1..] == ToDecimal(-a) && IntegerText(b)[1..] == ToDecimal(-b);
    } else {
      IntegerTextSign(a);
      IntegerTextSign(b);
    }
  }

  lemma NumbersDiffer(a: Num, b: Num)
    requires WellFormed(Number(a)) && WellFormed(Number(b)) && NumText(a) == NumText(b)
    ensures a == b
  {
    match (a, b) {
      case (Integer(m), Integer(n)) => IntegerTextInjective(m, n);
      case (Integer(m), Float(_)) => IntegerTextChars(m);
      case (Float(_), Integer(n)) => IntegerTextChars(n);
      case (Float(_), Float(_)) =>
    }
  }

  /** Every escape sequence is recognised by its own characters. */
  lemma EscapeCharPrefixFree(c: char, d: char, r: string, t: string)
    requires EscapeChar(c) + r == EscapeChar(d) + t
    ensures c == d && r == t
  {
    var x, y := EscapeChar(c) + r, EscapeChar(d) + t;
    EscapeCharShape(c);
    EscapeCharShape(d);
    assert x[0] == EscapeChar(c)[0] && y[0] == EscapeChar(d)[0];
    if x[0] == '\\' {
      assert x[1] == EscapeChar(c)[1] && y[1] == EscapeChar(d)[1];
      if x[1] == 'u' {
        assert x[4] == EscapeChar(c)[4] && x[5] == EscapeChar(c)[5] && y[4] == EscapeChar(d)[4]
            && y[5] == EscapeChar(d)[5];
      }
    }
    assert c == d;
    assert r == x[|EscapeChar(c)|..] && t == y[|EscapeChar(d)|..];
  }

  /** One raw character, a two-character escape, or a six-character one that spells the code. */
  lemma EscapeCharShape(c: char)
    ensures var e := EscapeChar(c);
            || (|e| == 1 && e[0] == c && c != '\\' && c != '"')
            || (|e| == 2 && e[0] == '\\' && e[1] != 'u' && c == match e[1]
                  case 'b' => '\U{8}' case 'f' => '\U{C}' case 'n' => '\n'
                  case 'r' => '\r' case 't' => '\t' case x => x)
            || (|e| == 6 && e[0] == '\\' && e[1] == 'u' && c < ' ' && e[4] == HexDigit(c as int / 16)
                && e[5] == HexDigit(c as int % 16))
  {
  }

  lemma EscapedHead(s: string, r: string)
    ensures (Escape(s) + "\"" + r)[0] == '"' <==> s == ""
  {
    if s != "" {
      EscapeCharShape(s[0]);
    }
  }

  lemma {:induction false} QuoteEnds(a: string, b: string, r: string, t: string)
    requires Escape(a) + "\"" + r == Escape(b) + "\"" + t
    ensures a == b && r == t
    decreases |a|
  {
    var x, y := Escape(a) + "\"" + r, Escape(b) + "\"" + t;
    EscapedHead(a, r);
    EscapedHead(b, t);
    if a == "" || b == "" {
      assert a == b && r == x[1..] && t == y[1..];
    } else {
      var ra, rb := Escape(a[1..]) + "\"" + r, Escape(b[1..]) + "\"" + t;
      Regroup(EscapeChar(a[0]), Escape(a[1..]), "\"", r);
      Regroup(EscapeChar(b[0]), Escape(b[1..]), "\"", t);
      EscapeCharPrefixFree(a[0], b[0], ra, rb);
      QuoteEnds(a[1..], b[1..], r, t);
      assert a == [a[0]] + a[1..] && b == [b[0]] + b[1..];
    }
  }

  /** The first character tells the kind of value. */
  predicate Heads(v: Value, c: char) {
    match v
    case Null => c == 'n'
    case Bool(flag) => c == if flag then 't' else 'f'
    case Number(_) => IsDigit(c) || c == '-'
    case Str(_) => c == '"'
    case Array(_) => c == '['
    case Object(_) => c == '{'
  }

  lemma CanonHead(v: Value, r: string)
    requires WellFormed(v)
    ensures Canon(v) != "" && Heads(v, Canon(v)[0]) && (Canon(v) + r)[0] == Canon(v)[0]
  {
    if v.Number? && v.num.Integer? {
      IntegerTextChars(v.num.value);
    }
  }

  ghost predicate HasField(fields: seq<Field>, e: Entry) {
    exists i :: 0 <= i < |fields| && fields[i].name == e.key && Canon(fields[i].value) == e.text
  }

  /** Two entries come from fields of the same name with equal values. */
  ghost predicate Paired(fa: seq<Field>, fb: seq<Field>, x: Entry, y: Entry) {
    && x.key == y.key
    && exists i, j :: 0 <= i < |fa| && 0 <= j < |fb| && fa[i].name == x.key == fb[j].name
                      && Same(fa[i].value, fb[j].value)
  }

  lemma Nest(open: string, a: string, m: string, close: string, r: string)
    ensures (open + a + m) + close + r == open + (a + (m + close + r))
    ensures (open + (a + m) + close) + r == open + (a + (m + close + r))
    ensures (open + "" + close) + r == open + (close + r)
  {
  }

  lemma Cancel(c: string, u: string, v: string)
    requires c + u == c + v
    ensures u == v
  {
    assert u == (c + u)[|c|..] && v == (c + v)[|c|..];
  }

  lemma MoreHeads(items: seq<Value>, entries: seq<Entry>, r: string)
    ensures (MoreItems(items) + "]" + r)[0] == if items == [] then ']' else ','
    ensures (MoreEntries(entries) + "}" + r)[0] == if entries == [] then '}' else ','
    ensures MoreItems([]) + "]" + r == "]" + r && MoreEntries([]) + "}" + r == "}" + r
  {
  }

  lemma {:induction false} ItemsPrefixFree(a: seq<Value>, b: seq<Value>, r: string, t: string)
    requires (forall v <- a :: WellFormed(v)) && (forall v <- b :: WellFormed(v))
    requires MoreItems(a) + "]" + r == MoreItems(b) + "]" + t
    ensures |a| == |b| && (forall i :: 0 <= i < |a| ==> Same(a[i], b[i])) && r == t
    decreases a, 1
  {
    MoreHeads(a, [], r);
    MoreHeads(b, [], t);
    if a == [] {
      Cancel("]", r, t);
    } else {
      var ra, rb := MoreItems(a[1..]) + "]" + r, MoreItems(b[1..]) + "]" + t;
      Nest(",", Canon(a[0]), MoreItems(a[1..]), "]", r);
      Nest(",", Canon(b[0]), MoreItems(b[1..]), "]", t);
      Cancel(",", Canon(a[0]) + ra, Canon(b[0]) + rb);
      MoreHeads(a[1..], [], r);
      MoreHeads(b[1..], [], t);
      assert a[0] in a && b[0] in b;
      CanonPrefixFree(a[0], b[0], ra, rb);
      ItemsPrefixFree(a[1..], b[1..], r, t);
    }
  }

  lemma NestQuoted(quote: string, escaped: string, colon: string, text: string, r: string)
    ensures (quote + escaped + quote) + colon + text + r == quote + (escaped + quote + (colon + (text + r)))
  {
    assert (quote + escaped + quote) + (colon + (text + r)) == quote + (escaped + quote + (colon + (text + r)));
  }

  lemma EntryTextEnds(x: Entry, y: Entry, r: string, t: string)
    requires EntryText(x) + r == EntryText(y) + t
    ensures x.key == y.key && x.text + r == y.text + t
  {
    var restX, restY := ":" + (x.text + r), ":" + (y.text + t);
    NestQuoted("\"", Escape(x.key), ":", x.text, r);
    NestQuoted("\"", Escape(y.key), ":", y.text, t);
    Cancel("\"", Escape(x.key) + "\"" + restX, Escape(y.key) + "\"" + restY);
    QuoteEnds(x.key, y.key, restX, restY);
    Cancel(":", x.text + r, y.text + t);
  }

  lemma EntryPrefixFree(a: Value, b: Value, x: Entry, y: Entry, r: string, t: string)
    requires a.Object? && b.Object? && WellFormed(a) && WellFormed(b) && HasField(a.fields, x) && HasField(b.fields, y)
    requires Delimited(r) && Delimited(t) && EntryText(x) + r == EntryText(y) + t
    ensures Paired(a.fields, b.fields, x, y) && r == t
    decreases a, 0, 1
  {
    EntryTextEnds(x, y, r, t);
    var i :| 0 <= i < |a.fields| && a.fields[i].name == x.key && Canon(a.fields[i].value) == x.text;
    var j :| 0 <= j < |b.fields| && b.fields[j].name == y.key && Canon(b.fields[j].value) == y.text;
    assert a.fields[i] in a.fields && b.fields[j] in b.fields;
    CanonPrefixFree(a.fields[i].value, b.fields[j].value, r, t);
  }

  lemma {:induction false} EntriesPrefixFree(a: Value, b: Value, ea: seq<Entry>, eb: seq<Entry>, r: string, t: string)
    requires a.Object? && b.Object? && WellFormed(a) && WellFormed(b)
    requires (forall e <- ea :: HasField(a.fields, e)) && (forall e <- eb :: HasField(b.fields, e))
    requires MoreEntries(ea) + "}" + r == MoreEntries(eb) + "}" + t
    ensures |ea| == |eb| && (forall k :: 0 <= k < |ea| ==> Paired(a.fields, b.fields, ea[k], eb[k])) && r == t
    decreases a, 1, |ea|
  {
    MoreHeads([], ea, r);
    MoreHeads([], eb, t);
    if ea == [] {
      Cancel("}", r, t);
    } else {
      var ra, rb := MoreEntries(ea[1..]) + "}" + r, MoreEntries(eb[1..]) + "}" + t;
      Nest(",", EntryText(ea[0]), MoreEntries(ea[1..]), "}", r);
      Nest(",", EntryText(eb[0]), MoreEntries(eb[1..]), "}", t);
      Cancel(",", EntryText(ea[0]) + ra, EntryText(eb[0]) + rb);
      MoreHeads([], ea[1..], r);
      MoreHeads([], eb[1..], t);
      assert ea[0] in ea && eb[0] in eb;
      EntryPrefixFree(a, b, ea[0], eb[0], ra, rb);
      EntriesPrefixFree(a, b, ea[1..], eb[1..], r, t);
    }
  }

  /** The text after the opening bracket. */
  function ArrayTail(items: seq<Value>, r: string): string {
    if items == [] then "]" + r else Canon(items[0]) + (MoreItems(items[1..]) + "]" + r)
  }

  function ObjectTail(entries: seq<Entry>, r: string): string {
    if entries == [] then "}" + r else EntryText(entries[0]) + (MoreEntries(entries[1..]) + "}" + r)
  }

  lemma ArrayOpens(v: Value, r: string)
    requires v.Array? && WellFormed(v)
    ensures Canon(v) + r == "[" + ArrayTail(v.items, r)
    ensures ArrayTail(v.items, r) != "" && (ArrayTail(v.items, r)[0] == ']' <==> v.items == [])
  {
    if v.items == [] {
      Nest("[", "", "", "]", r);
    } else {
      Nest("[", Canon(v.items[0]), MoreItems(v.items[1..]), "]", r);
      assert v.items[0] in v.items;
      CanonHead(v.items[0], MoreItems(v.items[1..]) + "]" + r);
    }
  }

  lemma ObjectOpens(v: Value, sorted: seq<Entry>, r: string)
    requires v.Object? && sorted == Sort(Entries(v.fields))
    ensures Canon(v) + r == "{" + ObjectTail(sorted, r)
    ensures ObjectTail(sorted, r) != "" && (ObjectTail(sorted, r)[0] == '}' <==> sorted == [])
  {
    if sorted == [] {
      Nest("{", "", "", "}", r);
    } else {
      Nest("{", EntryText(sorted[0]), MoreEntries(sorted[1..]), "}", r);
    }
  }

  lemma ArraysPrefixFree(a: Value, b: Value, r: string, t: string)
    requires a.Array? && b.Array? && WellFormed(a) && WellFormed(b) && Canon(a) + r == Canon(b) + t
    ensures Same(a, b) && r == t
    decreases a, 2
  {
    ArrayOpens(a, r);
    ArrayOpens(b, t);
    Cancel("[", ArrayTail(a.items, r), ArrayTail(b.items, t));
    if a.items == [] {
      Cancel("]", r, t);
    } else {
      var ra, rb := MoreItems(a.items[1..]) + "]" + r, MoreItems(b.items[1..]) + "]" + t;
      MoreHeads(a.items[1..], [], r);
      MoreHeads(b.items[1..], [], t);
      assert a.items[0] in a.items && b.items[0] in b.items;
      CanonPrefixFree(a.items[0], b.items[0], ra, rb);
      ItemsPrefixFree(a.items[1..], b.items[1..], r, t);
    }
  }

  lemma ObjectsPrefixFree(a: Value, b: Value, r: string, t: string)
    requires a.Object? && b.Object? && WellFormed(a) && WellFormed(b) && Canon(a) + r == Canon(b) + t
    ensures Same(a, b) && r == t
    decreases a, 2
  {
    var sa, sb := Sort(Entries(a.fields)), Sort(Entries(b.fields));
    SortedEntries(a.fields);
    SortedEntries(b.fields);
    ObjectOpens(a, sa, r);
    ObjectOpens(b, sb, t);
    Cancel("{", ObjectTail(sa, r), ObjectTail(sb, t));
    if sa == [] {
      Cancel("}", r, t);
    } else {
      SortedPrefixFree(a, b, sa, sb, r, t);
    }
    PairedFieldsAreSame(a, b, sa, sb);
  }

  lemma SortedPrefixFree(a: Value, b: Value, sa: seq<Entry>, sb: seq<Entry>, r: string, t: string)
    requires a.Object? && b.Object? && WellFormed(a) && WellFormed(b) && sa != [] && sb != []
    requires (forall e <- sa :: HasField(a.fields, e)) && (forall e <- sb :: HasField(b.fields, e))
    requires ObjectTail(sa, r) == ObjectTail(sb, t)
    ensures |sa| == |sb| && (forall k :: 0 <= k < |sa| ==> Paired(a.fields, b.fields, sa[k], sb[k])) && r == t
    decreases a, 1, |sa|
  {
    var ra, rb := MoreEntries(sa[1..]) + "}" + r, MoreEntries(sb[1..]) + "}" + t;
    MoreHeads([], sa[1..], r);
    MoreHeads([], sb[1..], t);
    assert sa[0] in sa && sb[0] in sb;
    EntryPrefixFree(a, b, sa[0], sb[0], ra, rb);
    TailIn(sa);
    TailIn(sb);
    EntriesPrefixFree(a, b, sa[1..], sb[1..], r, t);
    forall k | 0 <= k < |sa| ensures Paired(a.fields, b.fields, sa[k], sb[k]) {
      assert k > 0 ==> sa[k] == sa[1..][k - 1] && sb[k] == sb[1..][k - 1];
    }
  }

  lemma TailIn(entries: seq<Entry>)
    requires entries != []
    ensures forall e <- entries[1..] :: e in entries
  {
  }

  lemma {:induction false} PairedFieldsAreSame(a: Value, b: Value, sa: seq<Entry>, sb: seq<Entry>)
    requires a.Object? && b.Object? && WellFormed(a) && |a.fields| == |b.fields| && |sa| == |sb|
    requires forall f <- a.fields :: Entry(f.name, Canon(f.value)) in sa
    requires forall k :: 0 <= k < |sa| ==> Paired(a.fields, b.fields, sa[k], sb[k])
    ensures Same(a, b)
  {
    forall f <- a.fields ensures SameField(f, b.fields) {
      var e := Entry(f.name, Canon(f.value));
      var k :| 0 <= k < |sa| && sa[k] == e;
      var i, j :| 0 <= i < |a.fields| && 0 <= j < |b.fields| && a.fields[i].name == e.key == b.fields[j].name
                  && Same(a.fields[i].value, b.fields[j].value);
      var m :| 0 <= m < |a.fields| && a.fields[m] == f;
      assert i == m;
    }
  }

  lemma {:induction false} CanonPrefixFree(a: Value, b: Value, r: string, t: string)
    requires WellFormed(a) && WellFormed(b) && Delimited(r) && Delimited(t) && Canon(a) + r == Canon(b) + t
    ensures Same(a, b) && r == t
    decreases a, 3
  {
    CanonHead(a, r);
    CanonHead(b, t);
    match a {
      case Number(_) => NumberPrefixFree(a, b, r, t);
      case Str(_) => StringsPrefixFree(a, b, r, t);
      case Array(_) => ArraysPrefixFree(a, b, r, t);
      case Object(_) => ObjectsPrefixFree(a, b, r, t);
      case _ => LiteralsPrefixFree(a, b, r, t);
    }
  }

  lemma StringsPrefixFree(a: Value, b: Value, r: string, t: string)
    requires a.Str? && b.Str? && Canon(a) + r == Canon(b) + t
    ensures a == b && r == t
  {
    QuoteOpens(a.text, r);
    QuoteOpens(b.text, t);
    Cancel("\"", Escape(a.text) + "\"" + r, Escape(b.text) + "\"" + t);
    QuoteEnds(a.text, b.text, r, t);
  }

  lemma QuoteOpens(text: string, r: string)
    ensures Canon(Str(text)) + r == "\"" + (Escape(text) + "\"" + r)
  {
  }

  predicate Literal(v: Value) {
    v.Null? || v.Bool?
  }

  lemma LiteralsPrefixFree(a: Value, b: Value, r: string, t: string)
    requires Literal(a) && Literal(b) && Canon(a) + r == Canon(b) + t
    ensures a == b && r == t
  {
    assert Canon(a)[0] == (Canon(a) + r)[0] == (Canon(b) + t)[0] == Canon(b)[0];
    Cancel(Canon(a), r, t);
  }

  lemma NumberPrefixFree(a: Value, b: Value, r: string, t: string)
    requires a.Number? && b.Number? && WellFormed(a) && WellFormed(b) && Delimited(r) && Delimited(t)
        && Canon(a) + r == Canon(b) + t
    ensures a == b && r == t
  {
    if a.num.Integer? { IntegerTextChars(a.num.value); }
    if b.num.Integer? { IntegerTextChars(b.num.value); }
    NumberEnds(Canon(a), Canon(b), r, t);
    NumbersDiffer(a.num, b.num);
  }

  /** The canonical text determines the value and nothing else: two documents print alike exactly when
      they are equal as JSON values. */
  lemma CanonIsCanonical(a: Value, b: Value)
    requires WellFormed(a) && WellFormed(b)
    ensures Canon(a) == Canon(b) <==> Same(a, b)
  {
    if Same(a, b) {
      SamePrintsAlike(a, b);
    }
    if Canon(a) == Canon(b) {
      CanonPrefixFree(a, b, "", "");
    }
  }
}
