/** What the canonical text says, read by the JSON grammar alone (RFC 8259): literals, numbers and
    escapes are decoded here without the printer, and keys are compared as UTF-8 bytes (RFC 3629). */
module JsonGrammar {
  import opened CanonicalJson
  import opened Decimal
  import opened Text
  import opened Wrappers

  // ----- string literals

  function SimpleEscape(c: char): Option<char> {
    match c
    case '"' => Some('"')
    case '\\' => Some('\\')
    case '/' => Some('/')
    case 'b' => Some('\U{8}')
    case 'f' => Some('\U{C}')
    case 'n' => Some('\U{A}')
    case 'r' => Some('\U{D}')
    case 't' => Some('\U{9}')
    case _ => None
  }

  /** Lower-case digits, as the printer writes them. */
  function HexValue(c: char): Option<nat> {
    if '0' <= c <= '9' then Some(c as int - 48)
    else if 'a' <= c <= 'f' then Some(c as int - 87)
    else None
  }

  /** `XX` of an escape `\u00XX`. */
  function HexPair(high: char, low: char): Option<char> {
    match (HexValue(high), HexValue(low))
    case (Some(h), Some(l)) => Some((16 * h + l) as char)
    case _ => None
  }

  function Before(c: char, rest: Option<string>): Option<string> {
    if rest.Some? then Some([c] + rest.value) else None
  }

  /** The text between the quotation marks, decoded. */
  function Unescape(s: string): Option<string> {
    if s == "" then Some("")
    else if s[0] == '"' || s[0] < ' ' then None
    else if s[0] != '\\' then Before(s[0], Unescape(s[1..]))
    else if |s| >= 6 && s[..4] == "\\u00" then
      var c := HexPair(s[4], s[5]);
      if c.Some? then Before(c.value, Unescape(s[6..])) else None
    else if |s| >= 2 then
      var c := SimpleEscape(s[1]);
      if c.Some? then Before(c.value, Unescape(s[2..])) else None
    else None
  }

  predicate SpellsString(s: string, text: string) {
    |s| >= 2 && s[0] == '"' && s[|s| - 1] == '"' && Unescape(s[1..|s| - 1]) == Some(text)
  }

  lemma HexDigitReads(d: nat)
    requires d < 16
    ensures HexValue(HexDigit(d)) == Some(d)
  {
  }

  lemma ControlEscapeReads(c: char, rest: string)
    requires c < ' ' && EscapeChar(c) == "\\u00" + [HexDigit(c as int / 16), HexDigit(c as int % 16)]
    ensures Unescape(EscapeChar(c) + rest) == Before(c, Unescape(rest))
  {
    var s := EscapeChar(c) + rest;
    HexDigitReads(c as int / 16);
    HexDigitReads(c as int % 16);
    assert s[..4] == "\\u00" && s[6..] == rest;
  }

  lemma EscapeReads(c: char, rest: string)
    ensures Unescape(EscapeChar(c) + rest) == Before(c, Unescape(rest))
  {
    var s := EscapeChar(c) + rest;
    if c == '"' || c == '\\' || c == '\U{8}' || c == '\U{C}' || c == '\n' || c == '\r' || c == '\t' {
      assert s[2..] == rest && s[1] != 'u' && SimpleEscape(s[1]) == Some(c);
    } else if c < ' ' {
      ControlEscapeReads(c, rest);
    } else {
      assert s[0] == c && s[1..] == rest;
    }
  }

  lemma {:induction false} UnescapeInvertsEscape(text: string)
    ensures Unescape(Escape(text)) == Some(text)
  {
    if text != "" {
      EscapeReads(text[0], Escape(text[1..]));
      UnescapeInvertsEscape(text[1..]);
      assert text == [text[0]] + text[1..];
    }
  }

  lemma QuoteSpells(text: string)
    ensures SpellsString(Quote(text), text)
  {
    UnescapeInvertsEscape(text);
    var s := Quote(text);
    assert s[1..|s| - 1] == Escape(text);
  }

  /** Only quotation marks, backslashes and control characters are escaped at all. */
  lemma {:induction false} PlainIsKept(text: string)
    requires forall i :: 0 <= i < |text| ==> text[i] >= ' ' && text[i] != '"' && text[i] != '\\'
    ensures Escape(text) == text
  {
    if text != "" {
      PlainIsKept(text[1..]);
      assert EscapeChar(text[0]) == [text[0]];
      assert text == [text[0]] + text[1..];
    }
  }

  // ----- numbers

  /** An optional minus sign and digits without a leading zero; zero has no sign. */
  predicate SpellsInteger(s: string, n: int) {
    if n < 0 then s != "" && s[0] == '-' && SpellsNatural(s[1..], -n) else SpellsNatural(s, n)
  }

  predicate SpellsNatural(s: string, n: nat) {
    s != "" && AllDigits(s) && DigitsValue(s) == n && (s[0] == '0' ==> |s| == 1)
  }

  lemma {:induction false} NoLeadingZero(n: nat)
    ensures ToDecimal(n) != "" && (ToDecimal(n)[0] == '0' ==> n == 0)
  {
    if n >= 10 {
      NoLeadingZero(n / 10);
    }
  }

  lemma IntegerSpells(n: int)
    ensures SpellsInteger(IntegerText(n), n)
  {
    var size := if n < 0 then -n else n;
    ToDecimalValue(size);
    NoLeadingZero(size);
    assert ("-" + ToDecimal(size))[1..] == ToDecimal(size);
  }

  // ----- key order

  /** A lead byte and `more` continuation bytes of six bits each. */
  function Sextets(lead: int, n: nat, more: nat): seq<int> {
    if more == 0 then [lead + n] else Sextets(lead, n / 64, more - 1) + [0x80 + n % 64]
  }

  function Lead(width: nat): int {
    if width == 1 then 0 else if width == 2 then 0xC0 else if width == 3 then 0xE0 else 0xF0
  }

  /** UTF-8. */
  function Encode(c: char): seq<int> {
    Sextets(Lead(Utf8Width(c)), c as int, Utf8Width(c) - 1)
  }

  function Bytes(s: string): seq<int> {
    if s == "" then [] else Encode(s[0]) + Bytes(s[1..])
  }

  lemma {:induction false} SextetCount(lead: int, n: nat, more: nat)
    ensures |Sextets(lead, n, more)| == more + 1
  {
    if more > 0 {
      SextetCount(lead, n / 64, more - 1);
    }
  }

  /** The byte limits of the Worker count these bytes. */
  lemma {:induction false} BytesAreCounted(s: string)
    ensures |Bytes(s)| == Utf8Length(s)
  {
    if s != "" {
      SextetCount(Lead(Utf8Width(s[0])), s[0] as int, Utf8Width(s[0]) - 1);
      BytesAreCounted(s[1..]);
    }
  }

  /** Lexicographic order, as of `String` in a `BTreeMap`. */
  predicate ByteLess(a: seq<int>, b: seq<int>) {
    b != [] && (a == [] || a[0] < b[0] || (a[0] == b[0] && ByteLess(a[1..], b[1..])))
  }

  lemma CompareHeads(x: int, a: seq<int>, y: int, b: seq<int>)
    ensures ByteLess([x] + a, [y] + b) <==> x < y || (x == y && ByteLess(a, b))
  {
    assert ([x] + a)[1..] == a && ([y] + b)[1..] == b;
  }

  lemma {:induction false} CommonHead(head: seq<int>, a: seq<int>, b: seq<int>)
    ensures ByteLess(head + a, head + b) <==> ByteLess(a, b)
  {
    if head == [] {
      assert head + a == a && head + b == b;
    } else {
      CommonHead(head[1..], a, b);
      CompareHeads(head[0], head[1..] + a, head[0], head[1..] + b);
      assert head + a == [head[0]] + (head[1..] + a) && head + b == [head[0]] + (head[1..] + b);
    }
  }

  /** Two encodings that first differ at a smaller byte. */
  predicate Below(a: seq<int>, b: seq<int>) {
    exists k :: 0 <= k < |a| && k < |b| && a[..k] == b[..k] && a[k] < b[k]
  }

  lemma BelowDecides(a: seq<int>, b: seq<int>, r: seq<int>, t: seq<int>)
    requires Below(a, b)
    ensures ByteLess(a + r, b + t) && !ByteLess(b + t, a + r)
  {
    var k :| 0 <= k < |a| && k < |b| && a[..k] == b[..k] && a[k] < b[k];
    HeadDecides(a[..k], a[k], a[k + 1..] + r, b[k], b[k + 1..] + t);
    SplitAt(a, k, r);
    SplitAt(b, k, t);
  }

  lemma SplitAt(a: seq<int>, k: nat, r: seq<int>)
    requires k < |a|
    ensures a + r == a[..k] + ([a[k]] + (a[k + 1..] + r))
  {
  }

  lemma HeadDecides(head: seq<int>, x: int, a: seq<int>, y: int, b: seq<int>)
    requires x < y
    ensures ByteLess(head + ([x] + a), head + ([y] + b)) && !ByteLess(head + ([y] + b), head + ([x] + a))
  {
    CompareHeads(x, a, y, b);
    CompareHeads(y, b, x, a);
    CommonHead(head, [x] + a, [y] + b);
    CommonHead(head, [y] + b, [x] + a);
  }

  lemma DiffersAt(a: seq<int>, b: seq<int>, k: nat)
    requires k < |a| && k < |b| && a[..k] == b[..k] && a[k] < b[k]
    ensures Below(a, b)
  {
  }

  lemma OneMoreByte(a: seq<int>, b: seq<int>, x: int, y: int)
    requires Below(a, b) || (a == b && x < y)
    ensures Below(a + [x], b + [y])
  {
    if Below(a, b) {
      var k :| 0 <= k < |a| && k < |b| && a[..k] == b[..k] && a[k] < b[k];
      assert (a + [x])[..k] == a[..k] && (b + [y])[..k] == b[..k];
      DiffersAt(a + [x], b + [y], k);
    } else {
      assert (a + [x])[..|a|] == a && (b + [y])[..|b|] == b;
      DiffersAt(a + [x], b + [y], |a|);
    }
  }

  lemma {:induction false} SextetsKeepOrder(lead: int, n: nat, m: nat, more: nat)
    requires n < m
    ensures Below(Sextets(lead, n, more), Sextets(lead, m, more))
  {
    if more == 0 {
      DiffersAt([lead + n], [lead + m], 0);
    } else {
      if n / 64 < m / 64 {
        SextetsKeepOrder(lead, n / 64, m / 64, more - 1);
      }
      OneMoreByte(Sextets(lead, n / 64, more - 1), Sextets(lead, m / 64, more - 1), 0x80 + n % 64, 0x80 + m % 64);
    }
  }

  lemma LeadByte(lead: int, n: nat)
    ensures Sextets(lead, n, 1)[0] == lead + n / 64
    ensures |Sextets(lead, n, 2)| == 3 && Sextets(lead, n, 2)[0] == lead + n / 64 / 64
    ensures |Sextets(lead, n, 3)| == 4 && Sextets(lead, n, 3)[0] == lead + n / 64 / 64 / 64
  {
    assert Sextets(lead, n / 64, 1)[0] == lead + n / 64 / 64;
    assert Sextets(lead, n / 64 / 64, 1)[0] == lead + n / 64 / 64 / 64;
    assert Sextets(lead, n / 64, 2)[0] == lead + n / 64 / 64 / 64;
  }

  lemma LeadRange(c: char)
    ensures Encode(c) != []
    ensures var lead := Encode(c)[0];
            match Utf8Width(c)
            case 1 => lead < 0x80
            case 2 => 0xC0 <= lead < 0xE0
            case 3 => 0xE0 <= lead < 0xF0
            case _ => 0xF0 <= lead
  {
    if Utf8Width(c) > 1 {
      LeadByte(Lead(Utf8Width(c)), c as int);
    }
  }

  lemma EncodeKeepsOrder(c: char, d: char)
    requires c < d
    ensures Below(Encode(c), Encode(d))
  {
    if Utf8Width(c) < Utf8Width(d) {
      LeadRange(c);
      LeadRange(d);
      DiffersAt(Encode(c), Encode(d), 0);
    } else {
      SextetsKeepOrder(Lead(Utf8Width(c)), c as int, d as int, Utf8Width(c) - 1);
    }
  }

  /** The order the printer sorts keys in is that of their UTF-8 bytes. */
  lemma {:induction false} KeyOrderIsByteOrder(a: string, b: string)
    ensures Less(a, b) <==> ByteLess(Bytes(a), Bytes(b))
  {
    if a == "" || b == "" {
      assert a == "" && b != "" ==> Bytes(b) == Encode(b[0]) + Bytes(b[1..]);
    } else if a[0] < b[0] {
      EncodeKeepsOrder(a[0], b[0]);
      BelowDecides(Encode(a[0]), Encode(b[0]), Bytes(a[1..]), Bytes(b[1..]));
    } else if b[0] < a[0] {
      EncodeKeepsOrder(b[0], a[0]);
      BelowDecides(Encode(b[0]), Encode(a[0]), Bytes(b[1..]), Bytes(a[1..]));
    } else {
      KeyOrderIsByteOrder(a[1..], b[1..]);
      CommonHead(Encode(a[0]), Bytes(a[1..]), Bytes(b[1..]));
    }
  }

  // ----- values

  function Separated(parts: seq<string>): string {
    if parts == [] then "" else if |parts| == 1 then parts[0] else parts[0] + "," + Separated(parts[1..])
  }

  /** The fields in strict byte order of their names. */
  ghost predicate Arranged(fields: seq<Field>, order: seq<nat>) {
    && |order| == |fields| && (forall i :: 0 <= i < |order| ==> order[i] < |fields|)
    && forall i, j :: 0 <= i < j < |order| ==>
         ByteLess(Bytes(fields[order[i]].name), Bytes(fields[order[j]].name))
  }

  /** `s` is the JSON text of `v` without white space and with the fields of each object in order. */
  ghost predicate Spells(s: string, v: Value)
    decreases v
  {
    match v
    case Null => s == "null"
    case Bool(flag) => s == if flag then "true" else "false"
    case Number(Integer(n)) => SpellsInteger(s, n)
    case Number(Float(text)) => s == text
    case Str(text) => SpellsString(s, text)
    case Array(items) =>
      exists parts: seq<string> ::
        |parts| == |items| && s == "[" + Separated(parts) + "]"
        && forall i :: 0 <= i < |items| ==> Spells(parts[i], items[i])
    case Object(fields) =>
      exists parts: seq<string>, order: seq<nat> ::
        |parts| == |fields| && s == "{" + Separated(parts) + "}" && Arranged(fields, order)
        && forall i :: 0 <= i < |fields| ==> SpellsField(parts[i], fields[order[i]])
  }

  ghost predicate SpellsField(s: string, f: Field)
    decreases f
  {
    exists key: string, text: string :: s == key + ":" + text && SpellsString(key, f.name) && Spells(text, f.value)
  }

  function ItemTexts(items: seq<Value>): seq<string> {
    seq(|items|, i requires 0 <= i < |items| => Canon(items[i]))
  }

  lemma {:induction false} ItemsAreSeparated(items: seq<Value>)
    requires items != []
    ensures Canon(items[0]) + MoreItems(items[1..]) == Separated(ItemTexts(items))
  {
    assert ItemTexts(items)[1..] == ItemTexts(items[1..]);
    if |items| > 1 {
      ItemsAreSeparated(items[1..]);
      Join3(Canon(items[0]), ",", Canon(items[1]), MoreItems(items[1..][1..]));
    }
  }

  lemma Join3(a: string, comma: string, b: string, c: string)
    ensures a + (comma + b + c) == a + comma + (b + c)
  {
  }

  function EntryTexts(entries: seq<Entry>): seq<string> {
    seq(|entries|, i requires 0 <= i < |entries| => EntryText(entries[i]))
  }

  lemma {:induction false} EntriesAreSeparated(entries: seq<Entry>)
    requires entries != []
    ensures EntryText(entries[0]) + MoreEntries(entries[1..]) == Separated(EntryTexts(entries))
  {
    assert EntryTexts(entries)[1..] == EntryTexts(entries[1..]);
    if |entries| > 1 {
      EntriesAreSeparated(entries[1..]);
      Join3(EntryText(entries[0]), ",", EntryText(entries[1]), MoreEntries(entries[1..][1..]));
    }
  }

  ghost function FieldOf(fields: seq<Field>, e: Entry): (i: nat)
    requires HasField(fields, e)
    ensures i < |fields| && fields[i].name == e.key && Canon(fields[i].value) == e.text
  {
    var i :| 0 <= i < |fields| && fields[i].name == e.key && Canon(fields[i].value) == e.text;
    i
  }

  ghost function Order(fields: seq<Field>, sorted: seq<Entry>): seq<nat>
    requires forall e <- sorted :: HasField(fields, e)
  {
    seq(|sorted|, i requires 0 <= i < |sorted| => FieldOf(fields, sorted[i]))
  }

  lemma SortedIsArranged(fields: seq<Field>)
    requires NamesDiffer(fields)
    ensures var sorted := Sort(Entries(fields));
            |sorted| == |fields| && (forall e <- sorted :: HasField(fields, e))
            && Arranged(fields, Order(fields, sorted))
  {
    SortedEntries(fields);
    var sorted := Sort(Entries(fields));
    var order := Order(fields, sorted);
    forall i, j | 0 <= i < j < |order|
      ensures ByteLess(Bytes(fields[order[i]].name), Bytes(fields[order[j]].name))
    {
      KeyOrderIsByteOrder(sorted[i].key, sorted[j].key);
    }
  }

  lemma EntrySpells(e: Entry, f: Field)
    requires f.name == e.key && Spells(e.text, f.value)
    ensures SpellsField(EntryText(e), f)
  {
    QuoteSpells(e.key);
    assert EntryText(e) == Quote(e.key) + ":" + e.text;
  }

  lemma ArraySpells(v: Value)
    requires v.Array? && forall i :: 0 <= i < |v.items| ==> Spells(Canon(v.items[i]), v.items[i])
    ensures Spells(Canon(v), v)
  {
    var parts := ItemTexts(v.items);
    if v.items != [] {
      ItemsAreSeparated(v.items);
    }
    assert Canon(v) == "[" + Separated(parts) + "]";
  }

  lemma ObjectSpells(v: Value)
    requires v.Object? && NamesDiffer(v.fields)
    requires forall f <- v.fields :: Spells(Canon(f.value), f.value)
    ensures Spells(Canon(v), v)
  {
    SortedIsArranged(v.fields);
    var sorted := Sort(Entries(v.fields));
    var parts, order := EntryTexts(sorted), Order(v.fields, sorted);
    if sorted != [] {
      EntriesAreSeparated(sorted);
    }
    assert Canon(v) == "{" + Separated(parts) + "}";
    forall i | 0 <= i < |v.fields| ensures SpellsField(parts[i], v.fields[order[i]]) {
      assert sorted[i] in sorted && v.fields[order[i]] in v.fields;
      EntrySpells(sorted[i], v.fields[order[i]]);
    }
  }

  /** The canonical text is a JSON text of the value it is printed from. */
  lemma {:induction false} CanonSpells(v: Value)
    requires WellFormed(v)
    ensures Spells(Canon(v), v)
  {
    match v {
      case Number(Integer(n)) => IntegerSpells(n);
      case Str(text) => QuoteSpells(text);
      case Array(items) =>
        forall i | 0 <= i < |items| ensures Spells(Canon(items[i]), items[i]) {
          CanonSpells(items[i]);
        }
        ArraySpells(v);
      case Object(fields) =>
        forall f <- fields ensures Spells(Canon(f.value), f.value) {
          CanonSpells(f.value);
        }
        ObjectSpells(v);
      case _ =>
    }
  }
}
