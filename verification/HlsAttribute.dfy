/** The attribute lookup of the HLS playlist parser: it scans the attribute list of one tag (section
    4.2 of RFC 8216). The delimiters are ASCII, so scanning bytes and scanning characters agree. */
module HlsAttribute {
  import opened Wrappers
  import opened Text

  predicate IsAsciiWhitespace(c: char) {
    c == ' ' || c == '\t' || c == '\n' || c == '\U{0C}' || c == '\r'
  }

  predicate EqIgnoreAsciiCase(a: string, b: string) {
    ToLowerAscii(a) == ToLowerAscii(b)
  }

  predicate Separator(c: char) {
    c == ',' || IsAsciiWhitespace(c)
  }

  // ----- the scan, as a function of the offset

  /** Where a loop that scans `s` from `i` up to `a` or `b` ends. */
  function To(s: string, i: nat, a: char, b: char): (to: nat)
    requires i <= |s|
    ensures i <= to <= |s|
    decreases |s| - i
  {
    if i < |s| && s[i] != a && s[i] != b then To(s, i + 1, a, b) else i
  }

  function PastSeparators(s: string, i: nat): (to: nat)
    requires i <= |s|
    ensures i <= to <= |s| && (to < |s| ==> !Separator(s[to]))
    decreases |s| - i
  {
    if i < |s| && Separator(s[i]) then PastSeparators(s, i + 1) else i
  }

  /** One round of the scan, past the separators: a key's text and value, if there was an `=`, and
      where the next round starts. */
  datatype Round = Round(entry: Option<(string, string)>, next: nat)

  /** The value that starts at `at`, untrimmed, and the offset past it and its closing quote. */
  function TakeValue(s: string, at: nat): (r: (string, nat))
    requires at <= |s|
    ensures at <= r.1 <= |s|
  {
    if at < |s| && s[at] == '"' then
      var end := To(s, at + 1, '"', '"');
      (s[at + 1..end], if end < |s| then end + 1 else end)
    else
      var end := To(s, at, ',', ',');
      (s[at..end], end)
  }

  function ReadRound(s: string, key: nat): (r: Round)
    requires key <= |s|
    ensures key <= r.next <= |s| && (key < |s| && !Separator(s[key]) ==> key < r.next)
  {
    var eq := To(s, key, '=', ',');
    if eq == |s| || s[eq] == ',' then Round(None, eq)
    else
      var (value, after) := TakeValue(s, eq + 1);
      Round(Some((s[key..eq], value)), To(s, after, ',', ','))
  }

  predicate Hits(r: Round, wanted: string) {
    r.entry.Some? && EqIgnoreAsciiCase(Trim(r.entry.value.0), wanted)
  }

  function Scan(s: string, i: nat, wanted: string): Option<string>
    requires i <= |s|
    decreases |s| - i
  {
    if i == |s| then None
    else
      var r := ReadRound(s, PastSeparators(s, i));
      if Hits(r, wanted) then Some(Trim(r.entry.value.1)) else Scan(s, r.next, wanted)
  }

  /** The specification of the lookup on a whole line. */
  function Lookup(line: string, wanted: string): Option<string> {
    match SplitOnce(line, ':')
    case None => None
    case Some((_, attrs)) => Scan(attrs, 0, wanted)
  }

  /** One round, from a key that starts at `keyStart`. */
  method ReadKeyAndValue(attrs: string, keyStart: nat) returns (round: Round)
    requires keyStart <= |attrs|
    ensures round == ReadRound(attrs, keyStart)
  {
    var offset := keyStart;
    while offset < |attrs| && attrs[offset] != '=' && attrs[offset] != ','
      invariant keyStart <= offset <= |attrs| && To(attrs, offset, '=', ',') == To(attrs, keyStart, '=', ',')
    {
      offset := offset + 1;
    }
    if offset >= |attrs| || attrs[offset] != '=' {
      // The skip to the next comma that follows here never moves: the key loop stopped at one.
      return Round(None, offset);
    }
    var key := attrs[keyStart..offset];
    var value;
    value, offset := ReadValue(attrs, offset + 1);
    ghost var after := offset;
    while offset < |attrs| && attrs[offset] != ','
      invariant after <= offset <= |attrs| && To(attrs, offset, ',', ',') == To(attrs, after, ',', ',')
    {
      offset := offset + 1;
    }
    return Round(Some((key, value)), offset);
  }

  method ReadValue(attrs: string, at: nat) returns (value: string, after: nat)
    requires at <= |attrs|
    ensures (value, after) == TakeValue(attrs, at)
  {
    var offset := at;
    var quoted := offset < |attrs| && attrs[offset] == '"';
    if quoted {
      offset := offset + 1;
    }
    var valueStart := offset;
    if quoted {
      while offset < |attrs| && attrs[offset] != '"'
        invariant valueStart <= offset <= |attrs| && To(attrs, offset, '"', '"') == To(attrs, valueStart, '"', '"')
      {
        offset := offset + 1;
      }
    } else {
      while offset < |attrs| && attrs[offset] != ','
        invariant valueStart <= offset <= |attrs| && To(attrs, offset, ',', ',') == To(attrs, valueStart, ',', ',')
      {
        offset := offset + 1;
      }
    }
    value := attrs[valueStart..offset];
    after := if quoted && offset < |attrs| then offset + 1 else offset;
  }

  /** The lookup: one offset, moved over the list. It ends and stays in bounds on every line. */
  method HlsAttribute(line: string, wanted: string) returns (found: Option<string>)
    ensures found == Lookup(line, wanted)
  {
    var attrs;
    match SplitOnce(line, ':') {
      case None => return None;
      case Some((_, tail)) => attrs := tail;
    }
    var offset := 0;
    while offset < |attrs|
      invariant offset <= |attrs|
      invariant Scan(attrs, offset, wanted) == Scan(attrs, 0, wanted)
    {
      ghost var at := offset;
      while offset < |attrs| && Separator(attrs[offset])
        invariant at <= offset <= |attrs| && PastSeparators(attrs, offset) == PastSeparators(attrs, at)
      {
        offset := offset + 1;
      }
      var round := ReadKeyAndValue(attrs, offset);
      ScanRound(attrs, at, offset, round, wanted);
      if round.entry.Some? && EqIgnoreAsciiCase(Trim(round.entry.value.0), wanted) {
        return Some(Trim(round.entry.value.1));
      }
      offset := round.next;
    }
    return None;
  }

  // ----- printing attribute lists

  /** An entry of the list: an attribute, or text without `=`, which the scan passes over. */
  datatype Entry =
    | Attribute(name: string, value: string, quoted: bool)
    | Bare(text: string)

  /** What the grammar asks: quoted values may hold commas and `=`. */
  predicate Printable(e: Entry) {
    match e
    case Attribute(name, value, quoted) =>
      && '=' !in name && ',' !in name
      && (if quoted then '"' !in value else ',' !in value && !("\"" <= value))
    case Bare(text) => '=' !in text && ',' !in text
  }

  function PrintEntry(e: Entry): string {
    match e
    case Attribute(name, value, quoted) => name + "=" + if quoted then "\"" + value + "\"" else value
    case Bare(text) => text
  }

  function Print(entries: seq<Entry>): string {
    if entries == [] then ""
    else PrintEntry(entries[0]) + if |entries| == 1 then "" else "," + Print(entries[1..])
  }

  predicate Names(e: Entry, wanted: string) {
    e.Attribute? && EqIgnoreAsciiCase(Trim(e.name), wanted)
  }

  /** The reference: the first attribute of that name. */
  function FirstNamed(entries: seq<Entry>, wanted: string): Option<string> {
    if entries == [] then None
    else if Names(entries[0], wanted) then Some(Trim(entries[0].value))
    else FirstNamed(entries[1..], wanted)
  }

  // ----- the scan inverts the printer

  lemma HeadAt(s: string, i: nat, text: string, rest: string)
    requires i <= |s| && s[i..] == text + rest && text != ""
    ensures i < |s| && s[i] == text[0] && s[i + 1..] == text[1..] + rest
  {
    assert s[i] == s[i..][0];
    assert s[i + 1..] == s[i..][1..];
  }

  lemma RestAt(s: string, i: nat, rest: string)
    requires i <= |s| && s[i..] == "" + rest
    ensures s[i..] == rest && i == |s| - |rest| && (rest != "" ==> s[i] == rest[0])
  {
  }

  lemma HeadSlice(s: string, i: nat, text: string, end: nat)
    requires i < end <= |s| && text != "" && s[i] == text[0] && s[i + 1..end] == text[1..]
    ensures s[i..end] == text
  {
    assert s[i..end] == [s[i]] + s[i + 1..end];
  }

  /** A loop passes `text`, which is followed by a stop or the end. */
  lemma {:induction false} ToPasses(s: string, i: nat, text: string, rest: string, a: char, b: char)
    requires i <= |s| && s[i..] == text + rest
    requires (forall c <- text :: c != a && c != b) && (rest == "" || rest[0] == a || rest[0] == b)
    ensures i + |text| <= |s| && To(s, i, a, b) == i + |text| && s[i..i + |text|] == text && s[i + |text|..] == rest
    decreases text
  {
    if text == "" {
      RestAt(s, i, rest);
    } else {
      HeadAt(s, i, text, rest);
      assert text[0] in text && forall c <- text[1..] :: c in text;
      ToPasses(s, i + 1, text[1..], rest, a, b);
      HeadSlice(s, i, text, i + |text|);
    }
  }

  lemma TailOfTail(name: string, n: nat)
    requires n < |name|
    ensures name[1..][n..] == name[n + 1..]
  {
  }

  lemma TrimDropsHead(name: string)
    requires name != "" && IsWhitespace(name[0])
    ensures Trim(name) == Trim(name[1..])
  {
  }

  /** Separators before a key come from the key itself, so they are whitespace it is trimmed of. */
  lemma {:induction false} SeparatorsInKey(s: string, i: nat, name: string, rest: string)
    requires i <= |s| && s[i..] == name + rest && ',' !in name && rest != "" && rest[0] == '='
    ensures var n := PastSeparators(s, i) - i;
            n <= |name| && s[i + n..] == name[n..] + rest && Trim(name[n..]) == Trim(name)
    decreases name
  {
    if name == "" {
      RestAt(s, i, rest);
    } else {
      HeadAt(s, i, name, rest);
      assert name[0] in name;
      if Separator(name[0]) {
        SeparatorsInKey(s, i + 1, name[1..], rest);
        TrimDropsHead(name);
        TailOfTail(name, PastSeparators(s, i + 1) - (i + 1));
      } else {
        assert name[0..] == name;
      }
    }
  }

  function ValueText(value: string, quoted: bool): string {
    if quoted then "\"" + value + "\"" else value
  }

  lemma TakeQuoted(s: string, at: nat, value: string, rest: string)
    requires '"' !in value && at <= |s| && s[at..] == "\"" + value + "\"" + rest
    ensures TakeValue(s, at).0 == value && s[TakeValue(s, at).1..] == rest
  {
    assert s[at..] == "\"" + (value + ("\"" + rest));
    HeadAt(s, at, "\"", value + ("\"" + rest));
    RestAt(s, at + 1, value + ("\"" + rest));
    ToPasses(s, at + 1, value, "\"" + rest, '"', '"');
    HeadAt(s, at + 1 + |value|, "\"", rest);
    RestAt(s, at + |value| + 2, rest);
  }

  lemma TakeUnquoted(s: string, at: nat, value: string, rest: string)
    requires ',' !in value && !("\"" <= value) && (rest == "" || rest[0] == ',') && at <= |s| && s[at..] == value + rest
    ensures TakeValue(s, at).0 == value && s[TakeValue(s, at).1..] == rest
  {
    assert at < |s| ==> s[at] == s[at..][0];
    assert value != "" ==> "\"" == [value[0]] || value[0] != '"';
    ToPasses(s, at, value, rest, ',', ',');
  }

  lemma TakeValueOf(s: string, at: nat, value: string, quoted: bool, rest: string)
    requires Printable(Attribute("", value, quoted)) && (rest == "" || rest[0] == ',')
    requires at <= |s| && s[at..] == ValueText(value, quoted) + rest
    ensures TakeValue(s, at).0 == value && s[TakeValue(s, at).1..] == rest
  {
    if quoted {
      TakeQuoted(s, at, value, rest);
    } else {
      TakeUnquoted(s, at, value, rest);
    }
  }

  lemma KeyAt(s: string, at: nat, key: string, tail: string)
    requires '=' !in key && ',' !in key && at <= |s| && s[at..] == key + ("=" + tail)
    ensures To(s, at, '=', ',') == at + |key| < |s| && s[at + |key|] == '=' && s[at..at + |key|] == key
    ensures s[at + |key| + 1..] == tail
  {
    ToPasses(s, at, key, "=" + tail, '=', ',');
    HeadAt(s, at + |key|, "=", tail);
    RestAt(s, at + |key| + 1, tail);
  }

  lemma KeyAndValueAt(s: string, at: nat, key: string, value: string, quoted: bool, rest: string)
    requires Printable(Attribute(key, value, quoted)) && (rest == "" || rest[0] == ',')
    requires at <= |s| && s[at..] == key + ("=" + (ValueText(value, quoted) + rest))
    ensures To(s, at, '=', ',') == at + |key| < |s| && s[at + |key|] == '=' && s[at..at + |key|] == key
    ensures TakeValue(s, at + |key| + 1) == (value, |s| - |rest|) && s[|s| - |rest|..] == rest
    ensures rest != "" ==> s[|s| - |rest|] == rest[0]
  {
    KeyAt(s, at, key, ValueText(value, quoted) + rest);
    TakeValueOf(s, at + |key| + 1, value, quoted, rest);
    SuffixAt(s, TakeValue(s, at + |key| + 1).1, rest);
  }

  lemma ScanRound(s: string, i: nat, at: nat, r: Round, wanted: string)
    requires i < |s| && PastSeparators(s, i) == at && r == ReadRound(s, at)
    ensures Scan(s, i, wanted) == if Hits(r, wanted) then Some(Trim(r.entry.value.1)) else Scan(s, r.next, wanted)
  {
  }

  lemma SuffixAt(s: string, i: nat, rest: string)
    requires i <= |s| && s[i..] == rest
    ensures i == |s| - |rest| && (rest != "" ==> s[i] == rest[0])
  {
  }

  lemma KeyStart(s: string, i: nat, name: string, rest: string) returns (at: nat, key: string)
    requires i <= |s| && s[i..] == name + rest && '=' !in name && ',' !in name && rest != "" && rest[0] == '='
    ensures i < |s| && at == PastSeparators(s, i) <= |s| && s[at..] == key + rest && Trim(key) == Trim(name)
    ensures '=' !in key && ',' !in key
  {
    SeparatorsInKey(s, i, name, rest);
    at := PastSeparators(s, i);
    key := name[at - i..];
    assert forall c <- key :: c in name;
  }

  lemma PrintedAttribute(e: Entry, rest: string)
    requires e.Attribute?
    ensures PrintEntry(e) + rest == e.name + ("=" + (ValueText(e.value, e.quoted) + rest))
  {
  }

  /** Bare text holds no `=`, unless it is separators only. */
  lemma {:induction false} BareParts(s: string, i: nat, text: string, rest: string)
    requires Printable(Bare(text)) && (rest == "" || rest[0] == ',')
    requires i <= |s| && s[i..] == text + rest
    ensures i + |text| <= |s| && s[i + |text|..] == rest
    ensures PastSeparators(s, i) == PastSeparators(s, i + |text|) || To(s, PastSeparators(s, i), '=', ',') == i + |text|
    decreases text
  {
    if text == "" {
      RestAt(s, i, rest);
    } else {
      HeadAt(s, i, text, rest);
      if Separator(text[0]) {
        BareParts(s, i + 1, text[1..], rest);
      } else {
        ToPasses(s, i, text, rest, '=', ',');
      }
    }
  }

  // ----- from the text to the rounds

  /** What the round over entry `e` at `i` meets, in positions only: it ends at `next`. */
  predicate EntryRound(s: string, i: nat, e: Entry, next: nat) {
    && i <= next <= |s| && (next < |s| ==> s[next] == ',')
    && var at := PastSeparators(s, i);
       var eq := To(s, at, '=', ',');
       match e
       case Attribute(name, value, _) =>
         i < |s| && eq < |s| && s[eq] == '=' && Trim(s[at..eq]) == Trim(name) && TakeValue(s, eq + 1) == (value, next)
       case Bare(_) => at == PastSeparators(s, next) || eq == next
  }

  lemma AttributeRound(s: string, i: nat, e: Entry, next: nat, at: nat, eq: nat)
    requires e.Attribute? && i < |s| && i <= next <= |s| && (next < |s| ==> s[next] == ',')
    requires at == PastSeparators(s, i) && To(s, at, '=', ',') == eq < |s| && s[eq] == '='
    requires Trim(s[at..eq]) == Trim(e.name) && TakeValue(s, eq + 1) == (e.value, next)
    ensures EntryRound(s, i, e, next)
  {
  }

  /** From the key on: the key, the value, and `rest`. */
  lemma KeyedRound(s: string, i: nat, at: nat, key: string, e: Entry, rest: string)
    requires e.Attribute? && Printable(Attribute(key, e.value, e.quoted)) && (rest == "" || rest[0] == ',')
    requires i < |s| && at == PastSeparators(s, i) && Trim(key) == Trim(e.name)
    requires s[at..] == key + ("=" + (ValueText(e.value, e.quoted) + rest))
    ensures i <= |s| - |rest| && s[|s| - |rest|..] == rest && EntryRound(s, i, e, |s| - |rest|)
  {
    KeyAndValueAt(s, at, key, e.value, e.quoted, rest);
    AttributeRound(s, i, e, |s| - |rest|, at, at + |key|);
  }

  lemma PrintedAttributeRound(s: string, i: nat, e: Entry, rest: string)
    requires e.Attribute? && Printable(e) && (rest == "" || rest[0] == ',')
    requires i <= |s| && s[i..] == e.name + ("=" + (ValueText(e.value, e.quoted) + rest))
    ensures i <= |s| - |rest| && s[|s| - |rest|..] == rest && EntryRound(s, i, e, |s| - |rest|)
  {
    var at, key := KeyStart(s, i, e.name, "=" + (ValueText(e.value, e.quoted) + rest));
    KeyedRound(s, i, at, key, e, rest);
  }

  lemma PrintedBareRound(s: string, i: nat, e: Entry, rest: string)
    requires e.Bare? && Printable(e) && (rest == "" || rest[0] == ',') && i <= |s| && s[i..] == e.text + rest
    ensures i <= |s| - |rest| && s[|s| - |rest|..] == rest && EntryRound(s, i, e, |s| - |rest|)
  {
    BareParts(s, i, e.text, rest);
    SuffixAt(s, i + |e.text|, rest);
  }

  lemma PrintedEntryRound(s: string, i: nat, e: Entry, rest: string)
    requires Printable(e) && (rest == "" || rest[0] == ',') && i <= |s| && s[i..] == PrintEntry(e) + rest
    ensures i <= |s| - |rest| && s[|s| - |rest|..] == rest && EntryRound(s, i, e, |s| - |rest|)
  {
    if e.Attribute? {
      PrintedAttribute(e, rest);
      PrintedAttributeRound(s, i, e, rest);
    } else {
      PrintedBareRound(s, i, e, rest);
    }
  }

  /** The rounds over all entries, from `i` to the end. */
  ghost predicate Rounds(s: string, i: nat, entries: seq<Entry>)
    decreases |entries|, 0
  {
    if entries == [] then i == |s|
    else exists next: nat :: EntryRound(s, i, entries[0], next) && Follows(s, next, entries[1..])
  }

  ghost predicate Follows(s: string, next: nat, entries: seq<Entry>)
    decreases |entries|, 1
  {
    if entries == [] then next == |s| else next < |s| && s[next] == ',' && Rounds(s, next + 1, entries)
  }

  lemma CommaHead(s: string, i: nat, tail: string)
    requires i <= |s| && s[i..] == "," + tail
    ensures i < |s| && s[i] == ',' && s[i + 1..] == tail
  {
    HeadAt(s, i, ",", tail);
    RestAt(s, i + 1, tail);
  }

  lemma {:induction false} PrintedRounds(s: string, i: nat, entries: seq<Entry>)
    requires (forall e <- entries :: Printable(e)) && i <= |s| && s[i..] == Print(entries)
    ensures Rounds(s, i, entries)
    decreases entries
  {
    if entries != [] {
      var rest := if |entries| == 1 then "" else "," + Print(entries[1..]);
      var next := |s| - |rest|;
      PrintedEntryRound(s, i, entries[0], rest);
      if |entries| > 1 {
        CommaHead(s, next, Print(entries[1..]));
        PrintedRounds(s, next + 1, entries[1..]);
      }
      assert Follows(s, next, entries[1..]);
    }
  }

  // ----- from the rounds to the result

  lemma ScanAttributeRound(s: string, i: nat, e: Entry, next: nat, wanted: string)
    requires e.Attribute? && EntryRound(s, i, e, next)
    ensures Scan(s, i, wanted) == if Names(e, wanted) then Some(Trim(e.value)) else Scan(s, next, wanted)
  {
    var at := PastSeparators(s, i);
    ScanRound(s, i, at, Round(Some((s[at..To(s, at, '=', ',')], e.value)), next), wanted);
  }

  lemma ScanBareRound(s: string, i: nat, e: Entry, next: nat, wanted: string)
    requires e.Bare? && EntryRound(s, i, e, next)
    ensures Scan(s, i, wanted) == Scan(s, next, wanted)
  {
    assert ReadRound(s, |s|) == Round(None, |s|);
  }

  lemma ScanDropsSeparator(s: string, i: nat, wanted: string)
    requires i < |s| && Separator(s[i])
    ensures Scan(s, i, wanted) == Scan(s, i + 1, wanted)
  {
    if PastSeparators(s, i) == |s| {
      assert ReadRound(s, |s|) == Round(None, |s|);
    }
  }

  lemma {:induction false} ScanFollowsRounds(s: string, i: nat, entries: seq<Entry>, wanted: string)
    requires i <= |s| && Rounds(s, i, entries)
    ensures Scan(s, i, wanted) == FirstNamed(entries, wanted)
    decreases |entries|, 0
  {
    if entries != [] {
      var next: nat :| EntryRound(s, i, entries[0], next) && Follows(s, next, entries[1..]);
      if entries[0].Attribute? {
        ScanAttributeRound(s, i, entries[0], next, wanted);
      } else {
        ScanBareRound(s, i, entries[0], next, wanted);
      }
      ScanFollows(s, next, entries[1..], wanted);
    }
  }

  lemma {:induction false} ScanFollows(s: string, next: nat, entries: seq<Entry>, wanted: string)
    requires next <= |s| && Follows(s, next, entries)
    ensures Scan(s, next, wanted) == FirstNamed(entries, wanted)
    decreases |entries|, 1
  {
    if entries != [] {
      ScanDropsSeparator(s, next, wanted);
      ScanFollowsRounds(s, next + 1, entries, wanted);
    }
  }

  /** The scanner inverts attribute-list printing: on any printed list, looking up a name finds the
      first attribute of that name, ASCII case aside, and returns its trimmed value. */
  lemma LookupInvertsPrint(tag: string, entries: seq<Entry>, wanted: string)
    requires ':' !in tag && forall e <- entries :: Printable(e)
    ensures Lookup(tag + ":" + Print(entries), wanted) == FirstNamed(entries, wanted)
  {
    SplitOnceAt(tag, ':', Print(entries));
    assert Print(entries)[0..] == Print(entries);
    PrintedRounds(Print(entries), 0, entries);
    ScanFollowsRounds(Print(entries), 0, entries, wanted);
  }

  /** With names that differ by more than case, every attribute is found. */
  lemma {:induction false} EachAttributeIsFound(tag: string, entries: seq<Entry>, i: nat)
    requires ':' !in tag && (forall e <- entries :: Printable(e)) && i < |entries| && entries[i].Attribute?
    requires forall j :: 0 <= j < |entries| && j != i ==> !Names(entries[j], Trim(entries[i].name))
    ensures Lookup(tag + ":" + Print(entries), Trim(entries[i].name)) == Some(Trim(entries[i].value))
  {
    LookupInvertsPrint(tag, entries, Trim(entries[i].name));
    FirstNamedAt(entries, Trim(entries[i].name), i);
  }

  lemma {:induction false} FirstNamedAt(entries: seq<Entry>, wanted: string, i: nat)
    requires i < |entries| && Names(entries[i], wanted) && forall j :: 0 <= j < i ==> !Names(entries[j], wanted)
    ensures FirstNamed(entries, wanted) == Some(Trim(entries[i].value))
  {
    if i > 0 {
      assert forall j :: 0 <= j < i - 1 ==> entries[1..][j] == entries[j + 1];
      FirstNamedAt(entries[1..], wanted, i - 1);
    }
  }
}
