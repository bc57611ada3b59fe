/** SubRip and WebVTT conversion in the Cast relay. Text is already decoded from UTF-8. */
module Subtitles {
  import opened Wrappers
  import opened Text
  import opened Decimal

  // ----- primitives on lines

  const ARROW := "-->"

  function SkipByteOrderMarks(s: string): string {
    if s != "" && s[0] == '\U{FEFF}' then SkipByteOrderMarks(s[1..]) else s
  }

  /** `replace("\r\n", "\n").replace('\r', "\n")`. */
  function UnifyNewlines(s: string): string {
    if s == "" then ""
    else if s[0] == '\r' then "\n" + UnifyNewlines(if |s| > 1 && s[1] == '\n' then s[2..] else s[1..])
    else [s[0]] + UnifyNewlines(s[1..])
  }

  function Normalize(text: string): string {
    UnifyNewlines(SkipByteOrderMarks(text))
  }

  function Replace(s: string, a: char, b: char): string {
    seq(|s|, i requires 0 <= i < |s| => if s[i] == a then b else s[i])
  }

  function Count(s: string, c: char): nat {
    if s == "" then 0 else (if s[0] == c then 1 else 0) + Count(s[1..], c)
  }

  /** `str::lines` on text without carriage returns: a final newline ends the last line. */
  function Lines(s: string): seq<string>
    decreases |s|
  {
    if s == "" then []
    else
      match SplitOnce(s, '\n')
      case None => [s]
      case Some((line, rest)) =>
        SplitOnceShortens(s, '\n');
        [line] + Lines(rest)
  }

  function Join(lines: seq<string>): string {
    if lines == [] then "" else if |lines| == 1 then lines[0] else lines[0] + "\n" + Join(lines[1..])
  }

  /** Each line with its newline. */
  function Unlines(lines: seq<string>): string {
    if lines == [] then "" else lines[0] + "\n" + Unlines(lines[1..])
  }

  /** `split_once` on a text separator. */
  function SplitText(s: string, separator: string): Option<(string, string)> {
    if separator <= s then Some(("", s[|separator|..]))
    else if s == "" then None
    else
      match SplitText(s[1..], separator)
      case None => None
      case Some((a, b)) => Some(([s[0]] + a, b))
  }

  predicate HasArrow(s: string) {
    SplitText(s, ARROW).Some?
  }

  /** `split("\n\n")`. */
  function Blocks(s: string): seq<string>
    decreases |s|
  {
    match SplitText(s, "\n\n")
    case None => [s]
    case Some((block, rest)) =>
      SplitTextMeaning(s, "\n\n");
      [block] + Blocks(rest)
  }

  /** `split_whitespace().next()`. */
  function FirstWord(s: string): Option<string> {
    var t := TrimStart(s);
    if t == "" then None else Some(UntilSpace(t))
  }

  function UntilSpace(s: string): string {
    if s == "" || IsWhitespace(s[0]) then "" else [s[0]] + UntilSpace(s[1..])
  }

  lemma {:induction false} SplitOnceShortens(s: string, c: char)
    ensures match SplitOnce(s, c)
            case None => true
            case Some((a, b)) => s == a + [c] + b && c !in a
  {
    if s != "" && s[0] != c {
      SplitOnceShortens(s[1..], c);
    }
  }

  lemma {:induction false} SplitTextMeaning(s: string, separator: string)
    ensures match SplitText(s, separator)
            case None => true
            case Some((a, b)) => s == a + separator + b && (separator != "" ==> SplitText(a, separator).None?)
  {
    if !(separator <= s) && s != "" {
      SplitTextMeaning(s[1..], separator);
      match SplitText(s[1..], separator) {
        case None =>
        case Some((a, b)) =>
          assert s == [s[0]] + a + separator + b;
          assert ([s[0]] + a)[1..] == a;
          assert separator <= [s[0]] + a ==> separator <= s;
      }
    } else if separator <= s {
      assert s == "" + separator + s[|separator|..];
    }
  }

  // ----- the two conversions

  /** A cue with its converted timestamps. */
  datatype Cue = Cue(start: string, end: string, body: seq<string>)

  function Timestamp(value: string): string {
    var v := Replace(Trim(value), '.', ',');
    if Count(v, ':') == 1 then "00:" + v else v
  }

  function TimingIndex(lines: seq<string>): (i: nat)
    ensures i <= |lines|
  {
    if lines == [] || HasArrow(lines[0]) then 0 else 1 + TimingIndex(lines[1..])
  }

  function BlockCue(block: string): Option<Cue> {
    var lines := Lines(block);
    var i := TimingIndex(lines);
    if i == |lines| then None
    else
      match SplitText(lines[i], ARROW)
      case None => None
      case Some((start, settings)) =>
        match FirstWord(settings)
        case None => None
        case Some(end) =>
          var body := lines[i + 1..];
          if Trim(Join(body)) == "" then None else Some(Cue(Timestamp(start), Timestamp(end), body))
  }

  function Usable(blocks: seq<string>): seq<Cue> {
    if blocks == [] then []
    else
      match BlockCue(blocks[0])
      case None => Usable(blocks[1..])
      case Some(cue) => [cue] + Usable(blocks[1..])
  }

  /** The cues of a WebVTT document. */
  function Cues(text: string): seq<Cue> {
    Usable(Blocks(Normalize(text)))
  }

  function CueText(n: nat, cue: Cue): string {
    ToDecimal(n) + "\n" + cue.start + " --> " + cue.end + "\n" + Join(cue.body) + "\n\n"
  }

  /** SubRip text of cues numbered from `n`. */
  function Render(cues: seq<Cue>, n: nat): string {
    if cues == [] then "" else CueText(n, cues[0]) + Render(cues[1..], n + 1)
  }

  datatype NoCues = NoCues

  function WebVttToSrt(text: string): Result<string, NoCues> {
    if Cues(text) == [] then Failure(NoCues) else Success(Render(Cues(text), 1))
  }

  function Dotted(line: string): string {
    if HasArrow(line) then Replace(line, ',', '.') else line
  }

  function DottedLines(lines: seq<string>): seq<string> {
    seq(|lines|, i requires 0 <= i < |lines| => Dotted(lines[i]))
  }

  function SrtToWebVtt(text: string): string {
    "WEBVTT\n\n" + Unlines(DottedLines(Lines(Normalize(text))))
  }

  method ConvertSrt(text: string) returns (output: string)
    ensures output == SrtToWebVtt(text)
  {
    var lines := Lines(Normalize(text));
    output := "WEBVTT\n\n";
    for i := 0 to |lines|
      invariant output + Unlines(DottedLines(lines[i..])) == SrtToWebVtt(text)
    {
      var rest := DottedLines(lines[i..]);
      assert rest[0] == Dotted(lines[i]) && rest[1..] == DottedLines(lines[i + 1..]);
      ghost var before := output;
      output := output + (if HasArrow(lines[i]) then Replace(lines[i], ',', '.') else lines[i]);
      output := output + "\n";
      assert output + Unlines(rest[1..]) == before + (rest[0] + "\n" + Unlines(rest[1..]));
    }
  }

  lemma {:induction false} RenderSnoc(cues: seq<Cue>, cue: Cue, n: nat)
    ensures Render(cues + [cue], n) == Render(cues, n) + CueText(n + |cues|, cue)
  {
    if cues == [] {
      assert [] + [cue] == [cue] && Render([cue], n) == CueText(n, cue) + "";
    } else {
      assert (cues + [cue])[1..] == cues[1..] + [cue];
      RenderSnoc(cues[1..], cue, n + 1);
    }
  }

  method ReadCue(block: string) returns (cue: Option<Cue>)
    ensures cue == BlockCue(block)
  {
    var lines := Lines(block);
    var timing := TimingIndex(lines);
    if timing == |lines| {
      return None;
    }
    var split := SplitText(lines[timing], ARROW);
    if split.None? {
      return None;
    }
    var end := FirstWord(split.value.1);
    if end.None? {
      return None;
    }
    var body := lines[timing + 1..];
    if Trim(Join(body)) == "" {
      return None;
    }
    return Some(Cue(Timestamp(split.value.0), Timestamp(end.value), body));
  }

  /** After `k` blocks the cues in `written` have been printed and the rest is still to come. */
  ghost predicate Converted(blocks: seq<string>, k: nat, written: seq<Cue>, output: string)
    requires k <= |blocks|
  {
    written + Usable(blocks[k..]) == Usable(blocks) && output == Render(written, 1)
  }

  lemma UsableStep(blocks: seq<string>, k: nat)
    requires k < |blocks|
    ensures Usable(blocks[k..])
        == (match BlockCue(blocks[k]) case None => [] case Some(cue) => [cue]) + Usable(blocks[k + 1..])
  {
    assert blocks[k..][1..] == blocks[k + 1..];
  }

  lemma Associate<T>(a: seq<T>, b: seq<T>, c: seq<T>)
    ensures a + (b + c) == (a + b) + c && a + [] == a
  {
  }

  lemma ConvertNext(blocks: seq<string>, k: nat, written: seq<Cue>, output: string, found: Option<Cue>)
    requires k < |blocks| && Converted(blocks, k, written, output) && found == BlockCue(blocks[k])
    ensures match found
            case None => Converted(blocks, k + 1, written, output)
            case Some(cue) => Converted(blocks, k + 1, written + [cue], output + CueText(|written| + 1, cue))
  {
    UsableStep(blocks, k);
    if found.Some? {
      RenderSnoc(written, found.value, 1);
      Associate(written, [found.value], Usable(blocks[k + 1..]));
    } else {
      Associate(written, [], Usable(blocks[k + 1..]));
    }
  }

  method ConvertWebVtt(text: string) returns (r: Result<string, NoCues>)
    ensures r == WebVttToSrt(text)
  {
    var blocks := Blocks(Normalize(text));
    var output, number := "", 1;
    ghost var written := [];
    for k := 0 to |blocks|
      invariant Converted(blocks, k, written, output) && number == 1 + |written|
    {
      var cue := ReadCue(blocks[k]);
      ConvertNext(blocks, k, written, output, cue);
      if cue.Some? {
        output := output + CueText(number, cue.value);
        written := written + [cue.value];
        number := number + 1;
      }
    }
    assert written == Cues(text);
    RenderEmptyIff(written, 1);
    r := if output == "" then Failure(NoCues) else Success(output);
  }

  lemma RenderEmptyIff(cues: seq<Cue>, n: nat)
    ensures Render(cues, n) == "" <==> cues == []
  {
  }

  // ----- facts about the primitives

  predicate Clean(s: string) {
    forall c <- s :: c != '\n' && c != '\r'
  }

  lemma {:induction false} UnifyRemovesReturns(s: string)
    ensures '\r' !in UnifyNewlines(s)
    ensures '\r' !in s ==> UnifyNewlines(s) == s
    decreases |s|
  {
    if s != "" {
      UnifyRemovesReturns(if s[0] == '\r' && |s| > 1 && s[1] == '\n' then s[2..] else s[1..]);
      assert s == [s[0]] + s[1..];
    }
  }

  lemma NormalizedIsFixed(s: string)
    requires '\r' !in s && (s != "" ==> s[0] != '\U{FEFF}')
    ensures Normalize(s) == s
  {
    UnifyRemovesReturns(s);
  }

  lemma {:induction false} NoDashNoArrow(s: string)
    requires '-' !in s
    ensures !HasArrow(s)
  {
    if s != "" {
      assert s == [s[0]] + s[1..];
      NoDashNoArrow(s[1..]);
    }
  }

  /** A separator inside a part is in the whole. */
  lemma {:induction false} FoundInPart(before: string, s: string, after: string, separator: string)
    requires SplitText(s, separator).Some?
    ensures SplitText(before + s + after, separator).Some?
    decreases |before| + |s|
  {
    if before != "" {
      FoundInPart(before[1..], s, after, separator);
      assert (before + s + after)[1..] == before[1..] + s + after;
    } else if !(separator <= s) {
      FoundInPart("", s[1..], after, separator);
      assert ("" + s + after)[1..] == "" + s[1..] + after;
    } else {
      assert separator <= "" + s + after;
    }
  }

  /** The separator line is split at its own arrow. */
  lemma {:induction false} SplitAtOwnArrow(a: string, b: string)
    requires !HasArrow(a)
    ensures SplitText(a + " --> " + b, ARROW) == Some((a + " ", " " + b))
  {
    var s := a + " --> " + b;
    if a == "" {
      assert s[0] == ' ' && s[1..] == "--> " + b && s[1..][3..] == " " + b;
      assert SplitText(s[1..], ARROW) == Some(("", " " + b));
      assert [s[0]] + "" == a + " ";
    } else {
      assert s[1..] == a[1..] + " --> " + b;
      assert s[|a|] == ' ' && a <= s;
      assert !(ARROW <= s);
      SplitAtOwnArrow(a[1..], b);
      assert [s[0]] + (a[1..] + " ") == a + " ";
    }
  }

  lemma {:induction false} ReplaceKeepsArrow(s: string, a: char, b: char)
    requires a != '-' && a != '>' && b != '-' && b != '>'
    ensures HasArrow(Replace(s, a, b)) <==> HasArrow(s)
  {
    if s != "" {
      ReplaceKeepsArrow(s[1..], a, b);
      assert Replace(s, a, b)[1..] == Replace(s[1..], a, b);
      assert ARROW <= s <==> ARROW <= Replace(s, a, b);
    }
  }

  lemma {:induction false} ReplaceKeepsCount(s: string, a: char, b: char, c: char)
    requires a != c && b != c
    ensures Count(Replace(s, a, b), c) == Count(s, c)
  {
    if s != "" {
      ReplaceKeepsCount(s[1..], a, b, c);
      assert Replace(s, a, b)[1..] == Replace(s[1..], a, b);
    }
  }

  lemma ReplaceUndone(s: string)
    requires '.' !in s
    ensures Replace(Replace(s, ',', '.'), '.', ',') == s
  {
  }

  /** A blank text has only whitespace. */
  lemma {:induction false} BlankIffSpaces(s: string)
    ensures TrimStart(s) == "" <==> forall c <- s :: IsWhitespace(c)
  {
    if s != "" {
      assert s == [s[0]] + s[1..];
      BlankIffSpaces(s[1..]);
    }
  }

  lemma TrimBlank(s: string)
    ensures Trim(s) == "" <==> forall c <- s :: IsWhitespace(c)
  {
    BlankIffSpaces(s);
    TrimStartStops(s);
    TrimEndKeepsStart(TrimStart(s));
  }

  // ----- timestamps

  predicate Word(s: string) {
    s != "" && forall c <- s :: !IsWhitespace(c)
  }

  /** What a converted timestamp looks like. */
  predicate Stamped(s: string) {
    Trimmed(s) && '.' !in s && Count(s, ':') != 1 && Clean(s)
  }

  lemma {:induction false} CountConcat(a: string, b: string, c: char)
    ensures Count(a + b, c) == Count(a, c) + Count(b, c)
  {
    if a == "" {
      assert a + b == b;
    } else {
      CountConcat(a[1..], b, c);
      assert (a + b)[1..] == a[1..] + b;
    }
  }

  lemma {:induction false} ArrowAfterPrefix(prefix: string, s: string)
    requires '-' !in prefix
    ensures HasArrow(prefix + s) ==> HasArrow(s)
  {
    if prefix == "" {
      assert prefix + s == s;
    } else {
      assert prefix[0] in prefix && (prefix + s)[0] == prefix[0];
      assert (prefix + s)[1..] == prefix[1..] + s;
      ArrowAfterPrefix(prefix[1..], s);
    }
  }

  lemma ReplaceKeepsClean(s: string, a: char, b: char)
    requires Clean(s) && b != '\n' && b != '\r'
    ensures Clean(Replace(s, a, b))
  {
    forall c <- Replace(s, a, b) ensures c != '\n' && c != '\r' {
      var i :| 0 <= i < |s| && Replace(s, a, b)[i] == c;
      assert s[i] in s;
    }
  }

  lemma TrimKeepsLine(s: string)
    ensures Clean(s) ==> Clean(Trim(s))
    ensures !HasArrow(s) ==> !HasArrow(Trim(s))
  {
    var before, after := TrimIsPart(s);
    assert forall c <- Trim(s) :: c in s;
    if HasArrow(Trim(s)) { FoundInPart(before, Trim(s), after, ARROW); }
  }

  lemma HoursAdded(v: string)
    requires Count(v, ':') == 1
    ensures Count("00:" + v, ':') == 2 && (HasArrow("00:" + v) ==> HasArrow(v))
  {
    CountConcat("00:", v, ':');
    assert "00:"[1..] == "0:" && "0:"[1..] == ":";
    assert Count("00:", ':') == 1;
    ArrowAfterPrefix("00:", v);
  }

  lemma StampedFrom(v: string)
    requires Trimmed(v) && v != "" && '.' !in v && Clean(v)
    ensures Stamped(if Count(v, ':') == 1 then "00:" + v else v)
  {
    if Count(v, ':') == 1 {
      HoursAdded(v);
    }
  }

  lemma ConvertedValue(value: string)
    requires Clean(value)
    ensures var v := Replace(Trim(value), '.', ',');
            Trimmed(v) && '.' !in v && Clean(v) && (HasArrow(v) ==> HasArrow(value))
  {
    TrimIsTrimmed(value);
    TrimKeepsLine(value);
    ReplaceKeepsArrow(Trim(value), '.', ',');
    ReplaceKeepsClean(Trim(value), '.', ',');
  }

  lemma TimestampIsStamped(value: string)
    requires Clean(value)
    ensures Stamped(Timestamp(value)) && (!HasArrow(value) ==> !HasArrow(Timestamp(value)))
    ensures Word(value) ==> Word(Timestamp(value))
  {
    var v := Replace(Trim(value), '.', ',');
    ConvertedValue(value);
    if v != "" {
      StampedFrom(v);
    }
    if Count(v, ':') == 1 {
      HoursAdded(v);
    }
    if Word(value) {
      WordKept(value);
    }
  }

  lemma WordKept(value: string)
    requires Word(value)
    ensures Word(Timestamp(value))
  {
    assert value[0] in value && value[|value| - 1] in value;
    TrimmedIsFixed(value);
    var v := Replace(value, '.', ',');
    assert forall i :: 0 <= i < |v| ==> v[i] == ',' || v[i] in value;
  }

  lemma TimestampIsFixed(s: string)
    requires Stamped(s)
    ensures Timestamp(Replace(s, ',', '.')) == s && Timestamp(Replace(s, ',', '.') + " ") == s
  {
    var dotted := Replace(s, ',', '.');
    ReplaceUndone(s);
    TrimmedIsFixed(dotted);
    TrimSpaceAfter(dotted);
  }

  // ----- first words

  lemma {:induction false} UntilSpaceIsWord(s: string)
    ensures UntilSpace(s) <= s && forall c <- UntilSpace(s) :: !IsWhitespace(c)
    ensures (forall c <- s :: !IsWhitespace(c)) ==> UntilSpace(s) == s
  {
    if s != "" && !IsWhitespace(s[0]) {
      UntilSpaceIsWord(s[1..]);
      assert s == [s[0]] + s[1..];
    }
  }

  lemma FirstWordIsWord(s: string)
    requires FirstWord(s).Some? && Clean(s)
    ensures Word(FirstWord(s).value) && Clean(FirstWord(s).value)
  {
    TrimStartStops(s);
    UntilSpaceIsWord(TrimStart(s));
    assert forall c <- TrimStart(s) :: c in s;
  }

  lemma FirstWordAfterSpace(s: string)
    requires Word(s)
    ensures FirstWord(" " + s) == Some(s)
  {
    var t := " " + s;
    assert s[0] in s && IsWhitespace(t[0]) && t[1..] == s;
    assert TrimStart(t) == TrimStart(s) == s;
    UntilSpaceIsWord(s);
  }

  // ----- blocks and lines

  /** A line that cannot be mistaken for a separator. */
  predicate Row(line: string) {
    line != "" && Clean(line)
  }

  predicate NoBlankLine(s: string) {
    SplitText(s, "\n\n").None?
  }

  lemma {:induction false} LinesAreClean(s: string)
    requires '\r' !in s
    ensures forall line <- Lines(s) :: Clean(line)
    decreases |s|
  {
    if s != "" {
      SplitOnceShortens(s, '\n');
      SplitOnceNone(s, '\n');
      if SplitOnce(s, '\n').Some? {
        var (line, rest) := SplitOnce(s, '\n').value;
        assert forall c <- line :: c in s;
        assert forall c <- rest :: c in s;
        LinesAreClean(rest);
      }
    }
  }

  lemma {:induction false} OnlyFirstLineIsEmpty(s: string)
    requires NoBlankLine(s)
    ensures forall k :: 1 <= k < |Lines(s)| ==> Lines(s)[k] != ""
    decreases |s|
  {
    if s != "" && SplitOnce(s, '\n').Some? {
      SplitOnceShortens(s, '\n');
      var (line, rest) := SplitOnce(s, '\n').value;
      if SplitText(rest, "\n\n").Some? {
        assert line + "\n" + rest + "" == s;
        FoundInPart(line + "\n", rest, "", "\n\n");
      }
      OnlyFirstLineIsEmpty(rest);
      if rest != "" {
        SplitOnceShortens(rest, '\n');
        if rest[0] == '\n' {
          assert line + "\n\n" + rest[1..] == s;
          FoundInPart(line, "\n\n", rest[1..], "\n\n");
        }
        assert Lines(rest)[0] != "";
      }
    }
  }

  lemma {:induction false} BlocksAreClosed(s: string)
    requires '\r' !in s
    ensures forall block <- Blocks(s) :: NoBlankLine(block) && '\r' !in block
    decreases |s|
  {
    SplitTextMeaning(s, "\n\n");
    if SplitText(s, "\n\n").Some? {
      var (block, rest) := SplitText(s, "\n\n").value;
      assert forall c <- block :: c in s;
      assert forall c <- rest :: c in s;
      BlocksAreClosed(rest);
    }
  }

  predicate WellFormedCue(c: Cue) {
    && Stamped(c.start) && !HasArrow(c.start) && Stamped(c.end) && Word(c.end)
    && (forall line <- c.body :: Row(line)) && Trim(Join(c.body)) != ""
  }

  lemma BlockCueIsWellFormed(block: string)
    requires NoBlankLine(block) && '\r' !in block && BlockCue(block).Some?
    ensures WellFormedCue(BlockCue(block).value)
  {
    var lines := Lines(block);
    var i := TimingIndex(lines);
    LinesAreClean(block);
    OnlyFirstLineIsEmpty(block);
    var (start, settings) := SplitText(lines[i], ARROW).value;
    SplitTextMeaning(lines[i], ARROW);
    assert lines[i] in lines;
    assert forall c <- start :: c in lines[i];
    assert forall c <- settings :: c in lines[i];
    FirstWordIsWord(settings);
    TimestampIsStamped(start);
    TimestampIsStamped(FirstWord(settings).value);
    forall line <- lines[i + 1..] ensures Row(line) {
      var k :| 0 <= k < |lines[i + 1..]| && lines[i + 1..][k] == line;
      assert line == lines[i + 1 + k];
    }
  }

  lemma {:induction false} UsableAreWellFormed(blocks: seq<string>)
    requires forall block <- blocks :: NoBlankLine(block) && '\r' !in block
    ensures forall c <- Usable(blocks) :: WellFormedCue(c)
  {
    if blocks != [] {
      assert blocks[0] in blocks;
      if BlockCue(blocks[0]).Some? { BlockCueIsWellFormed(blocks[0]); }
      UsableAreWellFormed(blocks[1..]);
    }
  }

  lemma CuesAreWellFormed(text: string)
    ensures forall c <- Cues(text) :: WellFormedCue(c)
  {
    UnifyRemovesReturns(SkipByteOrderMarks(text));
    BlocksAreClosed(Normalize(text));
    UsableAreWellFormed(Blocks(Normalize(text)));
  }

  // ----- reading back what was printed

  /** The lines of one printed cue. */
  function CueLines(n: nat, c: Cue): seq<string> {
    [ToDecimal(n), c.start + " --> " + c.end] + c.body
  }

  predicate Rows(lines: seq<string>) {
    lines != [] && forall line <- lines :: Row(line)
  }

  lemma CueTextJoins(n: nat, c: Cue)
    requires WellFormedCue(c)
    ensures c.body != [] && CueText(n, c) == Join(CueLines(n, c)) + "\n\n"
  {
    assert c.body != [] by {
      if c.body == [] { TrimBlank(Join(c.body)); }
    }
    var lines := CueLines(n, c);
    assert lines[1..] == [c.start + " --> " + c.end] + c.body && lines[1..][1..] == c.body;
    assert Join(lines) == lines[0] + "\n" + (lines[1] + "\n" + Join(c.body));
  }

  lemma CueLinesAreRows(n: nat, c: Cue)
    requires WellFormedCue(c)
    ensures Rows(CueLines(n, c)) && !HasArrow(ToDecimal(n))
  {
    ToDecimalValue(n);
    NoDashNoArrow(ToDecimal(n));
    assert Clean(c.start + " --> " + c.end);
  }

  lemma {:induction false} JoinEnds(lines: seq<string>)
    requires Rows(lines)
    ensures Join(lines) != "" && Join(lines)[|Join(lines)| - 1] != '\n' && Join(lines)[0] != '\n'
  {
    var line := lines[0];
    assert line in lines && line[0] in line && line[|line| - 1] in line;
    if |lines| > 1 {
      JoinEnds(lines[1..]);
    }
  }

  lemma FirstLine(line: string, rest: string)
    requires Clean(line)
    ensures Lines(line + "\n" + rest) == [line] + Lines(rest)
  {
    SplitOnceAt(line, '\n', rest);
  }

  lemma LoneLine(line: string)
    requires Row(line)
    ensures Lines(line) == [line]
  {
    SplitOnceNone(line, '\n');
  }

  lemma {:induction false} LinesOfJoin(lines: seq<string>)
    requires Rows(lines)
    ensures Lines(Join(lines)) == lines
  {
    assert lines[0] in lines;
    if |lines| == 1 {
      LoneLine(lines[0]);
      assert lines == [lines[0]];
    } else {
      assert lines == [lines[0]] + lines[1..];
      LinesOfJoin(lines[1..]);
      FirstLine(lines[0], Join(lines[1..]));
    }
  }

  lemma {:induction false} LinesOfJoined(lines: seq<string>, rest: string)
    requires Rows(lines)
    ensures Lines(Join(lines) + "\n\n" + rest) == lines + [""] + Lines(rest)
  {
    var line := lines[0];
    assert line in lines && lines == [line] + lines[1..];
    if |lines| == 1 {
      FirstLine("", rest);
      FirstLine(line, "" + "\n" + rest);
      assert Join(lines) + "\n\n" + rest == line + "\n" + ("" + "\n" + rest);
    } else {
      LinesOfJoined(lines[1..], rest);
      var tail := Join(lines[1..]);
      FirstLine(line, tail + "\n\n" + rest);
      assert Join(lines) + "\n\n" + rest == line + "\n" + (tail + "\n\n" + rest);
    }
  }

  lemma CleanTail(s: string)
    requires Clean(s) && s != ""
    ensures Clean(s[1..]) && s[0] != '\n'
  {
    assert s[0] in s && forall c <- s[1..] :: c in s;
  }

  lemma {:induction false} PrependRow(line: string, tail: string)
    requires Clean(line) && NoBlankLine(tail) && (tail != "" ==> tail[0] != '\n')
    ensures NoBlankLine(line + "\n" + tail)
  {
    var s := line + "\n" + tail;
    if line == "" {
      assert s[0] == '\n' && s[1..] == tail;
      assert |s| > 1 ==> s[1] != '\n';
      assert !("\n\n" <= s);
    } else {
      CleanTail(line);
      assert s[0] == line[0];
      assert s[1..] == line[1..] + "\n" + tail;
      PrependRow(line[1..], tail);
    }
  }

  lemma {:induction false} JoinedHasNoBlankLine(lines: seq<string>)
    requires Rows(lines)
    ensures NoBlankLine(Join(lines))
  {
    assert lines[0] in lines;
    if |lines| == 1 {
      CleanHasNoBlankLine(lines[0]);
    } else {
      JoinedHasNoBlankLine(lines[1..]);
      JoinEnds(lines[1..]);
      PrependRow(lines[0], Join(lines[1..]));
    }
  }

  lemma {:induction false} CleanHasNoBlankLine(s: string)
    requires Clean(s)
    ensures NoBlankLine(s)
  {
    if s != "" {
      CleanTail(s);
      CleanHasNoBlankLine(s[1..]);
    }
  }

  lemma {:induction false} SplitAtBlankLine(block: string, rest: string)
    requires NoBlankLine(block) && (block != "" ==> block[|block| - 1] != '\n')
    ensures SplitText(block + "\n\n" + rest, "\n\n") == Some((block, rest))
  {
    var s := block + "\n\n" + rest;
    if block == "" {
      assert "\n\n" <= s && s[2..] == rest;
    } else {
      assert s[1..] == block[1..] + "\n\n" + rest;
      assert !("\n\n" <= s) by {
        assert |block| == 1 ==> s[0] != '\n';
        assert |block| >= 2 ==> s[..2] == block[..2];
      }
      SplitAtBlankLine(block[1..], rest);
      assert [s[0]] + block[1..] == block;
    }
  }

  // ----- dotting

  lemma DottedKeepsRow(line: string)
    requires Row(line)
    ensures Row(Dotted(line)) && |Dotted(line)| == |line|
    ensures Dotted(line) == line <==> !(HasArrow(line) && ',' in line)
  {
    if HasArrow(line) {
      ReplaceKeepsClean(line, ',', '.');
      if ',' in line {
        var i :| 0 <= i < |line| && line[i] == ',';
        assert Dotted(line)[i] == '.';
      }
    }
  }

  lemma DottedKeepsRows(lines: seq<string>)
    requires Rows(lines)
    ensures Rows(DottedLines(lines))
  {
    forall line <- DottedLines(lines) ensures Row(line) {
      var i :| 0 <= i < |lines| && DottedLines(lines)[i] == line;
      assert lines[i] in lines;
      DottedKeepsRow(lines[i]);
    }
  }

  lemma {:induction false} JoinDotted(lines: seq<string>)
    requires forall line <- lines :: Row(line)
    ensures |Join(DottedLines(lines))| == |Join(lines)|
    ensures (forall c <- Join(DottedLines(lines)) :: IsWhitespace(c)) <==> (forall c <- Join(lines) :: IsWhitespace(c))
  {
    if lines != [] {
      assert lines[0] in lines;
      DottedKeepsRow(lines[0]);
      var dotted := DottedLines(lines);
      assert dotted[1..] == DottedLines(lines[1..]) && dotted[0] == Dotted(lines[0]);
      JoinDotted(lines[1..]);
      SpacesAreKept(lines[0]);
    }
  }

  lemma SpacesAreKept(line: string)
    ensures (forall c <- Dotted(line) :: IsWhitespace(c)) <==> (forall c <- line :: IsWhitespace(c))
  {
    assert forall i :: 0 <= i < |line| ==> line[i] in line && Dotted(line)[i] in Dotted(line);
    assert forall i :: 0 <= i < |line| ==> (IsWhitespace(Dotted(line)[i]) <==> IsWhitespace(line[i]));
  }

  // ----- round trip

  function DottedCue(c: Cue): Cue {
    c.(body := DottedLines(c.body))
  }

  function DottedCues(cues: seq<Cue>): seq<Cue> {
    if cues == [] then [] else [DottedCue(cues[0])] + DottedCues(cues[1..])
  }

  /** The WebVTT rendering of the same cues. */
  function RenderDotted(cues: seq<Cue>, n: nat): string {
    if cues == [] then "" else Join(DottedLines(CueLines(n, cues[0]))) + "\n\n" + RenderDotted(cues[1..], n + 1)
  }

  predicate AllWellFormed(cues: seq<Cue>) {
    forall c <- cues :: WellFormedCue(c)
  }

  lemma {:induction false} UnlinesOfRows(lines: seq<string>, more: seq<string>)
    requires lines != []
    ensures Unlines(lines + [""] + more) == Join(lines) + "\n\n" + Unlines(more)
  {
    var all := lines + [""] + more;
    if |lines| == 1 {
      assert all[1..] == [""] + more && ([""] + more)[1..] == more;
      assert Unlines([""] + more) == "" + "\n" + Unlines(more);
      assert Join(lines) + "\n" + ("\n" + Unlines(more)) == Join(lines) + "\n\n" + Unlines(more);
    } else {
      assert all[1..] == lines[1..] + [""] + more;
      UnlinesOfRows(lines[1..], more);
      assert lines[0] + "\n" + (Join(lines[1..]) + "\n\n" + Unlines(more)) == Join(lines) + "\n\n" + Unlines(more);
    }
  }

  lemma DottedLinesConcat(a: seq<string>, b: seq<string>)
    ensures DottedLines(a + [""] + b) == DottedLines(a) + [""] + DottedLines(b)
  {
  }

  lemma {:induction false} RenderedLinesDotted(cues: seq<Cue>, n: nat)
    requires AllWellFormed(cues)
    ensures Unlines(DottedLines(Lines(Render(cues, n)))) == RenderDotted(cues, n)
  {
    if cues != [] {
      var lines, rest := CueLines(n, cues[0]), Render(cues[1..], n + 1);
      CueTextJoins(n, cues[0]);
      CueLinesAreRows(n, cues[0]);
      LinesOfJoined(lines, rest);
      DottedLinesConcat(lines, Lines(rest));
      UnlinesOfRows(DottedLines(lines), DottedLines(Lines(rest)));
      RenderedLinesDotted(cues[1..], n + 1);
    }
  }

  lemma DottedBlockReadsBack(n: nat, c: Cue)
    requires WellFormedCue(c)
    ensures BlockCue(Join(DottedLines(CueLines(n, c)))) == Some(DottedCue(c))
  {
    var lines := DottedLines(CueLines(n, c));
    CueTextJoins(n, c);
    CueLinesAreRows(n, c);
    DottedKeepsRows(CueLines(n, c));
    LinesOfJoin(lines);
    assert lines[0] == ToDecimal(n);
    TimingLineReadsBack(c);
    assert lines[1] == DottedTiming(c);
    assert TimingIndex(lines) == 1;
    assert lines[2..] == DottedLines(c.body);
    JoinDotted(c.body);
    TrimBlank(Join(c.body));
    TrimBlank(Join(DottedLines(c.body)));
  }

  function DottedTiming(c: Cue): string {
    Dotted(c.start + " --> " + c.end)
  }

  lemma TimingLineReadsBack(c: Cue)
    requires WellFormedCue(c)
    ensures var split := SplitText(DottedTiming(c), ARROW);
            split.Some? && Timestamp(split.value.0) == c.start
            && FirstWord(split.value.1).Some? && Timestamp(FirstWord(split.value.1).value) == c.end
  {
    var start, end := Replace(c.start, ',', '.'), Replace(c.end, ',', '.');
    SplitAtOwnArrow(c.start, c.end);
    assert DottedTiming(c) == start + " --> " + end;
    ReplaceKeepsArrow(c.start, ',', '.');
    SplitAtOwnArrow(start, end);
    TimestampIsFixed(c.start);
    TimestampIsFixed(c.end);
    assert Word(end) by {
      forall ch <- end ensures !IsWhitespace(ch) {
        var i :| 0 <= i < |end| && end[i] == ch;
        assert c.end[i] in c.end;
      }
    }
    FirstWordAfterSpace(end);
  }

  lemma {:induction false} DottedCuesReadBack(cues: seq<Cue>, n: nat)
    requires AllWellFormed(cues)
    ensures Usable(Blocks(RenderDotted(cues, n))) == DottedCues(cues)
  {
    if cues == [] {
      assert Blocks("") == [""];
      assert Lines("") == [] && BlockCue("") == None;
    } else {
      var block, rest := Join(DottedLines(CueLines(n, cues[0]))), RenderDotted(cues[1..], n + 1);
      CueLinesAreRows(n, cues[0]);
      DottedKeepsRows(CueLines(n, cues[0]));
      JoinedHasNoBlankLine(DottedLines(CueLines(n, cues[0])));
      JoinEnds(DottedLines(CueLines(n, cues[0])));
      SplitAtBlankLine(block, rest);
      assert Blocks(block + "\n\n" + rest) == [block] + Blocks(rest);
      DottedBlockReadsBack(n, cues[0]);
      DottedCuesReadBack(cues[1..], n + 1);
    }
  }

  lemma JoinHasNoReturn(lines: seq<string>)
    requires forall line <- lines :: Clean(line)
    ensures '\r' !in Join(lines)
  {
    if lines != [] {
      assert lines[0] in lines;
      JoinHasNoReturn(lines[1..]);
    }
  }

  lemma CueTextIsNormal(n: nat, c: Cue)
    requires WellFormedCue(c)
    ensures '\r' !in CueText(n, c) && '\r' !in Join(DottedLines(CueLines(n, c))) + "\n\n"
    ensures CueText(n, c) != "" && IsDigit(CueText(n, c)[0])
  {
    CueTextJoins(n, c);
    CueLinesAreRows(n, c);
    DottedKeepsRows(CueLines(n, c));
    JoinHasNoReturn(CueLines(n, c));
    JoinHasNoReturn(DottedLines(CueLines(n, c)));
    ToDecimalValue(n);
    assert CueText(n, c)[0] == ToDecimal(n)[0] && ToDecimal(n)[0] in ToDecimal(n);
  }

  lemma {:induction false} RenderIsNormal(cues: seq<Cue>, n: nat)
    requires AllWellFormed(cues)
    ensures '\r' !in Render(cues, n) && '\r' !in RenderDotted(cues, n)
    ensures cues != [] ==> Render(cues, n) != "" && IsDigit(Render(cues, n)[0])
  {
    if cues != [] {
      CueTextIsNormal(n, cues[0]);
      RenderIsNormal(cues[1..], n + 1);
    }
  }

  lemma {:induction false} DottedCuesCount(cues: seq<Cue>)
    ensures |DottedCues(cues)| == |cues|
  {
    if cues != [] {
      DottedCuesCount(cues[1..]);
    }
  }

  lemma RoundTripDotsCues(cues: seq<Cue>)
    requires cues != [] && AllWellFormed(cues)
    ensures WebVttToSrt(SrtToWebVtt(Render(cues, 1))) == Success(Render(DottedCues(cues), 1))
  {
    var srt, dotted := Render(cues, 1), RenderDotted(cues, 1);
    var vtt := "WEBVTT" + "\n\n" + dotted;
    RenderIsNormal(cues, 1);
    NormalizedIsFixed(srt);
    RenderedLinesDotted(cues, 1);
    assert SrtToWebVtt(srt) == vtt;
    assert vtt[0] == 'W';
    NormalizedIsFixed(vtt);
    CleanHasNoBlankLine("WEBVTT");
    SplitAtBlankLine("WEBVTT", dotted);
    assert Blocks(vtt) == ["WEBVTT"] + Blocks(dotted);
    HeaderIsNoCue();
    DottedCuesReadBack(cues, 1);
    DottedCuesCount(cues);
    assert (["WEBVTT"] + Blocks(dotted))[1..] == Blocks(dotted);
  }

  lemma HeaderIsNoCue()
    ensures BlockCue("WEBVTT") == None
  {
    LoneLine("WEBVTT");
    NoDashNoArrow("WEBVTT");
    assert ["WEBVTT"][1..] == [];
  }

  // ----- when the round trip is exact

  /** The converter to WebVTT rewrites every line with an arrow, cue text included. */
  predicate KeepsText(c: Cue) {
    forall line <- c.body :: !(HasArrow(line) && ',' in line)
  }

  lemma DottedCueSame(c: Cue)
    requires WellFormedCue(c)
    ensures DottedCue(c) == c <==> KeepsText(c)
  {
    forall i | 0 <= i < |c.body|
      ensures DottedLines(c.body)[i] == c.body[i] <==> !(HasArrow(c.body[i]) && ',' in c.body[i])
    {
      assert c.body[i] in c.body;
      DottedKeepsRow(c.body[i]);
    }
    if DottedCue(c) == c {
      forall line <- c.body ensures !(HasArrow(line) && ',' in line) {
        var i :| 0 <= i < |c.body| && c.body[i] == line;
        assert DottedLines(c.body)[i] == c.body[i];
      }
    }
  }

  /** Equal texts of equally long parts have equal parts. */
  lemma SplitEqual(a: string, b: string, a': string, b': string)
    requires |a| == |a'| && a + b == a' + b'
    ensures a == a' && b == b'
  {
    assert a == (a + b)[..|a|] && b == (a + b)[|a|..] && a' == (a' + b')[..|a|] && b' == (a' + b')[|a|..];
  }

  lemma CueTextDeterminesBody(n: nat, c: Cue)
    requires WellFormedCue(c)
    ensures |CueText(n, DottedCue(c))| == |CueText(n, c)|
    ensures CueText(n, DottedCue(c)) == CueText(n, c) ==> DottedCue(c) == c
  {
    CueTextJoins(n, c);
    JoinDotted(c.body);
    DottedKeepsRows(c.body);
    var head, dotted := ToDecimal(n) + "\n" + c.start + " --> " + c.end + "\n", DottedLines(c.body);
    assert CueText(n, c) == head + (Join(c.body) + "\n\n");
    assert CueText(n, DottedCue(c)) == head + (Join(dotted) + "\n\n");
    if CueText(n, DottedCue(c)) == CueText(n, c) {
      SplitEqual(head, Join(dotted) + "\n\n", head, Join(c.body) + "\n\n");
      SplitEqual(Join(dotted), "\n\n", Join(c.body), "\n\n");
      LinesOfJoin(dotted);
      LinesOfJoin(c.body);
    }
  }

  lemma {:induction false} RenderDottedSame(cues: seq<Cue>, n: nat)
    requires AllWellFormed(cues)
    ensures Render(DottedCues(cues), n) == Render(cues, n) <==> forall c <- cues :: KeepsText(c)
  {
    if cues != [] {
      var c, rest := cues[0], cues[1..];
      RenderDottedSame(rest, n + 1);
      CueTextDeterminesBody(n, c);
      DottedCueSame(c);
      assert cues == [c] + rest && DottedCues(cues)[1..] == DottedCues(rest);
      if Render(DottedCues(cues), n) == Render(cues, n) {
        SplitEqual(CueText(n, DottedCue(c)), Render(DottedCues(rest), n + 1), CueText(n, c), Render(rest, n + 1));
      }
    }
  }

  /** SRT and WebVTT conversion undo each other: a converted document survives the trip to WebVTT and
      back exactly when no cue line holds both an arrow and a comma. */
  lemma ConversionsUndoEachOther(text: string)
    requires WebVttToSrt(text).Success?
    ensures var srt := WebVttToSrt(text).value;
            && srt == Render(Cues(text), 1)
            && (WebVttToSrt(SrtToWebVtt(srt)) == Success(srt) <==> forall c <- Cues(text) :: KeepsText(c))
  {
    CuesAreWellFormed(text);
    RoundTripDotsCues(Cues(text));
    RenderDottedSame(Cues(text), 1);
  }

  /** A text of one block whose first line is the timing reads as one cue. */
  lemma OneCue(text: string, timing: string, line: string, start: string, settings: string, end: string)
    requires Normalize(text) == text && NoBlankLine(text) && Lines(text) == [timing, line]
    requires SplitText(timing, ARROW) == Some((start, settings)) && FirstWord(settings) == Some(end) && Trim(line) != ""
    ensures Cues(text) == [Cue(Timestamp(start), Timestamp(end), [line])]
  {
    assert Lines(text)[1..] == [line] && Join([line]) == line;
    var cue := Cue(Timestamp(start), Timestamp(end), [line]);
    assert TimingIndex(Lines(text)) == 0;
    assert BlockCue(text) == Some(cue);
    assert Blocks(text) == [text] && [text][1..] == [];
    assert Usable([]) == [] && [cue] + [] == [cue];
    assert Usable([text]) == [cue];
  }

  lemma OneCueText(timing: string, line: string)
    requires Row(timing) && Row(line) && timing[0] != '\U{FEFF}'
    ensures var text := timing + "\n" + line;
            Normalize(text) == text && NoBlankLine(text) && Lines(text) == [timing, line]
  {
    var lines := [timing, line];
    assert lines[1..] == [line] && Join([line]) == line && Join(lines) == timing + "\n" + line;
    NormalizedIsFixed(timing + "\n" + line);
    JoinedHasNoBlankLine(lines);
    LinesOfJoin(lines);
  }

  lemma ArrowedLine(a: string, b: string)
    requires Word(a) && '-' !in a
    ensures SplitText(a + " --> " + b, ARROW) == Some((a + " ", " " + b)) && Trim(a + " --> " + b) != ""
  {
    NoDashNoArrow(a);
    SplitAtOwnArrow(a, b);
    TrimBlank(a + " --> " + b);
    assert a[0] in a && (a + " --> " + b)[0] == a[0] && (a + " --> " + b)[0] in a + " --> " + b;
  }

  lemma ArrowRow(a: string, b: string)
    requires Word(a) && Word(b)
    ensures Row(a + " --> " + b) && (a + " --> " + b)[0] == a[0]
  {
  }

  /** Every cue line with an arrow and a comma comes back changed. */
  lemma ArrowedCommaIsLost(start: string, end: string, a: string, b: string)
    requires Word(start) && '-' !in start && start[0] != '\U{FEFF}' && Word(end)
    requires Word(a) && '-' !in a && ',' in a && Word(b)
    ensures var r := WebVttToSrt(start + " --> " + end + "\n" + (a + " --> " + b));
            r.Success? && WebVttToSrt(SrtToWebVtt(r.value)) != Success(r.value)
  {
    var timing, line := start + " --> " + end, a + " --> " + b;
    ArrowRow(start, end);
    ArrowRow(a, b);
    ArrowedLine(start, end);
    ArrowedLine(a, b);
    FirstWordAfterSpace(end);
    assert ',' in line;
    ArrowedCommaLine(timing, line, start + " ", " " + end, end);
  }

  lemma ArrowedCommaExample(text: string)
    requires text == "00:01 --> 00:02\na, --> b"
    ensures WebVttToSrt(text).Success?
    ensures WebVttToSrt(SrtToWebVtt(WebVttToSrt(text).value)) != WebVttToSrt(text)
  {
    var start, end, a, b := text[..5], text[10..15], text[16..18], text[23..];
    assert start == "00:01" && end == "00:02" && a == "a," && b == "b";
    assert start + " --> " + end + "\n" + (a + " --> " + b) == text;
    ArrowedCommaIsLost(start, end, a, b);
  }

  lemma ArrowedCommaLine(timing: string, line: string, start: string, settings: string, end: string)
    requires Row(timing) && Row(line) && timing[0] != '\U{FEFF}' && Trim(line) != ""
    requires SplitText(timing, ARROW) == Some((start, settings)) && FirstWord(settings) == Some(end)
    requires HasArrow(line) && ',' in line
    ensures var r := WebVttToSrt(timing + "\n" + line);
            r.Success? && WebVttToSrt(SrtToWebVtt(r.value)) != Success(r.value)
  {
    var text := timing + "\n" + line;
    OneCueText(timing, line);
    OneCue(text, timing, line, start, settings, end);
    OneCueLosesComma(text, Cue(Timestamp(start), Timestamp(end), [line]), line);
  }

  lemma OneCueLosesComma(text: string, cue: Cue, line: string)
    requires Cues(text) == [cue] && line in cue.body && HasArrow(line) && ',' in line
    ensures var r := WebVttToSrt(text);
            r.Success? && WebVttToSrt(SrtToWebVtt(r.value)) != Success(r.value)
  {
    ConversionsUndoEachOther(text);
    assert cue in Cues(text) && !KeepsText(cue);
  }

  // ----- documents as they are written

  /** The text with another line ending. */
  function Reended(s: string, ending: string): string {
    if s == "" then "" else (if s[0] == '\n' then ending else [s[0]]) + Reended(s[1..], ending)
  }

  lemma {:induction false} UnifyUndoesReending(s: string, ending: string)
    requires '\r' !in s && (ending == "\r\n" || ending == "\r")
    ensures UnifyNewlines(Reended(s, ending)) == s
    ensures s != "" ==> Reended(s, ending) != "" && Reended(s, ending)[0] != '\n'
  {
    if s != "" {
      assert s == [s[0]] + s[1..];
      UnifyUndoesReending(s[1..], ending);
      var rest, whole := Reended(s[1..], ending), Reended(s, ending);
      if s[0] == '\n' {
        assert whole[0] == '\r';
        assert whole[|ending|..] == rest;
        assert ending == "\r" ==> whole[1..] == rest;
        assert ending == "\r\n" ==> whole[1] == '\n' && whole[2..] == rest;
      } else {
        assert whole[0] == s[0] && whole[1..] == rest;
      }
    }
  }

  lemma {:induction false} MarksBeforeReending(s: string, ending: string)
    requires ending == "\r\n" || ending == "\r"
    ensures SkipByteOrderMarks(Reended(s, ending)) == Reended(SkipByteOrderMarks(s), ending)
  {
    if s != "" {
      var whole := Reended(s, ending);
      if s[0] == '\U{FEFF}' {
        assert whole[0] == s[0] && whole[1..] == Reended(s[1..], ending);
        MarksBeforeReending(s[1..], ending);
      } else {
        assert whole[0] != '\U{FEFF}';
      }
    }
  }

  lemma {:induction false} MarksAreSkipped(s: string)
    requires '\r' !in s
    ensures '\r' !in SkipByteOrderMarks(s)
  {
    if s != "" {
      assert s == [s[0]] + s[1..];
      MarksAreSkipped(s[1..]);
    }
  }

  /** A text, its CRLF form and its CR form convert alike in both directions, with or without a mark. */
  lemma LineEndingsDoNotMatter(text: string, ending: string)
    requires '\r' !in text && (ending == "\r\n" || ending == "\r")
    ensures SrtToWebVtt(Reended(text, ending)) == SrtToWebVtt(text)
    ensures WebVttToSrt(Reended(text, ending)) == WebVttToSrt(text)
    ensures SrtToWebVtt("\U{FEFF}" + text) == SrtToWebVtt(text)
    ensures WebVttToSrt("\U{FEFF}" + text) == WebVttToSrt(text)
  {
    MarksAreSkipped(text);
    MarksBeforeReending(text, ending);
    UnifyUndoesReending(SkipByteOrderMarks(text), ending);
    UnifyRemovesReturns(SkipByteOrderMarks(text));
    assert ("\U{FEFF}" + text)[1..] == text;
  }

  lemma {:induction false} LinesOfUnlines(lines: seq<string>)
    requires forall line <- lines :: Clean(line)
    ensures Lines(Unlines(lines)) == lines && '\r' !in Unlines(lines)
  {
    if lines != [] {
      assert lines[0] in lines;
      LinesOfUnlines(lines[1..]);
      FirstLine(lines[0], Unlines(lines[1..]));
      assert lines == [lines[0]] + lines[1..];
    }
  }

  /** SubRip lines come out in order, commas dotted on the timing lines only. */
  lemma SrtLinesAreKept(lines: seq<string>)
    requires forall line <- lines :: Clean(line)
    requires lines != [] && lines[0] != "" ==> lines[0][0] != '\U{FEFF}'
    ensures SrtToWebVtt(Unlines(lines)) == "WEBVTT\n\n" + Unlines(DottedLines(lines))
  {
    LinesOfUnlines(lines);
    NormalizedIsFixed(Unlines(lines));
  }

  /** A block of a WebVTT document: a header or comment, or a caption with an optional name line before
      its timing line and cue settings after its end time. */
  datatype Block =
    | Note(lines: seq<string>)
    | Caption(name: seq<string>, start: string, end: string, settings: string, body: seq<string>)

  function BlockLines(b: Block): seq<string> {
    match b
    case Note(lines) => lines
    case Caption(name, start, end, settings, body) => name + [start + " --> " + end + settings] + body
  }

  predicate WrittenBlock(b: Block) {
    match b
    case Note(lines) => Rows(lines) && forall line <- lines :: !HasArrow(line)
    case Caption(name, start, end, settings, body) =>
      && |name| <= 1 && (forall line <- name :: Row(line) && !HasArrow(line))
      && Trimmed(start) && Clean(start) && !HasArrow(start) && Word(end)
      && Clean(settings) && (settings != "" ==> IsWhitespace(settings[0]))
      && Rows(body) && Trim(Join(body)) != ""
  }

  function Document(blocks: seq<Block>): string {
    if blocks == [] then "" else Join(BlockLines(blocks[0])) + "\n\n" + Document(blocks[1..])
  }

  function Captions(blocks: seq<Block>): seq<Cue> {
    if blocks == [] then []
    else
      match blocks[0]
      case Note(_) => Captions(blocks[1..])
      case Caption(_, start, end, _, body) =>
        [Cue(Timestamp(start), Timestamp(end), body)] + Captions(blocks[1..])
  }

  lemma {:induction false} WordBeforeSettings(end: string, settings: string)
    requires (forall c <- end :: !IsWhitespace(c)) && (settings != "" ==> IsWhitespace(settings[0]))
    ensures UntilSpace(end + settings) == end
  {
    var s := end + settings;
    if end == "" {
      assert s == settings;
    } else {
      assert end[0] in end && s[0] == end[0] && s[1..] == end[1..] + settings;
      WordBeforeSettings(end[1..], settings);
      assert [end[0]] + end[1..] == end;
    }
  }

  lemma EndIsFirstWord(end: string, settings: string)
    requires Word(end) && (settings != "" ==> IsWhitespace(settings[0]))
    ensures FirstWord(" " + (end + settings)) == Some(end)
  {
    var s, t := end + settings, " " + (end + settings);
    assert end[0] in end && s[0] == end[0];
    assert IsWhitespace(t[0]) && t[1..] == s;
    assert TrimStart(t) == TrimStart(s) == s;
    WordBeforeSettings(end, settings);
  }

  lemma TrailingSpaceIsTrimmed(s: string)
    requires Trimmed(s)
    ensures Timestamp(s + " ") == Timestamp(s)
  {
    TrimSpaceAfter(s);
    TrimmedIsFixed(s);
  }

  lemma BlockLinesAreRows(b: Block)
    requires WrittenBlock(b)
    ensures Rows(BlockLines(b))
  {
    if b.Caption? {
      var timing := b.start + " --> " + (b.end + b.settings);
      assert b.start + " --> " + b.end + b.settings == timing;
      forall c <- timing ensures c != '\n' && c != '\r' {
        assert c in b.start || c in " --> " || c in b.end || c in b.settings;
      }
    }
  }

  lemma {:induction false} NotesHaveNoTiming(lines: seq<string>)
    requires forall line <- lines :: !HasArrow(line)
    ensures TimingIndex(lines) == |lines|
  {
    if lines != [] {
      assert lines[0] in lines;
      NotesHaveNoTiming(lines[1..]);
    }
  }

  lemma TimingAfterName(name: seq<string>, timing: string, body: seq<string>)
    requires |name| <= 1 && (forall line <- name :: !HasArrow(line)) && HasArrow(timing)
    ensures var lines := name + [timing] + body;
            TimingIndex(lines) == |name| && lines[|name|] == timing && lines[|name| + 1..] == body
  {
    var lines := name + [timing] + body;
    if name != [] {
      assert name[0] in name && lines[0] == name[0] && lines[1..] == [timing] + body;
    }
  }

  lemma CaptionReadsBack(b: Block)
    requires WrittenBlock(b) && b.Caption?
    ensures BlockCue(Join(BlockLines(b))) == Some(Cue(Timestamp(b.start), Timestamp(b.end), b.body))
  {
    BlockLinesAreRows(b);
    LinesOfJoin(BlockLines(b));
    var timing := b.start + " --> " + b.end + b.settings;
    assert timing == b.start + " --> " + (b.end + b.settings);
    SplitAtOwnArrow(b.start, b.end + b.settings);
    TimingAfterName(b.name, timing, b.body);
    EndIsFirstWord(b.end, b.settings);
    TrailingSpaceIsTrimmed(b.start);
  }

  lemma NoteIsNoCue(b: Block)
    requires WrittenBlock(b) && b.Note?
    ensures BlockCue(Join(BlockLines(b))) == None
  {
    LinesOfJoin(b.lines);
    NotesHaveNoTiming(b.lines);
  }

  lemma {:induction false} DocumentReadsBack(blocks: seq<Block>)
    requires forall b <- blocks :: WrittenBlock(b)
    ensures Usable(Blocks(Document(blocks))) == Captions(blocks)
  {
    if blocks == [] {
      assert Blocks("") == [""];
      assert Lines("") == [] && BlockCue("") == None;
    } else {
      var b, rest := blocks[0], Document(blocks[1..]);
      var text := Join(BlockLines(b));
      assert b in blocks;
      BlockLinesAreRows(b);
      JoinedHasNoBlankLine(BlockLines(b));
      JoinEnds(BlockLines(b));
      SplitAtBlankLine(text, rest);
      assert Blocks(text + "\n\n" + rest) == [text] + Blocks(rest);
      assert ([text] + Blocks(rest))[1..] == Blocks(rest);
      DocumentReadsBack(blocks[1..]);
      if b.Caption? {
        CaptionReadsBack(b);
      } else {
        NoteIsNoCue(b);
      }
    }
  }

  lemma {:induction false} DocumentIsNormal(blocks: seq<Block>)
    requires forall b <- blocks :: WrittenBlock(b)
    ensures '\r' !in Document(blocks)
  {
    if blocks != [] {
      assert blocks[0] in blocks;
      BlockLinesAreRows(blocks[0]);
      JoinHasNoReturn(BlockLines(blocks[0]));
      DocumentIsNormal(blocks[1..]);
    }
  }

  /** A written document converts to exactly its captions, in order and numbered from one: names, cue
      settings, the header and comments are dropped. */
  lemma WrittenCaptionsConvert(blocks: seq<Block>)
    requires forall b <- blocks :: WrittenBlock(b)
    requires Document(blocks) != "" ==> Document(blocks)[0] != '\U{FEFF}'
    ensures WebVttToSrt(Document(blocks))
            == if Captions(blocks) == [] then Failure(NoCues) else Success(Render(Captions(blocks), 1))
  {
    DocumentIsNormal(blocks);
    NormalizedIsFixed(Document(blocks));
    DocumentReadsBack(blocks);
  }

  lemma {:induction false} NoneCounted(s: string, c: char)
    requires c !in s
    ensures Count(s, c) == 0
  {
    if s != "" {
      assert s == [s[0]] + s[1..];
      NoneCounted(s[1..], c);
    }
  }

  lemma ColonsCounted(a: string, b: string)
    requires ':' !in a
    ensures Count(a + ":" + b, ':') == 1 + Count(b, ':')
  {
    assert a + ":" + b == a + (":" + b) && (":" + b)[1..] == b;
    NoneCounted(a, ':');
    CountConcat(a, ":" + b, ':');
  }

  predicate Digits(s: string) {
    s != "" && AllDigits(s)
  }

  lemma DigitsAreWords(s: string)
    requires Digits(s)
    ensures ':' !in s && '.' !in s && !IsWhitespace(s[0]) && !IsWhitespace(s[|s| - 1])
  {
    assert s[0] in s && s[|s| - 1] in s;
  }

  lemma DotIsReplaced(before: string, after: string)
    requires '.' !in before && '.' !in after
    ensures Replace(before + "." + after, '.', ',') == before + "," + after
  {
    var whole := before + "." + after;
    forall i | 0 <= i < |whole| ensures Replace(whole, '.', ',')[i] == (before + "," + after)[i] {
      assert i < |before| ==> whole[i] == before[i] && before[i] in before;
      assert i > |before| ==> whole[i] == after[i - |before| - 1] && whole[i] in after;
    }
  }

  /** Minutes and seconds get an hour field, full times keep theirs, and the fraction's dot becomes a comma. */
  lemma TimesConvert(h: string, m: string, s: string, f: string)
    requires Digits(h) && Digits(m) && Digits(s) && Digits(f)
    ensures Timestamp(m + ":" + s + "." + f) == "00:" + (m + ":" + s + "," + f)
    ensures Timestamp(h + ":" + (m + ":" + s + "." + f)) == h + ":" + (m + ":" + s + "," + f)
  {
    ShortTimeConverts(m, s, f);
    LongTimeConverts(h, m, s, f);
  }

  lemma TimeIsTrimmed(first: string, middle: string, last: string)
    requires Digits(first) && Digits(last)
    ensures Trim(first + middle + last) == first + middle + last
  {
    DigitsAreWords(first);
    DigitsAreWords(last);
    var value := first + middle + last;
    assert value[0] == first[0] && value[|value| - 1] == last[|last| - 1];
    TrimmedIsFixed(value);
  }

  lemma OneColon(m: string, s: string, f: string)
    requires Digits(m) && Digits(s) && Digits(f)
    ensures Count(m + ":" + s + "," + f, ':') == 1
  {
    DigitsAreWords(m);
    DigitsAreWords(s);
    DigitsAreWords(f);
    assert m + ":" + s + "," + f == m + ":" + (s + "," + f);
    ColonsCounted(m, s + "," + f);
    NoneCounted(s + "," + f, ':');
  }

  lemma ShortTimeConverts(m: string, s: string, f: string)
    requires Digits(m) && Digits(s) && Digits(f)
    ensures Timestamp(m + ":" + s + "." + f) == "00:" + (m + ":" + s + "," + f)
  {
    TimeIsTrimmed(m, ":" + s + ".", f);
    assert m + (":" + s + ".") + f == m + ":" + s + "." + f;
    DigitsAreWords(m);
    NoDots(m + ":" + s, m, s);
    DigitsAreWords(f);
    DotIsReplaced(m + ":" + s, f);
    OneColon(m, s, f);
  }

  lemma NoDots(both: string, a: string, b: string)
    requires both == a + ":" + b && '.' !in a && Digits(b)
    ensures '.' !in both
  {
    DigitsAreWords(b);
  }

  lemma LongTimeConverts(h: string, m: string, s: string, f: string)
    requires Digits(h) && Digits(m) && Digits(s) && Digits(f)
    ensures Timestamp(h + ":" + (m + ":" + s + "." + f)) == h + ":" + (m + ":" + s + "," + f)
  {
    var front := h + ":" + m + ":" + s;
    TimeIsTrimmed(h, ":" + (m + ":" + s + "."), f);
    DigitsAreWords(h);
    NoDots(h + ":" + m, h, m);
    NoDots(front, h + ":" + m, s);
    DigitsAreWords(f);
    DotIsReplaced(front, f);
    LongTimeForm(h, m, s, f, '.');
    LongTimeForm(h, m, s, f, ',');
    OneColon(m, s, f);
    ColonsCounted(h, m + ":" + s + "," + f);
  }

  lemma LongTimeForm(h: string, m: string, s: string, f: string, c: char)
    ensures h + ":" + (m + ":" + s + [c] + f) == h + ":" + m + ":" + s + [c] + f
    ensures h + (":" + (m + ":" + s + [c])) + f == h + ":" + m + ":" + s + [c] + f
  {
  }
}
