/** The HLS playlist rewriter of the repair proxy: every resource line and every quoted `URI`
    attribute becomes a local URL that the proxy can route back. URL joining and the resource hash
    are parameters; the hash is injective and prints as lower-case hexadecimal. */
module PlaylistRewrite {
  import opened Wrappers
  import opened Text
  import opened Decimal

  /** What a playlist is rewritten under: the proxy's port, the playlist's token, the URL it was
      fetched from (inside `join`), and the resource hash. */
  datatype Site = Site(port: nat, token: string, join: string -> Option<string>, hash: string -> string)

  predicate HexDigit(c: char) {
    '0' <= c <= '9' || 'a' <= c <= 'f'
  }

  predicate IsHex(s: string) {
    s != "" && forall c <- s :: HexDigit(c)
  }

  ghost predicate Usable(site: Site) {
    && IsHex(site.token)
    && (forall url :: IsHex(site.hash(url)))
    && (forall a, b :: site.hash(a) == site.hash(b) ==> a == b)
  }

  function RoutePath(token: string, resource: string): string {
    "/hls/" + token + "/" + resource
  }

  function LocalUrl(port: nat, token: string, resource: string): string {
    "http://127.0.0.1:" + ToDecimal(port) + RoutePath(token, resource)
  }

  // ----- pieces of a playlist

  /** A playlist is text kept as it is and references to resolve. */
  datatype Piece = Keep(text: string) | Uri(value: string)

  const MARKER := "URI=\""

  function Find(s: string, pattern: string): (r: Option<nat>)
    ensures r.Some? ==> r.value + |pattern| <= |s|
  {
    if pattern <= s then Some(0)
    else if s == "" then None
    else
      match Find(s[1..], pattern)
      case None => None
      case Some(n) => Some(n + 1)
  }

  /** A tag line, split at its quoted `URI` values. */
  function Pieces(line: string): seq<Piece>
    decreases |line|
  {
    match Find(line, MARKER)
    case None => [Keep(line)]
    case Some(start) =>
      var rest := line[start + 5..];
      match Find(rest, "\"")
      case None => [Keep(line)]
      case Some(n) => [Keep(line[..start + 5]), Uri(rest[..n])] + Pieces(rest[n..])
  }

  /** The first line, with its `\n`. */
  function NextLine(text: string): (line: string)
    ensures line <= text && (text != "" ==> line != "")
  {
    match Find(text, "\n")
    case None => text
    case Some(n) => text[..n + 1]
  }

  function Ending(line: string): string {
    if |line| >= 2 && line[|line| - 2] == '\r' && line[|line| - 1] == '\n' then "\r\n"
    else if |line| >= 1 && line[|line| - 1] == '\n' then "\n"
    else ""
  }

  predicate LineBreak(c: char) {
    c == '\r' || c == '\n'
  }

  function Content(line: string): string {
    if line != "" && LineBreak(line[|line| - 1]) then Content(line[..|line| - 1]) else line
  }

  function ContentPieces(content: string): seq<Piece> {
    if content != "" && content[0] == '#' then Pieces(content)
    else if Trim(content) == "" then [Keep(content)]
    else [Uri(Trim(content))]
  }

  function LinePieces(line: string): seq<Piece> {
    ContentPieces(Content(line)) + [Keep(Ending(line))]
  }

  function TextLines(text: string): seq<seq<Piece>>
    decreases |text|
  {
    if text == "" then [] else [LinePieces(NextLine(text))] + TextLines(text[|NextLine(text)|..])
  }

  function Flatten(lines: seq<seq<Piece>>): seq<Piece> {
    if lines == [] then [] else lines[0] + Flatten(lines[1..])
  }

  function TextPieces(text: string): seq<Piece> {
    Flatten(TextLines(text))
  }

  function SpellPiece(p: Piece): string {
    match p
    case Keep(text) => text
    case Uri(value) => value
  }

  function Spell(pieces: seq<Piece>): string {
    if pieces == [] then "" else SpellPiece(pieces[0]) + Spell(pieces[1..])
  }

  // ----- resolving

  function Local(site: Site, value: string): string {
    LocalUrl(site.port, site.token, site.hash(site.join(value).GetOr("")))
  }

  function LocalizePiece(site: Site, p: Piece): Piece {
    if p.Uri? then Uri(Local(site, p.value)) else p
  }

  function Localize(site: Site, pieces: seq<Piece>): (r: seq<Piece>)
    ensures |r| == |pieces|
  {
    if pieces == [] then [] else [LocalizePiece(site, pieces[0])] + Localize(site, pieces[1..])
  }

  predicate Resolves(site: Site, p: Piece) {
    p.Uri? ==> site.join(p.value).Some?
  }

  predicate AllResolve(site: Site, pieces: seq<Piece>) {
    forall p <- pieces :: Resolves(site, p)
  }

  function RecordOne(site: Site, table: map<string, string>, p: Piece): map<string, string>
    requires Resolves(site, p)
  {
    match p
    case Keep(_) => table
    case Uri(value) => table[site.hash(site.join(value).value) := site.join(value).value]
  }

  /** The resource table once the references of `pieces` are registered, up to the first failure. */
  function Record(site: Site, table: map<string, string>, pieces: seq<Piece>): map<string, string>
    decreases |pieces|
  {
    if pieces == [] || !Resolves(site, pieces[0]) then table
    else Record(site, RecordOne(site, table, pieces[0]), pieces[1..])
  }

  lemma {:induction false} SpellAppend(a: seq<Piece>, b: seq<Piece>)
    ensures Spell(a + b) == Spell(a) + Spell(b)
  {
    if a == [] {
      assert a + b == b;
    } else {
      assert (a + b)[1..] == a[1..] + b;
      SpellAppend(a[1..], b);
    }
  }

  lemma {:induction false} LocalizeAppend(site: Site, a: seq<Piece>, b: seq<Piece>)
    ensures Localize(site, a + b) == Localize(site, a) + Localize(site, b)
  {
    if a == [] {
      assert a + b == b;
    } else {
      assert (a + b)[1..] == a[1..] + b;
      LocalizeAppend(site, a[1..], b);
    }
  }

  lemma {:induction false} RecordAppend(site: Site, table: map<string, string>, a: seq<Piece>, b: seq<Piece>)
    ensures Record(site, table, a + b) == if AllResolve(site, a) then Record(site, Record(site, table, a), b)
        else Record(site, table, a)
    decreases |a|
  {
    if a == [] {
      assert a + b == b;
    } else {
      assert (a + b)[1..] == a[1..] + b;
      assert AllResolve(site, a) <==> Resolves(site, a[0]) && AllResolve(site, a[1..]) by {
        assert a == [a[0]] + a[1..];
      }
      if Resolves(site, a[0]) {
        RecordAppend(site, RecordOne(site, table, a[0]), a[1..], b);
      }
    }
  }

  /** The rewriter's result, as a function of the pieces. */
  function Rewritten(site: Site, pieces: seq<Piece>): Option<string> {
    if AllResolve(site, pieces) then Some(Spell(Localize(site, pieces))) else None
  }

  function Then(a: Option<string>, b: Option<string>): Option<string> {
    if a.None? || b.None? then None else Some(a.value + b.value)
  }

  lemma RewrittenAppend(site: Site, a: seq<Piece>, b: seq<Piece>)
    ensures Rewritten(site, a + b) == Then(Rewritten(site, a), Rewritten(site, b))
  {
    LocalizeAppend(site, a, b);
    SpellAppend(Localize(site, a), Localize(site, b));
    assert AllResolve(site, a + b) <==> AllResolve(site, a) && AllResolve(site, b);
  }

  /** What a rewriting loop keeps: `output` and `table` are what the pieces `done` give. */
  ghost predicate Progress(site: Site, table0: map<string, string>, done: seq<Piece>, output: string,
                           table: map<string, string>) {
    Rewritten(site, done) == Some(output) && table == Record(site, table0, done)
  }

  lemma StepProgress(site: Site, table0: map<string, string>, done: seq<Piece>, output: string,
                     table: map<string, string>, step: seq<Piece>)
    requires Progress(site, table0, done, output, table)
    ensures Rewritten(site, step).Some? ==>
      Progress(site, table0, done + step, output + Rewritten(site, step).value, Record(site, table, step))
  {
    RewrittenAppend(site, done, step);
    RecordAppend(site, table0, done, step);
  }

  /** A failing step ends the rewriting: the rest is not registered. */
  lemma StopProgress(site: Site, table0: map<string, string>, done: seq<Piece>, output: string,
                     table: map<string, string>, step: seq<Piece>, tail: seq<Piece>)
    requires Progress(site, table0, done, output, table) && Rewritten(site, step).None?
    ensures Rewritten(site, done + (step + tail)).None?
        && Record(site, table0, done + (step + tail)) == Record(site, table, step)
  {
    RewrittenAppend(site, done, step + tail);
    RewrittenAppend(site, step, tail);
    RecordAppend(site, table0, done, step + tail);
    RecordAppend(site, table, step, tail);
  }

  lemma OneUri(site: Site, table: map<string, string>, before: string, value: string)
    ensures Rewritten(site, [Uri(value)]) == if site.join(value).Some? then Some(Local(site, value)) else None
    ensures Rewritten(site, [Keep(before), Uri(value)]) == Then(Some(before), Rewritten(site, [Uri(value)]))
    ensures Record(site, table, [Keep(before), Uri(value)]) == Record(site, table, [Uri(value)])
  {
    assert [Keep(before), Uri(value)] == [Keep(before)] + [Uri(value)];
    OneKeep(site, table, before);
    RewrittenAppend(site, [Keep(before)], [Uri(value)]);
    RecordAppend(site, table, [Keep(before)], [Uri(value)]);
    assert Resolves(site, Uri(value)) <==> AllResolve(site, [Uri(value)]);
    assert Localize(site, [Uri(value)]) == [Uri(Local(site, value))];
    SpellOne(Uri(Local(site, value)));
  }

  lemma OneKeep(site: Site, table: map<string, string>, text: string)
    ensures Rewritten(site, [Keep(text)]) == Some(text) && Record(site, table, [Keep(text)]) == table
  {
    assert AllResolve(site, [Keep(text)]);
    assert Localize(site, [Keep(text)]) == [Keep(text)];
    SpellOne(Keep(text));
  }

  lemma SpellOne(p: Piece)
    ensures Spell([p]) == SpellPiece(p)
  {
    assert [p][1..] == [];
    assert SpellPiece(p) + "" == SpellPiece(p);
  }

  lemma EndLine(site: Site, table: map<string, string>, pieces: seq<Piece>, ending: string)
    ensures Rewritten(site, pieces + [Keep(ending)]) == Then(Rewritten(site, pieces), Some(ending))
    ensures Record(site, table, pieces + [Keep(ending)]) == Record(site, table, pieces)
  {
    RewrittenAppend(site, pieces, [Keep(ending)]);
    RecordAppend(site, table, pieces, [Keep(ending)]);
    OneKeep(site, table, ending);
    OneKeep(site, Record(site, table, pieces), ending);
  }

  lemma Regrouped(a: seq<Piece>, b: seq<Piece>, c: seq<Piece>)
    ensures a + (b + c) == (a + b) + c
  {
  }

  lemma PiecesFound(line: string, start: nat, end: nat)
    requires Find(line, MARKER) == Some(start) && Find(line[start + 5..], "\"") == Some(end)
    ensures Pieces(line)
            == [Keep(line[..start + 5]), Uri(line[start + 5..][..end])] + Pieces(line[start + 5..][end..])
  {
  }

  /** One turn of the attribute loop: a quoted value, and what is left from its closing quote. */
  lemma TagStep(site: Site, line: string, table0: map<string, string>, done: seq<Piece>, output: string,
                table: map<string, string>, remaining: string, start: nat, end: nat)
    requires Progress(site, table0, done, output, table) && Pieces(line) == done + Pieces(remaining)
    requires Find(remaining, MARKER) == Some(start) && Find(remaining[start + 5..], "\"") == Some(end)
    ensures var before, rest := remaining[..start + 5], remaining[start + 5..];
            var value, next := rest[..end], rest[end..];
            var step, local := [Keep(before), Uri(value)], Rewritten(site, [Uri(value)]);
            var after := Record(site, table, [Uri(value)]);
            && |next| < |remaining| && Pieces(line) == (done + step) + Pieces(next)
            && if local.Some? then Progress(site, table0, done + step, output + (before + local.value), after)
               else Rewritten(site, Pieces(line)).None? && Record(site, table0, Pieces(line)) == after
  {
    var before, value, next := remaining[..start + 5], remaining[start + 5..][..end], remaining[start + 5..][end..];
    var step := [Keep(before), Uri(value)];
    PiecesFound(remaining, start, end);
    Regrouped(done, step, Pieces(next));
    OneUri(site, table, before, value);
    StepProgress(site, table0, done, output, table, step);
    if Rewritten(site, step).None? {
      StopProgress(site, table0, done, output, table, step, Pieces(next));
    }
  }

  lemma TextUnfolds(text: string)
    requires text != ""
    ensures TextPieces(text) == LinePieces(NextLine(text)) + TextPieces(text[|NextLine(text)|..])
  {
    var lines := TextLines(text);
    assert lines[1..] == TextLines(text[|NextLine(text)|..]);
  }

  // ----- local URLs

  predicate UrlChar(c: char) {
    '0' <= c <= '9' || 'a' <= c <= 'z' || c == ':' || c == '/' || c == '.'
  }

  lemma LocalIsPlain(site: Site, value: string)
    requires Usable(site)
    ensures Local(site, value) != "" && Local(site, value)[0] == 'h' && forall c <- Local(site, value) :: UrlChar(c)
  {
    ToDecimalValue(site.port);
    var resource := site.hash(site.join(value).GetOr(""));
    assert IsHex(resource) && IsHex(site.token);
    var (scheme, port) := ("http://127.0.0.1:", ToDecimal(site.port));
    assert forall c <- scheme :: UrlChar(c);
    assert forall c <- port :: IsDigit(c);
    assert forall c <- "/hls/" :: UrlChar(c);
    assert forall c <- RoutePath(site.token, resource) :: UrlChar(c);
  }

  /** No reference text can hide a quote, a line break or padding in a local URL. */
  lemma LocalIsQuotable(site: Site, value: string)
    requires Usable(site)
    ensures var local := Local(site, value); '"' !in local && '\n' !in local && '\r' !in local && Trim(local) == local
  {
    LocalIsPlain(site, value);
    var local := Local(site, value);
    assert local[|local| - 1] in local;
    assert Trimmed(local);
    TrimmedIsFixed(local);
  }

  // ----- rewriting keeps the skeleton of a tag

  function Out(site: Site, line: string): string {
    Spell(Localize(site, Pieces(line)))
  }

  lemma PrefixCarries(s: string, t: string, pattern: string, m: nat)
    requires |pattern| <= m <= |s| && m <= |t| && t[..m] == s[..m]
    ensures pattern <= t <==> pattern <= s
  {
    assert t[..|pattern|] == t[..m][..|pattern|] && s[..|pattern|] == s[..m][..|pattern|];
  }

  lemma StartsWithChar(s: string, c: char)
    requires s != ""
    ensures [c] <= s <==> s[0] == c
  {
    assert s[0] == c ==> [c] == s[..1];
  }

  lemma {:induction false} FindStable(s: string, t: string, pattern: string, n: nat)
    requires Find(s, pattern) == Some(n) && n + |pattern| <= |t| && t[..n + |pattern|] == s[..n + |pattern|]
    ensures Find(t, pattern) == Some(n)
    decreases n
  {
    if n == 0 {
      PrefixCarries(s, t, pattern, |pattern|);
    } else {
      PrefixCarries(s, t, pattern, n + |pattern|);
      assert t[1..][..n - 1 + |pattern|] == t[..n + |pattern|][1..] == s[1..][..n - 1 + |pattern|];
      FindStable(s[1..], t[1..], pattern, n - 1);
    }
  }

  lemma {:induction false} FindChar(u: string, c: char, r: string)
    requires c !in u && r != "" && r[0] == c
    ensures Find(u + r, [c]) == Some(|u|)
  {
    if u == "" {
      assert u + r == r && [c] == r[..1];
    } else {
      assert u[0] in u && (u + r)[1..] == u[1..] + r;
      StartsWithChar(u + r, c);
      FindChar(u[1..], c, r);
    }
  }

  lemma {:induction false} FoundFirst(s: string, c: char)
    ensures match Find(s, [c]) case None => c !in s case Some(n) => c !in s[..n] && s[n] == c
  {
    if s != "" && s[0] != c {
      FoundFirst(s[1..], c);
      var found := Find(s[1..], [c]);
      assert s == [s[0]] + s[1..];
      if found.Some? {
        assert s[..found.value + 1] == [s[0]] + s[1..][..found.value];
      }
    } else if s != "" {
      assert [c] == s[..1];
    }
  }

  /** The next quoted value of a tag line: the text up to it, and what is left from its closing quote. */
  lemma Split(line: string) returns (found: bool, before: string, value: string, next: string)
    ensures !found ==> Pieces(line) == [Keep(line)]
    ensures found ==> Pieces(line) == [Keep(before), Uri(value)] + Pieces(next)
    ensures found ==>
      && line == before + value + next && |next| < |line| && next != "" && next[0] == '"' && '"' !in value
      && |before| >= 5 && Find(line, MARKER) == Some(|before| - 5)
  {
    found, before, value, next := false, "", "", "";
    var start := Find(line, MARKER);
    if start.Some? {
      var rest := line[start.value + 5..];
      var end := Find(rest, "\"");
      if end.Some? {
        FoundFirst(rest, '"');
        PiecesFound(line, start.value, end.value);
        Reassemble(line, start.value + 5, end.value);
        found, before, value, next := true, line[..start.value + 5], rest[..end.value], rest[end.value..];
      }
    }
  }

  lemma Reassemble(line: string, m: nat, n: nat)
    requires m + n <= |line|
    ensures line == line[..m] + line[m..][..n] + line[m..][n..]
  {
  }

  lemma OutKeep(site: Site, line: string)
    requires Pieces(line) == [Keep(line)]
    ensures Out(site, line) == line
  {
    assert Localize(site, [Keep(line)]) == [Keep(line)];
    SpellOne(Keep(line));
  }

  lemma OutStep(site: Site, line: string, before: string, value: string, next: string)
    requires Pieces(line) == [Keep(before), Uri(value)] + Pieces(next)
    ensures Localize(site, Pieces(line)) == [Keep(before), Uri(Local(site, value))] + Localize(site, Pieces(next))
    ensures Out(site, line) == before + (Local(site, value) + Out(site, next))
  {
    LocalizeAppend(site, [Keep(before), Uri(value)], Pieces(next));
    assert Localize(site, [Keep(before), Uri(value)]) == [Keep(before), Uri(Local(site, value))];
    SpellAppend([Keep(before), Uri(Local(site, value))], Localize(site, Pieces(next)));
    assert [Keep(before), Uri(Local(site, value))] == [Keep(before)] + [Uri(Local(site, value))];
    SpellAppend([Keep(before)], [Uri(Local(site, value))]);
    SpellOne(Keep(before));
    SpellOne(Uri(Local(site, value)));
  }

  /** A rewritten line starts and ends as before and gains no line break. */
  lemma {:induction false} OutKeepsEnds(site: Site, line: string)
    requires Usable(site) && line != ""
    ensures Out(site, line) != "" && Out(site, line)[0] == line[0]
    ensures Out(site, line)[|Out(site, line)| - 1] == line[|line| - 1]
    ensures '\n' !in line ==> '\n' !in Out(site, line)
    decreases |line|
  {
    var found, before, value, next := Split(line);
    if !found {
      OutKeep(site, line);
    } else {
      OutStep(site, line, before, value, next);
      OutKeepsEnds(site, next);
      LocalIsQuotable(site, value);
      EndsOf(before, value, next);
      EndsOf(before, Local(site, value), Out(site, next));
    }
  }

  lemma EndsOf(a: string, b: string, c: string)
    requires a != "" && c != ""
    ensures (a + b + c)[0] == a[0] && (a + b + c)[|a + b + c| - 1] == c[|c| - 1] && a + b + c == a + (b + c)
    ensures forall x <- a + b + c :: x in a || x in b || x in c
    ensures forall x: char :: (x in a ==> x in a + b + c) && (x in c ==> x in a + b + c)
  {
  }

  lemma PiecesOf(before: string, value: string, next: string)
    requires |before| >= 5 && Find(before + (value + next), MARKER) == Some(|before| - 5)
    requires '"' !in value && next != "" && next[0] == '"'
    ensures Pieces(before + (value + next)) == [Keep(before), Uri(value)] + Pieces(next)
  {
    var line := before + (value + next);
    assert line[|before|..] == value + next && line[..|before|] == before;
    FindChar(value, '"', next);
    assert (value + next)[..|value|] == value && (value + next)[|value|..] == next;
  }

  /** Reading a rewritten tag again finds the same skeleton: every kept byte, every quote, and a local
      URL in place of each reference. */
  lemma {:induction false} TagKeepsSkeleton(site: Site, line: string)
    requires Usable(site)
    ensures Pieces(Out(site, line)) == Localize(site, Pieces(line))
    decreases |line|
  {
    var found, before, value, next := Split(line);
    if !found {
      OutKeep(site, line);
      assert Localize(site, [Keep(line)]) == [Keep(line)];
    } else {
      OutStep(site, line, before, value, next);
      TagKeepsSkeleton(site, next);
      OutKeepsEnds(site, next);
      LocalIsQuotable(site, value);
      var out := Out(site, line);
      assert out[..|before|] == before && line[..|before|] == before;
      FindStable(line, out, MARKER, |before| - 5);
      PiecesOf(before, Local(site, value), Out(site, next));
    }
  }

  // ----- lines

  predicate IsEnding(s: string) {
    s == "" || s == "\n" || s == "\r\n"
  }

  lemma ContentDropsBreak(body: string, c: char)
    requires LineBreak(c)
    ensures Content(body + [c]) == Content(body)
  {
    assert (body + [c])[..|body|] == body;
  }

  lemma ContentOfBody(body: string, ending: string)
    requires IsEnding(ending)
    ensures Content(body + ending) == Content(body)
  {
    if ending == "" {
      assert body + ending == body;
    } else if ending == "\n" {
      ContentDropsBreak(body, '\n');
    } else {
      ContentDropsBreak(body, '\r');
      ContentDropsBreak(body + ['\r'], '\n');
      assert body + ending == body + ['\r'] + ['\n'];
    }
  }

  lemma EndingOf(content: string, ending: string)
    requires IsEnding(ending) && (content == "" || !LineBreak(content[|content| - 1]))
    ensures Ending(content + ending) == ending
  {
  }

  lemma ContentAndEnding(content: string, ending: string)
    requires IsEnding(ending) && (content == "" || !LineBreak(content[|content| - 1]))
    ensures Content(content + ending) == content && Ending(content + ending) == ending
  {
    ContentOfBody(content, ending);
    EndingOf(content, ending);
  }

  lemma {:induction false} ContentEnds(line: string)
    ensures Content(line) <= line && (Content(line) == "" || !LineBreak(Content(line)[|Content(line)| - 1]))
    ensures Content(line) == "" <==> forall c <- line :: LineBreak(c)
  {
    if line != "" && LineBreak(line[|line| - 1]) {
      ContentEnds(line[..|line| - 1]);
      assert line == line[..|line| - 1] + [line[|line| - 1]];
    } else if line != "" {
      assert line[|line| - 1] in line;
    }
  }

  function OutContent(site: Site, content: string): string {
    Spell(Localize(site, ContentPieces(content)))
  }

  /** Each kind of content is rewritten to content of the same kind. */
  lemma ContentKeepsSkeleton(site: Site, content: string)
    requires Usable(site) && (content == "" || !LineBreak(content[|content| - 1])) && '\n' !in content
    ensures var out := OutContent(site, content);
            && ContentPieces(out) == Localize(site, ContentPieces(content))
            && (out == "" <==> content == "") && (out == "" || !LineBreak(out[|out| - 1])) && '\n' !in out
  {
    if content != "" && content[0] == '#' {
      OutKeepsEnds(site, content);
      TagKeepsSkeleton(site, content);
    } else if Trim(content) == "" {
      assert Localize(site, [Keep(content)]) == [Keep(content)];
      SpellOne(Keep(content));
    } else {
      LocalIsPlain(site, Trim(content));
      LocalIsQuotable(site, Trim(content));
      var local := Local(site, Trim(content));
      assert Localize(site, [Uri(Trim(content))]) == [Uri(local)];
      SpellOne(Uri(local));
      assert local[|local| - 1] in local;
    }
  }

  /** The rewritten text of one line. */
  function OutLine(site: Site, line: string): string {
    OutContent(site, Content(line)) + Ending(line)
  }

  lemma OutLineIs(site: Site, line: string)
    ensures Spell(Localize(site, LinePieces(line))) == OutLine(site, line)
    ensures Localize(site, LinePieces(line)) == Localize(site, ContentPieces(Content(line))) + [Keep(Ending(line))]
  {
    LocalizeAppend(site, ContentPieces(Content(line)), [Keep(Ending(line))]);
    assert Localize(site, [Keep(Ending(line))]) == [Keep(Ending(line))];
    SpellAppend(Localize(site, ContentPieces(Content(line))), [Keep(Ending(line))]);
    SpellOne(Keep(Ending(line)));
  }

  /** A line as `split_inclusive` yields it. */
  predicate IsLine(line: string) {
    line != "" && '\n' !in line[..|line| - 1]
  }

  lemma NextLineIsLine(text: string)
    requires text != ""
    ensures IsLine(NextLine(text)) && (NextLine(text)[|NextLine(text)| - 1] != '\n' ==> NextLine(text) == text)
  {
    FoundFirst(text, '\n');
    var line := NextLine(text);
    if Find(text, "\n").None? {
      assert forall c <- line[..|line| - 1] :: c in line;
    } else {
      assert line[..|line| - 1] == text[..Find(text, "\n").value];
    }
  }

  lemma NextLineOf(line: string, rest: string)
    requires IsLine(line) && (rest != "" ==> line[|line| - 1] == '\n')
    ensures NextLine(line + rest) == line && (line + rest)[|line|..] == rest
  {
    var body := line[..|line| - 1];
    assert line == body + [line[|line| - 1]];
    FoundFirst(line + rest, '\n');
    if line[|line| - 1] == '\n' {
      assert line + rest == body + ("\n" + rest);
      FindChar(body, '\n', "\n" + rest);
      assert (line + rest)[..|line|] == line;
    } else {
      assert line + rest == line;
    }
  }

  lemma LineKeepsSkeleton(site: Site, line: string)
    requires Usable(site) && IsLine(line)
    ensures var out := OutLine(site, line);
            && LinePieces(out) == Localize(site, LinePieces(line))
            && (out != "" ==> IsLine(out)) && (out == "" <==> Content(line) == "" && line[|line| - 1] != '\n')
            && (line[|line| - 1] == '\n' <==> out != "" && out[|out| - 1] == '\n')
  {
    ContentEnds(line);
    ContentHasNoBreak(line);
    var out, ending := OutContent(site, Content(line)), Ending(line);
    ContentKeepsSkeleton(site, Content(line));
    OutLinePieces(site, line, out);
    OutLineIsLine(out, ending);
    EndingTells(line);
  }

  lemma OutLinePieces(site: Site, line: string, out: string)
    requires out == "" || !LineBreak(out[|out| - 1])
    requires ContentPieces(out) == Localize(site, ContentPieces(Content(line)))
    ensures LinePieces(out + Ending(line)) == Localize(site, LinePieces(line))
  {
    ContentAndEnding(out, Ending(line));
    OutLineIs(site, line);
  }

  lemma EndingTells(line: string)
    requires line != ""
    ensures Ending(line) != "" <==> line[|line| - 1] == '\n'
  {
  }

  lemma ContentHasNoBreak(line: string)
    requires IsLine(line)
    ensures '\n' !in Content(line)
  {
    ContentEnds(line);
    var content := Content(line);
    forall i | 0 <= i < |content| ensures content[i] != '\n' {
      if i < |line| - 1 {
        assert content[i] == line[i] == line[..|line| - 1][i];
      }
    }
  }

  lemma OutLineIsLine(content: string, ending: string)
    requires IsEnding(ending) && '\n' !in content
    ensures content + ending != "" ==> IsLine(content + ending)
    ensures content + ending == "" <==> content == "" && ending == ""
    ensures ending != "" <==> content + ending != "" && (content + ending)[|content + ending| - 1] == '\n'
  {
    var out := content + ending;
    forall i | 0 <= i < |out| - 1 ensures out[i] != '\n' {
      assert i < |content| ==> out[i] == content[i] && content[i] in content;
    }
  }

  // ----- whole playlists

  function OutText(site: Site, text: string): string {
    Spell(Localize(site, TextPieces(text)))
  }

  function LocalizeLines(site: Site, lines: seq<seq<Piece>>): (r: seq<seq<Piece>>)
    ensures |r| == |lines|
  {
    if lines == [] then [] else [Localize(site, lines[0])] + LocalizeLines(site, lines[1..])
  }

  lemma OutTextUnfolds(site: Site, text: string)
    requires text != ""
    ensures OutText(site, text) == OutLine(site, NextLine(text)) + OutText(site, text[|NextLine(text)|..])
    ensures LocalizeLines(site, TextLines(text))
            == [Localize(site, LinePieces(NextLine(text)))] + LocalizeLines(site, TextLines(text[|NextLine(text)|..]))
  {
    var line, rest := NextLine(text), text[|NextLine(text)|..];
    TextUnfolds(text);
    LocalizeAppend(site, LinePieces(line), TextPieces(rest));
    SpellAppend(Localize(site, LinePieces(line)), Localize(site, TextPieces(rest)));
    OutLineIs(site, line);
    assert TextLines(text)[1..] == TextLines(rest);
  }

  /** The text ends in an unterminated line made of carriage returns only. */
  predicate EndsInBareReturns(text: string)
    decreases |text|
  {
    text != ""
    && var line := NextLine(text);
       if line == text then (forall c <- line :: c == '\r') else EndsInBareReturns(text[|line|..])
  }

  lemma BareReturnsContent(line: string)
    requires IsLine(line)
    ensures (Content(line) == "" && line[|line| - 1] != '\n') <==> (forall c <- line :: c == '\r')
  {
    ContentEnds(line);
    assert line[|line| - 1] in line;
    assert line == line[..|line| - 1] + [line[|line| - 1]];
  }

  /** `after` are the lines of `before`, localized, less the last one if `dropped`. */
  predicate SameLines(site: Site, before: seq<seq<Piece>>, after: seq<seq<Piece>>, dropped: bool) {
    var lines := LocalizeLines(site, before);
    if dropped then |lines| > 0 && after == lines[..|lines| - 1] else after == lines
  }

  lemma SameLinesCons(site: Site, before: seq<seq<Piece>>, after: seq<seq<Piece>>, dropped: bool, line: seq<Piece>)
    requires SameLines(site, before, after, dropped)
    ensures SameLines(site, [line] + before, [Localize(site, line)] + after, dropped)
  {
    assert ([line] + before)[1..] == before;
    var lines := LocalizeLines(site, before);
    assert dropped ==> ([Localize(site, line)] + lines)[..|lines|] == [Localize(site, line)] + lines[..|lines| - 1];
  }

  lemma LastLineSkeleton(site: Site, text: string)
    requires Usable(site) && text != "" && NextLine(text) == text
    ensures SameLines(site, TextLines(text), TextLines(OutLine(site, text)), EndsInBareReturns(text))
  {
    NextLineIsLine(text);
    LineKeepsSkeleton(site, text);
    BareReturnsContent(text);
    var out := OutLine(site, text);
    assert TextLines(text) == [LinePieces(text)];
    if out != "" {
      NextLineOf(out, "");
      assert out + "" == out;
      SameLinesCons(site, [], [], false, LinePieces(text));
    }
  }

  lemma ConsSkeleton(site: Site, text: string, outRest: string)
    requires Usable(site) && text != "" && NextLine(text) != text
    requires SameLines(site, TextLines(text[|NextLine(text)|..]), TextLines(outRest), EndsInBareReturns(text))
    ensures SameLines(site, TextLines(text), TextLines(OutLine(site, NextLine(text)) + outRest),
                      EndsInBareReturns(text))
  {
    var line := NextLine(text);
    NextLineIsLine(text);
    LineKeepsSkeleton(site, line);
    NextLineOf(OutLine(site, line), outRest);
    SameLinesCons(site, TextLines(text[|line|..]), TextLines(outRest), EndsInBareReturns(text), LinePieces(line));
  }

  /** Reading a rewritten playlist again finds the same lines with the same endings and the same kept
      bytes, with local URLs for references; only a last line of nothing but `\r` disappears. */
  lemma {:induction false} RewriteKeepsSkeleton(site: Site, text: string)
    requires Usable(site)
    ensures SameLines(site, TextLines(text), TextLines(OutText(site, text)), EndsInBareReturns(text))
    decreases |text|
  {
    if text != "" {
      var rest := text[|NextLine(text)|..];
      OutTextUnfolds(site, text);
      if NextLine(text) == text {
        assert OutText(site, rest) == "" && OutText(site, text) == OutLine(site, text);
        LastLineSkeleton(site, text);
      } else {
        RewriteKeepsSkeleton(site, rest);
        ConsSkeleton(site, text, OutText(site, rest));
      }
    }
  }

  lemma LineCountKeptIff(site: Site, text: string)
    requires Usable(site)
    ensures |TextLines(OutText(site, text))| == |TextLines(text)| <==> !EndsInBareReturns(text)
  {
    RewriteKeepsSkeleton(site, text);
  }

  /** A last line of one carriage return disappears. */
  lemma BareReturnDropsLine(site: Site)
    requires Usable(site)
    ensures |TextLines("#EXTM3U\n\r")| == 2 && |TextLines(OutText(site, "#EXTM3U\n\r"))| == 1
  {
    var text := "#EXTM3U\n\r";
    NextLineOf("#EXTM3U\n", "\r");
    NextLineOf("\r", "");
    assert text == "#EXTM3U\n" + "\r" && "\r" + "" == "\r";
    assert TextLines("\r") == [LinePieces("\r")] + TextLines("");
    RewriteKeepsSkeleton(site, text);
  }

  // ----- bytes outside references

  lemma {:induction false} SpellPieces(line: string)
    ensures Spell(Pieces(line)) == line
    decreases |line|
  {
    var found, before, value, next := Split(line);
    if !found {
      SpellOne(Keep(line));
    } else {
      SpellPieces(next);
      SpellAppend([Keep(before), Uri(value)], Pieces(next));
      assert [Keep(before), Uri(value)] == [Keep(before)] + [Uri(value)];
      SpellAppend([Keep(before)], [Uri(value)]);
      SpellOne(Keep(before));
      SpellOne(Uri(value));
    }
  }

  /** A carriage return in front of the line's ending, which the rewriter drops. */
  predicate SpareReturn(line: string) {
    var end := |line| - |Ending(line)|;
    end > 0 && line[end - 1] == '\r'
  }

  /** A resource line with white space around its reference. */
  predicate Padded(line: string) {
    var content := Content(line);
    content != "" && content[0] != '#' && Trim(content) != "" && Trim(content) != content
  }

  lemma TrimShrinks(s: string)
    ensures |Trim(s)| < |s| || Trim(s) == s
  {
    var before, after := TrimIsPart(s);
    assert |before| + |after| == 0 ==> s == Trim(s);
  }

  lemma SplitEnding(line: string) returns (body: string)
    requires IsLine(line)
    ensures line == body + Ending(line) && (body == "" || body[|body| - 1] != '\n') && IsEnding(Ending(line))
    ensures SpareReturn(line) <==> body != "" && body[|body| - 1] == '\r'
  {
    var end := |line| - |Ending(line)|;
    body := line[..end];
    assert 0 < end < |line| ==> line[end - 1] in line[..|line| - 1];
  }

  lemma SpareReturnIff(line: string)
    requires IsLine(line)
    ensures |Content(line)| + |Ending(line)| <= |line|
    ensures Content(line) + Ending(line) == line <==> !SpareReturn(line)
    ensures |Content(line)| + |Ending(line)| == |line| <==> !SpareReturn(line)
  {
    var body := SplitEnding(line);
    ContentOfBody(body, Ending(line));
    ContentEnds(body);
    assert SpareReturn(line) ==> Content(body) != body;
  }

  /** A line comes back byte for byte, its references aside, exactly if it has no spare return and no
      padding; otherwise it comes back shorter. */
  lemma LineSpelledIff(line: string)
    requires IsLine(line)
    ensures var spelled := Spell(LinePieces(line));
            (spelled == line <==> !SpareReturn(line) && !Padded(line)) && (spelled == line || |spelled| < |line|)
  {
    var content, ending := Content(line), Ending(line);
    SpellAppend(ContentPieces(content), [Keep(ending)]);
    SpellOne(Keep(ending));
    SpellPieces(content);
    SpellOne(Keep(content));
    SpellOne(Uri(Trim(content)));
    TrimShrinks(content);
    ContentEnds(line);
    SpareReturnIff(line);
    assert Spell(ContentPieces(content)) == if Padded(line) then Trim(content) else content;
  }

  predicate LinesKept(text: string)
    decreases |text|
  {
    text == "" || (!SpareReturn(NextLine(text)) && !Padded(NextLine(text)) && LinesKept(text[|NextLine(text)|..]))
  }

  lemma Concatenated(a: string, b: string, a': string, b': string)
    requires |a'| < |a| || a' == a
    requires |b'| < |b| || b' == b
    ensures a' + b' == a + b <==> a' == a && b' == b
    ensures |a' + b'| < |a + b| || a' + b' == a + b
  {
    if a' + b' == a + b {
      assert |a'| == |a| && |b'| == |b|;
    }
  }

  /** The pieces spell the playlist they were read from, so every byte outside references is copied,
      exactly if no line has a spare `\r` before its ending and no reference line is padded. */
  lemma {:induction false} BytesKeptIff(text: string)
    ensures Spell(TextPieces(text)) == text <==> LinesKept(text)
    ensures Spell(TextPieces(text)) == text || |Spell(TextPieces(text))| < |text|
    decreases |text|
  {
    if text != "" {
      var line, rest := NextLine(text), text[|NextLine(text)|..];
      assert text == line + rest;
      TextUnfolds(text);
      SpellAppend(LinePieces(line), TextPieces(rest));
      NextLineIsLine(text);
      LineSpelledIff(line);
      BytesKeptIff(rest);
      Concatenated(line, rest, Spell(LinePieces(line)), Spell(TextPieces(rest)));
    }
  }

  lemma PaddedReference(content: string)
    requires content != "" && content[0] != '#' && !LineBreak(content[|content| - 1]) && '\n' !in content
    requires Trim(content) != "" && Trim(content) != content
    ensures Padded(content + "\n") && Spell(TextPieces(content + "\n")) != content + "\n"
  {
    var text := content + "\n";
    NextLineOf(text, "");
    assert text + "" == text && text[..|text| - 1] == content;
    ContentAndEnding(content, "\n");
    BytesKeptIff(text);
  }

  /** The space in front of a reference is not copied. */
  lemma PaddingIsDropped()
    ensures Spell(TextPieces(" seg.ts\n")) != " seg.ts\n"
  {
    var content := " seg.ts";
    assert content[1..] == "seg.ts" && TrimStart("seg.ts") == "seg.ts" && TrimStart(content) == "seg.ts";
    PaddedReference(content);
    assert content + "\n" == " seg.ts\n";
  }

  // ----- routing local URLs back

  function TrimSlashes(s: string): string {
    if s != "" && s[0] == '/' then TrimSlashes(s[1..]) else s
  }

  function SplitOn(s: string, c: char): seq<string>
    decreases |s|
  {
    match Find(s, [c])
    case None => [s]
    case Some(n) => [s[..n]] + SplitOn(s[n + 1..], c)
  }

  function ParseRoute(path: string): Option<(string, string)> {
    var bare := match Find(path, "?") { case None => path case Some(n) => path[..n] };
    var parts := SplitOn(TrimSlashes(bare), '/');
    if |parts| == 3 && parts[0] == "hls" && parts[1] != "" && parts[2] != "" then Some((parts[1], parts[2])) else None
  }

  lemma NotFound(s: string, c: char)
    requires c !in s
    ensures Find(s, [c]) == None
  {
    FoundFirst(s, c);
  }

  lemma SplitOnFirst(a: string, c: char, b: string)
    requires c !in a
    ensures SplitOn(a + ([c] + b), c) == [a] + SplitOn(b, c)
  {
    var s := a + ([c] + b);
    FindChar(a, c, [c] + b);
    assert s[..|a|] == a && s[|a| + 1..] == b;
  }

  lemma HexIsPlain(s: string)
    requires IsHex(s)
    ensures '/' !in s && '?' !in s
  {
  }

  lemma RouteParts(token: string, resource: string)
    requires '/' !in token && '/' !in resource
    ensures SplitOn("hls" + (['/'] + (token + (['/'] + resource))), '/') == ["hls", token, resource]
  {
    SplitOnFirst("hls", '/', token + (['/'] + resource));
    SplitOnFirst(token, '/', resource);
    NotFound(resource, '/');
  }

  lemma RoutePathIs(token: string, resource: string)
    requires '?' !in token && '?' !in resource
    ensures '?' !in RoutePath(token, resource)
    ensures TrimSlashes(RoutePath(token, resource)) == "hls" + (['/'] + (token + (['/'] + resource)))
  {
    var tail := "hls" + (['/'] + (token + (['/'] + resource)));
    assert RoutePath(token, resource) == ['/'] + tail;
    assert (['/'] + tail)[1..] == tail;
    assert forall c <- RoutePath(token, resource) :: c == '/' || c in "hls" || c in token || c in resource;
  }

  /** Every local URL's path is accepted and names its playlist and resource. */
  lemma RouteReadsBack(token: string, resource: string)
    requires IsHex(token) && IsHex(resource)
    ensures ParseRoute(RoutePath(token, resource)) == Some((token, resource))
  {
    HexIsPlain(token);
    HexIsPlain(resource);
    RoutePathIs(token, resource);
    NotFound(RoutePath(token, resource), '?');
    RouteParts(token, resource);
  }

  /** Hash-shaped names only ever stand for the URL they are the hash of. */
  ghost predicate Faithful(site: Site, table: map<string, string>) {
    forall url :: site.hash(url) in table ==> table[site.hash(url)] == url
  }

  lemma NewPlaylistIsFaithful(site: Site, name: string, upstream: string)
    requires Usable(site) && !IsHex(name)
    ensures Faithful(site, map[name := upstream])
  {
    assert forall url :: IsHex(site.hash(url));
  }

  /** Registering never changes what an earlier local URL stands for. */
  lemma {:induction false} RecordKeepsFaithful(site: Site, table: map<string, string>, pieces: seq<Piece>)
    requires Usable(site) && Faithful(site, table)
    ensures var after := Record(site, table, pieces);
            && Faithful(site, after)
            && (forall id <- table :: id in after)
            && (AllResolve(site, pieces) ==>
                  forall p <- pieces :: p.Uri? ==> site.hash(site.join(p.value).value) in after)
    decreases |pieces|
  {
    if pieces != [] && Resolves(site, pieces[0]) {
      assert pieces == [pieces[0]] + pieces[1..];
      RecordKeepsFaithful(site, RecordOne(site, table, pieces[0]), pieces[1..]);
    }
  }

  /** The round trip: when a playlist is rewritten, each reference `u` in it becomes a local URL whose
      path routes to an entry of this playlist, and that entry is the upstream URL `u` stood for. */
  lemma LocalUrlsResolve(site: Site, table: map<string, string>, text: string, u: string)
    requires Usable(site) && Faithful(site, table) && Rewritten(site, TextPieces(text)).Some?
        && Uri(u) in TextPieces(text)
    ensures site.join(u).Some?
    ensures var (id, after) := (site.hash(site.join(u).value), Record(site, table, TextPieces(text)));
            && Local(site, u) == "http://127.0.0.1:" + ToDecimal(site.port) + RoutePath(site.token, id)
            && ParseRoute(RoutePath(site.token, id)) == Some((site.token, id))
            && id in after && after[id] == site.join(u).value
  {
    assert Resolves(site, Uri(u));
    RecordKeepsFaithful(site, table, TextPieces(text));
    RouteReadsBack(site.token, site.hash(site.join(u).value));
  }

  // ----- the rewriter

  class Playlist {
    var resources: map<string, string>
    const site: Site

    constructor (site: Site, name: string, upstream: string)
      ensures this.site == site && resources == map[name := upstream]
    {
      this.site := site;
      resources := map[name := upstream];
    }

    method RegisterResource(value: string) returns (r: Option<string>)
      modifies this
      ensures r == Rewritten(site, [Uri(value)])
      ensures resources == Record(site, old(resources), [Uri(value)])
    {
      OneUri(site, resources, "", value);
      var resolved := site.join(value);
      if resolved.None? {
        return None;
      }
      resources := resources[site.hash(resolved.value) := resolved.value];
      r := Some(LocalUrl(site.port, site.token, site.hash(resolved.value)));
    }

    method RewriteUriAttributes(line: string) returns (r: Option<string>)
      modifies this
      ensures r == Rewritten(site, Pieces(line))
      ensures resources == Record(site, old(resources), Pieces(line))
    {
      var output, remaining := "", line;
      ghost var done: seq<Piece> := [];
      while true
        invariant Pieces(line) == done + Pieces(remaining)
        invariant Progress(site, old(resources), done, output, resources)
        decreases |remaining|
      {
        var start := Find(remaining, MARKER);
        if start.None? {
          break;
        }
        var valueStart := start.value + 5;
        var end := Find(remaining[valueStart..], "\"");
        if end.None? {
          break;
        }
        var value, next := remaining[valueStart..][..end.value], remaining[valueStart..][end.value..];
        TagStep(site, line, old(resources), done, output, resources, remaining, start.value, end.value);
        var local := RegisterResource(value);
        if local.None? {
          return None;
        }
        output := output + (remaining[..valueStart] + local.value);
        done, remaining := done + [Keep(remaining[..valueStart]), Uri(value)], next;
      }
      assert Pieces(remaining) == [Keep(remaining)];
      OneKeep(site, resources, remaining);
      StepProgress(site, old(resources), done, output, resources, [Keep(remaining)]);
      r := Some(output + remaining);
    }

    method RewriteContent(content: string) returns (r: Option<string>)
      modifies this
      ensures r == Rewritten(site, ContentPieces(content))
      ensures resources == Record(site, old(resources), ContentPieces(content))
    {
      if content != "" && content[0] == '#' {
        r := RewriteUriAttributes(content);
      } else if Trim(content) == "" {
        OneKeep(site, resources, content);
        r := Some(content);
      } else {
        r := RegisterResource(Trim(content));
      }
    }

    method RewritePlaylist(text: string) returns (r: Option<string>)
      modifies this
      ensures r == Rewritten(site, TextPieces(text))
      ensures resources == Record(site, old(resources), TextPieces(text))
    {
      var output, rest := "", text;
      ghost var done: seq<Piece> := [];
      while rest != ""
        invariant TextPieces(text) == done + TextPieces(rest)
        invariant Progress(site, old(resources), done, output, resources)
        decreases |rest|
      {
        var line := NextLine(rest);
        ghost var table := resources;
        TextUnfolds(rest);
        Regrouped(done, LinePieces(line), TextPieces(rest[|line|..]));
        EndLine(site, table, ContentPieces(Content(line)), Ending(line));
        StepProgress(site, old(resources), done, output, table, LinePieces(line));
        var rewritten := RewriteContent(Content(line));
        if rewritten.None? {
          StopProgress(site, old(resources), done, output, table, LinePieces(line), TextPieces(rest[|line|..]));
          return None;
        }
        output := output + (rewritten.value + Ending(line));
        done := done + LinePieces(line);
        rest := rest[|line|..];
      }
      assert done + [] == done;
      r := Some(output);
    }
  }
}
